/** The string operations `sanitize_input` relies on: markupsafe's `escape`,
    and Python's `str.strip` and `str.lower`. */
module Text {

  // ---------------------------------------------------------------- escape

  /** The characters markupsafe replaces by an entity. */
  predicate IsHtmlSpecial(c: char) {
    c == '&' || c == '<' || c == '>' || c == '"' || c == '\''
  }

  predicate IsRawMarkup(c: char) {
    c == '<' || c == '>' || c == '"' || c == '\''
  }

  function EscapeChar(c: char): (e: string)
    ensures |e| >= 1
    ensures !IsHtmlSpecial(c) ==> e == [c]
    ensures forall i :: 0 <= i < |e| ==> !IsRawMarkup(e[i])
  {
    match c
    case '&' => "&amp;"
    case '<' => "&lt;"
    case '>' => "&gt;"
    case '"' => "&#34;"
    case '\'' => "&#39;"
    case _ => [c]
  }

  /** markupsafe `escape(s)`. */
  function HtmlEscape(s: string): (r: string)
    ensures |r| >= |s|
    ensures forall i :: 0 <= i < |r| ==> !IsRawMarkup(r[i])
  {
    if s == [] then [] else EscapeChar(s[0]) + HtmlEscape(s[1..])
  }

  predicate StartsWith(s: string, prefix: string) {
    |prefix| <= |s| && s[..|prefix|] == prefix
  }

  /** The inverse of HtmlEscape on the five entities it produces. */
  function HtmlUnescape(r: string): (s: string)
    decreases |r|
  {
    if r == [] then []
    else if StartsWith(r, "&amp;") then "&" + HtmlUnescape(r[5..])
    else if StartsWith(r, "&lt;") then "<" + HtmlUnescape(r[4..])
    else if StartsWith(r, "&gt;") then ">" + HtmlUnescape(r[4..])
    else if StartsWith(r, "&#34;") then "\"" + HtmlUnescape(r[5..])
    else if StartsWith(r, "&#39;") then "'" + HtmlUnescape(r[5..])
    else [r[0]] + HtmlUnescape(r[1..])
  }

  lemma UnescapeAfterEntity(e: string, rest: string, c: char)
    requires e == EscapeChar(c)
    ensures HtmlUnescape(e + rest) == [c] + HtmlUnescape(rest)
  {
    var r := e + rest;
    assert r[..|e|] == e;
    assert r[|e|..] == rest;
    if !IsHtmlSpecial(c) {
      assert r[0] == c;
      assert !StartsWith(r, "&amp;") && !StartsWith(r, "&lt;") && !StartsWith(r, "&gt;");
      assert !StartsWith(r, "&#34;") && !StartsWith(r, "&#39;");
    } else if c == '<' {
      assert !StartsWith(r, "&amp;") by { assert r[1] == 'l'; }
    } else if c == '>' {
      assert !StartsWith(r, "&amp;") by { assert r[1] == 'g'; }
      assert !StartsWith(r, "&lt;") by { assert r[1] == 'g'; }
    } else if c == '"' {
      assert !StartsWith(r, "&amp;") by { assert r[1] == '#'; }
      assert !StartsWith(r, "&lt;") by { assert r[1] == '#'; }
      assert !StartsWith(r, "&gt;") by { assert r[1] == '#'; }
    } else if c == '\'' {
      assert !StartsWith(r, "&amp;") by { assert r[1] == '#'; }
      assert !StartsWith(r, "&lt;") by { assert r[1] == '#'; }
      assert !StartsWith(r, "&gt;") by { assert r[1] == '#'; }
      assert !StartsWith(r, "&#34;") by { assert r[3] == '9'; }
    }
  }

  /** Escaping loses nothing: the original can always be recovered. */
  lemma {:induction false} UnescapeEscape(s: string)
    ensures HtmlUnescape(HtmlEscape(s)) == s
  {
    if s != [] {
      UnescapeAfterEntity(EscapeChar(s[0]), HtmlEscape(s[1..]), s[0]);
      UnescapeEscape(s[1..]);
      assert [s[0]] + s[1..] == s;
    }
  }

  /** Hence two different usernames never sanitise to the same one. */
  lemma HtmlEscapeInjective(s: string, t: string)
    requires HtmlEscape(s) == HtmlEscape(t)
    ensures s == t
  {
    UnescapeEscape(s);
    UnescapeEscape(t);
  }

  // ------------------------------------------------------- strip and lower

  /** Python's `str.isspace`. */
  predicate IsSpace(c: char) {
    c == ' ' || ('\t' <= c <= '\r') || ('\U{1C}' <= c <= '\U{1F}')
    || c == '\U{85}' || c == '\U{A0}' || c == '\U{1680}'
    || ('\U{2000}' <= c <= '\U{200A}') || c == '\U{2028}' || c == '\U{2029}'
    || c == '\U{202F}' || c == '\U{205F}' || c == '\U{3000}'
  }

  function LStrip(s: string): (r: string)
    ensures |r| <= |s| && r == s[|s| - |r|..]
    ensures r != [] ==> !IsSpace(r[0])
    ensures forall i :: 0 <= i < |s| - |r| ==> IsSpace(s[i])
  {
    if s != [] && IsSpace(s[0]) then LStrip(s[1..]) else s
  }

  function RStrip(s: string): (r: string)
    ensures |r| <= |s| && r == s[..|r|]
    ensures r != [] ==> !IsSpace(r[|r| - 1])
    ensures forall i :: |r| <= i < |s| ==> IsSpace(s[i])
  {
    if s != [] && IsSpace(s[|s| - 1]) then RStrip(s[..|s| - 1]) else s
  }

  /** `s.strip()`. */
  function Strip(s: string): string {
    RStrip(LStrip(s))
  }

  predicate Trimmed(s: string) {
    s == [] || (!IsSpace(s[0]) && !IsSpace(s[|s| - 1]))
  }

  lemma StripTrims(s: string)
    ensures Trimmed(Strip(s))
  {
    var l := LStrip(s);
    var r := RStrip(l);
    if r != [] {
      assert r[0] == l[0];
    }
  }

  lemma StripOfTrimmed(s: string)
    requires Trimmed(s)
    ensures Strip(s) == s
  {
  }

  function LowerChar(c: char): (d: char)
    ensures IsSpace(d) <==> IsSpace(c)
  {
    if 'A' <= c <= 'Z' then (c as int + 32) as char else c
  }

  /** `s.lower()`, on the ASCII letters. */
  function Lower(s: string): (r: string)
    ensures |r| == |s|
    ensures forall i :: 0 <= i < |s| ==> r[i] == LowerChar(s[i])
  {
    seq(|s|, i requires 0 <= i < |s| => LowerChar(s[i]))
  }

  /** The address normalisation of `sanitize_input`. */
  function NormalizeEmail(email: string): (r: string)
    ensures Trimmed(r)
    ensures forall i :: 0 <= i < |r| ==> !('A' <= r[i] <= 'Z')
  {
    StripTrims(email);
    Lower(Strip(email))
  }

  /** Normalising an already normalised address changes nothing. */
  lemma NormalizeEmailIdempotent(email: string)
    ensures NormalizeEmail(NormalizeEmail(email)) == NormalizeEmail(email)
  {
    var n := NormalizeEmail(email);
    StripOfTrimmed(n);
    assert Lower(n) == n;
  }
}
