/** Request-body constraints of the auth schemas: `UsernameType`, `PasswordType`,
    `PASSWORD_REGEX` and the models that combine them. Character classes are
    the ASCII ones. */
module Schemas {

  predicate IsAsciiLetter(c: char) { 'A' <= c <= 'Z' || 'a' <= c <= 'z' }

  predicate IsAsciiDigit(c: char) { '0' <= c <= '9' }

  /** `\w`. */
  predicate IsWordChar(c: char) { IsAsciiLetter(c) || IsAsciiDigit(c) || c == '_' }

  /** `[\w.@+-]`. */
  predicate IsUsernameChar(c: char) { IsWordChar(c) || c == '.' || c == '@' || c == '+' || c == '-' }

  /** `[@$!%*?&]`. */
  predicate IsPasswordSpecial(c: char) {
    c == '@' || c == '$' || c == '!' || c == '%' || c == '*' || c == '?' || c == '&'
  }

  /** `[A-Za-z\d@$!%*?&]`. */
  predicate IsPasswordChar(c: char) { IsAsciiLetter(c) || IsAsciiDigit(c) || IsPasswordSpecial(c) }

  const USERNAME_MIN := 3
  const USERNAME_MAX := 50
  const PASSWORD_MIN := 8
  const PASSWORD_MAX := 100

  /** `UsernameType`: length 3..50 and the pattern `^[\w.@+-]+$`. */
  predicate ValidUsername(s: string) {
    USERNAME_MIN <= |s| <= USERNAME_MAX && forall i :: 0 <= i < |s| ==> IsUsernameChar(s[i])
  }

  /** `PasswordType` and the `Field(min_length=8, max_length=100)` of the reset form. */
  predicate ValidPasswordLength(s: string) {
    PASSWORD_MIN <= |s| <= PASSWORD_MAX
  }

  // ------------------------------------------------- PASSWORD_REGEX, as a regex

  /** No newline strictly before position i: where `.*` can reach. */
  ghost predicate DotReaches(s: string, i: int) {
    0 <= i <= |s| && forall j :: 0 <= j < i ==> s[j] != '\n'
  }

  /** `(?=.*[A-Za-z])` at the start. */
  ghost predicate LookaheadLetter(s: string) {
    exists i :: 0 <= i < |s| && DotReaches(s, i) && IsAsciiLetter(s[i])
  }

  /** `(?=.*\d)` at the start. */
  ghost predicate LookaheadDigit(s: string) {
    exists i :: 0 <= i < |s| && DotReaches(s, i) && IsAsciiDigit(s[i])
  }

  /** `(?=.*[@$!%*?&])` at the start. */
  ghost predicate LookaheadSpecial(s: string) {
    exists i :: 0 <= i < |s| && DotReaches(s, i) && IsPasswordSpecial(s[i])
  }

  /** Python's `$`: the end of the string, or just before a final newline. */
  ghost predicate DollarAt(s: string, p: int) {
    p == |s| || (0 <= p == |s| - 1 && s[p] == '\n')
  }

  /** `[A-Za-z\d@$!%*?&]{8,}$` read from the start: a run of p >= 8 class characters ending where `$` matches. */
  ghost predicate ClassRunThenEnd(s: string) {
    exists p :: PASSWORD_MIN <= p <= |s| && (forall j :: 0 <= j < p ==> IsPasswordChar(s[j])) && DollarAt(s, p)
  }

  /** `re.match(PASSWORD_REGEX, s)` succeeds. */
  ghost predicate MatchesPasswordRegex(s: string) {
    LookaheadLetter(s) && LookaheadDigit(s) && LookaheadSpecial(s) && ClassRunThenEnd(s)
  }

  // --------------------------------------------- PASSWORD_REGEX, as a policy

  /** The string without the one final newline `$` tolerates. */
  function WithoutFinalNewline(s: string): (b: string)
    ensures |b| <= |s| && b == s[..|b|]
    ensures |s| - |b| <= 1
  {
    if |s| > 0 && s[|s| - 1] == '\n' then s[..|s| - 1] else s
  }

  predicate AllPasswordChars(s: string) { forall i :: 0 <= i < |s| ==> IsPasswordChar(s[i]) }
  predicate HasLetter(s: string) { exists i :: 0 <= i < |s| && IsAsciiLetter(s[i]) }
  predicate HasDigit(s: string) { exists i :: 0 <= i < |s| && IsAsciiDigit(s[i]) }
  predicate HasSpecial(s: string) { exists i :: 0 <= i < |s| && IsPasswordSpecial(s[i]) }

  /** What the regex demands, said plainly: at least 8 characters from the
      class, among them a letter, a digit and a special character, plus an
      optional final newline. No mix of cases is required. */
  predicate PasswordPolicy(s: string) {
    var body := WithoutFinalNewline(s);
    |body| >= PASSWORD_MIN && AllPasswordChars(body) && HasLetter(body) && HasDigit(body) && HasSpecial(body)
  }

  lemma PolicyImpliesRegex(s: string)
    requires PasswordPolicy(s)
    ensures MatchesPasswordRegex(s)
  {
    var body := WithoutFinalNewline(s);
    var p := |body|;
    assert forall j :: 0 <= j < p ==> s[j] == body[j];
    assert ClassRunThenEnd(s) by {
      assert PASSWORD_MIN <= p <= |s| && (forall j :: 0 <= j < p ==> IsPasswordChar(s[j])) && DollarAt(s, p);
    }
    var a :| 0 <= a < p && IsAsciiLetter(body[a]);
    var d :| 0 <= d < p && IsAsciiDigit(body[d]);
    var x :| 0 <= x < p && IsPasswordSpecial(body[x]);
    assert DotReaches(s, a) && DotReaches(s, d) && DotReaches(s, x);
  }

  lemma RegexImpliesPolicy(s: string)
    requires MatchesPasswordRegex(s)
    ensures PasswordPolicy(s)
  {
    var body := WithoutFinalNewline(s);
    var p := |body|;
    var q :| PASSWORD_MIN <= q <= |s| && (forall j :: 0 <= j < q ==> IsPasswordChar(s[j])) && DollarAt(s, q);
    assert q == p by {
      if q == |s| && |s| > 0 {
        assert IsPasswordChar(s[|s| - 1]);
      }
    }
    assert body == s[..q];
    var a :| 0 <= a < |s| && DotReaches(s, a) && IsAsciiLetter(s[a]);
    var d :| 0 <= d < |s| && DotReaches(s, d) && IsAsciiDigit(s[d]);
    var x :| 0 <= x < |s| && DotReaches(s, x) && IsPasswordSpecial(s[x]);
    assert a < q && d < q && x < q by {
      if q < |s| {
        assert s[q] == '\n';
      }
    }
    assert body[a] == s[a] && body[d] == s[d] && body[x] == s[x];
  }

  /** The plain policy is exactly the regex. */
  lemma PasswordPolicyIsRegex(s: string)
    ensures PasswordPolicy(s) <==> MatchesPasswordRegex(s)
  {
    if PasswordPolicy(s) {
      PolicyImpliesRegex(s);
    }
    if MatchesPasswordRegex(s) {
      RegexImpliesPolicy(s);
    }
  }

  /** Every password the regex accepts has at least 8 characters. */
  lemma RegexImpliesMinLength(s: string)
    requires MatchesPasswordRegex(s)
    ensures |s| >= PASSWORD_MIN
  {
    PasswordPolicyIsRegex(s);
  }

  /** The regex asks for no upper-case letter, despite its error message. */
  lemma LowerCaseOnlyAccepted()
    ensures MatchesPasswordRegex("abcd1234!")
  {
    var s := "abcd1234!";
    assert WithoutFinalNewline(s) == s;
    assert AllPasswordChars(s) by {
      forall i | 0 <= i < |s| ensures IsPasswordChar(s[i]) { }
    }
    assert IsAsciiLetter(s[0]) && IsAsciiDigit(s[4]) && IsPasswordSpecial(s[8]);
    assert HasLetter(s) && HasDigit(s) && HasSpecial(s);
    PasswordPolicyIsRegex(s);
  }

  /** And one trailing newline slips through. */
  lemma TrailingNewlineAccepted()
    ensures MatchesPasswordRegex("abcd1234!\n")
  {
    var s := "abcd1234!\n";
    var body := WithoutFinalNewline(s);
    assert body == "abcd1234!";
    assert AllPasswordChars(body) by {
      forall i | 0 <= i < |body| ensures IsPasswordChar(body[i]) { }
    }
    assert IsAsciiLetter(body[0]) && IsAsciiDigit(body[4]) && IsPasswordSpecial(body[8]);
    assert HasLetter(body) && HasDigit(body) && HasSpecial(body);
    PasswordPolicyIsRegex(s);
  }

  // ------------------------------------------------------------- the models

  /** `UserCreateModel`: the pydantic object a signup body becomes. Its fields
      can be reassigned after validation (as `sanitize_input` does). The
      `EmailStr` check is not modelled. */
  class UserCreateModel {
    var username: string
    var email: string
    var password: string

    constructor (username: string, email: string, password: string)
      ensures this.username == username && this.email == email && this.password == password
    {
      this.username := username;
      this.email := email;
      this.password := password;
    }
  }

  /** The signup body validates: UsernameType, PasswordType, then the
      `validate_password` field validator. */
  predicate SignupValid(username: string, password: string) {
    ValidUsername(username) && ValidPasswordLength(password) && PasswordPolicy(password)
  }

  datatype UserLoginModel = UserLoginModel(username: string, password: string)

  /** The login body validates: only lengths and username characters, no regex. */
  predicate LoginValid(m: UserLoginModel) {
    ValidUsername(m.username) && ValidPasswordLength(m.password)
  }

  datatype PasswordResetConfirmModel = PasswordResetConfirmModel(newPassword: string, confirmPassword: string)

  /** One field of the reset form: length 8..100, then the regex. */
  predicate ResetFieldValid(s: string) {
    ValidPasswordLength(s) && PasswordPolicy(s)
  }

  /** The reset form validates each field on its own; equality is not checked here. */
  predicate ResetConfirmValid(m: PasswordResetConfirmModel) {
    ResetFieldValid(m.newPassword) && ResetFieldValid(m.confirmPassword)
  }

  /** A login password need not satisfy the signup rules. */
  lemma LoginSkipsRegex()
    ensures LoginValid(UserLoginModel("alice", "password"))
    ensures !SignupValid("alice", "password")
  {
    var p := "password";
    assert !HasDigit(p) by {
      forall i | 0 <= i < |p| ensures !IsAsciiDigit(p[i]) { }
    }
  }

  /** Two valid reset fields may still differ. */
  lemma ResetFieldsIndependent()
    ensures ResetConfirmValid(PasswordResetConfirmModel("abcd1234!", "abcd1234?"))
  {
    var s, t := "abcd1234!", "abcd1234?";
    assert WithoutFinalNewline(s) == s && WithoutFinalNewline(t) == t;
    assert AllPasswordChars(s) by {
      forall i | 0 <= i < |s| ensures IsPasswordChar(s[i]) { }
    }
    assert AllPasswordChars(t) by {
      forall i | 0 <= i < |t| ensures IsPasswordChar(t[i]) { }
    }
    assert HasLetter(s) && HasDigit(s) && HasSpecial(s) by {
      assert IsAsciiLetter(s[0]) && IsAsciiDigit(s[4]) && IsPasswordSpecial(s[8]);
    }
    assert HasLetter(t) && HasDigit(t) && HasSpecial(t) by {
      assert IsAsciiLetter(t[0]) && IsAsciiDigit(t[4]) && IsPasswordSpecial(t[8]);
    }
  }
}
