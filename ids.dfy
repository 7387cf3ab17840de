/** Decimal rendering of integers (Python's `str(int)`) and the supply of fresh
    identifiers that stands for `uuid.uuid4()`: the model only needs that no
    identifier is handed out twice, so the n-th identifier is the decimal
    string of n. */
module Ids {

  function DigitChar(d: nat): (c: char)
    requires d < 10
    ensures '0' <= c <= '9'
  {
    "0123456789"[d]
  }

  /** `str(n)` for a non-negative int. */
  function NatToString(n: nat): (s: string)
    ensures |s| >= 1
    ensures n < 10 <==> |s| == 1
    ensures forall i :: 0 <= i < |s| ==> '0' <= s[i] <= '9'
    decreases n
  {
    if n < 10 then [DigitChar(n)] else NatToString(n / 10) + [DigitChar(n % 10)]
  }

  /** `str(i)` for any int. */
  function IntToString(i: int): (s: string)
    ensures |s| >= 1
    ensures s[0] == '-' <==> i < 0
  {
    if i < 0 then "-" + NatToString(-i) else NatToString(i)
  }

  lemma DigitCharInjective(a: nat, b: nat)
    requires a < 10 && b < 10 && DigitChar(a) == DigitChar(b)
    ensures a == b
  {
  }

  /** Different numbers print differently. */
  lemma {:induction false} NatToStringInjective(a: nat, b: nat)
    requires NatToString(a) == NatToString(b)
    ensures a == b
    decreases a
  {
    var s := NatToString(a);
    if a < 10 {
      assert b < 10;
      DigitCharInjective(a, b);
    } else {
      assert b >= 10;
      assert s[|s| - 1] == DigitChar(a % 10) == DigitChar(b % 10);
      DigitCharInjective(a % 10, b % 10);
      assert NatToString(a / 10) == s[..|s| - 1] == NatToString(b / 10);
      NatToStringInjective(a / 10, b / 10);
    }
  }

  /** The source of fresh identifiers; `issued` is every identifier handed out so far. */
  class UuidSupply {
    var next: nat
    ghost var issued: set<string>

    ghost predicate Valid()
      reads this
    {
      issued == set k: nat | k < next :: NatToString(k)
    }

    constructor ()
      ensures Valid() && issued == {}
    {
      next := 0;
      issued := {};
    }

    /** `uuid.uuid4()`: an identifier never handed out before. */
    method Fresh() returns (u: string)
      requires Valid()
      modifies this
      ensures Valid()
      ensures u !in old(issued)
      ensures issued == old(issued) + {u}
    {
      u := NatToString(next);
      forall k: nat | k < next
        ensures NatToString(k) != u
      {
        if NatToString(k) == u {
          NatToStringInjective(k, next);
        }
      }
      next := next + 1;
      issued := issued + {u};
    }
  }
}
