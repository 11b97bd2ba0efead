/** Integer arithmetic shared by the rules. */
module Arithmetic {
  function Max(a: int, b: int): int { if a < b then b else a }
  function Min(a: int, b: int): int { if a < b then a else b }
  function Abs(a: int): int { if a < 0 then -a else a }

  function Pow(base: nat, e: nat): nat {
    if e == 0 then 1 else base * Pow(base, e - 1)
  }

  lemma {:induction false} PowPositive(base: nat, e: nat)
    requires base > 0
    ensures Pow(base, e) > 0
  {
    if e > 0 {
      PowPositive(base, e - 1);
    }
  }

  lemma QuotientUnique(n: int, d: nat, q: int, r: nat)
    requires d > 0 && n == d * q + r && r < d
    ensures n / d == q
  {
    var e := n / d;
    assert d * e <= n < d * (e + 1);
    assert e + 1 <= q ==> d * (e + 1) <= d * q;
    assert q + 1 <= e ==> d * (q + 1) <= d * e;
  }

  /** The first of several checks to fail. */
  ghost predicate FirstAt(fails: seq<bool>, i: nat) {
    i < |fails| && fails[i] && forall j :: 0 <= j < i ==> !fails[j]
  }

  lemma FirstOfEight(fails: seq<bool>, i: nat)
    requires |fails| == 8 && i < 8
    ensures FirstAt(fails, i) <==>
      && fails[i] && (i > 0 ==> !fails[0]) && (i > 1 ==> !fails[1]) && (i > 2 ==> !fails[2]) && (i > 3 ==> !fails[3])
      && (i > 4 ==> !fails[4]) && (i > 5 ==> !fails[5]) && (i > 6 ==> !fails[6])
  {
  }
}
