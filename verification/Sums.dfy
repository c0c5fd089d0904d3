/** Sums over the entries of a sequence. */
module Sums {
  function Sum<T>(s: seq<T>, f: T -> int): int {
    if s == [] then 0 else Sum(s[..|s| - 1], f) + f(s[|s| - 1])
  }

  lemma SumSnoc<T>(s: seq<T>, x: T, f: T -> int)
    ensures Sum(s + [x], f) == Sum(s, f) + f(x)
  {
    assert (s + [x])[..|s|] == s;
  }

  lemma {:induction false} SumUpdate<T>(s: seq<T>, i: nat, x: T, f: T -> int)
    requires i < |s|
    ensures Sum(s[i := x], f) == Sum(s, f) - f(s[i]) + f(x)
  {
    var n := |s| - 1;
    if i == n {
      assert s[i := x][..n] == s[..n];
    } else {
      SumUpdate(s[..n], i, x, f);
      assert s[i := x][..n] == s[..n][i := x];
    }
  }

  lemma {:induction false} SumSame<T, U>(s: seq<T>, f: T -> int, t: seq<U>, g: U -> int)
    requires |s| == |t| && forall i :: 0 <= i < |s| ==> f(s[i]) == g(t[i])
    ensures Sum(s, f) == Sum(t, g)
  {
    if s != [] {
      SumSame(s[..|s| - 1], f, t[..|s| - 1], g);
    }
  }

  lemma {:induction false} SumConstant<T>(s: seq<T>, f: T -> int, c: int)
    requires forall i :: 0 <= i < |s| ==> f(s[i]) == c
    ensures Sum(s, f) == c * |s|
  {
    if s != [] {
      SumConstant(s[..|s| - 1], f, c);
    }
  }

  /** A sum of nonnegative terms is at least each of them. */
  lemma {:induction false} SumAtLeast<T>(s: seq<T>, f: T -> int, i: nat)
    requires i < |s| && forall j :: 0 <= j < |s| ==> f(s[j]) >= 0
    ensures Sum(s, f) >= f(s[i])
  {
    var n := |s| - 1;
    SumNonnegative(s[..n], f);
    if i < n {
      SumAtLeast(s[..n], f, i);
    }
  }

  lemma {:induction false} SumNonnegative<T>(s: seq<T>, f: T -> int)
    requires forall j :: 0 <= j < |s| ==> f(s[j]) >= 0
    ensures Sum(s, f) >= 0
  {
    if s != [] {
      SumNonnegative(s[..|s| - 1], f);
    }
  }

  /** A sum of zeros and ones is the number of ones. */
  lemma {:induction false} SumIsNumber<T>(s: seq<T>, f: T -> int) returns (ones: set<int>)
    requires forall i :: 0 <= i < |s| ==> f(s[i]) == 0 || f(s[i]) == 1
    ensures forall i :: i in ones <==> 0 <= i < |s| && f(s[i]) == 1
    ensures Sum(s, f) == |ones|
  {
    if s == [] {
      ones := {};
    } else {
      var n := |s| - 1;
      ones := SumIsNumber(s[..n], f);
      if f(s[n]) == 1 {
        assert n !in ones;
        ones := ones + {n};
      }
    }
  }
}
