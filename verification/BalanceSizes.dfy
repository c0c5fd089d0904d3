/** From how many clusters on the tests of the balance check can matter. */
module BalanceSizes {
  import opened Balance
  import opened Reals

  lemma Prefix(vs: seq<real>, k: nat)
    requires k < |vs|
    ensures Sum(vs[..k + 1]) == Sum(vs[..k]) + vs[k]
    ensures Squares(vs[..k + 1]) == Squares(vs[..k]) + Sq(vs[k])
    ensures Max(vs[..k + 1]) == if vs[k] > Max(vs[..k]) then vs[k] else Max(vs[..k])
  {
    assert vs[..k + 1][..k] == vs[..k];
  }

  /** A stretch of ones after a larger maximum. */
  lemma {:induction false} Ones(vs: seq<real>, k: nat, n: nat)
    requires k + n <= |vs| && Max(vs[..k]) >= 1.0 && forall i :: k <= i < k + n ==> vs[i] == 1.0
    ensures Sum(vs[..k + n]) == Sum(vs[..k]) + n as real
    ensures Squares(vs[..k + n]) == Squares(vs[..k]) + n as real
    ensures Max(vs[..k + n]) == Max(vs[..k])
  {
    hide Sum, Squares, Max;
    if n > 0 {
      Ones(vs, k, n - 1);
      Prefix(vs, k + n - 1);
    }
  }

  /** k clusters with the rate x, the others with the rate 1. */
  function Peaked(n: nat, k: nat, x: real): (vs: seq<real>)
    ensures |vs| == n && (x > 0.0 ==> Positive(vs))
  {
    seq(n, i => if i < k then x else 1.0)
  }

  lemma PeakedFigures(n: nat, k: nat, x: real)
    requires x >= 1.0 && 1 <= k <= 2 && k <= n
    ensures var vs, m := Peaked(n, k, x), (n - k) as real;
            Sum(vs) == k as real * x + m && Squares(vs) == k as real * Sq(x) + m && Max(vs) == x
  {
    var vs := Peaked(n, k, x);
    assert Sum(vs[..0]) == 0.0 && Squares(vs[..0]) == 0.0 && Max(vs[..0]) == 0.0;
    hide Sum, Squares, Max, Sq;
    Prefix(vs, 0);
    if k == 2 {
      Prefix(vs, 1);
    }
    Ones(vs, k, n - k);
    assert vs[..n] == vs;
  }

  /** Four clusters or more, one of them a hundred times as large as the others together, are skewed. */
  lemma FourCanBeSkewed(n: nat) returns (vs: seq<real>, st: Stats)
    requires n >= 4
    ensures |vs| == n && Positive(vs) && Describes(st, vs) && Skewed(st)
  {
    hide Sum, Squares, Deviations, Max, Sq, Peaked;
    var m := (n - 1) as real;
    vs := Peaked(n, 1, 100.0 * m);
    st := Figures(vs);
    PeakedFigures(n, 1, 100.0 * m);
    CvBetweenShares(vs, st);
    LargeShare(n as real, m, Sum(vs), st.share, st.cvSquared);
  }

  lemma LargeShare(n: real, m: real, total: real, share: real, cv: real)
    requires n >= 4.0 && m > 0.0 && total == 100.0 * m + m && share * total == 100.0 * m
    requires n * Sq(share) <= cv + 1.0
    ensures share * 100.0 > 40.0 && cv >= 2.25
  {
    assert share * 101.0 * m == share * total;
    DivideOut(100.0, share * 101.0, m);
    var d := share - 0.99;
    assert Sq(share) == Sq(d) + 1.98 * d + 0.9801;
    Scale(4.0, n, Sq(share));
  }

  /** The warning can fire for n clusters exactly when there are at least four. */
  lemma WarningPossibleIff(n: nat)
    requires n > 0
    ensures (exists vs, st :: |vs| == n && Positive(vs) && Describes(st, vs) && Skewed(st)) <==> n >= 4
  {
    if n >= 4 {
      var vs, st := FourCanBeSkewed(n);
      assert |vs| == n && Positive(vs) && Describes(st, vs) && Skewed(st);
    }
    forall vs, st | |vs| == n && Positive(vs) && Describes(st, vs) && Skewed(st) ensures n >= 4 {
      if n <= 3 {
        UpToThreeNeverSkewed(vs, st);
      }
    }
  }

  /** Ten clusters or more can pass the CV test with a largest share of exactly 40%, which is not skewed. */
  lemma TenNeedTheShareTest(n: nat) returns (vs: seq<real>, st: Stats)
    requires n >= 10
    ensures |vs| == n && Positive(vs) && Describes(st, vs)
    ensures st.cvSquared >= 2.25 && st.share == 0.4 && !Skewed(st)
  {
    hide Sum, Squares, Deviations, Max, Sq, Peaked;
    var m := (n - 2) as real;
    vs := Peaked(n, 2, 2.0 * m);
    st := Figures(vs);
    PeakedFigures(n, 2, 2.0 * m);
    CvIdentity(vs, st);
    TwoFifths(n as real, m, Sum(vs), Squares(vs), st.share, st.cvSquared);
  }

  lemma TwoFifths(n: real, m: real, total: real, q: real, share: real, cv: real)
    requires m >= 8.0 && n == m + 2.0 && total == 5.0 * m && q == 2.0 * Sq(2.0 * m) + m
    requires share * total == 2.0 * m && (cv + 1.0) * Sq(total) == n * q
    ensures share == 0.4 && cv >= 2.25
  {
    DivideOut(share, 0.4, total);
    DivideOut(0.4, share, total);
    CubicBound(m, Sq(m));
    ScaledSquares(m);
    hide Sq;
    assert q == 8.0 * Sq(m) + m;
    DivideOut(3.25, cv + 1.0, Sq(total));
  }

  lemma ScaledSquares(m: real)
    requires m > 0.0
    ensures Sq(2.0 * m) == 4.0 * Sq(m) && Sq(5.0 * m) == 25.0 * Sq(m) && Sq(m) == m * m
  {
    assert Sq(m) == m * m;
    assert Sq(2.0 * m) == (2.0 * m) * (2.0 * m);
    assert Sq(5.0 * m) == (5.0 * m) * (5.0 * m);
  }

  lemma CubicBound(m: real, mm: real)
    requires m >= 8.0 && mm == m * m
    ensures (m + 2.0) * (8.0 * mm + m) >= 3.25 * (25.0 * mm)
  {
    Scale(8.0, m, m);
    Product(m - 8.0, 8.0 * mm - 0.25 * m);
    Expand(m, mm);
  }

  lemma Expand(m: real, mm: real)
    requires mm == m * m
    ensures (m + 2.0) * (8.0 * mm + m) == 8.0 * (m * mm) + 17.0 * mm + 2.0 * m
    ensures (m - 8.0) * (8.0 * mm - 0.25 * m) == 8.0 * (m * mm) - 64.25 * mm + 2.0 * m
  {
  }

  /** The share test adds nothing to the CV test exactly when there are at most nine clusters. */
  lemma ShareTestImpliedIff(n: nat)
    requires n > 0
    ensures (forall vs, st :: |vs| == n && Positive(vs) && Describes(st, vs) && st.cvSquared >= 2.25 ==> Skewed(st))
       <==> n <= 9
  {
    if n <= 9 {
      forall vs, st | |vs| == n && Positive(vs) && Describes(st, vs) && st.cvSquared >= 2.25 ensures Skewed(st) {
        ShareTestImpliedUpToNine(vs, st);
      }
    } else {
      var vs, st := TenNeedTheShareTest(n);
      assert |vs| == n && Positive(vs) && Describes(st, vs) && st.cvSquared >= 2.25;
    }
  }
}
