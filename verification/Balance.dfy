/** Products and quotients of reals, one fact at a time: larger nonlinear goals are assembled from these. */
module Reals {
  /** A product with its sign. */
  function Mul(x: real, y: real): (r: real)
    ensures (x > 0.0 && y > 0.0) || (x < 0.0 && y < 0.0) ==> r > 0.0
    ensures x == 0.0 || y == 0.0 ==> r == 0.0
  {
    x * y
  }

  function Sq(x: real): (r: real)
    ensures r >= 0.0 && (x != 0.0 ==> r > 0.0)
  {
    Mul(x, x)
  }

  lemma Product(a: real, b: real)
    ensures a > 0.0 && b > 0.0 ==> a * b > 0.0
    ensures a >= 0.0 && b >= 0.0 ==> a * b >= 0.0
  {
  }

  lemma Scale(a: real, b: real, c: real)
    requires a <= b && c >= 0.0
    ensures a * c <= b * c && c * a <= c * b
  {
    Product(b - a, c);
  }

  lemma Regroup(a: real, b: real, c: real)
    ensures a * (b * c) == (a * b) * c
  {
  }

  lemma Exchange(s: real, t: real)
    ensures Sq(s) * Sq(t) == Sq(s * t)
  {
  }

  lemma Quotient(a: real, b: real)
    requires b != 0.0
    ensures (a / b) * b == a
  {
  }

  lemma PositiveQuotient(a: real, b: real)
    requires a > 0.0 && b > 0.0
    ensures a / b > 0.0
  {
  }

  lemma QuotientAbove(a: real, b: real, k: real)
    requires b > 0.0
    ensures a / b > k <==> a > k * b
  {
    Quotient(a, b);
    SameSign(b, a / b - k);
    assert b * (a / b - k) == (a / b) * b - k * b;
  }

  /** A positive factor keeps the sign. */
  lemma SameSign(c: real, x: real)
    requires c > 0.0
    ensures c * x > 0.0 <==> x > 0.0
  {
    Product(c, x);
    Product(c, -x);
    assert c * -x == -(c * x);
  }

  lemma DivideOut(a: real, b: real, t: real)
    requires t > 0.0 && a * t <= b * t
    ensures a <= b
  {
    Product(a - b, t);
  }
}

/** How evenly clusters share the ingestion load: the coefficient of variation against the largest share. */
module Balance {
  import opened Reals
  import opened Sequences

  /** One series of the query's answer: its value, if it parses, and its cluster. */
  datatype Reading = Reading(value: Option<real>, cluster: string)

  /** Mean, square of the coefficient of variation, and share of the largest rate. */
  datatype Stats = Stats(mean: real, cvSquared: real, share: real)

  datatype Report =
    | TooFew(count: nat)
    | Judged(stats: Stats, maxCluster: string, minRate: real, minCluster: string, skewed: bool)

  // ---------- specification ----------

  predicate Counts(r: Reading) {
    r.value.Some? && r.value.value > 0.0
  }

  function Rates(readings: seq<Reading>): (rates: seq<real>)
    ensures Positive(rates)
  {
    if readings == [] then []
    else
      var last := readings[|readings| - 1];
      Rates(readings[..|readings| - 1]) + if Counts(last) then [last.value.value] else []
  }

  function Sum(vs: seq<real>): real {
    if vs == [] then 0.0 else Sum(vs[..|vs| - 1]) + vs[|vs| - 1]
  }

  function Squares(vs: seq<real>): real {
    if vs == [] then 0.0 else Squares(vs[..|vs| - 1]) + Sq(vs[|vs| - 1])
  }

  /** Sum of squared deviations from m. */
  function Deviations(vs: seq<real>, m: real): real {
    if vs == [] then 0.0
    else
      var v := vs[|vs| - 1];
      Deviations(vs[..|vs| - 1], m) + Sq(v - m)
  }

  function Max(vs: seq<real>): real {
    if vs == [] then 0.0
    else
      var rest, v := Max(vs[..|vs| - 1]), vs[|vs| - 1];
      if v > rest then v else rest
  }

  /** The smallest value, starting from a ceiling. */
  function Min(vs: seq<real>, ceiling: real): real {
    if vs == [] then ceiling
    else
      var rest, v := Min(vs[..|vs| - 1], ceiling), vs[|vs| - 1];
      if v < rest then v else rest
  }

  /** Reading i is the first counted one of its value, and this is its cluster. */
  ghost predicate FirstAt(readings: seq<Reading>, i: int, value: real, cluster: string) {
    && 0 <= i < |readings| && Counts(readings[i]) && readings[i] == Reading(Some(value), cluster)
    && forall j :: 0 <= j < i && Counts(readings[j]) ==> readings[j].value.value != value
  }

  /** The cluster of the first reading with this value, or none if the value is only a starting value. */
  ghost predicate ClusterOf(readings: seq<Reading>, value: real, cluster: string, start: real) {
    if value == start then cluster == "" else exists i :: FirstAt(readings, i, value, cluster)
  }

  ghost predicate Positive(vs: seq<real>) {
    forall i :: 0 <= i < |vs| ==> vs[i] > 0.0
  }

  /** The three figures, by the equations that determine them for positive rates. */
  ghost predicate Describes(st: Stats, vs: seq<real>) {
    var n := |vs| as real;
    && n * st.mean == Sum(vs)
    && st.cvSquared * Sq(st.mean) * n == Deviations(vs, st.mean)
    && st.share * Sum(vs) == Max(vs)
  }

  /** CV at least 1.5, that is, its square at least 2.25; and more than 40% for the largest. */
  predicate Skewed(st: Stats) {
    st.cvSquared >= 2.25 && st.share * 100.0 > 40.0
  }

  // ---------- the algorithm ----------

  /** The filtering pass: the positive readings, their total, and the first largest and smallest of them. */
  method Collect(readings: seq<Reading>, ceiling: real)
    returns (rates: seq<real>, total: real, maxRate: real, maxCluster: string, minRate: real, minCluster: string)
    ensures rates == Rates(readings) && total == Sum(rates) && maxRate == Max(rates) && minRate == Min(rates, ceiling)
    ensures ClusterOf(readings, maxRate, maxCluster, 0.0) && ClusterOf(readings, minRate, minCluster, ceiling)
  {
    rates, total, maxRate, maxCluster, minRate, minCluster := [], 0.0, 0.0, "", ceiling, "";
    for i := 0 to |readings|
      invariant rates == Rates(readings[..i]) && total == Sum(rates)
      invariant maxRate == Max(rates) && minRate == Min(rates, ceiling)
      invariant ClusterOf(readings[..i], maxRate, maxCluster, 0.0)
      invariant ClusterOf(readings[..i], minRate, minCluster, ceiling)
    {
      hide Rates, Sum, Max, Min, Counts;
      var r := readings[i];
      assert readings[..i + 1] == readings[..i] + [r];
      RatesNext(readings[..i], r, ceiling);
      ClusterKept(readings[..i], r, maxRate, maxCluster, 0.0);
      ClusterKept(readings[..i], r, minRate, minCluster, ceiling);
      if !Counts(r) {
        continue;
      }
      var val := r.value.value;
      RatesBetween(readings[..i], ceiling);
      NewCluster(readings[..i], r);
      rates := rates + [val];
      total := total + val;
      if val > maxRate {
        maxRate, maxCluster := val, r.cluster;
      }
      if val < minRate {
        minRate, minCluster := val, r.cluster;
      }
    }
    assert readings[..|readings|] == readings;
  }

  lemma RatesNext(before: seq<Reading>, r: Reading, ceiling: real)
    ensures var rates := Rates(before);
            if Counts(r) then
              var v := r.value.value;
              && Rates(before + [r]) == rates + [v] && Sum(rates + [v]) == Sum(rates) + v
              && Max(rates + [v]) == (if v > Max(rates) then v else Max(rates))
              && Min(rates + [v], ceiling) == (if v < Min(rates, ceiling) then v else Min(rates, ceiling))
            else Rates(before + [r]) == rates
  {
    assert (before + [r])[..|before|] == before;
    if Counts(r) {
      assert (Rates(before) + [r.value.value])[..|Rates(before)|] == Rates(before);
    }
  }

  lemma ClusterKept(before: seq<Reading>, r: Reading, value: real, cluster: string, start: real)
    requires ClusterOf(before, value, cluster, start)
    ensures ClusterOf(before + [r], value, cluster, start)
  {
    if value != start {
      var i :| FirstAt(before, i, value, cluster);
      assert FirstAt(before + [r], i, value, cluster);
    }
  }

  /** A counted reading whose value is new is the first of that value. */
  lemma NewCluster(before: seq<Reading>, r: Reading)
    requires Counts(r)
    ensures (forall j :: 0 <= j < |before| && Counts(before[j]) ==> before[j].value.value != r.value.value)
        ==> FirstAt(before + [r], |before|, r.value.value, r.cluster)
  {
  }

  ghost predicate Between(readings: seq<Reading>, lo: real, hi: real) {
    forall j :: 0 <= j < |readings| && Counts(readings[j]) ==> lo <= readings[j].value.value <= hi
  }

  lemma BetweenSnoc(before: seq<Reading>, r: Reading, lo: real, hi: real, lower: real, higher: real)
    requires Between(before, lo, hi) && lower <= lo && hi <= higher
    requires Counts(r) ==> lower <= r.value.value <= higher
    ensures Between(before + [r], lower, higher)
  {
  }

  lemma BetweenNext(before: seq<Reading>, r: Reading, ceiling: real)
    requires var rates := Rates(before);
             0.0 <= Max(rates) && Min(rates, ceiling) <= ceiling && Between(before, Min(rates, ceiling), Max(rates))
    ensures var rates := Rates(before + [r]);
            && 0.0 <= Max(rates) && Min(rates, ceiling) <= ceiling
            && Between(before + [r], Min(rates, ceiling), Max(rates))
  {
    hide Rates, Max, Min, Between;
    RatesNext(before, r, ceiling);
    var rates, all := Rates(before), Rates(before + [r]);
    BetweenSnoc(before, r, Min(rates, ceiling), Max(rates), Min(all, ceiling), Max(all));
  }

  /** All counted values lie between the running minimum and the running maximum. */
  lemma {:induction false} RatesBetween(readings: seq<Reading>, ceiling: real)
    ensures 0.0 <= Max(Rates(readings)) && Min(Rates(readings), ceiling) <= ceiling
    ensures Between(readings, Min(Rates(readings), ceiling), Max(Rates(readings)))
  {
    if readings != [] {
      hide Rates, Max, Min, Between;
      var init, last := readings[..|readings| - 1], readings[|readings| - 1];
      RatesBetween(init, ceiling);
      BetweenNext(init, last, ceiling);
      assert readings == init + [last];
    }
  }

  /** The rates are those of the readings that parse to a positive number, at these positions. */
  ghost predicate RatesAt(readings: seq<Reading>, rates: seq<real>, at: seq<nat>) {
    && |at| == |rates|
    && (forall i, j :: 0 <= i < j < |at| ==> at[i] < at[j])
    && (forall i :: 0 <= i < |at| ==> at[i] < |readings| && readings[at[i]].value == Some(rates[i]) && rates[i] > 0.0)
    && (forall r :: 0 <= r < |readings| && r !in at ==> readings[r].value.None? || readings[r].value.value <= 0.0)
  }

  lemma RatesAtNext(readings: seq<Reading>, rates: seq<real>, at: seq<nat>, r: Reading)
    requires RatesAt(readings, rates, at)
    ensures if r.value.Some? && r.value.value > 0.0
            then RatesAt(readings + [r], rates + [r.value.value], at + [|readings|])
            else RatesAt(readings + [r], rates, at)
  {
    assert forall k :: k in at + [|readings|] <==> k in at || k == |readings|;
  }

  /** The counted rates are exactly those, in order. */
  lemma {:induction false} RatesAreThose(readings: seq<Reading>) returns (at: seq<nat>)
    ensures RatesAt(readings, Rates(readings), at)
  {
    if readings == [] {
      at := [];
    } else {
      hide Rates, RatesAt, Max, Min, Sum;
      var n := |readings| - 1;
      var init := readings[..n];
      at := RatesAreThose(init);
      assert readings == init + [readings[n]];
      RatesNext(init, readings[n], 0.0);
      RatesAtNext(init, Rates(init), at, readings[n]);
      if Counts(readings[n]) {
        at := at + [n];
      }
    }
  }

  /** The minimum is the smallest value, or the ceiling when all are larger. */
  lemma {:induction false} MinBounds(vs: seq<real>, ceiling: real)
    ensures Min(vs, ceiling) <= ceiling && forall i :: 0 <= i < |vs| ==> Min(vs, ceiling) <= vs[i]
    ensures Min(vs, ceiling) == ceiling || exists i :: 0 <= i < |vs| && vs[i] == Min(vs, ceiling)
  {
    if vs != [] {
      var init, last := vs[..|vs| - 1], vs[|vs| - 1];
      MinBounds(init, ceiling);
      assert forall i :: 0 <= i < |init| ==> init[i] == vs[i];
      if Min(vs, ceiling) != ceiling && last >= Min(init, ceiling) {
        var i :| 0 <= i < |init| && init[i] == Min(init, ceiling);
        assert vs[i] == Min(vs, ceiling);
      }
    }
  }

  method SumOfSquaredDeviations(rates: seq<real>, mean: real) returns (sumSquares: real)
    ensures sumSquares == Deviations(rates, mean)
  {
    sumSquares := 0.0;
    for i := 0 to |rates|
      invariant sumSquares == Deviations(rates[..i], mean)
    {
      assert rates[..i + 1][..i] == rates[..i];
      sumSquares := sumSquares + Sq(rates[i] - mean);
    }
    assert rates[..|rates|] == rates;
  }

  method Analyze(rates: seq<real>, total: real, maxRate: real) returns (stats: Stats)
    requires rates != [] && Positive(rates) && total == Sum(rates) && maxRate == Max(rates)
    ensures Describes(stats, rates)
  {
    hide Sum, Squares, Deviations, Max, Sq;
    SumPositive(rates);
    var n := |rates| as real;
    var mean := total / n;
    PositiveQuotient(total, n);
    Quotient(total, n);
    var sumSquares := SumOfSquaredDeviations(rates, mean);
    var cvSquared := sumSquares / n / Sq(mean);
    CvProduct(sumSquares, n, Sq(mean), cvSquared);
    var share := maxRate / total;
    Quotient(maxRate, total);
    stats := Stats(mean, cvSquared, share);
  }

  /** The ceiling stands for the largest float64, where the search for the smallest rate starts. */
  method CheckIngestionBalance(readings: seq<Reading>, ceiling: real) returns (report: Report)
    ensures var rates := Rates(readings);
      if |rates| < 3 then report == TooFew(|rates|)
      else
        && report.Judged? && Describes(report.stats, rates)
        && (report.skewed <==> Skewed(report.stats))
        && (exists i :: FirstAt(readings, i, Max(rates), report.maxCluster))
        && report.minRate == Min(rates, ceiling)
        && ClusterOf(readings, report.minRate, report.minCluster, ceiling)
  {
    var rates, total, maxRate, maxCluster, minRate, minCluster := Collect(readings, ceiling);
    if |rates| < 3 {
      return TooFew(|rates|);
    }
    var stats := Analyze(rates, total, maxRate);
    MaxBounds(rates);
    report := Judged(stats, maxCluster, minRate, minCluster, Skewed(stats));
  }

  lemma CvProduct(d: real, n: real, mm: real, cv: real)
    requires n > 0.0 && mm > 0.0 && cv == d / n / mm
    ensures cv * mm * n == d
  {
    Quotient(d / n, mm);
    Quotient(d, n);
  }

  // ---------- the statistic against the largest share ----------

  lemma {:induction false} SumPositive(vs: seq<real>)
    requires Positive(vs)
    ensures Sum(vs) >= 0.0 && (vs != [] ==> Sum(vs) > 0.0)
  {
    if vs != [] {
      SumPositive(vs[..|vs| - 1]);
    }
  }

  lemma DeviationStep(v: real, m: real, rest: real, sum: real, k: real, n: real, d0: real, d: real, q0: real, q: real)
    requires sum == rest + v && n == k + 1.0 && d == d0 + Sq(v - m) && q == q0 + Sq(v)
    requires d0 == q0 - 2.0 * (m * rest) + k * Sq(m)
    ensures d == q - 2.0 * (m * sum) + n * Sq(m)
  {
  }

  lemma {:induction false} DeviationsExpand(vs: seq<real>, m: real)
    ensures Deviations(vs, m) == Squares(vs) - 2.0 * (m * Sum(vs)) + |vs| as real * Sq(m)
  {
    hide Sq;
    if vs != [] {
      var k := |vs| - 1;
      var init := vs[..k];
      DeviationsExpand(init, m);
      DeviationStep(vs[k], m, Sum(init), Sum(vs), k as real, |vs| as real,
                    Deviations(init, m), Deviations(vs, m), Squares(init), Squares(vs));
    }
  }

  /** With n m = t and d the squared deviations from m: (d / (n m^2) + 1) t^2 = n q. */
  lemma CvAlgebra(n: real, m: real, t: real, q: real, d: real, cv: real)
    requires n > 0.0 && n * m == t && d == q - 2.0 * (m * t) + n * Sq(m)
    requires cv * Sq(m) * n == d
    ensures (cv + 1.0) * Sq(t) == n * q
  {
    var mm := Sq(m);
    Exchange(n, m);
    assert Sq(t) == n * n * mm;
    Regroup(m, n, m);
    assert m * t == n * mm by { assert m * t == m * (n * m); }
    assert d == q - n * mm;
    assert n * d == n * q - n * (n * mm);
    assert n * (n * mm) == Sq(t);
    assert cv * Sq(t) == n * (cv * mm * n);
  }

  /** CV squared plus one is n times the sum of squares over the square of the sum. */
  lemma CvIdentity(vs: seq<real>, st: Stats)
    requires vs != [] && Positive(vs) && Describes(st, vs)
    ensures Sum(vs) > 0.0 && (st.cvSquared + 1.0) * Sq(Sum(vs)) == |vs| as real * Squares(vs)
  {
    hide Sum, Squares, Deviations, Sq;
    SumPositive(vs);
    DeviationsExpand(vs, st.mean);
    CvAlgebra(|vs| as real, st.mean, Sum(vs), Squares(vs), Deviations(vs, st.mean), st.cvSquared);
  }

  lemma {:induction false} MaxBounds(vs: seq<real>)
    requires Positive(vs)
    ensures forall i :: 0 <= i < |vs| ==> vs[i] <= Max(vs)
    ensures vs != [] ==> exists i :: 0 <= i < |vs| && vs[i] == Max(vs)
    ensures Max(vs) >= 0.0
  {
    if vs != [] {
      MaxBounds(vs[..|vs| - 1]);
      if |vs| > 1 && vs[|vs| - 1] <= Max(vs[..|vs| - 1]) {
        var i :| 0 <= i < |vs| - 1 && vs[..|vs| - 1][i] == Max(vs[..|vs| - 1]);
        assert vs[i] == Max(vs);
      }
    }
  }

  lemma SquareStep(q0: real, q1: real, v: real, top: real, rest: real, sum: real)
    requires q1 == q0 + Sq(v) && q0 <= top * rest && 0.0 <= v <= top && sum == rest + v
    ensures q1 <= top * sum
  {
    Scale(v, top, v);
  }

  lemma {:induction false} SquaresAtMost(vs: seq<real>, top: real)
    requires Positive(vs) && forall i :: 0 <= i < |vs| ==> vs[i] <= top
    ensures Squares(vs) <= top * Sum(vs)
  {
    if vs != [] {
      var init, v := vs[..|vs| - 1], vs[|vs| - 1];
      SquaresAtMost(init, top);
      SquareStep(Squares(init), Squares(vs), v, top, Sum(init), Sum(vs));
    }
  }

  lemma {:induction false} SquaresAtLeast(vs: seq<real>, i: nat)
    requires i < |vs|
    ensures Squares(vs) >= Sq(vs[i])
  {
    var k := |vs| - 1;
    SquaresNonnegative(vs[..k]);
    if i < k {
      SquaresAtLeast(vs[..k], i);
    }
  }

  lemma {:induction false} SquaresNonnegative(vs: seq<real>)
    ensures Squares(vs) >= 0.0
  {
    if vs != [] {
      SquaresNonnegative(vs[..|vs| - 1]);
    }
  }

  /** From c tt = n q: bounds of q by multiples of tt become bounds of c. */
  lemma Bound(n: real, a: real, b: real, c: real, q: real, tt: real)
    requires tt > 0.0 && n >= 0.0 && c * tt == n * q
    ensures a * tt <= q ==> n * a <= c
    ensures q <= b * tt ==> c <= n * b
  {
    if a * tt <= q {
      Scale(a * tt, q, n);
      Regroup(n, a, tt);
      DivideOut(n * a, c, tt);
    }
    if q <= b * tt {
      Scale(q, b * tt, n);
      Regroup(n, b, tt);
      DivideOut(c, n * b, tt);
    }
  }

  /** For n positive rates: n * share^2 <= CV^2 + 1 <= n * share. */
  lemma CvBetweenShares(vs: seq<real>, st: Stats)
    requires vs != [] && Positive(vs) && Describes(st, vs)
    ensures |vs| as real * Sq(st.share) <= st.cvSquared + 1.0 <= |vs| as real * st.share
  {
    hide Sum, Squares, Deviations, Max, Sq;
    CvIdentity(vs, st);
    SquaresBetween(vs);
    ShareBounds(|vs| as real, st.share, Max(vs), Sum(vs), Squares(vs), st.cvSquared + 1.0);
  }

  lemma ShareBounds(n: real, s: real, x: real, t: real, q: real, c: real)
    requires n > 0.0 && t > 0.0 && s * t == x && Sq(x) <= q <= x * t && c * Sq(t) == n * q
    ensures n * Sq(s) <= c <= n * s
  {
    Exchange(s, t);
    assert s * Sq(t) == x * t by { Regroup(s, t, t); }
    Bound(n, Sq(s), s, c, q, Sq(t));
  }

  lemma SquaresBetween(vs: seq<real>)
    requires vs != [] && Positive(vs)
    ensures Sq(Max(vs)) <= Squares(vs) <= Max(vs) * Sum(vs)
  {
    MaxBounds(vs);
    var i :| 0 <= i < |vs| && vs[i] == Max(vs);
    SquaresAtLeast(vs, i);
    SquaresAtMost(vs, Max(vs));
  }

  /** Up to three clusters can never be called skewed. */
  lemma UpToThreeNeverSkewed(vs: seq<real>, st: Stats)
    requires 0 < |vs| <= 3 && Positive(vs) && Describes(st, vs)
    ensures !Skewed(st)
  {
    hide Sum, Squares, Deviations, Max, Sq;
    CvBetweenShares(vs, st);
    SumPositive(vs);
    MaxBelowSum(vs);
    DivideOut(st.share, 1.0, Sum(vs));
    Scale(st.share, 1.0, |vs| as real);
  }

  lemma MaxBelowSum(vs: seq<real>)
    requires vs != [] && Positive(vs)
    ensures Max(vs) <= Sum(vs)
  {
    MaxBounds(vs);
    var i :| 0 <= i < |vs| && vs[i] == Max(vs);
    TermBelowSum(vs, i);
  }

  lemma {:induction false} TermBelowSum(vs: seq<real>, i: nat)
    requires Positive(vs) && i < |vs|
    ensures vs[i] <= Sum(vs)
  {
    SumPositive(vs[..|vs| - 1]);
    if i < |vs| - 1 {
      TermBelowSum(vs[..|vs| - 1], i);
    }
  }

  // ---------- where the 40% test matters ----------

  lemma SquareOfLarge(v: real, t: real)
    requires 0.2 * t <= v <= 0.4 * t
    ensures Sq(v) <= 0.6 * (t * v) - 0.08 * Sq(t)
  {
    var a, b := v - 0.2 * t, 0.4 * t - v;
    Product(a, b);
    assert a * b == 0.6 * (t * v) - 0.08 * Sq(t) - Sq(v);
  }

  lemma SquareOfSmall(v: real, t: real)
    requires 0.0 <= v <= 0.2 * t
    ensures Sq(v) <= 0.2 * (t * v)
  {
    Scale(v, 0.2 * t, v);
    assert (0.2 * t) * v == 0.2 * (t * v);
  }

  lemma LargeStep(q0: real, q1: real, v: real, t: real, rest: real, sum: real, j: real, k: real, b: real, a: real)
    requires q1 == q0 + Sq(v) && sum == rest + v && k == j + 1.0 && a == b + v
    requires 0.2 * t <= v <= 0.4 * t && b <= 0.4 * (j * t)
    requires q0 <= 0.2 * (t * rest) + 0.4 * (t * b) - 0.08 * (j * Sq(t))
    ensures q1 <= 0.2 * (t * sum) + 0.4 * (t * a) - 0.08 * (k * Sq(t)) && a <= 0.4 * (k * t)
  {
    SquareOfLarge(v, t);
  }

  lemma SmallStep(q0: real, q1: real, v: real, t: real, rest: real, sum: real, j: real, b: real)
    requires q1 == q0 + Sq(v) && sum == rest + v
    requires 0.0 <= v <= 0.2 * t
    requires q0 <= 0.2 * (t * rest) + 0.4 * (t * b) - 0.08 * (j * Sq(t))
    ensures q1 <= 0.2 * (t * sum) + 0.4 * (t * b) - 0.08 * (j * Sq(t))
  {
    SquareOfSmall(v, t);
  }

  lemma SizeStep(q0: real, q1: real, v: real, t: real, rest: real, sum: real, j: nat, b: real)
    returns (k: nat, a: real)
    requires t > 0.0 && 0.0 < v <= 0.4 * t && 0.0 <= b <= rest && b <= 0.4 * (j as real * t)
    requires q1 == q0 + Sq(v) && sum == rest + v
    requires q0 <= 0.2 * (t * rest) + 0.4 * (t * b) - 0.08 * (j as real * Sq(t))
    ensures 0.0 <= a <= sum && a <= 0.4 * (k as real * t)
    ensures q1 <= 0.2 * (t * sum) + 0.4 * (t * a) - 0.08 * (k as real * Sq(t))
  {
    hide Sq;
    if v > 0.2 * t {
      k, a := j + 1, b + v;
      LargeStep(q0, q1, v, t, rest, sum, j as real, k as real, b, a);
    } else {
      k, a := j, b;
      SmallStep(q0, q1, v, t, rest, sum, j as real, b);
    }
  }

  /** The values above a fifth of t: how many, and their sum; and what they allow for the squares. */
  lemma {:induction false} SquaresBySize(vs: seq<real>, t: real) returns (k: nat, a: real)
    requires t > 0.0 && forall i :: 0 <= i < |vs| ==> 0.0 < vs[i] <= 0.4 * t
    ensures 0.0 <= a <= Sum(vs) && a <= 0.4 * (k as real * t)
    ensures Squares(vs) <= 0.2 * (t * Sum(vs)) + 0.4 * (t * a) - 0.08 * (k as real * Sq(t))
  {
    if vs == [] {
      k, a := 0, 0.0;
    } else {
      var init, v := vs[..|vs| - 1], vs[|vs| - 1];
      var j, b := SquaresBySize(init, t);
      k, a := SizeStep(Squares(init), Squares(vs), v, t, Sum(init), Sum(vs), j, b);
    }
  }

  /** Whatever the number k of large values, their sum a leaves room for at most 0.36. */
  lemma WorstSplit(k: nat, a: real, t: real)
    requires t > 0.0 && 0.0 <= a <= t && a <= 0.4 * (k as real * t)
    ensures 0.2 * Sq(t) + 0.4 * (t * a) - 0.08 * (k as real * Sq(t)) <= 0.36 * Sq(t)
  {
    if k == 0 {
      Scale(a, 0.0, t);
    } else if k == 1 {
      Scale(a, 0.4 * t, t);
    } else if k == 2 {
      Scale(a, 0.8 * t, t);
    } else {
      Scale(a, t, t);
      Scale(3.0, k as real, Sq(t));
    }
  }

  lemma WorstSquares(q: real, k: nat, a: real, t: real)
    requires t > 0.0 && 0.0 <= a <= t && a <= 0.4 * (k as real * t)
    requires q <= 0.2 * (t * t) + 0.4 * (t * a) - 0.08 * (k as real * Sq(t))
    ensures q <= 0.36 * Sq(t)
  {
    assert t * t == Sq(t);
    hide Sq;
    WorstSplit(k, a, t);
  }

  /** If nobody has more than 40% of the total, the squares stay below 36% of its square. */
  lemma SquaresUnderFortyPercent(vs: seq<real>)
    requires vs != [] && Positive(vs) && Max(vs) <= 0.4 * Sum(vs)
    ensures Squares(vs) <= 0.36 * Sq(Sum(vs))
  {
    hide Sum, Squares, Max, Sq;
    SumPositive(vs);
    MaxBounds(vs);
    var k, a := SquaresBySize(vs, Sum(vs));
    WorstSquares(Squares(vs), k, a, Sum(vs));
  }

  lemma NineAreTooFew(n: real, q: real, c: real, t: real)
    requires n <= 9.0 && q >= 0.0 && t > 0.0 && q <= 0.36 * Sq(t) && c * Sq(t) == n * q
    ensures c < 3.25
  {
    var tt := Sq(t);
    Scale(n, 9.0, q);
    assert n * q <= 9.0 * (0.36 * tt);
    DivideOut(c, 3.24, tt);
  }

  /** For up to nine clusters the 40% share test is implied by the CV test. */
  lemma ShareTestImpliedUpToNine(vs: seq<real>, st: Stats)
    requires 0 < |vs| <= 9 && Positive(vs) && Describes(st, vs)
    ensures Skewed(st) <==> st.cvSquared >= 2.25
  {
    hide Sum, Squares, Deviations, Max, Sq;
    CvIdentity(vs, st);
    if st.share <= 0.4 {
      Scale(st.share, 0.4, Sum(vs));
      SquaresUnderFortyPercent(vs);
      SquaresNonnegative(vs);
      NineAreTooFew(|vs| as real, Squares(vs), st.cvSquared + 1.0, Sum(vs));
    }
  }

  /** The three figures of positive rates always exist. */
  lemma Figures(vs: seq<real>) returns (st: Stats)
    requires vs != [] && Positive(vs)
    ensures Describes(st, vs)
  {
    hide Sum, Deviations, Max, Sq;
    SumPositive(vs);
    var n := |vs| as real;
    var mean := Sum(vs) / n;
    PositiveQuotient(Sum(vs), n);
    Quotient(Sum(vs), n);
    var cvSquared := Deviations(vs, mean) / n / Sq(mean);
    CvProduct(Deviations(vs, mean), n, Sq(mean), cvSquared);
    Quotient(Max(vs), Sum(vs));
    st := Stats(mean, cvSquared, Max(vs) / Sum(vs));
  }
}
