/** Points, labelled series, and the peak of a series. */
module SeriesModel {
  datatype Point = Point(ts: real, value: real)

  datatype Series = Series(name: string, values: seq<Point>)

  /** The largest value, but at least zero. */
  function Peak(values: seq<Point>): real {
    if values == [] then 0.0
    else
      var rest, v := Peak(values[..|values| - 1]), values[|values| - 1].value;
      if v > rest then v else rest
  }

  method PeakOf(values: seq<Point>) returns (peak: real)
    ensures peak == Peak(values)
  {
    peak := 0.0;
    for i := 0 to |values|
      invariant peak == Peak(values[..i])
    {
      assert values[..i + 1][..i] == values[..i];
      if values[i].value > peak {
        peak := values[i].value;
      }
    }
    assert values[..|values|] == values;
  }

  /** Peak is attained or zero, and bounds every value. */
  lemma {:induction false} PeakIsMaximum(values: seq<Point>)
    ensures forall p :: p in values ==> p.value <= Peak(values)
    ensures Peak(values) >= 0.0
    ensures Peak(values) == 0.0 || exists p :: p in values && p.value == Peak(values)
  {
    if values != [] {
      var init, last := values[..|values| - 1], values[|values| - 1];
      PeakIsMaximum(init);
      assert values == init + [last];
      if Peak(values) != 0.0 {
        if last.value > Peak(init) {
          assert last in values && last.value == Peak(values);
        } else {
          var p :| p in init && p.value == Peak(init);
          assert p in values;
        }
      }
    }
  }
}

/** Merging series into one timeline, and adding series point by point. */
module Timeline {
  import opened SeriesModel
  import opened Sequences

  // ---------- specification ----------

  /** What a map holds after writing the points in order. */
  function LastWrite(ps: seq<Point>): map<real, real> {
    if ps == [] then map[]
    else LastWrite(ps[..|ps| - 1])[ps[|ps| - 1].ts := ps[|ps| - 1].value]
  }

  function Get(m: map<real, real>, ts: real): real {
    if ts in m then m[ts] else 0.0
  }

  /** What the map holds after adding the points to it in order. */
  function Accumulate(m: map<real, real>, ps: seq<Point>): map<real, real> {
    if ps == [] then m
    else
      var sofar, p := Accumulate(m, ps[..|ps| - 1]), ps[|ps| - 1];
      sofar[p.ts := Get(sofar, p.ts) + p.value]
  }

  /** Rows that do not decode to a finite sample are skipped. */
  function Decoded(rows: seq<Option<Point>>): seq<Point> {
    if rows == [] then []
    else
      var last := rows[|rows| - 1];
      Decoded(rows[..|rows| - 1]) + if last.Some? then [last.value] else []
  }

  ghost predicate Ascending(ps: seq<Point>) {
    forall i, j :: 0 <= i < j < |ps| ==> ps[i].ts < ps[j].ts
  }

  ghost predicate DistinctTimes(ps: seq<Point>) {
    forall i, j :: 0 <= i < j < |ps| ==> ps[i].ts != ps[j].ts
  }

  function Times(ps: seq<Point>): set<real> {
    set p | p in ps :: p.ts
  }

  /** The points list the map's entries in strictly ascending time order. */
  ghost predicate Lists(ps: seq<Point>, m: map<real, real>) {
    && Ascending(ps)
    && (forall i :: 0 <= i < |ps| ==> ps[i].ts in m && m[ps[i].ts] == ps[i].value)
    && Times(ps) == m.Keys
  }

  /** Sum of the values recorded at one time. */
  function SumAt(ps: seq<Point>, ts: real): real {
    if ps == [] then 0.0
    else SumAt(ps[..|ps| - 1], ts) + if ps[|ps| - 1].ts == ts then ps[|ps| - 1].value else 0.0
  }

  function Mass(ps: seq<Point>): real {
    if ps == [] then 0.0 else Mass(ps[..|ps| - 1]) + ps[|ps| - 1].value
  }

  // ---------- sorting in place ----------

  ghost predicate SortedUpTo(ps: seq<Point>, n: nat) {
    n <= |ps| && forall i, j :: 0 <= i < j < n ==> ps[i].ts <= ps[j].ts
  }

  /** One exchange of neighbours. */
  method SwapDown(a: array<Point>, j: nat)
    requires 0 < j < a.Length
    modifies a
    ensures a[..] == old(a[..])[j - 1 := old(a[j])][j := old(a[j - 1])]
    ensures multiset(a[..]) == multiset(old(a[..]))
  {
    a[j], a[j - 1] := a[j - 1], a[j];
  }

  /** Moves entry i down to its place among the sorted entries before it. */
  method Insert(a: array<Point>, i: nat)
    requires i < a.Length && SortedUpTo(a[..], i)
    modifies a
    ensures SortedUpTo(a[..], i + 1) && multiset(a[..]) == multiset(old(a[..]))
  {
    var j := i;
    while j > 0 && a[j].ts < a[j - 1].ts
      invariant j <= i && multiset(a[..]) == multiset(old(a[..]))
      invariant forall p, q :: 0 <= p < q <= i && q != j ==> a[p].ts <= a[q].ts
    {
      ghost var was := a[..];
      SwapDown(a, j);
      assert forall k :: 0 <= k < a.Length ==> a[k] == a[..][k];
      assert forall p, q :: 0 <= p < q <= i && q != j ==> was[p].ts <= was[q].ts;
      j := j - 1;
    }
  }

  method SortPoints(a: array<Point>)
    modifies a
    ensures SortedUpTo(a[..], a.Length) && multiset(a[..]) == multiset(old(a[..]))
  {
    var i := 1;
    while i < a.Length
      invariant 1 <= i && (i <= a.Length || a.Length == 0)
      invariant SortedUpTo(a[..], if i <= a.Length then i else 0)
      invariant multiset(a[..]) == multiset(old(a[..]))
    {
      Insert(a, i);
      i := i + 1;
    }
  }

  // ---------- building timelines ----------

  /** The points are the map's entries for the given times, each once, in any order. */
  ghost predicate EntriesFor(ps: seq<Point>, m: map<real, real>, times: set<real>) {
    && DistinctTimes(ps) && Times(ps) == times
    && forall p :: p in ps ==> p.ts in m && m[p.ts] == p.value
  }

  lemma EntriesNext(ps: seq<Point>, m: map<real, real>, times: set<real>, ts: real)
    requires EntriesFor(ps, m, times) && ts in m && ts !in times
    ensures EntriesFor(ps + [Point(ts, m[ts])], m, times + {ts})
  {
    TimesSnoc(ps, Point(ts, m[ts]));
    assert forall i :: 0 <= i < |ps| ==> ps[i] in ps && ps[i].ts in Times(ps);
  }

  lemma SomeTime(times: set<real>)
    requires times != {}
    ensures exists ts :: ts in times
  {
    assert (forall ts :: ts !in times) ==> times <= {};
  }

  /** Visits the map's entries in whatever order iteration takes. */
  method Entries(m: map<real, real>) returns (ps: seq<Point>)
    ensures EntriesFor(ps, m, m.Keys)
  {
    ps := [];
    var rest := m.Keys;
    ghost var visited: set<real> := {};
    while rest != {}
      invariant rest <= m.Keys && visited == m.Keys - rest
      invariant EntriesFor(ps, m, visited)
    {
      SomeTime(rest);
      var ts :| ts in rest;
      EntriesNext(ps, m, visited, ts);
      visited := visited + {ts};
      rest := rest - {ts};
      ps := ps + [Point(ts, m[ts])];
    }
  }

  /** Lists a map's entries and sorts them. */
  method Listing(m: map<real, real>) returns (ps: seq<Point>)
    ensures Lists(ps, m)
  {
    ps := Entries(m);
    var a := new Point[|ps|](i requires 0 <= i < |ps| => ps[i]);
    assert a[..] == ps;
    SortPoints(a);
    SortingLists(ps, a[..], m);
    ps := a[..];
  }

  lemma TimesSnoc(ps: seq<Point>, p: Point)
    ensures Times(ps + [p]) == Times(ps) + {p.ts}
  {
    assert forall q :: q in ps + [p] <==> q in ps || q == p;
  }

  lemma SortingLists(ps: seq<Point>, sorted: seq<Point>, m: map<real, real>)
    requires EntriesFor(ps, m, m.Keys)
    requires SortedUpTo(sorted, |sorted|) && multiset(sorted) == multiset(ps)
    ensures Lists(sorted, m)
  {
    forall p ensures p in sorted <==> p in ps {
      assert p in multiset(sorted) <==> p in multiset(ps);
    }
    assert Times(sorted) == Times(ps);
    forall i, j | 0 <= i < j < |sorted| ensures sorted[i].ts < sorted[j].ts {
      NoRepeat(ps, sorted, i, j);
      assert sorted[i] in ps && sorted[j] in ps;
    }
  }

  lemma NoRepeat(ps: seq<Point>, sorted: seq<Point>, i: nat, j: nat)
    requires DistinctTimes(ps) && multiset(sorted) == multiset(ps) && i < j < |sorted|
    ensures sorted[i] != sorted[j]
  {
    SinglePoint(ps, sorted[i]);
    Twice(sorted, i, j);
  }

  lemma Twice(s: seq<Point>, i: nat, j: nat)
    requires i < j < |s|
    ensures s[i] == s[j] ==> multiset(s)[s[i]] >= 2
  {
    assert s == s[..j] + [s[j]] + s[j + 1..];
    assert s[i] in s[..j];
  }

  lemma {:induction false} SinglePoint(ps: seq<Point>, p: Point)
    requires DistinctTimes(ps)
    ensures multiset(ps)[p] <= 1
  {
    if ps != [] {
      var init, last := ps[..|ps| - 1], ps[|ps| - 1];
      SinglePoint(init, p);
      assert ps == init + [last];
      assert forall i :: 0 <= i < |init| ==> init[i] == ps[i] && ps[i].ts != last.ts;
    }
  }

  /** Merges all result series: the last value written for a time wins. */
  method Timeseries(results: seq<seq<Option<Point>>>) returns (points: seq<Point>)
    ensures Lists(points, LastWrite(Decoded(Flatten(results))))
  {
    var seen: map<real, real> := map[];
    for r := 0 to |results|
      invariant seen == LastWrite(Decoded(Flatten(results[..r])))
    {
      ghost var before := Flatten(results[..r]);
      assert before + [] == before;
      for v := 0 to |results[r]|
        invariant seen == LastWrite(Decoded(before + results[r][..v]))
      {
        WriteNext(before, results[r], v);
        if results[r][v].Some? {
          seen := seen[results[r][v].value.ts := results[r][v].value.value];
        }
      }
      assert results[r][..|results[r]|] == results[r];
      assert results[..r + 1] == results[..r] + [results[r]];
      FlattenSnoc(results[..r], results[r]);
    }
    assert results[..|results|] == results;
    points := Listing(seen);
  }

  lemma WriteNext(before: seq<Option<Point>>, row: seq<Option<Point>>, v: nat)
    requires v < |row|
    ensures var sofar := LastWrite(Decoded(before + row[..v]));
            LastWrite(Decoded(before + row[..v + 1]))
            == if row[v].Some? then sofar[row[v].value.ts := row[v].value.value] else sofar
  {
    var s := before + row[..v];
    assert before + row[..v + 1] == s + [row[v]];
    assert (s + [row[v]])[..|s|] == s;
    if row[v].Some? {
      assert (Decoded(s) + [row[v].value])[..|Decoded(s)|] == Decoded(s);
    } else {
      assert Decoded(s + [row[v]]) == Decoded(s);
    }
  }

  /** First value, last value and percentage change. */
  function Trend(points: seq<Point>): (real, real, real) {
    if |points| < 2 then (0.0, 0.0, 0.0)
    else
      var first, last := points[0].value, points[|points| - 1].value;
      if first == 0.0 then (first, last, 0.0) else (first, last, (last - first) / first * 100.0)
  }

  /** Adds two series: times of a are overwritten, times of b accumulate. */
  method SumTimeseries(a: seq<Point>, b: seq<Point>) returns (sum: seq<Point>)
    ensures Lists(sum, Accumulate(LastWrite(a), b))
  {
    var byTS: map<real, real> := map[];
    for i := 0 to |a|
      invariant byTS == LastWrite(a[..i])
    {
      assert a[..i + 1][..i] == a[..i];
      byTS := byTS[a[i].ts := a[i].value];
    }
    assert a[..|a|] == a;
    for i := 0 to |b|
      invariant byTS == Accumulate(LastWrite(a), b[..i])
    {
      assert b[..i + 1][..i] == b[..i];
      byTS := byTS[b[i].ts := (if b[i].ts in byTS then byTS[b[i].ts] else 0.0) + b[i].value];
    }
    assert b[..|b|] == b;
    sum := Listing(byTS);
  }

  // ---------- timelines are determined ----------

  /** A map has only one listing, so neither map order nor the sorting method shows. */
  lemma {:induction false} ListingUnique(p: seq<Point>, q: seq<Point>, m: map<real, real>)
    requires Lists(p, m) && Lists(q, m)
    ensures p == q
  {
    hide Lists;
    ListsEmpty(p, m);
    ListsEmpty(q, m);
    if p != [] {
      SameLast(p, q, m);
      SameLast(q, p, m);
      LastEntry(p, m);
      LastEntry(q, m);
      var x := p[|p| - 1].ts;
      ListsInit(p, m);
      ListsInit(q, m);
      ListingUnique(p[..|p| - 1], q[..|q| - 1], m - {x});
      assert p == p[..|p| - 1] + [p[|p| - 1]] && q == q[..|q| - 1] + [q[|q| - 1]];
    }
  }

  lemma LastEntry(p: seq<Point>, m: map<real, real>)
    requires Lists(p, m) && p != []
    ensures var last := p[|p| - 1]; last.ts in m && last == Point(last.ts, m[last.ts])
  {
  }

  lemma ListsEmpty(p: seq<Point>, m: map<real, real>)
    requires Lists(p, m)
    ensures p == [] <==> m.Keys == {}
  {
    if p != [] {
      assert p[0].ts in m.Keys;
    }
  }

  lemma SameLast(p: seq<Point>, q: seq<Point>, m: map<real, real>)
    requires Lists(p, m) && Lists(q, m) && p != [] && q != []
    ensures p[|p| - 1].ts <= q[|q| - 1].ts
  {
    assert p[|p| - 1].ts in Times(q);
    var i :| 0 <= i < |q| && q[i].ts == p[|p| - 1].ts;
  }

  lemma ListsInit(p: seq<Point>, m: map<real, real>)
    requires Lists(p, m) && p != []
    ensures Lists(p[..|p| - 1], m - {p[|p| - 1].ts})
  {
    var init, x := p[..|p| - 1], p[|p| - 1].ts;
    assert p == init + [p[|p| - 1]];
    TimesSnoc(init, p[|p| - 1]);
    LastIsNew(p);
    assert Ascending(init);
    forall i | 0 <= i < |init| ensures init[i].ts in Times(init) && init[i] == p[i] {
      assert init[i] in init;
    }
    hide Ascending, Times;
    WithoutLast(init, p, m, x);
  }

  lemma WithoutLast(init: seq<Point>, p: seq<Point>, m: map<real, real>, x: real)
    requires Ascending(init) && Times(init) + {x} == m.Keys && x !in Times(init) && |init| <= |p|
    requires forall i :: 0 <= i < |p| ==> p[i].ts in m && m[p[i].ts] == p[i].value
    requires forall i :: 0 <= i < |init| ==> init[i].ts in Times(init) && init[i] == p[i]
    ensures Lists(init, m - {x})
  {
    hide Ascending, Times;
    assert Times(init) == (m - {x}).Keys;
  }

  lemma LastIsNew(p: seq<Point>)
    requires Ascending(p) && p != []
    ensures p[|p| - 1].ts !in Times(p[..|p| - 1])
  {
    var init := p[..|p| - 1];
    forall q | q in init ensures q.ts != p[|p| - 1].ts {
      var i :| 0 <= i < |init| && init[i] == q;
      assert p[i].ts < p[|p| - 1].ts;
    }
  }

  /** Sample i is the last one of its time. */
  ghost predicate LastAt(ps: seq<Point>, ts: real, i: int) {
    0 <= i < |ps| && ps[i].ts == ts && forall j :: i < j < |ps| ==> ps[j].ts != ts
  }

  /** The merged value at a time is the one of the last sample written there. */
  lemma {:induction false} LastWriteIsLast(ps: seq<Point>, ts: real)
    ensures ts in LastWrite(ps) <==> ts in Times(ps)
    ensures ts in LastWrite(ps) ==> exists i :: LastAt(ps, ts, i) && ps[i].value == LastWrite(ps)[ts]
  {
    if ps != [] {
      var k := |ps| - 1;
      var init := ps[..k];
      LastWriteIsLast(init, ts);
      TimesSnoc(init, ps[k]);
      assert ps == init + [ps[k]];
      if ps[k].ts == ts {
        assert LastAt(ps, ts, k);
      } else if ts in LastWrite(init) {
        var i :| LastAt(init, ts, i) && init[i].value == LastWrite(init)[ts];
        assert LastAt(ps, ts, i);
      }
    }
  }

  /** Trend of fewer than two points is zero, and so is the percentage when the first value is. */
  lemma TrendOfLittle(points: seq<Point>)
    ensures |points| < 2 ==> Trend(points) == (0.0, 0.0, 0.0)
    ensures points != [] && points[0].value == 0.0 ==> Trend(points).2 == 0.0
  {
  }

  /** The points are those of the rows that decode, at these positions. */
  ghost predicate DecodesAt(rows: seq<Option<Point>>, points: seq<Point>, at: seq<nat>) {
    && |at| == |points|
    && (forall i, j :: 0 <= i < j < |at| ==> at[i] < at[j])
    && (forall i :: 0 <= i < |at| ==> at[i] < |rows| && rows[at[i]] == Some(points[i]))
    && (forall r :: 0 <= r < |rows| && r !in at ==> rows[r].None?)
  }

  lemma DecodesNext(rows: seq<Option<Point>>, points: seq<Point>, at: seq<nat>, row: Option<Point>)
    requires DecodesAt(rows, points, at)
    ensures if row.Some? then DecodesAt(rows + [row], points + [row.value], at + [|rows|])
            else DecodesAt(rows + [row], points, at)
  {
    assert forall r :: r in at + [|rows|] <==> r in at || r == |rows|;
  }

  /** Exactly the rows that decode are merged, in their order. */
  lemma {:induction false} DecodedRows(rows: seq<Option<Point>>) returns (at: seq<nat>)
    ensures DecodesAt(rows, Decoded(rows), at)
  {
    if rows == [] {
      at := [];
    } else {
      var n := |rows| - 1;
      var init := rows[..n];
      at := DecodedRows(init);
      assert rows == init + [rows[n]];
      assert Decoded(rows) == if rows[n].Some? then Decoded(init) + [rows[n].value] else Decoded(init);
      DecodesNext(init, Decoded(init), at, rows[n]);
      hide Decoded, DecodesAt;
      if rows[n].Some? {
        at := at + [n];
      }
    }
  }

  /** Trend over a merged timeline compares the values at its least and greatest times. */
  lemma TrendComparesExtremes(points: seq<Point>, m: map<real, real>) returns (lo: real, hi: real)
    requires Lists(points, m) && |points| >= 2
    ensures lo in m && hi in m && lo < hi && forall ts :: ts in m ==> lo <= ts <= hi
    ensures Trend(points).0 == m[lo] && Trend(points).1 == m[hi]
    ensures m[lo] != 0.0 ==> m[lo] + m[lo] * Trend(points).2 / 100.0 == m[hi]
  {
    lo, hi := points[0].ts, points[|points| - 1].ts;
    forall ts | ts in m ensures lo <= ts <= hi {
      assert ts in Times(points);
      var i :| 0 <= i < |points| && points[i].ts == ts;
    }
    if m[lo] != 0.0 {
      PercentUndone(m[lo], m[hi]);
    }
  }

  lemma PercentUndone(first: real, last: real)
    requires first != 0.0
    ensures first + first * ((last - first) / first * 100.0) / 100.0 == last
  {
    var r := (last - first) / first;
    assert r * first == last - first;
    assert first * (r * 100.0) == 100.0 * (r * first);
  }

  // ---------- addition is pointwise and loses nothing ----------

  lemma {:induction false} AccumulateAt(m: map<real, real>, b: seq<Point>, ts: real)
    ensures Get(Accumulate(m, b), ts) == Get(m, ts) + SumAt(b, ts)
    ensures ts in Accumulate(m, b) <==> ts in m || ts in Times(b)
  {
    if b != [] {
      var init, last := b[..|b| - 1], b[|b| - 1];
      AccumulateAt(m, init, ts);
      TimesSnoc(init, last);
      assert b == init + [last];
    }
  }

  lemma {:induction false} SumAtAbsent(ps: seq<Point>, ts: real)
    requires ts !in Times(ps)
    ensures SumAt(ps, ts) == 0.0
  {
    if ps != [] {
      var init, last := ps[..|ps| - 1], ps[|ps| - 1];
      assert ps == init + [last];
      TimesSnoc(init, last);
      SumAtAbsent(init, ts);
    }
  }

  /** With distinct times, overwriting and adding are the same. */
  lemma {:induction false} LastWriteIsSum(ps: seq<Point>, ts: real)
    requires DistinctTimes(ps)
    ensures Get(LastWrite(ps), ts) == SumAt(ps, ts)
  {
    if ps != [] {
      var init, last := ps[..|ps| - 1], ps[|ps| - 1];
      LastWriteIsSum(init, ts);
      if last.ts == ts {
        assert ts !in Times(init) by {
          forall p | p in init ensures p.ts != ts {
            var i :| 0 <= i < |init| && init[i] == p;
            assert ps[i].ts != ps[|ps| - 1].ts;
          }
        }
        SumAtAbsent(init, ts);
      }
    }
  }

  lemma ListingSums(r: seq<Point>, m: map<real, real>, ts: real)
    requires Lists(r, m)
    ensures SumAt(r, ts) == Get(m, ts)
  {
    LastWriteIsSum(r, ts);
    LastWriteIsLast(r, ts);
    if ts in LastWrite(r) {
      var i :| LastAt(r, ts, i) && r[i].value == LastWrite(r)[ts];
    }
  }

  /**
   * The sum of two series has exactly the times of both. At each time it holds what b adds up to there,
   * plus the last value of a; when a's times are distinct that is simply the sum of both.
   */
  lemma SumIsPointwise(a: seq<Point>, b: seq<Point>, r: seq<Point>, ts: real)
    requires Lists(r, Accumulate(LastWrite(a), b))
    ensures ts in Times(r) <==> ts in Times(a) || ts in Times(b)
    ensures SumAt(r, ts) == Get(LastWrite(a), ts) + SumAt(b, ts)
    ensures DistinctTimes(a) ==> SumAt(r, ts) == SumAt(a, ts) + SumAt(b, ts)
  {
    AccumulateAt(LastWrite(a), b, ts);
    LastWriteIsLast(a, ts);
    ListingSums(r, Accumulate(LastWrite(a), b), ts);
    if DistinctTimes(a) {
      LastWriteIsSum(a, ts);
    }
  }

  /** Total of ps over the times that r lists. */
  function MassOver(ps: seq<Point>, r: seq<Point>): real {
    if r == [] then 0.0 else MassOver(ps, r[..|r| - 1]) + SumAt(ps, r[|r| - 1].ts)
  }

  lemma {:induction false} MassOverSnoc(ps: seq<Point>, p: Point, r: seq<Point>)
    requires DistinctTimes(r)
    ensures MassOver(ps + [p], r) == MassOver(ps, r) + if p.ts in Times(r) then p.value else 0.0
  {
    if r != [] {
      var init, last := r[..|r| - 1], r[|r| - 1];
      MassOverSnoc(ps, p, init);
      assert (ps + [p])[..|ps|] == ps;
      assert r == init + [last];
      TimesSnoc(init, last);
      if p.ts == last.ts {
        assert p.ts !in Times(init) by {
          forall q | q in init ensures q.ts != p.ts {
            var i :| 0 <= i < |init| && init[i] == q;
            assert r[i].ts != r[|r| - 1].ts;
          }
        }
      }
    }
  }

  /** Summing per time over a listing that covers all times gives the whole mass. */
  lemma {:induction false} MassByTimes(ps: seq<Point>, r: seq<Point>)
    requires DistinctTimes(r) && Times(ps) <= Times(r)
    ensures MassOver(ps, r) == Mass(ps)
  {
    if ps == [] {
      MassOverEmpty(r);
    } else {
      var init, last := ps[..|ps| - 1], ps[|ps| - 1];
      assert ps == init + [last];
      TimesSnoc(init, last);
      MassByTimes(init, r);
      MassOverSnoc(init, last, r);
    }
  }

  lemma {:induction false} MassOverEmpty(r: seq<Point>)
    ensures MassOver([], r) == 0.0
  {
    if r != [] {
      MassOverEmpty(r[..|r| - 1]);
    }
  }

  lemma {:induction false} MassOverAdds(a: seq<Point>, b: seq<Point>, c: seq<Point>, r: seq<Point>)
    requires forall ts :: ts in Times(r) ==> SumAt(c, ts) == SumAt(a, ts) + SumAt(b, ts)
    ensures MassOver(c, r) == MassOver(a, r) + MassOver(b, r)
  {
    if r != [] {
      var init, last := r[..|r| - 1], r[|r| - 1];
      assert r == init + [last];
      TimesSnoc(init, last);
      MassOverAdds(a, b, c, init);
    }
  }

  /** Nothing is lost in the addition: the total of the sum is the total of both series. */
  lemma SumConservesMass(a: seq<Point>, b: seq<Point>, r: seq<Point>)
    requires DistinctTimes(a) && Lists(r, Accumulate(LastWrite(a), b))
    ensures Mass(r) == Mass(a) + Mass(b)
  {
    forall ts ensures SumAt(r, ts) == SumAt(a, ts) + SumAt(b, ts)
                      && (ts in Times(r) <==> ts in Times(a) || ts in Times(b)) {
      SumIsPointwise(a, b, r, ts);
    }
    MassByTimes(a, r);
    MassByTimes(b, r);
    MassByTimes(r, r);
    MassOverAdds(a, b, r, r);
  }

  // ---------- aggregation by workload ----------

  /** What all series of one workload add up to at one time. */
  function TotalAt(all: seq<Series>, workload: string, ts: real): real {
    if all == [] then 0.0
    else
      var last := all[|all| - 1];
      TotalAt(all[..|all| - 1], workload, ts) + if last.name == workload then SumAt(last.values, ts) else 0.0
  }

  function Workloads(all: seq<Series>): set<string> {
    set s | s in all :: s.name
  }

  ghost predicate AllDistinctTimes(all: seq<Series>) {
    forall i :: 0 <= i < |all| ==> DistinctTimes(all[i].values)
  }

  ghost predicate AllAscending(all: seq<Series>) {
    forall i :: 0 <= i < |all| ==> Ascending(all[i].values)
  }

  /** The times of all series of one workload. */
  function TimesOf(all: seq<Series>, workload: string): set<real> {
    set s, p | s in all && s.name == workload && p in s.values :: p.ts
  }

  /** The points have exactly the times of the workload's series, each once, with the total of their values. */
  ghost predicate IsTotal(all: seq<Series>, workload: string, ps: seq<Point>) {
    && DistinctTimes(ps) && Times(ps) == TimesOf(all, workload)
    && forall ts :: SumAt(ps, ts) == TotalAt(all, workload, ts)
  }

  ghost predicate Totals(all: seq<Series>, merged: map<string, seq<Point>>) {
    merged.Keys == Workloads(all) && forall w :: w in merged ==> IsTotal(all, w, merged[w])
  }

  ghost predicate Timelines(merged: map<string, seq<Point>>) {
    forall w :: w in merged ==> Ascending(merged[w])
  }

  /** One series into the map: copied the first time, added later. */
  method MergeSeries(merged0: map<string, seq<Point>>, s: Series, ghost before: seq<Series>)
    returns (merged: map<string, seq<Point>>)
    ensures merged.Keys == merged0.Keys + {s.name}
    ensures Totals(before, merged0) && DistinctTimes(s.values) ==> Totals(before + [s], merged)
    ensures Timelines(merged0) && Ascending(s.values) ==> Timelines(merged)
  {
    if s.name in merged0 {
      var sum := SumTimeseries(merged0[s.name], s.values);
      merged := merged0[s.name := sum];
      if Totals(before, merged0) {
        AddedSeries(before, s, merged0[s.name], sum);
      }
    } else {
      merged := merged0[s.name := s.values];
      if Totals(before, merged0) && DistinctTimes(s.values) {
        FirstSeries(before, s);
      }
    }
    if Totals(before, merged0) {
      WorkloadsSnoc(before, s);
      forall w | w in merged0 && w != s.name ensures IsTotal(before + [s], w, merged[w]) {
        OtherSeries(before, s, w, merged0[w]);
      }
    }
  }

  lemma WorkloadsSnoc(before: seq<Series>, s: Series)
    ensures Workloads(before + [s]) == Workloads(before) + {s.name}
  {
    assert forall x :: x in before + [s] <==> x in before || x == s;
  }

  lemma TimesOfSnoc(before: seq<Series>, s: Series, w: string)
    ensures TimesOf(before + [s], w) == TimesOf(before, w) + if s.name == w then Times(s.values) else {}
  {
    assert forall x :: x in before + [s] <==> x in before || x == s;
  }

  lemma AddedSeries(before: seq<Series>, s: Series, was: seq<Point>, sum: seq<Point>)
    requires IsTotal(before, s.name, was) && Lists(sum, Accumulate(LastWrite(was), s.values))
    ensures IsTotal(before + [s], s.name, sum)
  {
    forall ts
      ensures ts in Times(sum) <==> ts in Times(was) || ts in Times(s.values)
      ensures SumAt(sum, ts) == TotalAt(before + [s], s.name, ts)
    {
      SumIsPointwise(was, s.values, sum, ts);
      TotalSnoc(before, s, s.name, ts);
    }
    TimesOfSnoc(before, s, s.name);
  }

  lemma FirstSeries(before: seq<Series>, s: Series)
    requires s.name !in Workloads(before) && DistinctTimes(s.values)
    ensures IsTotal(before + [s], s.name, s.values)
  {
    TimesOfSnoc(before, s, s.name);
    forall ts ensures SumAt(s.values, ts) == TotalAt(before + [s], s.name, ts) {
      NoSeriesNoTotal(before, s.name, ts);
      TotalSnoc(before, s, s.name, ts);
    }
  }

  lemma OtherSeries(before: seq<Series>, s: Series, w: string, ps: seq<Point>)
    requires IsTotal(before, w, ps) && w != s.name
    ensures IsTotal(before + [s], w, ps)
  {
    TimesOfSnoc(before, s, w);
    forall ts ensures TotalAt(before + [s], w, ts) == TotalAt(before, w, ts) {
      TotalSnoc(before, s, w, ts);
    }
  }

  lemma TotalSnoc(before: seq<Series>, s: Series, w: string, ts: real)
    ensures TotalAt(before + [s], w, ts) == TotalAt(before, w, ts) + if s.name == w then SumAt(s.values, ts) else 0.0
  {
    assert (before + [s])[..|before|] == before;
  }

  lemma {:induction false} NoSeriesNoTotal(all: seq<Series>, w: string, ts: real)
    requires w !in Workloads(all)
    ensures TotalAt(all, w, ts) == 0.0
  {
    if all != [] {
      assert all[|all| - 1] in all;
      assert forall s :: s in all[..|all| - 1] ==> s in all;
      NoSeriesNoTotal(all[..|all| - 1], w, ts);
    }
  }

  /** Before sorting and cutting: one series per workload, the pointwise sum of all its series. */
  method AggregateByWorkload(all: seq<Series>) returns (merged: map<string, seq<Point>>)
    ensures merged.Keys == Workloads(all)
    ensures AllDistinctTimes(all) ==> Totals(all, merged)
    ensures AllAscending(all) ==> Timelines(merged)
  {
    merged := map[];
    for i := 0 to |all|
      invariant merged.Keys == Workloads(all[..i])
      invariant AllDistinctTimes(all) ==> Totals(all[..i], merged)
      invariant AllAscending(all) ==> Timelines(merged)
    {
      assert all[..i + 1] == all[..i] + [all[i]];
      assert forall x :: x in all[..i + 1] <==> x in all[..i] || x == all[i];
      merged := MergeSeries(merged, all[i], all[..i]);
    }
    assert all[..|all|] == all;
  }

  lemma {:induction false} TotalRemove(all: seq<Series>, k: nat, w: string, ts: real)
    requires k < |all|
    ensures TotalAt(all, w, ts)
         == TotalAt(all[..k] + all[k + 1..], w, ts) + if all[k].name == w then SumAt(all[k].values, ts) else 0.0
  {
    hide TotalAt, SumAt;
    var n := |all| - 1;
    var init, last := all[..n], all[n];
    assert all == init + [last];
    TotalSnoc(init, last, w, ts);
    if k == n {
      assert all[..k] + all[k + 1..] == init;
    } else {
      TotalRemove(init, k, w, ts);
      var rest := init[..k] + init[k + 1..];
      RemovedBefore(all, k);
      TotalSnoc(rest, last, w, ts);
    }
  }

  /** Where a permutation has the last series, and what remains without it. */
  lemma SamePlace(all: seq<Series>, other: seq<Series>) returns (k: nat)
    requires all != [] && multiset(all) == multiset(other)
    ensures k < |other| && other[k] == all[|all| - 1]
    ensures multiset(all[..|all| - 1]) == multiset(other[..k] + other[k + 1..])
  {
    var n := |all| - 1;
    assert all == all[..n] + [all[n]];
    assert all[n] in multiset(other);
    k :| 0 <= k < |other| && other[k] == all[n];
    assert other == other[..k] + [other[k]] + other[k + 1..];
    assert multiset(other[..k] + other[k + 1..]) == multiset(other) - multiset{other[k]};
    assert multiset(all[..n]) == multiset(all) - multiset{all[n]};
  }

  /** The totals do not depend on the order in which the series arrive. */
  lemma {:induction false} TotalIgnoresOrder(all: seq<Series>, other: seq<Series>, w: string, ts: real)
    requires multiset(all) == multiset(other)
    ensures TotalAt(all, w, ts) == TotalAt(other, w, ts)
  {
    if all == [] {
      assert |multiset(other)| == |other|;
    } else {
      var n := |all| - 1;
      var k := SamePlace(all, other);
      TotalIgnoresOrder(all[..n], other[..k] + other[k + 1..], w, ts);
      TotalRemove(other, k, w, ts);
    }
  }

  /** A listing with distinct times is determined by its times and its values there. */
  lemma ListsItself(ps: seq<Point>)
    requires Ascending(ps)
    ensures Lists(ps, map ts | ts in Times(ps) :: SumAt(ps, ts))
  {
    forall i | 0 <= i < |ps| ensures SumAt(ps, ps[i].ts) == ps[i].value {
      LastWriteIsSum(ps, ps[i].ts);
      LastWriteIsLast(ps, ps[i].ts);
      assert ps[i].ts in Times(ps);
      var j :| LastAt(ps, ps[i].ts, j) && ps[j].value == LastWrite(ps)[ps[i].ts];
    }
  }

  lemma SamePoints(p: seq<Point>, q: seq<Point>)
    requires Ascending(p) && Ascending(q) && Times(p) == Times(q)
    requires forall ts :: SumAt(p, ts) == SumAt(q, ts)
    ensures p == q
  {
    ListsItself(p);
    ListsItself(q);
    hide SumAt, Ascending, Times, Lists;
    var m := map ts | ts in Times(p) :: SumAt(p, ts);
    assert m == map ts | ts in Times(q) :: SumAt(q, ts);
    ListingUnique(p, q, m);
  }

  lemma SameMembers(all: seq<Series>, other: seq<Series>)
    requires multiset(all) == multiset(other)
    ensures forall s :: s in all <==> s in other
    ensures Workloads(all) == Workloads(other)
    ensures forall w :: TimesOf(all, w) == TimesOf(other, w)
  {
    forall s ensures s in all <==> s in other {
      assert s in all <==> s in multiset(all);
      assert s in other <==> s in multiset(other);
    }
    forall w ensures TimesOf(all, w) == TimesOf(other, w) {
    }
  }

  lemma SameTotals(all: seq<Series>, other: seq<Series>, w: string, p: seq<Point>, q: seq<Point>)
    requires multiset(all) == multiset(other) && Ascending(p) && Ascending(q)
    requires IsTotal(all, w, p) && IsTotal(other, w, q)
    ensures p == q
  {
    hide SumAt, TotalAt, Ascending, Times, TimesOf, Workloads, DistinctTimes;
    SameMembers(all, other);
    forall ts ensures SumAt(p, ts) == SumAt(q, ts) {
      TotalIgnoresOrder(all, other, w, ts);
    }
    SamePoints(p, q);
  }

  /** Two aggregations of the same series in any two orders give the same timelines. */
  lemma AggregateIgnoresOrder(all: seq<Series>, other: seq<Series>,
                              m: map<string, seq<Point>>, n: map<string, seq<Point>>)
    requires multiset(all) == multiset(other)
    requires Totals(all, m) && Timelines(m) && Totals(other, n) && Timelines(n)
    ensures m == n
  {
    hide IsTotal, Ascending, Workloads, TimesOf;
    SameMembers(all, other);
    forall w | w in m ensures m[w] == n[w] {
      SameTotals(all, other, w, m[w], n[w]);
    }
  }
}
