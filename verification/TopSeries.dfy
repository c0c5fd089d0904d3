/** Picking the n series worth charting by a partial selection sort. */
module TopSeries {

  import opened SeriesModel

  datatype Scored = Scored(idx: nat, score: real)

  // ---------- specification ----------

  /** The smallest value, but at most one. */
  function Worst(values: seq<Point>): real {
    if values == [] then 1.0
    else
      var rest, v := Worst(values[..|values| - 1]), values[|values| - 1].value;
      if v < rest then v else rest
  }

  function Peaks(series: seq<Series>): (ps: seq<real>)
    ensures |ps| == |series| && forall i :: 0 <= i < |series| ==> ps[i] == Peak(series[i].values)
  {
    seq(|series|, i requires 0 <= i < |series| => Peak(series[i].values))
  }

  function Worsts(series: seq<Series>): (ws: seq<real>)
    ensures |ws| == |series| && forall i :: 0 <= i < |series| ==> ws[i] == Worst(series[i].values)
  {
    seq(|series|, i requires 0 <= i < |series| => Worst(series[i].values))
  }

  function Negated(s: seq<real>): (r: seq<real>)
    ensures |r| == |s| && forall i :: 0 <= i < |s| ==> r[i] == -s[i]
  {
    seq(|s|, i requires 0 <= i < |s| => -s[i])
  }

  /** picks names n distinct positions, best scores first, and no other position scores better than any of them. */
  ghost predicate IsTop(scores: seq<real>, n: nat, picks: seq<nat>) {
    && |picks| == n
    && (forall i :: 0 <= i < n ==> picks[i] < |scores|)
    && (forall i, j :: 0 <= i < j < n ==> picks[i] != picks[j] && scores[picks[i]] >= scores[picks[j]])
    && (forall p, i :: 0 <= p < |scores| && p !in picks && 0 <= i < n ==> scores[p] <= scores[picks[i]])
  }

  ghost predicate Charted(series: seq<Series>, picks: seq<nat>, result: seq<Series>) {
    |result| == |picks|
    && forall i :: 0 <= i < |picks| ==> picks[i] < |series| && result[i] == series[picks[i]]
  }

  // ---------- the algorithm ----------

  /** The entries are a rearrangement of (position, score of that position), each position once. */
  ghost predicate Arranged(scores: seq<real>, entries: seq<Scored>) {
    && |entries| == |scores|
    && (forall i :: 0 <= i < |entries| ==> entries[i].idx < |scores| && entries[i].score == scores[entries[i].idx])
    && (forall i, j :: 0 <= i < j < |entries| ==> entries[i].idx != entries[j].idx)
    && (forall p: nat :: p < |scores| ==> HasEntry(entries, p))
  }

  ghost predicate HasEntry(entries: seq<Scored>, p: nat) {
    exists i :: 0 <= i < |entries| && entries[i].idx == p
  }

  /** The first k entries are settled: sorted, and nothing behind them is better. */
  ghost predicate Settled(entries: seq<Scored>, k: nat) {
    k <= |entries|
    && forall i, j :: 0 <= i < k && i < j < |entries| ==> entries[i].score >= entries[j].score
  }

  /** One round: swaps the best remaining entry to position i. */
  method SelectMax(scores: array<Scored>, i: nat)
    requires i < scores.Length && Settled(scores[..], i)
    modifies scores
    ensures Settled(scores[..], i + 1)
    ensures exists m :: i <= m < scores.Length
              && scores[..] == old(scores[..])[i := old(scores[m])][m := old(scores[i])]
  {
    var maxIdx := i;
    for j := i + 1 to scores.Length
      invariant i <= maxIdx < scores.Length
      invariant forall l :: i <= l < j ==> scores[l].score <= scores[maxIdx].score
    {
      if scores[j].score > scores[maxIdx].score {
        maxIdx := j;
      }
    }
    ghost var was := scores[..];
    scores[i], scores[maxIdx] := scores[maxIdx], scores[i];
    assert scores[..] == was[i := was[maxIdx]][maxIdx := was[i]];
  }

  lemma SwapKeepsArranged(scores: seq<real>, entries: seq<Scored>, i: nat, m: nat)
    requires Arranged(scores, entries) && i <= m < |entries|
    ensures Arranged(scores, entries[i := entries[m]][m := entries[i]])
  {
    var swapped := entries[i := entries[m]][m := entries[i]];
    forall p: nat | p < |scores| ensures HasEntry(swapped, p) {
      assert HasEntry(entries, p);
      var k :| 0 <= k < |entries| && entries[k].idx == p;
      var k' := if k == i then m else if k == m then i else k;
      assert swapped[k'].idx == p;
    }
  }

  /** The first n entries, once settled, are a top-n choice. */
  lemma SettledIsTop(scores: seq<real>, entries: seq<Scored>, n: nat, picks: seq<nat>)
    requires Arranged(scores, entries) && Settled(entries, n)
    requires |picks| == n && forall i :: 0 <= i < n ==> picks[i] == entries[i].idx
    ensures IsTop(scores, n, picks)
  {
    forall p: nat, i | p < |scores| && p !in picks && 0 <= i < n ensures scores[p] <= scores[picks[i]] {
      assert HasEntry(entries, p);
      var k :| 0 <= k < |entries| && entries[k].idx == p;
      assert forall a :: 0 <= a < n ==> picks[a] in picks;
      assert entries[i].score >= entries[k].score;
    }
  }

  function Indices(entries: seq<Scored>): (picks: seq<nat>)
    ensures |picks| == |entries| && forall i :: 0 <= i < |entries| ==> picks[i] == entries[i].idx
  {
    seq(|entries|, i requires 0 <= i < |entries| => entries[i].idx)
  }

  /** n rounds of selection leave a top-n choice in front. */
  method PartialSort(scores: array<Scored>, n: nat, ghost values: seq<real>)
    requires n <= scores.Length && Arranged(values, scores[..])
    modifies scores
    ensures Arranged(values, scores[..]) && IsTop(values, n, Indices(scores[..n]))
  {
    for i := 0 to n
      invariant Arranged(values, scores[..]) && Settled(scores[..], i)
    {
      ghost var was := scores[..];
      SelectMax(scores, i);
      ghost var m :| i <= m < scores.Length && scores[..] == was[i := was[m]][m := was[i]];
      SwapKeepsArranged(values, was, i, m);
    }
    SettledIsTop(values, scores[..], n, Indices(scores[..n]));
  }

  /** The same entries with every score's sign changed, which turns smallest-first into largest-first. */
  function Flipped(entries: seq<Scored>): (f: seq<Scored>)
    ensures |f| == |entries|
    ensures forall i :: 0 <= i < |entries| ==> f[i] == Scored(entries[i].idx, -entries[i].score)
  {
    seq(|entries|, i requires 0 <= i < |entries| => Scored(entries[i].idx, -entries[i].score))
  }

  lemma SwapSettles(was: seq<Scored>, i: nat, m: nat)
    requires i <= m < |was| && Settled(Flipped(was), i)
    requires forall l :: i <= l < |was| ==> was[l].score >= was[m].score
    ensures Settled(Flipped(was[i := was[m]][m := was[i]]), i + 1)
  {
    forall a, b | 0 <= a < i && a < b < |was| ensures was[a].score <= was[b].score {
      assert Flipped(was)[a].score >= Flipped(was)[b].score;
    }
  }

  /** One round of the dual: swaps the smallest remaining entry to position i. */
  method SelectMin(scores: array<Scored>, i: nat)
    requires i < scores.Length && Settled(Flipped(scores[..]), i)
    modifies scores
    ensures Settled(Flipped(scores[..]), i + 1)
    ensures exists m :: i <= m < scores.Length
              && scores[..] == old(scores[..])[i := old(scores[m])][m := old(scores[i])]
  {
    var minIdx := i;
    for j := i + 1 to scores.Length
      invariant i <= minIdx < scores.Length
      invariant forall l :: i <= l < j ==> scores[l].score >= scores[minIdx].score
    {
      if scores[j].score < scores[minIdx].score {
        minIdx := j;
      }
    }
    ghost var was := scores[..];
    SwapSettles(was, i, minIdx);
    hide Settled, Flipped;
    scores[i], scores[minIdx] := scores[minIdx], scores[i];
    assert scores[..] == was[i := was[minIdx]][minIdx := was[i]];
  }

  lemma FlippedSwap(was: seq<Scored>, i: nat, m: nat)
    requires i < |was| && m < |was|
    ensures Flipped(was[i := was[m]][m := was[i]]) == Flipped(was)[i := Flipped(was)[m]][m := Flipped(was)[i]]
  {
  }

  method RoundMin(scores: array<Scored>, i: nat, ghost values: seq<real>)
    requires i < scores.Length && Arranged(values, Flipped(scores[..])) && Settled(Flipped(scores[..]), i)
    modifies scores
    ensures Arranged(values, Flipped(scores[..])) && Settled(Flipped(scores[..]), i + 1)
  {
    hide Arranged, Settled, Flipped;
    ghost var was := scores[..];
    SelectMin(scores, i);
    ghost var m :| i <= m < scores.Length && scores[..] == was[i := was[m]][m := was[i]];
    SwapKeepsArranged(values, Flipped(was), i, m);
    FlippedSwap(was, i, m);
  }

  method PartialSortMin(scores: array<Scored>, n: nat, ghost values: seq<real>)
    requires n < scores.Length && Arranged(values, Flipped(scores[..]))
    modifies scores
    ensures Arranged(values, Flipped(scores[..])) && IsTop(values, n, Indices(scores[..n]))
  {
    for i := 0 to n
      invariant Arranged(values, Flipped(scores[..])) && Settled(Flipped(scores[..]), i)
    {
      RoundMin(scores, i, values);
    }
    SettledIsTop(values, Flipped(scores[..]), n, Indices(scores[..n]));
  }

  method WorstOf(values: seq<Point>) returns (worst: real)
    ensures worst == Worst(values)
  {
    worst := 1.0;
    for i := 0 to |values|
      invariant worst == Worst(values[..i])
    {
      assert values[..i + 1][..i] == values[..i];
      if values[i].value < worst {
        worst := values[i].value;
      }
    }
    assert values[..|values|] == values;
  }

  /** The worst value is the smallest one, or one when all are larger. */
  lemma {:induction false} WorstIsMinimum(values: seq<Point>)
    ensures Worst(values) <= 1.0 && forall p :: p in values ==> Worst(values) <= p.value
    ensures Worst(values) == 1.0 || exists p :: p in values && p.value == Worst(values)
  {
    if values != [] {
      var init, last := values[..|values| - 1], values[|values| - 1];
      WorstIsMinimum(init);
      assert values == init + [last];
      if Worst(values) != 1.0 {
        if last.value < Worst(init) {
          assert last in values && last.value == Worst(values);
        } else {
          var p :| p in init && p.value == Worst(init);
          assert p in values;
        }
      }
    }
  }

  /** Every value of the other series, if below one, is matched by one that is no larger. */
  ghost predicate GoesAsLow(values: seq<Point>, other: seq<Point>) {
    forall x :: x in other && x.value < 1.0 ==> exists y :: y in values && y.value <= x.value
  }

  lemma ChosenGoLower(series: seq<Series>, n: nat, picks: seq<nat>, p: nat, i: nat)
    requires IsTop(Negated(Worsts(series)), n, picks) && p < |series| && p !in picks && i < n
    ensures GoesAsLow(series[picks[i]].values, series[p].values)
  {
    assert Worsts(series)[picks[i]] <= Worsts(series)[p] by {
      assert Negated(Worsts(series))[p] <= Negated(Worsts(series))[picks[i]];
    }
    WorstIsMinimum(series[p].values);
    WorstIsMinimum(series[picks[i]].values);
  }

  method TopByPeak(series: seq<Series>, n: nat) returns (result: seq<Series>, ghost picks: seq<nat>)
    ensures |series| <= n ==> result == series
    ensures |series| > n ==> Charted(series, picks, result) && IsTop(Peaks(series), n, picks)
  {
    picks := [];
    if |series| <= n {
      return series, [];
    }
    var scores := new Scored[|series|](i => Scored(0, 0.0));
    for i := 0 to |series|
      invariant forall j :: 0 <= j < i ==> scores[j] == Scored(j, Peak(series[j].values))
    {
      var peak := PeakOf(series[i].values);
      scores[i] := Scored(i, peak);
    }
    InitiallyArranged(Peaks(series), scores[..]);
    PartialSort(scores, n, Peaks(series));
    picks := Indices(scores[..n]);
    result := Chosen(series, scores[..n]);
  }

  /** All series in falling order of their peaks; the order among equal peaks is left open. */
  method SortByPeak(series: seq<Series>) returns (sorted: seq<Series>, ghost order: seq<nat>)
    ensures Charted(series, order, sorted) && IsTop(Peaks(series), |series|, order)
  {
    var scores := new Scored[|series|](i => Scored(0, 0.0));
    for i := 0 to |series|
      invariant forall j :: 0 <= j < i ==> scores[j] == Scored(j, Peak(series[j].values))
    {
      var peak := PeakOf(series[i].values);
      scores[i] := Scored(i, peak);
    }
    InitiallyArranged(Peaks(series), scores[..]);
    PartialSort(scores, |series|, Peaks(series));
    assert scores[..|series|] == scores[..];
    order := Indices(scores[..]);
    sorted := Chosen(series, scores[..]);
  }

  /** A shorter choice is the front of a longer one. */
  lemma TopPrefix(scores: seq<real>, n: nat, picks: seq<nat>, m: nat)
    requires IsTop(scores, n, picks) && m <= n
    ensures IsTop(scores, m, picks[..m])
  {
    forall p, i | 0 <= p < |scores| && p !in picks[..m] && 0 <= i < m ensures scores[p] <= scores[picks[..m][i]] {
      if p in picks {
        var k :| 0 <= k < n && picks[k] == p;
        assert forall a :: 0 <= a < m ==> picks[..m][a] == picks[a] && picks[a] in picks[..m];
        assert k >= m;
        assert scores[picks[i]] >= scores[picks[k]];
      }
    }
  }

  /** The dual: smallest minima first. */
  method TopByWorstRatio(series: seq<Series>, n: nat) returns (result: seq<Series>, ghost picks: seq<nat>)
    ensures |series| <= n ==> result == series
    ensures |series| > n ==> Charted(series, picks, result) && IsTop(Negated(Worsts(series)), n, picks)
    ensures |series| > n ==> forall p, i :: 0 <= p < |series| && p !in picks && 0 <= i < n ==>
              GoesAsLow(result[i].values, series[p].values)
  {
    picks := [];
    if |series| <= n {
      return series, [];
    }
    var scores := new Scored[|series|](i => Scored(0, 0.0));
    for i := 0 to |series|
      invariant forall j :: 0 <= j < i ==> scores[j] == Scored(j, Worst(series[j].values))
    {
      var worst := WorstOf(series[i].values);
      scores[i] := Scored(i, worst);
    }
    InitiallyArranged(Negated(Worsts(series)), Flipped(scores[..]));
    PartialSortMin(scores, n, Negated(Worsts(series)));
    picks := Indices(scores[..n]);
    KnownIndices(Negated(Worsts(series)), Flipped(scores[..]));
    result := Chosen(series, scores[..n]);
    forall p, i | 0 <= p < |series| && p !in picks && 0 <= i < n
      ensures GoesAsLow(result[i].values, series[p].values)
    {
      ChosenGoLower(series, n, picks, p, i);
    }
  }

  lemma KnownIndices(values: seq<real>, entries: seq<Scored>)
    requires Arranged(values, entries)
    ensures forall i :: 0 <= i < |entries| ==> entries[i].idx < |values|
  {
  }

  function Chosen(series: seq<Series>, entries: seq<Scored>): (r: seq<Series>)
    requires forall i :: 0 <= i < |entries| ==> entries[i].idx < |series|
    ensures Charted(series, Indices(entries), r)
  {
    seq(|entries|, i requires 0 <= i < |entries| => series[entries[i].idx])
  }

  lemma InitiallyArranged(scores: seq<real>, entries: seq<Scored>)
    requires |entries| == |scores| && forall i :: 0 <= i < |scores| ==> entries[i] == Scored(i, scores[i])
    ensures Arranged(scores, entries)
  {
    forall p: nat | p < |scores| ensures HasEntry(entries, p) {
      assert entries[p].idx == p;
    }
  }

  // ---------- the choice is determined up to ties ----------

  /** More distinct picks than listed positions: one pick is not listed. */
  lemma {:induction false} UnlistedPick(picks: seq<nat>, listed: seq<nat>) returns (i: nat)
    requires |picks| > |listed| && forall a, b :: 0 <= a < b < |picks| ==> picks[a] != picks[b]
    ensures i < |picks| && forall m :: 0 <= m < |listed| ==> listed[m] != picks[i]
    decreases |listed|
  {
    var last := |picks| - 1;
    if k :| 0 <= k < |listed| && listed[k] == picks[last] {
      var rest := listed[..k] + listed[k + 1..];
      i := UnlistedPick(picks[..last], rest);
      forall m | 0 <= m < |listed| ensures listed[m] != picks[i] {
        if m < k {
          assert rest[m] == listed[m];
        } else if m > k {
          assert rest[m - 1] == listed[m];
        }
      }
    } else {
      i := last;
    }
  }

  /** Two top-n choices from one list of scores show the same scores in the same order. */
  lemma TopScoresAgree(scores: seq<real>, n: nat, p: seq<nat>, q: seq<nat>, i: nat)
    requires IsTop(scores, n, p) && IsTop(scores, n, q) && i < n
    ensures scores[p[i]] == scores[q[i]]
  {
    NotBetter(scores, n, p, q, i);
    NotBetter(scores, n, q, p, i);
  }

  lemma NotBetter(scores: seq<real>, n: nat, p: seq<nat>, q: seq<nat>, i: nat)
    requires IsTop(scores, n, p) && IsTop(scores, n, q) && i < n
    ensures scores[p[i]] <= scores[q[i]]
  {
    var k := UnlistedPick(p[..i + 1], q[..i]);
    assert forall a :: 0 <= a < i ==> q[..i][a] == q[a];
    assert scores[p[k]] >= scores[p[i]];
    if m :| 0 <= m < n && q[m] == p[k] {
      assert m >= i;
      assert scores[q[i]] >= scores[q[m]];
    } else {
      assert p[k] !in q;
      assert scores[p[k]] <= scores[q[i]];
    }
  }

  /** A full sort by falling peak, stable or not, followed by a cut at n, is a top-n choice as well. */
  lemma SortedCutIsTop(series: seq<Series>, order: seq<nat>, n: nat)
    requires |order| == |series| && n <= |order| && forall i :: 0 <= i < |order| ==> order[i] < |series|
    requires forall i, j :: 0 <= i < j < |order| ==> order[i] != order[j]
    requires forall p: nat :: p < |series| ==> p in order
    requires forall i, j :: 0 <= i < j < |order| ==> Peaks(series)[order[i]] >= Peaks(series)[order[j]]
    ensures IsTop(Peaks(series), n, order[..n])
  {
    var entries := seq(|order|, i requires 0 <= i < |order| => Scored(order[i], Peaks(series)[order[i]]));
    forall p: nat | p < |series| ensures HasEntry(entries, p) {
      assert p in order;
      var i :| 0 <= i < |order| && order[i] == p;
      assert entries[i].idx == p;
    }
    SettledIsTop(Peaks(series), entries, n, order[..n]);
  }
}
