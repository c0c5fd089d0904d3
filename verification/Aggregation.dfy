/** The charted workloads: series added up per workload, sorted by peak, and cut. */
module Aggregation {
  import opened SeriesModel
  import opened Timeline
  import opened TopSeries

  const MAX_WORKLOADS := 15

  /** The series are the map's entries for these workloads, each once, in any order. */
  ghost predicate EntriesOf(listed: seq<Series>, merged: map<string, seq<Point>>, names: set<string>) {
    && Workloads(listed) == names && |listed| == |names|
    && (forall i, j :: 0 <= i < j < |listed| ==> listed[i].name != listed[j].name)
    && (forall i :: 0 <= i < |listed| ==> listed[i].name in merged && merged[listed[i].name] == listed[i].values)
  }

  lemma EntriesSnoc(listed: seq<Series>, merged: map<string, seq<Point>>, names: set<string>, w: string)
    requires EntriesOf(listed, merged, names) && w in merged && w !in names
    ensures EntriesOf(listed + [Series(w, merged[w])], merged, names + {w})
  {
    WorkloadsSnoc(listed, Series(w, merged[w]));
    forall i | 0 <= i < |listed| ensures listed[i].name in names {
      assert listed[i] in listed;
    }
  }

  lemma NoEntries(merged: map<string, seq<Point>>)
    ensures EntriesOf([], merged, {})
  {
  }

  lemma SomeWorkload(names: set<string>)
    requires names != {}
    ensures exists w :: w in names
  {
    assert (forall w :: w !in names) ==> names <= {};
  }

  /** Visits the map in whatever order iteration takes. */
  method ListWorkloads(merged: map<string, seq<Point>>) returns (listed: seq<Series>)
    ensures EntriesOf(listed, merged, merged.Keys)
  {
    hide EntriesOf;
    listed := [];
    var rest := merged.Keys;
    ghost var visited: set<string> := {};
    NoEntries(merged);
    while rest != {}
      invariant visited !! rest && visited + rest == merged.Keys
      invariant EntriesOf(listed, merged, visited)
    {
      SomeWorkload(rest);
      var w :| w in rest;
      EntriesSnoc(listed, merged, visited, w);
      visited := visited + {w};
      rest := rest - {w};
      listed := listed + [Series(w, merged[w])];
    }
  }

  /** The charted series are the best of the listed ones by peak, in falling order, and no more than fit. */
  ghost predicate Shows(listed: seq<Series>, picks: seq<nat>, result: seq<Series>) {
    && Charted(listed, picks, result)
    && IsTop(Peaks(listed), if |listed| > MAX_WORKLOADS then MAX_WORKLOADS else |listed|, picks)
  }

  ghost predicate Charts(result: seq<Series>, merged: map<string, seq<Point>>) {
    exists listed, picks :: EntriesOf(listed, merged, merged.Keys) && Shows(listed, picks, result)
  }

  /** Adds up, sorts and cuts. */
  method TopWorkloads(all: seq<Series>) returns (result: seq<Series>)
    ensures AllDistinctTimes(all) ==> exists merged :: Totals(all, merged) && Charts(result, merged)
    ensures |result| == if |Workloads(all)| > 15 then 15 else |Workloads(all)|
  {
    var merged := AggregateByWorkload(all);
    var listed := ListWorkloads(merged);
    ghost var order: seq<nat>;
    result, order := SortByPeak(listed);
    if |result| > MAX_WORKLOADS {
      TopPrefix(Peaks(listed), |listed|, order, MAX_WORKLOADS);
      result, order := result[..MAX_WORKLOADS], order[..MAX_WORKLOADS];
    }
    assert Shows(listed, order, result);
    assert Charts(result, merged);
  }
}
