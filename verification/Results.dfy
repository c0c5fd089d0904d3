/** The result list of one cluster and operator, with its running counters. */
module Results {
  import opened Sums

  datatype Status = Pass | Fail | Warning | Info | Skip | Unknown | AccessDenied

  datatype Result = Result(check: string, status: Status)

  datatype Overall = Critical | Warn | Healthy

  /** The context's results and counters as a value. */
  datatype Tally = Tally(results: seq<Result>, criticalCount: int, warningCount: int)

  function Failing(r: Result): int {
    if r.status == Fail then 1 else 0
  }

  function Warned(r: Result): int {
    if r.status == Warning then 1 else 0
  }

  ghost predicate Agrees(t: Tally) {
    t.criticalCount == Sum(t.results, Failing) && t.warningCount == Sum(t.results, Warned)
  }

  function Added(t: Tally, r: Result): Tally {
    Tally(t.results + [r], t.criticalCount + Failing(r), t.warningCount + Warned(r))
  }

  function AddedAll(t: Tally, rs: seq<Result>): Tally {
    if rs == [] then t else Added(AddedAll(t, rs[..|rs| - 1]), rs[|rs| - 1])
  }

  /** The overall status as the results themselves determine it. */
  ghost predicate IsOverall(results: seq<Result>, o: Overall) {
    match o
    case Critical => exists r :: r in results && r.status == Fail
    case Warn => (forall r :: r in results ==> r.status != Fail) && exists r :: r in results && r.status == Warning
    case Healthy => forall r :: r in results ==> r.status != Fail && r.status != Warning
  }

  class ClusterContext {
    var results: seq<Result>
    var criticalCount: int
    var warningCount: int

    function View(): Tally
      reads this
    {
      Tally(results, criticalCount, warningCount)
    }

    constructor ()
      ensures View() == Tally([], 0, 0) && Agrees(View())
    {
      results, criticalCount, warningCount := [], 0, 0;
    }

    method AddResult(r: Result)
      modifies this
      ensures View() == Added(old(View()), r)
      ensures old(Agrees(View())) ==> Agrees(View())
    {
      results := results + [r];
      match r.status {
        case Fail => criticalCount := criticalCount + 1;
        case Warning => warningCount := warningCount + 1;
        case _ =>
      }
      AddKeepsAgreement(old(View()), r);
    }

    /** Replays a cached list, one result after the other. */
    method AddAll(rs: seq<Result>)
      modifies this
      ensures View() == AddedAll(old(View()), rs)
      ensures results == old(results) + rs
      ensures old(Agrees(View())) ==> Agrees(View())
    {
      for i := 0 to |rs|
        invariant View() == AddedAll(old(View()), rs[..i]) && results == old(results) + rs[..i]
        invariant old(Agrees(View())) ==> Agrees(View())
      {
        assert rs[..i + 1][..i] == rs[..i];
        AddResult(rs[i]);
      }
      assert rs[..|rs|] == rs;
    }

    /** Two scans: the first failure decides, then the first warning. */
    method OverallStatus() returns (o: Overall)
      ensures IsOverall(results, o)
    {
      for i := 0 to |results|
        invariant forall j :: 0 <= j < i ==> results[j].status != Fail
      {
        if results[i].status == Fail {
          return Critical;
        }
      }
      for i := 0 to |results|
        invariant forall j :: 0 <= j < i ==> results[j].status != Warning
      {
        if results[i].status == Warning {
          return Warn;
        }
      }
      return Healthy;
    }

    /** The summary written to the report: status by scan, counts by counter. */
    method Summary() returns (o: Overall, critical: int, warnings: int)
      requires Agrees(View())
      ensures IsOverall(results, o) && critical == Sum(results, Failing) && warnings == Sum(results, Warned)
      ensures (o == Critical <==> critical > 0) && (o == Warn <==> critical == 0 && warnings > 0)
    {
      o := OverallStatus();
      critical, warnings := criticalCount, warningCount;
      CountersDecide(View(), o);
    }
  }

  lemma AddKeepsAgreement(t: Tally, r: Result)
    ensures Agrees(t) ==> Agrees(Added(t, r))
  {
    hide Sum;
    SumSnoc(t.results, r, Failing);
    SumSnoc(t.results, r, Warned);
  }

  lemma {:induction false} AddAllAppends(t: Tally, rs: seq<Result>)
    ensures AddedAll(t, rs).results == t.results + rs
    ensures Agrees(t) ==> Agrees(AddedAll(t, rs))
  {
    if rs != [] {
      var init := rs[..|rs| - 1];
      AddAllAppends(t, init);
      assert rs == init + [rs[|rs| - 1]];
      AddKeepsAgreement(AddedAll(t, init), rs[|rs| - 1]);
    }
  }

  lemma {:induction false} PositiveSum(s: seq<Result>, f: Result -> int)
    requires forall r :: f(r) == 0 || f(r) == 1
    ensures Sum(s, f) >= 0
    ensures Sum(s, f) > 0 <==> exists r :: r in s && f(r) == 1
  {
    if s != [] {
      var init, last := s[..|s| - 1], s[|s| - 1];
      PositiveSum(init, f);
      assert s == init + [last];
    }
  }

  /** The counters and the scanned status never contradict each other. */
  lemma CountersDecide(t: Tally, o: Overall)
    requires Agrees(t) && IsOverall(t.results, o)
    ensures o == Critical <==> t.criticalCount > 0
    ensures o == Warn <==> t.criticalCount == 0 && t.warningCount > 0
  {
    PositiveSum(t.results, Failing);
    PositiveSum(t.results, Warned);
    assert forall r :: Failing(r) == 1 <==> r.status == Fail;
    assert forall r :: Warned(r) == 1 <==> r.status == Warning;
  }

  /** The counters are the numbers of failed and of warning results. */
  lemma CountersAreNumbers(rs: seq<Result>)
    ensures Sum(rs, Failing) == |set i | 0 <= i < |rs| && rs[i].status == Fail|
    ensures Sum(rs, Warned) == |set i | 0 <= i < |rs| && rs[i].status == Warning|
  {
    hide Sum;
    var failed := SumIsNumber(rs, Failing);
    var warned := SumIsNumber(rs, Warned);
    assert failed == set i | 0 <= i < |rs| && rs[i].status == Fail;
    assert warned == set i | 0 <= i < |rs| && rs[i].status == Warning;
  }
}
