/** Runs of a state machine, given by the relation of its single steps. */
module Runs {

  /** The steps of the run lead from s to t, one after the other. */
  ghost predicate Leads<S(!new), A(!new)>(steps: (S, A, S) -> bool, s: S, run: seq<A>, t: S)
    decreases |run|
  {
    if run == [] then t == s
    else
      var n := |run| - 1;
      exists m :: Leads(steps, s, run[..n], m) && steps(m, run[n], t)
  }

  lemma NoSteps<S(!new), A(!new)>(steps: (S, A, S) -> bool, s: S)
    ensures Leads(steps, s, [], s)
  {
  }

  /** A run can be split off its last step. */
  lemma LastStep<S(!new), A(!new)>(steps: (S, A, S) -> bool, s: S, run: seq<A>, t: S) returns (m: S)
    requires run != [] && Leads(steps, s, run, t)
    ensures Leads(steps, s, run[..|run| - 1], m) && steps(m, run[|run| - 1], t)
  {
    m :| Leads(steps, s, run[..|run| - 1], m) && steps(m, run[|run| - 1], t);
  }

  lemma Extended<S(!new), A(!new)>(steps: (S, A, S) -> bool, s: S, run: seq<A>, m: S, a: A, t: S)
    returns (longer: seq<A>)
    requires Leads(steps, s, run, m) && steps(m, a, t)
    ensures longer == run + [a] && Leads(steps, s, longer, t)
  {
    longer := run + [a];
    assert longer[..|run|] == run;
  }
}
