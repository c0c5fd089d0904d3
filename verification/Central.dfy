/**
 * Central pipeline checks: executed once per environment, cached, and replayed on every cluster of the
 * environment, while the clusters' tasks interleave freely.
 */
module Central {
  import opened Results
  import opened Runs
  import opened Sums

  /** A one-time gate: nobody inside yet, somebody inside, or passed. */
  datatype Once = Fresh | Busy(holder: nat) | Done

  datatype Pc =
    | Start | AtGate | Executing | Storing(found: seq<Result>) | Leaving
    | Reading | Replaying(cached: seq<Result>, next: nat) | Finished

  /** guard: configuration for the cluster's environment exists. initial: the tally before these checks. */
  datatype Task = Task(env: string, guard: bool, initial: Tally, tally: Tally, pc: Pc)

  /** An execution of the central checks, kept for the proofs. */
  datatype Execution = Execution(env: string, task: nat, found: seq<Result>)

  datatype State = State(
    once: map<string, Once>, cache: map<string, seq<Result>>, tasks: seq<Task>, executions: seq<Execution>)

  datatype Step =
    | GetOnce(t: nat) | PassGate(t: nat) | Execute(t: nat, found: seq<Result>)
    | Store(t: nat) | LeaveGate(t: nat) | ReadCache(t: nat) | ReplayOne(t: nat)

  ghost predicate Starts(s: State) {
    && s.once == map[] && s.cache == map[] && s.executions == []
    && forall t :: 0 <= t < |s.tasks| ==> s.tasks[t].pc == Start && s.tasks[t].tally == s.tasks[t].initial
  }

  ghost predicate Enabled(s: State, a: Step) {
    a.t < |s.tasks|
    && var task := s.tasks[a.t];
       match a
       case GetOnce(_) => task.pc == Start
       case PassGate(_) => task.pc == AtGate && task.env in s.once && !s.once[task.env].Busy?
       case Execute(_, _) => task.pc == Executing
       case Store(_) => task.pc.Storing?
       case LeaveGate(_) => task.pc == Leaving
       case ReadCache(_) => task.pc == Reading
       case ReplayOne(_) => task.pc.Replaying? && task.pc.next <= |task.pc.cached|
  }

  function Move(s: State, t: nat, pc: Pc): State
    requires t < |s.tasks|
  {
    s.(tasks := s.tasks[t := s.tasks[t].(pc := pc)])
  }

  ghost function Next(s: State, a: Step): State
    requires Enabled(s, a)
  {
    var t := a.t;
    var task := s.tasks[t];
    var env := task.env;
    match a
    case GetOnce(_) =>
      if !task.guard then Move(s, t, Finished)
      else Move(s, t, AtGate).(once := if env in s.once then s.once else s.once[env := Fresh])
    case PassGate(_) =>
      if s.once[env] == Fresh then Move(s, t, Executing).(once := s.once[env := Busy(t)])
      else Move(s, t, Reading)
    case Execute(_, found) =>
      Move(s, t, Storing(found)).(executions := s.executions + [Execution(env, t, found)])
    case Store(_) => Move(s, t, Leaving).(cache := s.cache[env := task.pc.found])
    case LeaveGate(_) => Move(s, t, Reading).(once := s.once[env := Done])
    case ReadCache(_) => Move(s, t, if env in s.cache then Replaying(s.cache[env], 0) else Finished)
    case ReplayOne(_) =>
      if task.pc.next == |task.pc.cached| then Move(s, t, Finished)
      else
        var r := task.pc.cached[task.pc.next];
        var replayed := task.(tally := Added(task.tally, r), pc := Replaying(task.pc.cached, task.pc.next + 1));
        s.(tasks := s.tasks[t := replayed])
  }

  ghost predicate Steps(s: State, a: Step, t: State) {
    Enabled(s, a) && t == Next(s, a)
  }

  // ---------- the invariant ----------

  ghost predicate ExecutedAs(s: State, env: string, found: seq<Result>) {
    exists x :: 0 <= x < |s.executions| && s.executions[x].env == env && s.executions[x].found == found
  }

  /** Environments are executed at most once each. */
  ghost predicate OncePerEnv(s: State) {
    forall x, y :: 0 <= x < y < |s.executions| ==> s.executions[x].env != s.executions[y].env
  }

  /** Holder of the gate of its environment. */
  predicate Inside(pc: Pc) {
    pc.Executing? || pc.Storing? || pc.Leaving?
  }

  ghost predicate Executed(s: State, env: string) {
    exists x :: 0 <= x < |s.executions| && s.executions[x].env == env
  }

  ghost predicate GateOk(s: State, env: string)
    requires env in s.once
  {
    match s.once[env]
    case Fresh => !Executed(s, env)
    case Busy(h) => h < |s.tasks| && s.tasks[h].env == env && Inside(s.tasks[h].pc)
    case Done => env in s.cache && ExecutedAs(s, env, s.cache[env])
  }

  ghost predicate TaskOk(s: State, t: nat)
    requires t < |s.tasks|
  {
    var task := s.tasks[t];
    && (!task.guard ==> task.pc == Start || task.pc == Finished)
    && (task.pc != Start && task.guard ==> task.env in s.once)
    && (Inside(task.pc) ==> task.env in s.once && s.once[task.env] == Busy(t))
    && (task.pc == Executing ==> !Executed(s, task.env))
    && (task.pc.Storing? ==> ExecutedAs(s, task.env, task.pc.found))
    && (task.pc == Leaving ==> task.env in s.cache && ExecutedAs(s, task.env, s.cache[task.env]))
    && (task.pc == Reading ==> s.once[task.env] == Done)
    && (task.pc.Replaying? ==>
          && ExecutedAs(s, task.env, task.pc.cached) && task.pc.next <= |task.pc.cached|
          && task.tally == AddedAll(task.initial, task.pc.cached[..task.pc.next]))
    && (task.pc == Finished && task.guard ==>
          exists found :: ExecutedAs(s, task.env, found) && task.tally == AddedAll(task.initial, found))
    && (task.pc.Start? || task.pc.AtGate? || Inside(task.pc) || task.pc.Reading? || !task.guard ==>
          task.tally == task.initial)
  }

  ghost predicate Inv(s: State) {
    && OncePerEnv(s)
    && (forall x :: 0 <= x < |s.executions| ==> s.executions[x].env in s.once)
    && (forall env :: env in s.once ==> GateOk(s, env))
    && (forall t :: 0 <= t < |s.tasks| ==> TaskOk(s, t))
  }

  lemma StepFrame(s: State, a: Step)
    requires Enabled(s, a)
    ensures var n := Next(s, a);
            && |n.tasks| == |s.tasks|
            && (forall t :: 0 <= t < |s.tasks| && t != a.t ==> n.tasks[t] == s.tasks[t])
            && n.tasks[a.t].env == s.tasks[a.t].env && n.tasks[a.t].guard == s.tasks[a.t].guard
            && n.tasks[a.t].initial == s.tasks[a.t].initial
            && s.once.Keys <= n.once.Keys && s.cache.Keys <= n.cache.Keys
            && s.executions <= n.executions
  {
  }

  /** What was executed stays executed; a step adds at most the acting task's own execution. */
  lemma ExecutionsGrow(s: State, a: Step, env: string)
    requires Enabled(s, a)
    ensures forall found :: ExecutedAs(s, env, found) ==> ExecutedAs(Next(s, a), env, found)
    ensures Executed(s, env) ==> Executed(Next(s, a), env)
    ensures Executed(Next(s, a), env) ==> Executed(s, env) || (a.Execute? && s.tasks[a.t].env == env)
    ensures a.Execute? && s.tasks[a.t].env == env ==> ExecutedAs(Next(s, a), env, a.found)
  {
    var n := Next(s, a);
    forall x | 0 <= x < |s.executions| ensures n.executions[x] == s.executions[x] {}
    if a.Execute? {
      assert n.executions[|s.executions|] == Execution(s.tasks[a.t].env, a.t, a.found);
    }
  }

  lemma OnceKept(s: State, a: Step)
    requires Inv(s) && Enabled(s, a)
    ensures OncePerEnv(Next(s, a))
    ensures forall x :: 0 <= x < |Next(s, a).executions| ==> Next(s, a).executions[x].env in Next(s, a).once
  {
    assert TaskOk(s, a.t);
  }

  lemma GatesKept(s: State, a: Step, env: string)
    requires Inv(s) && Enabled(s, a) && env in Next(s, a).once
    ensures GateOk(Next(s, a), env)
  {
    if env == s.tasks[a.t].env {
      OwnGateKept(s, a);
    } else {
      assert env in s.once && GateOk(s, env);
      StepFrame(s, a);
      ExecutionsGrow(s, a, env);
    }
  }

  /** The gate of the acting task's environment. */
  lemma OwnGateKept(s: State, a: Step)
    requires Inv(s) && Enabled(s, a)
    ensures var env := s.tasks[a.t].env; env in Next(s, a).once ==> GateOk(Next(s, a), env)
  {
    var n, env := Next(s, a), s.tasks[a.t].env;
    StepFrame(s, a);
    ExecutionsGrow(s, a, env);
    assert TaskOk(s, a.t);
    if env in s.once {
      assert GateOk(s, env);
    } else {
      assert !Executed(s, env);
    }
    hide AddedAll, Added, Inv;
    if env in s.once && s.once[env].Busy? && s.once[env].holder != a.t {
      assert n.tasks[s.once[env].holder] == s.tasks[s.once[env].holder];
    }
  }

  /** The acting task, while it replays its list. */
  lemma ReplayerKept(s: State, a: Step)
    requires Inv(s) && Enabled(s, a) && a.ReplayOne?
    ensures a.t < |Next(s, a).tasks| && TaskOk(Next(s, a), a.t)
  {
    var task := s.tasks[a.t];
    assert TaskOk(s, a.t);
    ReplayNext(task.initial, task.pc.cached, task.pc.next);
    hide AddedAll, Added, OncePerEnv, GateOk;
    ExecutionsGrow(s, a, task.env);
  }

  /** The acting task, when it passes the gate or reads the cache. */
  lemma PasserKept(s: State, a: Step)
    requires Inv(s) && Enabled(s, a) && (a.PassGate? || a.ReadCache?)
    ensures a.t < |Next(s, a).tasks| && TaskOk(Next(s, a), a.t)
  {
    var task := s.tasks[a.t];
    assert TaskOk(s, a.t) && GateOk(s, task.env);
    hide Added, OncePerEnv, Inv;
    assert a.ReadCache? && task.env in s.cache ==> s.cache[task.env][..0] == [];
    ExecutionsGrow(s, a, task.env);
  }

  /** The acting task, in all other steps. */
  lemma ActorKept(s: State, a: Step)
    requires Inv(s) && Enabled(s, a) && !a.PassGate? && !a.ReadCache? && !a.ReplayOne?
    ensures a.t < |Next(s, a).tasks| && TaskOk(Next(s, a), a.t)
  {
    assert TaskOk(s, a.t);
    hide Added, AddedAll, OncePerEnv, GateOk, Inv;
    ExecutionsGrow(s, a, s.tasks[a.t].env);
  }

  lemma ReplayNext(t: Tally, rs: seq<Result>, k: nat)
    requires k <= |rs|
    ensures k < |rs| ==> AddedAll(t, rs[..k + 1]) == Added(AddedAll(t, rs[..k]), rs[k])
    ensures k == |rs| ==> rs[..k] == rs
  {
    if k < |rs| {
      assert rs[..k + 1][..k] == rs[..k];
    }
  }

  /** What the task t relies on in its environment is the same in n as in s. */
  ghost predicate Undisturbed(s: State, n: State, t: nat)
    requires t < |s.tasks|
  {
    var env := s.tasks[t].env;
    && t < |n.tasks| && n.tasks[t] == s.tasks[t] && s.once.Keys <= n.once.Keys
    && (forall found :: ExecutedAs(s, env, found) ==> ExecutedAs(n, env, found))
    && (env in s.once && s.once[env] == Done ==> n.once[env] == Done)
    && (env in s.once && s.once[env] == Busy(t) ==>
          && n.once[env] == Busy(t) && (Executed(n, env) ==> Executed(s, env))
          && (env in s.cache ==> env in n.cache && n.cache[env] == s.cache[env]))
  }

  lemma UndisturbedKept(s: State, n: State, t: nat)
    requires t < |s.tasks| && TaskOk(s, t) && Undisturbed(s, n, t)
    ensures TaskOk(n, t)
  {
    hide AddedAll, ExecutedAs, Executed;
  }

  /** All other tasks. */
  lemma BystanderKept(s: State, a: Step, t: nat)
    requires Inv(s) && Enabled(s, a) && t < |s.tasks| && t != a.t
    ensures t < |Next(s, a).tasks| && TaskOk(Next(s, a), t)
  {
    StepFrame(s, a);
    assert TaskOk(s, t) && TaskOk(s, a.t);
    hide AddedAll, Added, Inv, ExecutedAs, Executed;
    ExecutionsGrow(s, a, s.tasks[t].env);
    UndisturbedKept(s, Next(s, a), t);
  }

  lemma InvKept(s: State, a: Step)
    requires Inv(s) && Enabled(s, a)
    ensures Inv(Next(s, a))
  {
    var n := Next(s, a);
    StepFrame(s, a);
    assert OncePerEnv(n) && forall x :: 0 <= x < |n.executions| ==> n.executions[x].env in n.once by {
      OnceKept(s, a);
    }
    forall env | env in n.once ensures GateOk(n, env) {
      GatesKept(s, a, env);
    }
    forall t | 0 <= t < |n.tasks| ensures TaskOk(n, t) {
      if t != a.t {
        BystanderKept(s, a, t);
      } else if a.ReplayOne? {
        ReplayerKept(s, a);
      } else if a.PassGate? || a.ReadCache? {
        PasserKept(s, a);
      } else {
        ActorKept(s, a);
      }
    }
  }

  ghost predicate SameTask(a: Task, b: Task) {
    a.env == b.env && a.guard == b.guard && a.initial == b.initial
  }

  lemma {:induction false} InvReached(s: State, run: seq<Step>, t: State)
    requires Starts(s) && Leads(Steps, s, run, t)
    ensures Inv(t) && |t.tasks| == |s.tasks|
    ensures forall k :: 0 <= k < |t.tasks| ==> SameTask(t.tasks[k], s.tasks[k])
    decreases |run|
  {
    if run != [] {
      var n := |run| - 1;
      var m := LastStep(Steps, s, run, t);
      InvReached(s, run[..n], m);
      InvKept(m, run[n]);
      StepFrame(m, run[n]);
    }
  }

  // ---------- what every run guarantees ----------

  /** At most one execution per environment, whatever the interleaving. */
  lemma OneExecutionPerEnvironment(s: State, run: seq<Step>, t: State)
    requires Starts(s) && Leads(Steps, s, run, t)
    ensures forall x, y :: 0 <= x < y < |t.executions| ==> t.executions[x].env != t.executions[y].env
  {
    InvReached(s, run, t);
  }

  /** The task has appended the result list of execution x, which was for its environment. */
  ghost predicate ReplayOf(t: State, x: int, before: Task, after: Task) {
    && 0 <= x < |t.executions| && t.executions[x].env == before.env
    && after.tally.results == before.initial.results + t.executions[x].found
  }

  /**
   * A finished cluster has appended exactly its environment's one result list, in order, and its
   * counters still agree with its results; one stopped by the guards has appended nothing.
   */
  lemma FinishedHasReplayed(s: State, run: seq<Step>, t: State, k: nat)
    requires Starts(s) && Leads(Steps, s, run, t) && k < |t.tasks| && t.tasks[k].pc == Finished
    ensures |s.tasks| == |t.tasks|
    ensures !s.tasks[k].guard ==> t.tasks[k].tally == s.tasks[k].initial
    ensures s.tasks[k].guard ==> exists x :: ReplayOf(t, x, s.tasks[k], t.tasks[k])
    ensures Agrees(s.tasks[k].initial) ==> Agrees(t.tasks[k].tally)
  {
    InvReached(s, run, t);
    assert TaskOk(t, k);
    if s.tasks[k].guard {
      var found :| ExecutedAs(t, t.tasks[k].env, found) && t.tasks[k].tally == AddedAll(t.tasks[k].initial, found);
      AddAllAppends(t.tasks[k].initial, found);
      var x :| 0 <= x < |t.executions| && t.executions[x].env == t.tasks[k].env && t.executions[x].found == found;
      assert ReplayOf(t, x, s.tasks[k], t.tasks[k]);
    }
  }

  /** Two finished clusters of one environment have appended the same results. */
  lemma SameEnvironmentSameResults(s: State, run: seq<Step>, t: State, j: nat, k: nat)
    requires Starts(s) && Leads(Steps, s, run, t) && j < |s.tasks| && k < |s.tasks| && |s.tasks| == |t.tasks|
    requires t.tasks[j].pc == Finished && t.tasks[k].pc == Finished
    requires s.tasks[j].guard && s.tasks[k].guard && s.tasks[j].env == s.tasks[k].env
    ensures exists found :: t.tasks[j].tally.results == s.tasks[j].initial.results + found
                         && t.tasks[k].tally.results == s.tasks[k].initial.results + found
  {
    InvReached(s, run, t);
    FinishedHasReplayed(s, run, t, j);
    FinishedHasReplayed(s, run, t, k);
    var x :| ReplayOf(t, x, s.tasks[j], t.tasks[j]);
    var y :| ReplayOf(t, y, s.tasks[k], t.tasks[k]);
    assert x == y;
  }

  /** While a cluster is unfinished some task can move: the gate never blocks everyone. */
  lemma NoDeadlock(s: State, run: seq<Step>, t: State, k: nat) returns (a: Step)
    requires Starts(s) && Leads(Steps, s, run, t) && k < |t.tasks| && t.tasks[k].pc != Finished
    ensures Enabled(t, a)
  {
    InvReached(s, run, t);
    assert TaskOk(t, k);
    var env := t.tasks[k].env;
    match t.tasks[k].pc
    case Start => a := GetOnce(k);
    case AtGate =>
      assert GateOk(t, env);
      if t.once[env].Busy? {
        a := InsiderCanMove(t, t.once[env].holder);
      } else {
        a := PassGate(k);
      }
    case Reading => a := ReadCache(k);
    case Replaying(_, _) => a := ReplayOne(k);
    case _ => a := InsiderCanMove(t, k);
  }

  lemma InsiderCanMove(t: State, k: nat) returns (a: Step)
    requires k < |t.tasks| && Inside(t.tasks[k].pc)
    ensures Enabled(t, a)
  {
    match t.tasks[k].pc
    case Executing => a := Execute(k, []);
    case Storing(_) => a := Store(k);
    case Leaving => a := LeaveGate(k);
  }

  // ---------- every run comes to an end ----------

  /** No execution so far has found more than longest results. */
  ghost predicate FoundAtMost(s: State, longest: nat) {
    forall x :: 0 <= x < |s.executions| ==> |s.executions[x].found| <= longest
  }

  /** The steps that a task can still take when no list is longer than this. */
  function Work(longest: nat): Task -> int {
    (task: Task) => match task.pc
      case Start => longest + 7
      case AtGate => longest + 6
      case Executing => longest + 5
      case Storing(_) => longest + 4
      case Leaving => longest + 3
      case Reading => longest + 2
      case Replaying(cached, next) => longest + 1 - next
      case Finished => 0
  }

  lemma WorkLeft(s: State, t: nat, longest: nat)
    requires Inv(s) && t < |s.tasks| && FoundAtMost(s, longest)
    ensures Work(longest)(s.tasks[t]) >= if s.tasks[t].pc.Finished? then 0 else 1
  {
    assert TaskOk(s, t);
  }

  /** Each step uses up some of the acting task's work and leaves the others' alone. */
  lemma StepUsesUpWork(s: State, a: Step, longest: nat)
    requires Inv(s) && Enabled(s, a) && FoundAtMost(s, longest)
    ensures Sum(Next(s, a).tasks, Work(longest)) < Sum(s.tasks, Work(longest))
  {
    hide Sum;
    var n := Next(s, a);
    StepFrame(s, a);
    WorkLeft(s, a.t, longest);
    assert n.tasks == s.tasks[a.t := n.tasks[a.t]];
    SumUpdate(s.tasks, a.t, n.tasks[a.t], Work(longest));
  }

  lemma {:induction false} WorkSpent(s: State, run: seq<Step>, t: State, longest: nat)
    requires Starts(s) && Leads(Steps, s, run, t) && FoundAtMost(t, longest)
    ensures |run| + Sum(t.tasks, Work(longest)) <= Sum(s.tasks, Work(longest))
    decreases |run|
  {
    if run != [] {
      var n := |run| - 1;
      var m := LastStep(Steps, s, run, t);
      InvReached(s, run[..n], m);
      StepFrame(m, run[n]);
      hide Sum, Inv, Leads, Starts, Next, Enabled;
      assert FoundAtMost(m, longest) by {
        forall x | 0 <= x < |m.executions| ensures m.executions[x] == t.executions[x] {}
      }
      WorkSpent(s, run[..n], m, longest);
      StepUsesUpWork(m, run[n], longest);
    }
  }

  /** No run takes more than seven steps for each cluster, plus the length of the longest list found. */
  lemma RunsAreBounded(s: State, run: seq<Step>, t: State, longest: nat)
    requires Starts(s) && Leads(Steps, s, run, t) && FoundAtMost(t, longest)
    ensures |run| <= |s.tasks| * (longest + 7)
  {
    SumConstant(s.tasks, Work(longest), longest + 7);
    WorkSpent(s, run, t, longest);
    InvReached(s, run, t);
    hide Sum, Leads, Starts, FoundAtMost, Inv, Work;
    forall k | 0 <= k < |t.tasks| ensures Work(longest)(t.tasks[k]) >= 0 {
      WorkLeft(t, k, longest);
    }
    SumNonnegative(t.tasks, Work(longest));
  }
}
