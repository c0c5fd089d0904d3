/** What every interleaving of the worker pool keeps, and where every complete run ends. */
module SchedulerProofs {
  import opened Runs
  import opened Scheduler
  import opened Sequences
  import opened Sums

  // ---------- every step keeps the invariant ----------

  /** The worker whose record a step rewrites. */
  function Subject(s: State, a: Step): (i: int) {
    match a
    case Cancel => -1
    case MainDecide => -1
    case MainJoin => -1
    case MainGiveUp => -1
    case MainAcquire => if s.main.Acquiring? then s.main.next else -1
    case _ => a.i
  }

  /** A step rewrites at most one worker. */
  lemma OthersUntouched(c: Config, s: State, a: Step, j: nat)
    requires Enabled(c, s, a) && j < |s.workers| && j != Subject(s, a)
    ensures |Next(c, s, a).workers| == |s.workers| && Next(c, s, a).workers[j] == s.workers[j]
  {
  }

  lemma WorkersUpdated(c: Config, s: State, a: Step)
    requires Enabled(c, s, a)
    ensures var i, t := Subject(s, a), Next(c, s, a);
            if 0 <= i then i < |s.workers| && t.workers == s.workers[i := t.workers[i]] else t.workers == s.workers
  {
  }

  lemma SumsMove(ws: seq<Worker>, i: nat, w: Worker)
    requires i < |ws|
    ensures Sum(ws[i := w], Slot) == Sum(ws, Slot) - Slot(ws[i]) + Slot(w)
    ensures Sum(ws[i := w], Alive) == Sum(ws, Alive) - Alive(ws[i]) + Alive(w)
    ensures Sum(ws[i := w], AuditedCalls) == Sum(ws, AuditedCalls) - AuditedCalls(ws[i]) + AuditedCalls(w)
    ensures Sum(ws[i := w], AuditedElevated) == Sum(ws, AuditedElevated) - AuditedElevated(ws[i]) + AuditedElevated(w)
  {
    SumUpdate(ws, i, w, Slot);
    SumUpdate(ws, i, w, Alive);
    SumUpdate(ws, i, w, AuditedCalls);
    SumUpdate(ws, i, w, AuditedElevated);
  }

  lemma CountsKept(c: Config, s: State, a: Step)
    requires Inv(c, s) && Enabled(c, s, a)
    ensures Counts(c, Next(c, s, a))
  {
    hide Sum, MainOk, OutputsOk, RecordsOk;
    var t, i := Next(c, s, a), Subject(s, a);
    WorkersUpdated(c, s, a);
    if 0 <= i {
      SumsMove(s.workers, i, t.workers[i]);
      assert ShapeOk(c, s, i);
      if a.MainAcquire? {
        NextIsUnborn(c, s);
      }
    }
  }

  lemma NextIsUnborn(c: Config, s: State)
    requires Inv(c, s) && s.main.Acquiring?
    ensures s.main.next < |s.workers| && s.workers[s.main.next].pc == Unborn
  {
  }

  lemma MainKept(c: Config, s: State, a: Step)
    requires Inv(c, s) && Enabled(c, s, a)
    ensures MainOk(Next(c, s, a))
  {
    hide Sum, OutputsOk, RecordsOk, ShapeOk;
    var t, i := Next(c, s, a), Subject(s, a);
    WorkersUpdated(c, s, a);
    if a.MainJoin? && s.main.Joining? {
      NobodyAlive(c, s);
    }
  }

  /** When the wait group is back at zero, every started worker is gone. */
  lemma NobodyAlive(c: Config, s: State)
    requires Counts(c, s) && s.wg == 0
    ensures forall i :: 0 <= i < |s.workers| ==> s.workers[i].pc.Unborn? || s.workers[i].pc.Gone?
  {
    SumNonnegative(s.workers, Alive);
    forall i | 0 <= i < |s.workers| ensures s.workers[i].pc.Unborn? || s.workers[i].pc.Gone? {
      SumAtLeast(s.workers, Alive, i);
    }
  }

  lemma ShapeKept(c: Config, s: State, a: Step, j: nat)
    requires Inv(c, s) && Enabled(c, s, a) && j < |s.workers|
    ensures |Next(c, s, a).workers| == |s.workers| && ShapeOk(c, Next(c, s, a), j)
  {
    hide Sum, OutputsOk, RecordsOk, MainOk, Counts;
    assert ShapeOk(c, s, j);
    WorkersUpdated(c, s, a);
    if j != Subject(s, a) {
      OthersUntouched(c, s, a, j);
    }
  }

  /** Steps that change neither list nor any task list, nor skip anybody. */
  predicate Recordless(a: Step) {
    !a.Fetch? && !a.Connect? && !a.MainAcquire? && !a.Launch? && !a.TaskRecords? && !a.TaskFinishes? && !a.Attach?
  }

  lemma RecordlessKeeps(c: Config, s: State, a: Step, j: nat)
    requires Inv(c, s) && Enabled(c, s, a) && j < |s.workers| && Recordless(a)
    ensures |Next(c, s, a).workers| == |s.workers| && RecordsOk(Next(c, s, a), j)
  {
    hide Sum, OutputsOk, MainOk, Counts, ShapeOk, Made, SkipOf, OutputOf, OutputFor;
    assert RecordsOk(s, j);
  }

  lemma RecordsKept(c: Config, s: State, a: Step, j: nat)
    requires Inv(c, s) && Enabled(c, s, a) && j < |s.workers|
    ensures |Next(c, s, a).workers| == |s.workers| && RecordsOk(Next(c, s, a), j)
  {
    hide Sum, OutputsOk, MainOk, Counts;
    WorkersUpdated(c, s, a);
    assert RecordsOk(s, j);
    match a
    case MainAcquire =>
      NextIsUnborn(c, s);
      assert ShapeOk(c, s, s.main.next);
    case Fetch(i, ready) =>
      assert ShapeOk(c, s, i);
      SumSnoc(s.skips, i, SkipOf(j));
    case Connect(i, connected) =>
      assert ShapeOk(c, s, i);
      SumSnoc(s.skips, i, SkipOf(j));
    case Launch(i) =>
      LaunchKeeps(s, i, j);
    case TaskRecords(i, k) =>
      RecordCounts(s, i, k, j);
    case TaskFinishes(i, k) =>
      FinishKeeps(s, i, k, j);
    case Attach(i) =>
      AttachKeepsCounts(c, s.outputs, i, s.workers[i].calls, j);
    case _ =>
      RecordlessKeeps(c, s, a, j);
  }

  lemma LaunchKeeps(s: State, i: nat, j: nat)
    requires i < |s.workers| && j < |s.workers| && RecordsOk(s, j)
    ensures RecordsOk(SetWorker(s, i, s.workers[i].(tasks := s.workers[i].tasks + [Running])), j)
  {
    hide Sum;
    SumSnoc(s.workers[i].tasks, Running, Made);
  }

  lemma FinishKeeps(s: State, i: nat, k: nat, j: nat)
    requires TaskAt(s, i, k, Recorded) && j < |s.workers| && RecordsOk(s, j)
    ensures RecordsOk(SetWorker(s, i, s.workers[i].(tasks := s.workers[i].tasks[k := Finished])), j)
  {
    hide Sum;
    SumUpdate(s.workers[i].tasks, k, Finished, Made);
  }

  lemma RecordCounts(s: State, i: nat, k: nat, j: nat)
    requires TaskAt(s, i, k, Running) && j < |s.workers| && RecordsOk(s, j)
    ensures var t := SetWorker(s, i, s.workers[i].(tasks := s.workers[i].tasks[k := Recorded]))
                       .(outputs := s.outputs + [Output(i, k, 0)]);
            RecordsOk(t, j)
  {
    hide Sum;
    SumSnoc(s.outputs, Output(i, k, 0), OutputOf(j));
    SumUpdate(s.workers[i].tasks, k, Recorded, Made);
    forall l: nat {
      SumSnoc(s.outputs, Output(i, k, 0), OutputFor(j, l));
    }
  }

  lemma AttachKeepsCounts(c: Config, outputs: seq<Output>, i: nat, calls: nat, j: nat)
    ensures Sum(AttachOps(c, outputs, i, calls), OutputOf(j)) == Sum(outputs, OutputOf(j))
    ensures forall k: nat :: Sum(AttachOps(c, outputs, i, calls), OutputFor(j, k)) == Sum(outputs, OutputFor(j, k))
  {
    var r := AttachOps(c, outputs, i, calls);
    SumSame(r, OutputOf(j), outputs, OutputOf(j));
    forall k: nat ensures Sum(r, OutputFor(j, k)) == Sum(outputs, OutputFor(j, k)) {
      SumSame(r, OutputFor(j, k), outputs, OutputFor(j, k));
    }
  }

  lemma OutputsKept(c: Config, s: State, a: Step)
    requires Inv(c, s) && Enabled(c, s, a)
    ensures OutputsOk(c, Next(c, s, a))
  {
    hide Sum, MainOk, Counts, RecordsOk;
    var t, i := Next(c, s, a), Subject(s, a);
    WorkersUpdated(c, s, a);
    if 0 <= i {
      assert ShapeOk(c, s, i);
    }
    if a.MainAcquire? {
      NextIsUnborn(c, s);
    }
    forall o | 0 <= o < |t.outputs|
      ensures t.outputs[o].worker < |t.workers|
      ensures UniqueId(c, t.outputs[o].worker) ==>
        var w := t.workers[t.outputs[o].worker];
        t.outputs[o].elevatedOps == if Attached(w) then w.calls else 0
    {
      if o < |s.outputs| {
        var j := s.outputs[o].worker;
        assert j < |s.workers|;
        if j != i {
          OthersUntouched(c, s, a, j);
        }
      }
    }
  }

  lemma InvKept(c: Config, s: State, a: Step)
    requires Inv(c, s) && Enabled(c, s, a)
    ensures Inv(c, Next(c, s, a))
  {
    var t := Next(c, s, a);
    WorkersUpdated(c, s, a);
    assert |t.workers| == |c.ids| && MainOk(t) && Counts(c, t) && OutputsOk(c, t) by {
      hide Sum, MainOk, Counts, RecordsOk, OutputsOk, ShapeOk;
      MainKept(c, s, a);
      CountsKept(c, s, a);
      OutputsKept(c, s, a);
    }
    forall j | 0 <= j < |t.workers| ensures ShapeOk(c, t, j) && RecordsOk(t, j) {
      hide Sum, MainOk, Counts, RecordsOk, OutputsOk, ShapeOk;
      ShapeKept(c, s, a, j);
      RecordsKept(c, s, a, j);
    }
  }

  lemma InvInitially(c: Config)
    requires c.parallel >= 1
    ensures Inv(c, Initial(c))
  {
    var s := Initial(c);
    SumConstant(s.workers, Slot, 0);
    SumConstant(s.workers, Alive, 0);
    SumConstant(s.workers, AuditedCalls, 0);
    SumConstant(s.workers, AuditedElevated, 0);
  }

  /** Every reachable state satisfies the invariant. */
  lemma {:induction false} InvReached(c: Config, run: seq<Step>, s: State)
    requires c.parallel >= 1 && Leads(Steps(c), Initial(c), run, s)
    ensures Inv(c, s)
    decreases |run|
  {
    if run == [] {
      InvInitially(c);
    } else {
      var n := |run| - 1;
      var m := LastStep(Steps(c), Initial(c), run, s);
      InvReached(c, run[..n], m);
      InvKept(c, m, run[n]);
    }
  }

  lemma ReachableInv(c: Config, s: State)
    requires c.parallel >= 1 && Reachable(c, s)
    ensures Inv(c, s)
  {
    var run :| Leads(Steps(c), Initial(c), run, s);
    InvReached(c, run, s);
  }

  // ---------- safety ----------

  function NamesCluster(c: Config, cid: string): nat -> int {
    (j: nat) => if j < |c.ids| && c.ids[j] == cid then 1 else 0
  }

  function OutputNames(c: Config, cid: string): Output -> int {
    (o: Output) => NamesCluster(c, cid)(o.worker)
  }

  /** Skip records that name the cluster. */
  function SkipRecords(c: Config, s: State, cid: string): int {
    Sum(s.skips, NamesCluster(c, cid))
  }

  /** Result records that name the cluster. */
  function ResultRecords(c: Config, s: State, cid: string): int {
    Sum(s.outputs, OutputNames(c, cid))
  }

  lemma RecordsOfUniqueId(c: Config, s: State, i: nat)
    requires UniqueId(c, i)
    ensures SkipRecords(c, s, c.ids[i]) == Sum(s.skips, SkipOf(i))
    ensures ResultRecords(c, s, c.ids[i]) == Sum(s.outputs, OutputOf(i))
  {
    SumSame(s.skips, NamesCluster(c, c.ids[i]), s.skips, SkipOf(i));
    SumSame(s.outputs, OutputNames(c, c.ids[i]), s.outputs, OutputOf(i));
  }

  /** Never more than the limit at work: the slots in use are the workers holding one. */
  lemma AtMostParallelWorkers(c: Config, s: State)
    requires c.parallel >= 1 && Reachable(c, s)
    ensures Sum(s.workers, Slot) == s.sem <= c.parallel
  {
    ReachableInv(c, s);
  }

  /** A cluster listed once never has both a skip record and results, nor two skip records, nor too many results. */
  lemma SkippedOrChecked(c: Config, s: State, i: nat)
    requires c.parallel >= 1 && Reachable(c, s) && UniqueId(c, i)
    ensures SkipRecords(c, s, c.ids[i]) == 0 || ResultRecords(c, s, c.ids[i]) == 0
    ensures 0 <= SkipRecords(c, s, c.ids[i]) <= 1
    ensures 0 <= ResultRecords(c, s, c.ids[i]) <= c.operators
  {
    ReachableInv(c, s);
    RecordsOfUniqueId(c, s, i);
    assert RecordsOk(s, i) && ShapeOk(c, s, i);
    MadeBound(s.workers[i].tasks);
  }

  lemma {:induction false} MadeBound(tasks: seq<TaskPc>)
    ensures 0 <= Sum(tasks, Made) <= |tasks|
    ensures AllFinished(tasks) ==> Sum(tasks, Made) == |tasks|
  {
    if tasks != [] {
      MadeBound(tasks[..|tasks| - 1]);
    }
  }

  function Calls(w: Worker): int {
    w.calls
  }

  function Elevated(w: Worker): int {
    if w.calls > 0 then 1 else 0
  }

  /** What an uncancelled run has produced when main writes the results. */
  lemma CompleteRun(c: Config, s: State)
    requires c.parallel >= 1 && Reachable(c, s) && s.main.Writing? && !s.cancelled
    ensures |s.workers| == |c.ids|
    ensures forall i: nat :: i < |c.ids| ==>
              if s.workers[i].skipped then Sum(s.skips, SkipOf(i)) == 1 && Sum(s.outputs, OutputOf(i)) == 0
              else Sum(s.skips, SkipOf(i)) == 0 && Sum(s.outputs, OutputOf(i)) == c.operators
                   && forall k: nat :: k < c.operators ==> Sum(s.outputs, OutputFor(i, k)) == 1
    ensures s.totalCalls == Sum(s.workers, Calls) && s.clustersElevated == Sum(s.workers, Elevated)
    ensures forall o :: 0 <= o < |s.outputs| && UniqueId(c, s.outputs[o].worker) ==>
              s.outputs[o].worker < |s.workers| && s.outputs[o].elevatedOps == s.workers[s.outputs[o].worker].calls
  {
    ReachableInv(c, s);
    forall i: nat | i < |c.ids|
      ensures if s.workers[i].skipped then Sum(s.skips, SkipOf(i)) == 1 && Sum(s.outputs, OutputOf(i)) == 0
              else Sum(s.skips, SkipOf(i)) == 0 && Sum(s.outputs, OutputOf(i)) == c.operators
                   && forall k: nat :: k < c.operators ==> Sum(s.outputs, OutputFor(i, k)) == 1
    {
      assert RecordsOk(s, i) && ShapeOk(c, s, i);
      MadeBound(s.workers[i].tasks);
    }
    forall i | 0 <= i < |s.workers|
      ensures AuditedCalls(s.workers[i]) == Calls(s.workers[i])
      ensures AuditedElevated(s.workers[i]) == Elevated(s.workers[i])
    {
      assert ShapeOk(c, s, i);
    }
    SumSame(s.workers, AuditedCalls, s.workers, Calls);
    SumSame(s.workers, AuditedElevated, s.workers, Elevated);
    forall o | 0 <= o < |s.outputs| && UniqueId(c, s.outputs[o].worker)
      ensures s.outputs[o].elevatedOps == s.workers[s.outputs[o].worker].calls
    {
      var j := s.outputs[o].worker;
      assert RecordsOk(s, j) && ShapeOk(c, s, j);
      if s.workers[j].skipped {
        SumAtLeast(s.outputs, OutputOf(j), o);
      }
    }
  }

  // ---------- progress ----------

  /** A step of the pool itself, as opposed to an interrupt or an API call made by a check. */
  predicate PoolStep(a: Step) {
    !a.Cancel? && !a.TaskElevates?
  }

  lemma WorkerCanMove(c: Config, s: State, i: nat) returns (a: Step)
    requires Inv(c, s) && i < |s.workers| && !s.workers[i].pc.Unborn? && !s.workers[i].pc.Gone?
    ensures PoolStep(a) && Enabled(c, s, a)
  {
    assert ShapeOk(c, s, i);
    match s.workers[i].pc
    case Fetching => a := Fetch(i, true);
    case Connecting => a := Connect(i, true);
    case Launching =>
      a := if s.cancelled || |s.workers[i].tasks| == c.operators then StopLaunching(i) else Launch(i);
    case Collecting =>
      if k :| 0 <= k < |s.workers[i].tasks| && s.workers[i].tasks[k] != Finished {
        a := if s.workers[i].tasks[k].Running? then TaskRecords(i, k) else TaskFinishes(i, k);
      } else {
        a := Collect(i);
      }
    case Attaching => a := Attach(i);
    case Auditing => a := Audit(i);
    case Releasing =>
      SlotSum(s.workers, i);
      a := Release(i);
    case Departing =>
      AliveSum(s.workers, i);
      a := Depart(i);
  }

  lemma SlotSum(ws: seq<Worker>, i: nat)
    requires i < |ws|
    ensures Sum(ws, Slot) >= Slot(ws[i])
  {
    SumAtLeast(ws, Slot, i);
  }

  lemma AliveSum(ws: seq<Worker>, i: nat)
    requires i < |ws|
    ensures Sum(ws, Alive) >= Alive(ws[i])
  {
    SumAtLeast(ws, Alive, i);
  }

  /** No reachable state is stuck before the results are written. */
  lemma NoDeadlock(c: Config, s: State) returns (a: Step)
    requires c.parallel >= 1 && Reachable(c, s) && !s.main.Writing?
    ensures PoolStep(a) && Enabled(c, s, a)
  {
    ReachableInv(c, s);
    if i :| 0 <= i < |s.workers| && !s.workers[i].pc.Unborn? && !s.workers[i].pc.Gone? {
      a := WorkerCanMove(c, s, i);
    } else {
      SumConstant(s.workers, Slot, 0);
      SumConstant(s.workers, Alive, 0);
      match s.main
      case Deciding(_) => a := MainDecide;
      case Acquiring(_) => a := MainAcquire;
      case Joining => a := MainJoin;
      case Interrupted => a := MainJoin;
    }
  }

  function TaskWork(t: TaskPc): int {
    match t
    case Running => 2
    case Recorded => 1
    case Finished => 0
  }

  /** Steps a worker and its tasks can still take. */
  function Work(operators: nat): Worker -> int {
    (w: Worker) => Sum(w.tasks, TaskWork) + match w.pc
      case Unborn => 9 + 4 * operators
      case Fetching => 8 + 4 * operators
      case Connecting => 7 + 4 * operators
      case Launching => 6 + 4 * (operators - |w.tasks|)
      case Collecting => 5
      case Attaching => 4
      case Auditing => 3
      case Releasing => 2
      case Departing => 1
      case Gone => 0
  }

  function MainWork(s: State): int {
    match s.main
    case Deciding(n) => 3 + 2 * (|s.workers| - n)
    case Acquiring(n) => 2 + 2 * (|s.workers| - n)
    case Joining => 1
    case Interrupted => 1
    case Writing => 0
  }

  function Remaining(c: Config, s: State): int {
    Sum(s.workers, Work(c.operators)) + MainWork(s)
  }

  lemma {:induction false} TaskWorkNonnegative(tasks: seq<TaskPc>)
    ensures Sum(tasks, TaskWork) >= 0
  {
    SumNonnegative(tasks, TaskWork);
  }

  lemma RemainingNonnegative(c: Config, s: State)
    requires Inv(c, s)
    ensures Remaining(c, s) >= 0
  {
    forall i | 0 <= i < |s.workers| ensures Work(c.operators)(s.workers[i]) >= 0 {
      assert ShapeOk(c, s, i);
      TaskWorkNonnegative(s.workers[i].tasks);
    }
    SumNonnegative(s.workers, Work(c.operators));
  }

  /** Every pool step uses up remaining work; the others leave it as it is. */
  lemma StepsUseUpWork(c: Config, s: State, a: Step)
    requires Inv(c, s) && Enabled(c, s, a)
    ensures Remaining(c, Next(c, s, a)) <= Remaining(c, s) - if PoolStep(a) then 1 else 0
  {
    hide Sum, Inv, Enabled, MainWork, Work;
    var t, i := Next(c, s, a), Subject(s, a);
    WorkersUpdated(c, s, a);
    MainWorkDrops(c, s, a);
    if 0 <= i {
      SumUpdate(s.workers, i, t.workers[i], Work(c.operators));
      WorkDrops(c, s, a);
    }
  }

  lemma MainWorkDrops(c: Config, s: State, a: Step)
    requires Inv(c, s) && Enabled(c, s, a)
    ensures MainWork(Next(c, s, a)) <= MainWork(s) - if PoolStep(a) && Subject(s, a) < 0 then 1 else 0
  {
    hide Sum, Counts, RecordsOk, OutputsOk, ShapeOk;
  }

  lemma WorkDrops(c: Config, s: State, a: Step)
    requires Inv(c, s) && Enabled(c, s, a) && 0 <= Subject(s, a)
    ensures Subject(s, a) < |s.workers| == |Next(c, s, a).workers|
    ensures var f, i := Work(c.operators), Subject(s, a);
            f(Next(c, s, a).workers[i]) <= f(s.workers[i]) - if PoolStep(a) then 1 else 0
  {
    hide Sum, MainOk, Counts, RecordsOk, OutputsOk;
    WorkersUpdated(c, s, a);
    assert ShapeOk(c, s, Subject(s, a));
    match a
    case MainAcquire =>
      NextIsUnborn(c, s);
    case Launch(i) =>
      hide ShapeOk;
      SumSnoc(s.workers[i].tasks, Running, TaskWork);
    case TaskRecords(i, k) =>
      hide ShapeOk;
      SumUpdate(s.workers[i].tasks, k, Recorded, TaskWork);
    case TaskFinishes(i, k) =>
      hide ShapeOk;
      SumUpdate(s.workers[i].tasks, k, Finished, TaskWork);
    case _ =>
  }

  function PoolSteps(run: seq<Step>): nat {
    if run == [] then 0 else PoolSteps(run[..|run| - 1]) + if PoolStep(run[|run| - 1]) then 1 else 0
  }

  lemma {:induction false} WorkSpent(c: Config, run: seq<Step>, s: State)
    requires c.parallel >= 1 && Leads(Steps(c), Initial(c), run, s)
    ensures PoolSteps(run) + Remaining(c, s) <= Remaining(c, Initial(c))
    decreases |run|
  {
    if run != [] {
      var n := |run| - 1;
      var m := LastStep(Steps(c), Initial(c), run, s);
      InvReached(c, run[..n], m);
      WorkSpent(c, run[..n], m);
      StepsUseUpWork(c, m, run[n]);
    }
  }

  /** No run takes more pool steps than 11 + 4 per operator for each cluster, plus three. */
  lemma RunsAreBounded(c: Config, run: seq<Step>, s: State)
    requires c.parallel >= 1 && Leads(Steps(c), Initial(c), run, s)
    ensures PoolSteps(run) <= |c.ids| * (11 + 4 * c.operators) + 3
  {
    hide Inv, Leads, Remaining, Initial;
    WorkSpent(c, run, s);
    InvReached(c, run, s);
    RemainingNonnegative(c, s);
    InitialWork(c);
  }

  lemma InitialWork(c: Config)
    ensures Remaining(c, Initial(c)) == |c.ids| * (11 + 4 * c.operators) + 3
  {
    SumConstant(Initial(c).workers, Work(c.operators), 9 + 4 * c.operators);
    hide Sum;
    TotalWork(|c.ids|, c.operators);
  }

  lemma TotalWork(n: nat, k: nat)
    ensures (9 + 4 * k) * n + 2 * n == n * (11 + 4 * k)
  {
  }

  // ---------- every run can be brought to an end ----------

  lemma Extend(c: Config, s: State, a: Step) returns (t: State)
    requires Reachable(c, s) && Enabled(c, s, a)
    ensures t == Next(c, s, a) && Reachable(c, t)
  {
    t := Next(c, s, a);
    var run :| Leads(Steps(c), Initial(c), run, s);
    var longer := Extended(Steps(c), Initial(c), run, s, a, t);
  }

  /** No step takes a record away. */
  lemma RecordsGrow(c: Config, s: State, a: Step, cid: string)
    requires Enabled(c, s, a)
    ensures SkipRecords(c, Next(c, s, a), cid) >= SkipRecords(c, s, cid)
    ensures ResultRecords(c, Next(c, s, a), cid) >= ResultRecords(c, s, cid)
  {
    hide Sum;
    match a
    case Fetch(i, _) => SumSnoc(s.skips, i, NamesCluster(c, cid));
    case Connect(i, _) => SumSnoc(s.skips, i, NamesCluster(c, cid));
    case TaskRecords(i, k) => SumSnoc(s.outputs, Output(i, k, 0), OutputNames(c, cid));
    case Attach(i) =>
      SumSame(s.outputs, OutputNames(c, cid), Next(c, s, a).outputs, OutputNames(c, cid));
    case _ =>
  }

  /** From every reachable state the pool's own steps lead to the state in which main writes the results. */
  lemma EveryRunCanFinish(c: Config, s: State) returns (run: seq<Step>, t: State)
    requires c.parallel >= 1 && Reachable(c, s)
    ensures Leads(Steps(c), s, run, t) && Reachable(c, t)
    ensures t.main.Writing? && t.cancelled == s.cancelled && forall k :: 0 <= k < |run| ==> PoolStep(run[k])
    ensures forall cid :: SkipRecords(c, t, cid) >= SkipRecords(c, s, cid)
    ensures forall cid :: ResultRecords(c, t, cid) >= ResultRecords(c, s, cid)
  {
    hide Leads, Reachable, Sum, Inv, Remaining, Enabled, Next, SkipRecords, ResultRecords;
    NoSteps(Steps(c), s);
    run, t := [], s;
    while !t.main.Writing?
      invariant Leads(Steps(c), s, run, t) && Reachable(c, t) && t.cancelled == s.cancelled
      invariant forall k :: 0 <= k < |run| ==> PoolStep(run[k])
      invariant forall cid :: SkipRecords(c, t, cid) >= SkipRecords(c, s, cid)
      invariant forall cid :: ResultRecords(c, t, cid) >= ResultRecords(c, s, cid)
      decreases Remaining(c, t)
    {
      var a := NoDeadlock(c, t);
      ReachableInv(c, t);
      StepsUseUpWork(c, t, a);
      RemainingNonnegative(c, t);
      KeepsCancelled(c, t, a);
      forall cid
        ensures SkipRecords(c, Next(c, t, a), cid) >= SkipRecords(c, t, cid)
        ensures ResultRecords(c, Next(c, t, a), cid) >= ResultRecords(c, t, cid)
      {
        RecordsGrow(c, t, a, cid);
      }
      run := Extended(Steps(c), s, run, t, a, Next(c, t, a));
      t := Extend(c, t, a);
    }
  }

  lemma KeepsCancelled(c: Config, s: State, a: Step)
    requires Enabled(c, s, a) && PoolStep(a)
    ensures Next(c, s, a).cancelled == s.cancelled
  {
  }

  // ---------- what an interrupt stops ----------

  /**
   * After an interrupt no cluster is begun any more, but for the one that main already waits for a slot for,
   * and no worker starts another task.
   */
  lemma {:induction false} InterruptStopsStarting(c: Config, s: State, run: seq<Step>, t: State)
    requires s.cancelled && Leads(Steps(c), s, run, t)
    ensures t.cancelled && |t.workers| == |s.workers|
    ensures t.main.Acquiring? ==> t.main == s.main
    ensures forall i: nat :: i < |s.workers| ==>
              && (s.workers[i].pc == Unborn && s.main != Acquiring(i) ==> t.workers[i].pc == Unborn)
              && |t.workers[i].tasks| <= |s.workers[i].tasks|
    decreases |run|
  {
    if run != [] {
      hide Leads;
      var m := LastStep(Steps(c), s, run, t);
      InterruptStopsStarting(c, s, run[..|run| - 1], m);
      InterruptedStep(c, m, run[|run| - 1], t);
      hide Steps;
    }
  }

  lemma InterruptedStep(c: Config, s: State, a: Step, t: State)
    requires s.cancelled && Steps(c)(s, a, t)
    ensures t.cancelled && |t.workers| == |s.workers|
    ensures t.main.Acquiring? ==> t.main == s.main
    ensures forall i: nat :: i < |s.workers| ==>
              && (s.workers[i].pc == Unborn && s.main != Acquiring(i) ==> t.workers[i].pc == Unborn)
              && |t.workers[i].tasks| <= |s.workers[i].tasks|
  {
    hide AttachOps;
  }

  // ---------- what a run says about its end ----------

  /** How many elevated calls the checks made in a run. */
  function Elevations(run: seq<Step>): nat {
    if run == [] then 0 else Elevations(run[..|run| - 1]) + if run[|run| - 1].TaskElevates? then 1 else 0
  }

  /** Nothing is lost of the elevated calls: the clients have counted exactly those that were made. */
  lemma {:induction false} CallsAreThoseMade(c: Config, run: seq<Step>, s: State)
    requires c.parallel >= 1 && Leads(Steps(c), Initial(c), run, s)
    ensures Sum(s.workers, Calls) == Elevations(run)
    decreases |run|
  {
    if run == [] {
      SumConstant(s.workers, Calls, 0);
    } else {
      hide Leads, Sum, Inv;
      var a := run[|run| - 1];
      var m := LastStep(Steps(c), Initial(c), run, s);
      CallsAreThoseMade(c, run[..|run| - 1], m);
      InvReached(c, run[..|run| - 1], m);
      WorkersUpdated(c, m, a);
      var i := Subject(m, a);
      if 0 <= i {
        SumUpdate(m.workers, i, s.workers[i], Calls);
        CallsOfSubject(c, m, a);
      }
    }
  }

  lemma CallsOfSubject(c: Config, s: State, a: Step)
    requires Inv(c, s) && Enabled(c, s, a) && 0 <= Subject(s, a) < |s.workers|
    ensures |Next(c, s, a).workers| == |s.workers|
    ensures Next(c, s, a).workers[Subject(s, a)].calls
         == s.workers[Subject(s, a)].calls + if a.TaskElevates? then 1 else 0
  {
    assert ShapeOk(c, s, Subject(s, a));
    if a.MainAcquire? {
      NextIsUnborn(c, s);
    }
    hide Inv, ShapeOk, AttachOps;
  }

  /** The audit total of an uncancelled run is the number of elevated calls that its checks made. */
  lemma AuditTotalIsCallsMade(c: Config, run: seq<Step>, s: State)
    requires c.parallel >= 1 && Leads(Steps(c), Initial(c), run, s) && s.main.Writing? && !s.cancelled
    ensures s.totalCalls == Elevations(run)
  {
    hide Leads;
    CallsAreThoseMade(c, run, s);
    assert Reachable(c, s);
    CompleteRun(c, s);
  }

  /** In the run, the metadata of worker i's cluster was not usable, or its connection failed. */
  predicate Failed(run: seq<Step>, i: nat) {
    run != [] && (Failed(run[..|run| - 1], i) || FailedNow(run[|run| - 1], i))
  }

  predicate FailedNow(a: Step, i: nat) {
    a == Fetch(i, false) || a == Connect(i, false)
  }

  /** A cluster is skipped exactly when its metadata or its connection failed. */
  lemma {:induction false} SkippedIffFailed(c: Config, run: seq<Step>, s: State, i: nat)
    requires c.parallel >= 1 && Leads(Steps(c), Initial(c), run, s) && i < |c.ids|
    ensures i < |s.workers| && (s.workers[i].skipped <==> Failed(run, i))
    decreases |run|
  {
    if run != [] {
      hide Leads, Inv, Steps, Initial, FailedNow;
      var init := run[..|run| - 1];
      var m := LastStep(Steps(c), Initial(c), run, s);
      SkippedIffFailed(c, init, m, i);
      InvReached(c, init, m);
      SkippedNext(c, m, run[|run| - 1], s, i);
    }
  }

  lemma SkippedNext(c: Config, s: State, a: Step, t: State, i: nat)
    requires Inv(c, s) && Steps(c)(s, a, t) && i < |s.workers|
    ensures i < |t.workers|
    ensures t.workers[i].skipped <==> s.workers[i].skipped || FailedNow(a, i)
  {
    assert Enabled(c, s, a) && t == Next(c, s, a);
    assert ShapeOk(c, s, i);
    if a.MainAcquire? {
      NextIsUnborn(c, s);
    }
    hide Inv, ShapeOk, AttachOps;
  }

  /** Records stay where they are, and an audit list once attached to a record is never replaced. */
  lemma {:induction false} AttachedOnce(c: Config, s: State, run: seq<Step>, t: State, o: nat)
    requires Leads(Steps(c), s, run, t) && o < |s.outputs|
    ensures |s.outputs| <= |t.outputs|
    ensures t.outputs[o].worker == s.outputs[o].worker && t.outputs[o].operator == s.outputs[o].operator
    ensures s.outputs[o].elevatedOps != 0 ==> t.outputs[o] == s.outputs[o]
    decreases |run|
  {
    if run != [] {
      hide Leads;
      var m := LastStep(Steps(c), s, run, t);
      AttachedOnce(c, s, run[..|run| - 1], m, o);
      AttachedStep(c, m, run[|run| - 1], t, o);
      hide Steps;
    }
  }

  lemma AttachedStep(c: Config, s: State, a: Step, t: State, o: nat)
    requires Steps(c)(s, a, t) && o < |s.outputs|
    ensures |s.outputs| <= |t.outputs|
    ensures t.outputs[o].worker == s.outputs[o].worker && t.outputs[o].operator == s.outputs[o].operator
    ensures s.outputs[o].elevatedOps != 0 ==> t.outputs[o] == s.outputs[o]
  {
    assert Enabled(c, s, a) && t == Next(c, s, a);
    match a
    case TaskRecords(i, k) => assert t.outputs == s.outputs + [Output(i, k, 0)];
    case Attach(i) => assert t.outputs == AttachOps(c, s.outputs, i, s.workers[i].calls);
    case _ => assert t.outputs == s.outputs;
  }

  /** A client's audit list reaches every record of its cluster made so far, and no other record. */
  lemma AttachReachesCluster(c: Config, s: State, i: nat, t: State, o: nat)
    requires Leads(Steps(c), s, [Attach(i)], t) && i < |c.ids| && o < |s.outputs| && s.outputs[o].worker < |c.ids|
    ensures i < |s.workers| && o < |t.outputs|
    ensures c.ids[s.outputs[o].worker] == c.ids[i] && s.workers[i].calls > 0 ==> t.outputs[o].elevatedOps > 0
    ensures c.ids[s.outputs[o].worker] != c.ids[i] ==> t.outputs[o] == s.outputs[o]
  {
    var run := [Attach(i)];
    var m := LastStep(Steps(c), s, run, t);
    assert run[..|run| - 1] == [] && run[|run| - 1] == Attach(i);
    assert m == s && Steps(c)(s, Attach(i), t);
    assert Enabled(c, s, Attach(i)) && t == Next(c, s, Attach(i));
    assert t.outputs == AttachOps(c, s.outputs, i, s.workers[i].calls);
  }

  // ---------- a cluster listed twice ----------

  /** The first k clusters have been skipped one after the other; nothing else has happened. */
  ghost predicate SkippedFirst(c: Config, s: State, k: nat) {
    && s.main == Deciding(k) && k <= |c.ids| == |s.workers| && s.sem == 0 && s.wg == 0 && !s.cancelled
    && (forall i :: k <= i < |s.workers| ==> s.workers[i] == Worker(Unborn, [], 0, false))
    && s.skips == seq(k, i => i) && s.outputs == []
  }

  lemma {:induction false} SkipFirst(c: Config, k: nat) returns (s: State)
    requires c.parallel >= 1 && k <= |c.ids|
    ensures Reachable(c, s) && SkippedFirst(c, s, k)
  {
    if k == 0 {
      s := Initial(c);
      NoSteps(Steps(c), s);
    } else {
      hide Reachable, SkippedFirst;
      s := SkipFirst(c, k - 1);
      s := SkipNext(c, s, k - 1);
    }
  }

  lemma SkipNext(c: Config, s: State, k: nat) returns (t: State)
    requires c.parallel >= 1 && k < |c.ids| && Reachable(c, s) && SkippedFirst(c, s, k)
    ensures Reachable(c, t) && SkippedFirst(c, t, k + 1)
  {
    hide Reachable;
    t := Extend(c, s, MainDecide);
    t := Extend(c, t, MainAcquire);
    assert t == SetWorker(s, k, Worker(Fetching, [], 0, false)).(main := Deciding(k + 1), sem := 1, wg := 1);
    t := Extend(c, t, Fetch(k, false));
    t := Extend(c, t, Release(k));
    t := Extend(c, t, Depart(k));
    assert t.skips == s.skips + [k];
  }

  /** After that the next cluster connects, starts a check, and the check records its result. */
  lemma CheckNext(c: Config, s: State, k: nat) returns (t: State)
    requires c.parallel >= 1 && c.operators >= 1 && k < |c.ids| && Reachable(c, s) && SkippedFirst(c, s, k)
    ensures Reachable(c, t) && !t.cancelled && t.skips == s.skips && t.outputs == [Output(k, 0, 0)]
  {
    hide Reachable;
    t := Extend(c, s, MainDecide);
    t := Extend(c, t, MainAcquire);
    t := Extend(c, t, Fetch(k, true));
    t := Extend(c, t, Connect(k, true));
    t := Extend(c, t, Launch(k));
    t := Extend(c, t, TaskRecords(k, 0));
  }

  /** The cluster has a skip record and a result in the same report. */
  ghost predicate Mixed(c: Config, s: State, cid: string) {
    SkipRecords(c, s, cid) > 0 && ResultRecords(c, s, cid) > 0
  }

  /** Some uncancelled run writes a report in which a cluster has both. */
  ghost predicate CanMix(c: Config) {
    exists s, cid :: Reachable(c, s) && s.main.Writing? && !s.cancelled && Mixed(c, s, cid)
  }

  lemma RepeatedIdMixes(c: Config, i: nat, j: nat)
    requires c.parallel >= 1 && c.operators >= 1 && i < j < |c.ids| && c.ids[i] == c.ids[j]
    ensures CanMix(c)
  {
    hide Reachable;
    var s := SkipFirst(c, j);
    s := CheckNext(c, s, j);
    SumAtLeast(s.skips, NamesCluster(c, c.ids[i]), i);
    SumAtLeast(s.outputs, OutputNames(c, c.ids[i]), 0);
    assert Mixed(c, s, c.ids[i]);
    hide Sum, SkipRecords, ResultRecords;
    var run, t := EveryRunCanFinish(c, s);
    assert Reachable(c, t) && Mixed(c, t, c.ids[i]);
  }

  /** Without operators there are no results at all. */
  lemma NoOperatorsNoResults(c: Config, s: State, cid: string)
    requires c.parallel >= 1 && Reachable(c, s) && c.operators == 0
    ensures ResultRecords(c, s, cid) == 0
  {
    ReachableInv(c, s);
    if s.outputs != [] {
      var i := s.outputs[0].worker;
      assert RecordsOk(s, i) && ShapeOk(c, s, i);
      SumAtLeast(s.outputs, OutputOf(i), 0);
      assert false;
    }
  }

  lemma UnlistedHasNoRecords(c: Config, s: State, cid: string)
    requires cid !in c.ids
    ensures SkipRecords(c, s, cid) == 0 && ResultRecords(c, s, cid) == 0
  {
    assert forall j: nat :: NamesCluster(c, cid)(j) == 0;
    SumConstant(s.skips, NamesCluster(c, cid), 0);
    assert forall o: Output :: OutputNames(c, cid)(o) == NamesCluster(c, cid)(o.worker);
    SumConstant(s.outputs, OutputNames(c, cid), 0);
  }

  /** The report of an uncancelled run can hold both exactly when there are operators and a cluster is repeated. */
  lemma MixesIffRepeated(c: Config)
    requires c.parallel >= 1
    ensures CanMix(c) <==> c.operators >= 1 && !Distinct(c.ids)
  {
    hide Leads;
    if c.operators >= 1 && !Distinct(c.ids) {
      var i: nat, j: nat :| i < j < |c.ids| && c.ids[i] == c.ids[j];
      RepeatedIdMixes(c, i, j);
    }
    forall s, cid | Reachable(c, s) && Mixed(c, s, cid) ensures c.operators >= 1 && !Distinct(c.ids) {
      if c.operators == 0 {
        NoOperatorsNoResults(c, s, cid);
      } else if cid !in c.ids {
        UnlistedHasNoRecords(c, s, cid);
      } else if Distinct(c.ids) {
        var i: nat :| i < |c.ids| && c.ids[i] == cid;
        SkippedOrChecked(c, s, i);
      }
    }
  }
}
