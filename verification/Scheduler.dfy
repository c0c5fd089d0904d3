/**
 * The worker pool that checks managed clusters: a semaphore channel bounds the workers, each worker
 * starts one task per operator, a wait group joins them, and shared lists collect the results.
 * Every step below is one atomic action of the main goroutine, a worker or an operator task.
 */
module Scheduler {
  import opened Runs
  import opened Sums

  /** parallel is the clamped limit; operators is the number of managed operators. */
  datatype Config = Config(ids: seq<string>, parallel: nat, operators: nat)

  datatype MainPc = Deciding(next: nat) | Acquiring(next: nat) | Joining | Interrupted | Writing

  datatype WorkerPc =
    | Unborn | Fetching | Connecting | Launching | Collecting | Attaching | Auditing | Releasing | Departing | Gone

  datatype TaskPc = Running | Recorded | Finished

  /** calls is the number of elevated calls that the cluster's client has recorded. */
  datatype Worker = Worker(pc: WorkerPc, tasks: seq<TaskPc>, calls: nat, skipped: bool)

  /** A result record. It names its cluster; the worker and operator that made it are kept for the proofs. */
  datatype Output = Output(worker: nat, operator: nat, elevatedOps: nat)

  datatype State = State(
    main: MainPc, workers: seq<Worker>, sem: nat, wg: nat, cancelled: bool,
    skips: seq<nat>, outputs: seq<Output>, totalCalls: nat, clustersElevated: nat)

  datatype Step =
    | Cancel
    | MainDecide | MainAcquire | MainJoin | MainGiveUp
    | Fetch(i: nat, ready: bool) | Connect(i: nat, connected: bool)
    | Launch(i: nat) | StopLaunching(i: nat)
    | TaskElevates(i: nat, k: nat) | TaskRecords(i: nat, k: nat) | TaskFinishes(i: nat, k: nat)
    | Collect(i: nat) | Attach(i: nat) | Audit(i: nat) | Release(i: nat) | Depart(i: nat)

  /** A worker limit that the pool can use: at least one, and no more than there are clusters, if any. */
  predicate Sensible(p: int, clusters: nat) {
    1 <= p && (clusters > 0 ==> p <= clusters)
  }

  function Distance(a: int, b: int): nat {
    if a < b then b - a else a - b
  }

  /** The sensible limit nearest to the one asked for. */
  function Clamp(parallel: int, clusters: nat): (p: nat)
    ensures Sensible(p, clusters)
    ensures forall q :: Sensible(q, clusters) && q != p ==> Distance(parallel, p) < Distance(parallel, q)
  {
    var p := if parallel < 1 then 1 else parallel;
    if clusters > 0 && p > clusters then clusters else p
  }

  function Initial(c: Config): State {
    State(Deciding(0), seq(|c.ids|, _ => Worker(Unborn, [], 0, false)), 0, 0, false, [], [], 0, 0)
  }

  // ---------- steps ----------

  ghost predicate WorkerAt(s: State, i: nat, pc: WorkerPc) {
    i < |s.workers| && s.workers[i].pc == pc
  }

  ghost predicate TaskAt(s: State, i: nat, k: nat, t: TaskPc) {
    i < |s.workers| && k < |s.workers[i].tasks| && s.workers[i].tasks[k] == t
  }

  ghost predicate AllFinished(tasks: seq<TaskPc>) {
    forall k :: 0 <= k < |tasks| ==> tasks[k] == Finished
  }

  ghost predicate Enabled(c: Config, s: State, a: Step) {
    match a
    case Cancel => !s.cancelled
    case MainDecide => s.main.Deciding?
    case MainAcquire => s.main.Acquiring? && s.sem < c.parallel && s.main.next < |s.workers|
    case MainJoin => (s.main.Joining? || s.main.Interrupted?) && s.wg == 0
    case MainGiveUp => s.main.Interrupted?
    case Fetch(i, _) => WorkerAt(s, i, Fetching)
    case Connect(i, _) => WorkerAt(s, i, Connecting)
    case Launch(i) => WorkerAt(s, i, Launching) && !s.cancelled && |s.workers[i].tasks| < c.operators
    case StopLaunching(i) => WorkerAt(s, i, Launching) && (s.cancelled || |s.workers[i].tasks| == c.operators)
    case TaskElevates(i, k) => TaskAt(s, i, k, Running)
    case TaskRecords(i, k) => TaskAt(s, i, k, Running)
    case TaskFinishes(i, k) => TaskAt(s, i, k, Recorded)
    case Collect(i) => WorkerAt(s, i, Collecting) && AllFinished(s.workers[i].tasks)
    case Attach(i) => WorkerAt(s, i, Attaching)
    case Audit(i) => WorkerAt(s, i, Auditing)
    case Release(i) => WorkerAt(s, i, Releasing) && s.sem > 0
    case Depart(i) => WorkerAt(s, i, Departing) && s.wg > 0
  }

  function SetWorker(s: State, i: nat, w: Worker): State
    requires i < |s.workers|
  {
    s.(workers := s.workers[i := w])
  }

  /** The client's audit list goes to every record of the cluster that has none yet. */
  function AttachOps(c: Config, outputs: seq<Output>, i: nat, calls: nat): (r: seq<Output>)
    ensures |r| == |outputs|
    ensures forall o :: 0 <= o < |r| ==>
      r[o] == if calls > 0 && SameCluster(c, outputs[o].worker, i) && outputs[o].elevatedOps == 0
              then outputs[o].(elevatedOps := calls) else outputs[o]
  {
    seq(|outputs|, o requires 0 <= o < |outputs| =>
      if calls > 0 && SameCluster(c, outputs[o].worker, i) && outputs[o].elevatedOps == 0
      then outputs[o].(elevatedOps := calls) else outputs[o])
  }

  predicate SameCluster(c: Config, j: nat, i: nat) {
    j < |c.ids| && i < |c.ids| && c.ids[j] == c.ids[i]
  }

  ghost function Next(c: Config, s: State, a: Step): State
    requires Enabled(c, s, a)
  {
    match a
    case Cancel => s.(cancelled := true)
    case MainDecide =>
      var i := s.main.next;
      if i >= |s.workers| then s.(main := Joining)
      else if s.cancelled then s.(main := Interrupted)
      else s.(main := Acquiring(i), wg := s.wg + 1)
    case MainAcquire =>
      var i := s.main.next;
      SetWorker(s, i, Worker(Fetching, [], 0, false)).(main := Deciding(i + 1), sem := s.sem + 1)
    case MainJoin => s.(main := Writing)
    case MainGiveUp => s.(main := Writing)
    case Fetch(i, ready) =>
      if ready then SetWorker(s, i, s.workers[i].(pc := Connecting))
      else SetWorker(s, i, s.workers[i].(pc := Releasing, skipped := true)).(skips := s.skips + [i])
    case Connect(i, connected) =>
      if connected then SetWorker(s, i, s.workers[i].(pc := Launching))
      else SetWorker(s, i, s.workers[i].(pc := Releasing, skipped := true)).(skips := s.skips + [i])
    case Launch(i) => SetWorker(s, i, s.workers[i].(tasks := s.workers[i].tasks + [Running]))
    case StopLaunching(i) => SetWorker(s, i, s.workers[i].(pc := Collecting))
    case TaskElevates(i, k) => SetWorker(s, i, s.workers[i].(calls := s.workers[i].calls + 1))
    case TaskRecords(i, k) =>
      SetWorker(s, i, s.workers[i].(tasks := s.workers[i].tasks[k := Recorded]))
        .(outputs := s.outputs + [Output(i, k, 0)])
    case TaskFinishes(i, k) => SetWorker(s, i, s.workers[i].(tasks := s.workers[i].tasks[k := Finished]))
    case Collect(i) => SetWorker(s, i, s.workers[i].(pc := Attaching))
    case Attach(i) =>
      SetWorker(s, i, s.workers[i].(pc := Auditing)).(outputs := AttachOps(c, s.outputs, i, s.workers[i].calls))
    case Audit(i) =>
      var calls := s.workers[i].calls;
      SetWorker(s, i, s.workers[i].(pc := Releasing))
        .(totalCalls := s.totalCalls + calls, clustersElevated := s.clustersElevated + if calls > 0 then 1 else 0)
    case Release(i) => SetWorker(s, i, s.workers[i].(pc := Departing)).(sem := s.sem - 1)
    case Depart(i) => SetWorker(s, i, s.workers[i].(pc := Gone)).(wg := s.wg - 1)
  }

  /** The single steps under a configuration. */
  ghost function Steps(c: Config): (State, Step, State) -> bool {
    (s: State, a: Step, t: State) => Enabled(c, s, a) && t == Next(c, s, a)
  }

  ghost predicate Reachable(c: Config, s: State) {
    exists run :: Leads(Steps(c), Initial(c), run, s)
  }

  // ---------- the invariant ----------

  /** The worker holds a semaphore slot. */
  function Slot(w: Worker): int {
    if w.pc.Unborn? || w.pc.Departing? || w.pc.Gone? then 0 else 1
  }

  /** The worker is counted by the wait group. */
  function Alive(w: Worker): int {
    if w.pc.Unborn? || w.pc.Gone? then 0 else 1
  }

  predicate Audited(w: Worker) {
    (w.pc.Releasing? || w.pc.Departing? || w.pc.Gone?) && !w.skipped
  }

  predicate Attached(w: Worker) {
    w.pc.Auditing? || Audited(w)
  }

  function AuditedCalls(w: Worker): int {
    if Audited(w) then w.calls else 0
  }

  function AuditedElevated(w: Worker): int {
    if Audited(w) && w.calls > 0 then 1 else 0
  }

  function Made(t: TaskPc): int {
    if t.Running? then 0 else 1
  }

  function SkipOf(i: nat): nat -> int {
    j => if j == i then 1 else 0
  }

  function OutputOf(i: nat): Output -> int {
    (o: Output) => if o.worker == i then 1 else 0
  }

  function OutputFor(i: nat, k: nat): Output -> int {
    (o: Output) => if o.worker == i && o.operator == k then 1 else 0
  }

  ghost predicate ShapeOk(c: Config, s: State, i: nat)
    requires i < |s.workers|
  {
    var w := s.workers[i];
    && |w.tasks| <= c.operators
    && (w.pc.Unborn? || w.pc.Fetching? || w.pc.Connecting? || w.skipped ==> w.tasks == [] && w.calls == 0)
    && (w.skipped ==> w.pc.Releasing? || w.pc.Departing? || w.pc.Gone?)
    && (w.pc.Attaching? || Attached(w) ==> AllFinished(w.tasks))
    && (!s.cancelled && (w.pc.Collecting? || w.pc.Attaching? || Attached(w)) ==> |w.tasks| == c.operators)
  }

  ghost predicate RecordsOk(s: State, i: nat)
    requires i < |s.workers|
  {
    var w := s.workers[i];
    && Sum(s.skips, SkipOf(i)) == (if w.skipped then 1 else 0)
    && Sum(s.outputs, OutputOf(i)) == Sum(w.tasks, Made)
    && forall k: nat :: Sum(s.outputs, OutputFor(i, k)) == if k < |w.tasks| then Made(w.tasks[k]) else 0
  }

  /** No other entry of the cluster list names the same cluster. */
  ghost predicate UniqueId(c: Config, i: nat) {
    i < |c.ids| && forall j :: 0 <= j < |c.ids| && c.ids[j] == c.ids[i] ==> j == i
  }

  ghost predicate OutputsOk(c: Config, s: State) {
    forall o :: 0 <= o < |s.outputs| ==>
      && s.outputs[o].worker < |s.workers|
      && (UniqueId(c, s.outputs[o].worker) ==>
            var w := s.workers[s.outputs[o].worker];
            s.outputs[o].elevatedOps == if Attached(w) then w.calls else 0)
  }

  ghost predicate MainOk(s: State) {
    match s.main
    case Deciding(n) => n <= |s.workers| && StartedBelow(s, n)
    case Acquiring(n) => n < |s.workers| && StartedBelow(s, n)
    case Joining => StartedBelow(s, |s.workers|)
    case Interrupted => s.cancelled
    case Writing => s.cancelled || forall i :: 0 <= i < |s.workers| ==> s.workers[i].pc == Gone
  }

  /** Exactly the workers before n have been started. */
  ghost predicate StartedBelow(s: State, n: nat) {
    forall i :: 0 <= i < |s.workers| ==> (s.workers[i].pc == Unborn <==> i >= n)
  }

  ghost predicate Counts(c: Config, s: State) {
    && s.sem == Sum(s.workers, Slot) <= c.parallel
    && s.wg == Sum(s.workers, Alive) + (if s.main.Acquiring? then 1 else 0)
    && s.totalCalls == Sum(s.workers, AuditedCalls)
    && s.clustersElevated == Sum(s.workers, AuditedElevated)
  }

  ghost predicate Inv(c: Config, s: State) {
    && |s.workers| == |c.ids|
    && MainOk(s)
    && Counts(c, s)
    && (forall i :: 0 <= i < |s.workers| ==> ShapeOk(c, s, i))
    && (forall i :: 0 <= i < |s.workers| ==> RecordsOk(s, i))
    && OutputsOk(c, s)
  }
}
