/** Concurrent operators share one cluster client: what every interleaving of their calls does to its elevation. */
module ElevationRuns {
  import opened Elevation
  import opened Runs
  import opened Sequences
  import opened Sums

  // ---------- the steps ----------

  /**
   * Where a task stands. Permitted: past the permission check, the record still to come. Calling: the call is
   * under way, and its error will be inspected or not. Refused: the call was refused and the task has seen
   * elevation unbroken, the flag still to be set. Naming: the flag is set, the reason still to be written.
   */
  datatype Phase =
    | Idle
    | Permitted(op: string, inspects: bool)
    | Calling(inspects: bool)
    | Refused(reason: string)
    | Naming(reason: string)

  /** An operator's goroutine, and the check it is running. */
  datatype Task = Task(phase: Phase, check: string)

  datatype System = System(client: Client, tasks: seq<Task>)

  datatype Step =
    | Enter(t: nat, op: string, elevated: bool, inspects: bool)
    | Record(t: nat)
    | Return(t: nat, err: Option<string>)
    | Break(t: nat)
    | Name(t: nat)
    | SetCheck(t: nat, name: string)

  ghost predicate Enabled(s: System, a: Step) {
    a.t < |s.tasks|
    && match s.tasks[a.t].phase
       case Idle => a.SetCheck? || (a.Enter? && (a.inspects ==> a.elevated))
       case Permitted(_, _) => a.Record?
       case Calling(_) => a.Return?
       case Refused(_) => a.Break?
       case Naming(_) => a.Name?
  }

  /** The test at the end of a call, which reads the flag without a lock. */
  function Tested(c: Client, p: Phase, err: Option<string>): Phase
    requires p.Calling?
  {
    if p.inspects && Refusal(err).Some? && !c.broken then Refused(Refusal(err).value) else Idle
  }

  function Move(s: System, t: nat, c: Client, p: Phase): System
    requires t < |s.tasks|
  {
    System(c, s.tasks[t := s.tasks[t].(phase := p)])
  }

  ghost function Next(s: System, a: Step): System
    requires Enabled(s, a)
  {
    var c, p := s.client, s.tasks[a.t].phase;
    match a
    case Enter(t, op, elevated, inspects) =>
      Move(s, t, c, if elevated && MayElevate(c) then Permitted(op, inspects) else Calling(inspects))
    case Record(t) => Move(s, t, WithOp(c, p.op), Calling(p.inspects))
    case Return(t, err) => Move(s, t, c, Tested(c, p, err))
    case Break(t) => Move(s, t, c.(broken := true), Naming(p.reason))
    case Name(t) => Move(s, t, c.(deniedReason := p.reason), Idle)
    case SetCheck(t, name) => System(c.(currentCheck := name), s.tasks[t := Task(Idle, name)])
  }

  ghost predicate Steps(s: System, a: Step, t: System) {
    Enabled(s, a) && t == Next(s, a)
  }

  /** The client as it was connected, shared by n tasks that have not begun. */
  function Fresh(c: Client, n: nat): System {
    System(c, seq(n, _ => Task(Idle, "")))
  }

  lemma Take(s: System, run: seq<Step>, m: System, a: Step) returns (longer: seq<Step>, t: System)
    requires Leads(Steps, s, run, m) && Enabled(m, a)
    ensures longer == run + [a] && t == Next(m, a) && Leads(Steps, s, longer, t)
  {
    t := Next(m, a);
    longer := Extended(Steps, s, run, m, a, t);
  }

  // ---------- what a run keeps ----------

  /** The reason that a task past the test is going to write. */
  function Holds(t: Task): Option<string> {
    if t.phase.Refused? || t.phase.Naming? then Some(t.phase.reason) else None
  }

  ghost predicate Held(s: System, r: string) {
    exists i :: 0 <= i < |s.tasks| && Holds(s.tasks[i]) == Some(r)
  }

  const REASONS := {"access_request", "forbidden"}

  ghost predicate TaskSound(c: Client, t: Task) {
    && (c.noElevate || !c.hasElevatedClient ==> !t.phase.Permitted?)
    && (t.phase.Naming? ==> c.broken)
    && (Holds(t).Some? ==> Holds(t).value in REASONS)
  }

  ghost predicate SystemSound(s: System) {
    && Sound(s.client)
    && forall i :: 0 <= i < |s.tasks| ==> TaskSound(s.client, s.tasks[i])
  }

  /** No task can come to hold a new reason: elevation is broken, or every task is past the test. */
  ghost predicate Settled(s: System) {
    s.client.broken || forall i :: 0 <= i < |s.tasks| ==> Holds(s.tasks[i]).Some?
  }

  /** Whatever the tasks of t hold, the same tasks of s hold too. */
  ghost predicate HoldsNoMore(s: System, t: System) {
    |t.tasks| == |s.tasks|
    && forall i :: 0 <= i < |t.tasks| && Holds(t.tasks[i]).Some? ==> Holds(s.tasks[i]) == Holds(t.tasks[i])
  }

  lemma StepKeepsSound(s: System, a: Step)
    requires SystemSound(s) && Enabled(s, a)
    ensures SystemSound(Next(s, a)) && |Next(s, a).tasks| == |s.tasks|
  {
    hide Text.Contains;
    assert TaskSound(s.client, s.tasks[a.t]);
  }

  /** One step never repairs elevation nor rewrites the log, and a reason is written only by a task that holds it. */
  lemma StepIsMonotone(s: System, a: Step)
    requires SystemSound(s) && Enabled(s, a)
    ensures var c, d := s.client, Next(s, a).client;
            && d.noElevate == c.noElevate && d.hasElevatedClient == c.hasElevatedClient
            && (c.broken ==> d.broken)
            && (d.deniedReason != c.deniedReason ==> c.broken && Held(s, d.deniedReason))
            && c.ops <= d.ops && |d.ops| <= |c.ops| + 1
            && (|d.ops| > |c.ops| && c.currentCheck != "" ==> "[" <= d.ops[|c.ops|])
  {
    hide Text.Contains;
    if a.Name? {
      assert TaskSound(s.client, s.tasks[a.t]) && Holds(s.tasks[a.t]) == Some(Next(s, a).client.deniedReason);
    }
  }

  /** Once no task can come to hold a new reason, none ever can. */
  lemma SettledStep(s: System, a: Step)
    requires SystemSound(s) && Settled(s) && Enabled(s, a)
    ensures Settled(Next(s, a)) && HoldsNoMore(s, Next(s, a))
  {
    hide Text.Contains, Refusal;
    assert TaskSound(s.client, s.tasks[a.t]);
    if !s.client.broken {
      assert Holds(s.tasks[a.t]).Some?;
    }
  }

  /**
   * Over any run: log and counter agree, nothing is counted under NoElevate or without an elevated client,
   * elevation once broken stays broken, and once it is broken or every task is past the test, a reason is
   * written only by a task that held it already.
   */
  lemma {:induction false} RunsAreAudited(s: System, run: seq<Step>, t: System)
    requires SystemSound(s) && Leads(Steps, s, run, t)
    ensures SystemSound(t) && |t.tasks| == |s.tasks|
    ensures t.client.callCount == |t.client.ops|
    ensures t.client.noElevate == s.client.noElevate && t.client.hasElevatedClient == s.client.hasElevatedClient
    ensures s.client.noElevate || !s.client.hasElevatedClient ==> t.client.callCount == 0
    ensures s.client.broken ==> t.client.broken
    ensures Settled(s) ==>
              && Settled(t) && HoldsNoMore(s, t)
              && (t.client.deniedReason == s.client.deniedReason || Held(s, t.client.deniedReason))
    ensures s.client.ops <= t.client.ops
    decreases |run|
  {
    if run != [] {
      var m := LastStep(Steps, s, run, t);
      var a := run[|run| - 1];
      RunsAreAudited(s, run[..|run| - 1], m);
      StepKeepsSound(m, a);
      StepIsMonotone(m, a);
      hide Enabled, Next, Leads, Holds, Settled;
      if Settled(s) {
        SettledStep(m, a);
      }
    }
  }

  /** Calls that do not ask for elevation leave no trace: no record, no refusal, no reason. */
  lemma {:induction false} PlainCallsLeaveNoTrace(c: Client, n: nat, run: seq<Step>, t: System)
    requires Leads(Steps, Fresh(c, n), run, t) && forall a :: a in run && a.Enter? ==> !a.elevated
    ensures t.client == c.(currentCheck := t.client.currentCheck)
    ensures forall i :: 0 <= i < |t.tasks| ==> t.tasks[i].phase == Idle || t.tasks[i].phase == Calling(false)
    decreases |run|
  {
    if run != [] {
      hide Leads, Steps, Fresh;
      var init, a := run[..|run| - 1], run[|run| - 1];
      var m := LastStep(Steps, Fresh(c, n), run, t);
      assert run == init + [a] && a in run;
      PlainCallsLeaveNoTrace(c, n, init, m);
      PlainStep(c, m, a, t);
    }
  }

  lemma PlainStep(c: Client, s: System, a: Step, t: System)
    requires Steps(s, a, t) && (a.Enter? ==> !a.elevated)
    requires s.client == c.(currentCheck := s.client.currentCheck)
    requires forall i :: 0 <= i < |s.tasks| ==> s.tasks[i].phase == Idle || s.tasks[i].phase == Calling(false)
    ensures t.client == c.(currentCheck := t.client.currentCheck)
    ensures forall i :: 0 <= i < |t.tasks| ==> t.tasks[i].phase == Idle || t.tasks[i].phase == Calling(false)
  {
    hide Refusal;
    assert s.tasks[a.t].phase == Idle || s.tasks[a.t].phase == Calling(false);
  }

  // ---------- counting records and reasons ----------

  /** Counts one for every task whose record is still to come. */
  function AwaitsRecord(t: Task): int {
    if t.phase.Permitted? then 1 else 0
  }

  /** Counts one for every task that is past the test and has not yet written its reason. */
  function AwaitsName(t: Task): int {
    if Holds(t).Some? then 1 else 0
  }

  function Pending(s: System): int {
    Sum(s.tasks, AwaitsRecord)
  }

  function Holders(s: System): int {
    Sum(s.tasks, AwaitsName)
  }

  /** How many reasons a run writes. */
  function Names(run: seq<Step>): nat {
    if run == [] then 0 else Names(run[..|run| - 1]) + if run[|run| - 1].Name? then 1 else 0
  }

  lemma BrokenStep(s: System, a: Step)
    requires s.client.broken && Enabled(s, a)
    ensures Next(s, a).client.broken
    ensures Next(s, a).client.callCount + Pending(Next(s, a)) == s.client.callCount + Pending(s)
    ensures (if a.Name? then 1 else 0) + Holders(Next(s, a)) == Holders(s)
  {
    hide Text.Contains, Refusal, Sum;
    var p := Next(s, a).tasks[a.t];
    assert Next(s, a).tasks == s.tasks[a.t := p];
    SumUpdate(s.tasks, a.t, p, AwaitsRecord);
    SumUpdate(s.tasks, a.t, p, AwaitsName);
  }

  /**
   * Once elevation is broken, calls recorded and calls still to be recorded balance exactly, and so do
   * reasons written and reasons still to be written: every later record belongs to a task that had passed
   * its permission check before, and every later reason to one that had passed the test before.
   */
  lemma {:induction false} CallsAfterBreaking(s: System, run: seq<Step>, t: System)
    requires s.client.broken && Leads(Steps, s, run, t)
    ensures t.client.broken
    ensures t.client.callCount + Pending(t) == s.client.callCount + Pending(s)
    ensures t.client.callCount - s.client.callCount <= Pending(s)
    ensures Names(run) + Holders(t) == Holders(s) && Names(run) <= Holders(s)
    decreases |run|
  {
    SumNonnegative(t.tasks, AwaitsRecord);
    SumNonnegative(t.tasks, AwaitsName);
    if run != [] {
      hide Next, Enabled, Sum;
      var m := LastStep(Steps, s, run, t);
      CallsAfterBreaking(s, run[..|run| - 1], m);
      BrokenStep(m, run[|run| - 1]);
    }
  }

  lemma {:induction false} HoldersAtMostTasks(tasks: seq<Task>)
    ensures Sum(tasks, AwaitsName) <= |tasks|
  {
    if tasks != [] {
      HoldersAtMostTasks(tasks[..|tasks| - 1]);
    }
  }

  /** In a run that starts unbroken every task writes a reason at most once, and none before elevation is broken. */
  lemma {:induction false} OneNamePerTask(s: System, run: seq<Step>, t: System)
    requires SystemSound(s) && !s.client.broken && Leads(Steps, s, run, t)
    ensures |t.tasks| == |s.tasks|
    ensures if t.client.broken then Names(run) + Holders(t) <= |s.tasks| else Names(run) == 0
    decreases |run|
  {
    if run != [] {
      var m := LastStep(Steps, s, run, t);
      var a := run[|run| - 1];
      OneNamePerTask(s, run[..|run| - 1], m);
      RunsAreAudited(s, run[..|run| - 1], m);
      HoldersAtMostTasks(t.tasks);
      assert a.Name? ==> TaskSound(m.client, m.tasks[a.t]);
      hide Sum, Leads;
      if m.client.broken {
        BrokenStep(m, a);
      }
    }
  }

  /** Tasks past their permission check can record one after the other. */
  lemma {:induction false} RecordSome(s: System, k: nat) returns (run: seq<Step>, t: System)
    requires s.client.broken && k <= Pending(s)
    ensures Leads(Steps, s, run, t) && t.client.callCount == s.client.callCount + k
  {
    if k == 0 {
      run, t := [], s;
      NoSteps(Steps, s);
    } else {
      run, t := RecordSome(s, k - 1);
      CallsAfterBreaking(s, run, t);
      if forall i :: 0 <= i < |t.tasks| ==> AwaitsRecord(t.tasks[i]) == 0 {
        SumConstant(t.tasks, AwaitsRecord, 0);
        assert false;
      }
      var i: nat :| i < |t.tasks| && AwaitsRecord(t.tasks[i]) != 0;
      run, t := Take(s, run, t, Record(i));
    }
  }

  /** From a broken client on, k further calls can be recorded exactly when k tasks are past their check. */
  lemma LateRecordsIff(s: System, k: nat)
    requires s.client.broken
    ensures (exists run, t :: Leads(Steps, s, run, t) && t.client.callCount == s.client.callCount + k)
       <==> k <= Pending(s)
  {
    if k <= Pending(s) {
      var run, t := RecordSome(s, k);
      assert Leads(Steps, s, run, t) && t.client.callCount == s.client.callCount + k;
    }
    forall run, t | Leads(Steps, s, run, t) && t.client.callCount == s.client.callCount + k ensures k <= Pending(s) {
      CallsAfterBreaking(s, run, t);
    }
  }

  /** Such a state is reached: one task is past its check while the refusal of another breaks elevation. */
  lemma LateRecordIsPossible(reason: string, op: string, other: string, err: Option<string>)
    returns (run: seq<Step>, m: System, more: seq<Step>, t: System)
    requires reason != "" && Refusal(err).Some?
    ensures Leads(Steps, Fresh(Connected(false, reason, true), 2), run, m)
    ensures m.client.broken && m.client.callCount == 1
    ensures Leads(Steps, m, more, t) && t.client.callCount == 2
  {
    hide Refusal, Leads;
    var s := Fresh(Connected(false, reason, true), 2);
    NoSteps(Steps, s);
    run, m := Take(s, [], s, Enter(0, op, true, true));
    run, m := Take(s, run, m, Enter(1, other, true, true));
    run, m := Take(s, run, m, Record(0));
    run, m := Take(s, run, m, Return(0, err));
    run, m := Take(s, run, m, Break(0));
    NoSteps(Steps, m);
    more, t := Take(m, [], m, Record(1));
  }

  // ---------- which reasons a client can come to show ----------

  /** Some run from s ends with the given reason. */
  ghost predicate CanShow(s: System, r: string) {
    exists run, t :: Leads(Steps, s, run, t) && t.client.deniedReason == r
  }

  /** A task past the test can always finish writing its reason. */
  lemma WriteReason(s: System, run: seq<Step>, m: System, i: nat)
    requires Leads(Steps, s, run, m) && i < |m.tasks| && Holds(m.tasks[i]).Some?
    ensures CanShow(s, Holds(m.tasks[i]).value)
  {
    hide Leads;
    var longer, t := run, m;
    if m.tasks[i].phase.Refused? {
      longer, t := Take(s, longer, t, Break(i));
    }
    longer, t := Take(s, longer, t, Name(i));
    assert Leads(Steps, s, longer, t) && t.client.deniedReason == Holds(m.tasks[i]).value;
  }

  /** A task that holds no reason can finish its call without being refused. */
  lemma FinishCall(s: System, i: nat) returns (run: seq<Step>, t: System)
    requires i < |s.tasks| && Holds(s.tasks[i]).None?
    ensures Leads(Steps, s, run, t) && i < |t.tasks| && t.tasks[i].phase == Idle && t.client.broken == s.client.broken
  {
    hide Leads, Refusal;
    NoSteps(Steps, s);
    run, t := [], s;
    if t.tasks[i].phase.Permitted? {
      run, t := Take(s, run, t, Record(i));
    }
    if t.tasks[i].phase.Calling? {
      NoErrorNoRefusal();
      run, t := Take(s, run, t, Return(i, None));
    }
  }

  lemma NoErrorNoRefusal()
    ensures Refusal(None) == None
  {
  }

  /** An idle task can ask for elevation and be refused. */
  lemma BeRefused(s: System, run: seq<Step>, m: System, i: nat, err: Option<string>)
    returns (longer: seq<Step>, t: System)
    requires Leads(Steps, s, run, m) && i < |m.tasks| && m.tasks[i].phase == Idle
    requires !m.client.broken && Refusal(err).Some?
    ensures Leads(Steps, s, longer, t) && i < |t.tasks| && Holds(t.tasks[i]) == Refusal(err)
  {
    hide Leads, Refusal;
    longer, t := Take(s, run, m, Enter(i, "", true, true));
    if t.tasks[i].phase.Permitted? {
      longer, t := Take(s, longer, t, Record(i));
    }
    longer, t := Take(s, longer, t, Return(i, err));
  }

  /** Both reasons are given by some error. */
  lemma ErrorFor(r: string) returns (err: Option<string>)
    requires r in REASONS
    ensures Refusal(err) == Some(r)
  {
    if r == "access_request" {
      err := Some("accessrequest");
      assert Text.OccursAt("accessrequest", "accessrequest", 0);
    } else {
      err := Some("Forbidden");
      assert Text.OccursAt("Forbidden", "Forbidden", 0);
    }
  }

  /**
   * The reasons that a client can ever show: the one it has, those held by tasks past the test, and as long as
   * elevation is unbroken and some task is not past the test, either of the two.
   */
  lemma ReasonsIff(s: System, r: string)
    requires SystemSound(s)
    ensures CanShow(s, r) <==> r == s.client.deniedReason || Held(s, r) || (!Settled(s) && r in REASONS)
  {
    hide Leads, SystemSound, Refusal;
    NoSteps(Steps, s);
    if Held(s, r) {
      var i: nat :| i < |s.tasks| && Holds(s.tasks[i]) == Some(r);
      WriteReason(s, [], s, i);
    } else if !Settled(s) && r in REASONS {
      var i: nat :| i < |s.tasks| && Holds(s.tasks[i]).None?;
      var run, m := FinishCall(s, i);
      var err := ErrorFor(r);
      run, m := BeRefused(s, run, m, i, err);
      WriteReason(s, run, m, i);
    }
    if CanShow(s, r) {
      ShownReason(s, r);
    }
  }

  lemma ShownReason(s: System, r: string)
    requires SystemSound(s) && CanShow(s, r)
    ensures r == s.client.deniedReason || Held(s, r) || (!Settled(s) && r in REASONS)
  {
    assert !Settled(s) ==> s.client.deniedReason == "";
    hide Leads, Held, Settled;
    var run, t :| Leads(Steps, s, run, t) && t.client.deniedReason == r;
    RunsAreAudited(s, run, t);
  }

  /** The reason can still change exactly when a task past the test holds another one, or new ones can arise. */
  lemma ReasonCanChangeIff(s: System)
    requires SystemSound(s)
    ensures (exists r :: r != s.client.deniedReason && CanShow(s, r))
       <==> !Settled(s) || exists r :: r != s.client.deniedReason && Held(s, r)
  {
    assert !Settled(s) ==> s.client.deniedReason == "";
    hide SystemSound, CanShow, Held, Settled;
    forall r: string
      ensures CanShow(s, r) <==> r == s.client.deniedReason || Held(s, r) || (!Settled(s) && r in REASONS)
    {
      ReasonsIff(s, r);
    }
    if !Settled(s) {
      assert "forbidden" != s.client.deniedReason && CanShow(s, "forbidden");
    }
  }

  /**
   * As connected, a client can come to name either reason exactly when there is a task at all and its elevated
   * login did not fail. That includes the clients which never tried to log in elevated.
   */
  lemma ConnectedCanShowIff(noElevate: bool, reason: string, granted: bool, n: nat, r: string)
    requires r in REASONS
    ensures CanShow(Fresh(Connected(noElevate, reason, granted), n), r)
       <==> n > 0 && (noElevate || reason == "" || granted)
  {
    var s := Fresh(Connected(noElevate, reason, granted), n);
    ReasonsIff(s, r);
    hide CanShow;
    assert !Held(s, r);
    if n > 0 {
      assert Holds(s.tasks[0]).None?;
    }
  }

  /** A client whose elevated login failed never names a reason nor records a call, whatever errors follow. */
  lemma BrokenAtLoginStaysSilent(reason: string, n: nat, run: seq<Step>, t: System)
    requires reason != "" && Leads(Steps, Fresh(Connected(false, reason, false), n), run, t)
    ensures t.client.deniedReason == "" && !MayElevate(t.client) && t.client.callCount == 0
  {
    var s := Fresh(Connected(false, reason, false), n);
    RunsAreAudited(s, run, t);
    SumConstant(s.tasks, AwaitsRecord, 0);
    CallsAfterBreaking(s, run, t);
  }

  lemma BothRefused(s: System, reason: string, op: string, other: string,
                    request: Option<string>, forbidden: Option<string>)
    returns (run: seq<Step>, t: System)
    requires reason != "" && s == Fresh(Connected(false, reason, true), 2)
    requires Refusal(request) == Some("access_request") && Refusal(forbidden) == Some("forbidden")
    ensures Leads(Steps, s, run, t) && t.tasks == [Task(Refused("access_request"), ""), Task(Refused("forbidden"), "")]
  {
    hide Refusal, Leads;
    NoSteps(Steps, s);
    run, t := Take(s, [], s, Enter(0, op, true, true));
    run, t := Take(s, run, t, Record(0));
    run, t := Take(s, run, t, Enter(1, other, true, true));
    run, t := Take(s, run, t, Record(1));
    run, t := Take(s, run, t, Return(0, request));
    run, t := Take(s, run, t, Return(1, forbidden));
  }

  /** Two tasks refused together: both see elevation unbroken, and the later one replaces the reason of the other. */
  lemma ReasonCanBeReplaced(reason: string, op: string, other: string)
    returns (run: seq<Step>, m: System, more: seq<Step>, t: System)
    requires reason != ""
    ensures Leads(Steps, Fresh(Connected(false, reason, true), 2), run, m)
    ensures m.client.broken && m.client.deniedReason == "access_request"
    ensures Leads(Steps, m, more, t) && t.client.deniedReason == "forbidden" && Holders(t) == 0
  {
    hide Refusal, Leads;
    var s := Fresh(Connected(false, reason, true), 2);
    var request := ErrorFor("access_request");
    var forbidden := ErrorFor("forbidden");
    run, m := BothRefused(s, reason, op, other, request, forbidden);
    run, m := Take(s, run, m, Break(0));
    run, m := Take(s, run, m, Name(0));
    NoSteps(Steps, m);
    more, t := Take(m, [], m, Break(1));
    more, t := Take(m, more, t, Name(1));
    SumConstant(t.tasks, AwaitsName, 0);
  }

  // ---------- whose check an audit entry names ----------

  /** The task that set a check last in a run. */
  function LastSetter(run: seq<Step>): Option<nat> {
    if run == [] then None
    else if run[|run| - 1].SetCheck? then Some(run[|run| - 1].t)
    else LastSetter(run[..|run| - 1])
  }

  /** Checks change only where one is set. */
  lemma ChecksChange(s: System, a: Step, t: System)
    requires Steps(s, a, t)
    ensures a.t < |s.tasks| == |t.tasks|
    ensures a.SetCheck? ==> t.client.currentCheck == a.name == t.tasks[a.t].check
    ensures !a.SetCheck? ==> t.client.currentCheck == s.client.currentCheck
    ensures forall i :: 0 <= i < |s.tasks| && (i != a.t || !a.SetCheck?) ==> t.tasks[i].check == s.tasks[i].check
  {
    hide Refusal;
  }

  /** The client carries the check of the task that set one last. */
  ghost predicate CarriesLast(run: seq<Step>, t: System, n: nat) {
    |t.tasks| == n
    && match LastSetter(run)
       case None => t.client.currentCheck == "" && forall i :: 0 <= i < n ==> t.tasks[i].check == ""
       case Some(i) => i < n && t.client.currentCheck == t.tasks[i].check
  }

  lemma CarriesNext(run: seq<Step>, m: System, t: System, n: nat)
    requires run != [] && CarriesLast(run[..|run| - 1], m, n) && Steps(m, run[|run| - 1], t)
    ensures CarriesLast(run, t, n)
  {
    hide Steps;
    ChecksChange(m, run[|run| - 1], t);
  }

  lemma {:induction false} CheckOfLastSetter(c: Client, n: nat, run: seq<Step>, t: System)
    requires c.currentCheck == "" && Leads(Steps, Fresh(c, n), run, t)
    ensures CarriesLast(run, t, n)
    decreases |run|
  {
    if run != [] {
      hide Leads, Steps, Fresh, CarriesLast;
      var m := LastStep(Steps, Fresh(c, n), run, t);
      CheckOfLastSetter(c, n, run[..|run| - 1], m);
      CarriesNext(run, m, t, n);
    }
  }

  lemma EntryIsOwnIff(check: string, own: string, op: string)
    ensures Entry(check, op) == Entry(own, op) <==> "[" <= op || check == own
  {
    if !("[" <= op) && check != "" && own != "" && Entry(check, op) == Entry(own, op) {
      var x, y := Entry(check, op), Entry(own, op);
      assert |check| == |own|;
      assert check == x[1..1 + |check|] && own == y[1..1 + |own|];
    }
  }

  /**
   * The record of a call is tagged with the check of the task that made it exactly when the last task to set a
   * check was that task, or set a check of the same name, or when the text carries a tag of its own.
   */
  lemma TagIsOwnIff(c: Client, n: nat, run: seq<Step>, m: System, t: nat)
    requires c.currentCheck == "" && Leads(Steps, Fresh(c, n), run, m)
    requires Enabled(m, Record(t))
    ensures LastSetter(run).Some? ==> LastSetter(run).value < |m.tasks|
    ensures Next(m, Record(t)).client.ops == m.client.ops + [Entry(m.tasks[t].check, m.tasks[t].phase.op)]
       <==> || "[" <= m.tasks[t].phase.op
            || (LastSetter(run).Some? ==> m.tasks[LastSetter(run).value].check == m.tasks[t].check)
  {
    hide Text.Contains, Refusal, Leads, LastSetter, Entry;
    CheckOfLastSetter(c, n, run, m);
    var op, d := m.tasks[t].phase.op, m.client;
    EntryIsOwnIff(d.currentCheck, m.tasks[t].check, op);
    var e, f := Entry(d.currentCheck, op), Entry(m.tasks[t].check, op);
    assert (d.ops + [e])[|d.ops|] == e && (d.ops + [f])[|d.ops|] == f;
  }

  /** It does happen: a call of the first task is recorded under the check that the second has set meanwhile. */
  lemma TagCanBeForeign(reason: string, own: string, other: string, op: string)
    returns (run: seq<Step>, m: System)
    requires reason != "" && own != other && other != "" && !("[" <= op)
    ensures Leads(Steps, Fresh(Connected(false, reason, true), 2), run, m)
    ensures m.tasks[..1] == [Task(Calling(true), own)] && m.client.ops == ["[" + other + "] " + op]
  {
    hide Leads, Refusal, Entry;
    var s := Fresh(Connected(false, reason, true), 2);
    NoSteps(Steps, s);
    run, m := Take(s, [], s, SetCheck(0, own));
    run, m := Take(s, run, m, Enter(0, op, true, true));
    run, m := Take(s, run, m, SetCheck(1, other));
    run, m := Take(s, run, m, Record(0));
    EntryTagged(other, op);
  }

  lemma EntryTagged(check: string, op: string)
    requires check != "" && !("[" <= op)
    ensures Entry(check, op) == "[" + check + "] " + op
  {
  }

  // ---------- the client object's call ----------

  /** The end of a call: the test, and the two writes if it finds elevation unbroken. */
  lemma ReturnIsARun(s: System, run: seq<Step>, c: Client, check: string, inspects: bool, err: Option<string>)
    returns (longer: seq<Step>)
    requires Leads(Steps, s, run, System(c, [Task(Calling(inspects), check)]))
    ensures Leads(Steps, s, longer, System(if inspects then Inspected(c, err) else c, [Task(Idle, check)]))
  {
    hide Leads, Refusal;
    var t: System;
    longer, t := Take(s, run, System(c, [Task(Calling(inspects), check)]), Return(0, err));
    if t.tasks[0].phase.Refused? {
      longer, t := Take(s, longer, t, Break(0));
      longer, t := Take(s, longer, t, Name(0));
    }
    assert t.tasks == [Task(Idle, check)];
  }

  /** The complete call of the client object is a run of these steps by one task, with nobody in between. */
  lemma CallIsARun(c: Client, check: string, op: string, elevated: bool, err: Option<string>)
    returns (run: seq<Step>)
    ensures Leads(Steps, System(c, [Task(Idle, check)]), run,
                  System(Called(c, op, elevated, err), [Task(Idle, check)]))
  {
    hide Leads, Refusal, Inspected;
    var s := System(c, [Task(Idle, check)]);
    NoSteps(Steps, s);
    var t: System;
    run, t := Take(s, [], s, Enter(0, op, elevated, elevated));
    if t.tasks[0].phase.Permitted? {
      run, t := Take(s, run, t, Record(0));
    }
    var d := if elevated && MayElevate(c) then WithOp(c, op) else c;
    assert t == System(d, [Task(Calling(elevated), check)]);
    run := ReturnIsARun(s, run, d, check, elevated, err);
  }
}
