/** Every lifecycle call that succeeds in each of its steps, with nobody else
    moving but the runner it waits for, does what it is for: from any reachable
    state with a free lock (internal/runtime/manager.go:128-296). */
module LifecycleCompletion {
  import opened Points
  import opened Store
  import opened Lifecycle
  import opened LifecycleSafety

  /** n steps of the operation, all successful. */
  function Advanced(s: State, op: nat, n: nat): State {
    if n == 0 then s else Do(Advanced(s, op, n - 1), Advance(op, true))
  }

  /** The runner found installed, if any, takes its four steps. */
  function RunnerMoves(s: State, r: Option<nat>): State {
    if r.Some? then Progressed(s, r.value, 4) else s
  }

  /** The whole call: its own steps up to where it may wait for the runner, the
      steps of the runner, and the rest of its own. A step too many does nothing. */
  function Completed(s: State, op: nat, kind: Kind): State {
    Advanced(RunnerMoves(Advanced(Do(s, Call(op, kind)), op, 4), s.runner), op, 6)
  }

  /** What the call is for. */
  function Answer(s: State, kind: Kind): Result {
    match kind
    case Stop => Stopped
    case StopAll => Stopped
    case Restart => Launched(s.nextRunner)
    case _ => if s.runner.Some? then AlreadyRunning else Launched(s.nextRunner)
  }

  function FlagAfter(s: State, kind: Kind): bool
    requires s.id in s.tables.devices
  {
    if kind == Start || kind == Restart then true else if kind == Stop then false else s.tables.devices[s.id].enabled
  }

  /** The stored configuration. */
  function Stored(s: State): Config
    requires s.id in s.tables.devices
  {
    Config(s.tables.devices[s.id].version, s.tables.devices[s.id].connection, PointsOf(s.tables, s.id))
  }

  predicate Startable(s: State, kind: Kind) {
    && s.id in s.tables.devices
    && (kind == StartEnabled ==> s.tables.devices[s.id].enabled)
    && (kind != Stop && kind != StopAll ==> PointsOf(s.tables, s.id) != map[])
  }

  // ------------------------------------------------- one region after another

  /** The tables once the flag has been written. */
  function Written(s0: State, kind: Kind): Tables
    requires s0.id in s0.tables.devices
  {
    s0.tables.(devices := s0.tables.devices[s0.id := s0.tables.devices[s0.id].(enabled := FlagAfter(s0, kind))])
  }

  lemma WrittenConfig(s0: State, kind: Kind)
    requires s0.id in s0.tables.devices
    ensures var t := Written(s0, kind);
      && s0.id in t.devices && t.devices[s0.id] == s0.tables.devices[s0.id].(enabled := FlagAfter(s0, kind))
      && PointsOf(t, s0.id) == PointsOf(s0.tables, s0.id)
    ensures kind == StartEnabled || kind == StopAll ==> Written(s0, kind) == s0.tables
  {
    SameRowsSamePoints(s0.tables, Written(s0, kind), s0.id);
  }

  /** Only this operation, the lock and the flag have moved since s0. */
  ghost predicate At(s0: State, s: State, op: nat, kind: Kind, pc: Pc) {
    && s0.id in s0.tables.devices && op in s.ops && s.ops[op].kind == kind && s.ops[op].pc == pc
    && s == s0.(ops := s.ops, holder := Some(op), tables := Written(s0, kind))
  }

  /** The device row the operation has read. */
  function Row(s0: State, kind: Kind): Device
    requires s0.id in s0.tables.devices
  {
    Written(s0, kind).devices[s0.id]
  }

  /** Where the operation is when it has the row and the lock. */
  function First(s0: State, kind: Kind): Pc
    requires s0.id in s0.tables.devices
  {
    match kind
    case Stop => Halting(None)
    case StopAll => Halting(None)
    case Restart => Halting(Some(Row(s0, kind)))
    case _ => Checking(Row(s0, kind))
  }

  lemma Opening(s0: State, op: nat, kind: Kind)
    requires op !in s0.ops && s0.holder.None? && Startable(s0, kind) && (kind == StartEnabled || kind == StopAll)
    ensures At(s0, Advanced(Do(s0, Call(op, kind)), op, 1), op, kind, First(s0, kind))
  {
    hide PointsOf;
    WrittenConfig(s0, kind);
    var s1 := Do(s0, Call(op, kind));
    assert Advanced(s1, op, 0) == s1;
  }

  lemma Enabled(s0: State, op: nat, kind: Kind)
    requires op !in s0.ops && s0.holder.None? && Startable(s0, kind) && kind != StartEnabled && kind != StopAll
    ensures At(s0, Advanced(Do(s0, Call(op, kind)), op, 1), op, kind, Fetching)
  {
    hide PointsOf;
    var s1 := Do(s0, Call(op, kind));
    assert Advanced(s1, op, 0) == s1;
    assert s1.tables == s0.tables;
  }

  lemma Read(s0: State, s: State, op: nat, kind: Kind)
    requires At(s0, s, op, kind, Fetching) && kind != StartEnabled && kind != StopAll
    ensures At(s0, Do(s, Advance(op, true)), op, kind, First(s0, kind))
  {
    hide PointsOf;
  }

  // ------------------------------------------------- the stopping half

  /** The runner is cancelled and nothing else has moved. */
  ghost predicate AwaitingAt(s0: State, s: State, op: nat, kind: Kind, next: Option<Device>) {
    && s0.id in s0.tables.devices && op in s.ops && s.ops[op].kind == kind && s0.runner.Some?
    && s.ops[op].pc == Awaiting(s0.runner.value, next, true)
    && s == s0.(ops := s.ops, holder := Some(op), tables := Written(s0, kind), cancelled := s0.cancelled + {s0.runner.value})
  }

  lemma Halts(s0: State, s: State, op: nat, kind: Kind, next: Option<Device>)
    requires At(s0, s, op, kind, Halting(next)) && s0.runner.Some?
    ensures At(s0, Do(s, Advance(op, true)), op, kind, Cancelling(s0.runner.value, next))
    ensures AwaitingAt(s0, Do(Do(s, Advance(op, true)), Advance(op, true)), op, kind, next)
  {
    hide PointsOf, Written;
  }

  lemma WaitsOn(s0: State, s: State, op: nat, kind: Kind, next: Option<Device>)
    requires AwaitingAt(s0, s, op, kind, next) && RunnersOk(s0)
    ensures Do(s, Advance(op, true)) == s
  {
    hide PointsOf, Written;
  }

  /** The operation is about to start a runner, or done: no runner is installed. */
  ghost predicate Stood(s0: State, s: State, op: nat, kind: Kind, pc: Pc) {
    && s0.id in s0.tables.devices && op in s.ops && s.ops[op].kind == kind && s.ops[op].pc == pc
    && s.id == s0.id && s.holder == Some(op) && s.tables == Written(s0, kind) && s.nextRunner == s0.nextRunner
    && s.runner.None? && (forall r :: r in s.runners ==> !Attached(s.runners[r].stage))
  }

  function AfterStop(next: Option<Device>): Pc {
    match next case None => Releasing(Stopped) case Some(device) => Checking(device)
  }

  lemma StandsStill(s0: State, s: State, op: nat, kind: Kind, next: Option<Device>)
    requires At(s0, s, op, kind, Halting(next)) && s0.runner.None? && RunnersOk(s0)
    ensures Stood(s0, Do(s, Advance(op, true)), op, kind, AfterStop(next))
  {
    hide PointsOf, Written;
  }

  lemma {:induction false} RunnerFrame(s: State, r: nat, n: nat)
    ensures var s' := Progressed(s, r, n);
      && s'.ops == s.ops && s'.tables == s.tables && s'.id == s.id && s'.holder == s.holder && s'.nextRunner == s.nextRunner
      && s'.cancelled == s.cancelled && s'.loaded == s.loaded && s'.runners.Keys == s.runners.Keys
      && (s'.runner == s.runner || (s'.runner.None? && s.runner == Some(r)))
      && forall q :: q in s.runners && q != r ==> s'.runners[q] == s.runners[q]
  {
    if n == 0 {
    } else {
      hide RunnerStep;
      RunnerFrame(s, r, n - 1);
      var s' := Progressed(s, r, n - 1);
      if r in s'.runners { OwnRunnerStep(s', r); }
    }
  }

  lemma OwnRunnerStep(s: State, r: nat)
    requires r in s.runners
    ensures var s' := RunnerStep(s, r);
      && s'.(runners := s.runners, runner := s.runner, baseline := s.baseline) == s
      && s'.runners.Keys == s.runners.Keys
      && (s'.runner == s.runner || (s'.runner.None? && s.runner == Some(r)))
      && forall q :: q in s.runners && q != r ==> s'.runners[q] == s.runners[q]
  {
  }

  lemma {:induction false} ProgressKeeps(s: State, r: nat, n: nat)
    requires RunnersOk(s)
    ensures RunnersOk(Progressed(s, r, n))
  {
    if n == 0 {
    } else {
      hide RunnersOk, RunnerStep;
      ProgressKeeps(s, r, n - 1);
      var s' := Progressed(s, r, n - 1);
      if r in s'.runners { RunnerStepRunners(s', r); }
    }
  }

  lemma LetsThrough(s0: State, s: State, op: nat, kind: Kind, next: Option<Device>)
    requires AwaitingAt(s0, s, op, kind, next) && RunnersOk(s0)
    ensures Stood(s0, Do(Progressed(s, s0.runner.value, 4), Advance(op, true)), op, kind, AfterStop(next))
  {
    hide PointsOf, Written, Progressed;
    var r := s0.runner.value;
    CancelledRunnerCloses(s, r, 4);
    RunnerFrame(s, r, 4);
    ProgressKeeps(s, r, 4);
  }

  // ------------------------------------------------- the starting half

  /** The end: a new runner with the stored configuration, the installed one, or
      none. */
  ghost predicate Done(s0: State, s: State, op: nat, kind: Kind) {
    && s0.id in s0.tables.devices && op in s.ops && s.ops[op].kind == kind && s.ops[op].pc == Ended(Answer(s0, kind))
    && s.id == s0.id && s.holder.None? && s.tables == Written(s0, kind)
    && (Answer(s0, kind).Launched? ==>
          && s.runner == Some(s0.nextRunner) && s.loaded == Some(Stored(s0)) && s0.nextRunner in s.runners
          && s.runners[s0.nextRunner] == Runner(Collecting, Stored(s0)))
    && (Answer(s0, kind) == Stopped ==> s.runner.None? && forall r :: r in s.runners ==> !Attached(s.runners[r].stage))
  }

  lemma Starts(s0: State, s: State, op: nat, kind: Kind)
    requires Startable(s0, kind) && Stood(s0, s, op, kind, Checking(Row(s0, kind)))
    requires Answer(s0, kind) == Launched(s0.nextRunner)
    ensures Done(s0, Advanced(s, op, 4), op, kind)
  {
    WrittenConfig(s0, kind);
    hide Written, PointsOf;
    var s1 := Do(s, Advance(op, true));
    assert Advanced(s, op, 0) == s && Advanced(s, op, 1) == s1;
    assert s1.ops[op].pc == Loading(Row(s0, kind));
    var s2 := Do(s1, Advance(op, true));
    assert Advanced(s, op, 2) == s2;
    assert s2.ops[op].pc == Installing(Stored(s0));
    var s3 := Do(s2, Advance(op, true));
    assert Advanced(s, op, 3) == s3;
  }

  lemma Stops(s0: State, s: State, op: nat, kind: Kind)
    requires Stood(s0, s, op, kind, Releasing(Stopped)) && Answer(s0, kind) == Stopped
    ensures Done(s0, Do(s, Advance(op, true)), op, kind)
  {
    hide Written, PointsOf;
  }

  lemma FindsRunner(s0: State, s: State, op: nat, kind: Kind)
    requires Startable(s0, kind) && At(s0, s, op, kind, Checking(Row(s0, kind))) && Answer(s0, kind) == AlreadyRunning
    ensures Done(s0, Advanced(s, op, 2), op, kind)
  {
    hide Written, PointsOf;
    assert Advanced(s, op, 0) == s && Advanced(s, op, 1) == Do(s, Advance(op, true));
  }

  lemma {:induction false} EndedStays(s: State, op: nat, n: nat)
    requires op in s.ops && s.ops[op].pc.Ended?
    ensures Advanced(s, op, n) == s
  {
    if n == 0 {
    } else {
      EndedStays(s, op, n - 1);
    }
  }

  lemma {:induction false} AdvancedMore(s: State, op: nat, m: nat, n: nat)
    ensures Advanced(s, op, m + n) == Advanced(Advanced(s, op, m), op, n)
    decreases n
  {
    if n == 0 {
    } else {
      AdvancedMore(s, op, m, n - 1);
    }
  }

  // ------------------------------------------------- the whole call

  lemma DoneMore(s0: State, x: State, op: nat, kind: Kind, j: nat, n: nat)
    requires Done(s0, Advanced(x, op, j), op, kind) && j <= n
    ensures Done(s0, Advanced(x, op, n), op, kind)
  {
    hide Done, Advanced;
    DoneEnded(s0, Advanced(x, op, j), op, kind);
    AdvancedMore(x, op, j, n - j);
    EndedStays(Advanced(x, op, j), op, n - j);
  }

  lemma DoneEnded(s0: State, s: State, op: nat, kind: Kind)
    requires Done(s0, s, op, kind)
    ensures op in s.ops && s.ops[op].pc.Ended?
  {
  }

  lemma TwoAdvances(x: State, op: nat)
    ensures Advanced(x, op, 1) == Do(x, Advance(op, true))
    ensures Advanced(x, op, 2) == Do(Do(x, Advance(op, true)), Advance(op, true))
  {
    assert Advanced(x, op, 0) == x;
    assert Advanced(x, op, 1) == Do(Advanced(x, op, 0), Advance(op, true));
  }

  lemma ReachesFirst(s0: State, op: nat, kind: Kind) returns (k: nat)
    requires op !in s0.ops && s0.holder.None? && Startable(s0, kind)
    ensures 1 <= k <= 2 && At(s0, Advanced(Do(s0, Call(op, kind)), op, k), op, kind, First(s0, kind))
  {
    hide Do, At, First;
    if kind == StartEnabled || kind == StopAll {
      Opening(s0, op, kind);
      k := 1;
    } else {
      Enabled(s0, op, kind);
      Read(s0, Advanced(Do(s0, Call(op, kind)), op, 1), op, kind);
      k := 2;
    }
  }

  lemma AtStood(s0: State, s: State, op: nat, kind: Kind, pc: Pc)
    requires At(s0, s, op, kind, pc) && s0.runner.None? && RunnersOk(s0)
    ensures Stood(s0, s, op, kind, pc)
  {
    hide Written;
  }

  /** From where no runner is left to the end. */
  lemma Finishes(s0: State, s: State, op: nat, kind: Kind, next: Option<Device>)
    requires Startable(s0, kind) && Stood(s0, s, op, kind, AfterStop(next))
    requires First(s0, kind) == Halting(next)
    ensures Done(s0, Advanced(s, op, 4), op, kind)
  {
    hide Do, Stood, Done, Startable, Written;
    if next.None? {
      Stops(s0, s, op, kind);
      TwoAdvances(s, op);
      DoneMore(s0, s, op, kind, 1, 4);
    } else {
      Starts(s0, s, op, kind);
    }
  }

  lemma CompletesIdle(s0: State, op: nat, kind: Kind)
    requires op !in s0.ops && s0.holder.None? && Startable(s0, kind) && s0.runner.None? && RunnersOk(s0)
    ensures Done(s0, Completed(s0, op, kind), op, kind)
  {
    hide Do, At, Stood, Done, RunnersOk, Startable, Written;
    StartableSeen(s0, kind);
    var c := Do(s0, Call(op, kind));
    var k := ReachesFirst(s0, op, kind);
    var x := Advanced(c, op, k);
    if kind == Start || kind == StartEnabled {
      AtStood(s0, x, op, kind, First(s0, kind));
      Starts(s0, x, op, kind);
      AdvancedMore(c, op, k, 4);
      DoneMore(s0, c, op, kind, k + 4, 10);
    } else {
      var next := First(s0, kind).next;
      StandsStill(s0, x, op, kind, next);
      TwoAdvances(x, op);
      Finishes(s0, Do(x, Advance(op, true)), op, kind, next);
      AdvancedMore(x, op, 1, 4);
      AdvancedMore(c, op, k, 5);
      DoneMore(s0, c, op, kind, k + 5, 10);
    }
    AdvancedMore(c, op, 4, 6);
  }

  lemma RunnerLeavesDone(s0: State, s: State, op: nat, kind: Kind, r: nat)
    requires Done(s0, s, op, kind) && Answer(s0, kind) == AlreadyRunning
    ensures Done(s0, Progressed(s, r, 4), op, kind)
  {
    hide Written, Progressed;
    RunnerFrame(s, r, 4);
  }

  lemma ReachesAwaiting(s0: State, op: nat, kind: Kind, next: Option<Device>)
    requires op !in s0.ops && s0.holder.None? && Startable(s0, kind) && s0.runner.Some? && RunnersOk(s0)
    requires First(s0, kind) == Halting(next)
    ensures AwaitingAt(s0, Advanced(Do(s0, Call(op, kind)), op, 4), op, kind, next)
  {
    hide Do, At, AwaitingAt, RunnersOk, Startable, Written, First;
    StartableSeen(s0, kind);
    var c := Do(s0, Call(op, kind));
    var k := ReachesFirst(s0, op, kind);
    var x := Advanced(c, op, k);
    Halts(s0, x, op, kind, next);
    TwoAdvances(x, op);
    AdvancedMore(c, op, k, 2);
    if k == 1 {
      WaitsOn(s0, Advanced(c, op, 3), op, kind, next);
    }
  }

  lemma CompletesRunning(s0: State, op: nat, kind: Kind)
    requires op !in s0.ops && s0.holder.None? && Startable(s0, kind) && s0.runner.Some? && RunnersOk(s0)
    ensures Done(s0, Completed(s0, op, kind), op, kind)
  {
    hide Do, At, AwaitingAt, Stood, Done, RunnersOk, Startable, Written, Progressed;
    StartableSeen(s0, kind);
    var c, r := Do(s0, Call(op, kind)), s0.runner.value;
    if kind == Start || kind == StartEnabled {
      var k := ReachesFirst(s0, op, kind);
      FindsRunner(s0, Advanced(c, op, k), op, kind);
      AdvancedMore(c, op, k, 2);
      DoneMore(s0, c, op, kind, k + 2, 4);
      RunnerLeavesDone(s0, Advanced(c, op, 4), op, kind, r);
      NoAdvance(Progressed(Advanced(c, op, 4), r, 4), op);
      DoneMore(s0, Progressed(Advanced(c, op, 4), r, 4), op, kind, 0, 6);
    } else {
      var next := First(s0, kind).next;
      ReachesAwaiting(s0, op, kind, next);
      var p := Progressed(Advanced(c, op, 4), r, 4);
      LetsThrough(s0, Advanced(c, op, 4), op, kind, next);
      TwoAdvances(p, op);
      Finishes(s0, Do(p, Advance(op, true)), op, kind, next);
      AdvancedMore(p, op, 1, 4);
      DoneMore(s0, p, op, kind, 5, 6);
    }
  }

  lemma NoAdvance(s: State, op: nat)
    ensures Advanced(s, op, 0) == s
  {
  }

  /** From every reachable state with a free lock, a call whose steps succeed ends
      with its purpose: Restart with a new runner working with the stored
      configuration, whether one was installed or not; Start and StartEnabled with
      a new runner, unless one is installed; Stop and StopAll with none installed
      and every Run returned. The flag is stored as the call says, the rest of the
      configuration as it was, and the lock is free again. */
  lemma CallsComplete(t: Tables, id: int, steps: seq<Step>, op: nat, kind: Kind)
    requires Consistent(t)
    requires var s := Run(t, id, steps); op !in s.ops && s.holder.None? && Startable(s, kind)
    ensures var s := Run(t, id, steps);
      var s' := Completed(s, op, kind);
      && s.nextRunner !in s.runners && op in s'.ops && s'.ops[op].pc == Ended(Answer(s, kind)) && s'.holder.None?
      && (Answer(s, kind).Launched? ==>
            s'.runner == Some(s.nextRunner) && s.nextRunner in s'.runners
            && s'.runners[s.nextRunner] == Runner(Collecting, Stored(s)) && s'.loaded == Some(Stored(s)))
      && (Answer(s, kind) == Stopped ==> s'.runner.None? && forall r :: r in s'.runners ==> !Attached(s'.runners[r].stage))
      && s.id == s'.id == id && id in s'.tables.devices && Stored(s') == Stored(s)
      && s'.tables.devices[id].enabled == FlagAfter(s, kind)
  {
    hide Run, Consistent, OpsOk, LockOk, SoundConfig, Completed, Startable, Written;
    EveryRun(t, id, steps);
    SameDevice(t, id, steps);
    var s := Run(t, id, steps);
    StartableSeen(s, kind);
    if s.runner.None? { CompletesIdle(s, op, kind); } else { CompletesRunning(s, op, kind); }
    WrittenConfig(s, kind);
  }

  lemma StartableSeen(s: State, kind: Kind)
    requires Startable(s, kind)
    ensures s.id in s.tables.devices
  {
  }
}
