/** What the lifecycle manager promises about every run
    (internal/runtime/manager.go:128-318, internal/collector/runtime.go:62-97,
    internal/kafkapub/coordinator.go:81-85). */
module LifecycleSafety {
  import opened Points
  import opened Store
  import opened Lifecycle

  /** At most one goroutine is inside Run; it is the one in the entry, and the
      guard before the entry is cleared always holds. */
  lemma AtMostOneCollector(t: Tables, id: int, steps: seq<Step>)
    requires Consistent(t)
    ensures var s := Run(t, id, steps);
      && (forall q, r :: q in s.runners && r in s.runners && Unreturned(s.runners[q].stage) && Unreturned(s.runners[r].stage) ==> q == r)
      && (forall r :: r in s.runners && Unreturned(s.runners[r].stage) ==> s.runner == Some(r))
      && (forall r :: r in s.runners && s.runners[r].stage == Returned ==> s.runner == Some(r))
      && (s.runner.Some? ==> s.runner.value in s.runners && Attached(s.runners[s.runner.value].stage))
  {
    hide Run, Consistent, OpsOk, SoundConfig, LockOk;
    EveryRun(t, id, steps);
  }

  function LoadedVersion(s: State): int {
    if s.loaded.Some? then s.loaded.value.version else 0
  }

  /** Snapshot's flag, with its two reads adjacent. */
  predicate ConfigPending(s: State)
    requires s.id in s.tables.devices
  {
    LoadedVersion(s) != 0 && s.tables.devices[s.id].version != LoadedVersion(s)
  }

  ghost predicate Current(s: State, c: Config)
    requires s.id in s.tables.devices
  {
    c.connection == s.tables.devices[s.id].connection && c.points == PointsOf(s.tables, s.id)
  }

  /** The flag is down only when what was loaded is what is stored; it is up
      exactly when the stored version has moved past the loaded one. */
  lemma StalenessIsSound(t: Tables, id: int, steps: seq<Step>)
    requires Consistent(t) && id in Run(t, id, steps).tables.devices
    ensures var s := Run(t, id, steps);
      && s.id == id
      && (LoadedVersion(s) != 0 <==> s.loaded.Some?)
      && (s.loaded.Some? && !ConfigPending(s) ==> Current(s, s.loaded.value))
      && (ConfigPending(s) <==> s.loaded.Some? && s.tables.devices[id].version > LoadedVersion(s))
      && (s.runner.Some? ==> s.runner.value in s.runners && s.loaded == Some(s.runners[s.runner.value].config))
  {
    hide Run, Consistent, OpsOk, LockOk;
    EveryRun(t, id, steps);
    SameDevice(t, id, steps);
  }

  lemma {:induction false} SameDevice(t: Tables, id: int, steps: seq<Step>)
    ensures Run(t, id, steps).id == id
  {
    if steps == [] {
    } else {
      SameDevice(t, id, steps[..|steps| - 1]);
      StepSameDevice(Run(t, id, steps[..|steps| - 1]), steps[|steps| - 1]);
    }
  }

  lemma StepSameDevice(s: State, step: Step)
    ensures Do(s, step).id == s.id
  {
  }

  /** An operation for which stopLocked has returned nil and that still holds the
      lock. */
  predicate PastStop(op: Op) {
    || op.pc == Releasing(Stopped)
    || (op.kind == Restart && (op.pc.Checking? || op.pc.Loading? || op.pc.Installing?))
  }

  /** From the moment stopLocked returns nil until the lock is released, no
      runner is installed, every earlier Run has returned, and no change baseline
      is left for the next runner. */
  lemma HandOver(t: Tables, id: int, steps: seq<Step>, op: nat)
    requires Consistent(t) && op in Run(t, id, steps).ops && PastStop(Run(t, id, steps).ops[op])
    ensures var s := Run(t, id, steps);
      && s.holder == Some(op) && s.runner.None? && s.baseline.None?
      && forall r :: r in s.runners ==> !Attached(s.runners[r].stage)
  {
    hide Run, Consistent, SoundConfig, SoundDevice;
    EveryRun(t, id, steps);
    var s := Run(t, id, steps);
    OpSeen(s, op);
    LockSeen(s, op);
  }

  /** A change baseline always belongs to the installed runner, and where a
      runner is about to be installed there is none. */
  lemma BaselineStaysHome(t: Tables, id: int, steps: seq<Step>)
    requires Consistent(t)
    ensures var s := Run(t, id, steps);
      && (s.baseline.Some? ==> s.runner == s.baseline)
      && (forall op :: op in s.ops && s.ops[op].pc.Installing? ==> s.baseline.None? && s.runner.None?)
  {
    hide Run, Consistent, SoundConfig, LockOk;
    EveryRun(t, id, steps);
    var s := Run(t, id, steps);
    forall op | op in s.ops && s.ops[op].pc.Installing? ensures s.runner.None? {
      OpSeen(s, op);
    }
  }

  // ------------------------------------------------- calls seen from outside

  /** What a step never changes about an operation under way. */
  lemma StepSameCall(s: State, step: Step, op: nat)
    requires op in s.ops
    ensures op in Do(s, step).ops && Do(s, step).ops[op].(pc := s.ops[op].pc) == s.ops[op]
  {
    hide Continue, RunnerStep, After;
    match step
    case Advance(o, ok) => if o in s.ops { AdvanceSameCall(s, o, ok, op); }
    case Progress(r) => if r in s.runners { RunnerStepFrame(s, r); }
    case _ =>
  }

  lemma AdvanceSameCall(s: State, o: nat, ok: bool, op: nat)
    requires o in s.ops && op in s.ops
    ensures var s' := Continue(s, o, ok);
      op in s'.ops && s'.ops[op].(pc := s.ops[op].pc) == s.ops[op]
  {
    hide PointsOf, Execute, After;
  }

  lemma {:induction false} SameCall(t: Tables, id: int, before: seq<Step>, after: seq<Step>, op: nat)
    requires op in Run(t, id, before).ops
    ensures var o, s := Run(t, id, before).ops[op], Run(t, id, before + after);
      op in s.ops && s.ops[op].(pc := o.pc) == o
  {
    hide Run, Do;
    var n := |after| - 1;
    if after == [] {
      assert before + after == before;
    } else {
      SameCall(t, id, before, after[..n], op);
      assert before + after == (before + after[..n]) + [after[n]];
      RunPlus(t, id, before + after[..n], after[n]);
      StepSameCall(Run(t, id, before + after[..n]), after[n], op);
    }
  }

  lemma RunPlus(t: Tables, id: int, steps: seq<Step>, step: Step)
    ensures Run(t, id, steps + [step]) == Do(Run(t, id, steps), step)
  {
    assert (steps + [step])[..|steps|] == steps;
  }

  lemma ResultSeen(t: Tables, id: int, steps: seq<Step>, op: nat)
    requires Consistent(t) && op in Run(t, id, steps).ops && Run(t, id, steps).ops[op].pc.Ended?
    ensures var s := Run(t, id, steps); ResultOk(s, s.ops[op], s.ops[op].pc.result)
  {
    hide Run, Consistent, SoundConfig, LockOk, ResultOk;
    EveryRun(t, id, steps);
    OpSeen(Run(t, id, steps), op);
  }

  lemma RunnersNumbered(t: Tables, id: int, steps: seq<Step>, r: nat)
    requires Consistent(t) && r in Run(t, id, steps).runners
    ensures r < Run(t, id, steps).nextRunner
  {
    hide Run, Consistent, SoundConfig, LockOk;
    EveryRun(t, id, steps);
  }

  /** A Start, Restart or StartEnabled that launched a runner launched a new one,
      whose version is at least the one stored at the call (what it read and when
      is in LifecycleReads); a Restart that succeeds does launch one. */
  lemma LaunchTakesEarlierEdits(t: Tables, id: int, before: seq<Step>, after: seq<Step>, op: nat, kind: Kind)
    requires Consistent(t) && op !in Run(t, id, before).ops
    ensures var s0, s := Run(t, id, before), Run(t, id, before + [Call(op, kind)] + after);
      && op in s.ops && s.ops[op].kind == kind
      && (s.ops[op].pc.Ended? ==>
            var result := s.ops[op].pc.result;
            && (kind == Restart ==> result.Busy? || result.Aborted? || result.Launched?)
            && (result.Launched? ==>
                  && result.runner !in s0.runners && result.runner in s.runners
                  && s.runners[result.runner].config.version >= StoredVersion(s0.tables, id)))
  {
    var s0, s := Run(t, id, before), Run(t, id, before + [Call(op, kind)] + after);
    RunPlus(t, id, before, Call(op, kind));
    SameDevice(t, id, before);
    CalledAs(s0, op, kind);
    SameCall(t, id, before + [Call(op, kind)], after, op);
    if s.ops[op].pc.Ended? {
      ResultSeen(t, id, before + [Call(op, kind)] + after, op);
      var result := s.ops[op].pc.result;
      if result.Launched? && result.runner in s0.runners {
        RunnersNumbered(t, id, before, result.runner);
      }
    }
  }

  lemma CalledAs(s: State, op: nat, kind: Kind)
    requires op !in s.ops
    ensures var s' := Do(s, Call(op, kind));
      op in s'.ops && s'.ops[op].(pc := Enabling) == Op(kind, StoredVersion(s.tables, s.id), s.nextRunner, Enabling)
  {
  }

  /** While nothing is edited after the call, the launched runner works with
      exactly the stored configuration and no change is reported as pending. */
  lemma RestartIsCurrent(t: Tables, id: int, before: seq<Step>, after: seq<Step>, op: nat, kind: Kind, r: nat)
    requires Consistent(t) && op !in Run(t, id, before).ops
    requires var s0, s := Run(t, id, before), Run(t, id, before + [Call(op, kind)] + after);
      && op in s.ops && s.ops[op].pc == Ended(Launched(r)) && s.runner == Some(r)
      && id in s.tables.devices && s.tables.devices[id].version == StoredVersion(s0.tables, id)
    ensures var s := Run(t, id, before + [Call(op, kind)] + after);
      s.id == id && r in s.runners && Current(s, s.runners[r].config) && !ConfigPending(s)
  {
    hide Run, Consistent;
    LaunchTakesEarlierEdits(t, id, before, after, op, kind);
    StalenessIsSound(t, id, before + [Call(op, kind)] + after);
  }

  // ------------------------------------------------- nobody waits for ever

  function Progressed(s: State, r: nat, n: nat): State {
    if n == 0 then s else Do(Progressed(s, r, n - 1), Progress(r))
  }

  function Rank(stage: Stage): nat {
    match stage case Collecting => 4 case Leaving => 3 case Returned => 2 case Detached => 1 case Closed => 0
  }

  lemma {:induction false} CancelledRunnerCloses(s: State, r: nat, n: nat)
    requires r in s.runners && r in s.cancelled && n >= Rank(s.runners[r].stage)
    ensures var s' := Progressed(s, r, n); r in s'.runners && s'.runners[r].stage == Closed && s'.ops == s.ops
  {
    Descends(s, r, n);
  }

  lemma {:induction false} Descends(s: State, r: nat, n: nat)
    requires r in s.runners && r in s.cancelled
    ensures var s' := Progressed(s, r, n);
      && r in s'.runners && s'.ops == s.ops && s'.cancelled == s.cancelled
      && Rank(s'.runners[r].stage) <= if Rank(s.runners[r].stage) >= n then Rank(s.runners[r].stage) - n else 0
  {
    if n == 0 {
    } else {
      Descends(s, r, n - 1);
    }
  }

  /** A stop that waits is waiting for a cancelled runner, which needs at most
      four steps of its own to let it through; the entry is then empty. */
  lemma StopGetsThrough(t: Tables, id: int, steps: seq<Step>, op: nat)
    requires Consistent(t) && op in Run(t, id, steps).ops && Run(t, id, steps).ops[op].pc.Awaiting?
    ensures var s := Run(t, id, steps);
      var pc := s.ops[op].pc;
      var s' := Do(Progressed(s, pc.runner, 4), Advance(op, true));
      && op in s'.ops
      && s'.ops[op].pc ==
         if !pc.closed then Releasing(Aborted) else if pc.next.None? then Releasing(Stopped) else Checking(pc.next.value)
  {
    hide Run, Consistent, SoundConfig, LockOk, SoundNext;
    EveryRun(t, id, steps);
    var s := Run(t, id, steps);
    OpSeen(s, op);
    CancelledRunnerCloses(s, s.ops[op].pc.runner, 4);
  }
}
