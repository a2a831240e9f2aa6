/** How lifecycle calls end: why one is aborted, busy or skipped in any run, what
    becomes of the stored flag, and that every call nobody disturbs does what it is
    for (internal/runtime/manager.go:128-296). */
module LifecycleOutcome {
  import opened Points
  import opened Store
  import opened Lifecycle
  import opened LifecycleSafety
  import LifecycleReads

  // ------------------------------------------------- why a call is aborted

  predicate Interactive(kind: Kind) { kind == Start || kind == Stop || kind == Restart }

  /** Step n after the call is a step of this operation in which something fails:
      a store error, a failed Close, an expired context or a factory error (`ok`
      is false), a device that is not stored when it is enabled or read, or no
      points when they are loaded. */
  ghost predicate Fails(t: Tables, id: int, base: seq<Step>, after: seq<Step>, n: nat, op: nat)
    requires n < |after|
  {
    var s := Run(t, id, base + after[..n]);
    && after[n].Advance? && after[n].op == op && op in s.ops
    && (!after[n].ok || FailsIn(s, s.ops[op].pc))
  }

  ghost predicate FailsIn(s: State, pc: Pc) {
    || ((pc.Enabling? || pc.Fetching?) && s.id !in s.tables.devices)
    || (pc.Loading? && PointsOf(s.tables, s.id) == map[])
  }

  ghost predicate Failed(t: Tables, id: int, base: seq<Step>, after: seq<Step>, n: nat, op: nat)
    requires n <= |after|
  {
    exists m :: 0 <= m < n && Fails(t, id, base, after, m, op)
  }

  /** The operation is aborted or will be. */
  predicate Doomed(pc: Pc) {
    || pc == Releasing(Aborted) || pc == Ended(Aborted)
    || (pc.Awaiting? && !pc.closed)
    || (pc.Installing? && pc.config.points == map[])
  }

  lemma OwnStepDoomed(s: State, op: nat, ok: bool)
    requires op in s.ops
    ensures var s' := Continue(s, op, ok);
      op in s'.ops && (Doomed(s'.ops[op].pc) ==> Doomed(s.ops[op].pc) || !ok || FailsIn(s, s.ops[op].pc))
  {
    hide PointsOf, After;
  }

  // ------------------------------------------------- the stored flag

  /** The device was stored with this flag after some of the first n steps. */
  ghost predicate FlagSeen(t: Tables, id: int, base: seq<Step>, after: seq<Step>, n: nat, up: bool)
    requires n <= |after|
  {
    exists m :: 0 <= m <= n && FlagAt(t, id, base + after[..m], up)
  }

  ghost predicate FlagAt(t: Tables, id: int, steps: seq<Step>, up: bool) {
    var devices := Run(t, id, steps).tables.devices;
    id in devices && devices[id].enabled == up
  }

  /** An interactive operation that has got past writing the flag. */
  predicate PastEnabling(pc: Pc) {
    !pc.Enabling? && pc != Releasing(Aborted) && pc != Ended(Aborted) && pc != Ended(Busy)
  }

  lemma OwnStepFlag(s: State, op: nat, ok: bool)
    requires op in s.ops
    ensures var s' := Continue(s, op, ok);
      && op in s'.ops
      && (PastEnabling(s'.ops[op].pc) ==>
            || PastEnabling(s.ops[op].pc)
            || (s.id in s'.tables.devices && s'.tables.devices[s.id].enabled == (s.ops[op].kind != Stop)))
  {
    hide PointsOf;
  }

  // ------------------------------------------------- over whole runs

  ghost predicate Told(t: Tables, id: int, base: seq<Step>, after: seq<Step>, n: nat, op: nat, kind: Kind, pc: Pc)
    requires n <= |after|
  {
    && (Doomed(pc) ==> Failed(t, id, base, after, n, op))
    && (Interactive(kind) && PastEnabling(pc) ==> FlagSeen(t, id, base, after, n, kind != Stop))
  }

  lemma ToldLater(t: Tables, id: int, base: seq<Step>, after: seq<Step>, n: nat, op: nat, kind: Kind, pc: Pc)
    requires n < |after| && Told(t, id, base, after, n, op, kind, pc)
    ensures Told(t, id, base, after, n + 1, op, kind, pc)
  {
    hide Fails, FlagAt;
    if Doomed(pc) { var m :| 0 <= m < n && Fails(t, id, base, after, m, op); }
    if Interactive(kind) && PastEnabling(pc) { var m :| 0 <= m <= n && FlagAt(t, id, base + after[..m], kind != Stop); }
  }

  lemma OwnStepTold(t: Tables, id: int, base: seq<Step>, after: seq<Step>, n: nat, op: nat, kind: Kind)
    requires n < |after| && after[n].Advance? && after[n].op == op
    requires var s := Run(t, id, base + after[..n]);
      s.id == id && op in s.ops && s.ops[op].kind == kind && Told(t, id, base, after, n, op, kind, s.ops[op].pc)
    requires Run(t, id, base + after[..n + 1]) == Continue(Run(t, id, base + after[..n]), op, after[n].ok)
    ensures var s' := Run(t, id, base + after[..n + 1]);
      op in s'.ops && Told(t, id, base, after, n + 1, op, kind, s'.ops[op].pc)
  {
    hide Run, Continue, FailsIn, Doomed, PastEnabling;
    var s, s' := Run(t, id, base + after[..n]), Run(t, id, base + after[..n + 1]);
    OwnStepDoomed(s, op, after[n].ok);
    OwnStepFlag(s, op, after[n].ok);
    ToldLater(t, id, base, after, n, op, kind, s.ops[op].pc);
    if Doomed(s'.ops[op].pc) && !Doomed(s.ops[op].pc) {
      assert Fails(t, id, base, after, n, op);
    }
    if Interactive(kind) && PastEnabling(s'.ops[op].pc) && !PastEnabling(s.ops[op].pc) {
      assert FlagAt(t, id, base + after[..n + 1], kind != Stop);
    }
  }

  lemma {:induction false} CallTold(t: Tables, id: int, before: seq<Step>, after: seq<Step>, n: nat, op: nat, kind: Kind)
    requires op !in Run(t, id, before).ops && n <= |after|
    ensures var base := before + [Call(op, kind)];
      var s := Run(t, id, base + after[..n]);
      s.id == id && op in s.ops && s.ops[op].kind == kind && Told(t, id, base, after, n, op, kind, s.ops[op].pc)
    decreases n
  {
    hide Run, Do, Told;
    var base := before + [Call(op, kind)];
    SameDevice(t, id, base + after[..n]);
    if n == 0 {
      assert base + after[..0] == base;
      RunPlus(t, id, before, Call(op, kind));
      CalledTold(t, id, base, after, Run(t, id, before), op, kind);
    } else {
      CallTold(t, id, before, after, n - 1, op, kind);
      var s := Run(t, id, base + after[..n - 1]);
      assert base + after[..n] == (base + after[..n - 1]) + [after[n - 1]];
      RunPlus(t, id, base + after[..n - 1], after[n - 1]);
      StepSameCall(s, after[n - 1], op);
      if after[n - 1].Advance? && after[n - 1].op == op {
        LifecycleReads.AdvanceIs(s, op, after[n - 1].ok);
        OwnStepTold(t, id, base, after, n - 1, op, kind);
      } else {
        LifecycleReads.OtherStep(s, after[n - 1], op);
        ToldLater(t, id, base, after, n - 1, op, kind, s.ops[op].pc);
      }
    }
  }

  lemma CalledTold(t: Tables, id: int, base: seq<Step>, after: seq<Step>, s: State, op: nat, kind: Kind)
    requires op !in s.ops
    ensures var s' := Do(s, Call(op, kind));
      op in s'.ops && s'.ops[op].kind == kind && Told(t, id, base, after, 0, op, kind, s'.ops[op].pc)
  {
  }

  /** A call ends aborted only if something failed in one of its own steps. */
  lemma AbortedForAReason(t: Tables, id: int, before: seq<Step>, after: seq<Step>, op: nat, kind: Kind)
    requires op !in Run(t, id, before).ops
    ensures var base := before + [Call(op, kind)];
      var s := Run(t, id, base + after);
      && op in s.ops
      && (s.ops[op].pc == Ended(Aborted) ==> exists n :: 0 <= n < |after| && Fails(t, id, base, after, n, op))
  {
    hide Run, Fails;
    assert after[..|after|] == after;
    CallTold(t, id, before, after, |after|, op, kind);
  }

  /** A Start or Restart that is neither refused nor aborted has stored the flag
      up, and a Stop has stored it down, at some moment after the call. */
  lemma FlagIsStored(t: Tables, id: int, before: seq<Step>, after: seq<Step>, op: nat, kind: Kind)
    requires op !in Run(t, id, before).ops && Interactive(kind)
    ensures var base := before + [Call(op, kind)];
      var s := Run(t, id, base + after);
      && op in s.ops
      && (s.ops[op].pc.Ended? && s.ops[op].pc.result != Busy && s.ops[op].pc.result != Aborted ==>
            exists m :: 0 <= m <= |after| && FlagAt(t, id, base + after[..m], kind != Stop))
  {
    hide Run, FlagAt;
    assert after[..|after|] == after;
    CallTold(t, id, before, after, |after|, op, kind);
  }

  // ------------------------------------------------- immediate answers

  predicate Answer(result: Result) { result == Busy || result == Skipped }

  lemma StepKeepsAnswer(s: State, step: Step, op: nat)
    requires op in s.ops
    ensures op in Do(s, step).ops
    ensures var pc, pc' := s.ops[op].pc, Do(s, step).ops[op].pc;
      && (pc.Ended? && Answer(pc.result) ==> pc' == pc)
      && (pc'.Ended? && Answer(pc'.result) ==> pc' == pc || (pc.Releasing? && Answer(pc.result)))
      && (pc'.Releasing? && Answer(pc'.result) ==> pc.Releasing? && Answer(pc.result))
  {
    hide Continue;
    if step.Advance? && step.op in s.ops {
      LifecycleReads.AdvanceIs(s, step.op, step.ok);
      AdvanceKeepsAnswer(s, step.op, step.ok);
      if step.op != op { LifecycleReads.OtherStep(s, step, op); }
    } else {
      LifecycleReads.OtherStep(s, step, op);
    }
  }

  lemma AdvanceKeepsAnswer(s: State, op: nat, ok: bool)
    requires op in s.ops
    ensures op in Continue(s, op, ok).ops
    ensures var pc, pc' := s.ops[op].pc, Continue(s, op, ok).ops[op].pc;
      && (pc.Ended? ==> pc' == pc)
      && (pc'.Ended? && Answer(pc'.result) ==> pc' == pc || (pc.Releasing? && Answer(pc.result)))
      && (pc'.Releasing? && Answer(pc'.result) ==> pc.Releasing? && Answer(pc.result))
  {
    hide PointsOf, Execute, After;
  }

  /** What the call finds decides whether it is refused: an interactive operation
      is busy exactly when another one holds the lock, and StartEnabled skips
      exactly the devices not stored or not enabled when it lists them. */
  lemma {:induction false} RefusedAtTheCall(t: Tables, id: int, before: seq<Step>, after: seq<Step>, op: nat, kind: Kind)
    requires op !in Run(t, id, before).ops
    ensures var s0, s := Run(t, id, before), Run(t, id, before + [Call(op, kind)] + after);
      && op in s.ops && !(s.ops[op].pc.Releasing? && Answer(s.ops[op].pc.result))
      && (s.ops[op].pc == Ended(Busy) <==> Interactive(kind) && s0.holder.Some?)
      && (s.ops[op].pc == Ended(Skipped) <==>
            kind == StartEnabled && !(id in s0.tables.devices && s0.tables.devices[id].enabled))
  {
    hide Run, Do;
    var base := before + [Call(op, kind)];
    if after == [] {
      assert base + after == base;
      RunPlus(t, id, before, Call(op, kind));
      SameDevice(t, id, before);
      CalledAnswer(Run(t, id, before), op, kind);
    } else {
      var n := |after| - 1;
      RefusedAtTheCall(t, id, before, after[..n], op, kind);
      assert base + after == (base + after[..n]) + [after[n]];
      RunPlus(t, id, base + after[..n], after[n]);
      StepKeepsAnswer(Run(t, id, base + after[..n]), after[n], op);
    }
  }

  lemma CalledAnswer(s: State, op: nat, kind: Kind)
    requires op !in s.ops
    ensures var s' := Do(s, Call(op, kind));
      && op in s'.ops && !s'.ops[op].pc.Releasing?
      && (s'.ops[op].pc == Ended(Busy) <==> Interactive(kind) && s.holder.Some?)
      && (s'.ops[op].pc == Ended(Skipped) <==>
            kind == StartEnabled && !(s.id in s.tables.devices && s.tables.devices[s.id].enabled))
  {
  }

  // ------------------------------------------------- what ends a runner

  predicate Stopping(kind: Kind) { kind == Stop || kind == StopAll || kind == Restart }

  /** Step n is the one with which a stopping operation cancels the runner. */
  ghost predicate CancelsAt(t: Tables, id: int, steps: seq<Step>, n: nat, r: nat)
    requires n < |steps|
  {
    var s := Run(t, id, steps[..n]);
    && steps[n].Advance? && steps[n].op in s.ops
    && s.ops[steps[n].op].pc.Cancelling? && s.ops[steps[n].op].pc.runner == r && Stopping(s.ops[steps[n].op].kind)
  }

  ghost predicate CancelledBy(t: Tables, id: int, steps: seq<Step>, r: nat) {
    exists n :: 0 <= n < |steps| && CancelsAt(t, id, steps, n, r)
  }

  /** Only stopping operations come near a runner, and only cancelled runners end. */
  ghost predicate Governed(s: State) {
    && (forall r :: r in s.runners && s.runners[r].stage != Collecting ==> r in s.cancelled)
    && (forall op :: op in s.ops && (AtStop(s.ops[op].pc) || s.ops[op].pc == Locking(None)) ==> Stopping(s.ops[op].kind))
  }

  lemma AdvanceGoverned(s: State, op: nat, ok: bool)
    requires Governed(s) && op in s.ops
    ensures Governed(Continue(s, op, ok))
  {
    hide PointsOf, After, Execute;
    AdvanceRunners(s, op, ok);
    AdvanceStopping(s, op, ok);
    hide Continue;
  }

  lemma AdvanceRunners(s: State, op: nat, ok: bool)
    requires op in s.ops
    ensures var s' := Continue(s, op, ok);
      && (forall r :: r in s'.runners && s'.runners[r].stage != Collecting ==> r in s.runners && s'.runners[r] == s.runners[r])
      && s.cancelled <= s'.cancelled
      && (forall r :: r in s'.cancelled && r !in s.cancelled ==> s.ops[op].pc.Cancelling? && s.ops[op].pc.runner == r)
  {
    hide PointsOf, After, Execute;
  }

  lemma AdvanceStopping(s: State, op: nat, ok: bool)
    requires op in s.ops
    requires AtStop(s.ops[op].pc) || s.ops[op].pc == Locking(None) ==> Stopping(s.ops[op].kind)
    ensures var s' := Continue(s, op, ok);
      && s'.ops.Keys == s.ops.Keys && (forall o :: o in s.ops && o != op ==> s'.ops[o] == s.ops[o])
      && (AtStop(s'.ops[op].pc) || s'.ops[op].pc == Locking(None) ==> Stopping(s'.ops[op].kind))
  {
    AdvanceOne(s, op, ok);
    AdvanceSameCall(s, op, ok, op);
    AdvanceToStop(s, op, ok);
    hide Continue, AtStop;
  }

  lemma AdvanceOne(s: State, op: nat, ok: bool)
    requires op in s.ops
    ensures op in Continue(s, op, ok).ops && Continue(s, op, ok).ops == s.ops[op := Continue(s, op, ok).ops[op]]
  {
    hide PointsOf, After, Execute;
  }

  lemma AdvanceToStop(s: State, op: nat, ok: bool)
    requires op in s.ops && op in Continue(s, op, ok).ops
    ensures var pc, pc' := s.ops[op].pc, Continue(s, op, ok).ops[op].pc;
      AtStop(pc') || pc' == Locking(None) ==> AtStop(pc) || pc == Locking(None) || (pc.Fetching? && Stopping(s.ops[op].kind))
  {
    hide PointsOf, After, Execute;
  }

  lemma StepGoverned(s: State, step: Step)
    requires Governed(s)
    ensures Governed(Do(s, step))
  {
    hide Continue, PointsOf, After;
    match step
    case Advance(op, ok) => if op in s.ops { AdvanceGoverned(s, op, ok); }
    case _ =>
  }

  /** What a step adds to the cancelled runners. */
  lemma StepCancels(s: State, step: Step, r: nat)
    requires Governed(s) && r in Do(s, step).cancelled && r !in s.cancelled
    ensures step.Advance? && step.op in s.ops && s.ops[step.op].pc.Cancelling? && s.ops[step.op].pc.runner == r
    ensures Stopping(s.ops[step.op].kind)
  {
    hide Continue, PointsOf, After;
    match step
    case Advance(op, ok) => if op in s.ops { AdvanceRunners(s, op, ok); }
    case _ =>
  }

  lemma {:induction false} RunGoverned(t: Tables, id: int, steps: seq<Step>)
    ensures Governed(Run(t, id, steps))
    ensures forall r :: r in Run(t, id, steps).cancelled ==> CancelledBy(t, id, steps, r)
  {
    if steps == [] {
    } else {
      hide Do, Governed, CancelsAt, Run;
      var n := |steps| - 1;
      RunGoverned(t, id, steps[..n]);
      var s := Run(t, id, steps[..n]);
      assert steps == steps[..n] + [steps[n]];
      RunPlus(t, id, steps[..n], steps[n]);
      StepGoverned(s, steps[n]);
      forall r | r in Run(t, id, steps).cancelled ensures CancelledBy(t, id, steps, r) {
        if r in s.cancelled {
          var m :| 0 <= m < n && CancelsAt(t, id, steps[..n], m, r);
          SameCancel(t, id, steps, n, m, r);
        } else {
          StepCancels(s, steps[n], r);
          CancelsNow(t, id, steps, n, r);
        }
      }
    }
  }

  lemma SameCancel(t: Tables, id: int, steps: seq<Step>, n: nat, m: nat, r: nat)
    requires m < n <= |steps| && CancelsAt(t, id, steps[..n], m, r)
    ensures CancelsAt(t, id, steps, m, r)
  {
    hide Run;
    assert steps[..n][..m] == steps[..m];
  }

  lemma CancelsNow(t: Tables, id: int, steps: seq<Step>, n: nat, r: nat)
    requires n < |steps|
    requires var s := Run(t, id, steps[..n]);
      && steps[n].Advance? && steps[n].op in s.ops
      && s.ops[steps[n].op].pc.Cancelling? && s.ops[steps[n].op].pc.runner == r && Stopping(s.ops[steps[n].op].kind)
    ensures CancelsAt(t, id, steps, n, r)
  {
    hide Run;
  }

  /** A runner goes on collecting until a Stop, StopAll or Restart cancels it:
      neither edits nor other calls nor time end it. */
  lemma OnlyStopsEndRunners(t: Tables, id: int, steps: seq<Step>, r: nat)
    requires r in Run(t, id, steps).runners && Run(t, id, steps).runners[r].stage != Collecting
    ensures exists n :: 0 <= n < |steps| && CancelsAt(t, id, steps, n, r)
  {
    hide Run, CancelsAt;
    RunGoverned(t, id, steps);
  }

  // ------------------------------------------------- the change baseline

  /** As long as the runner collects and the device is not reconfigured, what it
      submitted stays the baseline, whatever else happens; reconfiguring removes it
      at once. */
  lemma {:induction false} BaselineLasts(t: Tables, id: int, before: seq<Step>, after: seq<Step>, r: nat)
    requires Consistent(t) && r in Run(t, id, before).runners && Run(t, id, before).runners[r].stage == Collecting
    requires Reconfigure !in after
    ensures var s := Run(t, id, before + [Submit(r)] + after);
      r in s.runners && (s.runners[r].stage == Collecting ==> s.baseline == Some(r))
    ensures Do(Run(t, id, before), Reconfigure).baseline.None?
  {
    hide Run, Inv, Consistent;
    var base := before + [Submit(r)];
    if after == [] {
      assert base + after == base;
      RunPlus(t, id, before, Submit(r));
    } else {
      hide Do;
      var n := |after| - 1;
      BaselineLasts(t, id, before, after[..n], r);
      assert base + after == (base + after[..n]) + [after[n]];
      RunPlus(t, id, base + after[..n], after[n]);
      EveryRun(t, id, base + after[..n]);
      BaselineStep(Run(t, id, base + after[..n]), after[n], r);
      ReconfigureRemoves(Run(t, id, before));
    }
  }

  lemma ReconfigureRemoves(s: State)
    ensures Do(s, Reconfigure).baseline.None?
  {
  }

  lemma BaselineStep(s: State, step: Step, r: nat)
    requires Inv(s) && r in s.runners && (s.runners[r].stage == Collecting ==> s.baseline == Some(r)) && step != Reconfigure
    ensures var s' := Do(s, step); r in s'.runners && (s'.runners[r].stage == Collecting ==> s'.baseline == Some(r))
  {
    hide Consistent, LockOk, OpsOk, SoundConfig, Continue, After;
    match step
    case Advance(op, ok) => if op in s.ops { AdvanceBaseline(s, op, ok); }
    case _ =>
  }

  lemma AdvanceBaseline(s: State, op: nat, ok: bool)
    requires op in s.ops
    ensures var s' := Continue(s, op, ok);
      && s'.baseline == s.baseline
      && forall q :: q in s.runners && q != s.nextRunner ==> q in s'.runners && s'.runners[q] == s.runners[q]
  {
    hide PointsOf, After, Execute;
  }
}
