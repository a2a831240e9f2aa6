/** What a reconnection and a probe leave behind: alone, exactly what one goroutine
    leaves (internal/collector/collector.go:68-155), and under every interleaving
    what the publishing step makes of the client. */
module ReconnectOutcome {
  import opened Backoff
  import opened Reconnect
  import opened ReconnectPause

  // ------------------------------------------------- one caller alone

  /** A step of this caller, or the cancellation of the context. */
  predicate Own(step: Step, id: nat) { step == Cancel || (step.Go? && step.caller == id) }

  ghost predicate OnlyOwn(after: seq<Step>, id: nat) {
    forall n :: 0 <= n < |after| ==> Own(after[n], id)
  }

  /** The shared fields follow from the fields at the start and the position. */
  ghost predicate Alone(s0: System, s: System, c: Caller, id: nat) {
    match c.pc
    case Refused => true
    case Dropping => s.retryCount == s0.retryCount && s.probes == s0.probes
    case Resetting(exit) => Ending(s0, s, c, exit, id) && s.flag
    case Exited(exit) => Ending(s0, s, c, exit, id) && !s.flag
    case Clearing(exit) => Leaving(s0, s, exit)
    case Publishing(exit) => Leaving(s0, s, exit) && s.retryCount == 0
    case Probing => Leaves(Tripped, c.attempts, s0.retryCount, s.state, s.client, s.retryCount) && s.probes == s0.probes
    case Recording(k) => Looping(s0, s, k - 1)
    case _ => Looping(s0, s, c.attempts)
  }

  ghost predicate Looping(s0: System, s: System, recorded: int) {
    && s.state == Reconnecting && !s.client && s.probes == s0.probes
    && s.retryCount == if recorded == 0 then s0.retryCount else recorded
  }

  ghost predicate Leaving(s0: System, s: System, exit: Exit) {
    exit != Exit.Cancelled && s.state == Reconnecting && s.client == (exit == Recovered) && s.probes == s0.probes
  }

  ghost predicate Ending(s0: System, s: System, c: Caller, exit: Exit, id: nat) {
    && Leaves(exit, c.attempts, s0.retryCount, s.state, s.client, s.retryCount)
    && s.probes == if exit == Tripped then s0.probes[id := Idle] else s0.probes
  }

  /** The position alone, without the back-off delays. */
  predicate Counts(maxRetries: nat, c: Caller) {
    match c.pc
    case Dropping => c.attempts == 0
    case Deciding(k) => k >= 1 && c.attempts == k - 1
    case Waiting(k) => c.attempts == k - 1
    case Connecting(k) => c.attempts == k - 1
    case Recording(k) => c.attempts == k >= 1
    case _ => true
  }

  lemma CallerCounts(maxRetries: nat, c: Caller)
    requires CallerOk(maxRetries, c)
    ensures Counts(maxRetries, c)
  {
    hide Delays;
  }

  lemma LoopAlone(s0: System, s: System, c: Caller, id: nat, ok: bool)
    requires Counts(s.maxRetries, c) && Alone(s0, s, c, id) && s.flag
    requires c.pc.Dropping? || c.pc.Deciding? || c.pc.Waiting? || c.pc.Connecting? || c.pc.Recording?
    ensures Alone(s0, Shared(s, id, c.pc, ok), Next(s, c, ok), id)
  {
    hide Delay;
  }

  lemma EndAlone(s0: System, s: System, c: Caller, id: nat, ok: bool)
    requires Alone(s0, s, c, id) && s.flag
    requires c.pc.Clearing? || c.pc.Publishing? || c.pc.Probing? || c.pc.Resetting?
    ensures Alone(s0, Shared(s, id, c.pc, ok), Next(s, c, ok), id)
  {
    hide Delay;
  }

  lemma SameAlone(s0: System, s: System, s': System, c: Caller, id: nat)
    requires Alone(s0, s, c, id)
    requires s'.state == s.state && s'.client == s.client && s'.retryCount == s.retryCount && s'.probes == s.probes && s'.flag == s.flag
    ensures Alone(s0, s', c, id)
  {
  }

  lemma GoAlone(s0: System, s: System, id: nat, ok: bool)
    requires Inv(s) && id in s.callers && Alone(s0, s, s.callers[id], id) && !s.callers[id].pc.Refused?
    ensures Alone(s0, Do(s, Go(id, ok)), Do(s, Go(id, ok)).callers[id], id)
  {
    hide Inv, Alone, Shared, Next, Counts, Do;
    var c := s.callers[id];
    CallerKnown(s, id);
    GoParts(s, id, ok);
    if c.pc.Dropping? || c.pc.Deciding? || c.pc.Waiting? || c.pc.Connecting? || c.pc.Recording? {
      LoopAlone(s0, s, c, id, ok);
    } else if c.pc.Exited? {
      ExitedStays(s, c, id, ok);
    } else {
      EndAlone(s0, s, c, id, ok);
    }
    SameAlone(s0, Shared(s, id, c.pc, ok), Do(s, Go(id, ok)), Next(s, c, ok), id);
  }

  lemma CallerKnown(s: System, id: nat)
    requires Inv(s) && id in s.callers
    ensures Counts(s.maxRetries, s.callers[id]) && (Critical(s.callers[id].pc) ==> s.flag)
  {
    hide CallerOk, InOrder, Counts;
    CallerSeen(s, id);
    CallerCounts(s.maxRetries, s.callers[id]);
  }

  lemma GoParts(s: System, id: nat, ok: bool)
    requires id in s.callers
    ensures var s', m := Do(s, Go(id, ok)), Shared(s, id, s.callers[id].pc, ok);
      && id in s'.callers && s'.callers[id] == Next(s, s.callers[id], ok)
      && s'.state == m.state && s'.client == m.client && s'.retryCount == m.retryCount
      && s'.probes == m.probes && s'.flag == m.flag
  {
    hide Shared, Next;
  }

  lemma ExitedStays(s: System, c: Caller, id: nat, ok: bool)
    requires c.pc.Exited?
    ensures Shared(s, id, c.pc, ok) == s && Next(s, c, ok) == c
  {
  }

  /** As long as only one caller moves, a call that ends has left the fields that
      the method of one goroutine leaves, given up the flag, and started one probe
      if it tripped and none otherwise. */
  lemma {:induction false} AloneRuns(maxRetries: nat, before: seq<Step>, id: nat, after: seq<Step>)
    requires id in Run(maxRetries, before).callers && Run(maxRetries, before).callers[id].pc == Dropping && OnlyOwn(after, id)
    ensures var s0, s := Run(maxRetries, before), Run(maxRetries, before + after);
      id in s.callers && !s.callers[id].pc.Refused? && Alone(s0, s, s.callers[id], id)
  {
    hide Run, Do, Alone, Inv;
    if after == [] {
      assert before + after == before;
      EveryRun(maxRetries, before);
      StartAlone(Run(maxRetries, before), id);
    } else {
      var n := |after| - 1;
      AloneRuns(maxRetries, before, id, after[..n]);
      assert before + after == (before + after[..n]) + [after[n]];
      RunPlus(maxRetries, before + after[..n], after[n]);
      EveryRun(maxRetries, before + after[..n]);
      assert Own(after[n], id);
      StepAlone(Run(maxRetries, before), Run(maxRetries, before + after[..n]), after[n], id);
    }
  }

  lemma StartAlone(s: System, id: nat)
    requires Inv(s) && id in s.callers && s.callers[id].pc == Dropping
    ensures Alone(s, s, s.callers[id], id)
  {
    CallerSeen(s, id);
  }

  lemma StepAlone(s0: System, s: System, step: Step, id: nat)
    requires Inv(s) && id in s.callers && !s.callers[id].pc.Refused? && Alone(s0, s, s.callers[id], id) && Own(step, id)
    ensures var s' := Do(s, step); id in s'.callers && !s'.callers[id].pc.Refused? && Alone(s0, s', s'.callers[id], id)
  {
    hide Alone, Shared, Inv;
    if step.Go? {
      GoAlone(s0, s, id, step.ok);
      NotRefused(s, s.callers[id], step.ok);
      SharedFrame(s, id, s.callers[id].pc, step.ok);
      hide Next;
    } else {
      SameAlone(s0, s, Do(s, step), s.callers[id], id);
    }
  }

  lemma NotRefused(s: System, c: Caller, ok: bool)
    requires !c.pc.Refused?
    ensures !Next(s, c, ok).pc.Refused?
  {
    hide Delay;
  }

  lemma AloneEndsAsOneCall(maxRetries: nat, before: seq<Step>, id: nat, after: seq<Step>)
    requires id in Run(maxRetries, before).callers && Run(maxRetries, before).callers[id].pc == Dropping && OnlyOwn(after, id)
    requires id in Run(maxRetries, before + after).callers && Run(maxRetries, before + after).callers[id].pc.Exited?
    ensures var s0, s := Run(maxRetries, before), Run(maxRetries, before + after);
      var c := s.callers[id];
      && RunShape(maxRetries, c.pc.exit, c.attempts, c.delays)
      && Leaves(c.pc.exit, c.attempts, s0.retryCount, s.state, s.client, s.retryCount)
      && !s.flag
      && s.probes == if c.pc.exit == Tripped then s0.probes[id := Idle] else s0.probes
  {
    hide Run, OnlyOwn, Leaves, RunShape;
    AloneRuns(maxRetries, before, id, after);
    EveryCallIsBounded(maxRetries, before + after, id);
  }

  /** A call that finds the flag up leaves everything alone. */
  lemma RefusedChangesNothing(s: System, id: nat)
    requires s.dialled && id !in s.callers
    ensures var s' := Do(s, Enter(id));
      && id in s'.callers && (s'.callers[id].pc.Refused? <==> s.flag)
      && s'.(callers := s.callers, flag := s.flag) == s && s'.flag
  {
  }

  // ------------------------------------------------- any interleaving

  ghost predicate NoClose(after: seq<Step>) {
    forall n :: 0 <= n < |after| ==> after[n] != CloseClient
  }

  /** The caller has dialled successfully and not yet published. */
  predicate Carrying(pc: Pc) { pc == Clearing(Recovered) || pc == Publishing(Recovered) }

  lemma StepCarries(s: System, step: Step, id: nat)
    requires Inv(s) && id in s.callers && (Carrying(s.callers[id].pc) ==> s.client) && step != CloseClient
    ensures var s' := Do(s, step); id in s'.callers && (Carrying(s'.callers[id].pc) ==> s'.client)
  {
    hide CallersOk, InOrder;
    match step
    case Go(a, ok) =>
      if a in s.callers {
        SharedFrame(s, a, s.callers[a].pc, ok);
        if a == id { NextCarrying(s, s.callers[id], ok); }
      }
    case Tick(p, ok) => if p in s.probes { TickFrame(s, p, ok); }
    case _ =>
  }

  lemma NextCarrying(s: System, c: Caller, ok: bool)
    ensures Carrying(Next(s, c, ok).pc) ==> (c.pc.Connecting? && ok) || Carrying(c.pc)
    ensures Carrying(c.pc) ==> !c.pc.Dropping?
  {
  }

  lemma {:induction false} ClientCarried(maxRetries: nat, before: seq<Step>, id: nat, after: seq<Step>)
    requires id in Run(maxRetries, before).callers && Run(maxRetries, before).callers[id].pc.Connecting? && NoClose(after)
    ensures var s := Run(maxRetries, before + [Go(id, true)] + after);
      id in s.callers && (Carrying(s.callers[id].pc) ==> s.client)
  {
    hide Run, Do, Inv, Carrying;
    var dialled := before + [Go(id, true)];
    if after == [] {
      assert dialled + after == dialled;
      RunPlus(maxRetries, before, Go(id, true));
      DialSets(Run(maxRetries, before), id);
    } else {
      var n := |after| - 1;
      ClientCarried(maxRetries, before, id, after[..n]);
      assert dialled + after == (dialled + after[..n]) + [after[n]];
      RunPlus(maxRetries, dialled + after[..n], after[n]);
      EveryRun(maxRetries, dialled + after[..n]);
      StepCarries(Run(maxRetries, dialled + after[..n]), after[n], id);
    }
  }

  lemma DialSets(s: System, id: nat)
    requires id in s.callers && s.callers[id].pc.Connecting?
    ensures var s' := Do(s, Go(id, true)); id in s'.callers && s'.callers[id].pc == Clearing(Recovered) && s'.client
  {
  }

  /** What the publishing step makes known: a recovered call ends the pause with
      the client there is, a tripped one takes the device offline. */
  lemma PublishedState(s: System, id: nat, ok: bool)
    requires id in s.callers && s.callers[id].pc.Publishing?
    ensures var s' := Do(s, Go(id, ok));
      && s'.client == s.client
      && (s.callers[id].pc.exit == Tripped ==> s'.state == Offline && !Usable(s'))
      && (s.callers[id].pc.exit == Recovered ==> s'.state == Online && (Usable(s') <==> s.client))
  {
  }

  /** Whatever the others do in between: unless the manager is closed after the
      successful dial, publishing it hands out a client again. */
  lemma RecoveredIsUsable(maxRetries: nat, before: seq<Step>, id: nat, after: seq<Step>, ok: bool)
    requires id in Run(maxRetries, before).callers && Run(maxRetries, before).callers[id].pc.Connecting? && NoClose(after)
    requires var s := Run(maxRetries, before + [Go(id, true)] + after);
      id in s.callers && s.callers[id].pc == Publishing(Recovered)
    ensures Usable(Do(Run(maxRetries, before + [Go(id, true)] + after), Go(id, ok)))
  {
    hide Run;
    ClientCarried(maxRetries, before, id, after);
    PublishedState(Run(maxRetries, before + [Go(id, true)] + after), id, ok);
  }

  // ------------------------------------------------- the first dial and the probe

  lemma FirstDial(maxRetries: nat, ok: bool)
    ensures Usable(Do(Initial(maxRetries), Dial(ok))) <==> ok
  {
  }

  predicate ProbeStep(step: Step, p: nat) { step == Cancel || (step.Tick? && step.probe == p) }

  /** One probe alone, started while the device is offline. */
  ghost predicate ProbeAlone(s0: System, s: System, p: nat) {
    && p in s.probes
    && match s.probes[p]
       case Idle => Untouched(s0, s)
       case Dialling => Untouched(s0, s)
       case Raising => s.state == Offline && s.client
       case Lifting => s.state == Offline && s.client && s.retryCount == 0
       case Over => (Usable(s) && s.retryCount == 0) || (Untouched(s0, s) && s.cancelled)
  }

  predicate Untouched(s0: System, s: System) { s.state == Offline && s.client == s0.client && s.retryCount == s0.retryCount }

  lemma ProbeStepAlone(s0: System, s: System, step: Step, p: nat)
    requires ProbeAlone(s0, s, p) && ProbeStep(step, p)
    ensures ProbeAlone(s0, Do(s, step), p)
  {
    if step.Tick? { ProbeTick(s0, s, p, step.ok); }
    hide TickProbe;
  }

  lemma ProbeTick(s0: System, s: System, p: nat, ok: bool)
    requires ProbeAlone(s0, s, p)
    ensures ProbeAlone(s0, TickProbe(s, p, ok), p)
  {
    match s.probes[p]
    case Idle =>
    case Dialling =>
    case _ =>
  }

  /** A probe that nobody disturbs goes on until it has brought the device back
      with its client, or until it is cancelled and has changed nothing. */
  lemma {:induction false} ProbeOutcome(maxRetries: nat, before: seq<Step>, p: nat, after: seq<Step>)
    requires var s0 := Run(maxRetries, before); p in s0.probes && s0.probes[p] == Idle && s0.state == Offline
    requires forall n :: 0 <= n < |after| ==> ProbeStep(after[n], p)
    ensures ProbeAlone(Run(maxRetries, before), Run(maxRetries, before + after), p)
  {
    if after == [] {
      assert before + after == before;
    } else {
      hide Run, Do, ProbeAlone;
      var n := |after| - 1;
      ProbeOutcome(maxRetries, before, p, after[..n]);
      assert before + after == (before + after[..n]) + [after[n]];
      RunPlus(maxRetries, before + after[..n], after[n]);
      ProbeStepAlone(Run(maxRetries, before), Run(maxRetries, before + after[..n]), after[n], p);
    }
  }

  /** A probe that finds somebody else has changed the state gives up. */
  lemma ProbeGivesUp(s: System, p: nat)
    requires p in s.probes && s.probes[p] == Idle && s.state != Offline
    ensures Do(s, Tick(p, true)) == s.(probes := s.probes[p := Over])
  {
  }

  /** Four undisturbed steps with a dial that succeeds bring the device back. */
  lemma ProbeRecovers(s: System, p: nat)
    requires p in s.probes && s.probes[p] == Idle && s.state == Offline
    ensures Usable(Do(Do(Do(Do(s, Tick(p, true)), Tick(p, true)), Tick(p, true)), Tick(p, true)))
  {
  }

  /** After a dial that fails the probe waits for its next tick; where the context
      is done it ends. Neither touches anything else. */
  lemma ProbeRetriesOrEnds(s: System, p: nat)
    requires p in s.probes
    ensures s.probes[p] == Dialling ==> Do(s, Tick(p, false)) == s.(probes := s.probes[p := Idle])
    ensures s.probes[p] == Idle && s.cancelled ==> Do(s, Tick(p, false)) == s.(probes := s.probes[p := Over])
  {
  }
}
