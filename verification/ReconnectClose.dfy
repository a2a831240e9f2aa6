/** Whether the connection stays closed once a runner is stopped: its context is
    cancelled and its connection manager closed, but reconnection goroutines and
    probes are not waited for (internal/runtime/manager.go:226-232,
    internal/collector/collector.go:100-109, 120-130 and 141-151). */
module ReconnectClose {
  import opened Backoff
  import opened Reconnect

  /** Go's select may take any case that is ready. This one takes the context
      whenever it is done: no timer and no tick wins after a cancellation. */
  predicate Prompt(s: System, step: Step) {
    s.cancelled ==>
      match step
      case Go(a, ok) => a in s.callers && s.callers[a].pc.Waiting? ==> !ok
      case Tick(p, ok) => p in s.probes && s.probes[p] == Idle ==> !ok
      case _ => true
  }

  ghost predicate PromptRun(maxRetries: nat, base: seq<Step>, after: seq<Step>) {
    forall n :: 0 <= n < |after| ==> Prompt(Run(maxRetries, base + after[..n]), after[n])
  }

  /** Somebody has left its wait to dial, or the runner has yet to make its first
      dial. */
  ghost predicate Armed(s: System) {
    || !s.dialled
    || (exists a :: a in s.callers && s.callers[a].pc.Connecting?)
    || (exists p :: p in s.probes && s.probes[p] == Dialling)
  }

  /** Stopped, and nobody about to open the connection again. */
  ghost predicate Settled(s: System) { s.cancelled && !s.client && !Armed(s) }

  lemma GoSettled(s: System, a: nat, ok: bool)
    requires Settled(s) && Prompt(s, Go(a, ok)) && a in s.callers
    ensures Settled(Do(s, Go(a, ok)))
  {
    var s' := Do(s, Go(a, ok));
    assert !s.callers[a].pc.Connecting?;
    NextDial(s, s.callers[a], ok);
    SharedDial(s, a, s.callers[a].pc, ok);
    hide Shared, Next;
  }

  lemma NextDial(s: System, c: Caller, ok: bool)
    requires s.cancelled && (c.pc.Waiting? ==> !ok)
    ensures !Next(s, c, ok).pc.Connecting? || c.pc.Connecting?
  {
  }

  lemma SharedDial(s: System, id: nat, pc: Pc, ok: bool)
    requires !pc.Connecting? && !s.client
    ensures var s' := Shared(s, id, pc, ok);
      && !s'.client && s'.dialled == s.dialled && s'.cancelled == s.cancelled && s'.callers == s.callers
      && forall p :: p in s'.probes && s'.probes[p] == Dialling ==> p in s.probes && s.probes[p] == Dialling
  {
  }

  lemma TickSettled(s: System, p: nat, ok: bool)
    requires Settled(s) && Prompt(s, Tick(p, ok)) && p in s.probes
    ensures Settled(TickProbe(s, p, ok))
  {
    assert s.probes[p] != Dialling;
  }

  lemma StepSettled(s: System, step: Step)
    requires Settled(s) && Prompt(s, step)
    ensures Settled(Do(s, step))
  {
    match step
    case Go(a, ok) => if a in s.callers { GoSettled(s, a, ok); }
    case Tick(p, ok) => if p in s.probes { TickSettled(s, p, ok); }
    case Enter(a) => EnterSettled(s, a);
    case _ =>
  }

  lemma EnterSettled(s: System, a: nat)
    requires Settled(s)
    ensures Settled(Do(s, Enter(a)))
  {
    var s' := Do(s, Enter(a));
    forall b | b in s'.callers ensures !s'.callers[b].pc.Connecting? {
      if b in s.callers { assert !s.callers[b].pc.Connecting?; }
    }
  }

  lemma {:induction false} SettledRuns(maxRetries: nat, base: seq<Step>, after: seq<Step>)
    requires Settled(Run(maxRetries, base)) && PromptRun(maxRetries, base, after)
    ensures Settled(Run(maxRetries, base + after))
  {
    hide Run, Settled, Prompt, Do;
    if after == [] {
      assert base + after == base;
    } else {
      var n := |after| - 1;
      ShorterPrompt(maxRetries, base, after, n);
      SettledRuns(maxRetries, base, after[..n]);
      assert base + after == (base + after[..n]) + [after[n]];
      RunPlus(maxRetries, base + after[..n], after[n]);
      StepSettled(Run(maxRetries, base + after[..n]), after[n]);
    }
  }

  lemma ShorterPrompt(maxRetries: nat, base: seq<Step>, after: seq<Step>, n: nat)
    requires n < |after| && PromptRun(maxRetries, base, after)
    ensures PromptRun(maxRetries, base, after[..n])
  {
    hide Run, Prompt;
    forall m | 0 <= m < n ensures Prompt(Run(maxRetries, base + after[..n][..m]), after[..n][m]) {
      assert after[..n][..m] == after[..m] && after[..n][m] == after[m];
    }
  }

  /** One prompt step with which an armed system opens the connection. */
  lemma ArmedOpens(s: System) returns (step: Step)
    requires Armed(s)
    ensures Prompt(s, step) && Do(s, step).client
  {
    if !s.dialled {
      step := Dial(true);
    } else if a :| a in s.callers && s.callers[a].pc.Connecting? {
      step := Go(a, true);
    } else {
      var p :| p in s.probes && s.probes[p] == Dialling;
      step := Tick(p, true);
    }
  }

  ghost predicate ClosedAfter(maxRetries: nat, base: seq<Step>, after: seq<Step>) {
    PromptRun(maxRetries, base, after) ==> !Run(maxRetries, base + after).client
  }

  /** A cancelled and closed manager stays closed, in every continuation whose
      selects take the context, if and only if nobody has left its wait to dial
      and the first dial has been made. */
  lemma StaysClosed(maxRetries: nat, base: seq<Step>)
    requires Run(maxRetries, base).cancelled && !Run(maxRetries, base).client
    ensures (forall after :: ClosedAfter(maxRetries, base, after)) <==> !Armed(Run(maxRetries, base))
  {
    hide Run, Armed;
    var s := Run(maxRetries, base);
    if Armed(s) {
      var step := ArmedOpens(s);
      RunPlus(maxRetries, base, step);
      OneStepPrompt(maxRetries, base, step);
      assert !ClosedAfter(maxRetries, base, [step]);
    } else {
      forall after ensures ClosedAfter(maxRetries, base, after) {
        if PromptRun(maxRetries, base, after) { SettledRuns(maxRetries, base, after); }
      }
    }
  }

  lemma OneStepPrompt(maxRetries: nat, base: seq<Step>, step: Step)
    requires Prompt(Run(maxRetries, base), step)
    ensures PromptRun(maxRetries, base, [step])
  {
    hide Run, Prompt;
    assert base + [step][..0] == base;
  }

  /** A timer or a tick that wins against the context arms the system again. */
  lemma LateWinnersReopen(s: System, a: nat, p: nat)
    ensures a in s.callers && s.callers[a].pc.Waiting? ==> Do(Do(s, Go(a, true)), Go(a, true)).client
    ensures p in s.probes && s.probes[p] == Idle && s.state == Offline ==> Do(Do(s, Tick(p, true)), Tick(p, true)).client
  {
  }

  // ------------------------------------------------- such runs

  /** The runner's first dial fails, its reconnection has waited and is about to
      dial; then the device is stopped. */
  const STOPPED_WHILE_DIALLING: seq<Step> :=
    [Dial(false)] + [Enter(0)] + [Go(0, true)] + [Go(0, true)] + [Go(0, true)] + [Cancel] + [CloseClient]

  /** The device is stopped before the runner's first dial. */
  const STOPPED_AT_START: seq<Step> := [Cancel] + [CloseClient]

  /** The connection is opened again after cancellation and closing. */
  lemma ReopensAfterStop(maxRetries: nat)
    requires maxRetries >= 1
    ensures var s := Run(maxRetries, STOPPED_WHILE_DIALLING);
      s.cancelled && !s.client && Armed(s) && Do(s, Go(0, true)).client
  {
    hide Run, Armed;
    var c := UpToWaiting(maxRetries);
    var d := c + [Go(0, true)];
    RunPlus(maxRetries, c, Go(0, true));
    var e := d + [Cancel];
    RunPlus(maxRetries, d, Cancel);
    RunPlus(maxRetries, e, CloseClient);
    assert e + [CloseClient] == STOPPED_WHILE_DIALLING;
    var s := Run(maxRetries, STOPPED_WHILE_DIALLING);
    assert s.callers[0].pc == Connecting(1);
    DialArms(s, 0);
  }

  lemma DialArms(s: System, a: nat)
    requires a in s.callers && s.callers[a].pc.Connecting?
    ensures Armed(s) && Do(s, Go(a, true)).client
  {
  }

  lemma UpToWaiting(maxRetries: nat) returns (steps: seq<Step>)
    requires maxRetries >= 1
    ensures steps == [Dial(false)] + [Enter(0)] + [Go(0, true)] + [Go(0, true)]
    ensures var s := Run(maxRetries, steps);
      s.maxRetries == maxRetries && 0 in s.callers && s.callers[0].pc == Waiting(1) && !s.client
  {
    assert Run(maxRetries, []) == Initial(maxRetries);
    hide Run;
    var a := [Dial(false)];
    RunPlus(maxRetries, [], Dial(false));
    assert [] + [Dial(false)] == a;
    var b := a + [Enter(0)];
    RunPlus(maxRetries, a, Enter(0));
    var c := b + [Go(0, true)];
    RunPlus(maxRetries, b, Go(0, true));
    assert Run(maxRetries, c).callers[0].pc == Deciding(1);
    steps := c + [Go(0, true)];
    RunPlus(maxRetries, c, Go(0, true));
  }

  lemma ReopensAtStart(maxRetries: nat)
    ensures var s := Run(maxRetries, STOPPED_AT_START);
      s.cancelled && !s.client && Armed(s) && Do(s, Dial(true)).client
  {
    assert Run(maxRetries, []) == Initial(maxRetries);
    hide Run;
    RunPlus(maxRetries, [], Cancel);
    RunPlus(maxRetries, [] + [Cancel], CloseClient);
    assert [] + [Cancel] + [CloseClient] == STOPPED_AT_START;
  }

  /** Closing takes the client away and touches nothing else, cancelling marks the
      context and touches nothing else. */
  lemma CloseTakesClient(s: System)
    ensures !Do(s, CloseClient).client && Do(s, CloseClient).(client := s.client) == s
    ensures Do(s, Cancel).cancelled && Do(s, Cancel).(cancelled := s.cancelled) == s
  {
  }

  /** The same for stopping, whatever the state before: after Cancel and then
      CloseClient the connection is closed, and it stays so if and only if nobody
      had left its wait to dial and the first dial had been made. */
  lemma StoppedStaysClosed(maxRetries: nat, before: seq<Step>)
    ensures var base := before + [Cancel] + [CloseClient];
      && !Run(maxRetries, base).client
      && ((forall after :: ClosedAfter(maxRetries, base, after)) <==> !Armed(Run(maxRetries, before)))
  {
    var s := Run(maxRetries, before);
    RunPlus(maxRetries, before, Cancel);
    RunPlus(maxRetries, before + [Cancel], CloseClient);
    hide Run, ClosedAfter;
    CloseTakesClient(s);
    CloseTakesClient(Do(s, Cancel));
    StaysClosed(maxRetries, before + [Cancel] + [CloseClient]);
    SameArmed(s, Run(maxRetries, before + [Cancel] + [CloseClient]));
  }

  lemma SameArmed(s: System, s': System)
    requires s'.callers == s.callers && s'.probes == s.probes && s'.dialled == s.dialled
    ensures Armed(s') <==> Armed(s)
  {
  }
}
