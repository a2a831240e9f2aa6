/** Scans pause during a reconnection because no client is handed out: the loop
    clears the client and sets the reconnecting state. A heartbeat probe can undo
    both: it checks the state once, dials, and then publishes the online state
    without looking again (internal/collector/collector.go:74-116, 145-151 and
    158-166). */
module ReconnectPause {
  import opened Backoff
  import opened Reconnect

  /** From the region that sets the reconnecting state to the one that publishes
      the outcome. */
  predicate InLoop(pc: Pc) { pc.Deciding? || pc.Waiting? || pc.Connecting? || pc.Recording? || pc.Clearing? || pc.Publishing? }

  /** Past its check of the state, not yet done. */
  predicate MidAttempt(probe: Probe) { probe == Dialling || probe == Raising || probe == Lifting }

  function MidProbes(s: System): set<nat> {
    set p | p in s.probes && MidAttempt(s.probes[p])
  }

  /** Probe p was one of these and has finished. */
  predicate Finished(s: System, mid: set<nat>, p: nat) {
    p in mid && p in s.probes && s.probes[p] == Over
  }

  /** While the caller is in its loop: only probes that were in mid-attempt at its
      entry can still be, and the state is reconnecting unless one of them has
      published. */
  ghost predicate LoopHolds(s: System, id: nat, mid: set<nat>) {
    && id in s.callers && s.callers[id].pc != Dropping
    && (InLoop(s.callers[id].pc) ==>
          && MidProbes(s) <= mid
          && (s.state == Reconnecting || (s.state == Online && exists p :: Finished(s, mid, p))))
  }

  lemma NextInLoop(s: System, c: Caller, ok: bool)
    requires c.pc != Dropping && InLoop(Next(s, c, ok).pc)
    ensures InLoop(c.pc) && !c.pc.Publishing?
  {
  }

  lemma GoLoop(s: System, a: nat, ok: bool, id: nat, mid: set<nat>)
    requires Exclusive(s) && LoopHolds(s, id, mid) && a in s.callers
    ensures LoopHolds(Do(s, Go(a, ok)), id, mid)
  {
    var s' := Do(s, Go(a, ok));
    if InLoop(s'.callers[id].pc) {
      if a == id { NextInLoop(s, s.callers[id], ok); }
      assert InLoop(s.callers[id].pc) && Critical(s.callers[id].pc);
      assert a != id ==> !Critical(s.callers[a].pc);
      assert s'.state == s.state && s'.probes == s.probes;
      assert MidProbes(s') == MidProbes(s);
      if s.state == Online {
        var p :| Finished(s, mid, p);
        assert Finished(s', mid, p);
      }
    }
  }

  /** A probe starts an attempt only in the offline state, and publishes only at
      the end of one. */
  lemma TickEffect(s: System, p: nat, ok: bool)
    requires p in s.probes
    ensures var s' := TickProbe(s, p, ok);
      && p in s'.probes && s'.probes == s.probes[p := s'.probes[p]] && s'.callers == s.callers
      && (s.state != Offline && MidAttempt(s'.probes[p]) ==> MidAttempt(s.probes[p]))
      && (s'.state == s.state || (s'.state == Online && s'.probes[p] == Over && MidAttempt(s.probes[p])))
      && (s.probes[p] == Over ==> s'.probes[p] == Over)
  {
    match s.probes[p]
    case Idle =>
    case Dialling =>
    case _ =>
  }

  lemma TickLoop(s: System, p: nat, ok: bool, id: nat, mid: set<nat>)
    requires LoopHolds(s, id, mid) && p in s.probes
    ensures LoopHolds(TickProbe(s, p, ok), id, mid)
  {
    var s' := TickProbe(s, p, ok);
    TickEffect(s, p, ok);
    hide TickProbe, MidAttempt;
    if InLoop(s.callers[id].pc) {
      if MidAttempt(s.probes[p]) { assert p in MidProbes(s); }
      forall q | q in MidProbes(s') ensures q in mid {
        assert q in MidProbes(s);
      }
      if s'.state == Online {
        if s.state == Online {
          var q :| Finished(s, mid, q);
          assert Finished(s', mid, q);
        } else {
          assert Finished(s', mid, p);
        }
      }
    }
  }

  lemma StepLoop(s: System, step: Step, id: nat, mid: set<nat>)
    requires Inv(s) && LoopHolds(s, id, mid)
    ensures LoopHolds(Do(s, step), id, mid)
  {
    match step
    case Go(a, ok) => if a in s.callers { GoLoop(s, a, ok, id, mid); }
    case Tick(p, ok) => if p in s.probes { TickLoop(s, p, ok, id, mid); }
    case _ => SameProbes(s, Do(s, step), id, mid);
  }

  lemma SameProbes(s: System, s': System, id: nat, mid: set<nat>)
    requires LoopHolds(s, id, mid) && id in s'.callers && s'.callers[id] == s.callers[id]
    requires s'.probes == s.probes && s'.state == s.state
    ensures LoopHolds(s', id, mid)
  {
    assert MidProbes(s') == MidProbes(s);
    if p :| Finished(s, mid, p) { assert Finished(s', mid, p); }
  }

  /** The step with which a caller enters its loop. */
  ghost predicate Enters(maxRetries: nat, before: seq<Step>, id: nat) {
    id in Run(maxRetries, before).callers && Run(maxRetries, before).callers[id].pc == Dropping
  }

  lemma {:induction false} LoopRuns(maxRetries: nat, before: seq<Step>, id: nat, ok: bool, after: seq<Step>)
    requires Enters(maxRetries, before, id)
    ensures LoopHolds(Run(maxRetries, before + [Go(id, ok)] + after), id, MidProbes(Run(maxRetries, before)))
  {
    hide Inv, LoopHolds, Run, Do;
    var s0 := Run(maxRetries, before);
    var entry := before + [Go(id, ok)];
    if after == [] {
      assert entry + after == entry;
      RunPlus(maxRetries, before, Go(id, ok));
      EntryLoop(s0, id, ok);
    } else {
      var n := |after| - 1;
      LoopRuns(maxRetries, before, id, ok, after[..n]);
      assert entry + after == (entry + after[..n]) + [after[n]];
      RunPlus(maxRetries, entry + after[..n], after[n]);
      EveryRun(maxRetries, entry + after[..n]);
      StepLoop(Run(maxRetries, entry + after[..n]), after[n], id, MidProbes(s0));
    }
  }

  lemma EntryLoop(s: System, id: nat, ok: bool)
    requires id in s.callers && s.callers[id].pc == Dropping
    ensures LoopHolds(Do(s, Go(id, ok)), id, MidProbes(s))
  {
    assert MidProbes(Do(s, Go(id, ok))) == MidProbes(s);
  }

  /** Whatever tripped before: the state leaves reconnecting during a loop only
      for online, and only because a probe that was in mid-attempt when the loop
      was entered has published. */
  lemma OnlyLateProbesDisturb(maxRetries: nat, before: seq<Step>, id: nat, ok: bool, after: seq<Step>)
    requires Enters(maxRetries, before, id)
    ensures var mid, s := MidProbes(Run(maxRetries, before)), Run(maxRetries, before + [Go(id, ok)] + after);
      id in s.callers && (InLoop(s.callers[id].pc) && s.state != Reconnecting ==> s.state == Online && exists p :: Finished(s, mid, p))
  {
    hide Run, Finished;
    LoopRuns(maxRetries, before, id, ok, after);
  }

  ghost predicate ReconnectingAt(maxRetries: nat, steps: seq<Step>, id: nat) {
    var s := Run(maxRetries, steps);
    id in s.callers && InLoop(s.callers[id].pc) ==> s.state == Reconnecting
  }

  /** However a run goes on after the entry, the state stays reconnecting while
      the caller is in its loop. */
  ghost predicate StaysReconnecting(maxRetries: nat, entry: seq<Step>, id: nat) {
    forall after :: ReconnectingAt(maxRetries, entry + after, id)
  }

  /** The state stays reconnecting to the end of the loop, in every continuation,
      if and only if no probe was in mid-attempt when it was entered. */
  lemma StateStaysReconnecting(maxRetries: nat, before: seq<Step>, id: nat, ok: bool)
    requires Enters(maxRetries, before, id)
    ensures StaysReconnecting(maxRetries, before + [Go(id, ok)], id) <==> MidProbes(Run(maxRetries, before)) == {}
  {
    hide Run;
    var s0 := Run(maxRetries, before);
    var entry := before + [Go(id, ok)];
    if MidProbes(s0) == {} {
      forall after ensures ReconnectingAt(maxRetries, entry + after, id) {
        OnlyLateProbesDisturb(maxRetries, before, id, ok, after);
      }
    } else {
      var p :| p in MidProbes(s0);
      RunPlus(maxRetries, before, Go(id, ok));
      EntryState(s0, id, ok, p);
      var after := ProbeLifts(maxRetries, entry, id, p);
      assert !ReconnectingAt(maxRetries, entry + after, id);
    }
  }

  lemma EntryState(s: System, id: nat, ok: bool, p: nat)
    requires id in s.callers && s.callers[id].pc == Dropping && p in MidProbes(s)
    ensures var s' := Do(s, Go(id, ok));
      id in s'.callers && s'.callers[id].pc == Deciding(1) && p in MidProbes(s') && s'.probes[p] == s.probes[p]
  {
  }

  /** A probe in mid-attempt can publish while the caller has not moved. */
  lemma {:induction false} ProbeLifts(maxRetries: nat, steps: seq<Step>, id: nat, p: nat) returns (after: seq<Step>)
    requires var s := Run(maxRetries, steps); id in s.callers && s.callers[id].pc == Deciding(1) && p in MidProbes(s)
    ensures var s, s' := Run(maxRetries, steps), Run(maxRetries, steps + after);
      && id in s'.callers && s'.callers[id].pc == Deciding(1) && s'.state == Online
      && (s.client || s.probes[p] == Dialling ==> s'.client)
    decreases Left(Run(maxRetries, steps).probes[p])
  {
    hide Run;
    var s := Run(maxRetries, steps);
    RunPlus(maxRetries, steps, Tick(p, true));
    var longer := steps + [Tick(p, true)];
    if s.probes[p] == Lifting {
      after := [Tick(p, true)];
    } else {
      var rest := ProbeLifts(maxRetries, longer, id, p);
      after := [Tick(p, true)] + rest;
      assert steps + after == longer + rest;
    }
  }

  function Left(probe: Probe): nat {
    match probe case Dialling => 3 case Raising => 2 case Lifting => 1 case _ => 0
  }

  // ------------------------------------------------- whether a client is handed out

  /** GetClient returns a client. */
  predicate Usable(s: System) { s.state == Online && s.client }

  /** In the loop, and the caller's own dial has not succeeded. */
  predicate Trying(pc: Pc) { InLoop(pc) && pc != Clearing(Recovered) && pc != Publishing(Recovered) }

  ghost predicate NoneDialling(s: System) {
    forall p :: p in s.probes ==> s.probes[p] != Dialling
  }

  /** While the caller is trying, no client exists and nobody else can make one. */
  ghost predicate NoClient(s: System, id: nat) {
    && id in s.callers && s.callers[id].pc != Dropping
    && (Trying(s.callers[id].pc) ==> !s.client && s.state != Offline && NoneDialling(s))
  }

  lemma NextTrying(s: System, c: Caller, ok: bool)
    requires c.pc != Dropping && Trying(Next(s, c, ok).pc)
    ensures Trying(c.pc) && !c.pc.Publishing? && (c.pc.Connecting? ==> !ok) && !c.pc.Probing?
  {
  }

  lemma GoNoClient(s: System, a: nat, ok: bool, id: nat)
    requires Exclusive(s) && NoClient(s, id) && a in s.callers
    ensures NoClient(Do(s, Go(a, ok)), id)
  {
    var s' := Do(s, Go(a, ok));
    if Trying(s'.callers[id].pc) {
      if a == id { NextTrying(s, s.callers[id], ok); }
      assert Trying(s.callers[id].pc) && Critical(s.callers[id].pc);
      assert a != id ==> !Critical(s.callers[a].pc);
      assert s'.state == s.state && s'.probes == s.probes && s'.client == s.client;
    }
  }

  lemma StepNoClient(s: System, step: Step, id: nat)
    requires Inv(s) && NoClient(s, id)
    ensures NoClient(Do(s, step), id)
  {
    hide CallersOk;
    match step
    case Go(a, ok) => if a in s.callers { GoNoClient(s, a, ok, id); }
    case Tick(p, ok) => if p in s.probes { TickNoClient(s, p, ok, id); }
    case _ =>
  }

  lemma TickNoClient(s: System, p: nat, ok: bool, id: nat)
    requires NoClient(s, id) && p in s.probes
    ensures NoClient(TickProbe(s, p, ok), id)
  {
  }

  lemma {:induction false} NoClientRuns(maxRetries: nat, before: seq<Step>, id: nat, ok: bool, after: seq<Step>)
    requires Enters(maxRetries, before, id) && NoneDialling(Run(maxRetries, before))
    ensures NoClient(Run(maxRetries, before + [Go(id, ok)] + after), id)
  {
    hide Inv, NoClient, Run, Do, NoneDialling;
    var entry := before + [Go(id, ok)];
    if after == [] {
      assert entry + after == entry;
      RunPlus(maxRetries, before, Go(id, ok));
      EntryNoClient(Run(maxRetries, before), id, ok);
    } else {
      var n := |after| - 1;
      NoClientRuns(maxRetries, before, id, ok, after[..n]);
      assert entry + after == (entry + after[..n]) + [after[n]];
      RunPlus(maxRetries, entry + after[..n], after[n]);
      EveryRun(maxRetries, entry + after[..n]);
      StepNoClient(Run(maxRetries, entry + after[..n]), after[n], id);
    }
  }

  lemma EntryNoClient(s: System, id: nat, ok: bool)
    requires id in s.callers && s.callers[id].pc == Dropping && NoneDialling(s)
    ensures NoClient(Do(s, Go(id, ok)), id)
  {
  }

  ghost predicate NoClientAt(maxRetries: nat, steps: seq<Step>, id: nat) {
    var s := Run(maxRetries, steps);
    id in s.callers && Trying(s.callers[id].pc) ==> !Usable(s)
  }

  /** However a run goes on after the entry, no client is handed out until the
      caller's own dial succeeds. */
  ghost predicate ScansStayPaused(maxRetries: nat, entry: seq<Step>, id: nat) {
    forall after :: NoClientAt(maxRetries, entry + after, id)
  }

  /** Scans pause for a whole reconnection, in every continuation, if and only if
      no probe was dialling when the loop was entered. */
  lemma ScansPause(maxRetries: nat, before: seq<Step>, id: nat, ok: bool)
    requires Enters(maxRetries, before, id)
    ensures ScansStayPaused(maxRetries, before + [Go(id, ok)], id) <==> NoneDialling(Run(maxRetries, before))
  {
    hide Run;
    var s0 := Run(maxRetries, before);
    var entry := before + [Go(id, ok)];
    if NoneDialling(s0) {
      forall after ensures NoClientAt(maxRetries, entry + after, id) {
        NoClientRuns(maxRetries, before, id, ok, after);
      }
    } else {
      var p :| p in s0.probes && s0.probes[p] == Dialling;
      assert p in MidProbes(s0);
      RunPlus(maxRetries, before, Go(id, ok));
      EntryState(s0, id, ok, p);
      var after := ProbeLifts(maxRetries, entry, id, p);
      assert !NoClientAt(maxRetries, entry + after, id);
    }
  }

  // ------------------------------------------------- such a run

  /** The first k attempts of caller 0, all failing. */
  function Failing(k: nat): seq<Step> {
    if k == 0 then [Dial(false), Enter(0), Go(0, true)]
    else Failing(k - 1) + [Go(0, true)] + [Go(0, true)] + [Go(0, false)] + [Go(0, true)]
  }

  lemma {:induction false} AfterFailing(maxRetries: nat, k: nat)
    requires k <= maxRetries
    ensures var s := Run(maxRetries, Failing(k));
      s.maxRetries == maxRetries && s.callers.Keys == {0} && s.callers[0].pc == Deciding(k + 1) && s.flag && s.dialled && s.probes == map[]
  {
    hide Run;
    if k == 0 {
      assert [Dial(false), Enter(0), Go(0, true)] == [] + [Dial(false)] + [Enter(0)] + [Go(0, true)];
      RunPlus(maxRetries, [], Dial(false));
      RunPlus(maxRetries, [] + [Dial(false)], Enter(0));
      RunPlus(maxRetries, [] + [Dial(false)] + [Enter(0)], Go(0, true));
      RunNothing(maxRetries);
    } else {
      AfterFailing(maxRetries, k - 1);
      var f := Failing(k - 1);
      RunPlus(maxRetries, f, Go(0, true));
      RunPlus(maxRetries, f + [Go(0, true)], Go(0, true));
      RunPlus(maxRetries, f + [Go(0, true)] + [Go(0, true)], Go(0, false));
      RunPlus(maxRetries, f + [Go(0, true)] + [Go(0, true)] + [Go(0, false)], Go(0, true));
    }
  }

  lemma RunNothing(maxRetries: nat)
    ensures Run(maxRetries, []) == Initial(maxRetries)
  {
  }

  /** Caller 0 fails every attempt and trips; its probe finds the device offline
      and starts to dial; caller 1, sent by a read that failed late, gets the flag. */
  function LateProbe(maxRetries: nat): seq<Step> {
    Failing(maxRetries) + [Go(0, true)] + [Go(0, true)] + [Go(0, true)] + [Go(0, true)] + [Go(0, true)]
    + [Tick(0, true)] + [Enter(1)]
  }

  /** For every number of attempts there is a run in which a probe hands out its
      client in the middle of the next reconnection. */
  lemma PauseCanBreak(maxRetries: nat)
    ensures var before := LateProbe(maxRetries);
      && Enters(maxRetries, before, 1) && 0 in MidProbes(Run(maxRetries, before))
      && !ScansStayPaused(maxRetries, before + [Go(1, true)], 1)
  {
    hide Run, Failing, ScansStayPaused;
    var f := Failing(maxRetries);
    AfterFailing(maxRetries, maxRetries);
    var s1 := f + [Go(0, true)];
    RunPlus(maxRetries, f, Go(0, true));
    var s2 := s1 + [Go(0, true)];
    RunPlus(maxRetries, s1, Go(0, true));
    var s3 := s2 + [Go(0, true)];
    RunPlus(maxRetries, s2, Go(0, true));
    var s4 := s3 + [Go(0, true)];
    RunPlus(maxRetries, s3, Go(0, true));
    var s5 := s4 + [Go(0, true)];
    RunPlus(maxRetries, s4, Go(0, true));
    var s6 := s5 + [Tick(0, true)];
    RunPlus(maxRetries, s5, Tick(0, true));
    RunPlus(maxRetries, s6, Enter(1));
    assert Run(maxRetries, LateProbe(maxRetries)).probes == map[0 := Dialling];
    ScansPause(maxRetries, LateProbe(maxRetries), 1, true);
  }
}
