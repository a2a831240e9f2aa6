/** All interleavings of reconnection goroutines, heartbeat probes, cancellation
    and closing on one connection manager
    (internal/collector/collector.go:68-155). Each step is one atomic operation
    or one lock-protected region; a run is any list of steps, where a step that
    cannot happen leaves the system as it is. */
module Reconnect {
  import opened Bits
  import opened Backoff

  /** Where a goroutine in ReconnectWithBackoff is. Everything from Dropping to
      Resetting lies between the successful compare-and-swap and the deferred
      reset of the flag. */
  datatype Pc =
    | Refused
    | Dropping
    | Deciding(attempt: nat)
    | Waiting(attempt: nat)
    | Connecting(attempt: nat)
    | Recording(attempt: nat)
    | Clearing(exit: Exit)
    | Publishing(exit: Exit)
    | Probing
    | Resetting(exit: Exit)
    | Exited(exit: Exit)

  datatype Caller = Caller(pc: Pc, attempts: nat, delays: seq<nat>)

  datatype Probe = Idle | Dialling | Raising | Lifting | Over

  /** Probes are named after the goroutine that started them. `dialled`: the
      runner has made the connection attempt that comes before everything else
      (internal/collector/runtime.go:76). */
  datatype System = System(
    maxRetries: nat,
    flag: bool,
    state: Conn,
    retryCount: nat,
    client: bool,
    dialled: bool,
    cancelled: bool,
    callers: map<nat, Caller>,
    probes: map<nat, Probe>)

  datatype Step =
    | Enter(caller: nat)
    | Go(caller: nat, ok: bool)
    | Tick(probe: nat, ok: bool)
    | Dial(ok: bool)
    | CloseClient
    | Cancel

  function Initial(maxRetries: nat): System {
    System(maxRetries, false, Online, 0, false, false, false, map[], map[])
  }

  predicate Critical(pc: Pc) { !pc.Refused? && !pc.Exited? }

  /** Next region of a caller. `ok`: the timer, not the context, ends a wait; the
      dial succeeds. */
  function Next(s: System, c: Caller, ok: bool): Caller {
    match c.pc
    case Dropping => c.(pc := Deciding(1))
    case Deciding(k) =>
      if k > s.maxRetries then c.(pc := Clearing(Tripped))
      else if k < 1 then c
      else c.(pc := Waiting(k), delays := c.delays + [Delay(k)])
    case Waiting(k) =>
      if ok then c.(pc := Connecting(k)) else if s.cancelled then c.(pc := Resetting(Exit.Cancelled)) else c
    case Connecting(k) => c.(pc := if ok then Clearing(Recovered) else Recording(k), attempts := c.attempts + 1)
    case Recording(k) => c.(pc := Deciding(k + 1))
    case Clearing(exit) => c.(pc := Publishing(exit))
    case Publishing(exit) => c.(pc := if exit == Tripped then Probing else Resetting(exit))
    case Probing => c.(pc := Resetting(Tripped))
    case Resetting(exit) => c.(pc := Exited(exit))
    case _ => c
  }

  /** What that region does to the shared fields. */
  function Shared(s: System, id: nat, pc: Pc, ok: bool): System {
    match pc
    case Dropping => s.(client := false, state := Reconnecting)
    case Connecting(_) => if ok then s.(client := true) else s
    case Recording(k) => s.(retryCount := k)
    case Clearing(_) => s.(retryCount := 0)
    case Publishing(exit) => s.(state := if exit == Tripped then Offline else Online)
    case Probing => s.(probes := s.probes[id := Idle])
    case Resetting(_) => s.(flag := false)
    case _ => s
  }

  function TickProbe(s: System, p: nat, ok: bool): System
    requires p in s.probes
  {
    match s.probes[p]
    case Idle =>
      if !ok then (if s.cancelled then s.(probes := s.probes[p := Over]) else s)
      else s.(probes := s.probes[p := if s.state == Offline then Dialling else Over])
    case Dialling =>
      if ok then s.(client := true, probes := s.probes[p := Raising]) else s.(probes := s.probes[p := Idle])
    case Raising => s.(retryCount := 0, probes := s.probes[p := Lifting])
    case Lifting => s.(state := Online, probes := s.probes[p := Over])
    case Over => s
  }

  function Do(s: System, step: Step): System {
    match step
    case Enter(id) =>
      if id in s.callers || !s.dialled then s
      else if s.flag then s.(callers := s.callers[id := Caller(Refused, 0, [])])
      else s.(flag := true, callers := s.callers[id := Caller(Dropping, 0, [])])
    case Go(id, ok) =>
      if id !in s.callers then s
      else Shared(s, id, s.callers[id].pc, ok).(callers := s.callers[id := Next(s, s.callers[id], ok)])
    case Tick(p, ok) => if p in s.probes then TickProbe(s, p, ok) else s
    case Dial(ok) => if s.dialled then s else s.(dialled := true, client := s.client || ok)
    case CloseClient => s.(client := false)
    case Cancel => s.(cancelled := true)
  }

  function Run(maxRetries: nat, steps: seq<Step>): System {
    if steps == [] then Initial(maxRetries) else Do(Run(maxRetries, steps[..|steps| - 1]), steps[|steps| - 1])
  }

  // ------------------------------------------------- the invariant

  /** The attempts made and the delays begun so far follow from the position. */
  ghost predicate CallerOk(maxRetries: nat, c: Caller) {
    && c.delays == Delays(|c.delays|)
    && match c.pc
       case Refused => c.attempts == 0 && c.delays == []
       case Dropping => c.attempts == 0 && c.delays == []
       case Deciding(k) => 1 <= k <= maxRetries + 1 && c.attempts == |c.delays| == k - 1
       case Waiting(k) => 1 <= k <= maxRetries && c.attempts + 1 == |c.delays| == k
       case Connecting(k) => 1 <= k <= maxRetries && c.attempts + 1 == |c.delays| == k
       case Recording(k) => 1 <= k <= maxRetries && c.attempts == |c.delays| == k
       case Clearing(exit) => exit != Exit.Cancelled && RunShape(maxRetries, exit, c.attempts, c.delays)
       case Publishing(exit) => exit != Exit.Cancelled && RunShape(maxRetries, exit, c.attempts, c.delays)
       case Probing => RunShape(maxRetries, Tripped, c.attempts, c.delays)
       case Resetting(exit) => RunShape(maxRetries, exit, c.attempts, c.delays)
       case Exited(exit) => RunShape(maxRetries, exit, c.attempts, c.delays)
  }

  /** A goroutine that tripped has started its probe by the time it lets go of
      the flag. */
  ghost predicate ProbeOk(s: System, id: nat, pc: Pc) {
    pc == Resetting(Tripped) || pc == Exited(Tripped) ==> id in s.probes
  }

  ghost predicate Exclusive(s: System) {
    && (forall a, b :: a in s.callers && b in s.callers && Critical(s.callers[a].pc) && Critical(s.callers[b].pc) ==> a == b)
    && (s.flag <==> exists a :: a in s.callers && Critical(s.callers[a].pc))
  }

  ghost predicate CallersOk(s: System) {
    forall a :: a in s.callers ==> CallerOk(s.maxRetries, s.callers[a]) && ProbeOk(s, a, s.callers[a].pc)
  }

  /** Reconnections come after the first dial. */
  ghost predicate InOrder(s: System) { s.callers == map[] || s.dialled }

  ghost predicate Inv(s: System) { Exclusive(s) && CallersOk(s) && InOrder(s) }

  lemma NextOk(s: System, c: Caller, ok: bool)
    requires CallerOk(s.maxRetries, c)
    ensures CallerOk(s.maxRetries, Next(s, c, ok))
    ensures c.delays <= Next(s, c, ok).delays && c.attempts <= Next(s, c, ok).attempts
  {
    if c.pc.Deciding? && c.pc.attempt <= s.maxRetries {
      DelaysSnoc(c.pc.attempt);
    }
  }

  lemma GoEffect(s: System, id: nat, ok: bool)
    requires id in s.callers
    ensures var s', was := Do(s, Go(id, ok)), s.callers[id].pc;
      && s'.callers == s.callers[id := Next(s, s.callers[id], ok)]
      && (Critical(s'.callers[id].pc) <==> Critical(was) && !was.Resetting?)
      && (s'.flag <==> s.flag && !was.Resetting?)
  {
    NextCritical(s, s.callers[id], ok);
    SharedFlag(s, id, s.callers[id].pc, ok);
    hide Next, Shared;
  }

  lemma NextCritical(s: System, c: Caller, ok: bool)
    ensures Critical(Next(s, c, ok).pc) <==> Critical(c.pc) && !c.pc.Resetting?
  {
  }

  lemma SharedFlag(s: System, id: nat, pc: Pc, ok: bool)
    ensures Shared(s, id, pc, ok).callers == s.callers && (Shared(s, id, pc, ok).flag <==> s.flag && !pc.Resetting?)
  {
  }

  /** Being in the critical section ends only at the reset, and is entered only
      through the flag. */
  lemma GoExclusive(s: System, id: nat, ok: bool)
    requires Exclusive(s) && id in s.callers
    ensures Exclusive(Do(s, Go(id, ok)))
  {
    var s' := Do(s, Go(id, ok));
    var was := s.callers[id].pc;
    GoEffect(s, id, ok);
    hide Do;
    if s'.flag {
      var a :| a in s.callers && Critical(s.callers[a].pc);
      assert a in s'.callers && Critical(s'.callers[a].pc);
    }
  }

  lemma SharedFrame(s: System, id: nat, pc: Pc, ok: bool)
    ensures var s' := Shared(s, id, pc, ok);
      && s'.callers == s.callers && s'.maxRetries == s.maxRetries
      && s'.cancelled == s.cancelled && s'.dialled == s.dialled
      && (forall p :: p in s.probes ==> p in s'.probes)
      && (pc.Probing? ==> id in s'.probes)
  {
  }

  lemma GoCallers(s: System, id: nat, ok: bool)
    requires CallersOk(s) && id in s.callers
    ensures CallersOk(Do(s, Go(id, ok)))
  {
    var c := s.callers[id];
    NextOk(s, c, ok);
    SharedFrame(s, id, c.pc, ok);
    NextProbe(s, id, c, ok);
    hide CallerOk, Shared, Next;
  }

  lemma NextProbe(s: System, id: nat, c: Caller, ok: bool)
    requires ProbeOk(s, id, c.pc) && CallerOk(s.maxRetries, c)
    ensures ProbeOk(Shared(s, id, c.pc, ok), id, Next(s, c, ok).pc)
  {
  }

  lemma EnterKeeps(s: System, id: nat)
    requires Inv(s) && id !in s.callers && s.dialled
    ensures Inv(Do(s, Enter(id)))
  {
    var s' := Do(s, Enter(id));
    if s.flag {
      var a :| a in s.callers && Critical(s.callers[a].pc);
      assert a in s'.callers && Critical(s'.callers[a].pc);
    } else {
      assert Critical(s'.callers[id].pc);
    }
  }

  /** Steps of probes and of other parties. */
  lemma ElsewhereKeeps(s: System, s': System)
    requires Inv(s)
    requires s'.callers == s.callers && s'.flag == s.flag && s'.maxRetries == s.maxRetries
    requires s.dialled ==> s'.dialled
    requires s'.probes.Keys == s.probes.Keys
    ensures Inv(s')
  {
    hide CallerOk, Critical;
  }

  lemma TickFrame(s: System, p: nat, ok: bool)
    requires p in s.probes
    ensures var s' := TickProbe(s, p, ok);
      && s'.callers == s.callers && s'.flag == s.flag && s'.maxRetries == s.maxRetries
      && s'.dialled == s.dialled && s'.cancelled == s.cancelled
      && s'.probes.Keys == s.probes.Keys
  {
  }

  lemma StepKeeps(s: System, step: Step)
    requires Inv(s)
    ensures Inv(Do(s, step)) && Do(s, step).maxRetries == s.maxRetries
  {
    match step
    case Enter(id) => if id !in s.callers && s.dialled { EnterKeeps(s, id); }
    case Go(id, ok) =>
      if id in s.callers {
        hide Exclusive, CallersOk, Shared, Next;
        SharedFrame(s, id, s.callers[id].pc, ok);
        GoExclusive(s, id, ok);
        GoCallers(s, id, ok);
      }
    case Tick(p, ok) =>
      if p in s.probes {
        hide Inv, TickProbe;
        TickFrame(s, p, ok);
        ElsewhereKeeps(s, Do(s, step));
      }
    case _ =>
      hide Inv;
      ElsewhereKeeps(s, Do(s, step));
  }

  lemma {:induction false} EveryRun(maxRetries: nat, steps: seq<Step>)
    ensures Inv(Run(maxRetries, steps)) && Run(maxRetries, steps).maxRetries == maxRetries
  {
    if steps == [] {
    } else {
      hide Inv, Do;
      EveryRun(maxRetries, steps[..|steps| - 1]);
      StepKeeps(Run(maxRetries, steps[..|steps| - 1]), steps[|steps| - 1]);
    }
  }

  /** In every run at most one goroutine is between the compare-and-swap and the
      deferred reset, and the flag is up exactly while there is one. */
  lemma AtMostOneReconnects(maxRetries: nat, steps: seq<Step>)
    ensures var s := Run(maxRetries, steps);
      && (forall a, b :: a in s.callers && b in s.callers && Critical(s.callers[a].pc) && Critical(s.callers[b].pc) ==> a == b)
      && (s.flag <==> exists a :: a in s.callers && Critical(s.callers[a].pc))
  {
    hide Run, CallersOk;
    EveryRun(maxRetries, steps);
  }

  /** However the steps interleave, a call makes at most maxRetries attempts with
      the prescribed delays, and it ends recovered, tripped with its probe
      started, or cancelled. */
  lemma EveryCallIsBounded(maxRetries: nat, steps: seq<Step>, id: nat)
    requires id in Run(maxRetries, steps).callers
    ensures var s := Run(maxRetries, steps);
      var c := s.callers[id];
      && c.attempts <= maxRetries && |c.delays| <= maxRetries && c.delays == Delays(|c.delays|)
      && (maxRetries >= 5 ==> Sum(c.delays) <= 31 + 30 * (maxRetries - 5))
      && (c.pc.Exited? ==> RunShape(maxRetries, c.pc.exit, c.attempts, c.delays) && (c.pc.exit == Tripped ==> id in s.probes))
      && (c.pc.Refused? ==> c.attempts == 0 && c.delays == [])
  {
    hide Run, Exclusive;
    EveryRun(maxRetries, steps);
    var c := Run(maxRetries, steps).callers[id];
    TotalDelay(|c.delays|);
    Pow2Grows(|c.delays|, if |c.delays| <= 5 then 5 else |c.delays|);
    assert Pow2(5) == 32;
  }

  // ------------------------------------------------- termination

  /** Own steps a caller can still take. */
  function Rank(maxRetries: nat, pc: Pc): nat {
    match pc
    case Dropping => 4 * maxRetries + 6
    case Deciding(k) => if k <= maxRetries then 4 * (maxRetries + 1 - k) + 5 else 5
    case Waiting(k) => if k <= maxRetries then 4 * (maxRetries + 1 - k) + 4 else 0
    case Connecting(k) => if k <= maxRetries then 4 * (maxRetries + 1 - k) + 3 else 0
    case Recording(k) => if k <= maxRetries then 4 * (maxRetries + 1 - k) + 2 else 0
    case Clearing(_) => 4
    case Publishing(_) => 3
    case Probing => 2
    case Resetting(_) => 1
    case _ => 0
  }

  /** Every own step brings the call closer to its end, except waiting on a
      context that is not done. */
  lemma OwnStepDescends(s: System, c: Caller, ok: bool)
    requires CallerOk(s.maxRetries, c)
    ensures var n := Next(s, c, ok);
      && Rank(s.maxRetries, n.pc) <= Rank(s.maxRetries, c.pc)
      && (Critical(c.pc) && (ok || s.cancelled || !c.pc.Waiting?) ==> Rank(s.maxRetries, n.pc) < Rank(s.maxRetries, c.pc))
      && (Rank(s.maxRetries, c.pc) == 0 <==> !Critical(c.pc))
  {
  }

  /** Steps in which the goroutine itself moves and its timer, if any, fires. */
  function OwnSteps(steps: seq<Step>, id: nat): nat {
    if steps == [] then 0
    else OwnSteps(steps[..|steps| - 1], id) + if steps[|steps| - 1] == Go(id, true) then 1 else 0
  }

  lemma StepRank(maxRetries: nat, s: System, step: Step, id: nat)
    requires Inv(s) && s.maxRetries == maxRetries && id in s.callers
    ensures var s' := Do(s, step);
      && id in s'.callers
      && Rank(maxRetries, s'.callers[id].pc)
         <= (if step == Go(id, true) && Rank(maxRetries, s.callers[id].pc) > 0 then Rank(maxRetries, s.callers[id].pc) - 1
             else Rank(maxRetries, s.callers[id].pc))
  {
    hide Exclusive, CallerOk, Rank;
    match step
    case Go(a, ok) =>
      if a in s.callers {
        SharedFrame(s, a, s.callers[a].pc, ok);
        OwnStepDescends(s, s.callers[a], ok);
      }
      hide Shared, Next;
    case Tick(p, ok) => if p in s.probes { TickFrame(s, p, ok); }
    case _ =>
  }

  lemma {:induction false} RankDescends(maxRetries: nat, before: seq<Step>, after: seq<Step>, id: nat)
    requires id in Run(maxRetries, before).callers
    ensures var s := Run(maxRetries, before + after);
      var start := Rank(maxRetries, Run(maxRetries, before).callers[id].pc);
      && id in s.callers
      && Rank(maxRetries, s.callers[id].pc) <= if start >= OwnSteps(after, id) then start - OwnSteps(after, id) else 0
  {
    hide Inv, Rank;
    if after == [] {
      assert before + after == before;
    } else {
      var n := |after| - 1;
      RankDescends(maxRetries, before, after[..n], id);
      assert before + after == (before + after[..n]) + [after[n]];
      RunPlus(maxRetries, before + after[..n], after[n]);
      hide Run, Do;
      EveryRun(maxRetries, before + after[..n]);
      StepRank(maxRetries, Run(maxRetries, before + after[..n]), after[n], id);
    }
  }

  lemma RunPlus(maxRetries: nat, steps: seq<Step>, step: Step)
    ensures Run(maxRetries, steps + [step]) == Do(Run(maxRetries, steps), step)
  {
    assert (steps + [step])[..|steps|] == steps;
  }

  /** A call ends within 4 * maxRetries + 6 steps of its own, whatever the others
      do in between. */
  lemma EveryCallEnds(maxRetries: nat, before: seq<Step>, after: seq<Step>, id: nat)
    requires id in Run(maxRetries, before).callers && OwnSteps(after, id) >= 4 * maxRetries + 6
    ensures var s := Run(maxRetries, before + after);
      id in s.callers && (s.callers[id].pc.Refused? || s.callers[id].pc.Exited?)
  {
    hide Inv, Exclusive;
    RankDescends(maxRetries, before, after, id);
    RankBound(maxRetries, before, id);
    EveryRun(maxRetries, before + after);
    var s := Run(maxRetries, before + after);
    CallerSeen(s, id);
    OwnStepDescends(s, s.callers[id], true);
  }

  lemma CallerSeen(s: System, id: nat)
    requires Inv(s) && id in s.callers
    ensures CallerOk(s.maxRetries, s.callers[id])
  {
  }

  lemma RankBound(maxRetries: nat, steps: seq<Step>, id: nat)
    requires id in Run(maxRetries, steps).callers
    ensures Rank(maxRetries, Run(maxRetries, steps).callers[id].pc) <= 4 * maxRetries + 6
  {
    hide Run, Exclusive;
    EveryRun(maxRetries, steps);
    CallerSeen(Run(maxRetries, steps), id);
  }
}
