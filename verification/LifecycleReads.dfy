/** What a launched runner was loaded with: the device row and the points are
    read separately, each as stored at some moment after the call
    (internal/runtime/manager.go:128-193, 240-276). */
module LifecycleReads {
  import opened Points
  import opened Store
  import opened Lifecycle
  import opened LifecycleSafety

  /** The device row after these steps. */
  ghost predicate RowAt(t: Tables, id: int, steps: seq<Step>, version: int, connection: Connection) {
    var devices := Run(t, id, steps).tables.devices;
    id in devices && devices[id].version == version && devices[id].connection == connection
  }

  ghost predicate PointsAt(t: Tables, id: int, steps: seq<Step>, points: map<int, Point>) {
    PointsOf(Run(t, id, steps).tables, id) == points
  }

  /** The row was stored after some of the first n steps that follow the call. */
  ghost predicate RowSeen(t: Tables, id: int, base: seq<Step>, after: seq<Step>, n: nat, version: int, connection: Connection)
    requires n <= |after|
  {
    exists a :: 0 <= a <= n && RowAt(t, id, base + after[..a], version, connection)
  }

  /** So was the row of the configuration, and its points at that moment or a
      later one. */
  ghost predicate ConfigSeen(t: Tables, id: int, base: seq<Step>, after: seq<Step>, n: nat, c: Config)
    requires n <= |after|
  {
    exists a, b :: 0 <= a <= b <= n && RowAt(t, id, base + after[..a], c.version, c.connection) && PointsAt(t, id, base + after[..b], c.points)
  }

  ghost predicate NextSeen(t: Tables, id: int, base: seq<Step>, after: seq<Step>, n: nat, next: Option<Device>)
    requires n <= |after|
  {
    next.Some? ==> RowSeen(t, id, base, after, n, next.value.version, next.value.connection)
  }

  /** Everything an operation carries was read after its call. */
  ghost predicate Reads(t: Tables, id: int, base: seq<Step>, after: seq<Step>, n: nat, s: State, pc: Pc)
    requires n <= |after|
  {
    match pc
    case Locking(next) => NextSeen(t, id, base, after, n, next)
    case Halting(next) => NextSeen(t, id, base, after, n, next)
    case Cancelling(_, next) => NextSeen(t, id, base, after, n, next)
    case Awaiting(_, next, _) => NextSeen(t, id, base, after, n, next)
    case Checking(d) => RowSeen(t, id, base, after, n, d.version, d.connection)
    case Loading(d) => RowSeen(t, id, base, after, n, d.version, d.connection)
    case Installing(c) => ConfigSeen(t, id, base, after, n, c)
    case Releasing(result) => LaunchSeen(t, id, base, after, n, s, result)
    case Ended(result) => LaunchSeen(t, id, base, after, n, s, result)
    case _ => true
  }

  ghost predicate LaunchSeen(t: Tables, id: int, base: seq<Step>, after: seq<Step>, n: nat, s: State, result: Result)
    requires n <= |after|
  {
    result.Launched? ==> result.runner in s.runners && ConfigSeen(t, id, base, after, n, s.runners[result.runner].config)
  }

  lemma RowSeenLater(t: Tables, id: int, base: seq<Step>, after: seq<Step>, n: nat, version: int, connection: Connection)
    requires n < |after| && RowSeen(t, id, base, after, n, version, connection)
    ensures RowSeen(t, id, base, after, n + 1, version, connection)
  {
    var a :| 0 <= a <= n && RowAt(t, id, base + after[..a], version, connection);
  }

  lemma ConfigSeenLater(t: Tables, id: int, base: seq<Step>, after: seq<Step>, n: nat, c: Config)
    requires n < |after| && ConfigSeen(t, id, base, after, n, c)
    ensures ConfigSeen(t, id, base, after, n + 1, c)
  {
    var a, b :| 0 <= a <= b <= n && RowAt(t, id, base + after[..a], c.version, c.connection) && PointsAt(t, id, base + after[..b], c.points);
  }

  /** A step in which the operation stays where it is. */
  lemma ReadsLater(t: Tables, id: int, base: seq<Step>, after: seq<Step>, n: nat, s: State, s': State, pc: Pc)
    requires n < |after| && Reads(t, id, base, after, n, s, pc)
    requires forall r :: r in s.runners ==> r in s'.runners && s'.runners[r].config == s.runners[r].config
    ensures Reads(t, id, base, after, n + 1, s', pc)
  {
    hide RowSeen, ConfigSeen;
    match pc
    case Locking(next) => if next.Some? { RowSeenLater(t, id, base, after, n, next.value.version, next.value.connection); }
    case Halting(next) => if next.Some? { RowSeenLater(t, id, base, after, n, next.value.version, next.value.connection); }
    case Cancelling(_, next) => if next.Some? { RowSeenLater(t, id, base, after, n, next.value.version, next.value.connection); }
    case Awaiting(_, next, _) => if next.Some? { RowSeenLater(t, id, base, after, n, next.value.version, next.value.connection); }
    case Checking(d) => RowSeenLater(t, id, base, after, n, d.version, d.connection);
    case Loading(d) => RowSeenLater(t, id, base, after, n, d.version, d.connection);
    case Installing(c) => ConfigSeenLater(t, id, base, after, n, c);
    case Releasing(result) => if result.Launched? { ConfigSeenLater(t, id, base, after, n, s.runners[result.runner].config); }
    case Ended(result) => if result.Launched? { ConfigSeenLater(t, id, base, after, n, s.runners[result.runner].config); }
    case _ =>
  }

  lemma RunnersStay(s: State, step: Step)
    requires Inv(s)
    ensures forall r :: r in s.runners ==> r in Do(s, step).runners && Do(s, step).runners[r].config == s.runners[r].config
  {
    hide Consistent, LockOk, OpsOk, SoundConfig, RunnerStep, Continue, After;
    match step
    case Advance(op, ok) => if op in s.ops { AdvanceRunners(s, op, ok); }
    case Progress(r) => if r in s.runners { RunnerStepFrame(s, r); }
    case _ =>
  }

  /** The only new runner is the installed one, under a new number. */
  lemma AdvanceRunners(s: State, op: nat, ok: bool)
    requires op in s.ops
    ensures var s' := Continue(s, op, ok);
      s'.runners == s.runners || (s.nextRunner in s'.runners && s'.runners == s.runners[s.nextRunner := s'.runners[s.nextRunner]])
  {
    hide PointsOf, Execute, After;
  }

  lemma ReadRowNow(t: Tables, id: int, base: seq<Step>, after: seq<Step>, n: nat, d: Device)
    requires n < |after| && id in Run(t, id, base + after[..n]).tables.devices
    requires Run(t, id, base + after[..n]).tables.devices[id] == d
    ensures RowSeen(t, id, base, after, n + 1, d.version, d.connection)
  {
    hide Run;
    assert RowAt(t, id, base + after[..n], d.version, d.connection);
  }

  lemma ReadPointsNow(t: Tables, id: int, base: seq<Step>, after: seq<Step>, n: nat, d: Device)
    requires n < |after| && RowSeen(t, id, base, after, n, d.version, d.connection)
    ensures ConfigSeen(t, id, base, after, n + 1, Config(d.version, d.connection, PointsOf(Run(t, id, base + after[..n]).tables, id)))
  {
    hide Run, PointsOf;
    var a :| 0 <= a <= n && RowAt(t, id, base + after[..a], d.version, d.connection);
    assert PointsAt(t, id, base + after[..n], PointsOf(Run(t, id, base + after[..n]).tables, id));
  }

  /** The operation's own step: it carries on what it had, or reads anew. */
  lemma OwnStepReads(t: Tables, id: int, base: seq<Step>, after: seq<Step>, n: nat, op: nat, ok: bool)
    requires Consistent(t) && n < |after|
    requires var s := Run(t, id, base + after[..n]);
      op in s.ops && s.id == id && Inv(s) && Reads(t, id, base, after, n, s, s.ops[op].pc)
    ensures var s := Run(t, id, base + after[..n]);
      var s' := Continue(s, op, ok);
      op in s'.ops && Reads(t, id, base, after, n + 1, s', s'.ops[op].pc)
  {
    hide Run, Inv, RowSeen, ConfigSeen, PointsOf, Execute, After, Consistent, Continue;
    var s := Run(t, id, base + after[..n]);
    var s' := Continue(s, op, ok);
    RunnersStay(s, Advance(op, ok));
    ReadsLater(t, id, base, after, n, s, s', s.ops[op].pc);
    match s.ops[op].pc
    case Fetching =>
      FetchingStep(s, op, ok);
      if id in s.tables.devices { ReadRowNow(t, id, base, after, n, s.tables.devices[id]); }
    case Loading(d) =>
      LoadingStep(s, op, ok);
      ReadPointsNow(t, id, base, after, n, d);
    case Installing(c) => InstallingStep(s, op, ok);
    case _ => CarriedOn(s, op, ok);
  }

  lemma FetchingStep(s: State, op: nat, ok: bool)
    requires op in s.ops && s.ops[op].pc.Fetching?
    ensures op in Continue(s, op, ok).ops
    ensures Continue(s, op, ok).ops[op].pc == Releasing(Aborted)
            || (s.id in s.tables.devices && Continue(s, op, ok).ops[op].pc == Fetched(s.ops[op].kind, s.tables.devices[s.id]))
  {
  }

  lemma LoadingStep(s: State, op: nat, ok: bool)
    requires op in s.ops && s.ops[op].pc.Loading?
    ensures op in Continue(s, op, ok).ops
    ensures var d := s.ops[op].pc.device;
      Continue(s, op, ok).ops[op].pc == Releasing(Aborted)
      || Continue(s, op, ok).ops[op].pc == Installing(Config(d.version, d.connection, PointsOf(s.tables, s.id)))
  {
    hide PointsOf;
  }

  lemma InstallingStep(s: State, op: nat, ok: bool)
    requires op in s.ops && s.ops[op].pc.Installing?
    ensures var s' := Continue(s, op, ok);
      && op in s'.ops
      && (s'.ops[op].pc == Releasing(Aborted)
          || (s'.ops[op].pc == Releasing(Launched(s.nextRunner)) && s.nextRunner in s'.runners
              && s'.runners[s.nextRunner].config == s.ops[op].pc.config))
  {
  }

  /** The device row an operation carries, if any. */
  function Carried(pc: Pc): Option<Device> {
    match pc
    case Locking(next) => next
    case Halting(next) => next
    case Cancelling(_, next) => next
    case Awaiting(_, next, _) => next
    case Checking(d) => Some(d)
    case Loading(d) => Some(d)
    case _ => None
  }

  predicate Reading(pc: Pc) { pc.Fetching? || pc.Loading? || pc.Installing? }

  /** Every other region hands the same row on, drops it, or passes the result. */
  lemma CarriedOn(s: State, op: nat, ok: bool)
    requires op in s.ops && !Reading(s.ops[op].pc)
    ensures var pc, s' := s.ops[op].pc, Continue(s, op, ok);
      && op in s'.ops
      && var pc' := s'.ops[op].pc;
        && !pc'.Installing? && (Carried(pc').Some? ==> Carried(pc') == Carried(pc))
        && (pc'.Releasing? && pc'.result.Launched? ==> pc' == pc)
        && (pc'.Ended? && pc'.result.Launched? ==> pc' == pc || pc == Releasing(pc'.result))
  {
    hide PointsOf, Execute, After;
  }

  /** From the call on, whatever an operation carries or has launched was read
      after the call. */
  lemma {:induction false} CallReads(t: Tables, id: int, before: seq<Step>, after: seq<Step>, n: nat, op: nat, kind: Kind)
    requires Consistent(t) && op !in Run(t, id, before).ops && n <= |after|
    ensures var base := before + [Call(op, kind)];
      var s := Run(t, id, base + after[..n]);
      op in s.ops && Reads(t, id, base, after, n, s, s.ops[op].pc)
  {
    hide Run, Inv, Do, Reads, Consistent;
    var base := before + [Call(op, kind)];
    if n == 0 {
      assert base + after[..0] == base;
      RunPlus(t, id, before, Call(op, kind));
      SameDevice(t, id, before);
      FirstReads(t, id, before, after, op, kind);
    } else {
      CallReads(t, id, before, after, n - 1, op, kind);
      var s := Run(t, id, base + after[..n - 1]);
      assert base + after[..n] == (base + after[..n - 1]) + [after[n - 1]];
      RunPlus(t, id, base + after[..n - 1], after[n - 1]);
      EveryRun(t, id, base + after[..n - 1]);
      SameDevice(t, id, base + after[..n - 1]);
      if after[n - 1].Advance? && after[n - 1].op == op {
        OwnStepReads(t, id, base, after, n - 1, op, after[n - 1].ok);
        AdvanceIs(s, op, after[n - 1].ok);
      } else {
        RunnersStay(s, after[n - 1]);
        OtherStep(s, after[n - 1], op);
        ReadsLater(t, id, base, after, n - 1, s, Do(s, after[n - 1]), s.ops[op].pc);
      }
    }
  }

  lemma AdvanceIs(s: State, op: nat, ok: bool)
    requires op in s.ops
    ensures Do(s, Advance(op, ok)) == Continue(s, op, ok)
  {
  }

  lemma OtherStep(s: State, step: Step, op: nat)
    requires op in s.ops && !(step.Advance? && step.op == op)
    ensures op in Do(s, step).ops && Do(s, step).ops[op] == s.ops[op]
  {
    hide PointsOf, Execute, After;
  }

  lemma FirstReads(t: Tables, id: int, before: seq<Step>, after: seq<Step>, op: nat, kind: Kind)
    requires op !in Run(t, id, before).ops && Run(t, id, before).id == id
    requires Run(t, id, before + [Call(op, kind)]) == Do(Run(t, id, before), Call(op, kind))
    ensures var base := before + [Call(op, kind)];
      var s := Run(t, id, base);
      op in s.ops && Reads(t, id, base, after, 0, s, s.ops[op].pc)
  {
    hide Run;
    var base := before + [Call(op, kind)];
    var s0, s := Run(t, id, before), Run(t, id, base);
    assert base + after[..0] == base;
    assert s.tables == s0.tables;
    if id in s.tables.devices {
      var d := s.tables.devices[id];
      assert RowAt(t, id, base + after[..0], d.version, d.connection);
      assert RowSeen(t, id, base, after, 0, d.version, d.connection);
    }
  }

  /** A runner launched by a call works with the device row that was stored at
      some moment after the call, and with the points stored at that moment or a
      later one. */
  lemma LaunchReadsStored(t: Tables, id: int, before: seq<Step>, after: seq<Step>, op: nat, kind: Kind, r: nat)
    requires Consistent(t) && op !in Run(t, id, before).ops
    requires var s := Run(t, id, before + [Call(op, kind)] + after);
      op in s.ops && s.ops[op].pc == Ended(Launched(r))
    ensures var base := before + [Call(op, kind)];
      var s := Run(t, id, base + after);
      r in s.runners && ConfigSeen(t, id, base, after, |after|, s.runners[r].config)
  {
    hide Run, ConfigSeen, Consistent;
    assert after[..|after|] == after;
    CallReads(t, id, before, after, |after|, op, kind);
  }
}
