/** All interleavings of the lifecycle operations on one device, its runner
    goroutines, and other clients of the store (internal/runtime/manager.go,
    internal/collector/runtime.go:62-97). Each step is one lock-protected
    region, one store transaction or one store read; a run is any list of steps,
    where a step that cannot happen leaves the state as it is. */
module Lifecycle {
  import opened Points
  import opened Store

  datatype Kind = Start | Stop | Restart | StartEnabled | StopAll

  /** The configuration a runner is built from: the device row, and the points
      from a later read. */
  datatype Config = Config(version: int, connection: Connection, points: map<int, Point>)

  datatype Result = Busy | Aborted | Skipped | AlreadyRunning | Stopped | Launched(runner: nat)

  /** Where an operation is. `next` is the device row that startLocked will use
      once stopLocked is through, None when there is nothing to start. */
  datatype Pc =
    | Locking(next: Option<Device>)
    | Enabling
    | Fetching
    | Halting(next: Option<Device>)
    | Cancelling(runner: nat, next: Option<Device>)
    | Awaiting(runner: nat, next: Option<Device>, closed: bool)
    | Checking(device: Device)
    | Loading(device: Device)
    | Installing(config: Config)
    | Releasing(result: Result)
    | Ended(result: Result)

  /** `since` and `floor` only record the stored version and the next runner
      number when the operation was called. */
  datatype Op = Op(kind: Kind, since: int, floor: nat, pc: Pc)

  /** Leaving: the scan loop is over and the deferred ResetDevice is next.
      Returned: Run has returned. Detached: the entry is cleared. Closed: so is
      the done channel. */
  datatype Stage = Collecting | Leaving | Returned | Detached | Closed

  datatype Runner = Runner(stage: Stage, config: Config)

  datatype State = State(
    id: int,
    tables: Tables,
    holder: Option<nat>,
    ops: map<nat, Op>,
    runner: Option<nat>,
    loaded: Option<Config>,
    runners: map<nat, Runner>,
    nextRunner: nat,
    cancelled: set<nat>,
    baseline: Option<nat>)

  datatype Step =
    | Call(op: nat, kind: Kind)
    | Advance(op: nat, ok: bool)
    | Progress(runner: nat)
    | Submit(runner: nat)
    | Edit(command: Command)
    | Reconfigure

  /** The program starts with whatever the database holds. */
  function Initial(t: Tables, id: int): State {
    State(id, t, None, map[], None, None, map[], 0, {}, None)
  }

  function StoredVersion(t: Tables, id: int): int {
    if id in t.devices then t.devices[id].version else 0
  }

  function WithPc(s: State, op: nat, pc: Pc): State
    requires op in s.ops
  {
    s.(ops := s.ops[op := s.ops[op].(pc := pc)])
  }

  // ------------------------------------------------- operations

  /** A call up to its first blocking point: TryLock for the interactive
      operations, ListDevices for StartEnabled. */
  function Begin(s: State, op: nat, kind: Kind): State {
    if op in s.ops then s
    else match kind
      case StartEnabled =>
        if s.id in s.tables.devices && s.tables.devices[s.id].enabled
        then Called(s, op, kind, Locking(Some(s.tables.devices[s.id])))
        else Called(s, op, kind, Ended(Skipped))
      case StopAll => Called(s, op, kind, Locking(None))
      case _ =>
        if s.holder.Some? then Called(s, op, kind, Ended(Busy))
        else Called(s, op, kind, Enabling).(holder := Some(op))
  }

  function Called(s: State, op: nat, kind: Kind, pc: Pc): State {
    s.(ops := s.ops[op := Op(kind, StoredVersion(s.tables, s.id), s.nextRunner, pc)])
  }

  /** After stopLocked returned nil. */
  function Halted(next: Option<Device>): Pc {
    match next case None => Releasing(Stopped) case Some(device) => Checking(device)
  }

  function Fetched(kind: Kind, device: Device): Pc {
    match kind
    case Stop => Halting(None)
    case Restart => Halting(Some(device))
    case _ => Checking(device)
  }

  /** The next region of an operation. `ok` is false when it fails there: a store
      error, a failed Close, or the caller's context running out. */
  function Continue(s: State, op: nat, ok: bool): State
    requires op in s.ops
  {
    match s.ops[op].pc
    case Locking(next) =>
      if s.holder.Some? then s
      else WithPc(s, op, if next.Some? then Checking(next.value) else Halting(None)).(holder := Some(op))
    case Enabling =>
      var c := SetDeviceEnabled(s.id, s.ops[op].kind != Stop);
      if !ok || Execute(s.tables, c).Failed? then WithPc(s, op, Releasing(Aborted))
      else WithPc(s, op, Fetching).(tables := After(s.tables, c))
    case Fetching =>
      if !ok || s.id !in s.tables.devices then WithPc(s, op, Releasing(Aborted))
      else WithPc(s, op, Fetched(s.ops[op].kind, s.tables.devices[s.id]))
    case Halting(next) =>
      WithPc(s, op, if s.runner.None? then Halted(next) else Cancelling(s.runner.value, next))
    case Cancelling(runner, next) =>
      WithPc(s, op, Awaiting(runner, next, ok)).(cancelled := s.cancelled + {runner})
    case Awaiting(runner, next, closed) =>
      if !ok then WithPc(s, op, Releasing(Aborted))
      else if runner !in s.runners || s.runners[runner].stage != Closed then s
      else WithPc(s, op, if closed then Halted(next) else Releasing(Aborted))
    case Checking(device) =>
      WithPc(s, op, if s.runner.Some? then Releasing(AlreadyRunning) else Loading(device))
    case Loading(device) =>
      if !ok then WithPc(s, op, Releasing(Aborted))
      else WithPc(s, op, Installing(Config(device.version, device.connection, PointsOf(s.tables, s.id))))
    case Installing(config) =>
      if !ok || config.points == map[] then WithPc(s, op, Releasing(Aborted)) else Install(s, op, config)
    case Releasing(result) =>
      WithPc(s, op, Ended(result)).(holder := None)
    case Ended(_) => s
  }

  function Install(s: State, op: nat, config: Config): State
    requires op in s.ops
  {
    WithPc(s, op, Releasing(Launched(s.nextRunner))).(
      runner := Some(s.nextRunner), loaded := Some(config),
      runners := s.runners[s.nextRunner := Runner(Collecting, config)], nextRunner := s.nextRunner + 1)
  }

  // ------------------------------------------------- runner goroutines

  function AtStage(s: State, r: nat, stage: Stage): State
    requires r in s.runners
  {
    s.(runners := s.runners[r := s.runners[r].(stage := stage)])
  }

  /** The scan loop ends only when its context is cancelled; the deferred
      ResetDevice runs before Run returns; the entry is cleared only if it still
      names this runner. */
  function RunnerStep(s: State, r: nat): State
    requires r in s.runners
  {
    match s.runners[r].stage
    case Collecting => if r in s.cancelled then AtStage(s, r, Leaving) else s
    case Leaving => AtStage(s, r, Returned).(baseline := None)
    case Returned => if s.runner == Some(r) then AtStage(s, r, Detached).(runner := None) else AtStage(s, r, Detached)
    case Detached => AtStage(s, r, Closed)
    case Closed => s
  }

  function Do(s: State, step: Step): State {
    match step
    case Call(op, kind) => Begin(s, op, kind)
    case Advance(op, ok) => if op in s.ops then Continue(s, op, ok) else s
    case Progress(r) => if r in s.runners then RunnerStep(s, r) else s
    case Submit(r) => if r in s.runners && s.runners[r].stage == Collecting then s.(baseline := Some(r)) else s
    case Edit(c) => s.(tables := After(s.tables, c))
    case Reconfigure => s.(baseline := None)
  }

  function Run(t: Tables, id: int, steps: seq<Step>): State {
    if steps == [] then Initial(t, id) else Do(Run(t, id, steps[..|steps| - 1]), steps[|steps| - 1])
  }

  // ------------------------------------------------- the invariant

  predicate Holds(pc: Pc) { !pc.Locking? && !pc.Ended? }

  predicate Unreturned(stage: Stage) { stage == Collecting || stage == Leaving }

  predicate Attached(stage: Stage) { Unreturned(stage) || stage == Returned }

  /** A device row read earlier: it is older than the stored one or has the same
      connection. */
  ghost predicate SoundDevice(t: Tables, id: int, since: int, d: Device) {
    && d.version >= since && d.version >= 1 && id < t.nextDevice
    && (id in t.devices ==>
          && d.version <= t.devices[id].version
          && (d.version == t.devices[id].version ==> d.connection == t.devices[id].connection))
  }

  /** Likewise for a whole configuration, points included. */
  ghost predicate SoundConfig(t: Tables, id: int, since: int, c: Config) {
    && c.version >= since && c.version >= 1 && id < t.nextDevice
    && (id in t.devices ==>
          && c.version <= t.devices[id].version
          && (c.version == t.devices[id].version ==> c.connection == t.devices[id].connection && c.points == PointsOf(t, id)))
  }

  ghost predicate SoundNext(t: Tables, id: int, op: Op, next: Option<Device>) {
    && (next.None? <==> op.kind == Stop || op.kind == StopAll)
    && (next.Some? ==> SoundDevice(t, id, op.since, next.value))
  }

  ghost predicate SinceSound(t: Tables, id: int, since: int) {
    since >= 1 ==> id < t.nextDevice && (id in t.devices ==> since <= t.devices[id].version)
  }

  ghost predicate ResultOk(s: State, op: Op, result: Result) {
    && (op.kind == Restart ==> result != AlreadyRunning && result != Stopped)
    && (result == Stopped ==> op.kind == Stop || op.kind == StopAll)
    && (result == Skipped ==> op.kind == StartEnabled)
    && (result.Launched? ==>
          && op.floor <= result.runner && result.runner in s.runners
          && s.runners[result.runner].config.version >= op.since)
  }

  ghost predicate OpOk(s: State, op: Op) {
    && op.floor <= s.nextRunner
    && SinceSound(s.tables, s.id, op.since)
    && match op.pc
       case Locking(next) => SoundNext(s.tables, s.id, op, next) && op.kind != Restart
       case Enabling => op.kind != StartEnabled && op.kind != StopAll
       case Fetching => op.kind != StartEnabled && op.kind != StopAll
       case Halting(next) => SoundNext(s.tables, s.id, op, next)
       case Cancelling(r, next) => SoundNext(s.tables, s.id, op, next) && Stoppable(s, r)
       case Awaiting(r, next, _) => SoundNext(s.tables, s.id, op, next) && Stoppable(s, r) && r in s.cancelled
       case Checking(d) => SoundDevice(s.tables, s.id, op.since, d) && (op.kind == Restart ==> s.runner.None?)
                           && op.kind != Stop && op.kind != StopAll
       case Loading(d) => SoundDevice(s.tables, s.id, op.since, d) && s.runner.None?
       case Installing(c) => SoundConfig(s.tables, s.id, op.since, c) && s.runner.None?
       case Releasing(result) => ResultOk(s, op, result) && (result == Stopped ==> s.runner.None?)
       case Ended(result) => ResultOk(s, op, result)
  }

  /** stopLocked works on the installed runner or on one that is already gone. */
  ghost predicate Stoppable(s: State, r: nat) {
    r in s.runners && (s.runner == Some(r) || s.runner.None?)
  }

  ghost predicate LockOk(s: State) {
    && (s.holder.Some? ==> s.holder.value in s.ops)
    && (forall op :: op in s.ops ==> (Holds(s.ops[op].pc) <==> s.holder == Some(op)))
  }

  ghost predicate RunnersOk(s: State) {
    && (s.runner.Some? ==> s.runner.value in s.runners && s.loaded == Some(s.runners[s.runner.value].config))
    && (forall r :: r in s.runners ==> r < s.nextRunner && (Attached(s.runners[r].stage) <==> s.runner == Some(r)))
    && (s.baseline.Some? ==> s.baseline.value in s.runners && Unreturned(s.runners[s.baseline.value].stage))
  }

  ghost predicate OpsOk(s: State) {
    forall op :: op in s.ops ==> OpOk(s, s.ops[op])
  }

  ghost predicate Inv(s: State) {
    && Consistent(s.tables) && LockOk(s) && RunnersOk(s) && OpsOk(s)
    && (s.loaded.Some? ==> SoundConfig(s.tables, s.id, 0, s.loaded.value))
  }

  // ------------------------------------------------- what one step may change

  /** What every step does to the state seen by an operation that does not take
      part: versions track the configuration, runners stay with their
      configuration, and the entry may be cleared. */
  ghost predicate Extends(s: State, s': State) {
    && s'.id == s.id && VersionTracks(s.tables, s'.tables, s.id)
    && s.nextRunner <= s'.nextRunner && s.cancelled <= s'.cancelled
    && (forall r :: r in s.runners ==> r in s'.runners && s'.runners[r].config == s.runners[r].config)
  }

  lemma DeviceStaysSound(t: Tables, t': Tables, id: int, since: int, d: Device)
    requires SoundDevice(t, id, since, d) && VersionTracks(t, t', id)
    ensures SoundDevice(t', id, since, d)
  {
  }

  lemma ConfigStaysSound(t: Tables, t': Tables, id: int, since: int, c: Config)
    requires SoundConfig(t, id, since, c) && VersionTracks(t, t', id)
    ensures SoundConfig(t', id, since, c)
  {
  }

  lemma NextStaysSound(t: Tables, t': Tables, id: int, op: Op, next: Option<Device>)
    requires SoundNext(t, id, op, next) && VersionTracks(t, t', id)
    ensures SoundNext(t', id, op, next)
  {
    if next.Some? { DeviceStaysSound(t, t', id, op.since, next.value); }
  }

  lemma OpStaysOk(s: State, s': State, op: Op)
    requires OpOk(s, op) && Extends(s, s')
    requires s'.runner == s.runner || s'.runner.None? || !Holds(op.pc)
    ensures OpOk(s', op)
  {
    hide VersionTracks, SoundDevice, SoundConfig, SoundNext;
    assert SinceSound(s'.tables, s.id, op.since) by { SinceStays(s.tables, s'.tables, s.id, op.since); }
    match op.pc
    case Locking(next) => NextStaysSound(s.tables, s'.tables, s.id, op, next);
    case Halting(next) => NextStaysSound(s.tables, s'.tables, s.id, op, next);
    case Cancelling(_, next) => NextStaysSound(s.tables, s'.tables, s.id, op, next);
    case Awaiting(_, next, _) => NextStaysSound(s.tables, s'.tables, s.id, op, next);
    case Checking(d) => DeviceStaysSound(s.tables, s'.tables, s.id, op.since, d);
    case Loading(d) => DeviceStaysSound(s.tables, s'.tables, s.id, op.since, d);
    case Installing(c) => ConfigStaysSound(s.tables, s'.tables, s.id, op.since, c);
    case _ =>
  }

  lemma SinceStays(t: Tables, t': Tables, id: int, since: int)
    requires SinceSound(t, id, since) && VersionTracks(t, t', id)
    ensures SinceSound(t', id, since)
  {
  }

  lemma NothingChanges(t: Tables, id: int)
    ensures VersionTracks(t, t, id)
  {
  }

  /** A step that leaves the operations alone keeps them. */
  lemma OpsStayOk(s: State, s': State)
    requires OpsOk(s) && Extends(s, s') && s'.ops == s.ops && (s'.runner == s.runner || s'.runner.None?)
    ensures OpsOk(s')
  {
    hide OpOk, Extends;
    forall op | op in s'.ops ensures OpOk(s', s'.ops[op]) {
      OpStaysOk(s, s', s.ops[op]);
    }
  }

  // ------------------------------------------------- runner and store steps

  lemma EditKeeps(s: State, c: Command)
    requires Inv(s)
    ensures Inv(Do(s, Edit(c))) && Extends(s, Do(s, Edit(c)))
  {
    hide OpOk, VersionTracks, Consistent, SoundConfig, OpsOk, Execute, After;
    CommandKeepsConsistent(s.tables, c);
    CommandTracksVersion(s.tables, c, s.id);
    OpsStayOk(s, Do(s, Edit(c)));
    if s.loaded.Some? {
      ConfigStaysSound(s.tables, After(s.tables, c), s.id, 0, s.loaded.value);
    }
  }

  lemma RunnerStepRunners(s: State, r: nat)
    requires RunnersOk(s) && r in s.runners
    ensures RunnersOk(RunnerStep(s, r))
  {
  }

  lemma RunnerStepFrame(s: State, r: nat)
    requires r in s.runners
    ensures RunnerStep(s, r).runner == s.runner || RunnerStep(s, r).runner.None?
    ensures forall q :: q in s.runners ==> q in RunnerStep(s, r).runners && RunnerStep(s, r).runners[q].config == s.runners[q].config
    ensures RunnerStep(s, r).(runners := s.runners, runner := s.runner, baseline := s.baseline) == s
  {
  }

  lemma RunnerStepKeeps(s: State, r: nat)
    requires Inv(s) && r in s.runners
    ensures Inv(RunnerStep(s, r))
  {
    hide OpOk, OpsOk, RunnersOk, RunnerStep, Consistent, SoundConfig, VersionTracks;
    NothingChanges(s.tables, s.id);
    RunnerStepRunners(s, r);
    RunnerStepFrame(s, r);
    OpsStayOk(s, RunnerStep(s, r));
  }

  lemma BaselineKeeps(s: State, step: Step)
    requires Inv(s) && (step.Submit? || step.Reconfigure?)
    ensures Inv(Do(s, step))
  {
    hide OpOk, OpsOk, Consistent, SoundConfig, VersionTracks;
    NothingChanges(s.tables, s.id);
    OpsStayOk(s, Do(s, step));
  }

  // ------------------------------------------------- operation steps

  /** When one operation moves, the lock agrees as long as it is taken from
      nobody and given up only by that operation. */
  lemma LockMoves(s: State, s': State, op: nat)
    requires LockOk(s) && op in s'.ops && s'.ops == s.ops[op := s'.ops[op]]
    requires Holds(s'.ops[op].pc) ==> s'.holder == Some(op) && (s.holder.None? || s.holder == Some(op))
    requires !Holds(s'.ops[op].pc) ==> s'.holder == if s.holder == Some(op) then None else s.holder
    ensures LockOk(s')
  {
  }

  lemma OneOpMoves(s: State, s': State, op: nat)
    requires OpsOk(s) && LockOk(s) && Extends(s, s') && op in s'.ops && s'.ops == s.ops[op := s'.ops[op]]
    requires OpOk(s', s'.ops[op])
    requires s'.runner == s.runner || s'.runner.None? || s.holder == Some(op)
    ensures OpsOk(s')
  {
    hide OpOk, Extends;
    forall o | o in s'.ops ensures OpOk(s', s'.ops[o]) {
      if o != op { OpStaysOk(s, s', s.ops[o]); }
    }
  }

  lemma CalledOp(s: State, op: nat, kind: Kind)
    requires Consistent(s.tables) && op !in s.ops
    ensures var s' := Begin(s, op, kind);
      && op in s'.ops && OpOk(s', s'.ops[op]) && s'.ops == s.ops[op := s'.ops[op]]
      && s'.(ops := s.ops, holder := s.holder) == s
      && s'.holder == (if Holds(s'.ops[op].pc) then Some(op) else s.holder)
      && (Holds(s'.ops[op].pc) ==> s.holder.None?)
  {
    hide UniqueNames, UniqueRowTags, PointsOf, SoundConfig;
  }

  lemma CallKeeps(s: State, op: nat, kind: Kind)
    requires Inv(s) && op !in s.ops
    ensures Inv(Begin(s, op, kind))
  {
    var s' := Begin(s, op, kind);
    hide OpsOk, OpOk, LockOk, VersionTracks, Consistent, Begin, SoundConfig;
    CalledOp(s, op, kind);
    LockSeen(s, op);
    LockMoves(s, s', op);
    NothingChanges(s.tables, s.id);
    OneOpMoves(s, s', op);
  }

  lemma LockSeen(s: State, op: nat)
    requires LockOk(s)
    ensures s.holder == Some(op) ==> op in s.ops
    ensures op in s.ops ==> (Holds(s.ops[op].pc) <==> s.holder == Some(op))
  {
  }

  lemma EnablingKeeps(s: State, op: nat, ok: bool)
    requires Inv(s) && op in s.ops && s.ops[op].pc.Enabling?
    ensures Inv(Continue(s, op, ok))
  {
    hide OpsOk, LockOk, VersionTracks, Consistent, SoundConfig, Execute, After;
    var c, s' := SetDeviceEnabled(s.id, s.ops[op].kind != Stop), Continue(s, op, ok);
    LockSeen(s, op);
    LockMoves(s, s', op);
    CommandKeepsConsistent(s.tables, c);
    CommandTracksVersion(s.tables, c, s.id);
    NothingChanges(s.tables, s.id);
    OpSeen(s, op);
    SinceStays(s.tables, s'.tables, s.id, s.ops[op].since);
    OneOpMoves(s, s', op);
    if s.loaded.Some? {
      ConfigStaysSound(s.tables, s'.tables, s.id, 0, s.loaded.value);
    }
  }

  lemma OpSeen(s: State, op: nat)
    requires OpsOk(s) && op in s.ops
    ensures OpOk(s, s.ops[op])
  {
  }

  lemma InstallKeeps(s: State, op: nat)
    requires Inv(s) && op in s.ops && s.ops[op].pc.Installing?
    ensures Inv(Install(s, op, s.ops[op].pc.config))
  {
    hide OpsOk, LockOk, VersionTracks, Consistent, SoundConfig;
    var c := s.ops[op].pc.config;
    var s' := Install(s, op, c);
    LockSeen(s, op);
    LockMoves(s, s', op);
    NothingChanges(s.tables, s.id);
    OpSeen(s, op);
    OneOpMoves(s, s', op) by { SoundSince(s.tables, s.id, s.ops[op].since, c); }
    SoundSince(s.tables, s.id, s.ops[op].since, c);
  }

  lemma SoundSince(t: Tables, id: int, since: int, c: Config)
    requires SoundConfig(t, id, since, c)
    ensures c.version >= since && SoundConfig(t, id, c.version, c) && (c.version >= 0 ==> SoundConfig(t, id, 0, c))
    ensures c.version >= 1
  {
  }

  /** The other regions move the operation, take or release the lock, or cancel
      a runner. */
  predicate Plain(s: State, op: nat, ok: bool)
    requires op in s.ops
  {
    && !s.ops[op].pc.Enabling?
    && (s.ops[op].pc.Installing? ==> !ok || s.ops[op].pc.config.points == map[])
  }

  lemma PlainLock(s: State, op: nat, ok: bool)
    requires LockOk(s) && op in s.ops && Plain(s, op, ok)
    ensures LockOk(Continue(s, op, ok))
  {
    hide LockOk, PointsOf;
    LockSeen(s, op);
    var s' := Continue(s, op, ok);
    if s'.ops == s.ops && s'.holder == s.holder {
      LockSame(s, s');
    } else {
      LockMoves(s, s', op);
    }
  }

  lemma LockSame(s: State, s': State)
    requires LockOk(s) && s'.ops == s.ops && s'.holder == s.holder
    ensures LockOk(s')
  {
  }

  lemma ReadDevice(t: Tables, id: int, since: int)
    requires Consistent(t) && SinceSound(t, id, since) && id in t.devices
    ensures SoundDevice(t, id, since, t.devices[id])
  {
  }

  lemma ReadPoints(t: Tables, id: int, since: int, d: Device)
    requires SoundDevice(t, id, since, d)
    ensures SoundConfig(t, id, since, Config(d.version, d.connection, PointsOf(t, id)))
  {
  }

  predicate AtStop(pc: Pc) { pc.Halting? || pc.Cancelling? || pc.Awaiting? }

  lemma StopRegionOp(s: State, op: nat, ok: bool)
    requires RunnersOk(s) && op in s.ops && OpOk(s, s.ops[op]) && AtStop(s.ops[op].pc)
    ensures op in Continue(s, op, ok).ops && OpOk(Continue(s, op, ok), Continue(s, op, ok).ops[op])
  {
    hide SoundDevice, SoundConfig, SinceSound;
  }

  lemma StartRegionOp(s: State, op: nat, ok: bool)
    requires Consistent(s.tables) && op in s.ops && OpOk(s, s.ops[op]) && Plain(s, op, ok) && !AtStop(s.ops[op].pc)
    ensures op in Continue(s, op, ok).ops && OpOk(Continue(s, op, ok), Continue(s, op, ok).ops[op])
  {
    hide Consistent, PointsOf, SoundDevice, SoundConfig, SinceSound;
    match s.ops[op].pc
    case Fetching => if s.id in s.tables.devices { ReadDevice(s.tables, s.id, s.ops[op].since); }
    case Loading(d) => ReadPoints(s.tables, s.id, s.ops[op].since, d);
    case _ =>
  }

  /** Where a plain region leads, the operation is again in order. */
  lemma PlainOp(s: State, op: nat, ok: bool)
    requires Consistent(s.tables) && RunnersOk(s) && op in s.ops && OpOk(s, s.ops[op]) && Plain(s, op, ok)
    ensures op in Continue(s, op, ok).ops && OpOk(Continue(s, op, ok), Continue(s, op, ok).ops[op])
  {
    hide Consistent, RunnersOk, OpOk, Continue;
    if AtStop(s.ops[op].pc) { StopRegionOp(s, op, ok); } else { StartRegionOp(s, op, ok); }
  }

  lemma PlainFrame(s: State, op: nat, ok: bool)
    requires op in s.ops && Plain(s, op, ok)
    ensures var s' := Continue(s, op, ok);
      && Extends(s, s') && op in s'.ops && s'.ops == s.ops[op := s'.ops[op]]
      && s'.tables == s.tables && s'.runner == s.runner && s'.runners == s.runners && s'.loaded == s.loaded
      && s'.baseline == s.baseline && s'.nextRunner == s.nextRunner && s'.id == s.id
  {
    hide VersionTracks, PointsOf;
    NothingChanges(s.tables, s.id);
  }

  lemma MoveKeeps(s: State, op: nat, ok: bool)
    requires Inv(s) && op in s.ops && Plain(s, op, ok)
    ensures Inv(Continue(s, op, ok))
  {
    hide OpsOk, OpOk, LockOk, Consistent, Continue, Plain, Extends, SoundConfig;
    OpSeen(s, op);
    PlainFrame(s, op, ok);
    PlainLock(s, op, ok);
    PlainOp(s, op, ok);
    OneOpMoves(s, Continue(s, op, ok), op);
  }

  lemma StepKeeps(s: State, step: Step)
    requires Inv(s)
    ensures Inv(Do(s, step))
  {
    hide Inv, Begin, Continue, RunnerStep, Consistent;
    match step
    case Call(op, kind) => if op !in s.ops { CallKeeps(s, op, kind); } else { BeginAgain(s, op, kind); }
    case Advance(op, ok) =>
      if op in s.ops {
        var pc := s.ops[op].pc;
        if pc.Enabling? {
          EnablingKeeps(s, op, ok);
        } else if pc.Installing? && ok && pc.config.points != map[] {
          InstallKeeps(s, op);
          InstallIsNext(s, op);
        } else {
          MoveKeeps(s, op, ok);
        }
      }
    case Progress(r) => if r in s.runners { RunnerStepKeeps(s, r); }
    case Edit(c) => EditKeeps(s, c);
    case _ => BaselineKeeps(s, step);
  }

  lemma BeginAgain(s: State, op: nat, kind: Kind)
    requires op in s.ops
    ensures Begin(s, op, kind) == s
  {
  }

  lemma InstallIsNext(s: State, op: nat)
    requires op in s.ops && s.ops[op].pc.Installing? && s.ops[op].pc.config.points != map[]
    ensures Continue(s, op, true) == Install(s, op, s.ops[op].pc.config)
  {
  }

  lemma {:induction false} EveryRun(t: Tables, id: int, steps: seq<Step>)
    requires Consistent(t)
    ensures Inv(Run(t, id, steps))
  {
    if steps == [] {
    } else {
      hide Inv, Do, Consistent;
      EveryRun(t, id, steps[..|steps| - 1]);
      StepKeeps(Run(t, id, steps[..|steps| - 1]), steps[|steps| - 1]);
    }
  }
}
