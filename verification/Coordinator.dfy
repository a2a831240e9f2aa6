/** The Kafka coordinator: per-device change detection, rate-limited full
    snapshots, and the outbound queue (internal/kafkapub/coordinator.go). */
module Coordinator {
  import opened Points
  import opened Decoder
  import opened ValueEquality
  import opened MessageQueue

  /** Nanoseconds; 0 is the zero time.Time. */
  type Time = int
  const SECOND := 1_000_000_000
  const MINUTE := 60 * SECOND

  type Values = map<string, Value>

  datatype Mode = FullMode | ChangeMode | OtherMode(name: string)

  datatype DeviceConfig = DeviceConfig(deviceId: int, enabled: bool, topic: string, mode: Mode, intervalSec: int)

  datatype Snapshot = Snapshot(deviceId: int, deviceName: string, collectedAt: Time, successful: Values, current: Values)

  datatype Message = Message(kind: Mode, deviceId: int, deviceName: string, collectedAt: Time, points: Values, topic: string)

  datatype DeviceState = DeviceState(lastValues: Values, lastFullQueuedAt: Time)

  /** The results of the calls of the clock during one Submit, in call order. */
  datatype Clock = Clock(full: Time, stamp: Time, warn: Time)

  datatype Warning = Warning(at: Time, total: nat)

  /** Policies and per-device states, without the queue. */
  datatype Policy = Policy(configs: map<int, DeviceConfig>, states: map<int, DeviceState>, enabled: bool)

  datatype Coord = Coord(policy: Policy, queue: Queue<Message>, lastWarn: Time, warnings: seq<Warning>)

  // ------------------------------------------------- durations

  const MAX_DURATION := 0x7FFF_FFFF_FFFF_FFFF

  /** time.Time.Sub saturates. */
  function Sub(a: Time, b: Time): int {
    if a - b > MAX_DURATION then MAX_DURATION else if a - b < -MAX_DURATION - 1 then -MAX_DURATION - 1 else a - b
  }

  /** `time.Duration(sec) * time.Second` wraps at 64 bits. */
  function Interval(sec: int): int {
    (sec * SECOND + 0x8000_0000_0000_0000) % 0x1_0000_0000_0000_0000 - 0x8000_0000_0000_0000
  }

  // ------------------------------------------------- decisions

  function ApplyConfig(p: Policy, cfg: DeviceConfig): Policy {
    var id := cfg.deviceId;
    var resets :=
      || !cfg.enabled || id !in p.configs || !p.configs[id].enabled
      || p.configs[id].topic != cfg.topic || p.configs[id].mode != cfg.mode;
    p.(configs := p.configs[id := cfg], states := if resets then p.states - {id} else p.states)
  }

  function Reset(p: Policy, id: int): Policy { p.(states := p.states - {id}) }

  predicate Admits(p: Policy, id: int) { p.enabled && id in p.configs && p.configs[id].enabled }

  function StateOf(p: Policy, id: int): DeviceState {
    if id in p.states then p.states[id] else DeviceState(map[], 0)
  }

  /** The scanned values that differ from the ones held. */
  function Changes(held: Values, scan: Values): Values {
    map t | t in scan && (t !in held || !Same(held[t], scan[t])) :: scan[t]
  }

  predicate FullDue(cfg: DeviceConfig, state: DeviceState, now: Time) {
    state.lastFullQueuedAt == 0 || Sub(now, state.lastFullQueuedAt) >= Interval(cfg.intervalSec)
  }

  datatype Decision = Decision(policy: Policy, message: Option<Message>)

  function MakeMessage(cfg: DeviceConfig, s: Snapshot, kind: Mode, points: Values, stamp: Time): Message {
    Message(kind, s.deviceId, s.deviceName, if s.collectedAt == 0 then stamp else s.collectedAt, points, cfg.topic)
  }

  function DecideChange(cfg: DeviceConfig, state: DeviceState, s: Snapshot, clock: Clock): (DeviceState, Option<Message>) {
    if |state.lastValues| == 0 then (state.(lastValues := s.successful), None)
    else
      var changes := Changes(state.lastValues, s.successful);
      (state.(lastValues := state.lastValues + s.successful),
       if |changes| != 0 then Some(MakeMessage(cfg, s, ChangeMode, changes, clock.stamp)) else None)
  }

  function DecideFull(cfg: DeviceConfig, state: DeviceState, s: Snapshot, clock: Clock): (DeviceState, Option<Message>) {
    if FullDue(cfg, state, clock.full) && |s.current| != 0 then
      (state.(lastFullQueuedAt := clock.full), Some(MakeMessage(cfg, s, FullMode, s.current, clock.stamp)))
    else (state, None)
  }

  function DecideDevice(cfg: DeviceConfig, state: DeviceState, s: Snapshot, clock: Clock): (DeviceState, Option<Message>) {
    if cfg.mode == ChangeMode then DecideChange(cfg, state, s, clock) else DecideFull(cfg, state, s, clock)
  }

  function Decide(p: Policy, s: Snapshot, clock: Clock): Decision {
    if !Admits(p, s.deviceId) then Decision(p, None)
    else
      var (state, message) := DecideDevice(p.configs[s.deviceId], StateOf(p, s.deviceId), s, clock);
      Decision(p.(states := p.states[s.deviceId := state]), message)
  }

  predicate WarnDue(lastWarn: Time, now: Time) { lastWarn == 0 || Sub(now, lastWarn) >= MINUTE }

  function Enqueue(c: Coord, m: Message, warn: Time): Coord
    requires c.queue.capacity > 0
  {
    var q := Push(c.queue, m);
    if Overflows(c.queue) && WarnDue(c.lastWarn, warn) then
      c.(queue := q, lastWarn := warn, warnings := c.warnings + [Warning(warn, q.dropped)])
    else c.(queue := q)
  }

  function AfterSubmit(c: Coord, s: Snapshot, clock: Clock): Coord
    requires c.queue.capacity > 0
  {
    var d := Decide(c.policy, s, clock);
    match d.message
    case None => c.(policy := d.policy)
    case Some(m) => Enqueue(c.(policy := d.policy), m, clock.warn)
  }

  /** The comparison loop of submitChanges, over the scan in whatever order the
      map is iterated. */
  method MergeScan(last: Values, scan: Values) returns (held: Values, changes: Values)
    ensures held == last + scan && changes == Changes(last, scan)
  {
    hide Same;
    held, changes := last, map[];
    var todo := scan.Keys;
    while todo != {}
      invariant todo <= scan.Keys
      invariant held.Keys == last.Keys + (scan.Keys - todo)
      invariant forall t :: t in held ==> held[t] == if t in scan && t !in todo then scan[t] else last[t]
      invariant forall t :: t in changes <==> t in scan && t !in todo && (t !in last || !Same(last[t], scan[t]))
      invariant forall t :: t in changes ==> changes[t] == scan[t]
    {
      var tag :| tag in todo;
      var value := scan[tag];
      if tag !in held || !Same(held[tag], value) {
        changes := changes[tag := value];
      }
      held := held[tag := value];
      todo := todo - {tag};
    }
  }

  // ------------------------------------------------- the coordinator

  class KafkaCoordinator {
    var configs: map<int, DeviceConfig>
    var states: map<int, DeviceState>
    var enabled: bool
    var lastWarn: Time
    /** The calls of onDrop. */
    var warnings: seq<Warning>
    const queue: MessageRing<Message>

    ghost predicate Valid()
      reads this, queue, queue.items
    {
      queue.Valid()
    }

    ghost function Abs(): Coord
      requires Valid()
      reads this, queue, queue.items
    {
      Coord(Policy(configs, states, enabled), queue.Abs(), lastWarn, warnings)
    }

    constructor (capacity: int)
      ensures Valid() && fresh(queue) && fresh(queue.items)
      ensures Abs() == Coord(Policy(map[], map[], true), Empty(capacity), 0, [])
    {
      configs, states, enabled, lastWarn, warnings := map[], map[], true, 0, [];
      queue := new MessageRing(capacity);
    }

    method ApplyDeviceConfig(cfg: DeviceConfig)
      requires Valid()
      modifies this`configs, this`states
      ensures Valid() && Abs() == old(Abs()).(policy := ApplyConfig(old(Abs()).policy, cfg))
    {
      var known := cfg.deviceId in configs;
      var previous := if known then configs[cfg.deviceId] else cfg;
      configs := configs[cfg.deviceId := cfg];
      if !cfg.enabled || !known || !previous.enabled || previous.topic != cfg.topic || previous.mode != cfg.mode {
        states := states - {cfg.deviceId};
      }
    }

    method ResetDevice(id: int)
      requires Valid()
      modifies this`states
      ensures Valid() && Abs() == old(Abs()).(policy := Reset(old(Abs()).policy, id))
    {
      states := states - {id};
    }

    /** SetEnabled under the coordinator's lock; disabling then discards the
        queue in a second region, under the queue's own lock. */
    method SetEnabledFlag(on: bool)
      requires Valid()
      modifies this`enabled
      ensures Valid() && Abs() == old(Abs()).(policy := old(Abs()).policy.(enabled := on))
    {
      enabled := on;
    }

    method Submit(s: Snapshot, clock: Clock)
      requires Valid()
      modifies this`states, this`lastWarn, this`warnings, queue, queue.items
      ensures Valid() && Abs() == AfterSubmit(old(Abs()), s, clock)
    {
      hide Push;
      if !enabled { return; }
      if s.deviceId !in configs || !configs[s.deviceId].enabled { return; }
      var cfg := configs[s.deviceId];
      if s.deviceId !in states {
        states := states[s.deviceId := DeviceState(map[], 0)];
      }
      if cfg.mode == ChangeMode {
        SubmitChanges(cfg, s, clock);
      } else {
        SubmitFull(cfg, s, clock);
      }
    }

    method SubmitChanges(cfg: DeviceConfig, s: Snapshot, clock: Clock)
      requires Valid() && s.deviceId in states
      modifies this`states, this`lastWarn, this`warnings, queue, queue.items
      ensures Valid()
      ensures var (state, message) := DecideChange(cfg, old(states[s.deviceId]), s, clock);
        var c := old(Abs()).(policy := old(Abs()).policy.(states := old(states)[s.deviceId := state]));
        Abs() == if message.Some? then Enqueue(c, message.value, clock.warn) else c
    {
      hide Changes, Push, Same, MakeMessage;
      var held := states[s.deviceId].lastValues;
      if |held| == 0 {
        assert held + s.successful == s.successful;
        states := states[s.deviceId := states[s.deviceId].(lastValues := held + s.successful)];
        return;
      }
      var merged, changes := MergeScan(held, s.successful);
      states := states[s.deviceId := states[s.deviceId].(lastValues := merged)];
      if |changes| != 0 {
        EnqueueMessage(cfg, s, ChangeMode, changes, clock);
      }
    }

    method SubmitFull(cfg: DeviceConfig, s: Snapshot, clock: Clock)
      requires Valid() && s.deviceId in states
      modifies this`states, this`lastWarn, this`warnings, queue, queue.items
      ensures Valid()
      ensures var (state, message) := DecideFull(cfg, old(states[s.deviceId]), s, clock);
        var c := old(Abs()).(policy := old(Abs()).policy.(states := old(states)[s.deviceId := state]));
        Abs() == if message.Some? then Enqueue(c, message.value, clock.warn) else c
    {
      var state := states[s.deviceId];
      var now := clock.full;
      if state.lastFullQueuedAt != 0 && Sub(now, state.lastFullQueuedAt) < Interval(cfg.intervalSec) {
        assert states == states[s.deviceId := state];
        return;
      }
      if |s.current| == 0 {
        assert states == states[s.deviceId := state];
        return;
      }
      EnqueueMessage(cfg, s, FullMode, s.current, clock);
      states := states[s.deviceId := state.(lastFullQueuedAt := now)];
    }

    method EnqueueMessage(cfg: DeviceConfig, s: Snapshot, kind: Mode, points: Values, clock: Clock)
      requires Valid()
      modifies this`lastWarn, this`warnings, queue, queue.items
      ensures Valid() && Abs() == Enqueue(old(Abs()), MakeMessage(cfg, s, kind, points, clock.stamp), clock.warn)
    {
      var m := MakeMessage(cfg, s, kind, points, clock.stamp);
      var total, dropped := queue.PushMessage(m);
      if dropped && (lastWarn == 0 || Sub(clock.warn, lastWarn) >= MINUTE) {
        lastWarn := clock.warn;
        warnings := warnings + [Warning(clock.warn, total)];
      }
    }
  }
}
