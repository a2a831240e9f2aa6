/** What is in the messages and when one is sent: destination, origin, kind, time
    and points of everything the coordinator queues, over whole runs
    (internal/kafkapub/coordinator.go:70-169). */
module MessageLog {
  import opened Points
  import opened Decoder
  import opened ValueEquality
  import opened QueueRuns
  import opened Coordinator
  import opened ChangeStream

  // ------------------------------------------------- when a value has moved

  /** Two readings of one point that are not the same value: of a Bool, of an
      integer, or of a float, where NaN always counts as moved and the two zeros
      are one. */
  predicate Moved(a: Value, b: Value) {
    if a.Number? && b.Number? then a.n != b.n
    else if OneWidth(a, b) then NaNPattern(a) || NaNPattern(b) || (a != b && !(ZeroPattern(a) && ZeroPattern(b)))
    else a != b
  }

  /** Readings of one kind, as successive readings of one point are. */
  predicate OneKind(a: Value, b: Value) {
    (a.BoolValue? && b.BoolValue?) || (a.Number? && b.Number?) || OneWidth(a, b)
  }

  lemma SameIsUnmoved(a: Value, b: Value)
    requires OneKind(a, b)
    ensures Same(a, b) <==> !Moved(a, b)
  {
    hide FloatOf, NaNPattern, ZeroPattern;
    if a.Number? {
      IntegersDiffer(a.n, b.n);
    } else if OneWidth(a, b) {
      PatternsDiffer(a, b);
    }
  }

  ghost predicate OneKindMaps(held: Values, scan: Values) {
    forall t :: t in held && t in scan ==> OneKind(held[t], scan[t])
  }

  /** The changes are exactly the scanned values that are new or have moved. */
  lemma ChangesAreMoves(held: Values, scan: Values)
    requires OneKindMaps(held, scan)
    ensures forall t :: t in Changes(held, scan) <==> t in scan && (t in held ==> Moved(held[t], scan[t]))
    ensures forall t :: t in Changes(held, scan) ==> Changes(held, scan)[t] == scan[t]
  {
    hide Same, Moved, OneKind;
    forall t | t in held && t in scan ensures Same(held[t], scan[t]) <==> !Moved(held[t], scan[t]) {
      SameIsUnmoved(held[t], scan[t]);
    }
  }

  // ------------------------------------------------- what a message says

  /** The message of an admitted scan, by the configuration and the values held
      when it is submitted. */
  ghost predicate Describes(p: Policy, s: Snapshot, clock: Clock, m: Message) {
    && p.enabled && s.deviceId in p.configs && p.configs[s.deviceId].enabled
    && m.topic == p.configs[s.deviceId].topic
    && m.deviceId == s.deviceId && m.deviceName == s.deviceName
    && m.collectedAt == (if s.collectedAt != 0 then s.collectedAt else clock.stamp)
    && m.points != map[]
    && if p.configs[s.deviceId].mode == ChangeMode then
         m.kind == ChangeMode && s.deviceId in p.states && HasChanges(p.states[s.deviceId].lastValues, s.successful, m.points)
       else
         m.kind == FullMode && m.points == s.current
  }

  ghost predicate HasChanges(held: Values, scan: Values, points: Values) {
    && held != map[]
    && (forall t :: t in points ==> t in scan && points[t] == scan[t])
    && (forall t :: t in scan && (t !in held || !Same(held[t], scan[t])) ==> t in points)
    && (forall t :: t in points && t in held ==> !Same(held[t], scan[t]))
  }

  lemma DecidedIsDescribed(p: Policy, s: Snapshot, clock: Clock)
    ensures var d := Decide(p, s, clock); d.message.Some? ==> Describes(p, s, clock, d.message.value)
  {
    hide Same, FullDue;
  }

  /** Each message ever accepted was sent by a scan of this run, with the policy
      in force and the values held at that moment, and by no other: messages are
      logged one per scan, in the order of the scans. */
  lemma {:induction false} LoggedIsDescribed(capacity: int, events: seq<Event>, k: nat) returns (i: nat)
    requires k < |After(capacity, events).run.log|
    ensures i < |events| && events[i].SubmitEvent?
    ensures var st := After(capacity, events[..i]);
      && Describes(st.policy, events[i].snapshot, events[i].clock, After(capacity, events).run.log[k])
      && |st.run.log| == k
    decreases |events|
  {
    hide Describes, Decide;
    assert events != [];
    var n := |events| - 1;
    var st := After(capacity, events[..n]);
    LogGrows(st, events[n]);
    if k < |st.run.log| {
      i := LoggedIsDescribed(capacity, events[..n], k);
      assert events[..n][..i] == events[..i];
    } else {
      i := n;
      DecidedIsDescribed(st.policy, events[n].snapshot, events[n].clock);
    }
  }

  /** A step logs the message its scan sends, if any, and nothing else. */
  lemma LogGrows(st: Stream, e: Event)
    requires st.run.q.capacity > 0
    ensures var log, log' := st.run.log, Next(st, e).run.log;
      || log' == log
      || (e.SubmitEvent? && st.run.q.accepting && Decide(st.policy, e.snapshot, e.clock).message.Some?
          && log' == log + [Decide(st.policy, e.snapshot, e.clock).message.value])
  {
    hide Decide;
  }

  // ------------------------------------------------- when a message is sent

  /** A scan that is not admitted changes nothing at all. */
  lemma NotAdmittedIsIgnored(st: Stream, s: Snapshot, clock: Clock)
    requires st.run.q.capacity > 0
    requires !st.policy.enabled || s.deviceId !in st.policy.configs || !st.policy.configs[s.deviceId].enabled
    ensures Next(st, SubmitEvent(s, clock)) == st
  {
  }

  /** In change mode a message is sent exactly when there is a baseline and some
      scanned value is new or has moved; the scan is remembered either way. */
  lemma ChangeEmits(p: Policy, s: Snapshot, clock: Clock)
    requires p.enabled && s.deviceId in p.configs && p.configs[s.deviceId].enabled && p.configs[s.deviceId].mode == ChangeMode
    requires OneKindMaps(StateOf(p, s.deviceId).lastValues, s.successful)
    ensures var held, d := StateOf(p, s.deviceId).lastValues, Decide(p, s, clock);
      && (d.message.Some? <==> held != map[] && exists t :: t in s.successful && (t in held ==> Moved(held[t], s.successful[t])))
      && s.deviceId in d.policy.states && d.policy.states[s.deviceId].lastValues == held + s.successful
  {
    hide Same, Moved, OneKind, OneKindMaps;
    var held := StateOf(p, s.deviceId).lastValues;
    ChangesAreMoves(held, s.successful);
    var changes := Changes(held, s.successful);
    if t :| t in s.successful && (t in held ==> Moved(held[t], s.successful[t])) {
      assert t in changes;
    }
    if changes != map[] {
      var t :| t in changes;
    }
    if held == map[] { assert held + s.successful == s.successful; }
  }

  // ------------------------------------------------- configuration and reset

  /** A new policy takes effect at once. What was remembered of the device stays
      only if it was enabled before and after, with the same topic and mode;
      nothing of any other device changes. */
  lemma ConfigureResets(st: Stream, cfg: DeviceConfig)
    requires st.run.q.capacity > 0
    ensures var p, p', id := st.policy, Next(st, Configure(cfg)).policy, cfg.deviceId;
      && p'.configs == p.configs[id := cfg] && p'.enabled == p.enabled
      && (id in p'.states <==>
            id in p.states && cfg.enabled && id in p.configs && p.configs[id].enabled
            && p.configs[id].topic == cfg.topic && p.configs[id].mode == cfg.mode)
      && (forall d :: d in p'.states ==> d in p.states && p'.states[d] == p.states[d])
      && (forall d :: d in p.states && d != id ==> d in p'.states)
    ensures Next(st, Configure(cfg)).run == st.run
  {
  }

  /** Where nothing is remembered of a device, its next scan in change mode is the
      baseline and sends nothing, and in another mode it is sent if it has values. */
  lemma FirstScanAfterReset(p: Policy, s: Snapshot, clock: Clock)
    requires p.enabled && s.deviceId in p.configs && p.configs[s.deviceId].enabled && s.deviceId !in p.states
    ensures var d := Decide(p, s, clock);
      if p.configs[s.deviceId].mode == ChangeMode then
        d.message == None && s.deviceId in d.policy.states && d.policy.states[s.deviceId].lastValues == s.successful
      else d.message.Some? <==> s.current != map[]
  {
  }

  /** A reset forgets exactly one device, and the flag forgets none. */
  lemma ResetForgets(st: Stream, id: int, on: bool)
    requires st.run.q.capacity > 0
    ensures var p, p' := st.policy, Next(st, ResetEvent(id)).policy;
      && p'.configs == p.configs && p'.enabled == p.enabled && p'.states.Keys == p.states.Keys - {id}
      && forall d :: d in p'.states ==> p'.states[d] == p.states[d]
    ensures Next(st, SetFlag(on)).policy == st.policy.(enabled := on)
  {
  }

  // ------------------------------------------------- overflow warnings

  /** A warning is given for exactly those pushes that drop a message when none
      was given before or the last one is a minute old; it names the total. */
  lemma OverflowWarns(st: Stream, e: Event)
    requires st.run.q.capacity > 0
    ensures var st' := Next(st, e);
      var dropping := e.SubmitEvent? && st'.run.fates == st.run.fates + [Dropped];
      if dropping && (st.lastWarn == 0 || e.clock.warn - st.lastWarn >= 60_000_000_000) then
        st'.warnings == st.warnings + [Warning(e.clock.warn, st'.run.q.dropped)] && st'.lastWarn == e.clock.warn
      else st'.warnings == st.warnings && st'.lastWarn == st.lastWarn
  {
    hide Decide;
  }
}
