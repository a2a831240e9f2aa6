/** Runs of the whole coordinator with its queue and consumer: what a consumer
    can reconstruct from the change messages, how often full snapshots and
    overflow warnings appear (internal/kafkapub/coordinator.go:70-189,
    internal/kafkapub/queue.go:26-67). */
module ChangeStream {
  import opened Points
  import opened Decoder
  import opened ValueEquality
  import opened MessageQueue
  import opened QueueRuns
  import opened Coordinator

  // ------------------------------------------------- overlays

  /** The updates applied to a map, oldest first. */
  function Overlay(m: Values, updates: seq<Values>): Values {
    if updates == [] then m else Overlay(m, updates[..|updates| - 1]) + updates[|updates| - 1]
  }

  /** Equal up to the comparison used by the coordinator. */
  predicate Alike(a: Value, b: Value) { a == b || Same(a, b) }

  ghost predicate AlikeMaps(a: Values, b: Values) {
    a.Keys == b.Keys && forall t :: t in a ==> Alike(a[t], b[t])
  }

  lemma OverlayOne(m: Values, updates: seq<Values>, u: Values)
    ensures Overlay(m, updates + [u]) == Overlay(m, updates) + u
  {
    assert (updates + [u])[..|updates|] == updates;
  }

  lemma AlikeDiffers(r: Value, l: Value, v: Value)
    requires Alike(r, l)
    ensures Same(l, v) <==> Same(r, v)
  {
    SamePartialEquivalence(r, l, v);
    SamePartialEquivalence(l, r, v);
  }

  /** The coordinator compares with the raw values it scanned last, a consumer
      with what it reconstructed; both see the same differences. So no pushed
      entry is redundant for the consumer and none it needs is missing. */
  lemma SameDifferences(replayed: Values, held: Values, scan: Values)
    requires AlikeMaps(replayed, held)
    ensures Changes(replayed, scan) == Changes(held, scan)
    ensures AlikeMaps(replayed + Changes(held, scan), held + scan)
  {
    hide Same;
    forall t | t in scan && t in held
      ensures Same(held[t], scan[t]) <==> Same(replayed[t], scan[t])
    {
      assert t in replayed;
      AlikeDiffers(replayed[t], held[t], scan[t]);
    }
    var r', h' := replayed + Changes(held, scan), held + scan;
    forall t | t in r' ensures t in h' && Alike(r'[t], h'[t]) {}
    forall t | t in h' ensures t in r' {}
  }

  predicate IsNaN(v: Value) { !v.BoolValue? && FloatOf(v) == NaN }

  /** No smaller message would do: whatever updates bring the held values up to
      the scan contain every entry of the change message, except that a NaN
      already held is sent again. */
  lemma ChangesAreMinimal(held: Values, scan: Values, updates: Values)
    requires AlikeMaps(held + updates, held + scan)
    ensures forall t :: t in Changes(held, scan) ==> t in updates || (t in held && held[t] == scan[t] && IsNaN(scan[t]))
  {
    hide FloatOf;
    forall t | t in Changes(held, scan) && t !in updates
      ensures t in held && held[t] == scan[t] && IsNaN(scan[t])
    {
      assert t in held + scan && t in held + updates;
      assert Alike((held + updates)[t], (held + scan)[t]);
      SamePartialEquivalence(scan[t], scan[t], scan[t]);
    }
  }

  /** A point that keeps reading NaN is in every change message; any other value
      that did not change is in none. */
  lemma UnchangedIsResent(held: Values, scan: Values, t: string)
    requires t in held && t in scan && held[t] == scan[t]
    ensures t in Changes(held, scan) <==> IsNaN(scan[t])
  {
    SamePartialEquivalence(scan[t], scan[t], scan[t]);
  }

  // ------------------------------------------------- the system

  /** What happened to a device since its state was last reset: the admitted
      scans, the first non-empty one, the length of the message log when it was
      taken, and the times of the full messages. */
  datatype History = History(scans: seq<Values>, base: Values, mark: nat, fullTimes: seq<Time>)

  datatype Stream = Stream(policy: Policy, lastWarn: Time, warnings: seq<Warning>, run: System<Message>, history: map<int, History>)

  datatype Event =
    | Configure(cfg: DeviceConfig)
    | ResetEvent(id: int)
    | SetFlag(on: bool)
    | SubmitEvent(snapshot: Snapshot, clock: Clock)
    | ConsumerCheck | ConsumerWake | ConsumerCancel | DiscardAll | StopAccepting

  function CoordOf(st: Stream): Coord { Coord(st.policy, st.run.q, st.lastWarn, st.warnings) }

  function Begin(capacity: int): Stream {
    Stream(Policy(map[], map[], true), 0, [], Start(capacity), map[])
  }

  function Keep(history: map<int, History>, p: Policy): map<int, History> {
    map id | id in history && id in p.states :: history[id]
  }

  /** The history after an admitted scan. */
  function Recorded(st: Stream, s: Snapshot, clock: Clock): History
    requires Admits(st.policy, s.deviceId)
  {
    var h := if s.deviceId in st.history then st.history[s.deviceId] else History([], map[], 0, []);
    var cfg, state := st.policy.configs[s.deviceId], StateOf(st.policy, s.deviceId);
    if cfg.mode == ChangeMode then
      var longer := h.(scans := h.scans + [s.successful]);
      if |state.lastValues| == 0 && s.successful != map[] then longer.(base := s.successful, mark := |st.run.log|) else longer
    else if DecideFull(cfg, state, s, clock).1.Some? then h.(fullTimes := h.fullTimes + [clock.full])
    else h
  }

  function PolicyNext(p: Policy, e: Event): Policy {
    match e
    case Configure(cfg) => ApplyConfig(p, cfg)
    case ResetEvent(id) => Reset(p, id)
    case SetFlag(on) => p.(enabled := on)
    case SubmitEvent(s, clock) => Decide(p, s, clock).policy
    case _ => p
  }

  function HistoryNext(st: Stream, e: Event): map<int, History> {
    match e
    case Configure(_) | ResetEvent(_) => Keep(st.history, PolicyNext(st.policy, e))
    case SubmitEvent(s, clock) =>
      if Admits(st.policy, s.deviceId) then st.history[s.deviceId := Recorded(st, s, clock)] else st.history
    case _ => st.history
  }

  function QueueStep(p: Policy, e: Event): Option<Step<Message>> {
    match e
    case SubmitEvent(s, clock) =>
      (match Decide(p, s, clock).message
       case None => None
       case Some(m) => Some(PushStep(m)))
    case ConsumerCheck => Some(CheckStep)
    case ConsumerWake => Some(WakeStep)
    case ConsumerCancel => Some(CancelStep)
    case DiscardAll => Some(DiscardStep)
    case StopAccepting => Some(StopAcceptingStep)
    case _ => None
  }

  function RunNext(run: System<Message>, step: Option<Step<Message>>): System<Message>
    requires run.q.capacity > 0
  {
    match step case None => run case Some(x) => Do(run, x)
  }

  /** A warning is due when a push overflows a minute after the last warning. */
  predicate Warns(st: Stream, e: Event) {
    e.SubmitEvent? && Decide(st.policy, e.snapshot, e.clock).message.Some?
    && Overflows(st.run.q) && WarnDue(st.lastWarn, e.clock.warn)
  }

  function Next(st: Stream, e: Event): (st': Stream)
    requires st.run.q.capacity > 0
    ensures st'.run.q.capacity == st.run.q.capacity
  {
    var run := RunNext(st.run, QueueStep(st.policy, e));
    Stream(PolicyNext(st.policy, e),
           if Warns(st, e) then e.clock.warn else st.lastWarn,
           if Warns(st, e) then st.warnings + [Warning(e.clock.warn, run.q.dropped)] else st.warnings,
           run, HistoryNext(st, e))
  }

  function After(capacity: int, events: seq<Event>): (st: Stream)
    ensures st.run.q.capacity > 0
  {
    if events == [] then Begin(capacity) else Next(After(capacity, events[..|events| - 1]), events[|events| - 1])
  }

  /** The stream is the coordinator of this model: a submitted scan leaves its
      queue, policy and warnings as AfterSubmit says. */
  lemma SubmitIsCoordinator(st: Stream, s: Snapshot, clock: Clock)
    requires st.run.q.capacity > 0
    ensures CoordOf(Next(st, SubmitEvent(s, clock))) == AfterSubmit(CoordOf(st), s, clock)
  {
  }

  /** Its queue runs as in QueueRuns: each event of the consumer or of shutdown is
      the step of that name and nothing else. */
  lemma QueueEventsAreSteps(st: Stream)
    requires st.run.q.capacity > 0
    ensures Next(st, ConsumerCheck) == st.(run := Do(st.run, CheckStep))
    ensures Next(st, ConsumerWake) == st.(run := Do(st.run, WakeStep))
    ensures Next(st, ConsumerCancel) == st.(run := Do(st.run, CancelStep))
    ensures Next(st, DiscardAll) == st.(run := Do(st.run, DiscardStep))
    ensures Next(st, StopAccepting) == st.(run := Do(st.run, StopAcceptingStep))
  {
    hide Do;
  }

  // ------------------------------------------------- reconstruction

  /** The contents of the messages about one device, from position `mark` on. */
  function MessagesFor(log: seq<Message>, mark: nat, id: int): seq<Values> {
    if |log| <= mark then []
    else
      var last := log[|log| - 1];
      MessagesFor(log[..|log| - 1], mark, id) + if last.deviceId == id then [last.points] else []
  }

  lemma MessagesForAppend(log: seq<Message>, mark: nat, id: int, m: Message)
    requires mark <= |log|
    ensures MessagesFor(log + [m], mark, id) == MessagesFor(log, mark, id) + if m.deviceId == id then [m.points] else []
  {
    assert (log + [m])[..|log|] == log;
  }

  /** The state of a device in change mode is the overlay of its scans, and its
      baseline with the messages logged since gives an alike map. */
  ghost predicate Faithful(st: Stream, id: int)
    requires id in st.policy.states
  {
    && id in st.policy.configs && id in st.history
    && var held, h := st.policy.states[id].lastValues, st.history[id];
      if st.policy.configs[id].mode == ChangeMode then
        && held == Overlay(map[], h.scans)
        && (held != map[] ==>
              && h.mark <= |st.run.log|
              && (st.run.q.accepting ==> AlikeMaps(Overlay(h.base, MessagesFor(st.run.log, h.mark, id)), held)))
      else held == map[]
  }

  ghost predicate AllFaithful(st: Stream) {
    && (forall id :: id in st.policy.states ==> Faithful(st, id))
    && st.history.Keys == st.policy.states.Keys
  }

  /** Steps that only remove device states keep the remaining ones faithful. */
  lemma RemovalFaithful(st: Stream, e: Event)
    requires st.run.q.capacity > 0 && AllFaithful(st) && (e.Configure? || e.ResetEvent?)
    ensures AllFaithful(Next(st, e))
  {
    var st' := Next(st, e);
    forall id | id in st'.policy.states ensures Faithful(st', id) {
      assert Faithful(st, id);
    }
  }

  /** Steps on the queue alone do not change the log. */
  lemma QueueEventFaithful(st: Stream, e: Event)
    requires st.run.q.capacity > 0 && AllFaithful(st)
    requires !e.Configure? && !e.ResetEvent? && !e.SubmitEvent?
    ensures AllFaithful(Next(st, e))
  {
    var st' := Next(st, e);
    assert st'.run.log == st.run.log && (st'.run.q.accepting ==> st.run.q.accepting);
    forall id | id in st'.policy.states ensures Faithful(st', id) {
      assert Faithful(st, id);
    }
  }

  /** What an admitted scan does to the parts of the stream. */
  lemma SubmitEffect(st: Stream, s: Snapshot, clock: Clock)
    requires st.run.q.capacity > 0 && Admits(st.policy, s.deviceId)
    ensures var st' := Next(st, SubmitEvent(s, clock));
      var (state, message) := DecideDevice(st.policy.configs[s.deviceId], StateOf(st.policy, s.deviceId), s, clock);
      && st'.policy == st.policy.(states := st.policy.states[s.deviceId := state])
      && st'.history == st.history[s.deviceId := Recorded(st, s, clock)]
      && st'.run.q.accepting == st.run.q.accepting
      && (message.None? ==> st'.run.log == st.run.log)
      && (message.Some? ==> message.value.deviceId == s.deviceId)
      && (message.Some? && st.run.q.accepting ==> st'.run.log == st.run.log + [message.value])
      && |st.run.log| <= |st'.run.log|
  {
  }

  /** Another device's scan leaves a device faithful. */
  lemma OtherStaysFaithful(st: Stream, s: Snapshot, clock: Clock, id: int)
    requires st.run.q.capacity > 0 && AllFaithful(st) && Admits(st.policy, s.deviceId)
    requires id in st.policy.states && id != s.deviceId
    ensures var st' := Next(st, SubmitEvent(s, clock)); id in st'.policy.states && Faithful(st', id)
  {
    hide Next;
    hide Same;
    hide FullDue;
    hide DecideDevice;
    hide Recorded;
    hide AlikeMaps;
    assert Faithful(st, id);
    SubmitEffect(st, s, clock);
    var message := DecideDevice(st.policy.configs[s.deviceId], StateOf(st.policy, s.deviceId), s, clock).1;
    if message.Some? && st.policy.states[id].lastValues != map[] && st.run.q.accepting
       && st.policy.configs[id].mode == ChangeMode {
      MessagesForAppend(st.run.log, st.history[id].mark, id, message.value);
      var messages := MessagesFor(st.run.log, st.history[id].mark, id);
      assert messages + [] == messages;
    }
  }

  lemma SubmitterFaithful(st: Stream, s: Snapshot, clock: Clock)
    requires st.run.q.capacity > 0 && AllFaithful(st) && Admits(st.policy, s.deviceId)
    ensures var st' := Next(st, SubmitEvent(s, clock)); s.deviceId in st'.policy.states && Faithful(st', s.deviceId)
  {
    hide Next;
    hide Same;
    hide FullDue;
    hide AlikeMaps;
    hide Faithful;
    SubmitEffect(st, s, clock);
    if st.policy.configs[s.deviceId].mode != ChangeMode {
      FullFaithful(st, s, clock);
    } else if StateOf(st.policy, s.deviceId).lastValues == map[] {
      BaselineFaithful(st, s, clock);
    } else {
      LaterFaithful(st, s, clock);
    }
  }

  lemma FullFaithful(st: Stream, s: Snapshot, clock: Clock)
    requires st.run.q.capacity > 0 && AllFaithful(st) && Admits(st.policy, s.deviceId)
    requires st.policy.configs[s.deviceId].mode != ChangeMode
    ensures var st' := Next(st, SubmitEvent(s, clock)); s.deviceId in st'.policy.states && Faithful(st', s.deviceId)
  {
    hide Next;
    hide Same;
    hide FullDue;
    hide AlikeMaps;
    if s.deviceId in st.policy.states { assert Faithful(st, s.deviceId); }
    SubmitEffect(st, s, clock);
  }

  lemma BaselineStep(cfg: DeviceConfig, state: DeviceState, s: Snapshot, clock: Clock)
    requires cfg.mode == ChangeMode && state.lastValues == map[]
    ensures DecideDevice(cfg, state, s, clock) == (state.(lastValues := s.successful), None)
  {
  }

  /** The first non-empty scan becomes the baseline; empty ones before it leave
      the state empty. */
  lemma BaselineFaithful(st: Stream, s: Snapshot, clock: Clock)
    requires st.run.q.capacity > 0 && AllFaithful(st) && Admits(st.policy, s.deviceId)
    requires st.policy.configs[s.deviceId].mode == ChangeMode && StateOf(st.policy, s.deviceId).lastValues == map[]
    ensures var st' := Next(st, SubmitEvent(s, clock)); s.deviceId in st'.policy.states && Faithful(st', s.deviceId)
  {
    hide Next;
    hide AlikeMaps;
    hide DecideDevice;
    hide DecideFull;
    hide Overlay;
    hide MessagesFor;
    var id := s.deviceId;
    if id in st.policy.states { assert Faithful(st, id); }
    SubmitEffect(st, s, clock);
    var h := if id in st.history then st.history[id] else History([], map[], 0, []);
    BaselineStep(st.policy.configs[id], StateOf(st.policy, id), s, clock);
    OverlayNothing(map[]);
    OverlayOntoNothing(h.scans, s.successful);
    NothingReplayed(st.run.log, s.successful, id);
  }

  lemma OverlayNothing(m: Values)
    ensures Overlay(m, []) == m
  {
  }

  lemma OverlayOntoNothing(updates: seq<Values>, u: Values)
    requires Overlay(map[], updates) == map[]
    ensures Overlay(map[], updates + [u]) == u
  {
    OverlayOne(map[], updates, u);
    assert map[] + u == u;
  }

  lemma LaterFaithful(st: Stream, s: Snapshot, clock: Clock)
    requires st.run.q.capacity > 0 && AllFaithful(st) && Admits(st.policy, s.deviceId)
    requires st.policy.configs[s.deviceId].mode == ChangeMode && StateOf(st.policy, s.deviceId).lastValues != map[]
    ensures var st' := Next(st, SubmitEvent(s, clock)); s.deviceId in st'.policy.states && Faithful(st', s.deviceId)
  {
    hide Next;
    hide Same;
    hide FullDue;
    hide AlikeMaps;
    hide Changes;
    assert Faithful(st, s.deviceId);
    SubmitEffect(st, s, clock);
    OverlayOne(map[], st.history[s.deviceId].scans, s.successful);
    StaysNonEmpty(st.policy.states[s.deviceId].lastValues, s.successful);
    if st.run.q.accepting { ChangeFaithful(st, s, clock); }
  }

  lemma StaysNonEmpty(held: Values, scan: Values)
    requires held != map[]
    ensures held + scan != map[]
  {
    var t :| t in held;
    assert t in held + scan;
  }

  lemma NothingReplayed(log: seq<Message>, scan: Values, id: int)
    ensures MessagesFor(log, |log|, id) == [] && AlikeMaps(Overlay(scan, []), scan)
  {
  }

  lemma ChangeFaithful(st: Stream, s: Snapshot, clock: Clock)
    requires st.run.q.capacity > 0 && AllFaithful(st) && Admits(st.policy, s.deviceId)
    requires s.deviceId in st.policy.states && st.policy.configs[s.deviceId].mode == ChangeMode
    requires st.policy.states[s.deviceId].lastValues != map[] && st.run.q.accepting
    ensures var st' := Next(st, SubmitEvent(s, clock));
      var h := st.history[s.deviceId];
      AlikeMaps(Overlay(h.base, MessagesFor(st'.run.log, h.mark, s.deviceId)), st.policy.states[s.deviceId].lastValues + s.successful)
  {
    hide Next;
    hide Same;
    hide FullDue;
    hide Changes;
    hide AlikeMaps;
    hide Overlay;
    hide MessagesFor;
    hide Recorded;
    var id := s.deviceId;
    assert Faithful(st, id);
    SubmitEffect(st, s, clock);
    var h, held := st.history[id], st.policy.states[id].lastValues;
    var messages := MessagesFor(st.run.log, h.mark, id);
    var replayed := Overlay(h.base, messages);
    SameDifferences(replayed, held, s.successful);
    var changes := Changes(held, s.successful);
    if |changes| == 0 {
      assert replayed + changes == replayed;
    } else {
      var message := DecideDevice(st.policy.configs[id], StateOf(st.policy, id), s, clock).1;
      MessagesForAppend(st.run.log, h.mark, id, message.value);
      OverlayOne(h.base, messages, changes);
    }
  }

  lemma NextFaithful(st: Stream, e: Event)
    requires st.run.q.capacity > 0 && AllFaithful(st)
    ensures AllFaithful(Next(st, e))
  {
    if e.Configure? || e.ResetEvent? {
      RemovalFaithful(st, e);
    } else if !e.SubmitEvent? {
      QueueEventFaithful(st, e);
    } else if Admits(st.policy, e.snapshot.deviceId) {
      AllSubmitFaithful(st, e.snapshot, e.clock);
    }
  }

  lemma AllSubmitFaithful(st: Stream, s: Snapshot, clock: Clock)
    requires st.run.q.capacity > 0 && AllFaithful(st) && Admits(st.policy, s.deviceId)
    ensures AllFaithful(Next(st, SubmitEvent(s, clock)))
  {
    hide Next;
    hide Faithful;
    hide Recorded;
    var st' := Next(st, SubmitEvent(s, clock));
    SubmitEffect(st, s, clock);
    SubmitterFaithful(st, s, clock);
    forall id | id in st'.policy.states ensures Faithful(st', id) {
      if id != s.deviceId { OtherStaysFaithful(st, s, clock, id); }
    }
  }

  lemma {:induction false} RunsAreFaithful(capacity: int, events: seq<Event>)
    ensures AllFaithful(After(capacity, events))
  {
    if events == [] {
    } else {
      RunsAreFaithful(capacity, events[..|events| - 1]);
      NextFaithful(After(capacity, events[..|events| - 1]), events[|events| - 1]);
    }
  }

  lemma {:induction false} RunsAccount(capacity: int, events: seq<Event>)
    ensures var s := After(capacity, events).run; Accounts(s) && NoLostWakeup(s)
  {
    hide Accounts;
    hide NoLostWakeup;
    if events == [] {
      StartAccounts(capacity);
    } else {
      RunsAccount(capacity, events[..|events| - 1]);
      NextAccounts(After(capacity, events[..|events| - 1]), events[|events| - 1]);
    }
  }

  lemma StartAccounts(capacity: int)
    ensures Accounts(Start<Message>(capacity)) && NoLostWakeup(Start<Message>(capacity))
  {
  }

  lemma NextAccounts(st: Stream, e: Event)
    requires st.run.q.capacity > 0 && Accounts(st.run) && NoLostWakeup(st.run)
    ensures Accounts(Next(st, e).run) && NoLostWakeup(Next(st, e).run)
  {
    hide Accounts;
    hide NoLostWakeup;
    hide QueueStep;
    var step := QueueStep(st.policy, e);
    if step.Some? { StepKeeps(st.run, step.value); }
  }

  /** While the queue has dropped, discarded and refused nothing, what has been
      delivered and then what is still queued, laid over a device's baseline
      scan, is alike to the overlay of all scans admitted since the reset. */
  lemma ReplayIsFaithful(capacity: int, events: seq<Event>, id: int)
    requires var st := After(capacity, events);
      && id in st.policy.states && id in st.policy.configs && id in st.history
      && st.policy.configs[id].mode == ChangeMode && st.policy.states[id].lastValues != map[]
      && st.run.q.accepting && Count(st.run.fates, Dropped) == 0 && Count(st.run.fates, Discarded) == 0
    ensures var st := After(capacity, events);
      var h := st.history[id];
      AlikeMaps(Overlay(h.base, MessagesFor(st.run.delivered + st.run.q.pending, h.mark, id)), Overlay(map[], h.scans))
  {
    RunsAreFaithful(capacity, events);
    RunsAccount(capacity, events);
    var st := After(capacity, events);
    assert Faithful(st, id);
    LosslessRun(st.run);
  }

  /** Complete scans of the same tags: their overlay is the last one. */
  lemma {:induction false} CompleteScans(scans: seq<Values>, tags: set<string>)
    requires scans != [] && forall i :: 0 <= i < |scans| ==> scans[i].Keys == tags
    ensures Overlay(map[], scans) == scans[|scans| - 1]
  {
    var n := |scans| - 1;
    if n == 0 {
    } else {
      CompleteScans(scans[..n], tags);
    }
    var before := Overlay(map[], scans[..n]);
    assert before.Keys <= tags;
    assert before + scans[n] == scans[n];
  }

  // ------------------------------------------------- rates

  ghost predicate GapBefore(times: seq<Time>, i: nat, gap: int)
    requires 0 < i < |times|
  {
    times[i] - times[i - 1] >= gap
  }

  ghost predicate Spaced(times: seq<Time>, gap: int) {
    forall i :: 0 < i < |times| ==> GapBefore(times, i, gap)
  }

  lemma SpacedAppend(times: seq<Time>, t: Time, gap: int)
    requires Spaced(times, gap) && (times == [] || t - times[|times| - 1] >= gap)
    ensures Spaced(times + [t], gap)
  {
    var longer := times + [t];
    forall i | 0 < i < |longer| ensures GapBefore(longer, i, gap) {
      if i < |times| { assert GapBefore(times, i, gap); }
    }
  }

  lemma {:induction false} SpacedSpan(times: seq<Time>, gap: int)
    requires Spaced(times, gap) && |times| > 0
    ensures times[|times| - 1] - times[0] >= (|times| - 1) * gap
  {
    if |times| == 1 {
    } else {
      var init := times[..|times| - 1];
      forall i | 0 < i < |init| ensures GapBefore(init, i, gap) {
        assert GapBefore(times, i, gap);
      }
      SpacedSpan(init, gap);
      assert GapBefore(times, |times| - 1, gap);
      assert (|init| - 1) * gap + gap == (|times| - 1) * gap;
    }
  }

  /** Configurations of the device never go below `sec` and stay within the
      validated range; the clock never returns the zero time. */
  ghost predicate RateEvent(e: Event, id: int, sec: int) {
    match e
    case Configure(cfg) => cfg.deviceId == id ==> sec <= cfg.intervalSec <= 86400
    case SubmitEvent(_, clock) => clock.full != 0 && clock.warn != 0
    case _ => true
  }

  ghost predicate RateKept(st: Stream, id: int, sec: int) {
    && (id in st.policy.configs ==> sec <= st.policy.configs[id].intervalSec <= 86400)
    && (id in st.policy.states <==> id in st.history)
    && (id in st.policy.states && id in st.history ==>
          var times := st.history[id].fullTimes;
          && Spaced(times, sec * SECOND)
          && st.policy.states[id].lastFullQueuedAt == (if times == [] then 0 else times[|times| - 1])
          && (times != [] ==> times[|times| - 1] != 0))
  }

  lemma DueGap(cfg: DeviceConfig, state: DeviceState, now: Time)
    requires 0 <= cfg.intervalSec <= 86400
    ensures FullDue(cfg, state, now) <==> state.lastFullQueuedAt == 0 || now - state.lastFullQueuedAt >= cfg.intervalSec * SECOND
  {
    assert Interval(cfg.intervalSec) == cfg.intervalSec * SECOND;
  }

  lemma SubmitKeepsRate(st: Stream, s: Snapshot, clock: Clock, sec: nat)
    requires st.run.q.capacity > 0 && Admits(st.policy, s.deviceId) && clock.full != 0 && RateKept(st, s.deviceId, sec)
    ensures RateKept(Next(st, SubmitEvent(s, clock)), s.deviceId, sec)
  {
    hide Next;
    hide DecideChange;
    SubmitEffect(st, s, clock);
    var id := s.deviceId;
    var state, cfg := StateOf(st.policy, id), st.policy.configs[id];
    var times := if id in st.history then st.history[id].fullTimes else [];
    if cfg.mode == ChangeMode {
      ChangeKeepsFullTime(cfg, state, s, clock);
    } else if DecideFull(cfg, state, s, clock).1.Some? {
      DueGap(cfg, state, clock.full);
      assert sec * SECOND <= cfg.intervalSec * SECOND;
      SpacedAppend(times, clock.full, sec * SECOND);
    }
  }

  lemma ChangeKeepsFullTime(cfg: DeviceConfig, state: DeviceState, s: Snapshot, clock: Clock)
    ensures DecideChange(cfg, state, s, clock).0.lastFullQueuedAt == state.lastFullQueuedAt
  {
  }

  lemma NextKeepsRate(st: Stream, e: Event, id: int, sec: nat)
    requires st.run.q.capacity > 0 && RateKept(st, id, sec) && RateEvent(e, id, sec)
    ensures RateKept(Next(st, e), id, sec)
  {
    if e.SubmitEvent? && Admits(st.policy, e.snapshot.deviceId) {
      hide Next;
      hide Spaced;
      SubmitEffect(st, e.snapshot, e.clock);
      if e.snapshot.deviceId == id { SubmitKeepsRate(st, e.snapshot, e.clock, sec); }
    }
  }

  /** In every run without the zero time, the full messages of a device since
      its last reset are at least `sec` seconds apart, so n of them span at
      least (n - 1) * sec seconds. */
  lemma {:induction false} FullRate(capacity: int, events: seq<Event>, id: int, sec: nat)
    requires forall i :: 0 <= i < |events| ==> RateEvent(events[i], id, sec)
    ensures RateKept(After(capacity, events), id, sec)
    ensures var st := After(capacity, events);
      id in st.history && st.history[id].fullTimes != [] ==>
        var times := st.history[id].fullTimes;
        times[|times| - 1] - times[0] >= (|times| - 1) * (sec * SECOND)
  {
    hide Spaced, RateEvent, Next;
    if events == [] {
      RateAtStart(capacity, id, sec);
    } else {
      FullRate(capacity, events[..|events| - 1], id, sec);
      NextKeepsRate(After(capacity, events[..|events| - 1]), events[|events| - 1], id, sec);
    }
    RateSpan(After(capacity, events), id, sec);
  }

  lemma RateAtStart(capacity: int, id: int, sec: nat)
    ensures RateKept(After(capacity, []), id, sec)
  {
  }

  lemma RateSpan(st: Stream, id: int, sec: nat)
    requires RateKept(st, id, sec)
    ensures id in st.history && st.history[id].fullTimes != [] ==>
      var times := st.history[id].fullTimes;
      times[|times| - 1] - times[0] >= (|times| - 1) * (sec * SECOND)
  {
    if id in st.history && st.history[id].fullTimes != [] {
      SpacedSpan(st.history[id].fullTimes, sec * SECOND);
    }
  }

  /** An admitted non-empty scan in full mode emits exactly when it is the first
      since the reset or at least the interval after the last emission. */
  lemma FullEmits(p: Policy, s: Snapshot, clock: Clock)
    requires Admits(p, s.deviceId) && p.configs[s.deviceId].mode != ChangeMode && 0 <= p.configs[s.deviceId].intervalSec <= 86400
    ensures var last := StateOf(p, s.deviceId).lastFullQueuedAt;
      Decide(p, s, clock).message.Some? <==>
        s.current != map[] && (last == 0 || clock.full - last >= p.configs[s.deviceId].intervalSec * SECOND)
  {
    DueGap(p.configs[s.deviceId], StateOf(p, s.deviceId), clock.full);
  }

  function WarningTimes(warnings: seq<Warning>): seq<Time> { seq(|warnings|, i requires 0 <= i < |warnings| => warnings[i].at) }

  ghost predicate WarningsSpaced(st: Stream) {
    && Spaced(WarningTimes(st.warnings), MINUTE)
    && st.lastWarn == (if st.warnings == [] then 0 else st.warnings[|st.warnings| - 1].at)
    && (st.warnings != [] ==> st.lastWarn != 0)
  }

  /** Overflow warnings are at least one minute apart, across all devices. */
  lemma {:induction false} WarningRate(capacity: int, events: seq<Event>)
    requires forall i :: 0 <= i < |events| && events[i].SubmitEvent? ==> events[i].clock.warn != 0
    ensures WarningsSpaced(After(capacity, events))
  {
    if events == [] {
    } else {
      WarningRate(capacity, events[..|events| - 1]);
      NextWarnings(After(capacity, events[..|events| - 1]), events[|events| - 1]);
    }
  }

  lemma NextWarnings(st: Stream, e: Event)
    requires st.run.q.capacity > 0 && WarningsSpaced(st) && (e.SubmitEvent? ==> e.clock.warn != 0)
    ensures WarningsSpaced(Next(st, e))
  {
    hide Warns;
    var st' := Next(st, e);
    if Warns(st, e) {
      WarnedAfterMinute(st, e);
      SpacedAppend(WarningTimes(st.warnings), e.clock.warn, MINUTE);
      assert WarningTimes(st'.warnings) == WarningTimes(st.warnings) + [e.clock.warn];
    }
  }

  lemma WarnedAfterMinute(st: Stream, e: Event)
    requires Warns(st, e)
    ensures e.SubmitEvent? && (st.lastWarn == 0 || e.clock.warn - st.lastWarn >= MINUTE)
  {
  }
}
