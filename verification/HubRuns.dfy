/** All interleavings of subscribing, unsubscribing, closing, receiving and
    publishing (internal/realtime/hub.go:45-148). Set, Remove and Close are one
    lock-protected region each; a publication first takes its targets under the
    read lock and then offers the event to one after another, with anything in
    between. A run is any list of steps, where a step that cannot happen leaves
    the state as it is. */
module HubRuns {
  import opened Points
  import opened Realtime

  /** `delivered` lists the publications whose event entered the buffer, oldest
      first; the first `received` of them have been taken out. */
  datatype Consumer = Consumer(keys: set<Key>, capacity: nat, done: bool, delivered: seq<nat>, received: nat)

  /** The subscribers found when the publication began, and those not offered yet. */
  datatype Publication = Publication(event: ValueEvent, targets: set<nat>, todo: set<nat>)

  datatype State = State(max: int, subs: map<nat, Consumer>, index: map<Key, set<nat>>, publications: map<nat, Publication>)

  datatype Step =
    | Subscribe(sub: nat, buffer: int)
    | SetKeys(sub: nat, deviceId: int, tags: seq<string>)
    | RemoveKeys(sub: nat, deviceId: int, tags: seq<string>)
    | CloseSub(sub: nat)
    | Receive(sub: nat)
    | Take(publication: nat, event: ValueEvent)
    | Offer(publication: nat, sub: nat, ignored: bool)

  function KeyOf(event: ValueEvent): Key { Key(event.deviceId, event.tag) }

  function Joining(index: map<Key, set<nat>>, s: nat, ks: set<Key>): map<Key, set<nat>> {
    map k | k in index.Keys + ks :: At(index, k) + if k in ks then {s} else {}
  }

  function Leaving(index: map<Key, set<nat>>, s: nat, ks: set<Key>): map<Key, set<nat>> {
    map k | k in index.Keys && At(index, k) - (if k in ks then {s} else {}) != {} :: At(index, k) - if k in ks then {s} else {}
  }

  predicate Settable(s: State, sub: nat, deviceId: int, tags: seq<string>)
    requires sub in s.subs
  {
    && deviceId >= 1 && Key(deviceId, "") !in Wanted(deviceId, tags)
    && |s.subs[sub].keys + Wanted(deviceId, tags)| <= s.max
  }

  function WithKeys(s: State, sub: nat, keys: set<Key>, index: map<Key, set<nat>>): State
    requires sub in s.subs
  {
    s.(subs := s.subs[sub := s.subs[sub].(keys := keys)], index := index)
  }

  function Close(s: State, sub: nat): State
    requires sub in s.subs
  {
    if s.subs[sub].done then s
    else
      var left := WithKeys(s, sub, s.subs[sub].keys - s.subs[sub].keys, Leaving(s.index, sub, s.subs[sub].keys));
      left.(subs := left.subs[sub := left.subs[sub].(done := true)])
  }

  predicate Room(c: Consumer) { |c.delivered| - c.received < c.capacity }

  function OfferTo(s: State, p: nat, sub: nat, ignored: bool): State
    requires p in s.publications && sub in s.subs
  {
    var offered := s.(publications := s.publications[p := s.publications[p].(todo := s.publications[p].todo - {sub})]);
    var c := s.subs[sub];
    if c.done && (ignored || !Room(c)) then offered
    else if Room(c) then offered.(subs := s.subs[sub := c.(delivered := c.delivered + [p])])
    else Close(offered, sub)
  }

  function Do(s: State, step: Step): State {
    match step
    case Subscribe(sub, buffer) =>
      if sub in s.subs then s
      else s.(subs := s.subs[sub := Consumer({}, if buffer < 1 then 1 else buffer, false, [], 0)])
    case SetKeys(sub, deviceId, tags) =>
      if sub in s.subs && Settable(s, sub, deviceId, tags) then
        WithKeys(s, sub, s.subs[sub].keys + Wanted(deviceId, tags), Joining(s.index, sub, Wanted(deviceId, tags)))
      else s
    case RemoveKeys(sub, deviceId, tags) =>
      if sub in s.subs then
        WithKeys(s, sub, s.subs[sub].keys - Wanted(deviceId, tags), Leaving(s.index, sub, Wanted(deviceId, tags)))
      else s
    case CloseSub(sub) => if sub in s.subs then Close(s, sub) else s
    case Receive(sub) =>
      if sub in s.subs && s.subs[sub].received < |s.subs[sub].delivered|
      then s.(subs := s.subs[sub := s.subs[sub].(received := s.subs[sub].received + 1)])
      else s
    case Take(p, event) =>
      if p in s.publications then s
      else s.(publications := s.publications[p := Publication(event, At(s.index, KeyOf(event)), At(s.index, KeyOf(event)))])
    case Offer(p, sub, ignored) =>
      if p in s.publications && sub in s.subs && sub in s.publications[p].todo then OfferTo(s, p, sub, ignored) else s
  }

  function Run(max: int, steps: seq<Step>): State {
    if steps == [] then State(max, map[], map[], map[]) else Do(Run(max, steps[..|steps| - 1]), steps[|steps| - 1])
  }

  // ------------------------------------------------- the invariant

  function KeysMap(subs: map<nat, Consumer>): map<nat, set<Key>> {
    map s | s in subs :: subs[s].keys
  }

  ghost predicate NoRepeats(log: seq<nat>) {
    forall i, j :: 0 <= i < j < |log| ==> log[i] != log[j]
  }

  predicate BufferOk(c: Consumer) { c.capacity >= 1 && c.received <= |c.delivered| <= c.received + c.capacity }

  /** A target that has been offered the event has it, or is closed; nobody else
      has it. */
  ghost predicate OfferedOk(s: State, p: nat, sub: nat)
    requires p in s.publications && sub in s.subs
  {
    var pub, c := s.publications[p], s.subs[sub];
    && (p in c.delivered ==> sub in pub.targets && sub !in pub.todo)
    && (sub in pub.targets && sub !in pub.todo ==> p in c.delivered || c.done)
  }

  ghost predicate ConsumerOk(s: State, sub: nat)
    requires sub in s.subs
  {
    && BufferOk(s.subs[sub]) && NoRepeats(s.subs[sub].delivered)
    && (forall p :: p in s.subs[sub].delivered ==> p in s.publications)
    && (forall p :: p in s.publications ==> OfferedOk(s, p, sub))
  }

  ghost predicate TargetsOk(s: State) {
    forall p :: p in s.publications ==> s.publications[p].todo <= s.publications[p].targets <= s.subs.Keys
  }

  ghost predicate Inv(s: State) {
    && Agreement(KeysMap(s.subs), s.index, s.max) && TargetsOk(s)
    && (forall sub :: sub in s.subs ==> ConsumerOk(s, sub))
  }

  // ------------------------------------------------- the index under one step

  lemma JoiningIsJoined(index: map<Key, set<nat>>, s: nat, ks: set<Key>)
    requires NoEmptySet(index)
    ensures Joined(index, Joining(index, s, ks), s, ks)
  {
    var now := Joining(index, s, ks);
    forall k ensures At(now, k) == At(index, k) + if k in ks then {s} else {} {}
    forall k | k in now ensures now[k] != {} {
      if k in ks { assert s in now[k]; } else { assert now[k] == index[k]; }
    }
  }

  lemma LeavingIsLeft(index: map<Key, set<nat>>, s: nat, ks: set<Key>)
    requires NoEmptySet(index)
    ensures Left(index, Leaving(index, s, ks), s, ks)
  {
    var now := Leaving(index, s, ks);
    forall k ensures At(now, k) == At(index, k) - if k in ks then {s} else {} {}
  }

  lemma KeysMapUpdate(subs: map<nat, Consumer>, sub: nat, c: Consumer)
    ensures KeysMap(subs[sub := c]) == KeysMap(subs)[sub := c.keys]
  {
  }

  lemma KeysMapSame(subs: map<nat, Consumer>, sub: nat, c: Consumer)
    requires sub in subs && c.keys == subs[sub].keys
    ensures KeysMap(subs[sub := c]) == KeysMap(subs)
  {
  }

  lemma SetAgrees(s: State, sub: nat, ks: set<Key>)
    requires Agreement(KeysMap(s.subs), s.index, s.max) && sub in s.subs && |s.subs[sub].keys + ks| <= s.max
    ensures var s' := WithKeys(s, sub, s.subs[sub].keys + ks, Joining(s.index, sub, ks));
      Agreement(KeysMap(s'.subs), s'.index, s'.max)
  {
    hide Agreement, Joined, Joining;
    AgreementSeen(KeysMap(s.subs), s.index, s.max);
    JoiningIsJoined(s.index, sub, ks);
    JoinKeepsAgreement(KeysMap(s.subs), s.index, Joining(s.index, sub, ks), s.max, sub, ks);
    KeysMapUpdate(s.subs, sub, s.subs[sub].(keys := s.subs[sub].keys + ks));
  }

  lemma RemoveAgrees(s: State, sub: nat, ks: set<Key>)
    requires Agreement(KeysMap(s.subs), s.index, s.max) && sub in s.subs
    ensures var s' := WithKeys(s, sub, s.subs[sub].keys - ks, Leaving(s.index, sub, ks));
      Agreement(KeysMap(s'.subs), s'.index, s'.max)
  {
    hide Agreement, Left, Leaving;
    AgreementSeen(KeysMap(s.subs), s.index, s.max);
    LeavingIsLeft(s.index, sub, ks);
    LeaveKeepsAgreement(KeysMap(s.subs), s.index, Leaving(s.index, sub, ks), s.max, sub, ks);
    KeysMapUpdate(s.subs, sub, s.subs[sub].(keys := s.subs[sub].keys - ks));
  }

  lemma CloseAgrees(s: State, sub: nat)
    requires Agreement(KeysMap(s.subs), s.index, s.max) && sub in s.subs
    ensures Agreement(KeysMap(Close(s, sub).subs), Close(s, sub).index, Close(s, sub).max)
  {
    hide Agreement, Leaving;
    if s.subs[sub].done {
    } else {
      var keys := s.subs[sub].keys;
      RemoveAgrees(s, sub, keys);
      var left := WithKeys(s, sub, keys - keys, Leaving(s.index, sub, keys));
      KeysMapSame(left.subs, sub, left.subs[sub].(done := true));
    }
  }

  // ------------------------------------------------- consumers under one step

  /** The same deliveries, and closed at most more often. */
  ghost predicate SameDeliveries(s: State, s': State) {
    && s'.subs.Keys == s.subs.Keys && s'.publications == s.publications
    && forall sub :: sub in s.subs ==>
         && s'.subs[sub].delivered == s.subs[sub].delivered && s'.subs[sub].capacity == s.subs[sub].capacity
         && s.subs[sub].received <= s'.subs[sub].received <= |s.subs[sub].delivered|
         && (s.subs[sub].done ==> s'.subs[sub].done)
  }

  ghost predicate ConsumersOk(s: State) {
    TargetsOk(s) && forall sub :: sub in s.subs ==> ConsumerOk(s, sub)
  }

  lemma SameDeliveriesKeep(s: State, s': State)
    requires ConsumersOk(s) && SameDeliveries(s, s')
    ensures ConsumersOk(s')
  {
    forall sub | sub in s'.subs ensures ConsumerOk(s', sub) {
      assert ConsumerOk(s, sub);
      forall p | p in s'.publications ensures OfferedOk(s', p, sub) {
        assert OfferedOk(s, p, sub);
      }
    }
  }

  lemma SubscribeKeeps(s: State, sub: nat, buffer: int)
    requires Inv(s) && sub !in s.subs
    ensures Inv(Do(s, Subscribe(sub, buffer)))
  {
    hide Agreement;
    var s' := Do(s, Subscribe(sub, buffer));
    NewcomerAgrees(KeysMap(s.subs), s.index, s.max, sub);
    KeysMapUpdate(s.subs, sub, s'.subs[sub]);
    forall t | t in s'.subs ensures ConsumerOk(s', t) {
      if t != sub {
        assert ConsumerOk(s, t);
        forall p | p in s'.publications ensures OfferedOk(s', p, t) { assert OfferedOk(s, p, t); }
      }
    }
  }

  lemma TakeKeeps(s: State, p: nat, event: ValueEvent)
    requires Inv(s) && p !in s.publications
    ensures Inv(Do(s, Take(p, event)))
  {
    TargetsAreMembers(KeysMap(s.subs), s.index, s.max, KeyOf(event));
    hide Agreement, At;
    var s' := Do(s, Take(p, event));
    forall t | t in s'.subs ensures ConsumerOk(s', t) {
      assert ConsumerOk(s, t);
      forall q | q in s'.publications ensures OfferedOk(s', q, t) {
        if q != p { assert OfferedOk(s, q, t); }
      }
    }
  }

  lemma AppendFresh(log: seq<nat>, p: nat)
    requires NoRepeats(log) && p !in log
    ensures NoRepeats(log + [p])
  {
  }

  /** The offer to a consumer with room. */
  lemma DeliverKeeps(s: State, p: nat, sub: nat)
    requires Inv(s) && p in s.publications && sub in s.subs && sub in s.publications[p].todo && Room(s.subs[sub])
    ensures Inv(OfferTo(s, p, sub, false))
  {
    hide Agreement;
    var s' := OfferTo(s, p, sub, false);
    var c := s.subs[sub];
    KeysMapSame(s.subs, sub, c.(delivered := c.delivered + [p]));
    assert ConsumerOk(s, sub) && OfferedOk(s, p, sub);
    AppendFresh(c.delivered, p);
    forall t | t in s'.subs ensures ConsumerOk(s', t) {
      assert ConsumerOk(s, t);
      forall q | q in s'.publications ensures OfferedOk(s', q, t) {
        assert OfferedOk(s, q, t);
      }
    }
  }

  /** The offer that a closed consumer does not take. */
  lemma SkipKeeps(s: State, p: nat, sub: nat)
    requires Inv(s) && p in s.publications && sub in s.subs && s.subs[sub].done
    ensures Inv(s.(publications := s.publications[p := s.publications[p].(todo := s.publications[p].todo - {sub})]))
  {
    hide Agreement;
    var s' := s.(publications := s.publications[p := s.publications[p].(todo := s.publications[p].todo - {sub})]);
    forall t | t in s'.subs ensures ConsumerOk(s', t) {
      assert ConsumerOk(s, t);
      forall q | q in s'.publications ensures OfferedOk(s', q, t) {
        assert OfferedOk(s, q, t);
      }
    }
  }

  lemma CloseKeeps(s: State, sub: nat)
    requires Inv(s) && sub in s.subs
    ensures Inv(Close(s, sub)) && Close(s, sub).subs[sub].done && Close(s, sub).publications == s.publications
  {
    hide Agreement, Leaving;
    CloseAgrees(s, sub);
    hide ConsumerOk, TargetsOk;
    SameDeliveriesKeep(s, Close(s, sub)) by { BuffersOk(s); }
  }

  lemma BuffersOk(s: State)
    requires Inv(s)
    ensures forall sub :: sub in s.subs ==> BufferOk(s.subs[sub])
  {
    forall sub | sub in s.subs ensures BufferOk(s.subs[sub]) {
      assert ConsumerOk(s, sub);
    }
  }

  /** Closing and crossing off the offer may come in either order. */
  lemma CloseThenCross(s: State, p: nat, sub: nat, ignored: bool)
    requires p in s.publications && sub in s.subs && !s.subs[sub].done && !Room(s.subs[sub])
    ensures var closed := Close(s, sub);
      OfferTo(s, p, sub, ignored) == closed.(publications := closed.publications[p := closed.publications[p].(todo := closed.publications[p].todo - {sub})])
  {
    hide Leaving;
  }

  lemma OfferKeeps(s: State, p: nat, sub: nat, ignored: bool)
    requires Inv(s) && p in s.publications && sub in s.subs && sub in s.publications[p].todo
    ensures Inv(OfferTo(s, p, sub, ignored))
  {
    hide Inv, Close;
    var c := s.subs[sub];
    if c.done && (ignored || !Room(c)) {
      SkipKeeps(s, p, sub);
    } else if Room(c) {
      DeliverKeeps(s, p, sub);
    } else {
      CloseThenCross(s, p, sub, ignored);
      CloseKeeps(s, sub);
      CloseSubs(s, sub);
      SkipKeeps(Close(s, sub), p, sub);
    }
  }

  lemma CloseSubs(s: State, sub: nat)
    requires sub in s.subs
    ensures Close(s, sub).subs.Keys == s.subs.Keys
  {
  }

  lemma KeysKeep(s: State, sub: nat, keys: set<Key>, index: map<Key, set<nat>>)
    requires Inv(s) && sub in s.subs
    requires var s' := WithKeys(s, sub, keys, index); Agreement(KeysMap(s'.subs), s'.index, s'.max)
    ensures Inv(WithKeys(s, sub, keys, index))
  {
    hide Agreement, ConsumerOk, TargetsOk;
    BuffersOk(s);
    SameDeliveriesKeep(s, WithKeys(s, sub, keys, index));
  }

  lemma ReceiveKeeps(s: State, sub: nat)
    requires Inv(s) && sub in s.subs
    ensures Inv(Do(s, Receive(sub)))
  {
    BuffersOk(s);
    hide Agreement, ConsumerOk, TargetsOk, BufferOk, KeysMap;
    if s.subs[sub].received < |s.subs[sub].delivered| {
      KeysMapSame(s.subs, sub, s.subs[sub].(received := s.subs[sub].received + 1));
      ReceiveSame(s, sub);
      SameDeliveriesKeep(s, Do(s, Receive(sub)));
      hide SameDeliveries;
    }
  }

  lemma ReceiveSame(s: State, sub: nat)
    requires sub in s.subs && s.subs[sub].received < |s.subs[sub].delivered|
    requires forall t :: t in s.subs ==> s.subs[t].received <= |s.subs[t].delivered|
    ensures SameDeliveries(s, Do(s, Receive(sub)))
  {
  }

  lemma StepKeeps(s: State, step: Step)
    requires Inv(s)
    ensures Inv(Do(s, step))
  {
    hide Agreement, ConsumerOk, TargetsOk, Joining, Leaving, WithKeys, Close, OfferTo, Wanted;
    match step
    case Subscribe(sub, buffer) => if sub !in s.subs { SubscribeKeeps(s, sub, buffer); }
    case SetKeys(sub, deviceId, tags) =>
      if sub in s.subs && Settable(s, sub, deviceId, tags) {
        SetAgrees(s, sub, Wanted(deviceId, tags));
        KeysKeep(s, sub, s.subs[sub].keys + Wanted(deviceId, tags), Joining(s.index, sub, Wanted(deviceId, tags)));
      }
    case RemoveKeys(sub, deviceId, tags) =>
      if sub in s.subs {
        RemoveAgrees(s, sub, Wanted(deviceId, tags));
        KeysKeep(s, sub, s.subs[sub].keys - Wanted(deviceId, tags), Leaving(s.index, sub, Wanted(deviceId, tags)));
      }
    case CloseSub(sub) => if sub in s.subs { CloseKeeps(s, sub); }
    case Receive(sub) => if sub in s.subs { ReceiveKeeps(s, sub); }
    case Take(p, event) => if p !in s.publications { TakeKeeps(s, p, event); }
    case Offer(p, sub, ignored) =>
      if p in s.publications && sub in s.subs && sub in s.publications[p].todo { OfferKeeps(s, p, sub, ignored); }
  }

  lemma {:induction false} EveryRun(max: int, steps: seq<Step>)
    ensures Inv(Run(max, steps))
  {
    if steps == [] {
    } else {
      hide Inv, Do;
      EveryRun(max, steps[..|steps| - 1]);
      StepKeeps(Run(max, steps[..|steps| - 1]), steps[|steps| - 1]);
    }
  }

  // ------------------------------------------------- what a subscriber gets

  lemma StepSamePublication(s: State, step: Step, p: nat)
    requires p in s.publications
    ensures p in Do(s, step).publications && Do(s, step).publications[p].(todo := {}) == s.publications[p].(todo := {})
  {
    hide Joining, Leaving, Wanted;
  }

  lemma RunPlus(max: int, steps: seq<Step>, step: Step)
    ensures Run(max, steps + [step]) == Do(Run(max, steps), step)
  {
    assert (steps + [step])[..|steps|] == steps;
  }

  lemma {:induction false} SamePublication(max: int, base: seq<Step>, after: seq<Step>, p: nat)
    requires p in Run(max, base).publications
    ensures p in Run(max, base + after).publications
    ensures Run(max, base + after).publications[p].(todo := {}) == Run(max, base).publications[p].(todo := {})
  {
    hide Run, Do;
    if after == [] {
      assert base + after == base;
    } else {
      var n := |after| - 1;
      SamePublication(max, base, after[..n], p);
      assert base + after == (base + after[..n]) + [after[n]];
      RunPlus(max, base + after[..n], after[n]);
      StepSamePublication(Run(max, base + after[..n]), after[n], p);
    }
  }

  /** Whatever happens between taking the targets and the offers: the event of a
      publication reaches only those that were subscribed to exactly its key when
      it began, each at most once; and when all offers are made, each of them has
      got it or is closed. */
  lemma PublishReachesSubscribers(max: int, before: seq<Step>, p: nat, event: ValueEvent, after: seq<Step>, sub: nat)
    requires p !in Run(max, before).publications && sub in Run(max, before + [Take(p, event)] + after).subs
    ensures var s0, s := Run(max, before), Run(max, before + [Take(p, event)] + after);
      var subscribed := sub in s0.subs && Key(event.deviceId, event.tag) in s0.subs[sub].keys;
      && p in s.publications
      && (p in s.subs[sub].delivered ==> subscribed)
      && NoRepeats(s.subs[sub].delivered)
      && (s.publications[p].todo == {} && subscribed ==> p in s.subs[sub].delivered || s.subs[sub].done)
  {
    hide Run, NoRepeats;
    var base := before + [Take(p, event)];
    var s0, s := Run(max, before), Run(max, base + after);
    RunPlus(max, before, Take(p, event));
    EveryRun(max, before);
    EveryRun(max, base + after);
    SamePublication(max, base, after, p);
    assert s.publications[p].targets == At(s0.index, KeyOf(event));
    TargetsSubscribed(s0, KeyOf(event), sub);
    assert ConsumerOk(s, sub);
    assert OfferedOk(s, p, sub);
  }

  lemma TargetsSubscribed(s: State, k: Key, sub: nat)
    requires Agreement(KeysMap(s.subs), s.index, s.max)
    ensures sub in At(s.index, k) <==> sub in s.subs && k in s.subs[sub].keys
  {
    TargetsAreMembers(KeysMap(s.subs), s.index, s.max, k);
    if sub in s.subs { assert k in KeysMap(s.subs)[sub] <==> sub in At(s.index, k); }
  }

  /** A subscriber with room that removes the key after the targets were taken
      still gets the event when its offer comes. */
  lemma RemovedStillGets(s: State, p: nat, sub: nat, tags: seq<string>)
    requires p in s.publications && sub in s.subs && sub in s.publications[p].todo && Room(s.subs[sub])
    requires KeyOf(s.publications[p].event) in Wanted(s.publications[p].event.deviceId, tags)
    ensures var event := s.publications[p].event;
      var s' := Do(Do(s, RemoveKeys(sub, event.deviceId, tags)), Offer(p, sub, false));
      && sub in s'.subs && KeyOf(event) !in s'.subs[sub].keys
      && s'.subs[sub].delivered == s.subs[sub].delivered + [p]
  {
    hide Wanted, Leaving;
  }

  // ------------------------------------------------- what each operation does

  predicate Named(k: Key, deviceId: int, tags: seq<string>) {
    k.deviceId == deviceId && exists i :: 0 <= i < |tags| && TrimSpace(tags[i]) == k.tag
  }

  /** Whether a Set is carried out: a positive device, no empty tag, and at most
      `max` keys afterwards, old and new counted once. */
  ghost predicate Accepted(s: State, sub: nat, deviceId: int, tags: seq<string>)
    requires sub in s.subs
  {
    && deviceId >= 1 && (forall i :: 0 <= i < |tags| ==> TrimSpace(tags[i]) != "")
    && |s.subs[sub].keys + Wanted(deviceId, tags)| <= s.max
  }

  lemma WantedNames(deviceId: int, tags: seq<string>)
    ensures forall k :: k in Wanted(deviceId, tags) <==> Named(k, deviceId, tags)
    ensures Key(deviceId, "") in Wanted(deviceId, tags) <==> exists i :: 0 <= i < |tags| && TrimSpace(tags[i]) == ""
  {
    hide TrimSpace;
    forall k | Named(k, deviceId, tags) ensures k in Wanted(deviceId, tags) {
      var i :| 0 <= i < |tags| && TrimSpace(tags[i]) == k.tag;
      assert k == Key(deviceId, TrimSpace(tags[i]));
    }
    if i :| 0 <= i < |tags| && TrimSpace(tags[i]) == "" { assert Named(Key(deviceId, ""), deviceId, tags); }
  }

  /** In every state: an accepted Set adds exactly the named keys of its consumer,
      a refused one changes nothing, and Remove takes exactly the named ones away. */
  lemma SetAndRemove(s: State, sub: nat, deviceId: int, tags: seq<string>)
    requires sub in s.subs
    ensures var s' := Do(s, SetKeys(sub, deviceId, tags));
      if Accepted(s, sub, deviceId, tags) then
        && s'.subs.Keys == s.subs.Keys && s'.publications == s.publications
        && (forall k :: k in s'.subs[sub].keys <==> k in s.subs[sub].keys || Named(k, deviceId, tags))
        && OnlyKeysMoved(s, s', sub)
      else s' == s
    ensures var s' := Do(s, RemoveKeys(sub, deviceId, tags));
      && s'.subs.Keys == s.subs.Keys && s'.publications == s.publications
      && (forall k :: k in s'.subs[sub].keys <==> k in s.subs[sub].keys && !Named(k, deviceId, tags))
      && OnlyKeysMoved(s, s', sub)
  {
    hide Named, Joining, Leaving, TrimSpace, Wanted;
    WantedNames(deviceId, tags);
  }

  ghost predicate OnlyKeysMoved(s: State, s': State, sub: nat)
    requires s'.subs.Keys == s.subs.Keys && sub in s.subs
  {
    && s'.subs[sub].(keys := s.subs[sub].keys) == s.subs[sub]
    && forall t :: t in s.subs && t != sub ==> s'.subs[t] == s.subs[t]
  }

  /** A new consumer has no keys, an empty buffer of the size asked for, at least
      one, and is open. */
  lemma SubscribeOpens(s: State, sub: nat, buffer: int)
    requires sub !in s.subs
    ensures var s' := Do(s, Subscribe(sub, buffer));
      && s'.(subs := s.subs) == s && s'.subs == s.subs[sub := s'.subs[sub]]
      && s'.subs[sub].keys == {} && s'.subs[sub].delivered == [] && !s'.subs[sub].done
      && s'.subs[sub].capacity >= 1 && s'.subs[sub].capacity >= buffer && (s'.subs[sub].capacity == 1 || s'.subs[sub].capacity == buffer)
  {
  }

  /** Receiving takes one event out and makes room for another; a consumer without
      room is one with as many events waiting as its buffer holds. */
  lemma ReceiveMakesRoom(max: int, steps: seq<Step>, sub: nat)
    requires sub in Run(max, steps).subs
    ensures var s := Run(max, steps);
      var c, s' := s.subs[sub], Do(s, Receive(sub));
      && (!Room(c) <==> |c.delivered| - c.received == c.capacity)
      && sub in s'.subs
      && if c.received == |c.delivered| then s' == s
         else s'.subs[sub] == c.(received := c.received + 1) && Room(s'.subs[sub])
  {
    hide Run, Agreement, TargetsOk, NoRepeats, OfferedOk;
    EveryRun(max, steps);
    assert ConsumerOk(Run(max, steps), sub);
  }
}
