/** The realtime hub: a two-way index between subscriptions and the exact
    (device, tag) keys they want (internal/realtime/hub.go). */
module Realtime {
  import opened Points

  datatype Key = Key(deviceId: int, tag: string)

  datatype ValueEvent = ValueEvent(deviceId: int, tag: string, payload: string, updatedAt: int)

  datatype SetError = BadDevice | EmptyTag | LimitExceeded

  // ------------------------------------------------- the index as a value

  function At<S(==)>(index: map<Key, set<S>>, k: Key): set<S> {
    if k in index then index[k] else {}
  }

  function Join<S(==)>(index: map<Key, set<S>>, k: Key, s: S): map<Key, set<S>> {
    index[k := At(index, k) + {s}]
  }

  /** A key nobody wants any more disappears. */
  function Leave<S(==)>(index: map<Key, set<S>>, k: Key, s: S): map<Key, set<S>> {
    if At(index, k) - {s} == {} then index - {k} else index[k := At(index, k) - {s}]
  }

  ghost predicate NoEmptySet<S>(index: map<Key, set<S>>) {
    forall k :: k in index ==> index[k] != {}
  }

  /** `now` is `was` with s added to exactly the keys ks. */
  ghost predicate Joined<S>(was: map<Key, set<S>>, now: map<Key, set<S>>, s: S, ks: set<Key>) {
    NoEmptySet(now) && forall k :: At(now, k) == At(was, k) + if k in ks then {s} else {}
  }

  /** `now` is `was` with s taken from exactly the keys ks. */
  ghost predicate Left<S>(was: map<Key, set<S>>, now: map<Key, set<S>>, s: S, ks: set<Key>) {
    NoEmptySet(now) && forall k :: At(now, k) == At(was, k) - if k in ks then {s} else {}
  }

  lemma JoinOne<S>(was: map<Key, set<S>>, now: map<Key, set<S>>, s: S, ks: set<Key>, k: Key)
    requires Joined(was, now, s, ks)
    ensures Joined(was, Join(now, k, s), s, ks + {k})
  {
    var next := Join(now, k, s);
    forall j ensures At(next, j) == At(was, j) + if j in ks + {k} then {s} else {} {
      assert At(now, j) == At(was, j) + if j in ks then {s} else {};
    }
  }

  lemma LeaveOne<S>(was: map<Key, set<S>>, now: map<Key, set<S>>, s: S, ks: set<Key>, k: Key)
    requires Left(was, now, s, ks)
    ensures Left(was, Leave(now, k, s), s, ks + {k})
  {
    var next := Leave(now, k, s);
    forall j ensures At(next, j) == At(was, j) - if j in ks + {k} then {s} else {} {
      assert At(now, j) == At(was, j) - if j in ks then {s} else {};
    }
  }

  /** Subscribing and unsubscribing the same keys restores the index when none of
      them was subscribed before. */
  lemma LeaveUndoesJoin<S>(was: map<Key, set<S>>, mid: map<Key, set<S>>, now: map<Key, set<S>>, s: S, ks: set<Key>)
    requires NoEmptySet(was) && Joined(was, mid, s, ks) && Left(mid, now, s, ks)
    ensures now == was <==> forall k :: k in ks ==> s !in At(was, k)
  {
    forall k ensures At(now, k) == At(was, k) - if k in ks then {s} else {} {
      assert At(mid, k) == At(was, k) + if k in ks then {s} else {};
    }
    if forall k :: k in ks ==> s !in At(was, k) {
      forall k ensures At(now, k) == At(was, k) && (k in now <==> k in was) {
        assert k in now <==> At(now, k) != {};
        assert k in was <==> At(was, k) != {};
      }
      assert forall k :: k in now ==> now[k] == At(now, k) == At(was, k) == was[k];
    } else {
      var k :| k in ks && s in At(was, k);
      assert s !in At(now, k);
    }
  }

  lemma AgreementSeen<S>(keysOf: map<S, set<Key>>, index: map<Key, set<S>>, max: int)
    requires Agreement(keysOf, index, max)
    ensures NoEmptySet(index)
  {
  }

  lemma TargetsAreMembers<S>(keysOf: map<S, set<Key>>, index: map<Key, set<S>>, max: int, k: Key)
    requires Agreement(keysOf, index, max)
    ensures At(index, k) <= keysOf.Keys
  {
  }

  lemma NoKeysMoved<S>(was: map<Key, set<S>>, s: S)
    requires NoEmptySet(was)
    ensures Joined(was, was, s, {}) && Left(was, was, s, {})
  {
  }

  // ------------------------------------------------- agreement of the two sides

  /** A key is among a subscription's keys exactly when the subscription is in
      the set for that key; no set is empty; nobody exceeds the limit. */
  ghost predicate Agreement<S>(keysOf: map<S, set<Key>>, index: map<Key, set<S>>, max: int) {
    && NoEmptySet(index)
    && (forall k :: At(index, k) <= keysOf.Keys)
    && (forall s, k :: s in keysOf ==> (k in keysOf[s] <==> s in At(index, k)))
    && (forall s :: s in keysOf ==> WithinLimit(keysOf[s], max))
  }

  ghost predicate WithinLimit(keys: set<Key>, max: int) { |keys| <= max || keys == {} }

  /** When one subscription joins keys on both sides at once, everybody stays in
      agreement. */
  lemma JoinKeepsAgreement<S>(keysOf: map<S, set<Key>>, was: map<Key, set<S>>, now: map<Key, set<S>>, max: int, s: S, ks: set<Key>)
    requires Agreement(keysOf, was, max) && s in keysOf && Joined(was, now, s, ks) && |keysOf[s] + ks| <= max
    ensures Agreement(keysOf[s := keysOf[s] + ks], now, max)
  {
    hide At, NoEmptySet, WithinLimit;
    assert WithinLimit(keysOf[s] + ks, max) by { LimitMet(keysOf[s] + ks, max); }
    forall k ensures At(now, k) <= keysOf.Keys {
      assert At(now, k) <= At(was, k) + {s};
    }
    var keysOf' := keysOf[s := keysOf[s] + ks];
    forall t, k | t in keysOf' ensures k in keysOf'[t] <==> t in At(now, k) {
      assert k in keysOf[t] <==> t in At(was, k);
    }
  }

  lemma LeaveKeepsAgreement<S>(keysOf: map<S, set<Key>>, was: map<Key, set<S>>, now: map<Key, set<S>>, max: int, s: S, ks: set<Key>)
    requires Agreement(keysOf, was, max) && s in keysOf && Left(was, now, s, ks)
    ensures Agreement(keysOf[s := keysOf[s] - ks], now, max)
  {
    hide At, NoEmptySet, WithinLimit;
    FewerWithinLimit(keysOf[s], ks, max);
    forall k ensures At(now, k) <= keysOf.Keys {
      assert At(now, k) <= At(was, k);
    }
    var keysOf' := keysOf[s := keysOf[s] - ks];
    forall t, k | t in keysOf' ensures k in keysOf'[t] <==> t in At(now, k) {
      assert k in keysOf[t] <==> t in At(was, k);
    }
  }

  lemma LimitMet(keys: set<Key>, max: int)
    requires |keys| <= max
    ensures WithinLimit(keys, max)
  {
  }

  lemma FewerWithinLimit(keys: set<Key>, ks: set<Key>, max: int)
    requires WithinLimit(keys, max)
    ensures WithinLimit(keys - ks, max)
  {
    assert keys == (keys - ks) + (keys * ks);
  }

  lemma NewcomerAgrees<S>(keysOf: map<S, set<Key>>, index: map<Key, set<S>>, max: int, s: S)
    requires Agreement(keysOf, index, max) && s !in keysOf
    ensures Agreement(keysOf[s := {}], index, max)
  {
    forall k ensures s !in At(index, k) { assert At(index, k) <= keysOf.Keys; }
  }

  // ------------------------------------------------- requests

  /** The keys a request names, after trimming; repeats count once. */
  function Wanted(deviceId: int, tags: seq<string>): set<Key> {
    set i | 0 <= i < |tags| :: Key(deviceId, TrimSpace(tags[i]))
  }

  lemma WantedNone(deviceId: int, tags: seq<string>)
    requires tags == []
    ensures Wanted(deviceId, tags) == {}
  {
  }

  lemma WantedMore(deviceId: int, tags: seq<string>, i: nat)
    requires i < |tags|
    ensures Wanted(deviceId, tags[..i + 1]) == Wanted(deviceId, tags[..i]) + {Key(deviceId, TrimSpace(tags[i]))}
  {
    var more := tags[..i + 1];
    forall k | k in Wanted(deviceId, tags[..i]) + {Key(deviceId, TrimSpace(tags[i]))} ensures k in Wanted(deviceId, more) {
      if k in Wanted(deviceId, tags[..i]) {
        var j :| 0 <= j < i && k == Key(deviceId, TrimSpace(tags[..i][j]));
        assert more[j] == tags[j];
      } else {
        assert more[i] == tags[i];
      }
    }
    forall k | k in Wanted(deviceId, more) ensures k in Wanted(deviceId, tags[..i]) + {Key(deviceId, TrimSpace(tags[i]))} {
      var j :| 0 <= j < i + 1 && k == Key(deviceId, TrimSpace(more[j]));
      if j < i { assert tags[..i][j] == more[j]; }
    }
  }

  lemma AddedCount(keys: set<Key>, wanted: set<Key>)
    ensures |keys| + |wanted - keys| == |keys + wanted|
  {
    assert keys + wanted == keys + (wanted - keys);
  }

  lemma NewKeyCounts(keys: set<Key>, wanted: set<Key>, k: Key)
    requires k !in wanted
    ensures |(wanted + {k}) - keys| == |wanted - keys| + if k in keys then 0 else 1
  {
    if k in keys {
      assert (wanted + {k}) - keys == wanted - keys;
    } else {
      assert (wanted + {k}) - keys == (wanted - keys) + {k};
    }
  }

  // ------------------------------------------------- the objects

  class Hub {
    const max: int
    var subscriptions: map<Key, set<Subscription>>
    ghost var members: set<Subscription>

    ghost function Holdings(): map<Subscription, set<Key>>
      reads this, members
    {
      map s | s in members :: s.keys
    }

    ghost predicate Valid()
      reads this, members
    {
      (forall s :: s in members ==> s.hub == this) && Agreement(Holdings(), subscriptions, max)
    }

    constructor (max: int)
      ensures Valid() && this.max == max && subscriptions == map[] && members == {}
    {
      this.max := max;
      subscriptions, members := map[], {};
    }

    method Subscribe(buffer: int) returns (s: Subscription)
      requires Valid()
      modifies this`members
      ensures Valid() && fresh(s) && members == old(members) + {s}
      ensures s.keys == {} && !s.done && s.events == [] && s.capacity == if buffer < 1 then 1 else buffer
    {
      s := new Subscription(this, if buffer < 1 then 1 else buffer);
      NewcomerAgrees(Holdings(), subscriptions, max, s);
      ghost var before := Holdings();
      members := members + {s};
      assert Holdings() == before[s := {}];
    }

    /** Offers the event to every subscriber of exactly this key, without waiting:
        a closed one may ignore it, one with room gets it, a full one is closed. */
    method Publish(event: ValueEvent)
      requires Valid()
      modifies this`subscriptions, members
      ensures Valid() && members == old(members)
      ensures forall s :: s in members && s !in old(At(subscriptions, Key(event.deviceId, event.tag))) ==> s.Untouched()
      ensures forall s :: s in old(At(subscriptions, Key(event.deviceId, event.tag))) ==> s in members && s.Offered(event)
    {
      hide Agreement;
      var targets := At(subscriptions, Key(event.deviceId, event.tag));
      TargetsAreMembers<Subscription>(Holdings(), subscriptions, max, Key(event.deviceId, event.tag));
      var todo := targets;
      while todo != {}
        invariant todo <= targets && Valid() && members == old(members)
        invariant forall s :: s in members && (s !in targets || s in todo) ==> s.Untouched()
        invariant forall s :: s in targets && s !in todo ==> s.Offered(event)
      {
        var s :| s in todo;
        todo := todo - {s};
        var room := |s.events| < s.capacity;
        var ignored := *;
        if s.done && (ignored || !room) {
        } else if room {
          ghost var before := Holdings();
          s.events := s.events + [event];
          assert Holdings() == before;
        } else {
          s.Close();
        }
      }
    }
  }

  class Subscription {
    const hub: Hub
    const capacity: nat
    var events: seq<ValueEvent>
    var done: bool
    var keys: set<Key>

    constructor (hub: Hub, capacity: nat)
      ensures this.hub == hub && this.capacity == capacity && events == [] && !done && keys == {}
    {
      this.hub, this.capacity := hub, capacity;
      events, done, keys := [], false, {};
    }

    twostate predicate Untouched()
      reads this
    {
      events == old(events) && done == old(done) && keys == old(keys)
    }

    /** What one offer may do: deliver, be ignored by a closed consumer, or close
        a full one. */
    twostate predicate Offered(event: ValueEvent)
      reads this
    {
      || (|old(events)| < capacity && events == old(events) + [event] && done == old(done) && keys == old(keys))
      || (old(done) && Untouched())
      || (!old(done) && |old(events)| >= capacity && events == old(events) && done && keys == {})
    }

    method Set(deviceId: int, tags: seq<string>) returns (error: Option<SetError>)
      requires hub.Valid() && this in hub.members
      modifies this`keys, hub`subscriptions
      ensures hub.Valid()
      ensures error == Some(BadDevice) <==> deviceId < 1
      ensures error == Some(EmptyTag) <==> deviceId >= 1 && Key(deviceId, "") in Wanted(deviceId, tags)
      ensures error == Some(LimitExceeded) <==>
                deviceId >= 1 && Key(deviceId, "") !in Wanted(deviceId, tags) && |old(keys) + Wanted(deviceId, tags)| > hub.max
      ensures error.Some? ==> keys == old(keys) && hub.subscriptions == old(hub.subscriptions)
      ensures error.None? ==> keys == old(keys) + Wanted(deviceId, tags)
                              && Joined(old(hub.subscriptions), hub.subscriptions, this, Wanted(deviceId, tags))
    {
      hide Joined, Left, Join, Leave, At, WithinLimit, Agreement, NoEmptySet, Wanted, KeysOf;
      if deviceId < 1 {
        return Some(BadDevice);
      }
      var clean, empty := CleanTags(deviceId, tags);
      if empty {
        return Some(EmptyTag);
      }
      var newKeys := CountNew(deviceId, clean);
      AddedCount(keys, Wanted(deviceId, tags));
      if |keys| + newKeys > hub.max {
        return Some(LimitExceeded);
      }
      ghost var was, keysOf := hub.subscriptions, hub.Holdings();
      AgreementSeen(keysOf, was, hub.max);
      JoinAll(deviceId, clean);
      JoinKeepsAgreement(keysOf, was, hub.subscriptions, hub.max, this, Wanted(deviceId, tags));
      assert hub.Holdings() == keysOf[this := keys];
      return None;
    }

    method JoinAll(deviceId: int, clean: seq<string>)
      requires NoEmptySet(hub.subscriptions)
      modifies this`keys, hub`subscriptions
      ensures keys == old(keys) + KeysOf(deviceId, clean)
      ensures Joined(old(hub.subscriptions), hub.subscriptions, this, KeysOf(deviceId, clean))
    {
      hide Joined, Left, Join, Leave, At, NoEmptySet, KeysOf;
      ghost var was, had := hub.subscriptions, keys;
      NoKeysMoved(was, this);
      KeysNone(deviceId, clean[..0]);
      for i := 0 to |clean|
        invariant keys == had + KeysOf(deviceId, clean[..i])
        invariant Joined(was, hub.subscriptions, this, KeysOf(deviceId, clean[..i]))
      {
        var k := Key(deviceId, clean[i]);
        KeysMore(deviceId, clean, i);
        JoinOne(was, hub.subscriptions, this, KeysOf(deviceId, clean[..i]), k);
        keys := keys + {k};
        hub.subscriptions := Join(hub.subscriptions, k, this);
      }
      assert clean[..|clean|] == clean;
    }

    method CountNew(deviceId: int, clean: seq<string>) returns (newKeys: nat)
      requires DistinctTags(clean)
      ensures newKeys == |KeysOf(deviceId, clean) - keys|
    {
      newKeys := 0;
      for i := 0 to |clean|
        invariant newKeys == |KeysOf(deviceId, clean[..i]) - keys|
      {
        KeysMore(deviceId, clean, i);
        NewKeyCounts(keys, KeysOf(deviceId, clean[..i]), Key(deviceId, clean[i]));
        if Key(deviceId, clean[i]) !in keys {
          newKeys := newKeys + 1;
        }
      }
      assert clean[..|clean|] == clean;
    }

    method Remove(deviceId: int, tags: seq<string>)
      requires hub.Valid() && this in hub.members
      modifies this`keys, hub`subscriptions
      ensures hub.Valid() && keys == old(keys) - Wanted(deviceId, tags)
      ensures Left(old(hub.subscriptions), hub.subscriptions, this, Wanted(deviceId, tags))
    {
      hide Joined, Left, Join, Leave, At, WithinLimit, Agreement, NoEmptySet, Wanted, KeysOf;
      ghost var was, had := hub.subscriptions, keys;
      ghost var keysOf := hub.Holdings();
      AgreementSeen(keysOf, was, hub.max);
      NoKeysMoved(was, this);
      WantedNone(deviceId, tags[..0]);
      for i := 0 to |tags|
        invariant keys == had - Wanted(deviceId, tags[..i])
        invariant Left(was, hub.subscriptions, this, Wanted(deviceId, tags[..i]))
      {
        var k := Key(deviceId, TrimSpace(tags[i]));
        WantedMore(deviceId, tags, i);
        LeaveOne(was, hub.subscriptions, this, Wanted(deviceId, tags[..i]), k);
        keys := keys - {k};
        hub.subscriptions := Leave(hub.subscriptions, k, this);
      }
      assert tags[..|tags|] == tags;
      LeaveKeepsAgreement(keysOf, was, hub.subscriptions, hub.max, this, Wanted(deviceId, tags));
      assert hub.Holdings() == keysOf[this := keys];
    }

    /** Only the first call does anything. */
    method Close()
      requires hub.Valid() && this in hub.members
      modifies this`keys, this`done, hub`subscriptions
      ensures hub.Valid() && done
      ensures old(done) ==> keys == old(keys) && hub.subscriptions == old(hub.subscriptions)
      ensures !old(done) ==> keys == {} && Left(old(hub.subscriptions), hub.subscriptions, this, old(keys))
    {
      hide Joined, Left, At, WithinLimit, Agreement, NoEmptySet;
      if !done {
        ghost var was: map<Key, set<Subscription>>, keysOf: map<Subscription, set<Key>> := hub.subscriptions, hub.Holdings();
        AgreementSeen<Subscription>(keysOf, was, hub.max);
        LeaveAll();
        LeaveKeepsAgreement(keysOf, was, hub.subscriptions, hub.max, this, keys);
        keys := {};
        done := true;
        assert keysOf[this] - old(keys) == keys;
        assert hub.Holdings() == keysOf[this := keys];
      }
    }

    method LeaveAll()
      requires NoEmptySet(hub.subscriptions)
      modifies hub`subscriptions
      ensures Left(old(hub.subscriptions), hub.subscriptions, this, keys)
    {
      hide Joined, Left, Join, Leave, At, NoEmptySet;
      ghost var was := hub.subscriptions;
      NoKeysMoved(was, this);
      var todo := keys;
      assert keys - todo == {};
      while todo != {}
        invariant todo <= keys
        invariant Left(was, hub.subscriptions, this, keys - todo)
      {
        var k :| k in todo;
        LeaveOne(was, hub.subscriptions, this, keys - todo, k);
        assert keys - (todo - {k}) == (keys - todo) + {k};
        hub.subscriptions := Leave(hub.subscriptions, k, this);
        todo := todo - {k};
      }
      assert keys - todo == keys;
    }
  }

  // ------------------------------------------------- helpers of Set

  ghost predicate DistinctTags(tags: seq<string>) {
    forall i, j :: 0 <= i < j < |tags| ==> tags[i] != tags[j]
  }

  ghost function KeysOf(deviceId: int, clean: seq<string>): set<Key> {
    set i | 0 <= i < |clean| :: Key(deviceId, clean[i])
  }

  lemma KeysNone(deviceId: int, clean: seq<string>)
    requires clean == []
    ensures KeysOf(deviceId, clean) == {}
  {
  }

  lemma KeysMore(deviceId: int, clean: seq<string>, i: nat)
    requires i < |clean|
    ensures KeysOf(deviceId, clean[..i + 1]) == KeysOf(deviceId, clean[..i]) + {Key(deviceId, clean[i])}
    ensures DistinctTags(clean) ==> Key(deviceId, clean[i]) !in KeysOf(deviceId, clean[..i])
  {
    var more := clean[..i + 1];
    forall k | k in KeysOf(deviceId, clean[..i]) + {Key(deviceId, clean[i])} ensures k in KeysOf(deviceId, more) {
      if k in KeysOf(deviceId, clean[..i]) {
        var j :| 0 <= j < i && k == Key(deviceId, clean[..i][j]);
        assert more[j] == clean[j];
      } else {
        assert more[i] == clean[i];
      }
    }
    forall k | k in KeysOf(deviceId, more) ensures k in KeysOf(deviceId, clean[..i]) + {Key(deviceId, clean[i])} {
      var j :| 0 <= j < i + 1 && k == Key(deviceId, more[j]);
      if j < i { assert clean[..i][j] == more[j]; }
    }
  }

  /** Trims, drops repeats and stops at the first empty tag. */
  method CleanTags(deviceId: int, tags: seq<string>) returns (clean: seq<string>, empty: bool)
    ensures empty <==> Key(deviceId, "") in Wanted(deviceId, tags)
    ensures !empty ==> DistinctTags(clean) && KeysOf(deviceId, clean) == Wanted(deviceId, tags)
  {
    clean := [];
    for i := 0 to |tags|
      invariant DistinctTags(clean) && KeysOf(deviceId, clean) == Wanted(deviceId, tags[..i])
      invariant Key(deviceId, "") !in Wanted(deviceId, tags[..i])
    {
      var tag := TrimSpace(tags[i]);
      WantedMore(deviceId, tags, i);
      if tag == "" {
        assert Key(deviceId, TrimSpace(tags[i])) in Wanted(deviceId, tags);
        return clean, true;
      }
      if tag in clean {
        RepeatAddsNothing(deviceId, clean, tag);
        continue;
      }
      KeysMore(deviceId, clean + [tag], |clean|);
      assert (clean + [tag])[..|clean|] == clean;
      assert (clean + [tag])[..|clean| + 1] == clean + [tag];
      clean := clean + [tag];
    }
    assert tags[..|tags|] == tags;
    return clean, false;
  }

  lemma RepeatAddsNothing(deviceId: int, clean: seq<string>, tag: string)
    requires tag in clean
    ensures KeysOf(deviceId, clean) + {Key(deviceId, tag)} == KeysOf(deviceId, clean)
  {
    var j :| 0 <= j < |clean| && clean[j] == tag;
    assert Key(deviceId, clean[j]) in KeysOf(deviceId, clean);
  }
}
