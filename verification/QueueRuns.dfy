/** All interleavings of producers, the single consumer, and queue shutdown
    (internal/kafkapub/queue.go:26-82; the worker of
    internal/kafkapub/manager.go:146-163 is the only consumer). Each step is one
    lock-protected region or one channel operation; a run is any list of steps,
    where a step that cannot happen leaves the system as it is. */
module QueueRuns {
  import opened Bits
  import opened MessageQueue

  /** Ready: about to enter the lock. Parked: saw an empty queue and waits for
      the token or for cancellation. */
  datatype Consumer = Ready | Parked | Cancelled

  /** What became of an accepted message that has left the queue. */
  datatype Fate = Delivered | Dropped | Discarded

  datatype System<M> = System(q: Queue<M>, consumer: Consumer, log: seq<M>, fates: seq<Fate>, delivered: seq<M>)

  datatype Step<M> = PushStep(m: M) | CheckStep | WakeStep | CancelStep | DiscardStep | StopAcceptingStep

  function Start<M>(capacity: int): System<M> {
    System(Empty(capacity), Ready, [], [], [])
  }

  function Do<M>(s: System<M>, step: Step<M>): System<M>
    requires s.q.capacity > 0
  {
    match step
    case PushStep(m) =>
      if !s.q.accepting then s
      else s.(q := Push(s.q, m), log := s.log + [m], fates := s.fates + if Overflows(s.q) then [Dropped] else [])
    case CheckStep =>
      if s.consumer != Ready then s
      else if s.q.pending == [] then s.(consumer := Parked)
      else s.(q := TakeHead(s.q), fates := s.fates + [Delivered], delivered := s.delivered + [s.q.pending[0]])
    case WakeStep =>
      if s.consumer == Parked && s.q.wake then s.(q := s.q.(wake := false), consumer := Ready) else s
    case CancelStep =>
      if s.consumer == Parked then s.(consumer := Cancelled) else s
    case DiscardStep =>
      s.(q := s.q.(pending := []), fates := s.fates + seq(|s.q.pending|, _ => Discarded))
    case StopAcceptingStep =>
      s.(q := s.q.(accepting := false))
  }

  function Run<M>(capacity: int, steps: seq<Step<M>>): (s: System<M>)
    ensures s.q.capacity == Empty<M>(capacity).capacity
  {
    if steps == [] then Start(capacity) else Do(Run(capacity, steps[..|steps| - 1]), steps[|steps| - 1])
  }

  // ------------------------------------------------- what every run keeps

  function Count(fates: seq<Fate>, f: Fate): nat {
    if fates == [] then 0 else Count(fates[..|fates| - 1], f) + if fates[|fates| - 1] == f then 1 else 0
  }

  /** The logged messages with fate f, in order. */
  function WithFate<M>(log: seq<M>, fates: seq<Fate>, f: Fate): seq<M>
    requires |fates| <= |log|
  {
    if fates == [] then []
    else
      var n := |fates| - 1;
      WithFate(log, fates[..n], f) + if fates[n] == f then [log[n]] else []
  }

  /** The queue is the part of the log whose fate is open; what was delivered is
      an in-order subsequence of the log; the counter counts the drops. */
  ghost predicate Accounts<M>(s: System<M>) {
    && |s.fates| <= |s.log| && s.q.pending == s.log[|s.fates|..]
    && |s.q.pending| <= s.q.capacity
    && s.delivered == WithFate(s.log, s.fates, Delivered)
    && s.q.dropped == Count(s.fates, Dropped) % TWO_64
  }

  /** A parked consumer with work waiting has its wake-up pending. */
  ghost predicate NoLostWakeup<M>(s: System<M>) {
    s.consumer == Parked && s.q.pending != [] ==> s.q.wake
  }

  lemma {:induction false} CountsAddUp(fates: seq<Fate>)
    ensures Count(fates, Delivered) + Count(fates, Dropped) + Count(fates, Discarded) == |fates|
  {
    if fates == [] {
    } else {
      CountsAddUp(fates[..|fates| - 1]);
    }
  }

  lemma CountAppend(fates: seq<Fate>, g: Fate, f: Fate)
    ensures Count(fates + [g], f) == Count(fates, f) + if g == f then 1 else 0
  {
    assert (fates + [g])[..|fates|] == fates;
  }

  lemma {:induction false} CountDiscarded(fates: seq<Fate>, n: nat, f: Fate)
    ensures Count(fates + seq(n, _ => Discarded), f) == Count(fates, f) + if f == Discarded then n else 0
  {
    if n == 0 {
      assert fates + seq(n, _ => Discarded) == fates;
    } else {
      CountDiscarded(fates, n - 1, f);
      assert fates + seq(n, _ => Discarded) == fates + seq(n - 1, _ => Discarded) + [Discarded];
      CountAppend(fates + seq(n - 1, _ => Discarded), Discarded, f);
    }
  }

  lemma WithFateAppend<M>(log: seq<M>, fates: seq<Fate>, g: Fate, f: Fate)
    requires |fates| < |log|
    ensures WithFate(log, fates + [g], f) == WithFate(log, fates, f) + if g == f then [log[|fates|]] else []
  {
    assert (fates + [g])[..|fates|] == fates;
  }

  lemma {:induction false} WithFateLonger<M>(log: seq<M>, m: M, fates: seq<Fate>, f: Fate)
    requires |fates| <= |log|
    ensures WithFate(log + [m], fates, f) == WithFate(log, fates, f)
  {
    if fates == [] {
    } else {
      WithFateLonger(log, m, fates[..|fates| - 1], f);
    }
  }

  lemma {:induction false} WithFateDiscarded<M>(log: seq<M>, fates: seq<Fate>, n: nat)
    requires |fates| + n <= |log|
    ensures WithFate(log, fates + seq(n, _ => Discarded), Delivered) == WithFate(log, fates, Delivered)
  {
    if n == 0 {
      assert fates + seq(n, _ => Discarded) == fates;
    } else {
      WithFateDiscarded(log, fates, n - 1);
      assert fates + seq(n, _ => Discarded) == fates + seq(n - 1, _ => Discarded) + [Discarded];
      WithFateAppend(log, fates + seq(n - 1, _ => Discarded), Discarded, Delivered);
    }
  }

  lemma PushAccounts<M>(s: System<M>, m: M)
    requires s.q.capacity > 0 && Accounts(s) && s.q.accepting
    ensures Accounts(Do(s, PushStep(m)))
  {
    WithFateLonger(s.log, m, s.fates, Delivered);
    assert (s.log + [m])[|s.fates|..] == s.q.pending + [m];
    if !Overflows(s.q) {
      assert s.fates + [] == s.fates;
    } else {
      assert (s.log + [m])[|s.fates| + 1..] == s.q.pending[1..] + [m];
      CountAppend(s.fates, Dropped, Dropped);
      WithFateAppend(s.log + [m], s.fates, Dropped, Delivered);
    }
  }

  lemma CheckAccounts<M>(s: System<M>)
    requires s.q.capacity > 0 && Accounts(s)
    ensures Accounts(Do(s, CheckStep))
  {
    if s.q.pending != [] {
      CountAppend(s.fates, Delivered, Dropped);
      WithFateAppend(s.log, s.fates, Delivered, Delivered);
    }
  }

  lemma DiscardAccounts<M>(s: System<M>)
    requires s.q.capacity > 0 && Accounts(s)
    ensures Accounts(Do(s, DiscardStep))
  {
    CountDiscarded(s.fates, |s.q.pending|, Dropped);
    WithFateDiscarded(s.log, s.fates, |s.q.pending|);
  }

  lemma StepKeeps<M>(s: System<M>, step: Step<M>)
    requires s.q.capacity > 0 && Accounts(s) && NoLostWakeup(s)
    ensures Accounts(Do(s, step)) && NoLostWakeup(Do(s, step))
  {
    match step
    case PushStep(m) => if s.q.accepting { PushAccounts(s, m); }
    case CheckStep => CheckAccounts(s);
    case DiscardStep => DiscardAccounts(s);
    case _ =>
  }

  /** In every run: the queue holds a contiguous suffix of the accepted messages,
      deliveries are an in-order subsequence of them, nothing is lost unaccounted
      (accepted = delivered + dropped + discarded + queued), and no wake-up is
      lost. */
  lemma {:induction false} EveryRun<M>(capacity: int, steps: seq<Step<M>>)
    ensures var s := Run(capacity, steps);
      && Accounts(s) && NoLostWakeup(s)
      && |s.log| == |s.delivered| + Count(s.fates, Dropped) + Count(s.fates, Discarded) + |s.q.pending|
  {
    if steps == [] {
    } else {
      EveryRun(capacity, steps[..|steps| - 1]);
      StepKeeps(Run(capacity, steps[..|steps| - 1]), steps[|steps| - 1]);
    }
    var s := Run(capacity, steps);
    CountsAddUp(s.fates);
    DeliveredCount(s.log, s.fates);
  }

  lemma {:induction false} DeliveredCount<M>(log: seq<M>, fates: seq<Fate>)
    requires |fates| <= |log|
    ensures |WithFate(log, fates, Delivered)| == Count(fates, Delivered)
  {
    if fates == [] {
    } else {
      DeliveredCount(log, fates[..|fates| - 1]);
    }
  }

  /** While nothing was dropped or discarded, deliveries followed by the queue
      are the accepted messages. */
  lemma LosslessRun<M>(s: System<M>)
    requires Accounts(s) && Count(s.fates, Dropped) == 0 && Count(s.fates, Discarded) == 0
    ensures s.log == s.delivered + s.q.pending
  {
    AllDelivered(s.log, s.fates);
  }

  lemma {:induction false} AllDelivered<M>(log: seq<M>, fates: seq<Fate>)
    requires |fates| <= |log| && Count(fates, Dropped) == 0 && Count(fates, Discarded) == 0
    ensures WithFate(log, fates, Delivered) == log[..|fates|]
  {
    if fates == [] {
    } else {
      AllDelivered(log, fates[..|fates| - 1]);
    }
  }

  /** A waiting message always reaches a consumer that is not cancelled: in two
      steps if it was parked, in one if not. */
  lemma ConsumerProceeds<M>(capacity: int, steps: seq<Step<M>>)
    requires var s := Run(capacity, steps); s.q.pending != [] && s.consumer != Cancelled
    ensures var s := Run(capacity, steps);
      var woken := if s.consumer == Parked then Do(s, WakeStep) else s;
      Do(woken, CheckStep).delivered == s.delivered + [s.q.pending[0]]
  {
    EveryRun(capacity, steps);
  }

  // ------------------------------------------------- capacity and shutdown

  /** A push that is accepted drops the oldest message exactly when as many
      messages wait as were asked for, or one where less was asked for;
      otherwise it drops none. */
  lemma DropsWhenFull<M>(capacity: int, steps: seq<Step<M>>, m: M)
    requires Run(capacity, steps).q.accepting
    ensures var s := Run(capacity, steps);
      var s' := Do(s, PushStep(m));
      && s'.log == s.log + [m] && s'.q.wake
      && if |s.q.pending| >= capacity && s.q.pending != [] then
           s'.q.pending == s.q.pending[1..] + [m] && s'.fates == s.fates + [Dropped]
         else s'.q.pending == s.q.pending + [m] && s'.fates == s.fates
  {
    hide Run;
    EveryRun(capacity, steps);
  }

  /** As long as no more messages were accepted than the queue was asked to hold,
      none is dropped. */
  lemma {:induction false} NothingDroppedWithin<M>(capacity: int, steps: seq<Step<M>>)
    requires |Run(capacity, steps).log| <= capacity
    ensures Count(Run(capacity, steps).fates, Dropped) == 0
  {
    if steps == [] {
    } else {
      hide Do, Accounts, NoLostWakeup;
      var n := |steps| - 1;
      EveryRun(capacity, steps[..n]);
      StepWithin(Run(capacity, steps[..n]), steps[n], capacity);
      NothingDroppedWithin(capacity, steps[..n]);
    }
  }

  lemma StepWithin<M>(s: System<M>, step: Step<M>, capacity: int)
    requires Accounts(s) && s.q.capacity == Empty<M>(capacity).capacity && |Do(s, step).log| <= capacity
    ensures |s.log| <= capacity && Count(Do(s, step).fates, Dropped) == Count(s.fates, Dropped)
  {
    hide Count, WithFate;
    match step
    case CheckStep => CountAppend(s.fates, Delivered, Dropped);
    case DiscardStep => CountDiscarded(s.fates, |s.q.pending|, Dropped);
    case _ => assert s.fates + [] == s.fates;
  }

  /** Once the queue has stopped accepting, nothing more is ever accepted, in any
      continuation, and what waits can still be delivered (ConsumerProceeds). */
  lemma {:induction false} StoppedAcceptsNothing<M>(capacity: int, before: seq<Step<M>>, after: seq<Step<M>>)
    ensures var s, s' := Run(capacity, before), Run(capacity, before + [StopAcceptingStep] + after);
      !s'.q.accepting && s'.log == s.log && s'.q.dropped == s.q.dropped
  {
    var stopped := before + [StopAcceptingStep];
    if after == [] {
      assert stopped + after == stopped && stopped[..|before|] == before;
    } else {
      hide Count;
      var n := |after| - 1;
      StoppedAcceptsNothing(capacity, before, after[..n]);
      assert (stopped + after)[..|stopped + after| - 1] == stopped + after[..n];
    }
  }

  /** Every pass of a ready consumer takes the oldest message or, where there is
      none, parks it; a parked one goes on exactly when there is a token, and uses
      it up. */
  lemma EveryPass<M>(s: System<M>)
    requires s.q.capacity > 0
    ensures s.consumer == Ready ==>
              var s' := Do(s, CheckStep);
              if s.q.pending == [] then s' == s.(consumer := Parked)
              else s'.delivered == s.delivered + [s.q.pending[0]] && s'.q.pending == s.q.pending[1..] && s'.consumer == Ready
    ensures s.consumer == Parked ==>
              var s' := Do(s, WakeStep);
              (s'.consumer == Ready <==> s.q.wake) && !s'.q.wake && s'.q.pending == s.q.pending && s'.delivered == s.delivered
  {
  }

  /** Discarding empties the queue and delivers nothing; a cancelled consumer
      takes nothing more. */
  lemma DiscardAndCancel<M>(s: System<M>)
    requires s.q.capacity > 0
    ensures var s' := Do(s, DiscardStep); s'.q == s.q.(pending := []) && s'.delivered == s.delivered && s'.consumer == s.consumer
    ensures s.consumer == Parked ==> Do(s, CancelStep) == s.(consumer := Cancelled)
    ensures s.consumer != Parked ==> Do(s, CancelStep) == s
    ensures s.consumer == Cancelled ==> Do(s, CheckStep) == s && Do(s, WakeStep) == s
  {
  }
}
