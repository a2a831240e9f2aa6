/** The bounded outbound queue: a drop-oldest ring with a one-token wake channel
    (internal/kafkapub/queue.go). */
module MessageQueue {
  import opened Points
  import opened Bits

  // ------------------------------------------------- the simple queue

  /** A bounded first-in first-out queue that drops its oldest entry. `wake` is
      the token of the capacity-one channel, `dropped` a uint64 counter. */
  datatype Queue<M> = Queue(capacity: nat, pending: seq<M>, accepting: bool, wake: bool, dropped: nat)

  function Empty<M>(capacity: int): Queue<M> {
    Queue(if capacity < 1 then 1 else capacity, [], true, false, 0)
  }

  predicate Overflows<M>(q: Queue<M>) { q.accepting && |q.pending| == q.capacity }

  function Push<M>(q: Queue<M>, m: M): Queue<M>
    requires q.capacity > 0
  {
    if !q.accepting then q
    else if |q.pending| == q.capacity then
      q.(pending := q.pending[1..] + [m], wake := true, dropped := (q.dropped + 1) % TWO_64)
    else q.(pending := q.pending + [m], wake := true)
  }

  function TakeHead<M>(q: Queue<M>): Queue<M>
    requires q.pending != []
  {
    q.(pending := q.pending[1..])
  }

  // ------------------------------------------------- the ring

  /** The array index of the i-th queued entry. */
  function Slot(head: nat, i: nat, n: nat): nat
    requires head < n && i <= n
  {
    if head + i < n then head + i else head + i - n
  }

  lemma SlotIsMod(head: nat, i: nat, n: nat)
    requires head < n && i <= n
    ensures (head + i) % n == Slot(head, i, n)
  {
    if head + i < n { DivUnique(head + i, n, 0, head + i); } else { DivUnique(head + i, n, 1, head + i - n); }
  }

  class MessageRing<M> {
    const items: array<Option<M>>
    var head: nat
    var size: nat
    var accepting: bool
    var wake: bool
    var dropped: nat

    ghost predicate Valid()
      reads this, items
    {
      && items.Length > 0 && head < items.Length && size <= items.Length
      && (forall i :: 0 <= i < items.Length ==> (items[Slot(head, i, items.Length)].Some? <==> i < size))
    }

    ghost function Pending(): seq<M>
      requires Valid()
      reads this, items
    {
      seq(size, i requires 0 <= i < size && Valid() reads this, items => items[Slot(head, i, items.Length)].value)
    }

    ghost function Abs(): Queue<M>
      requires Valid()
      reads this, items
    {
      Queue(items.Length, Pending(), accepting, wake, dropped)
    }

    constructor (capacity: int)
      ensures Valid() && fresh(items) && Abs() == Empty(capacity)
    {
      var n := if capacity < 1 then 1 else capacity;
      items := new Option<M>[n](_ => None);
      head, size, accepting, wake, dropped := 0, 0, true, false, 0;
    }

    /** Adds a message; returns the total drop count and whether this push
        dropped the oldest message. */
    method PushMessage(m: M) returns (total: nat, didDrop: bool)
      requires Valid()
      modifies this, items
      ensures Valid() && Abs() == Push(old(Abs()), m)
      ensures total == dropped && didDrop == Overflows(old(Abs()))
    {
      if !accepting { return dropped, false; }
      didDrop := size == items.Length;
      if didDrop {
        Overwrite(m);
      } else {
        Append(m);
      }
      assert Pending() == Push(old(Abs()), m).pending;
      wake := true;
      total := dropped;
    }

    /** The new message takes the place of the oldest one. */
    method Overwrite(m: M)
      requires Valid() && size == items.Length
      modifies this`head, this`dropped, items
      ensures Valid() && Pending() == old(Pending())[1..] + [m] && dropped == (old(dropped) + 1) % TWO_64
    {
      ghost var n, h, was := items.Length, head, Pending();
      items[head] := Some(m);
      SlotIsMod(head, 1, n);
      head := (head + 1) % items.Length;
      dropped := (dropped + 1) % TWO_64;
      forall i | 0 <= i < n ensures Slot(head, i, n) == if i < n - 1 then Slot(h, i + 1, n) else h {}
      assert Pending() == was[1..] + [m];
    }

    method Append(m: M)
      requires Valid() && size < items.Length
      modifies this`size, items
      ensures Valid() && Pending() == old(Pending()) + [m]
    {
      ghost var was := Pending();
      SlotIsMod(head, size, items.Length);
      var index := (head + size) % items.Length;
      items[index] := Some(m);
      size := size + 1;
      assert Pending() == was + [m];
    }

    /** One pass of the consumer through the lock: takes the head if there is
        one. */
    method TryNext() returns (m: Option<M>)
      requires Valid()
      modifies this, items
      ensures Valid()
      ensures if old(Pending()) == [] then m == None && Abs() == old(Abs())
              else m == Some(old(Pending())[0]) && Abs() == TakeHead(old(Abs()))
    {
      if size == 0 { return None; }
      ghost var n, h, was := items.Length, head, Pending();
      m := items[head];
      assert Slot(h, 0, n) == h;
      items[head] := None;
      SlotIsMod(head, 1, n);
      head := (head + 1) % items.Length;
      size := size - 1;
      forall i | 0 <= i < n ensures Slot(head, i, n) == if i < n - 1 then Slot(h, i + 1, n) else h {}
      assert Pending() == was[1..];
    }

    /** The consumer takes the token; parks (returns false) when there is none. */
    method TryWake() returns (woken: bool)
      requires Valid()
      modifies this`wake
      ensures Valid() && woken == old(wake) && Abs() == old(Abs()).(wake := false)
    {
      woken := wake;
      wake := false;
      assert Pending() == old(Pending());
    }

    method StopAccepting()
      requires Valid()
      modifies this`accepting
      ensures Valid() && Abs() == old(Abs()).(accepting := false)
    {
      accepting := false;
      assert Pending() == old(Pending());
    }

    method DiscardAll()
      requires Valid()
      modifies this`head, this`size, items
      ensures Valid() && Abs() == old(Abs()).(pending := [])
    {
      for i := 0 to items.Length
        invariant forall k :: 0 <= k < i ==> items[k].None?
        invariant head == old(head) && size == old(size)
      {
        items[i] := None;
      }
      head, size := 0, 0;
    }
  }
}
