/** One scan over the planned chunks, and writes passed through to the device
    (internal/collector/collector.go:172-379 and 441-508). */
module Collector {
  import opened Points
  import opened Bits
  import opened Planner
  import opened Decoder

  /** What the client returns for one batch read. */
  datatype ReadResult = Failed | Received(raw: seq<byte>)

  datatype Update = Update(tag: string, value: Value)

  /** A chunk as the planner delivers it for accepted points. */
  ghost predicate Planned(c: ReadChunk) {
    |c.points| > 0 && ChunkOk(c, c.points[0].regType) && AllValid(c.points)
  }

  ghost predicate AllPlanned(visit: seq<ReadChunk>) {
    forall k :: 0 <= k < |visit| ==> Planned(visit[k])
  }

  lemma PlannedPoint(c: ReadChunk, k: nat)
    requires Planned(c) && k < |c.points|
    ensures c.points[k] in c.points && Valid(c.points[k])
    ensures c.points[k].bitOffset >= 0 && c.points[k].bitLen >= 0 && c.points[k].regType == c.points[0].regType
  {
    ValidPoint(c.points[k]);
  }

  // ------------------------------------------------- specification

  /** The updates of the first k points of a chunk; points beyond the end of a
      short reply are skipped. */
  ghost function ChunkUpdates(order: ByteOrder, c: ReadChunk, raw: seq<byte>, k: nat): seq<Update>
    requires Planned(c) && k <= |c.points|
  {
    if k == 0 then []
    else
      ChunkUpdates(order, c, raw, k - 1) + PointUpdate(order, c, raw, k - 1)
  }

  datatype ScanResult = ScanResult(updates: seq<Update>, completed: bool)

  /** The scan of the first k visited chunks: it ends at the first failed read,
      keeping the updates made so far. */
  ghost function Scan(order: ByteOrder, visit: seq<ReadChunk>, replies: seq<ReadResult>, k: nat): ScanResult
    requires AllPlanned(visit) && |replies| == |visit| && k <= |visit|
  {
    if k == 0 then ScanResult([], true)
    else
      var before := Scan(order, visit, replies, k - 1);
      if !before.completed then before
      else match replies[k - 1]
        case Failed => ScanResult(before.updates, false)
        case Received(raw) => ScanResult(before.updates + ChunkUpdates(order, visit[k - 1], raw, |visit[k - 1].points|), true)
  }

  ghost function Apply(m: map<string, Value>, updates: seq<Update>): map<string, Value> {
    if updates == [] then m
    else
      var last := updates[|updates| - 1];
      Apply(m, updates[..|updates| - 1])[last.tag := last.value]
  }

  lemma {:induction false} ApplyAppend(m: map<string, Value>, a: seq<Update>, b: seq<Update>)
    ensures Apply(m, a + b) == Apply(Apply(m, a), b)
  {
    if b == [] {
      assert a + b == a;
    } else {
      assert (a + b)[..|a + b| - 1] == a + b[..|b| - 1];
      ApplyAppend(m, a, b[..|b| - 1]);
    }
  }

  /** The effect of the k-th point of a chunk. */
  ghost function PointUpdate(order: ByteOrder, c: ReadChunk, raw: seq<byte>, k: nat): seq<Update>
    requires Planned(c) && k < |c.points|
  {
    PlannedPoint(c, k);
    match DecodeAt(order, c, c.points[k], raw)
    case None => []
    case Some(v) => [Update(c.points[k].tag, v)]
  }

  lemma PointUpdateIs(order: ByteOrder, c: ReadChunk, raw: seq<byte>, k: nat, decoded: Option<Value>)
    requires Planned(c) && k < |c.points| && c.points[k].bitOffset >= 0 && c.points[k].bitLen >= 0
    requires decoded == DecodeAt(order, c, c.points[k], raw)
    ensures PointUpdate(order, c, raw, k) == if decoded.Some? then [Update(c.points[k].tag, decoded.value)] else []
  {
  }

  lemma {:induction false} FailureEndsScan(order: ByteOrder, visit: seq<ReadChunk>, replies: seq<ReadResult>, i: nat, k: nat)
    requires AllPlanned(visit) && |replies| == |visit| && i <= k <= |visit|
    requires !Scan(order, visit, replies, i).completed
    ensures Scan(order, visit, replies, k) == Scan(order, visit, replies, i)
    decreases k
  {
    hide Planned, ChunkUpdates;
    if i == k {
    } else {
      FailureEndsScan(order, visit, replies, i, k - 1);
    }
  }

  /** The updates of answered chunks, one chunk after another. */
  ghost function AnsweredUpdates(order: ByteOrder, visit: seq<ReadChunk>, replies: seq<ReadResult>, n: nat): seq<Update>
    requires AllPlanned(visit) && n <= |visit| == |replies| && forall i :: 0 <= i < n ==> replies[i].Received?
  {
    if n == 0 then []
    else AnsweredUpdates(order, visit, replies, n - 1) + ChunkUpdates(order, visit[n - 1], replies[n - 1].raw, |visit[n - 1].points|)
  }

  lemma {:induction false} AnsweredScan(order: ByteOrder, visit: seq<ReadChunk>, replies: seq<ReadResult>, n: nat)
    requires AllPlanned(visit) && n <= |visit| == |replies| && forall i :: 0 <= i < n ==> replies[i].Received?
    ensures Scan(order, visit, replies, n) == ScanResult(AnsweredUpdates(order, visit, replies, n), true)
  {
    hide Planned, ChunkUpdates;
    if n == 0 {
    } else {
      AnsweredScan(order, visit, replies, n - 1);
    }
  }

  /** A failed read ends the scan: it does not complete, and it has made exactly
      the updates of the chunks answered before. */
  lemma FailedScan(order: ByteOrder, visit: seq<ReadChunk>, replies: seq<ReadResult>, n: nat, k: nat)
    requires AllPlanned(visit) && n < k <= |visit| == |replies|
    requires replies[n].Failed? && forall i :: 0 <= i < n ==> replies[i].Received?
    ensures Scan(order, visit, replies, k) == ScanResult(AnsweredUpdates(order, visit, replies, n), false)
  {
    hide Planned, ChunkUpdates;
    AnsweredScan(order, visit, replies, n);
    FailureEndsScan(order, visit, replies, n + 1, k);
  }

  lemma {:induction false} FirstFailure(replies: seq<ReadResult>, k: nat) returns (n: nat)
    requires k <= |replies| && exists i :: 0 <= i < k && replies[i].Failed?
    ensures n < k && replies[n].Failed? && forall i :: 0 <= i < n ==> replies[i].Received?
    decreases k
  {
    if i :| 0 <= i < k - 1 && replies[i].Failed? {
      n := FirstFailure(replies, k - 1);
    } else {
      n := k - 1;
    }
  }

  /** A scan completes if and only if every read was answered. */
  lemma ScanCompletes(order: ByteOrder, visit: seq<ReadChunk>, replies: seq<ReadResult>, k: nat)
    requires AllPlanned(visit) && k <= |visit| == |replies|
    ensures Scan(order, visit, replies, k).completed <==> forall i :: 0 <= i < k ==> replies[i].Received?
  {
    hide Planned, ChunkUpdates;
    if i :| 0 <= i < k && replies[i].Failed? {
      var n := FirstFailure(replies, k);
      FailedScan(order, visit, replies, n, k);
    } else {
      AnsweredScan(order, visit, replies, k);
    }
  }

  /** What a collector holds: the shared data model, the events sent to
      subscribers, and the values of the scan in progress. */
  datatype Held = Held(data: map<string, Value>, published: seq<Update>, scan: Option<map<string, Value>>)

  ghost predicate Applied(was: Held, updates: seq<Update>, now: Held) {
    && now.data == Apply(was.data, updates)
    && now.published == was.published + updates
    && now.scan == match was.scan { case None => None case Some(m) => Some(Apply(m, updates)) }
  }

  lemma AppliedNothing(h: Held)
    ensures Applied(h, [], h)
  {
  }

  lemma AppliedMore(was: Held, a: seq<Update>, mid: Held, b: seq<Update>, now: Held)
    requires Applied(was, a, mid) && Applied(mid, b, now)
    ensures Applied(was, a + b, now)
  {
    ApplyAppend(was.data, a, b);
    if was.scan.Some? { ApplyAppend(was.scan.value, a, b); }
    assert was.published + (a + b) == was.published + a + b;
  }

  // ------------------------------------------------- the collector

  class Collector {
    const byteOrder: ByteOrder
    var data: map<string, Value>
    var published: seq<Update>
    var scanValues: Option<map<string, Value>>

    constructor (order: ByteOrder)
      ensures byteOrder == order && Holds() == Held(map[], [], None)
    {
      byteOrder := order;
      data, published, scanValues := map[], [], None;
    }

    ghost function Holds(): Held reads this { Held(data, published, scanValues) }

    method UpdateValue(tag: string, value: Value)
      modifies this
      ensures Applied(old(Holds()), [Update(tag, value)], Holds())
    {
      ghost var u := [Update(tag, value)];
      assert forall m :: Apply(m, u) == m[tag := value] by {
        forall m ensures Apply(m, u) == m[tag := value] {
          assert u[..0] == [] && Apply(m, u[..0]) == m;
        }
      }
      data := data[tag := value];
      published := published + [Update(tag, value)];
      if scanValues.Some? {
        scanValues := Some(scanValues.value[tag := value]);
      }
    }

    method ParseAndUpdate(c: ReadChunk, raw: seq<byte>)
      requires Planned(c)
      modifies this
      ensures Applied(old(Holds()), ChunkUpdates(byteOrder, c, raw, |c.points|), Holds())
    {
      hide Valid;
      hide ChunkOk;
      AppliedNothing(Holds());
      for k := 0 to |c.points|
        invariant Applied(old(Holds()), ChunkUpdates(byteOrder, c, raw, k), Holds())
      {
        PlannedPoint(c, k);
        ghost var mid := Holds();
        var decoded := DecodeAt(byteOrder, c, c.points[k], raw);
        PointUpdateIs(byteOrder, c, raw, k, decoded);
        if decoded.Some? {
          UpdateValue(c.points[k].tag, decoded.value);
        } else {
          AppliedNothing(mid);
        }
        AppliedMore(old(Holds()), ChunkUpdates(byteOrder, c, raw, k), mid, PointUpdate(byteOrder, c, raw, k), Holds());
      }
    }

    /** One scan. `visit` is the order in which the chunk map happens to be
        iterated, `replies` what the reads return, in that order; `reconnect`
        tells that a reconnection goroutine was started. */
    method ScanOnce(online: bool, visit: seq<ReadChunk>, replies: seq<ReadResult>)
      returns (completed: Option<map<string, Value>>, reconnect: bool)
      requires AllPlanned(visit) && |replies| == |visit| && scanValues.None?
      modifies this
      ensures scanValues.None?
      ensures !online ==> completed == None && !reconnect && Holds() == old(Holds())
      ensures online ==>
                var r := Scan(byteOrder, visit, replies, |visit|);
                && Applied(old(Holds()), r.updates, Holds())
                && completed == (if r.completed then Some(Apply(map[], r.updates)) else None)
                && reconnect == !r.completed
      ensures online ==> (reconnect <==> exists i :: 0 <= i < |replies| && replies[i].Failed?)
      ensures online ==> (completed.Some? <==> forall i :: 0 <= i < |replies| ==> replies[i].Received?)
    {
      hide Planned;
      hide Valid;
      hide ChunkOk;
      hide ChunkUpdates;
      hide Apply;
      reconnect := false;
      if !online { return None, false; }
      ghost var start := Held(data, published, Some(map[]));
      scanValues := Some(map[]);
      AppliedNothing(start);
      ScanCompletes(byteOrder, visit, replies, |visit|);
      for k := 0 to |visit|
        invariant Scan(byteOrder, visit, replies, k).completed
        invariant Applied(start, Scan(byteOrder, visit, replies, k).updates, Holds())
      {
        match replies[k] {
          case Failed =>
            FailureEndsScan(byteOrder, visit, replies, k + 1, |visit|);
            scanValues := None;
            return None, true;
          case Received(raw) =>
            ghost var mid := Holds();
            ParseAndUpdate(visit[k], raw);
            AppliedMore(start, Scan(byteOrder, visit, replies, k).updates, mid,
                        ChunkUpdates(byteOrder, visit[k], raw, |visit[k].points|), Holds());
        }
      }
      completed := scanValues;
      scanValues := None;
    }
  }
}
