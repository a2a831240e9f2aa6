/** The read planner: OptimizeChunks (internal/config/point_config.go:354-422).
    Addresses are uint16 and the wraps are written out with U16. */
module Planner {
  import opened Points

  datatype ReadChunk = ReadChunk(startAddr: u16, quantity: u16, points: seq<Point>)

  const MAX_REGISTERS: u16 := 125
  const MAX_COILS: u16 := 2000

  function U16(x: int): u16 { x % 0x1_0000 }

  function EndU16(p: Point): u16 { U16(p.address + GetRegisterCount(p) - 1) }

  function MaxQuantity(r: RegType): u16 { if IsRegTypeBit(r) then MAX_COILS else MAX_REGISTERS }

  // ------------------------------------------------- what a plan has to be

  ghost predicate SortedByAddress(pts: seq<Point>) {
    forall i, j :: 0 <= i < j < |pts| ==> pts[i].address <= pts[j].address
  }

  /** The points of one register type, in the order the planner visits them:
      every point ends inside the address space (as ValidPoint guarantees). */
  ghost predicate Group(pts: seq<Point>, r: RegType) {
    && SortedByAddress(pts)
    && forall i :: 0 <= i < |pts| ==> pts[i].regType == r && EndAddr(pts[i]) <= 65535
  }

  predicate Covers(p: Point, a: int) { p.address <= a <= EndAddr(p) }

  ghost predicate SomeCovers(pts: seq<Point>, a: int) {
    exists k :: 0 <= k < |pts| && Covers(pts[k], a)
  }

  predicate Within(p: Point, lo: int, hi: int) { lo <= p.address && EndAddr(p) < hi }

  /** One batch read: all its points inside, nothing read that no point asked
      for, and no more than the protocol allows. */
  ghost predicate ChunkOk(c: ReadChunk, r: RegType) {
    && |c.points| > 0
    && 1 <= c.quantity <= MaxQuantity(r)
    && c.startAddr + c.quantity <= 0x1_0000
    && (forall k :: 0 <= k < |c.points| ==> c.points[k].regType == r)
    && (forall k :: 0 <= k < |c.points| ==> Within(c.points[k], c.startAddr, c.startAddr + c.quantity))
    && (forall a :: c.startAddr <= a < c.startAddr + c.quantity ==> SomeCovers(c.points, a))
  }

  function PlanPoints(chunks: seq<ReadChunk>): seq<Point> {
    if chunks == [] then [] else PlanPoints(chunks[..|chunks| - 1]) + chunks[|chunks| - 1].points
  }

  /** Where each chunk starts in the planned sequence of points. */
  function StartsOf(chunks: seq<ReadChunk>): (starts: seq<nat>)
    ensures |starts| == |chunks|
  {
    if chunks == [] then []
    else StartsOf(chunks[..|chunks| - 1]) + [|PlanPoints(chunks[..|chunks| - 1])|]
  }

  // ------------------------------------------------- the greedy cut points

  /** The highest end address among pts[i..j]. */
  ghost function MaxEnd(pts: seq<Point>, i: nat, j: nat): int
    requires i < j <= |pts|
    decreases j
  {
    if j == i + 1 then EndAddr(pts[i])
    else
      var e := MaxEnd(pts, i, j - 1);
      if EndAddr(pts[j - 1]) > e then EndAddr(pts[j - 1]) else e
  }

  lemma {:induction false} MaxEndIsMax(pts: seq<Point>, i: nat, j: nat)
    requires i < j <= |pts|
    ensures forall k :: i <= k < j ==> EndAddr(pts[k]) <= MaxEnd(pts, i, j)
    ensures exists k :: i <= k < j && EndAddr(pts[k]) == MaxEnd(pts, i, j)
    decreases j
  {
    if j == i + 1 {
      assert EndAddr(pts[i]) == MaxEnd(pts, i, j);
    } else {
      MaxEndIsMax(pts, i, j - 1);
      assert EndAddr(pts[j - 1]) <= MaxEnd(pts, i, j);
    }
  }

  /** No gap between pts[k] and the points pts[i..k] before it. */
  ghost predicate Touches(pts: seq<Point>, i: nat, k: nat)
    requires i < k < |pts|
  {
    pts[k].address <= MaxEnd(pts, i, k) + 1
  }

  /** pts[i..j] can be read by one request. */
  ghost predicate Segment(pts: seq<Point>, i: nat, j: nat, limit: u16)
    requires i < j <= |pts|
  {
    && MaxEnd(pts, i, j) - pts[i].address + 1 <= limit
    && forall k :: i < k < j ==> Touches(pts, i, k)
  }

  /** No point was added to the chunk from i to j after it reached the last
      address. */
  ghost predicate NeverFull(pts: seq<Point>, i: nat, j: nat)
    requires i < j <= |pts|
  {
    forall k :: i < k < j ==> BelowTop(pts, i, k)
  }

  ghost predicate BelowTop(pts: seq<Point>, i: nat, k: nat)
    requires i < k <= |pts|
  {
    MaxEnd(pts, i, k) < 65535
  }

  /** The merge test of the planner, computed in uint16. */
  predicate MergesU16(start: u16, chunkEnd: u16, next: Point, limit: u16) {
    next.address <= U16(chunkEnd + 1) && U16(EndU16(next) - start + 1) <= limit
  }

  /** The same test in exact arithmetic, except that a chunk which reached the
      last address never merges: there `chunkEndAddr+1` wraps to 0. */
  predicate Merges(start: u16, chunkEnd: int, next: Point, limit: u16) {
    next.address <= chunkEnd + 1 && EndAddr(next) - start + 1 <= limit && chunkEnd != 65535
  }

  /** Why the planner closed the chunk pts[i..b] before pts[b]. */
  ghost predicate Cut(pts: seq<Point>, i: nat, b: nat, limit: u16)
    requires i < b < |pts|
  {
    !Merges(pts[i].address, MaxEnd(pts, i, b), pts[b], limit)
  }

  /** The k-th chunk is complete and was cut where the next one starts. */
  ghost predicate Closed(pts: seq<Point>, limit: u16, starts: seq<nat>, k: nat)
    requires k + 1 < |starts|
  {
    && starts[k] < starts[k + 1] < |pts|
    && Segment(pts, starts[k], starts[k + 1], limit) && NeverFull(pts, starts[k], starts[k + 1])
    && Cut(pts, starts[k], starts[k + 1], limit)
  }

  ghost predicate ClosedChunks(pts: seq<Point>, limit: u16, starts: seq<nat>) {
    && |starts| > 0 && starts[0] == 0
    && forall k :: 0 <= k < |starts| - 1 ==> Closed(pts, limit, starts, k)
  }

  /** `starts` lists the indices that open a chunk; the last chunk runs to the
      end of the points. */
  ghost predicate Cuts(pts: seq<Point>, limit: u16, starts: seq<nat>) {
    && ClosedChunks(pts, limit, starts)
    && starts[|starts| - 1] < |pts|
    && Segment(pts, starts[|starts| - 1], |pts|, limit)
  }

  /** The greedy plan. */
  ghost predicate GreedyCuts(pts: seq<Point>, limit: u16, starts: seq<nat>) {
    Cuts(pts, limit, starts) && NeverFull(pts, starts[|starts| - 1], |pts|)
  }

  /** A segment covers every address between its first and its last. */
  lemma {:induction false} SegmentCovers(pts: seq<Point>, i: nat, j: nat, limit: u16, a: int)
    requires SortedByAddress(pts) && i < j <= |pts| && Segment(pts, i, j, limit)
    requires pts[i].address <= a <= MaxEnd(pts, i, j)
    ensures exists k :: i <= k < j && Covers(pts[k], a)
    decreases j
  {
    if !Covers(pts[j - 1], a) {
      assert j > i + 1 && Touches(pts, i, j - 1);
      MaxEndIsMax(pts, i, j - 1);
      SegmentCovers(pts, i, j - 1, limit, a);
    }
  }

  /** Closing a segment yields a well-formed chunk. */
  lemma SegmentIsChunk(pts: seq<Point>, r: RegType, i: nat, j: nat, c: ReadChunk)
    requires Group(pts, r) && i < j <= |pts| && Segment(pts, i, j, MaxQuantity(r))
    requires c.startAddr == pts[i].address && c.points == pts[i..j]
    requires c.startAddr + c.quantity - 1 == MaxEnd(pts, i, j)
    ensures ChunkOk(c, r)
  {
    MaxEndIsMax(pts, i, j);
    forall a | c.startAddr <= a < c.startAddr + c.quantity
      ensures SomeCovers(c.points, a)
    {
      SegmentCovers(pts, i, j, MaxQuantity(r), a);
      var k :| i <= k < j && Covers(pts[k], a);
      assert c.points[k - i] == pts[k];
    }
    forall k | 0 <= k < |c.points|
      ensures c.points[k].regType == r && Within(c.points[k], c.startAddr, c.startAddr + c.quantity)
    {
      assert c.points[k] == pts[i + k];
      assert EndAddr(pts[i]) <= MaxEnd(pts, i, j) && EndAddr(pts[i + k]) <= MaxEnd(pts, i, j);
    }
    assert EndAddr(pts[i]) <= MaxEnd(pts, i, j);
  }

  /** What the loop has closed so far: well-formed chunks holding pts[..s]. */
  ghost predicate PlannedUpTo(pts: seq<Point>, r: RegType, chunks: seq<ReadChunk>, s: nat) {
    && s <= |pts| && PlanPoints(chunks) == pts[..s]
    && (forall k :: 0 <= k < |chunks| ==> ChunkOk(chunks[k], r))
    && ClosedChunks(pts, MaxQuantity(r), StartsOf(chunks) + [s])
  }

  /** The chunk still being filled: pts[s..i]. */
  ghost predicate Filling(pts: seq<Point>, r: RegType, s: nat, i: nat, start: u16, chunkEnd: u16, members: seq<Point>) {
    && s < i <= |pts| && Segment(pts, s, i, MaxQuantity(r)) && NeverFull(pts, s, i)
    && start == pts[s].address && members == pts[s..i]
    && chunkEnd == MaxEnd(pts, s, i) >= start
  }

  function CloseChunk(start: u16, chunkEnd: u16, members: seq<Point>): ReadChunk {
    ReadChunk(start, U16(chunkEnd - start + 1), members)
  }

  /** Well-formed chunks that hold the points in order and start at the greedy
      cuts. */
  ghost predicate GreedyPlan(pts: seq<Point>, r: RegType, chunks: seq<ReadChunk>) {
    && PlanPoints(chunks) == pts
    && (forall k :: 0 <= k < |chunks| ==> ChunkOk(chunks[k], r))
    && GreedyCuts(pts, MaxQuantity(r), StartsOf(chunks))
  }

  /** The chunks closed so far and the one being filled hold pts[..i]. */
  ghost predicate Placed(pts: seq<Point>, chunks: seq<ReadChunk>, members: seq<Point>, i: nat)
    requires i <= |pts|
  {
    PlanPoints(chunks) + members == pts[..i]
  }

  /** One group of OptimizeChunks: the loop over the sorted points, with every
      address computed in uint16. Whatever the points, each is placed in one
      chunk, in order; the chunks are well formed when no point wraps past the
      last address. */
  method PlanGroup(pts: seq<Point>, r: RegType) returns (chunks: seq<ReadChunk>)
    requires |pts| > 0
    ensures PlanPoints(chunks) == pts
    ensures Group(pts, r) ==> GreedyPlan(pts, r, chunks)
  {
    hide U16, EndU16, Group, PlannedUpTo, Filling, PlanPoints, GreedyPlan;
    var maxQty := MaxQuantity(r);
    chunks := [];
    ghost var s: nat := 0;
    var start: u16, chunkEnd: u16, members := pts[0].address, EndU16(pts[0]), [pts[0]];
    Opening(pts, r);
    var i := 1;
    while i < |pts|
      invariant i <= |pts| && Placed(pts, chunks, members, i)
      invariant Group(pts, r) ==> PlannedUpTo(pts, r, chunks, s) && Filling(pts, r, s, i, start, chunkEnd, members)
    {
      var next, nextEnd := pts[i], EndU16(pts[i]);
      NextPlaced(pts, chunks, members, i, start, chunkEnd);
      if Group(pts, r) {
        NextPlanned(pts, r, chunks, s, i, start, chunkEnd, members);
      }
      if MergesU16(start, chunkEnd, next, maxQty) {
        members := members + [next];
        if nextEnd > chunkEnd {
          chunkEnd := nextEnd;
        }
      } else {
        chunks := chunks + [CloseChunk(start, chunkEnd, members)];
        s := i;
        start, members, chunkEnd := next.address, [next], nextEnd;
      }
      i := i + 1;
    }
    if Group(pts, r) {
      LastChunk(pts, r, chunks, s, start, chunkEnd, members);
    }
    PlanPointsAppend(chunks, CloseChunk(start, chunkEnd, members));
    assert pts[..|pts|] == pts;
    chunks := chunks + [CloseChunk(start, chunkEnd, members)];
  }

  lemma Opening(pts: seq<Point>, r: RegType)
    requires |pts| > 0
    ensures Placed(pts, [], [pts[0]], 1)
    ensures Group(pts, r) ==>
              PlannedUpTo(pts, r, [], 0) && Filling(pts, r, 0, 1, pts[0].address, EndU16(pts[0]), [pts[0]])
  {
    hide EndU16;
    if Group(pts, r) { FirstChunk(pts, r, 0); }
  }

  /** The next point is placed, whether it joins the chunk or opens a new one. */
  lemma NextPlaced(pts: seq<Point>, chunks: seq<ReadChunk>, members: seq<Point>, i: nat, start: u16, chunkEnd: u16)
    requires i < |pts| && Placed(pts, chunks, members, i)
    ensures Placed(pts, chunks, members + [pts[i]], i + 1)
    ensures Placed(pts, chunks + [CloseChunk(start, chunkEnd, members)], [pts[i]], i + 1)
  {
    hide PlanPoints;
    PlanPointsAppend(chunks, CloseChunk(start, chunkEnd, members));
    assert PlanPoints(chunks) + (members + [pts[i]]) == (PlanPoints(chunks) + members) + [pts[i]];
    assert pts[..i + 1] == pts[..i] + [pts[i]];
  }

  /** One pass of the loop keeps what is closed and what is being filled. */
  lemma NextPlanned(pts: seq<Point>, r: RegType, chunks: seq<ReadChunk>, s: nat, i: nat,
                    start: u16, chunkEnd: u16, members: seq<Point>)
    requires Group(pts, r) && PlannedUpTo(pts, r, chunks, s) && i < |pts|
    requires Filling(pts, r, s, i, start, chunkEnd, members)
    ensures MergesU16(start, chunkEnd, pts[i], MaxQuantity(r)) ==>
              Filling(pts, r, s, i + 1, start, if EndU16(pts[i]) > chunkEnd then EndU16(pts[i]) else chunkEnd, members + [pts[i]])
    ensures !MergesU16(start, chunkEnd, pts[i], MaxQuantity(r)) ==>
              && PlannedUpTo(pts, r, chunks + [CloseChunk(start, chunkEnd, members)], i)
              && Filling(pts, r, i, i + 1, pts[i].address, EndU16(pts[i]), [pts[i]])
  {
    hide U16, EndU16, Group, PlannedUpTo, Filling, MergesU16, Cut;
    MergeOrCut(pts, r, s, i, start, chunkEnd, members);
    if Cut(pts, s, i, MaxQuantity(r)) {
      ChunkClosed(pts, r, chunks, s, i, start, chunkEnd, members);
      FirstChunk(pts, r, i);
    } else {
      ChunkExtended(pts, r, s, i, start, chunkEnd, members);
    }
  }

  lemma PlanPointsAppend(chunks: seq<ReadChunk>, c: ReadChunk)
    ensures PlanPoints(chunks + [c]) == PlanPoints(chunks) + c.points
  {
    assert (chunks + [c])[..|chunks|] == chunks;
  }

  /** For a chunk within the limit the wrapping test and the exact test agree:
      no wrap, neither of `chunkEndAddr+1` nor of `totalQty`, ever merges
      wrongly, and the only points kept out by a wrap are those that follow a
      chunk reaching address 65535. */
  lemma MergeTest(start: u16, chunkEnd: u16, next: Point, limit: u16)
    requires start <= chunkEnd && start <= next.address && EndAddr(next) <= 65535
    requires chunkEnd - start + 1 <= limit <= MAX_COILS
    ensures MergesU16(start, chunkEnd, next, limit) <==> Merges(start, chunkEnd, next, limit)
  {
    var length := EndAddr(next) - start + 1;
    assert EndU16(next) == EndAddr(next);
    assert U16(chunkEnd + 1) == if chunkEnd == 65535 then 0 else chunkEnd + 1;
    assert U16(length) == if length == 65536 then 0 else length;
  }

  lemma MergeOrCut(pts: seq<Point>, r: RegType, s: nat, i: nat, start: u16, chunkEnd: u16, members: seq<Point>)
    requires Group(pts, r) && i < |pts| && Filling(pts, r, s, i, start, chunkEnd, members)
    ensures i > s
    ensures MergesU16(start, chunkEnd, pts[i], MaxQuantity(r)) <==> !Cut(pts, s, i, MaxQuantity(r))
  {
    assert pts[s].address <= pts[i].address;
    MaxEndInRange(pts, r, s, i);
    MergeTest(start, chunkEnd, pts[i], MaxQuantity(r));
  }

  lemma ChunkExtended(pts: seq<Point>, r: RegType, s: nat, i: nat, start: u16, chunkEnd: u16, members: seq<Point>)
    requires Group(pts, r) && i < |pts| && Filling(pts, r, s, i, start, chunkEnd, members)
    requires !Cut(pts, s, i, MaxQuantity(r))
    ensures Filling(pts, r, s, i + 1, start, if EndU16(pts[i]) > chunkEnd then EndU16(pts[i]) else chunkEnd, members + [pts[i]])
  {
    EndU16Exact(pts[i]);
    MaxEndInRange(pts, r, s, i);
    assert Touches(pts, s, i) && BelowTop(pts, s, i);
  }

  lemma EndU16Exact(p: Point)
    requires EndAddr(p) <= 65535
    ensures EndU16(p) == EndAddr(p)
  {
  }

  lemma MaxEndInRange(pts: seq<Point>, r: RegType, i: nat, j: nat)
    requires Group(pts, r) && i < j <= |pts|
    ensures pts[i].address <= EndAddr(pts[i]) <= MaxEnd(pts, i, j) <= 65535
  {
    MaxEndIsMax(pts, i, j);
  }

  lemma FirstChunk(pts: seq<Point>, r: RegType, i: nat)
    requires Group(pts, r) && i < |pts|
    ensures Filling(pts, r, i, i + 1, pts[i].address, EndU16(pts[i]), [pts[i]])
  {
    EndU16Exact(pts[i]);
  }

  lemma LastChunk(pts: seq<Point>, r: RegType, chunks: seq<ReadChunk>, s: nat,
                  start: u16, chunkEnd: u16, members: seq<Point>)
    requires Group(pts, r) && PlannedUpTo(pts, r, chunks, s)
    requires Filling(pts, r, s, |pts|, start, chunkEnd, members)
    ensures GreedyPlan(pts, r, chunks + [CloseChunk(start, chunkEnd, members)])
  {
    ChunkAppended(pts, r, chunks, s, |pts|, start, chunkEnd, members);
  }

  lemma ChunkAppended(pts: seq<Point>, r: RegType, chunks: seq<ReadChunk>, s: nat, i: nat,
                      start: u16, chunkEnd: u16, members: seq<Point>)
    requires Group(pts, r) && PlannedUpTo(pts, r, chunks, s)
    requires Filling(pts, r, s, i, start, chunkEnd, members)
    ensures var c := CloseChunk(start, chunkEnd, members);
      && PlanPoints(chunks + [c]) == pts[..i] && ChunkOk(c, r)
      && StartsOf(chunks + [c]) == StartsOf(chunks) + [s]
  {
    var c := CloseChunk(start, chunkEnd, members);
    MaxEndInRange(pts, r, s, i);
    SegmentIsChunk(pts, r, s, i, c);
    PlanPointsAppend(chunks, c);
    assert (chunks + [c])[..|chunks|] == chunks;
    assert pts[..s] + pts[s..i] == pts[..i];
  }

  lemma ChunkClosed(pts: seq<Point>, r: RegType, chunks: seq<ReadChunk>, s: nat, i: nat,
                    start: u16, chunkEnd: u16, members: seq<Point>)
    requires Group(pts, r) && PlannedUpTo(pts, r, chunks, s) && i < |pts|
    requires Filling(pts, r, s, i, start, chunkEnd, members) && Cut(pts, s, i, MaxQuantity(r))
    ensures PlannedUpTo(pts, r, chunks + [CloseChunk(start, chunkEnd, members)], i)
  {
    ChunkAppended(pts, r, chunks, s, i, start, chunkEnd, members);
    var starts := StartsOf(chunks) + [s];
    var starts' := starts + [i];
    forall k | 0 <= k < |starts'| - 1
      ensures Closed(pts, MaxQuantity(r), starts', k)
    {
      if k + 1 < |starts| {
        assert Closed(pts, MaxQuantity(r), starts, k);
      }
    }
  }
}
