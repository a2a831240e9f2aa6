/** How good the greedy read plan is: it uses the least possible number of
    requests, over all ways to split the points into blocks, exactly when no
    point but the last in sorted order ends at address 65535
    (internal/config/point_config.go:375-408). */
module PlanOptimality {
  import opened Points
  import opened Reordering
  import opened Planner

  // ------------------------------------------------- all ways to split

  ghost predicate InBlock(labels: seq<nat>, k: nat, b: nat) { k < |labels| && labels[k] == b }

  /** Two points of one block fit together in a request. */
  ghost predicate Fits(pts: seq<Point>, i: nat, j: nat, limit: u16)
    requires i < |pts| && j < |pts|
  {
    EndAddr(pts[j]) - pts[i].address + 1 <= limit
  }

  ghost predicate BlockCovers(pts: seq<Point>, labels: seq<nat>, b: nat, a: int)
    requires |labels| == |pts|
  {
    exists k :: 0 <= k < |pts| && InBlock(labels, k, b) && Covers(pts[k], a)
  }

  /** No address between two points of block b is left out of the block. */
  ghost predicate GapFree(pts: seq<Point>, labels: seq<nat>, b: nat, i: nat, j: nat)
    requires |labels| == |pts| && i < |pts| && j < |pts|
  {
    forall a :: pts[i].address <= a <= EndAddr(pts[j]) ==> BlockCovers(pts, labels, b, a)
  }

  /** `labels` assigns each point to one of m blocks, in any order, and each
      block is gap-free and short enough for one request. */
  ghost predicate Split(pts: seq<Point>, labels: seq<nat>, m: nat, limit: u16) {
    && |labels| == |pts|
    && (forall k :: 0 <= k < |labels| ==> labels[k] < m)
    && forall i, j :: 0 <= i < |pts| && 0 <= j < |pts| && labels[i] == labels[j] ==>
         Fits(pts, i, j, limit) && GapFree(pts, labels, labels[i], i, j)
  }

  ghost predicate MinimalCount(pts: seq<Point>, c: nat, limit: u16) {
    && (exists labels :: Split(pts, labels, c, limit))
    && (forall labels, m: nat :: Split(pts, labels, m, limit) ==> c <= m)
  }

  /** Only the last point may end at address 65535. */
  ghost predicate OnlyLastReachesTop(pts: seq<Point>) {
    forall k :: 0 <= k < |pts| - 1 ==> EndAddr(pts[k]) < 65535
  }

  // ------------------------------------------------- the condition on the unsorted points

  ghost predicate SortOf(points: seq<Point>, pts: seq<Point>) {
    multiset(pts) == multiset(points) && SortedByAddress(pts)
  }

  /** When p ends at 65535, q starts before it. */
  predicate StartsBefore(p: Point, q: Point) {
    EndAddr(p) == 65535 ==> q.address < p.address
  }

  /** When p ends at 65535, q does not, and does not start after it. */
  predicate MayPrecede(p: Point, q: Point) {
    EndAddr(p) == 65535 ==> q.address <= p.address && EndAddr(q) < 65535
  }

  /** A point ending at 65535 starts after all others. */
  ghost predicate TopAlone(points: seq<Point>) {
    forall i, j :: 0 <= i < |points| && 0 <= j < |points| && i != j ==> StartsBefore(points[i], points[j])
  }

  /** At most one point ends at 65535, and none starts after it. */
  ghost predicate TopCanBeLast(points: seq<Point>) {
    forall i, j :: 0 <= i < |points| && 0 <= j < |points| && i != j ==> MayPrecede(points[i], points[j])
  }

  /** The first condition makes every sorted order one in which only the last
      point reaches the top; such an order meets the second. */
  lemma TopConditions(points: seq<Point>, pts: seq<Point>)
    requires SortOf(points, pts) && AllEndInside(pts)
    ensures TopAlone(points) ==> OnlyLastReachesTop(pts)
    ensures OnlyLastReachesTop(pts) ==> TopCanBeLast(points)
  {
    if TopAlone(points) {
      forall k | 0 <= k < |pts| - 1 ensures EndAddr(pts[k]) < 65535 {
        PairUnderReordering(points, pts, k, |pts| - 1);
        var a, b :| 0 <= a < |points| && 0 <= b < |points| && a != b && points[a] == pts[k] && points[b] == pts[|pts| - 1];
        assert StartsBefore(points[a], points[b]);
      }
    }
    if OnlyLastReachesTop(pts) {
      forall i, j | 0 <= i < |points| && 0 <= j < |points| && i != j ensures MayPrecede(points[i], points[j]) {
        PairUnderReordering(pts, points, i, j);
        var a, b :| 0 <= a < |pts| && 0 <= b < |pts| && a != b && pts[a] == points[i] && pts[b] == points[j];
        if EndAddr(pts[a]) == 65535 {
          assert a == |pts| - 1;
        }
      }
    }
  }

  // ------------------------------------------------- the plan is a split

  /** The chunk that point k belongs to. */
  ghost function ChunkOf(starts: seq<nat>, k: nat): nat
    requires |starts| > 0 && starts[0] == 0
  {
    if starts[|starts| - 1] <= k || |starts| == 1 then |starts| - 1
    else ChunkOf(starts[..|starts| - 1], k)
  }

  lemma {:induction false} StartsIncrease(pts: seq<Point>, limit: u16, starts: seq<nat>, k: nat, l: nat)
    requires ClosedChunks(pts, limit, starts) && k < l < |starts|
    ensures starts[k] < starts[l] < |pts|
    decreases l
  {
    assert Closed(pts, limit, starts, l - 1);
    if k == l - 1 {
    } else {
      StartsIncrease(pts, limit, starts, k, l - 1);
    }
  }

  ghost function StopOf(starts: seq<nat>, n: nat, c: nat): nat
    requires c < |starts|
  {
    if c + 1 < |starts| then starts[c + 1] else n
  }

  lemma ChunkSegment(pts: seq<Point>, limit: u16, starts: seq<nat>, c: nat)
    requires Cuts(pts, limit, starts) && c < |starts|
    ensures starts[c] < StopOf(starts, |pts|, c) <= |pts|
    ensures Segment(pts, starts[c], StopOf(starts, |pts|, c), limit)
  {
    if c + 1 < |starts| { assert Closed(pts, limit, starts, c); }
  }

  lemma {:induction false} ChunkOfBounds(pts: seq<Point>, limit: u16, starts: seq<nat>, k: nat, n: nat)
    requires ClosedChunks(pts, limit, starts) && k < n
    ensures var c := ChunkOf(starts, k); c < |starts| && starts[c] <= k < StopOf(starts, n, c)
    decreases |starts|
  {
    if starts[|starts| - 1] <= k || |starts| == 1 {
    } else {
      var shorter := starts[..|starts| - 1];
      forall l | 0 <= l < |shorter| - 1
        ensures Closed(pts, limit, shorter, l)
      {
        assert Closed(pts, limit, starts, l);
      }
      ChunkOfBounds(pts, limit, shorter, k, starts[|starts| - 1]);
    }
  }

  ghost predicate Inside(starts: seq<nat>, n: nat, c: nat, k: nat) {
    c < |starts| && starts[c] <= k < StopOf(starts, n, c)
  }

  /** A labelling by consecutive segments is a split. */
  lemma SegmentsSplit(pts: seq<Point>, limit: u16, labels: seq<nat>, m: nat, lo: seq<nat>, hi: seq<nat>)
    requires SortedByAddress(pts) && |labels| == |pts| && |lo| == |hi| == m
    requires forall c :: 0 <= c < m ==> lo[c] < hi[c] <= |pts| && Segment(pts, lo[c], hi[c], limit)
    requires forall k :: 0 <= k < |pts| ==> labels[k] < m && lo[labels[k]] <= k < hi[labels[k]]
    requires forall c, k :: 0 <= c < m && lo[c] <= k < hi[c] ==> labels[k] == c
    ensures Split(pts, labels, m, limit)
  {
    forall i, j | 0 <= i < |pts| && 0 <= j < |pts| && labels[i] == labels[j]
      ensures Fits(pts, i, j, limit) && GapFree(pts, labels, labels[i], i, j)
    {
      var c := labels[i];
      MaxEndIsMax(pts, lo[c], hi[c]);
      assert pts[lo[c]].address <= pts[i].address;
      forall a | pts[i].address <= a <= EndAddr(pts[j])
        ensures BlockCovers(pts, labels, c, a)
      {
        SegmentCovers(pts, lo[c], hi[c], limit, a);
        var k :| lo[c] <= k < hi[c] && Covers(pts[k], a);
        assert InBlock(labels, k, c);
      }
    }
  }

  lemma GreedyIsSplit(pts: seq<Point>, limit: u16, starts: seq<nat>)
    requires SortedByAddress(pts) && Cuts(pts, limit, starts)
    ensures exists labels :: Split(pts, labels, |starts|, limit)
  {
    var n, m := |pts|, |starts|;
    var labels := seq(n, k requires 0 <= k < n => ChunkOf(starts, k));
    var hi := seq(m, c requires 0 <= c < m => StopOf(starts, n, c));
    forall c | 0 <= c < m
      ensures starts[c] < hi[c] <= n && Segment(pts, starts[c], hi[c], limit)
    {
      ChunkSegment(pts, limit, starts, c);
    }
    forall k | 0 <= k < n
      ensures labels[k] < m && starts[labels[k]] <= k < hi[labels[k]]
    {
      ChunkOfBounds(pts, limit, starts, k, n);
    }
    forall c, k | 0 <= c < m && starts[c] <= k < hi[c]
      ensures labels[k] == c
    {
      ChunkUnique(pts, limit, starts, c, labels[k], k);
    }
    SegmentsSplit(pts, limit, labels, m, starts, hi);
  }

  lemma ChunkUnique(pts: seq<Point>, limit: u16, starts: seq<nat>, c: nat, d: nat, k: nat)
    requires ClosedChunks(pts, limit, starts) && k < |pts|
    requires Inside(starts, |pts|, c, k) && Inside(starts, |pts|, d, k)
    ensures c == d
  {
    if c + 1 < d { StartsIncrease(pts, limit, starts, c + 1, d); }
    if d + 1 < c { StartsIncrease(pts, limit, starts, d + 1, c); }
  }

  // ------------------------------------------------- no split is smaller

  ghost function LastEnd(pts: seq<Point>, limit: u16, starts: seq<nat>, k: nat): int
    requires ClosedChunks(pts, limit, starts) && k + 1 < |starts|
  {
    assert Closed(pts, limit, starts, k);
    MaxEnd(pts, starts[k], starts[k + 1])
  }

  /** Why chunk k was cut when it did not reach the top: the next first point
      makes it too long or leaves a gap, and ends beyond it either way. */
  lemma CutReason(pts: seq<Point>, limit: u16, starts: seq<nat>, k: nat)
    requires SortedByAddress(pts) && OnlyLastReachesTop(pts) && AllEndInside(pts)
    requires ClosedChunks(pts, limit, starts) && k + 1 < |starts|
    ensures starts[k] < starts[k + 1] < |pts|
    ensures LastEnd(pts, limit, starts, k) < EndAddr(pts[starts[k + 1]])
    ensures !Fits(pts, starts[k], starts[k + 1], limit) || pts[starts[k + 1]].address > LastEnd(pts, limit, starts, k) + 1
  {
    assert Closed(pts, limit, starts, k);
    var i, j := starts[k], starts[k + 1];
    MaxEndIsMax(pts, i, j);
    assert MaxEnd(pts, i, j) < 65535;
  }

  ghost predicate AllEndInside(pts: seq<Point>) {
    forall k :: 0 <= k < |pts| ==> EndAddr(pts[k]) <= 65535
  }

  /** Chunk ends grow from chunk to chunk, so no earlier point reaches beyond
      the chunk that was cut last. */
  lemma {:induction false} EarlierEnds(pts: seq<Point>, limit: u16, starts: seq<nat>, k: nat, q: nat)
    requires SortedByAddress(pts) && OnlyLastReachesTop(pts) && AllEndInside(pts)
    requires ClosedChunks(pts, limit, starts) && k + 1 < |starts| && q < starts[k + 1]
    ensures q < |pts| && EndAddr(pts[q]) <= LastEnd(pts, limit, starts, k)
  {
    assert Closed(pts, limit, starts, k);
    MaxEndIsMax(pts, starts[k], starts[k + 1]);
    if q < starts[k] {
      assert k > 0;
      EarlierEnds(pts, limit, starts, k - 1, q);
      CutReason(pts, limit, starts, k - 1);
      assert EndAddr(pts[starts[k]]) <= LastEnd(pts, limit, starts, k);
    }
  }

  /** A block leaves out no address up to the end of any of its points. */
  lemma SharedBlock(pts: seq<Point>, labels: seq<nat>, m: nat, limit: u16, f: nat, g: nat, a: int)
    requires Split(pts, labels, m, limit) && f < |pts| && g < |pts| && labels[f] == labels[g]
    ensures Fits(pts, f, g, limit)
    ensures pts[f].address <= a <= EndAddr(pts[g]) ==> exists q :: 0 <= q < |pts| && Covers(pts[q], a)
  {
    hide Fits, Covers, EndAddr;
    assert GapFree(pts, labels, labels[f], f, g);
    if pts[f].address <= a <= EndAddr(pts[g]) {
      assert BlockCovers(pts, labels, labels[f], a);
    }
  }

  /** Where a chunk was cut at a gap, no point covers the address after it. */
  lemma NothingAfter(pts: seq<Point>, limit: u16, starts: seq<nat>, k: nat, q: nat)
    requires SortedByAddress(pts) && OnlyLastReachesTop(pts) && AllEndInside(pts)
    requires ClosedChunks(pts, limit, starts) && k + 1 < |starts| && q < |pts|
    requires starts[k + 1] < |pts| && pts[starts[k + 1]].address > LastEnd(pts, limit, starts, k) + 1
    ensures !Covers(pts[q], LastEnd(pts, limit, starts, k) + 1)
  {
    hide ClosedChunks, LastEnd, AllEndInside, OnlyLastReachesTop;
    if q < starts[k + 1] {
      EarlierEnds(pts, limit, starts, k, q);
    }
  }

  /** The first points of two chunks never share a block of any split. */
  lemma FirstsApart(pts: seq<Point>, limit: u16, starts: seq<nat>, labels: seq<nat>, m: nat, k: nat, l: nat)
    requires SortedByAddress(pts) && OnlyLastReachesTop(pts) && AllEndInside(pts)
    requires ClosedChunks(pts, limit, starts) && Split(pts, labels, m, limit) && k < l < |starts|
    ensures starts[k] < |pts| && starts[l] < |pts|
    ensures labels[starts[k]] != labels[starts[l]]
  {
    hide ClosedChunks, Split, LastEnd, AllEndInside, OnlyLastReachesTop;
    StartsIncrease(pts, limit, starts, k, l);
    CutReason(pts, limit, starts, l - 1);
    var f, p, g := starts[k], starts[l - 1], starts[l];
    if k < l - 1 { StartsIncrease(pts, limit, starts, k, l - 1); }
    assert pts[f].address <= pts[p].address;
    SplitLabels(pts, labels, m, limit);
    if labels[f] == labels[g] {
      var a := LastEnd(pts, limit, starts, l - 1) + 1;
      SharedBlock(pts, labels, m, limit, f, g, a);
      FirstInside(pts, limit, starts, k, l);
      var q :| 0 <= q < |pts| && Covers(pts[q], a);
      NothingAfter(pts, limit, starts, l - 1, q);
    }
  }

  lemma SplitLabels(pts: seq<Point>, labels: seq<nat>, m: nat, limit: u16)
    requires Split(pts, labels, m, limit)
    ensures |labels| == |pts|
  {
  }

  lemma FirstInside(pts: seq<Point>, limit: u16, starts: seq<nat>, k: nat, l: nat)
    requires SortedByAddress(pts) && OnlyLastReachesTop(pts) && AllEndInside(pts)
    requires ClosedChunks(pts, limit, starts) && k < l < |starts|
    ensures starts[k] < |pts| && pts[starts[k]].address <= LastEnd(pts, limit, starts, l - 1)
  {
    StartsIncrease(pts, limit, starts, k, l);
    EarlierEnds(pts, limit, starts, l - 1, starts[k]);
  }

  /** Distinct numbers below m: at most m of them. */
  lemma {:induction false} Pigeonhole(s: seq<nat>, m: nat)
    requires forall i :: 0 <= i < |s| ==> s[i] < m
    requires forall i, j :: 0 <= i < j < |s| ==> s[i] != s[j]
    ensures |s| <= m
  {
    if |s| == 0 {
    } else {
      assert s[0] < m;
      if k :| 0 <= k < |s| && s[k] == m - 1 {
        var t := s[..k] + s[k + 1..];
        forall i | 0 <= i < |t| ensures t[i] < m - 1 {
          assert t[i] == s[if i < k then i else i + 1];
        }
        Pigeonhole(t, m - 1);
      } else {
        Pigeonhole(s, m - 1);
      }
    }
  }

  lemma GreedyIsLeast(pts: seq<Point>, limit: u16, starts: seq<nat>, labels: seq<nat>, m: nat)
    requires SortedByAddress(pts) && OnlyLastReachesTop(pts) && AllEndInside(pts)
    requires Cuts(pts, limit, starts) && Split(pts, labels, m, limit)
    ensures |starts| <= m
  {
    forall k | 0 <= k < |starts| ensures starts[k] < |pts| {
      ChunkSegment(pts, limit, starts, k);
    }
    var firsts := seq(|starts|, k requires 0 <= k < |starts| => labels[starts[k]]);
    forall k, l | 0 <= k < l < |firsts| ensures firsts[k] != firsts[l] {
      FirstsApart(pts, limit, starts, labels, m, k, l);
    }
    Pigeonhole(firsts, m);
  }

  // ------------------------------------------------- the wrap at 65535

  /** A point that reaches the last address ends its chunk. */
  lemma TopEndsChunk(pts: seq<Point>, limit: u16, starts: seq<nat>, k: nat) returns (c: nat)
    requires AllEndInside(pts) && GreedyCuts(pts, limit, starts) && k < |pts| && EndAddr(pts[k]) == 65535
    ensures c < |starts| && starts[c] <= k && StopOf(starts, |pts|, c) == k + 1
    ensures Segment(pts, starts[c], k + 1, limit)
  {
    hide Segment, Cut;
    ChunkOfBounds(pts, limit, starts, k, |pts|);
    c := ChunkOf(starts, k);
    ChunkSegment(pts, limit, starts, c);
    if c + 1 < |starts| { assert Closed(pts, limit, starts, c); }
    if k + 1 < StopOf(starts, |pts|, c) {
      assert BelowTop(pts, starts[c], k + 1);
      MaxEndIsMax(pts, starts[c], k + 1);
      assert false;
    }
  }

  /** The chunks up to c, the last running to the end. */
  lemma PrefixCuts(pts: seq<Point>, limit: u16, starts: seq<nat>, c: nat)
    requires ClosedChunks(pts, limit, starts) && c < |starts|
    requires starts[c] < |pts| && Segment(pts, starts[c], |pts|, limit)
    ensures Cuts(pts, limit, starts[..c + 1])
  {
    hide Segment, Cut, NeverFull;
    var shorter := starts[..c + 1];
    forall l | 0 <= l < |shorter| - 1 ensures Closed(pts, limit, shorter, l) {
      assert Closed(pts, limit, starts, l);
    }
  }

  /** When an earlier point reaches the last address, all that follows could
      have been read with it: a shorter split exists. */
  lemma ShorterSplit(pts: seq<Point>, limit: u16, starts: seq<nat>, k: nat)
    requires SortedByAddress(pts) && AllEndInside(pts) && GreedyCuts(pts, limit, starts)
    requires k + 1 < |pts| && EndAddr(pts[k]) == 65535
    ensures exists labels, m: nat :: Split(pts, labels, m, limit) && m < |starts|
  {
    hide Segment, ClosedChunks, Split, AllEndInside, SortedByAddress, NeverFull;
    var c := TopEndsChunk(pts, limit, starts, k);
    TailIsSegment(pts, limit, starts[c], k, |pts|);
    PrefixCuts(pts, limit, starts, c);
    GreedyIsSplit(pts, limit, starts[..c + 1]);
  }

  lemma TailIsSegment(pts: seq<Point>, limit: u16, s: nat, k: nat, n: nat)
    requires AllEndInside(pts) && s <= k < n == |pts| && EndAddr(pts[k]) == 65535 && Segment(pts, s, k + 1, limit)
    ensures Segment(pts, s, n, limit)
  {
    ReachesTop(pts, s, k, n);
    ReachesTop(pts, s, k, k + 1);
    forall i | s < i < n ensures Touches(pts, s, i) {
      if i > k { ReachesTop(pts, s, k, i); }
    }
  }

  lemma ReachesTop(pts: seq<Point>, s: nat, k: nat, i: nat)
    requires AllEndInside(pts) && s <= k < i <= |pts| && EndAddr(pts[k]) == 65535
    ensures MaxEnd(pts, s, i) == 65535
  {
    MaxEndIsMax(pts, s, i);
  }

  /** The planner's guarantee, exactly: its plan has the least possible number
      of requests if and only if no point but the last reaches address 65535. */
  lemma PlanIsMinimal(pts: seq<Point>, limit: u16, starts: seq<nat>)
    requires SortedByAddress(pts) && AllEndInside(pts) && GreedyCuts(pts, limit, starts)
    ensures MinimalCount(pts, |starts|, limit) <==> OnlyLastReachesTop(pts)
  {
    if OnlyLastReachesTop(pts) {
      GreedyIsSplit(pts, limit, starts);
      forall labels, m: nat | Split(pts, labels, m, limit) ensures |starts| <= m {
        GreedyIsLeast(pts, limit, starts, labels, m);
      }
    } else {
      var k :| 0 <= k < |pts| - 1 && EndAddr(pts[k]) >= 65535;
      ShorterSplit(pts, limit, starts, k);
      var labels, m: nat :| Split(pts, labels, m, limit) && m < |starts|;
    }
  }
}
