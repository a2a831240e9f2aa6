/** A scan through the merged chunks reports what reading every point on its
    own would (internal/collector/collector.go:243-379 over the plan of
    internal/config/point_config.go:364-422). */
module ScanRefinement {
  import opened Points
  import opened Reordering
  import opened Planner
  import opened ReadPlan
  import opened Wire
  import opened Decoder
  import opened Collector

  // ------------------------------------------------- visiting the plan

  /** The chunk map visited in the order `keys`. */
  ghost function Visit(plan: map<RegType, seq<ReadChunk>>, keys: seq<RegType>): seq<ReadChunk>
    requires forall i :: 0 <= i < |keys| ==> keys[i] in plan
  {
    if keys == [] then [] else Visit(plan, keys[..|keys| - 1]) + plan[keys[|keys| - 1]]
  }

  /** Any order in which a map iteration may meet the keys. */
  ghost predicate Enumerates(keys: seq<RegType>, all: set<RegType>) {
    && (forall i, j :: 0 <= i < j < |keys| ==> keys[i] != keys[j])
    && (forall r :: r in keys <==> r in all)
  }

  lemma {:induction false} PlanPointsConcat(a: seq<ReadChunk>, b: seq<ReadChunk>)
    ensures PlanPoints(a + b) == PlanPoints(a) + PlanPoints(b)
  {
    if b == [] {
      assert a + b == a;
    } else {
      var init, last := b[..|b| - 1], b[|b| - 1];
      PlanPointsConcat(a, init);
      assert a + b == a + init + [last];
      PlanPointsAppend(a + init, last);
    }
  }

  lemma {:induction false} CountOfType(points: seq<Point>, r: RegType, p: Point)
    ensures multiset(OfType(points, r))[p] == if p.regType == r then multiset(points)[p] else 0
  {
    if points == [] {
    } else {
      CountOfType(points[..|points| - 1], r, p);
      assert points == points[..|points| - 1] + [points[|points| - 1]];
    }
  }

  lemma {:induction false} CountVisited(points: seq<Point>, plan: map<RegType, seq<ReadChunk>>, keys: seq<RegType>, p: Point)
    requires PlanFor(points, plan)
    requires forall i :: 0 <= i < |keys| ==> keys[i] in plan
    requires forall i, j :: 0 <= i < j < |keys| ==> keys[i] != keys[j]
    ensures multiset(PlanPoints(Visit(plan, keys)))[p] == if p.regType in keys then multiset(points)[p] else 0
  {
    if keys == [] {
    } else {
      var init, r := keys[..|keys| - 1], keys[|keys| - 1];
      CountVisited(points, plan, init, p);
      PlanPointsConcat(Visit(plan, init), plan[r]);
      CountOfType(points, r, p);
      assert GroupPlan(points, r, plan[r]);
      assert p.regType in keys <==> p.regType in init || p.regType == r;
    }
  }

  /** Every order of visiting the plan meets exactly the configured points. */
  lemma VisitsAllPoints(points: seq<Point>, plan: map<RegType, seq<ReadChunk>>, keys: seq<RegType>)
    requires PlanFor(points, plan) && Enumerates(keys, plan.Keys)
    ensures multiset(PlanPoints(Visit(plan, keys))) == multiset(points)
  {
    hide GroupPlan, PlanPoints, Visit;
    forall p
      ensures multiset(PlanPoints(Visit(plan, keys)))[p] == multiset(points)[p]
    {
      CountVisited(points, plan, keys, p);
      if p in points {
        var i :| 0 <= i < |points| && points[i] == p;
        assert p.regType in RegTypes(points);
      }
    }
  }

  lemma {:induction false} VisitPlanned(points: seq<Point>, plan: map<RegType, seq<ReadChunk>>, keys: seq<RegType>)
    requires PlanFor(points, plan) && AllValid(points) && forall i :: 0 <= i < |keys| ==> keys[i] in plan
    ensures AllPlanned(Visit(plan, keys))
  {
    hide GroupPlan, Valid, Planned;
    if keys == [] {
    } else {
      var r := keys[|keys| - 1];
      VisitPlanned(points, plan, keys[..|keys| - 1]);
      forall k | 0 <= k < |plan[r]| ensures Planned(plan[r][k]) {
        GroupPlanned(points, r, plan[r], k);
      }
    }
  }

  lemma GroupPlanned(points: seq<Point>, r: RegType, chunks: seq<ReadChunk>, k: nat)
    requires AllValid(points) && GroupPlan(points, r, chunks) && k < |chunks|
    ensures Planned(chunks[k])
  {
    hide Valid;
    var c := chunks[k];
    assert ChunkOk(c, r) && c.points[0].regType == r;
    forall j | 0 <= j < |c.points| ensures Valid(c.points[j]) {
      PointInPlan(chunks, k, j);
      assert c.points[j] in multiset(PlanPoints(chunks));
      assert c.points[j] in OfType(points, r);
      OfTypeMembers(points, r);
    }
  }

  lemma {:induction false} PointInPlan(chunks: seq<ReadChunk>, k: nat, j: nat)
    requires k < |chunks| && j < |chunks[k].points|
    ensures chunks[k].points[j] in PlanPoints(chunks)
    decreases |chunks|
  {
    if k == |chunks| - 1 {
    } else {
      PointInPlan(chunks[..|chunks| - 1], k, j);
    }
  }

  lemma {:induction false} PlanHasPoint(chunks: seq<ReadChunk>, p: Point)
    requires p in PlanPoints(chunks)
    ensures exists k :: 0 <= k < |chunks| && p in chunks[k].points
  {
    var init := chunks[..|chunks| - 1];
    if p in PlanPoints(init) {
      PlanHasPoint(init, p);
      var k :| 0 <= k < |init| && p in init[k].points;
      assert p in chunks[k].points;
    } else {
      assert p in chunks[|chunks| - 1].points;
    }
  }

  // ------------------------------------------------- what a scan should report

  /** Each point of the chunk read on its own from the device as it was when
      the chunk was read. */
  ghost function ChunkReadings(order: ByteOrder, c: ReadChunk, img: Image, n: nat): (us: seq<Update>)
    requires Planned(c) && n <= |c.points|
    ensures |us| == n
  {
    if n == 0 then []
    else
      PlannedPoint(c, n - 1);
      ChunkReadings(order, c, img, n - 1) + [Update(c.points[n - 1].tag, PointValue(order, img, c.points[n - 1]))]
  }

  ghost function Readings(order: ByteOrder, visit: seq<ReadChunk>, images: seq<Image>, k: nat): seq<Update>
    requires AllPlanned(visit) && |images| == |visit| && k <= |visit|
  {
    if k == 0 then []
    else Readings(order, visit, images, k - 1) + ChunkReadings(order, visit[k - 1], images[k - 1], |visit[k - 1].points|)
  }

  /** A device answers the reads it accepts and refuses the others. */
  ghost function ConformingReply(c: ReadChunk, img: Image): (r: ReadResult)
    requires Planned(c)
    ensures r.Received?
  {
    RequestAccepted(c, c.points[0].regType);
    var r := c.points[0].regType;
    if Accepts(r, c.startAddr, c.quantity) then Received(Reply(img, r, c.startAddr, c.quantity)) else Failed
  }

  /** A device that answers every read, each from its state at that time. */
  ghost predicate Conforming(visit: seq<ReadChunk>, images: seq<Image>, replies: seq<ReadResult>) {
    && AllPlanned(visit) && |images| == |visit| == |replies|
    && forall k :: 0 <= k < |visit| ==> replies[k] == ConformingReply(visit[k], images[k])
  }

  lemma {:induction false} ChunkReportsReadings(order: ByteOrder, c: ReadChunk, img: Image, n: nat)
    requires Planned(c) && n <= |c.points|
    ensures ChunkUpdates(order, c, ConformingReply(c, img).raw, n) == ChunkReadings(order, c, img, n)
  {
    hide Valid;
    hide ChunkOk;
    hide PointValue;
    hide PointUpdate;
    hide DecodeAt;
    hide Reply;
    if n == 0 {
    } else {
      ChunkReportsReadings(order, c, img, n - 1);
      PlannedPoint(c, n - 1);
      var p := c.points[n - 1];
      BatchDecodesLikeSingle(order, img, c, p);
      PointUpdateIs(order, c, ConformingReply(c, img).raw, n - 1, Some(PointValue(order, img, p)));
    }
  }

  lemma {:induction false} ScanReportsReadings(order: ByteOrder, visit: seq<ReadChunk>, images: seq<Image>, replies: seq<ReadResult>, k: nat)
    requires Conforming(visit, images, replies) && k <= |visit|
    ensures Scan(order, visit, replies, k) == ScanResult(Readings(order, visit, images, k), true)
  {
    hide Planned;
    hide ConformingReply;
    hide ChunkUpdates;
    hide ChunkReadings;
    if k == 0 {
    } else {
      ScanReportsReadings(order, visit, images, replies, k - 1);
      var c, img := visit[k - 1], images[k - 1];
      var raw := ConformingReply(c, img).raw;
      assert replies[k - 1] == Received(raw);
      ChunkReportsReadings(order, c, img, |c.points|);
      assert ChunkUpdates(order, c, raw, |c.points|) == ChunkReadings(order, c, img, |c.points|);
    }
  }

  lemma {:induction false} ChunkReadingAt(order: ByteOrder, c: ReadChunk, img: Image, n: nat, j: nat)
    requires Planned(c) && j < n <= |c.points|
    ensures Valid(c.points[j])
    ensures ChunkReadings(order, c, img, n)[j] == Update(c.points[j].tag, PointValue(order, img, c.points[j]))
  {
    hide Valid, PointValue, ChunkOk;
    PlannedPoint(c, j);
    if j == n - 1 {
    } else {
      ChunkReadingAt(order, c, img, n - 1, j);
    }
  }

  /** The readings list the points of the plan one by one, in order. */
  lemma {:induction false} ReadingTags(order: ByteOrder, visit: seq<ReadChunk>, images: seq<Image>, k: nat)
    requires AllPlanned(visit) && |images| == |visit| && k <= |visit|
    ensures var us, ps := Readings(order, visit, images, k), PlanPoints(visit[..k]);
      |us| == |ps| && forall i :: 0 <= i < |us| ==> us[i].tag == ps[i].tag
  {
    hide Planned, ChunkReadings, PointValue;
    if k == 0 {
    } else {
      ReadingTags(order, visit, images, k - 1);
      var c := visit[k - 1];
      assert visit[..k][..k - 1] == visit[..k - 1];
      forall j | 0 <= j < |c.points|
        ensures ChunkReadings(order, c, images[k - 1], |c.points|)[j].tag == c.points[j].tag
      {
        ChunkReadingAt(order, c, images[k - 1], |c.points|, j);
      }
    }
  }

  lemma {:induction false} ReadingOf(order: ByteOrder, visit: seq<ReadChunk>, images: seq<Image>, n: nat, k: nat, p: Point)
    requires AllPlanned(visit) && |images| == |visit| && k < n <= |visit| && p in visit[k].points
    ensures Valid(p)
    ensures Update(p.tag, PointValue(order, images[k], p)) in Readings(order, visit, images, n)
    decreases n
  {
    hide Planned;
    hide PointValue;
    hide ChunkReadings;
    if k < n - 1 {
      ReadingOf(order, visit, images, n - 1, k, p);
    } else {
      var c := visit[k];
      var j :| 0 <= j < |c.points| && c.points[j] == p;
      ChunkReadingAt(order, c, images[k], |c.points|, j);
      assert ChunkReadings(order, c, images[k], |c.points|)[j] in Readings(order, visit, images, n);
    }
  }

  // ------------------------------------------------- one value per tag

  ghost predicate DistinctTags(us: seq<Update>) {
    forall i, j :: 0 <= i < j < |us| ==> us[i].tag != us[j].tag
  }

  lemma {:induction false} ApplyDistinct(us: seq<Update>)
    requires DistinctTags(us)
    ensures forall u :: u in us ==> u.tag in Apply(map[], us) && Apply(map[], us)[u.tag] == u.value
    ensures forall t :: t in Apply(map[], us) <==> exists i :: 0 <= i < |us| && us[i].tag == t
  {
    if us == [] {
    } else {
      var init, last := us[..|us| - 1], us[|us| - 1];
      ApplyDistinct(init);
      forall u | u in us
        ensures u.tag in Apply(map[], us) && Apply(map[], us)[u.tag] == u.value
      {
        if u in init {
          var i :| 0 <= i < |init| && init[i] == u;
          assert us[i].tag != last.tag;
        }
      }
    }
  }

  function TagsOf(points: seq<Point>): set<string> {
    set i | 0 <= i < |points| :: points[i].tag
  }

  lemma TagsUnderReordering(s: seq<Point>, t: seq<Point>)
    requires multiset(s) == multiset(t)
    ensures TagsOf(s) <= TagsOf(t)
  {
    forall x | x in TagsOf(s) ensures x in TagsOf(t) {
      var i :| 0 <= i < |s| && s[i].tag == x;
      assert s[i] in multiset(t);
    }
  }

  /** The result of a scan, point by point: every configured point is in some
      visited chunk and has the value it has when read on its own from the
      device as it was when that chunk was read; no other tag is reported, and
      none twice. */
  ghost predicate ReportsEachPoint(order: ByteOrder, points: seq<Point>, visit: seq<ReadChunk>, images: seq<Image>, us: seq<Update>)
    requires |images| == |visit|
  {
    && |us| == |points| && DistinctTags(us) && Apply(map[], us).Keys == TagsOf(points)
    && (forall p :: p in points ==> exists k :: 0 <= k < |visit| && p in visit[k].points)
    && (forall k, p :: 0 <= k < |visit| && p in visit[k].points ==> ReportsPoint(order, images[k], p, Apply(map[], us)))
  }

  ghost predicate ReportsPoint(order: ByteOrder, img: Image, p: Point, result: map<string, Value>) {
    Valid(p) && p.tag in result && result[p.tag] == PointValue(order, img, p)
  }

  lemma ReadingsReport(order: ByteOrder, points: seq<Point>, visit: seq<ReadChunk>, images: seq<Image>)
    requires AllPlanned(visit) && |images| == |visit|
    requires UniqueTags(points) && multiset(PlanPoints(visit)) == multiset(points)
    ensures ReportsEachPoint(order, points, visit, images, Readings(order, visit, images, |visit|))
  {
    hide Planned, PointValue, Readings, Apply, PlanPoints, UniqueTags, DistinctTags, TagsOf;
    var n, ps := |visit|, PlanPoints(visit);
    assert visit[..n] == visit;
    UniqueUnderReordering(points, ps);
    ReadingTags(order, visit, images, n);
    var us := Readings(order, visit, images, n);
    TagsStayDistinct(us, ps);
    ApplyDistinct(us);
    forall k, p | 0 <= k < n && p in visit[k].points
      ensures ReportsPoint(order, images[k], p, Apply(map[], us))
    {
      ReadingOf(order, visit, images, n, k, p);
    }
    forall p | p in points ensures exists k :: 0 <= k < n && p in visit[k].points {
      assert p in multiset(ps);
      PlanHasPoint(visit, p);
    }
    TagsUnderReordering(points, ps);
    TagsUnderReordering(ps, points);
    TagsOfReadings(us, ps);
  }

  lemma TagsStayDistinct(us: seq<Update>, ps: seq<Point>)
    requires UniqueTags(ps) && |us| == |ps| && forall i :: 0 <= i < |us| ==> us[i].tag == ps[i].tag
    ensures DistinctTags(us)
  {
  }

  lemma TagsOfReadings(us: seq<Update>, ps: seq<Point>)
    requires DistinctTags(us) && |us| == |ps| && forall i :: 0 <= i < |us| ==> us[i].tag == ps[i].tag
    ensures Apply(map[], us).Keys == TagsOf(ps)
  {
    ApplyDistinct(us);
  }

  /** For accepted points with unique tags and a conforming device, a scan over
      any plan of theirs, visited in any order, completes and reports exactly
      one value per tag: the value of the point read on its own. */
  lemma ScanRefinesSingleReads(order: ByteOrder, points: seq<Point>, plan: map<RegType, seq<ReadChunk>>, keys: seq<RegType>,
                               images: seq<Image>, replies: seq<ReadResult>)
    requires AllValid(points) && UniqueTags(points)
    requires PlanFor(points, plan) && Enumerates(keys, plan.Keys)
    requires Conforming(Visit(plan, keys), images, replies)
    ensures var visit := Visit(plan, keys);
      var r := Scan(order, visit, replies, |visit|);
      r.completed && ReportsEachPoint(order, points, visit, images, r.updates)
  {
    hide Planned;
    hide ReportsEachPoint;
    hide PlanFor;
    var visit := Visit(plan, keys);
    VisitsAllPoints(points, plan, keys);
    ScanReportsReadings(order, visit, images, replies, |visit|);
    ReadingsReport(order, points, visit, images);
  }

  /** Whatever the configuration, the precondition above can be met: the planned
      chunks are readable, so a device image gives conforming replies. */
  lemma PlanIsReadable(points: seq<Point>, plan: map<RegType, seq<ReadChunk>>, keys: seq<RegType>, images: seq<Image>)
    requires AllValid(points) && PlanFor(points, plan) && Enumerates(keys, plan.Keys)
    requires |images| == |Visit(plan, keys)|
    ensures exists replies :: Conforming(Visit(plan, keys), images, replies)
  {
    hide Planned;
    hide ConformingReply;
    hide PlanFor;
    hide Visit;
    var visit := Visit(plan, keys);
    VisitPlanned(points, plan, keys);
    var replies := seq(|visit|, k requires 0 <= k < |visit| => ConformingReply(visit[k], images[k]));
    assert Conforming(visit, images, replies);
  }
}
