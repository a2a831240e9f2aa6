/** The whole planner: grouping by register type, sorting each group, planning
    it (internal/config/point_config.go:364-422), and what the plan promises. */
module ReadPlan {
  import opened Points
  import opened Planner
  import opened PlanOptimality

  /** The points of one register type, in their original order. */
  function OfType(points: seq<Point>, r: RegType): seq<Point> {
    if points == [] then []
    else
      var last := points[|points| - 1];
      OfType(points[..|points| - 1], r) + if last.regType == r then [last] else []
  }

  /** The chunks of one register type: they hold exactly the points of that
      type, each is a well-formed request, and their number is minimal if and
      only if no point but the last in the order used ends at 65535. For the
      points as given: it is minimal when a point ending there starts after all
      others, and only when none starts after such a point and it is the only
      one. */
  ghost predicate GroupPlan(points: seq<Point>, r: RegType, chunks: seq<ReadChunk>) {
    var planned := PlanPoints(chunks);
    && multiset(planned) == multiset(OfType(points, r))
    && (forall k :: 0 <= k < |chunks| ==> ChunkOk(chunks[k], r))
    && SortedByAddress(planned)
    && (MinimalCount(planned, |chunks|, MaxQuantity(r)) <==> OnlyLastReachesTop(planned))
    && (TopAlone(OfType(points, r)) ==> MinimalCount(planned, |chunks|, MaxQuantity(r)))
    && (MinimalCount(planned, |chunks|, MaxQuantity(r)) ==> TopCanBeLast(OfType(points, r)))
  }

  function RegTypes(points: seq<Point>): set<RegType> {
    set i | 0 <= i < |points| :: points[i].regType
  }

  ghost predicate PlanFor(points: seq<Point>, plan: map<RegType, seq<ReadChunk>>) {
    plan.Keys == RegTypes(points) && forall r :: r in plan ==> GroupPlan(points, r, plan[r])
  }

  /** A sort by address; the order of equal addresses is left open. */
  function InsertByAddress(p: Point, sorted: seq<Point>): (s: seq<Point>)
    ensures multiset(s) == multiset(sorted) + multiset{p}
  {
    if sorted == [] || p.address <= sorted[0].address then
      assert [p] + sorted != [] && ([p] + sorted)[1..] == sorted;
      [p] + sorted
    else
      assert sorted == [sorted[0]] + sorted[1..];
      [sorted[0]] + InsertByAddress(p, sorted[1..])
  }

  lemma {:induction false} InsertKeepsSorted(p: Point, sorted: seq<Point>)
    requires SortedByAddress(sorted)
    ensures SortedByAddress(InsertByAddress(p, sorted))
    ensures forall k :: 0 <= k < |InsertByAddress(p, sorted)| ==>
              InsertByAddress(p, sorted)[k] == p || InsertByAddress(p, sorted)[k] in sorted
  {
    if sorted == [] || p.address <= sorted[0].address {
    } else {
      InsertKeepsSorted(p, sorted[1..]);
      var rest := InsertByAddress(p, sorted[1..]);
      forall k | 0 <= k < |rest| ensures sorted[0].address <= rest[k].address {
        if rest[k] != p {
          var i :| 0 <= i < |sorted[1..]| && sorted[1..][i] == rest[k];
          assert sorted[i + 1] == rest[k];
        }
      }
    }
  }

  method SortByAddress(pts: seq<Point>) returns (sorted: seq<Point>)
    ensures multiset(sorted) == multiset(pts) && SortedByAddress(sorted)
  {
    sorted := [];
    for i := 0 to |pts|
      invariant multiset(sorted) == multiset(pts[..i]) && SortedByAddress(sorted)
    {
      InsertKeepsSorted(pts[i], sorted);
      assert pts[..i + 1] == pts[..i] + [pts[i]];
      sorted := InsertByAddress(pts[i], sorted);
    }
    assert pts[..|pts|] == pts;
  }

  /** The first loop of OptimizeChunks. */
  method GroupByType(points: seq<Point>) returns (groups: map<RegType, seq<Point>>)
    ensures groups.Keys == RegTypes(points) && forall r :: r in groups ==> groups[r] == OfType(points, r)
  {
    groups := map[];
    for i := 0 to |points|
      invariant groups.Keys == RegTypes(points[..i])
      invariant forall r :: r in groups ==> groups[r] == OfType(points[..i], r)
    {
      var key := points[i].regType;
      OfTypeStep(points, i, groups.Keys);
      groups := groups[key := (if key in groups then groups[key] else []) + [points[i]]];
    }
    assert points[..|points|] == points;
  }

  /** The chunks of a register type hold its points, each once and sorted. */
  ghost predicate HoldsGroup(points: seq<Point>, r: RegType, chunks: seq<ReadChunk>) {
    multiset(PlanPoints(chunks)) == multiset(OfType(points, r)) && SortedByAddress(PlanPoints(chunks))
  }

  /** For any points at all, none is lost and none is read twice; the plan is the
      one described above when no point wraps past the last address. */
  method OptimizeChunks(points: seq<Point>) returns (plan: map<RegType, seq<ReadChunk>>)
    ensures plan.Keys == RegTypes(points)
    ensures forall r :: r in plan ==> HoldsGroup(points, r, plan[r])
    ensures AllEndInside(points) ==> PlanFor(points, plan)
  {
    hide GroupPlan, GreedyPlan, OfType, RegTypes, Group, AllEndInside, PlanPoints, SortedByAddress;
    var groups := GroupByType(points);
    plan := map[];
    var todo := groups.Keys;
    while todo != {}
      invariant todo <= groups.Keys && plan.Keys == groups.Keys - todo
      invariant forall r :: r in plan ==> HoldsGroup(points, r, plan[r])
      invariant AllEndInside(points) ==> forall r :: r in plan ==> GroupPlan(points, r, plan[r])
    {
      var key :| key in todo;
      var pts := SortByAddress(groups[key]);
      GroupNotEmpty(points, key, pts);
      var chunks := PlanGroup(pts, key);
      if AllEndInside(points) {
        SortedGroup(points, key, pts);
        GreedyIsGroupPlan(points, key, pts, chunks);
      }
      plan := plan[key := chunks];
      todo := todo - {key};
    }
  }

  lemma GroupNotEmpty(points: seq<Point>, r: RegType, pts: seq<Point>)
    requires r in RegTypes(points) && multiset(pts) == multiset(OfType(points, r))
    ensures |pts| > 0
  {
    OfTypeMembers(points, r);
    var k :| 0 <= k < |points| && points[k].regType == r;
    assert points[k] in multiset(pts);
  }

  lemma GreedyIsGroupPlan(points: seq<Point>, r: RegType, pts: seq<Point>, chunks: seq<ReadChunk>)
    requires AllEndInside(pts) && SortOf(OfType(points, r), pts) && GreedyPlan(pts, r, chunks)
    ensures GroupPlan(points, r, chunks)
  {
    PlanIsMinimal(pts, MaxQuantity(r), StartsOf(chunks));
    TopConditions(OfType(points, r), pts);
  }

  lemma OfTypeStep(points: seq<Point>, i: nat, keys: set<RegType>)
    requires i < |points| && keys == RegTypes(points[..i])
    ensures RegTypes(points[..i + 1]) == keys + {points[i].regType}
    ensures forall r :: OfType(points[..i + 1], r) == OfType(points[..i], r) + if points[i].regType == r then [points[i]] else []
    ensures points[i].regType !in keys ==> OfType(points[..i], points[i].regType) == []
  {
    var longer := points[..i + 1];
    assert longer[..|longer| - 1] == points[..i];
    forall r | r in RegTypes(longer) ensures r in keys + {points[i].regType} {
      var k :| 0 <= k < |longer| && longer[k].regType == r;
      assert k < i ==> points[..i][k] == longer[k];
    }
    forall r | r in keys + {points[i].regType} ensures r in RegTypes(longer) {
      if r in keys {
        var k :| 0 <= k < i && points[..i][k].regType == r;
        assert longer[k].regType == r;
      } else {
        assert longer[i].regType == r;
      }
    }
    assert RegTypes(longer) == keys + {points[i].regType};
    var r := points[i].regType;
    OfTypeMembers(points[..i], r);
    if OfType(points[..i], r) != [] {
      var p := OfType(points[..i], r)[0];
      var k :| 0 <= k < i && points[..i][k] == p;
      assert r in keys;
    }
  }

  lemma {:induction false} OfTypeMembers(points: seq<Point>, r: RegType)
    ensures forall p :: p in OfType(points, r) <==> p in points && p.regType == r
  {
    if points == [] {
    } else {
      OfTypeMembers(points[..|points| - 1], r);
      assert points == points[..|points| - 1] + [points[|points| - 1]];
    }
  }

  lemma SortedGroup(points: seq<Point>, r: RegType, pts: seq<Point>)
    requires AllEndInside(points) && multiset(pts) == multiset(OfType(points, r)) && SortedByAddress(pts)
    ensures Group(pts, r) && AllEndInside(pts)
  {
    OfTypeMembers(points, r);
    forall i | 0 <= i < |pts| ensures pts[i].regType == r && EndAddr(pts[i]) <= 65535 {
      assert pts[i] in multiset(pts);
      assert pts[i] in OfType(points, r);
    }
  }

  /** A Double block ending at 65535 and a register inside it. */
  const WRAP_EXAMPLE := [
    Point("A", "", HoldingReg, 65532, Double, 0, 0, 0),
    Point("B", "", HoldingReg, 65533, UInt16, 0, 16, 0)]

  lemma WrapExampleIsValid(k: nat)
    requires k < 2
    ensures Valid(WRAP_EXAMPLE[k])
  {
    var p := WRAP_EXAMPLE[k];
    assert ValidTagName(p.tag) && TrimSpace(p.description) == "";
    ValidExactly(p);
  }

  /** The planner wastes a request on these two accepted points. */
  lemma WrapWastesARequest(starts: seq<nat>)
    requires GreedyCuts(WRAP_EXAMPLE, MAX_REGISTERS, starts)
    ensures AllValid(WRAP_EXAMPLE) && !MinimalCount(WRAP_EXAMPLE, |starts|, MAX_REGISTERS)
  {
    forall k | 0 <= k < 2 ensures Valid(WRAP_EXAMPLE[k]) {
      WrapExampleIsValid(k);
    }
    assert EndAddr(WRAP_EXAMPLE[0]) == EndAddr(WRAP_EXAMPLE[1]) + 2 == 65535;
    PlanIsMinimal(WRAP_EXAMPLE, MAX_REGISTERS, starts);
  }
}
