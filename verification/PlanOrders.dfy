/** The planner sorts by address only, with an unstable sort, so points at one
    address may come in any order (internal/config/point_config.go:376). Which
    groups are planned with the fewest requests in every such order, and which
    in some. */
module PlanOrders {
  import opened Points
  import opened Planner
  import opened PlanOptimality
  import opened ReadPlan

  // ------------------------------------------------- every order has a plan

  /** The greedy cuts of pts[..n]. */
  ghost predicate CutsUpTo(pts: seq<Point>, limit: u16, starts: seq<nat>, n: nat) {
    && n <= |pts| && ClosedChunks(pts, limit, starts)
    && var last := starts[|starts| - 1];
      last < n && Segment(pts, last, n, limit) && NeverFull(pts, last, n)
  }

  lemma OnePoint(pts: seq<Point>, r: RegType, i: nat)
    requires Group(pts, r) && i < |pts|
    ensures Segment(pts, i, i + 1, MaxQuantity(r)) && NeverFull(pts, i, i + 1)
  {
  }

  lemma MergedSegment(pts: seq<Point>, r: RegType, i: nat, n: nat)
    requires Group(pts, r) && i < n < |pts| && Segment(pts, i, n, MaxQuantity(r)) && NeverFull(pts, i, n)
    requires !Cut(pts, i, n, MaxQuantity(r))
    ensures Segment(pts, i, n + 1, MaxQuantity(r)) && NeverFull(pts, i, n + 1)
  {
    assert MaxEnd(pts, i, n) <= 65535 by { MaxEndInRange(pts, r, i, n); }
    forall k | i < k < n + 1 ensures Touches(pts, i, k) && BelowTop(pts, i, k) {
      if k < n { assert Touches(pts, i, k) && BelowTop(pts, i, k); }
    }
  }

  lemma OneMoreCut(pts: seq<Point>, limit: u16, starts: seq<nat>, n: nat)
    requires CutsUpTo(pts, limit, starts, n) && n < |pts| && Cut(pts, starts[|starts| - 1], n, limit)
    ensures ClosedChunks(pts, limit, starts + [n])
  {
    var longer := starts + [n];
    forall k | 0 <= k < |longer| - 1 ensures Closed(pts, limit, longer, k) {
      if k < |starts| - 1 { assert Closed(pts, limit, starts, k); }
    }
  }

  /** Whatever order the sort leaves, the greedy loop cuts it somewhere. */
  lemma {:induction false} CutsExist(pts: seq<Point>, r: RegType, n: nat) returns (starts: seq<nat>)
    requires Group(pts, r) && 0 < n <= |pts|
    ensures CutsUpTo(pts, MaxQuantity(r), starts, n)
  {
    if n == 1 {
      starts := [0];
      OnePoint(pts, r, 0);
    } else {
      starts := CutsExist(pts, r, n - 1);
      var last := starts[|starts| - 1];
      if Cut(pts, last, n - 1, MaxQuantity(r)) {
        OneMoreCut(pts, MaxQuantity(r), starts, n - 1);
        OnePoint(pts, r, n - 1);
        starts := starts + [n - 1];
      } else {
        MergedSegment(pts, r, last, n - 1);
      }
    }
  }

  // ------------------------------------------------- orders of a group

  /** One sorted order, built by insertion. */
  function Sorted(points: seq<Point>): (s: seq<Point>)
    ensures multiset(s) == multiset(points)
  {
    if points == [] then []
    else
      var last := points[|points| - 1];
      assert points == points[..|points| - 1] + [last];
      InsertByAddress(last, Sorted(points[..|points| - 1]))
  }

  lemma {:induction false} SortedIsSorted(points: seq<Point>)
    ensures SortedByAddress(Sorted(points))
  {
    if points == [] {
    } else {
      SortedIsSorted(points[..|points| - 1]);
      InsertKeepsSorted(points[|points| - 1], Sorted(points[..|points| - 1]));
    }
  }

  /** Insertion puts a point before all that do not start before it. */
  lemma {:induction false} InsertedNotLast(p: Point, sorted: seq<Point>)
    requires SortedByAddress(sorted) && sorted != [] && sorted[|sorted| - 1].address >= p.address
    ensures exists k :: 0 <= k < |InsertByAddress(p, sorted)| - 1 && InsertByAddress(p, sorted)[k] == p
  {
    var s := InsertByAddress(p, sorted);
    if p.address <= sorted[0].address {
      assert s[0] == p;
    } else {
      InsertedNotLast(p, sorted[1..]);
      var k :| 0 <= k < |InsertByAddress(p, sorted[1..])| - 1 && InsertByAddress(p, sorted[1..])[k] == p;
      assert s[k + 1] == p;
    }
  }

  function Without(points: seq<Point>, i: nat): seq<Point>
    requires i < |points|
  {
    points[..i] + points[i + 1..]
  }

  lemma WithoutOne(points: seq<Point>, i: nat)
    requires i < |points|
    ensures multiset(points) == multiset(Without(points, i)) + multiset{points[i]}
    ensures forall j :: 0 <= j < |points| && j != i ==> points[j] in Without(points, i)
    ensures forall q :: q in Without(points, i) ==> exists j :: 0 <= j < |points| && j != i && points[j] == q
  {
    WithoutCounts(points, i);
    var rest := Without(points, i);
    forall j | 0 <= j < |points| && j != i ensures points[j] in rest {
      assert points[j] == rest[if j < i then j else j - 1];
    }
    forall q | q in rest ensures exists j :: 0 <= j < |points| && j != i && points[j] == q {
      var m :| 0 <= m < |rest| && rest[m] == q;
      assert points[if m < i then m else m + 1] == q;
    }
  }

  lemma WithoutCounts(points: seq<Point>, i: nat)
    requires i < |points|
    ensures multiset(points) == multiset(Without(points, i)) + multiset{points[i]}
  {
    assert points == points[..i] + [points[i]] + points[i + 1..];
  }

  /** A point that some other point does not start before can be sorted away from
      the end. */
  lemma OrderWithEarlier(points: seq<Point>, i: nat, j: nat) returns (pts: seq<Point>)
    requires i < |points| && j < |points| && i != j && points[j].address >= points[i].address
    ensures SortOf(points, pts) && exists k :: 0 <= k < |pts| - 1 && pts[k] == points[i]
  {
    hide Without, InsertByAddress, Sorted;
    var rest := Without(points, i);
    WithoutOne(points, i);
    var others := Sorted(rest);
    SortedIsSorted(rest);
    pts := InsertByAddress(points[i], others);
    InsertKeepsSorted(points[i], others);
    assert points[j] in multiset(others) by { assert points[j] in rest; }
    var m :| 0 <= m < |others| && others[m] == points[j];
    InsertedNotLast(points[i], others);
  }

  /** All other points sorted, and then the one that reaches the top. */
  lemma OrderWithTopLast(points: seq<Point>, i: nat) returns (pts: seq<Point>)
    requires i < |points| && forall j :: 0 <= j < |points| && j != i ==> MayPrecede(points[i], points[j])
    requires EndAddr(points[i]) == 65535 && AllEndInside(points)
    ensures SortOf(points, pts) && OnlyLastReachesTop(pts)
  {
    hide Without, Sorted;
    var rest := Without(points, i);
    WithoutOne(points, i);
    var others := Sorted(rest);
    SortedIsSorted(rest);
    pts := others + [points[i]];
    forall k | 0 <= k < |others| ensures others[k].address <= points[i].address && EndAddr(others[k]) < 65535 {
      assert others[k] in multiset(others);
      assert others[k] in rest;
      var j :| 0 <= j < |points| && j != i && points[j] == others[k];
      assert MayPrecede(points[i], points[j]);
    }
  }

  // ------------------------------------------------- the condition on the points

  ghost predicate AllOfType(points: seq<Point>, r: RegType) {
    forall i :: 0 <= i < |points| ==> points[i].regType == r
  }

  /** `pts` is an order the sort may leave, and the plan it leads to is minimal. */
  ghost predicate MinimalIn(pts: seq<Point>, r: RegType) {
    exists starts :: GreedyCuts(pts, MaxQuantity(r), starts) && MinimalCount(pts, |starts|, MaxQuantity(r))
  }

  lemma SortedIsGroup(points: seq<Point>, r: RegType, pts: seq<Point>)
    requires points != [] && AllOfType(points, r) && AllEndInside(points) && SortOf(points, pts)
    ensures pts != [] && Group(pts, r) && AllEndInside(pts)
  {
    assert |multiset(pts)| == |multiset(points)|;
    forall i | 0 <= i < |pts| ensures pts[i].regType == r && EndAddr(pts[i]) <= 65535 {
      assert pts[i] in multiset(points) by { assert pts[i] in multiset(pts); }
      var k :| 0 <= k < |points| && points[k] == pts[i];
    }
  }

  lemma OrderIsMinimal(points: seq<Point>, r: RegType, pts: seq<Point>)
    requires points != [] && AllOfType(points, r) && AllEndInside(points) && SortOf(points, pts)
    ensures MinimalIn(pts, r) <==> OnlyLastReachesTop(pts)
  {
    SortedIsGroup(points, r, pts);
    var starts := CutsExist(pts, r, |pts|);
    assert GreedyCuts(pts, MaxQuantity(r), starts);
    PlanIsMinimal(pts, MaxQuantity(r), starts);
    if MinimalIn(pts, r) {
      var other :| GreedyCuts(pts, MaxQuantity(r), other) && MinimalCount(pts, |other|, MaxQuantity(r));
      PlanIsMinimal(pts, MaxQuantity(r), other);
    }
  }

  /** Whatever the sort does with equal addresses, the plan is minimal: exactly
      when each point ending at 65535 starts after all other points. */
  lemma EveryOrderIsMinimal(points: seq<Point>, r: RegType)
    requires points != [] && AllOfType(points, r) && AllEndInside(points)
    ensures (forall pts :: SortOf(points, pts) ==> MinimalIn(pts, r)) <==> TopAlone(points)
  {
    hide MinimalIn;
    forall pts | SortOf(points, pts) ensures TopAlone(points) ==> MinimalIn(pts, r) {
      SortedIsGroup(points, r, pts);
      TopConditions(points, pts);
      OrderIsMinimal(points, r, pts);
    }
    if !TopAlone(points) {
      var i, j :| 0 <= i < |points| && 0 <= j < |points| && i != j && !StartsBefore(points[i], points[j]);
      var pts := OrderWithEarlier(points, i, j);
      OrderIsMinimal(points, r, pts);
    }
  }

  /** The sort can leave an order with a minimal plan: exactly when at most one
      point ends at 65535 and none starts after it. */
  lemma SomeOrderIsMinimal(points: seq<Point>, r: RegType)
    requires points != [] && AllOfType(points, r) && AllEndInside(points)
    ensures (exists pts :: SortOf(points, pts) && MinimalIn(pts, r)) <==> TopCanBeLast(points)
  {
    hide MinimalIn;
    if pts :| SortOf(points, pts) && MinimalIn(pts, r) {
      SortedIsGroup(points, r, pts);
      OrderIsMinimal(points, r, pts);
      TopConditions(points, pts);
    }
    if TopCanBeLast(points) {
      var pts := Sorted(points);
      SortedIsSorted(points);
      if i :| 0 <= i < |points| && EndAddr(points[i]) == 65535 {
        pts := OrderWithTopLast(points, i);
      } else {
        SortedIsGroup(points, r, pts);
        NobodyAtTop(points, pts);
      }
      OrderIsMinimal(points, r, pts);
    }
  }

  lemma NobodyAtTop(points: seq<Point>, pts: seq<Point>)
    requires SortOf(points, pts) && AllEndInside(pts)
    requires forall i :: 0 <= i < |points| ==> EndAddr(points[i]) != 65535
    ensures OnlyLastReachesTop(pts)
  {
    forall k | 0 <= k < |pts| - 1 ensures EndAddr(pts[k]) < 65535 {
      assert pts[k] in multiset(points) by { assert pts[k] in multiset(pts); }
      var i :| 0 <= i < |points| && points[i] == pts[k];
    }
  }

  /** A block of four registers ending at 65535 and a register at its start. */
  const TIE_EXAMPLE := [
    Point("A", "", HoldingReg, 65532, Double, 0, 0, 0),
    Point("B", "", HoldingReg, 65532, UInt16, 0, 16, 0)]

  /** Here the sort decides: one order is planned with the fewest requests, the
      other is not. */
  lemma TieDecides()
    ensures var swapped := [TIE_EXAMPLE[1], TIE_EXAMPLE[0]];
      && SortOf(TIE_EXAMPLE, TIE_EXAMPLE) && !MinimalIn(TIE_EXAMPLE, HoldingReg)
      && SortOf(TIE_EXAMPLE, swapped) && MinimalIn(swapped, HoldingReg)
  {
    hide MinimalIn;
    var swapped := [TIE_EXAMPLE[1], TIE_EXAMPLE[0]];
    assert EndAddr(TIE_EXAMPLE[0]) == 65535 && EndAddr(TIE_EXAMPLE[1]) == 65532;
    assert multiset(swapped) == multiset{TIE_EXAMPLE[0], TIE_EXAMPLE[1]} == multiset(TIE_EXAMPLE);
    OrderIsMinimal(TIE_EXAMPLE, HoldingReg, TIE_EXAMPLE);
    OrderIsMinimal(TIE_EXAMPLE, HoldingReg, swapped);
  }
}
