/** A write answered by the collector and the scan that follows it
    (internal/collector/collector.go:243-379 and 441-508). */
module WriteScan {
  import opened Points
  import opened Planner
  import opened ReadPlan
  import opened Wire
  import opened Decoder
  import opened ScanRefinement
  import opened CompletedScans
  import opened Writes
  import opened WriteBack

  /** A request goes out only for a configured, writeable point with the tag, on
      a connected device. */
  lemma AcceptedTarget(points: seq<Point>, visit: seq<ReadChunk>, online: bool, tag: string, value: WriteValue, action: WriteAction)
    requires UniqueTags(points) && multiset(PlanPoints(visit)) == multiset(points)
    requires WellTyped(value) && Answers(visit, online, tag, value, action) && !action.Refused?
    ensures tag in TagsOf(points) && online
    ensures forall p :: p in points && p.tag == tag ==> p.writeable == 1 && action == Action(p, value)
  {
    var planned := PlanPoints(visit);
    var target :| target in planned && target.tag == tag &&
      action == if target.writeable != 1 then Refused(ReadOnly) else if !online then Refused(Offline) else Action(target, value);
    FindableTags(points, planned, tag, Some(target));
  }

  /** WriteTag looked through the planned chunks in some order and answered with
      a request. */
  ghost predicate RequestSent(points: seq<Point>, plan: map<RegType, seq<ReadChunk>>, keys: seq<RegType>,
                              online: bool, tag: string, value: WriteValue, action: WriteAction) {
    && PlanFor(points, plan) && Enumerates(keys, plan.Keys) && WellTyped(value)
    && Answers(Visit(plan, keys), online, tag, value, action) && !action.Refused?
  }

  /** The report has the written value for p, if p is a point that reads it back,
      and the earlier value of every point that does not contain the written
      address. */
  ghost predicate ReportsWrite(order: ByteOrder, points: seq<Point>, p: Point, value: WriteValue, img: Image, report: map<string, Value>) {
    && p.tag in report && (Matches(order, p, value) ==> report[p.tag] == Written(value))
    && forall q :: q in points && !(p.regType == q.regType && Covers(q, p.address)) ==> ReportsPoint(order, img, q, report)
  }

  /** What a report of the device after an accepted write says. */
  lemma ReportAfterWrite(order: ByteOrder, points: seq<Point>, p: Point, value: WriteValue, img: Image, report: map<string, Value>)
    requires WellTyped(value) && p in points && !Action(p, value).Refused?
    requires ReportOf(order, points, Perform(img, Action(p, value)), report)
    ensures ReportsWrite(order, points, p, value, img, report)
  {
    hide Valid, PointValue, Matches, Action, Perform;
    assert ReportsPoint(order, Perform(img, Action(p, value)), p, report);
    if Matches(order, p, value) { WriteThenRead(order, img, p, value); }
    forall q | q in points && !(p.regType == q.regType && Covers(q, p.address)) ensures ReportsPoint(order, img, q, report) {
      assert ReportsPoint(order, Perform(img, Action(p, value)), q, report);
      WriteFrame(order, img, p, q, value);
    }
  }

  /** For accepted points with unique tags: when WriteTag sends a request for the
      tag of point p, and a later completed scan reads a device that has carried
      it out and is otherwise undisturbed, the scan reports the write, for every
      byte order and whatever order the chunks were visited in. */
  lemma WriteThenScan(order: ByteOrder, points: seq<Point>, p: Point, value: WriteValue, img: Image,
                      plan: map<RegType, seq<ReadChunk>>, keys: seq<RegType>, online: bool, action: WriteAction,
                      r: ScanRecord, report: map<string, Value>)
    requires AllValid(points) && UniqueTags(points) && p in points
    ensures RequestSent(points, plan, keys, online, p.tag, value, action) ==>
              p.writeable == 1 && online && WellTyped(value) && action == Action(p, value)
    ensures RequestSent(points, plan, keys, online, p.tag, value, action)
            && CompletedScan(order, points, r, report) && Undisturbed(r, Perform(img, action)) ==>
              ReportsWrite(order, points, p, value, img, report)
  {
    hide PlanFor, Valid, Answers, Visit, Matches, Action, Perform, ReportOf, ReportsPoint, ReportsWrite, CompletedScan, Undisturbed;
    if RequestSent(points, plan, keys, online, p.tag, value, action) {
      VisitsAllPoints(points, plan, keys);
      AcceptedTarget(points, Visit(plan, keys), online, p.tag, value, action);
      if CompletedScan(order, points, r, report) && Undisturbed(r, Perform(img, action)) {
        UndisturbedReport(order, points, r, Perform(img, action), report);
        ReportAfterWrite(order, points, p, value, img, report);
      }
    }
  }

  /** Only a tag that nobody configured is not found. */
  lemma ConfiguredTagIsFound(points: seq<Point>, plan: map<RegType, seq<ReadChunk>>, keys: seq<RegType>,
                             online: bool, tag: string, value: WriteValue, action: WriteAction)
    requires PlanFor(points, plan) && Enumerates(keys, plan.Keys)
    requires WellTyped(value) && Answers(Visit(plan, keys), online, tag, value, action)
    ensures action == Refused(TagNotFound) <==> tag !in TagsOf(points)
  {
    hide PlanFor, Visit;
    VisitsAllPoints(points, plan, keys);
    var planned := PlanPoints(Visit(plan, keys));
    TagsUnderReordering(points, planned);
    TagsUnderReordering(planned, points);
    assert (exists p :: p in planned && p.tag == tag) <==> tag in TagsOf(planned) by {
      if tag in TagsOf(planned) {
        var i :| 0 <= i < |planned| && planned[i].tag == tag;
        assert planned[i] in planned;
      }
    }
  }
}
