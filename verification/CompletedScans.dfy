/** A whole scan and what it hands over when every read is answered
    (internal/collector/collector.go:243-284). */
module CompletedScans {
  import opened Points
  import opened Planner
  import opened ReadPlan
  import opened Wire
  import opened Decoder
  import opened Collector
  import opened ScanRefinement

  /** One scan of a runner: its plan, the order the chunks were visited in, the
      device at each read, and the replies. */
  datatype ScanRecord = ScanRecord(plan: map<RegType, seq<ReadChunk>>, keys: seq<RegType>, images: seq<Image>, replies: seq<ReadResult>)

  /** `values` is what the scan hands over: all reads were answered. */
  ghost predicate CompletedScan(order: ByteOrder, points: seq<Point>, r: ScanRecord, values: map<string, Value>) {
    && PlanFor(points, r.plan) && Enumerates(r.keys, r.plan.Keys)
    && var visit := Visit(r.plan, r.keys);
      && Conforming(visit, r.images, r.replies)
      && values == Apply(map[], Scan(order, visit, r.replies, |visit|).updates)
  }

  lemma CompletedScanReports(order: ByteOrder, points: seq<Point>, r: ScanRecord, values: map<string, Value>)
    requires AllValid(points) && UniqueTags(points) && CompletedScan(order, points, r, values)
    ensures values.Keys == TagsOf(points) && forall i :: 0 <= i < |r.keys| ==> r.keys[i] in r.plan
    ensures var visit := Visit(r.plan, r.keys);
      |r.images| == |visit| && forall k, p :: 0 <= k < |visit| && p in visit[k].points ==> ReportsPoint(order, r.images[k], p, values)
  {
    hide PlanFor, ReportsPoint, Apply, Scan, Visit, Valid, Planned;
    ScanRefinesSingleReads(order, points, r.plan, r.keys, r.images, r.replies);
  }

  /** Every read of the scan saw this device. */
  ghost predicate Undisturbed(r: ScanRecord, device: Image) {
    forall k :: 0 <= k < |r.images| ==> r.images[k] == device
  }

  /** Every point is reported with the value it has on this device. */
  ghost predicate ReportOf(order: ByteOrder, points: seq<Point>, device: Image, report: map<string, Value>) {
    forall q :: q in points ==> ReportsPoint(order, device, q, report)
  }

  lemma UndisturbedReport(order: ByteOrder, points: seq<Point>, r: ScanRecord, device: Image, values: map<string, Value>)
    requires AllValid(points) && UniqueTags(points) && CompletedScan(order, points, r, values) && Undisturbed(r, device)
    ensures ReportOf(order, points, device, values)
  {
    hide Planned, PlanFor, Valid, PointValue, Visit, ReportsPoint;
    ScanRefinesSingleReads(order, points, r.plan, r.keys, r.images, r.replies);
    var visit := Visit(r.plan, r.keys);
    forall q | q in points ensures ReportsPoint(order, device, q, values) {
      var k :| 0 <= k < |visit| && q in visit[k].points;
      assert ReportsPoint(order, r.images[k], q, values);
    }
  }
}
