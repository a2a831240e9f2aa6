/** From registers to Kafka: the collector's completed scans through the
    coordinator and the queue (internal/collector/collector.go:243-284,
    internal/collector/runtime.go:99-109, internal/kafkapub/coordinator.go:110-127,
    internal/kafkapub/queue.go:26-67). */
module EndToEnd {
  import opened Points
  import opened Decoder
  import opened ScanRefinement
  import opened CompletedScans
  import opened QueueRuns
  import opened Coordinator
  import opened ChangeStream

  /** Device `id` is in change mode with a baseline taken, and the queue has
      dropped, discarded and refused nothing. */
  ghost predicate Lossless(st: Stream, id: int) {
    && id in st.policy.states && id in st.policy.configs && id in st.history
    && st.policy.configs[id].mode == ChangeMode && st.policy.states[id].lastValues != map[]
    && st.run.q.accepting && Count(st.run.fates, Dropped) == 0 && Count(st.run.fates, Discarded) == 0
  }

  /** The baseline scan overlaid with the delivered and then the still queued
      change messages of the device. */
  function Replayed(st: Stream, id: int): Values
    requires id in st.history
  {
    Overlay(st.history[id].base, MessagesFor(st.run.delivered + st.run.q.pending, st.history[id].mark, id))
  }

  ghost predicate ScansOf(order: ByteOrder, points: seq<Point>, records: seq<ScanRecord>, scans: seq<Values>) {
    |records| == |scans| > 0 && forall i :: 0 <= i < |scans| ==> CompletedScan(order, points, records[i], scans[i])
  }

  /** The configured tags and no others, each with the value its point had when
      its chunk was read, up to the equality used for comparison. */
  ghost predicate MirrorsDevice(order: ByteOrder, points: seq<Point>, r: ScanRecord, values: Values) {
    && values.Keys == TagsOf(points) && (forall i :: 0 <= i < |r.keys| ==> r.keys[i] in r.plan)
    && var visit := Visit(r.plan, r.keys);
      && |r.images| == |visit|
      && forall k, p :: 0 <= k < |visit| && p in visit[k].points ==>
           Valid(p) && p.tag in values && Alike(values[p.tag], PointValue(order, r.images[k], p))
  }

  lemma ReportMirrors(order: ByteOrder, points: seq<Point>, r: ScanRecord, report: Values, values: Values)
    requires AllValid(points) && UniqueTags(points) && CompletedScan(order, points, r, report) && AlikeMaps(values, report)
    ensures MirrorsDevice(order, points, r, values)
  {
    hide CompletedScan, Valid, Alike, PointValue, Visit, UniqueTags, AllValid, TagsOf;
    CompletedScanReports(order, points, r, report);
    var visit := Visit(r.plan, r.keys);
    forall k, p | 0 <= k < |visit| && p in visit[k].points
      ensures Valid(p) && p.tag in values && Alike(values[p.tag], PointValue(order, r.images[k], p))
    {
      assert ReportsPoint(order, r.images[k], p, report);
    }
  }

  lemma LastOfScans(order: ByteOrder, points: seq<Point>, records: seq<ScanRecord>, scans: seq<Values>)
    requires AllValid(points) && UniqueTags(points) && ScansOf(order, points, records, scans)
    ensures Overlay(map[], scans) == scans[|scans| - 1]
  {
    hide CompletedScan;
    forall i | 0 <= i < |scans| ensures scans[i].Keys == TagsOf(points) {
      CompletedScanReports(order, points, records[i], scans[i]);
    }
    CompleteScans(scans, TagsOf(points));
  }

  /** For one runner with accepted, uniquely tagged points and a conforming
      device, while the queue has lost nothing: replaying the change messages
      gives the device as it was at the last admitted scan. */
  lemma ChangesReconstructDevice(capacity: int, events: seq<Event>, id: int, order: ByteOrder, points: seq<Point>, records: seq<ScanRecord>)
    requires AllValid(points) && UniqueTags(points) && Lossless(After(capacity, events), id)
    requires ScansOf(order, points, records, After(capacity, events).history[id].scans)
    ensures MirrorsDevice(order, points, records[|records| - 1], Replayed(After(capacity, events), id))
  {
    hide After, MirrorsDevice, CompletedScan, AlikeMaps;
    var st := After(capacity, events);
    var scans := st.history[id].scans;
    ReplayIsFaithful(capacity, events, id);
    LastOfScans(order, points, records, scans);
    ReportMirrors(order, points, records[|records| - 1], scans[|scans| - 1], Replayed(st, id));
  }
}
