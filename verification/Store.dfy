/** The configuration store: each method is one transaction on the device and
    point tables (internal/store/device.go, internal/store/point.go; table
    constraints in internal/store/database.go:71-100). */
module Store {
  import opened Points

  /** The fields UpdateDevice replaces. */
  datatype Connection = Connection(
    name: string, address: string, port: int, slaveId: int, byteOrder: string, timeoutSec: int, scanIntervalMs: int)

  datatype Device = Device(connection: Connection, enabled: bool, version: int)

  datatype Row = Row(deviceId: int, point: Point)

  datatype Tables = Tables(devices: map<int, Device>, rows: map<int, Row>, nextDevice: int, nextRow: int)

  datatype StoreError = NotFound | Conflict

  datatype Outcome = Done(tables: Tables) | Failed(error: StoreError)

  /** What the store relies on: unique names, unique tags per device, no point
      without its device, and ids that are never reused. */
  ghost predicate Consistent(t: Tables) {
    && t.nextDevice > 0 && t.nextRow > 0
    && (forall d :: d in t.devices ==> 0 < d < t.nextDevice && t.devices[d].version >= 1)
    && (forall r :: r in t.rows ==> 0 < r < t.nextRow && t.rows[r].deviceId in t.devices)
    && UniqueNames(t.devices) && UniqueRowTags(t.rows)
  }

  ghost predicate UniqueNames(devices: map<int, Device>) {
    forall d, e :: d in devices && e in devices && d != e ==> devices[d].connection.name != devices[e].connection.name
  }

  ghost predicate UniqueRowTags(rows: map<int, Row>) {
    forall r, s :: r in rows && s in rows && r != s ==> !SameKey(rows[r], rows[s])
  }

  predicate SameKey(a: Row, b: Row) { a.deviceId == b.deviceId && a.point.tag == b.point.tag }

  predicate NameTaken(t: Tables, name: string, except: int) {
    exists d :: d in t.devices && d != except && t.devices[d].connection.name == name
  }

  predicate TagTaken(rows: map<int, Row>, deviceId: int, tag: string, except: int) {
    exists r :: r in rows && r != except && rows[r].deviceId == deviceId && rows[r].point.tag == tag
  }

  predicate Owns(t: Tables, deviceId: int, pointId: int) { pointId in t.rows && t.rows[pointId].deviceId == deviceId }

  // ------------------------------------------------- transactions

  datatype Command =
    | CreateDevice(connection: Connection, enabled: bool)
    | UpdateDevice(id: int, connection: Connection)
    | SetDeviceEnabled(id: int, enabled: bool)
    | DeleteDevice(id: int)
    | CreatePoint(deviceId: int, point: Point)
    | UpdatePoint(deviceId: int, pointId: int, point: Point)
    | DeletePoint(deviceId: int, pointId: int)
    | DeletePoints(deviceId: int, pointIds: seq<int>)
    | ReplacePoints(deviceId: int, points: seq<Point>)

  /** `UPDATE devices SET config_version = config_version + 1`. */
  function Bumped(t: Tables, id: int): Outcome {
    if id !in t.devices then Failed(NotFound)
    else Done(t.(devices := t.devices[id := t.devices[id].(version := t.devices[id].version + 1)]))
  }

  /** `DELETE FROM points WHERE device_id=?`, also the cascade of DeleteDevice. */
  function RowsElsewhere(rows: map<int, Row>, deviceId: int): map<int, Row> {
    map r | r in rows && rows[r].deviceId != deviceId :: rows[r]
  }

  /** The rows added for a list of points, with consecutive new ids. */
  function Inserted(rows: map<int, Row>, next: int, deviceId: int, points: seq<Point>): map<int, Row> {
    if points == [] then rows
    else
      var n := |points| - 1;
      Inserted(rows, next, deviceId, points[..n])[next + n := Row(deviceId, points[n])]
  }

  function Matched(t: Tables, deviceId: int, ids: seq<int>): set<int> {
    set i | 0 <= i < |ids| && Owns(t, deviceId, ids[i]) :: ids[i]
  }

  function Execute(t: Tables, c: Command): Outcome {
    match c
    case CreateDevice(connection, enabled) =>
      if NameTaken(t, connection.name, 0) then Failed(Conflict)
      else Done(t.(devices := t.devices[t.nextDevice := Device(connection, enabled, 1)], nextDevice := t.nextDevice + 1))
    case UpdateDevice(id, connection) =>
      if id !in t.devices then Failed(NotFound)
      else if NameTaken(t, connection.name, id) then Failed(Conflict)
      else Bumped(t.(devices := t.devices[id := t.devices[id].(connection := connection)]), id)
    case SetDeviceEnabled(id, enabled) =>
      if id !in t.devices then Failed(NotFound)
      else Done(t.(devices := t.devices[id := t.devices[id].(enabled := enabled)]))
    case DeleteDevice(id) =>
      if id !in t.devices then Failed(NotFound)
      else Done(t.(devices := t.devices - {id}, rows := RowsElsewhere(t.rows, id)))
    case CreatePoint(deviceId, point) =>
      if deviceId !in t.devices || TagTaken(t.rows, deviceId, point.tag, 0) then Failed(Conflict)
      else Bumped(t.(rows := t.rows[t.nextRow := Row(deviceId, point)], nextRow := t.nextRow + 1), deviceId)
    case UpdatePoint(deviceId, pointId, point) =>
      if !Owns(t, deviceId, pointId) then Failed(NotFound)
      else if TagTaken(t.rows, deviceId, point.tag, pointId) then Failed(Conflict)
      else Bumped(t.(rows := t.rows[pointId := Row(deviceId, point)]), deviceId)
    case DeletePoint(deviceId, pointId) =>
      if !Owns(t, deviceId, pointId) then Failed(NotFound) else Bumped(t.(rows := t.rows - {pointId}), deviceId)
    case DeletePoints(deviceId, ids) =>
      // COUNT(*) ... IN (...) counts a repeated id once.
      if ids == [] || |Matched(t, deviceId, ids)| != |ids| then Failed(NotFound)
      else Bumped(t.(rows := t.rows - Matched(t, deviceId, ids)), deviceId)
    case ReplacePoints(deviceId, points) =>
      if points != [] && (deviceId !in t.devices || !UniqueTags(points)) then Failed(Conflict)
      else
        Bumped(t.(rows := Inserted(RowsElsewhere(t.rows, deviceId), t.nextRow, deviceId, points), nextRow := t.nextRow + |points|), deviceId)
  }

  /** A failed transaction is rolled back. */
  function After(t: Tables, c: Command): Tables {
    match Execute(t, c) case Done(t') => t' case Failed(_) => t
  }

  // ------------------------------------------------- what every transaction keeps

  /** The configured points of a device. */
  function PointsOf(t: Tables, id: int): map<int, Point> {
    map r | r in t.rows && t.rows[r].deviceId == id :: t.rows[r].point
  }

  /** The device a command is about; 0 when it creates one. */
  function Subject(c: Command): int {
    match c
    case CreateDevice(_, _) => 0
    case UpdateDevice(id, _) => id
    case SetDeviceEnabled(id, _) => id
    case DeleteDevice(id) => id
    case CreatePoint(id, _) => id
    case UpdatePoint(id, _, _) => id
    case DeletePoint(id, _) => id
    case DeletePoints(id, _) => id
    case ReplacePoints(id, _) => id
  }

  /** Device `id` has the same configuration in both tables. */
  ghost predicate SameConfig(t: Tables, t': Tables, id: int)
    requires id in t.devices && id in t'.devices
  {
    t.devices[id].connection == t'.devices[id].connection && PointsOf(t, id) == PointsOf(t', id)
  }

  /** How the version of a device may move: never back, and it stays only when
      the configuration stays. */
  ghost predicate VersionTracks(t: Tables, t': Tables, id: int) {
    && t'.nextDevice >= t.nextDevice
    && (id in t'.devices && id !in t.devices ==> id >= t.nextDevice)
    && (id in t.devices && id in t'.devices ==>
          && t'.devices[id].version >= t.devices[id].version
          && (t'.devices[id].version == t.devices[id].version ==> SameConfig(t, t', id)))
  }

  lemma {:induction false} InsertedRows(rows: map<int, Row>, next: int, deviceId: int, points: seq<Point>)
    requires forall r :: r in rows ==> r < next
    ensures forall r :: r in Inserted(rows, next, deviceId, points) <==> r in rows || next <= r < next + |points|
    ensures forall r :: r in rows ==> Inserted(rows, next, deviceId, points)[r] == rows[r]
    ensures forall i :: 0 <= i < |points| ==> Inserted(rows, next, deviceId, points)[next + i] == Row(deviceId, points[i])
  {
    if points == [] {
    } else {
      InsertedRows(rows, next, deviceId, points[..|points| - 1]);
    }
  }

  /** The rows ReplacePoints leaves: those of other devices, and one new row
      with a fresh id for each listed point. */
  lemma ReplacedRows(t: Tables, deviceId: int, points: seq<Point>)
    requires Consistent(t) && Execute(t, ReplacePoints(deviceId, points)).Done?
    ensures var rows := After(t, ReplacePoints(deviceId, points)).rows;
      && (forall r :: r in rows <==> (r in t.rows && t.rows[r].deviceId != deviceId) || t.nextRow <= r < t.nextRow + |points|)
      && (forall r :: r in rows && r < t.nextRow ==> rows[r] == t.rows[r])
      && (forall r :: r in rows && r >= t.nextRow ==> rows[r] == Row(deviceId, points[r - t.nextRow]))
  {
    var kept := RowsElsewhere(t.rows, deviceId);
    InsertedRows(kept, t.nextRow, deviceId, points);
    var rows := Inserted(kept, t.nextRow, deviceId, points);
    forall r | r in rows && r >= t.nextRow ensures rows[r] == Row(deviceId, points[r - t.nextRow]) {
      assert r == t.nextRow + (r - t.nextRow);
    }
  }

  /** A successful ReplacePoints gives the device exactly the listed points,
      each once. */
  lemma ReplacedPoints(t: Tables, deviceId: int, points: seq<Point>)
    requires Consistent(t) && Execute(t, ReplacePoints(deviceId, points)).Done?
    ensures var now := PointsOf(After(t, ReplacePoints(deviceId, points)), deviceId);
      && (forall r :: r in now <==> t.nextRow <= r < t.nextRow + |points|)
      && (forall r :: r in now ==> now[r] == points[r - t.nextRow])
  {
    ReplacedRows(t, deviceId, points);
  }

  lemma ReplaceKeeps(t: Tables, deviceId: int, points: seq<Point>)
    requires Consistent(t) && Execute(t, ReplacePoints(deviceId, points)).Done?
    ensures Consistent(After(t, ReplacePoints(deviceId, points)))
  {
    ReplacedRows(t, deviceId, points);
    var t' := After(t, ReplacePoints(deviceId, points));
    hide Inserted;
    assert UniqueNames(t'.devices);
    forall r, s | r in t'.rows && s in t'.rows && r < s ensures !SameKey(t'.rows[r], t'.rows[s]) {
      if r >= t.nextRow {
        assert points[r - t.nextRow].tag != points[s - t.nextRow].tag;
      }
    }
    assert UniqueRowTags(t'.rows) by {
      forall r, s | r in t'.rows && s in t'.rows && r != s ensures !SameKey(t'.rows[r], t'.rows[s]) {
        if r > s { assert !SameKey(t'.rows[s], t'.rows[r]); }
      }
    }
  }

  lemma PutDevice(devices: map<int, Device>, id: int, device: Device)
    requires UniqueNames(devices)
    requires forall d :: d in devices && d != id ==> devices[d].connection.name != device.connection.name
    ensures UniqueNames(devices[id := device])
  {
  }

  lemma PutSameName(devices: map<int, Device>, id: int, device: Device)
    requires UniqueNames(devices) && id in devices && devices[id].connection.name == device.connection.name
    ensures UniqueNames(devices[id := device])
  {
    PutDevice(devices, id, device);
  }

  lemma PutRow(rows: map<int, Row>, id: int, deviceId: int, point: Point)
    requires UniqueRowTags(rows) && !TagTaken(rows, deviceId, point.tag, id)
    ensures UniqueRowTags(rows[id := Row(deviceId, point)])
  {
  }

  /** Bumping a version leaves names, tags and ids alone. */
  lemma BumpKeeps(t: Tables, id: int)
    requires Consistent(t) && id in t.devices
    ensures Consistent(Bumped(t, id).tables)
  {
    PutSameName(t.devices, id, t.devices[id].(version := t.devices[id].version + 1));
  }

  lemma CommandKeepsConsistent(t: Tables, c: Command)
    requires Consistent(t)
    ensures Consistent(After(t, c))
  {
    hide Inserted, UniqueNames, UniqueRowTags;
    if Execute(t, c).Done? {
      match c
      case CreateDevice(connection, enabled) =>
        PutDevice(t.devices, t.nextDevice, Device(connection, enabled, 1));
      case UpdateDevice(id, connection) =>
        PutDevice(t.devices, id, t.devices[id].(connection := connection));
        BumpKeeps(t.(devices := t.devices[id := t.devices[id].(connection := connection)]), id);
      case SetDeviceEnabled(id, enabled) =>
        PutSameName(t.devices, id, t.devices[id].(enabled := enabled));
      case DeleteDevice(id) => FewerKeep(t, id, {});
      case CreatePoint(deviceId, point) =>
        PutRow(t.rows, t.nextRow, deviceId, point);
        BumpKeeps(t.(rows := t.rows[t.nextRow := Row(deviceId, point)], nextRow := t.nextRow + 1), deviceId);
      case UpdatePoint(deviceId, pointId, point) =>
        PutRow(t.rows, pointId, deviceId, point);
        BumpKeeps(t.(rows := t.rows[pointId := Row(deviceId, point)]), deviceId);
      case DeletePoint(deviceId, pointId) =>
        FewerKeep(t, deviceId, {pointId});
        BumpKeeps(t.(rows := t.rows - {pointId}), deviceId);
      case DeletePoints(deviceId, ids) =>
        FewerKeep(t, deviceId, Matched(t, deviceId, ids));
        BumpKeeps(t.(rows := t.rows - Matched(t, deviceId, ids)), deviceId);
      case ReplacePoints(deviceId, points) => ReplaceKeeps(t, deviceId, points);
    }
  }

  lemma FewerKeep(t: Tables, id: int, gone: set<int>)
    requires Consistent(t)
    ensures UniqueNames(t.devices - {id}) && UniqueRowTags(RowsElsewhere(t.rows, id)) && UniqueRowTags(t.rows - gone)
  {
  }

  /** Same rows of device `id` on both sides. */
  ghost predicate SameRows(rows: map<int, Row>, rows': map<int, Row>, id: int) {
    && (forall r :: r in rows && rows[r].deviceId == id ==> r in rows' && rows'[r] == rows[r])
    && (forall r :: r in rows' && rows'[r].deviceId == id ==> r in rows && rows[r] == rows'[r])
  }

  lemma SameRowsSamePoints(t: Tables, t': Tables, id: int)
    requires SameRows(t.rows, t'.rows, id)
    ensures PointsOf(t, id) == PointsOf(t', id)
  {
    var a, b := PointsOf(t, id), PointsOf(t', id);
    assert forall r :: r in a <==> r in b;
    assert forall r :: r in a ==> a[r] == b[r];
    assert a == b;
  }

  /** A transaction touches only the device it names: every other device keeps
      its row and its points. */
  lemma OthersUntouched(t: Tables, c: Command, id: int)
    requires Consistent(t) && id in t.devices && id != Subject(c)
    ensures id in After(t, c).devices && After(t, c).devices[id] == t.devices[id] && SameConfig(t, After(t, c), id)
  {
    hide Inserted, UniqueNames, UniqueRowTags, PointsOf;
    var t' := After(t, c);
    if Execute(t, c).Done? && c.ReplacePoints? {
      ReplacedRows(t, c.deviceId, c.points);
    }
    assert SameRows(t.rows, t'.rows, id);
    SameRowsSamePoints(t, t', id);
  }

  /** What a command leaves of the row of the device it names: the version rises
      by exactly one when a configuration command succeeds, and only the fields
      the command is about move. */
  lemma RowAfter(t: Tables, c: Command)
    requires Consistent(t) && Subject(c) in t.devices && !c.DeleteDevice?
    ensures var id, ok := Subject(c), Execute(t, c).Done?;
      && id in After(t, c).devices
      && After(t, c).devices[id] == Device(
           if ok && c.UpdateDevice? then c.connection else t.devices[id].connection,
           if ok && c.SetDeviceEnabled? then c.enabled else t.devices[id].enabled,
           t.devices[id].version + if ok && !c.SetDeviceEnabled? then 1 else 0)
      && (!ok || c.SetDeviceEnabled? || c.UpdateDevice? ==> PointsOf(After(t, c), id) == PointsOf(t, id))
  {
    if c.SetDeviceEnabled? || c.UpdateDevice? {
      SameRowsSamePoints(t, After(t, c), Subject(c));
    }
  }

  /** A created device is new, at version 1 and without points; a deleted one
      takes its points with it. */
  lemma CreateAndDelete(t: Tables, c: Command)
    requires Consistent(t) && Execute(t, c).Done? && (c.CreateDevice? || c.DeleteDevice?)
    ensures var t' := After(t, c);
      && (c.CreateDevice? ==>
            && t.nextDevice !in t.devices && t'.devices == t.devices[t.nextDevice := Device(c.connection, c.enabled, 1)]
            && PointsOf(t', t.nextDevice) == map[] && t'.rows == t.rows)
      && (c.DeleteDevice? ==> t'.devices.Keys == t.devices.Keys - {c.id} && PointsOf(t', c.id) == map[])
  {
    var t' := After(t, c);
    if c.CreateDevice? {
      assert forall r :: r in t.rows ==> t.rows[r].deviceId != t.nextDevice;
      assert PointsOf(t', t.nextDevice) == map[];
    } else {
      assert PointsOf(t', c.id) == map[];
    }
  }

  /** A command on something that exists is refused exactly when carrying it out
      would give two devices one name or two points of a device one tag. */
  lemma RefusedExactlyOnConflict(t: Tables, c: Command)
    requires Consistent(t)
    ensures match c
      case CreateDevice(connection, enabled) =>
        Execute(t, c).Failed? <==> !UniqueNames(t.devices[t.nextDevice := Device(connection, enabled, 1)])
      case UpdateDevice(id, connection) =>
        id in t.devices ==> (Execute(t, c).Failed? <==> !UniqueNames(t.devices[id := t.devices[id].(connection := connection)]))
      case CreatePoint(id, point) =>
        id in t.devices ==> (Execute(t, c).Failed? <==> !UniqueRowTags(t.rows[t.nextRow := Row(id, point)]))
      case UpdatePoint(id, pointId, point) =>
        Owns(t, id, pointId) ==> (Execute(t, c).Failed? <==> !UniqueRowTags(t.rows[pointId := Row(id, point)]))
      case ReplacePoints(id, points) =>
        id in t.devices ==> (Execute(t, c).Failed? <==> !UniqueRowTags(Inserted(RowsElsewhere(t.rows, id), t.nextRow, id, points)))
      case _ => true
  {
    match c
    case CreateDevice(connection, enabled) => NameConflict(t.devices, t.nextDevice, Device(connection, enabled, 1));
    case UpdateDevice(id, connection) =>
      if id in t.devices { NameConflict(t.devices, id, t.devices[id].(connection := connection)); }
    case CreatePoint(id, point) => TagConflict(t.rows, t.nextRow, id, point);
    case UpdatePoint(id, pointId, point) => TagConflict(t.rows, pointId, id, point);
    case ReplacePoints(id, points) => ReplaceConflict(t, id, points);
    case _ =>
  }

  lemma NameConflict(devices: map<int, Device>, id: int, device: Device)
    requires UniqueNames(devices)
    ensures UniqueNames(devices[id := device]) <==>
      !exists d :: d in devices && d != id && devices[d].connection.name == device.connection.name
  {
    if d :| d in devices && d != id && devices[d].connection.name == device.connection.name {
      assert d in devices[id := device] && id in devices[id := device];
    }
  }

  lemma TagConflict(rows: map<int, Row>, id: int, deviceId: int, point: Point)
    requires UniqueRowTags(rows)
    ensures UniqueRowTags(rows[id := Row(deviceId, point)]) <==> !TagTaken(rows, deviceId, point.tag, id)
  {
    var now := rows[id := Row(deviceId, point)];
    if TagTaken(rows, deviceId, point.tag, id) {
      var r :| r in rows && r != id && rows[r].deviceId == deviceId && rows[r].point.tag == point.tag;
      assert SameKey(now[r], now[id]);
    }
  }

  lemma ReplaceConflict(t: Tables, id: int, points: seq<Point>)
    requires Consistent(t)
    ensures UniqueTags(points) <==> UniqueRowTags(Inserted(RowsElsewhere(t.rows, id), t.nextRow, id, points))
  {
    var rows := Inserted(RowsElsewhere(t.rows, id), t.nextRow, id, points);
    InsertedRows(RowsElsewhere(t.rows, id), t.nextRow, id, points);
    hide Inserted;
    if UniqueRowTags(rows) {
      forall i, j | 0 <= i < j < |points| ensures points[i].tag != points[j].tag {
        assert rows[t.nextRow + i] == Row(id, points[i]) && rows[t.nextRow + j] == Row(id, points[j]);
        assert !SameKey(rows[t.nextRow + i], rows[t.nextRow + j]);
      }
    } else {
      var r, s :| r in rows && s in rows && r != s && SameKey(rows[r], rows[s]);
      assert r >= t.nextRow ==> rows[t.nextRow + (r - t.nextRow)] == Row(id, points[r - t.nextRow]);
      assert s >= t.nextRow ==> rows[t.nextRow + (s - t.nextRow)] == Row(id, points[s - t.nextRow]);
    }
  }

  lemma CommandTracksVersion(t: Tables, c: Command, id: int)
    requires Consistent(t)
    ensures VersionTracks(t, After(t, c), id)
  {
    if id in t.devices {
      if id != Subject(c) {
        OthersUntouched(t, c, id);
      } else if !c.DeleteDevice? {
        RowAfter(t, c);
      }
    }
  }

  // ------------------------------------------------- what an edit does to the points of its device

  lemma EditsTakeEffect(t: Tables, c: Command)
    requires Consistent(t) && Execute(t, c).Done? && Subject(c) in t.devices && !c.DeleteDevice? && !c.ReplacePoints?
    ensures var id, t' := Subject(c), After(t, c); PointsOf(t', id) == Edited(PointsOf(t, id), t.nextRow, c)
  {
    hide UniqueNames, UniqueRowTags, Inserted;
    var id, t' := Subject(c), After(t, c);
    var a, b := PointsOf(t', id), Edited(PointsOf(t, id), t.nextRow, c);
    assert forall r :: r in a <==> r in b;
    assert forall r :: r in a ==> a[r] == b[r];
    assert a == b;
  }

  /** The points of a device after an edit of it, seen by the device alone. */
  function Edited(points: map<int, Point>, newId: int, c: Command): map<int, Point> {
    match c
    case CreatePoint(_, point) => points[newId := point]
    case UpdatePoint(_, pointId, point) => points[pointId := point]
    case DeletePoint(_, pointId) => points - {pointId}
    case DeletePoints(_, ids) => points - set i | 0 <= i < |ids| :: ids[i]
    case _ => points
  }

  ghost predicate Distinct(ids: seq<int>) {
    forall i, j :: 0 <= i < j < |ids| ==> ids[i] != ids[j]
  }

  /** Comparing COUNT(*) with the length of the list rejects exactly the empty
      lists, repeated ids and ids of other devices. */
  lemma DeletePointsSucceeds(t: Tables, deviceId: int, ids: seq<int>)
    requires Consistent(t)
    ensures Execute(t, DeletePoints(deviceId, ids)).Done? <==>
      ids != [] && Distinct(ids) && forall i :: 0 <= i < |ids| ==> ids[i] in PointsOf(t, deviceId)
  {
    CountMatched(t, deviceId, ids);
    if ids != [] && |Matched(t, deviceId, ids)| == |ids| {
      assert Owns(t, deviceId, ids[0]);
    }
  }

  lemma MatchedLast(t: Tables, deviceId: int, ids: seq<int>)
    requires ids != []
    ensures var n := |ids| - 1; var before := Matched(t, deviceId, ids[..n]);
      Matched(t, deviceId, ids) == if Owns(t, deviceId, ids[n]) then before + {ids[n]} else before
  {
  }

  lemma {:induction false} CountMatched(t: Tables, deviceId: int, ids: seq<int>)
    ensures |Matched(t, deviceId, ids)| <= |ids|
    ensures |Matched(t, deviceId, ids)| == |ids| <==> Distinct(ids) && forall i :: 0 <= i < |ids| ==> Owns(t, deviceId, ids[i])
  {
    if ids == [] {
    } else {
      var n := |ids| - 1;
      var before := Matched(t, deviceId, ids[..n]);
      CountMatched(t, deviceId, ids[..n]);
      MatchedLast(t, deviceId, ids);
      if Distinct(ids[..n]) {
        assert Distinct(ids) <==> ids[n] !in ids[..n];
      }
      assert forall i :: 0 <= i < n ==> ids[..n][i] == ids[i];
    }
  }

  // ------------------------------------------------- when a command is refused, and how

  /** What the command is about is not there: the device, the point, or all the
      distinct points listed. */
  ghost predicate Missing(t: Tables, c: Command) {
    match c
    case CreateDevice(_, _) => false
    case UpdateDevice(id, _) => id !in t.devices
    case SetDeviceEnabled(id, _) => id !in t.devices
    case DeleteDevice(id) => id !in t.devices
    case CreatePoint(_, _) => false
    case UpdatePoint(id, pointId, _) => pointId !in PointsOf(t, id)
    case DeletePoint(id, pointId) => pointId !in PointsOf(t, id)
    case DeletePoints(id, ids) => !(ids != [] && Distinct(ids) && forall i :: 0 <= i < |ids| ==> ids[i] in PointsOf(t, id))
    case ReplacePoints(id, points) => id !in t.devices && points == []
  }

  /** Carried out, the command would leave two devices with one name, two points
      of a device with one tag, or a point without its device. */
  ghost predicate Clashes(t: Tables, c: Command) {
    match c
    case CreateDevice(connection, enabled) => !UniqueNames(t.devices[t.nextDevice := Device(connection, enabled, 1)])
    case UpdateDevice(id, connection) =>
      id in t.devices && !UniqueNames(t.devices[id := t.devices[id].(connection := connection)])
    case CreatePoint(id, point) => id !in t.devices || !UniqueRowTags(t.rows[t.nextRow := Row(id, point)])
    case UpdatePoint(id, pointId, point) =>
      pointId in PointsOf(t, id) && !UniqueRowTags(t.rows[pointId := Row(id, point)])
    case ReplacePoints(id, points) => points != [] && (id !in t.devices || !UniqueTags(points))
    case _ => false
  }

  /** Every refusal and its kind; nothing else is refused. */
  lemma RefusedExactly(t: Tables, c: Command)
    requires Consistent(t)
    ensures Execute(t, c) == Failed(NotFound) <==> Missing(t, c)
    ensures Execute(t, c) == Failed(Conflict) <==> Clashes(t, c)
    ensures Subject(c) !in t.devices && !c.CreateDevice? ==> Execute(t, c).Failed? && After(t, c) == t
  {
    hide UniqueNames, UniqueRowTags, Inserted;
    RefusedExactlyOnConflict(t, c);
    if c.DeletePoints? { DeletePointsSucceeds(t, c.deviceId, c.pointIds); }
    OwnersStored(t);
  }

  lemma OwnersStored(t: Tables)
    requires Consistent(t)
    ensures forall id, r :: Owns(t, id, r) ==> id in t.devices
    ensures forall id, r :: Owns(t, id, r) <==> r in PointsOf(t, id)
  {
  }
}
