/** The store as the object its callers share. Every method begins a
    transaction, runs its statements one by one and rolls back on the first
    error (internal/store/device.go, internal/store/point.go). */
module DeviceStore {
  import opened Points
  import opened Store

  datatype Status = Success | Refused(error: StoreError)

  function StatusOf(o: Outcome): Status {
    match o case Done(_) => Success case Failed(error) => Refused(error)
  }

  class ConfigStore {
    var devices: map<int, Device>
    var rows: map<int, Row>
    var nextDevice: int
    var nextRow: int

    function Contents(): Tables
      reads this
    {
      Tables(devices, rows, nextDevice, nextRow)
    }

    ghost predicate Valid()
      reads this
    {
      Consistent(Contents())
    }

    /** The transaction `c` took place as a whole, or was refused and left no trace. */
    twostate predicate Performed(c: Command, status: Status)
      reads this
    {
      Contents() == After(old(Contents()), c) && status == StatusOf(Execute(old(Contents()), c))
    }

    constructor ()
      ensures Valid() && Contents() == Tables(map[], map[], 1, 1)
    {
      devices, rows, nextDevice, nextRow := map[], map[], 1, 1;
    }

    /** bumpVersion, then commit; or, when no device row was hit, the deferred
        rollback to the tables the transaction began with. */
    method BumpAndCommit(begun: Tables, id: int) returns (status: Status)
      modifies this
      ensures status == StatusOf(Bumped(old(Contents()), id))
      ensures Contents() == if status.Success? then Bumped(old(Contents()), id).tables else begun
    {
      if id !in devices {
        Rollback(begun);
        return Refused(NotFound);
      }
      devices := devices[id := devices[id].(version := devices[id].version + 1)];
      return Success;
    }

    method Rollback(begun: Tables)
      modifies this
      ensures Contents() == begun
    {
      devices, rows, nextDevice, nextRow := begun.devices, begun.rows, begun.nextDevice, begun.nextRow;
    }

    /** `INSERT INTO points`: the foreign key and the (device, tag) index are checked. */
    method InsertPoint(deviceId: int, point: Point) returns (ok: bool)
      modifies this`rows, this`nextRow
      ensures ok == (deviceId in devices && !TagTaken(old(rows), deviceId, point.tag, 0))
      ensures rows == if ok then old(rows)[old(nextRow) := Row(deviceId, point)] else old(rows)
      ensures nextRow == if ok then old(nextRow) + 1 else old(nextRow)
    {
      ok := deviceId in devices && !TagTaken(rows, deviceId, point.tag, 0);
      if ok {
        rows, nextRow := rows[nextRow := Row(deviceId, point)], nextRow + 1;
      }
    }

    method CreateDevice(connection: Connection, enabled: bool) returns (status: Status)
      requires Valid()
      modifies this
      ensures Valid() && Performed(Command.CreateDevice(connection, enabled), status)
    {
      hide Consistent;
      CommandKeepsConsistent(Contents(), Command.CreateDevice(connection, enabled));
      if NameTaken(Contents(), connection.name, 0) {
        return Refused(Conflict);
      }
      devices, nextDevice := devices[nextDevice := Device(connection, enabled, 1)], nextDevice + 1;
      return Success;
    }

    method UpdateDevice(id: int, connection: Connection) returns (status: Status)
      requires Valid()
      modifies this
      ensures Valid() && Performed(Command.UpdateDevice(id, connection), status)
    {
      hide Consistent;
      CommandKeepsConsistent(Contents(), Command.UpdateDevice(id, connection));
      if id !in devices {
        return Refused(NotFound);
      }
      if NameTaken(Contents(), connection.name, id) {
        return Refused(Conflict);
      }
      var was := devices[id];
      var now := was.(connection := connection, version := was.version + 1);
      assert devices[id := was.(connection := connection)][id := now] == devices[id := now];
      devices := devices[id := now];
      return Success;
    }

    method SetDeviceEnabled(id: int, enabled: bool) returns (status: Status)
      requires Valid()
      modifies this
      ensures Valid() && Performed(Command.SetDeviceEnabled(id, enabled), status)
    {
      hide Consistent;
      CommandKeepsConsistent(Contents(), Command.SetDeviceEnabled(id, enabled));
      if id !in devices {
        return Refused(NotFound);
      }
      devices := devices[id := devices[id].(enabled := enabled)];
      return Success;
    }

    method DeleteDevice(id: int) returns (status: Status)
      requires Valid()
      modifies this
      ensures Valid() && Performed(Command.DeleteDevice(id), status)
    {
      hide Consistent;
      CommandKeepsConsistent(Contents(), Command.DeleteDevice(id));
      if id !in devices {
        return Refused(NotFound);
      }
      devices, rows := devices - {id}, RowsElsewhere(rows, id);
      return Success;
    }

    method CreatePoint(deviceId: int, point: Point) returns (status: Status)
      requires Valid()
      modifies this
      ensures Valid() && Performed(Command.CreatePoint(deviceId, point), status)
    {
      hide Consistent;
      CommandKeepsConsistent(Contents(), Command.CreatePoint(deviceId, point));
      var begun := Contents();
      var ok := InsertPoint(deviceId, point);
      if !ok {
        return Refused(Conflict);
      }
      status := BumpAndCommit(begun, deviceId);
    }

    method UpdatePoint(deviceId: int, pointId: int, point: Point) returns (status: Status)
      requires Valid()
      modifies this
      ensures Valid() && Performed(Command.UpdatePoint(deviceId, pointId, point), status)
    {
      hide Consistent;
      CommandKeepsConsistent(Contents(), Command.UpdatePoint(deviceId, pointId, point));
      var begun := Contents();
      if !Owns(Contents(), deviceId, pointId) {
        return Refused(NotFound);
      }
      if TagTaken(rows, deviceId, point.tag, pointId) {
        return Refused(Conflict);
      }
      rows := rows[pointId := Row(deviceId, point)];
      status := BumpAndCommit(begun, deviceId);
    }

    method DeletePoint(deviceId: int, pointId: int) returns (status: Status)
      requires Valid()
      modifies this
      ensures Valid() && Performed(Command.DeletePoint(deviceId, pointId), status)
    {
      hide Consistent;
      CommandKeepsConsistent(Contents(), Command.DeletePoint(deviceId, pointId));
      var begun := Contents();
      if !Owns(Contents(), deviceId, pointId) {
        return Refused(NotFound);
      }
      rows := rows - {pointId};
      status := BumpAndCommit(begun, deviceId);
    }

    method DeletePoints(deviceId: int, pointIds: seq<int>) returns (count: nat, status: Status)
      requires Valid()
      modifies this
      ensures Valid() && Performed(Command.DeletePoints(deviceId, pointIds), status)
      ensures count == (if status.Success? then |pointIds| else 0)
    {
      hide UniqueNames, UniqueRowTags;
      CommandKeepsConsistent(Contents(), Command.DeletePoints(deviceId, pointIds));
      if pointIds == [] {
        return 0, Refused(NotFound);
      }
      var begun := Contents();
      var matched := Matched(Contents(), deviceId, pointIds);
      if |matched| != |pointIds| {
        return 0, Refused(NotFound);
      }
      rows := rows - matched;
      status := BumpAndCommit(begun, deviceId);
      return |matched|, status;
    }

    method ReplacePoints(deviceId: int, points: seq<Point>) returns (status: Status)
      requires Valid()
      modifies this
      ensures Valid() && Performed(Command.ReplacePoints(deviceId, points), status)
    {
      hide Consistent;
      CommandKeepsConsistent(Contents(), Command.ReplacePoints(deviceId, points));
      var begun := Contents();
      rows := RowsElsewhere(rows, deviceId);
      var i := 0;
      while i < |points|
        invariant 0 <= i <= |points|
        invariant devices == begun.devices && nextDevice == begun.nextDevice && nextRow == begun.nextRow + i
        invariant rows == Inserted(RowsElsewhere(begun.rows, deviceId), begun.nextRow, deviceId, points[..i])
        invariant i > 0 ==> deviceId in devices
        invariant UniqueTags(points[..i])
      {
        NextInsert(begun, deviceId, points, i);
        var ok := InsertPoint(deviceId, points[i]);
        if !ok {
          Rollback(begun);
          return Refused(Conflict);
        }
        i := i + 1;
      }
      assert points[..i] == points;
      status := BumpAndCommit(begun, deviceId);
    }
  }

  lemma OneMoreTag(points: seq<Point>, i: nat)
    requires i < |points| && UniqueTags(points[..i])
    requires forall j :: 0 <= j < i ==> points[j].tag != points[i].tag
    ensures UniqueTags(points[..i + 1])
  {
    assert forall j :: 0 <= j < i ==> points[..i][j] == points[j];
  }

  /** Row by row, the unique index sees exactly the tags inserted before. */
  lemma NextInsert(t: Tables, deviceId: int, points: seq<Point>, i: nat)
    requires Consistent(t) && i < |points| && UniqueTags(points[..i])
    ensures var rows := Inserted(RowsElsewhere(t.rows, deviceId), t.nextRow, deviceId, points[..i]);
      && (TagTaken(rows, deviceId, points[i].tag, 0) ==> !UniqueTags(points))
      && (!TagTaken(rows, deviceId, points[i].tag, 0) ==> UniqueTags(points[..i + 1]))
      && Inserted(RowsElsewhere(t.rows, deviceId), t.nextRow, deviceId, points[..i + 1])
         == rows[t.nextRow + i := Row(deviceId, points[i])]
  {
    hide UniqueRowTags, UniqueNames;
    var kept := RowsElsewhere(t.rows, deviceId);
    var rows := Inserted(kept, t.nextRow, deviceId, points[..i]);
    InsertedRows(kept, t.nextRow, deviceId, points[..i]);
    assert points[..i + 1][..i] == points[..i];
    TagsTakenBefore(t.nextRow, deviceId, points, i, kept, rows);
    if !TagTaken(rows, deviceId, points[i].tag, 0) {
      OneMoreTag(points, i);
    }
  }

  /** The tags taken for the device are those of the points inserted before. */
  lemma TagsTakenBefore(next: int, deviceId: int, points: seq<Point>, i: nat, kept: map<int, Row>, rows: map<int, Row>)
    requires i < |points|
    requires forall r :: r in rows <==> r in kept || next <= r < next + i
    requires forall r :: r in kept ==> 0 < r < next && rows[r] == kept[r] && kept[r].deviceId != deviceId
    requires forall j :: 0 <= j < i ==> rows[next + j] == Row(deviceId, points[..i][j])
    requires next > 0
    ensures TagTaken(rows, deviceId, points[i].tag, 0) <==> exists j :: 0 <= j < i && points[j].tag == points[i].tag
  {
    if TagTaken(rows, deviceId, points[i].tag, 0) {
      var r :| r in rows && rows[r].deviceId == deviceId && rows[r].point.tag == points[i].tag;
      var j := r - next;
      assert rows[next + j] == Row(deviceId, points[..i][j]);
      assert points[j].tag == points[i].tag;
    }
    if j :| 0 <= j < i && points[j].tag == points[i].tag {
      assert rows[next + j] == Row(deviceId, points[..i][j]);
      assert next + j in rows;
    }
  }
}
