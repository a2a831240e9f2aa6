/** Snapshot reads the device row from the store and only then, under the
    entry's lock, what was loaded; edits and whole restarts may come in between
    (internal/runtime/manager.go:298-318). */
module SnapshotReads {
  import opened Points
  import opened Store
  import opened Lifecycle
  import opened LifecycleSafety
  import opened LifecycleReads

  // ------------------------------------------------- versions over whole runs

  lemma TracksTransitive(t: Tables, u: Tables, v: Tables, id: int)
    requires Consistent(t) && VersionTracks(t, u, id) && VersionTracks(u, v, id)
    ensures VersionTracks(t, v, id)
  {
    hide PointsOf, UniqueNames, UniqueRowTags;
  }

  lemma AdvanceTables(s: State, op: nat, ok: bool)
    requires op in s.ops
    ensures var c := SetDeviceEnabled(s.id, s.ops[op].kind != Stop);
      Continue(s, op, ok).tables == s.tables || Continue(s, op, ok).tables == After(s.tables, c)
  {
    hide PointsOf, Execute, After;
  }

  lemma StepTracks(s: State, step: Step)
    requires Consistent(s.tables)
    ensures VersionTracks(s.tables, Do(s, step).tables, s.id)
  {
    hide Consistent, VersionTracks, Continue, PointsOf, After;
    NothingChanges(s.tables, s.id);
    match step
    case Advance(op, ok) =>
      if op in s.ops {
        AdvanceTables(s, op, ok);
        CommandTracksVersion(s.tables, SetDeviceEnabled(s.id, s.ops[op].kind != Stop), s.id);
      }
    case Edit(c) => CommandTracksVersion(s.tables, c, s.id);
    case _ =>
  }

  /** Over any stretch of a run the version never goes back, and it stays only
      when the configuration stays. */
  lemma {:induction false} RunTracks(t: Tables, id: int, base: seq<Step>, after: seq<Step>)
    requires Consistent(t)
    ensures VersionTracks(Run(t, id, base).tables, Run(t, id, base + after).tables, id)
    decreases |after|
  {
    hide Run, Do, Consistent, VersionTracks;
    var n := |after| - 1;
    if after == [] {
      assert base + after == base;
      NothingChanges(Run(t, id, base).tables, id);
    } else {
      RunTracks(t, id, base, after[..n]);
      assert base + after == (base + after[..n]) + [after[n]];
      var s := Run(t, id, base + after[..n]);
      RunPlus(t, id, base + after[..n], after[n]);
      SameDevice(t, id, base + after[..n]);
      RunConsistent(t, id, base);
      RunConsistent(t, id, base + after[..n]);
      StepTracks(s, after[n]);
      TracksTransitive(Run(t, id, base).tables, s.tables, Do(s, after[n]).tables, id);
    }
  }

  lemma RunConsistent(t: Tables, id: int, steps: seq<Step>)
    requires Consistent(t)
    ensures Consistent(Run(t, id, steps).tables)
  {
    hide Run, Consistent, OpsOk, LockOk, RunnersOk, SoundConfig;
    EveryRun(t, id, steps);
  }

  /** The same between two moments of one run. */
  lemma MomentsTrack(t: Tables, id: int, steps: seq<Step>, i: nat, j: nat)
    requires Consistent(t) && i <= j <= |steps|
    ensures VersionTracks(Run(t, id, steps[..i]).tables, Run(t, id, steps[..j]).tables, id)
  {
    hide Run, Consistent, VersionTracks;
    assert steps[..i] + steps[i..j] == steps[..j];
    RunTracks(t, id, steps[..i], steps[i..j]);
  }

  // ------------------------------------------------- everything loaded was read

  lemma NoSteps(t: Tables, id: int)
    ensures Run(t, id, []) == Initial(t, id)
  {
  }

  ghost predicate LoadedRead(t: Tables, id: int, steps: seq<Step>, n: nat, s: State)
    requires n <= |steps|
  {
    s.loaded.Some? ==> ConfigSeen(t, id, [], steps, n, s.loaded.value)
  }

  ghost predicate OpsRead(t: Tables, id: int, steps: seq<Step>, n: nat, s: State)
    requires n <= |steps|
  {
    forall op :: op in s.ops ==> Reads(t, id, [], steps, n, s, s.ops[op].pc)
  }

  /** What is loaded changes only where an operation installs its runner. */
  lemma LoadedChanges(s: State, step: Step)
    ensures Do(s, step).loaded == s.loaded
      || (step.Advance? && step.op in s.ops && s.ops[step.op].pc.Installing?
          && Do(s, step).loaded == Some(s.ops[step.op].pc.config))
  {
    hide PointsOf, Execute, After;
  }

  lemma LoadedStaysRead(t: Tables, id: int, steps: seq<Step>, n: nat, s: State, step: Step)
    requires n < |steps| && LoadedRead(t, id, steps, n, s) && OpsRead(t, id, steps, n, s)
    ensures LoadedRead(t, id, steps, n + 1, Do(s, step))
  {
    hide Do, ConfigSeen;
    LoadedChanges(s, step);
    if Do(s, step).loaded.Some? {
      if Do(s, step).loaded != s.loaded {
        assert Reads(t, id, [], steps, n, s, s.ops[step.op].pc);
      }
      ConfigSeenLater(t, id, [], steps, n, Do(s, step).loaded.value);
    }
  }

  /** A new operation has read the row it carries at its call. */
  lemma NewCallReads(t: Tables, id: int, steps: seq<Step>, n: nat, op: nat, kind: Kind)
    requires n < |steps|
    requires var s := Run(t, id, [] + steps[..n]); s.id == id && op !in s.ops
    ensures var s' := Begin(Run(t, id, [] + steps[..n]), op, kind);
      op in s'.ops && Reads(t, id, [], steps, n + 1, s', s'.ops[op].pc)
  {
    hide Run, RowSeen, ConfigSeen;
    var s := Run(t, id, [] + steps[..n]);
    if id in s.tables.devices { ReadRowNow(t, id, [], steps, n, s.tables.devices[id]); }
  }

  lemma NewOps(s: State, step: Step, op: nat)
    requires op in Do(s, step).ops && op !in s.ops
    ensures step.Call? && step.op == op && Do(s, step) == Begin(s, op, step.kind)
  {
    hide PointsOf, Execute, After;
  }

  lemma OpStaysRead(t: Tables, id: int, steps: seq<Step>, n: nat, op: nat)
    requires Consistent(t) && n < |steps|
    requires var s := Run(t, id, [] + steps[..n]);
      s.id == id && Inv(s) && OpsRead(t, id, steps, n, s) && op in Do(s, steps[n]).ops
    ensures var s' := Do(Run(t, id, [] + steps[..n]), steps[n]);
      Reads(t, id, [], steps, n + 1, s', s'.ops[op].pc)
  {
    hide Run, Do, Begin, Inv, Reads, Consistent;
    var s, step := Run(t, id, [] + steps[..n]), steps[n];
    if op !in s.ops {
      NewOps(s, step, op);
      NewCallReads(t, id, steps, n, op, step.kind);
    } else if step.Advance? && step.op == op {
      OwnStepReads(t, id, [], steps, n, op, step.ok);
      AdvanceIs(s, op, step.ok);
    } else {
      RunnersStay(s, step);
      OtherStep(s, step, op);
      ReadsLater(t, id, [], steps, n, s, Do(s, step), s.ops[op].pc);
    }
  }

  /** Whatever is carried or loaded at this point of the run was read before. */
  ghost predicate ReadBefore(t: Tables, id: int, steps: seq<Step>, n: nat)
    requires n <= |steps|
  {
    var s := Run(t, id, [] + steps[..n]); OpsRead(t, id, steps, n, s) && LoadedRead(t, id, steps, n, s)
  }

  lemma {:induction false} EverythingRead(t: Tables, id: int, steps: seq<Step>, n: nat)
    requires Consistent(t) && n <= |steps|
    ensures ReadBefore(t, id, steps, n)
    decreases n
  {
    if n == 0 {
      NoSteps(t, id);
    } else {
      hide Consistent, ReadBefore;
      EverythingRead(t, id, steps, n - 1);
      NextRead(t, id, steps, n - 1);
    }
  }

  lemma NextRead(t: Tables, id: int, steps: seq<Step>, n: nat)
    requires Consistent(t) && n < |steps| && ReadBefore(t, id, steps, n)
    ensures ReadBefore(t, id, steps, n + 1)
  {
    hide Run, Do, Inv, Reads, LoadedRead, Consistent;
    var s := Run(t, id, [] + steps[..n]);
    assert [] + steps[..n + 1] == ([] + steps[..n]) + [steps[n]];
    RunPlus(t, id, [] + steps[..n], steps[n]);
    EveryRun(t, id, [] + steps[..n]);
    SameDevice(t, id, [] + steps[..n]);
    LoadedStaysRead(t, id, steps, n, s, steps[n]);
    var s' := Run(t, id, [] + steps[..n + 1]);
    forall op | op in s'.ops ensures Reads(t, id, [], steps, n + 1, s', s'.ops[op].pc) {
      OpStaysRead(t, id, steps, n, op);
    }
  }

  /** A configuration found loaded: when its row and its points were stored. */
  lemma LoadedMoments(t: Tables, id: int, steps: seq<Step>) returns (a: nat, b: nat)
    requires Consistent(t) && Run(t, id, steps).loaded.Some?
    ensures var e := Run(t, id, steps).loaded.value;
      a <= b <= |steps| && RowAt(t, id, steps[..a], e.version, e.connection) && PointsAt(t, id, steps[..b], e.points)
  {
    hide Run, Consistent, RowAt, PointsAt;
    EverythingRead(t, id, steps, |steps|);
    assert [] + steps[..|steps|] == steps;
    var e := Run(t, id, steps).loaded.value;
    a, b :| 0 <= a <= b <= |steps| && RowAt(t, id, [] + steps[..a], e.version, e.connection) && PointsAt(t, id, [] + steps[..b], e.points);
    assert [] + steps[..a] == steps[..a] && [] + steps[..b] == steps[..b];
  }

  // ------------------------------------------------- the flag with separated reads

  /** The flag as Snapshot computes it, from the row it read and from what is
      loaded in the later state. */
  predicate Flag(d: Device, s: State) {
    LoadedVersion(s) != 0 && d.version != LoadedVersion(s)
  }

  /** The points were stored when the row was read or at a later moment before
      the loaded version was read. */
  ghost predicate StoredBetween(t: Tables, id: int, base: seq<Step>, after: seq<Step>, points: map<int, Point>) {
    exists m :: 0 <= m <= |after| && PointsAt(t, id, base + after[..m], points)
  }

  /** Whatever happens between the two reads, a flag that is down says this: the
      loaded connection is the one of the row read, and the loaded points were
      stored at some moment from the first read to the second. */
  lemma DownMeansLoaded(t: Tables, id: int, base: seq<Step>, after: seq<Step>)
    requires Consistent(t) && id in Run(t, id, base).tables.devices
    requires var d, s := Run(t, id, base).tables.devices[id], Run(t, id, base + after);
      s.loaded.Some? && !Flag(d, s)
    ensures var d, e := Run(t, id, base).tables.devices[id], Run(t, id, base + after).loaded.value;
      e.version == d.version && e.connection == d.connection && StoredBetween(t, id, base, after, e.points)
  {
    hide Run, Consistent, PointsOf;
    var steps := base + after;
    var d, e := Run(t, id, base).tables.devices[id], Run(t, id, steps).loaded.value;
    LoadedVersionPositive(t, id, steps);
    var a, b := LoadedMoments(t, id, steps);
    assert steps[..|base|] == base;
    SameVersionSameRow(t, id, steps, a, |base|);
    if b >= |base| {
      assert steps[..b] == base + after[..b - |base|];
    } else {
      SameVersionSamePoints(t, id, steps, a, b, |base|);
      assert base + after[..0] == base;
      assert PointsAt(t, id, base + after[..0], e.points);
    }
  }

  lemma LoadedVersionPositive(t: Tables, id: int, steps: seq<Step>)
    requires Consistent(t)
    ensures var s := Run(t, id, steps); s.loaded.Some? ==> s.loaded.value.version >= 1
  {
    hide Run, Consistent, OpsOk, LockOk, RunnersOk;
    EveryRun(t, id, steps);
  }

  lemma SameVersionSameRow(t: Tables, id: int, steps: seq<Step>, i: nat, j: nat)
    requires Consistent(t) && i <= |steps| && j <= |steps|
    requires var r, s := Run(t, id, steps[..i]), Run(t, id, steps[..j]);
      id in r.tables.devices && id in s.tables.devices && r.tables.devices[id].version == s.tables.devices[id].version
    ensures Run(t, id, steps[..i]).tables.devices[id].connection == Run(t, id, steps[..j]).tables.devices[id].connection
  {
    hide Run, Consistent, PointsOf;
    if i <= j { MomentsTrack(t, id, steps, i, j); } else { MomentsTrack(t, id, steps, j, i); }
  }

  /** While the version is the same at both ends, the points in between are too. */
  lemma SameVersionSamePoints(t: Tables, id: int, steps: seq<Step>, i: nat, m: nat, j: nat)
    requires Consistent(t) && i <= m <= j <= |steps|
    requires var r, s := Run(t, id, steps[..i]), Run(t, id, steps[..j]);
      id in r.tables.devices && id in s.tables.devices && r.tables.devices[id].version == s.tables.devices[id].version
    ensures PointsOf(Run(t, id, steps[..m]).tables, id) == PointsOf(Run(t, id, steps[..j]).tables, id)
  {
    hide Run, PointsOf, UniqueNames, UniqueRowTags;
    MomentsTrack(t, id, steps, i, m);
    MomentsTrack(t, id, steps, m, j);
    RunConsistent(t, id, steps[..i]);
  }

  /** Exactly when the flag is wrong about the moment of the second read: the
      version moved between the reads, and what is loaded has the version of the
      row read, so that the flag misses the change, or already the new one, so
      that it reports a change that is not pending. */
  lemma FlagIsWrongExactly(t: Tables, id: int, base: seq<Step>, after: seq<Step>)
    requires Consistent(t) && id in Run(t, id, base).tables.devices && id in Run(t, id, base + after).tables.devices
    ensures var d, s := Run(t, id, base).tables.devices[id], Run(t, id, base + after);
      s.id == id && var now := s.tables.devices[id].version;
      && (!Flag(d, s) && ConfigPending(s) <==> s.loaded.Some? && LoadedVersion(s) == d.version < now)
      && (Flag(d, s) && !ConfigPending(s) <==> s.loaded.Some? && d.version < LoadedVersion(s) == now)
  {
    hide Run, Consistent, PointsOf, Current;
    StalenessIsSound(t, id, base + after);
    RunTracks(t, id, base, after);
  }

  // ------------------------------------------------- a load overtaken by an edit

  /** Start, up to where it has read the device row and not yet the points. */
  function UpToLoading(): seq<Step> {
    [Call(0, Start), Advance(0, true), Advance(0, true), Advance(0, true)]
  }

  /** The points are replaced, and only then read and installed. */
  function EditThenLoad(id: int, points: seq<Point>): seq<Step> {
    [Edit(ReplacePoints(id, points)), Advance(0, true), Advance(0, true)]
  }

  lemma BeforeLoading(t: Tables, id: int)
    requires id in t.devices
    ensures var s := Run(t, id, UpToLoading());
      && s.id == id && id in s.tables.devices && s.ops.Keys == {0} && s.runner.None? && s.loaded.None?
      && s.ops[0].pc == Loading(s.tables.devices[id])
  {
    hide Run, PointsOf;
    var steps := UpToLoading();
    assert steps[..0] == [] && Run(t, id, []) == Initial(t, id) by { NoSteps(t, id); }
    assert steps[..1] == steps[..0] + [steps[0]] && steps[..2] == steps[..1] + [steps[1]];
    assert steps[..3] == steps[..2] + [steps[2]] && steps == steps[..3] + [steps[3]];
    RunPlus(t, id, steps[..0], steps[0]);
    RunPlus(t, id, steps[..1], steps[1]);
    RunPlus(t, id, steps[..2], steps[2]);
    RunPlus(t, id, steps[..3], steps[3]);
  }

  /** Where the row was read, the flag of a load that an edit overtook is down,
      although the loaded points are not those of that moment and the version has
      moved on. */
  lemma LoadCanBeOvertaken(t: Tables, id: int, points: seq<Point>)
    requires Consistent(t) && id in t.devices && points != [] && UniqueTags(points)
    ensures var s0, s := Run(t, id, UpToLoading()), Run(t, id, UpToLoading() + EditThenLoad(id, points));
      && id in s0.tables.devices && s.id == id && id in s.tables.devices && s.loaded.Some?
      && !Flag(s0.tables.devices[id], s) && ConfigPending(s)
      && s.loaded.value.points == PointsOf(s.tables, id) != PointsOf(s0.tables, id)
  {
    hide Run, Consistent, PointsOf;
    var base, after := UpToLoading(), EditThenLoad(id, points);
    BeforeLoading(t, id);
    RunConsistent(t, id, base);
    var s0 := Run(t, id, base);
    assert base + after[..1] == base + [after[0]] && base + after[..2] == (base + after[..1]) + [after[1]];
    assert base + after == (base + after[..2]) + [after[2]];
    RunPlus(t, id, base, after[0]);
    RunPlus(t, id, base + after[..1], after[1]);
    RunPlus(t, id, base + after[..2], after[2]);
    ReplaceMoves(s0.tables, id, points);
  }

  lemma ReplaceMoves(t: Tables, id: int, points: seq<Point>)
    requires Consistent(t) && id in t.devices && points != [] && UniqueTags(points)
    ensures var t' := After(t, ReplacePoints(id, points));
      && id in t'.devices && t'.devices[id].version == t.devices[id].version + 1 > 1
      && PointsOf(t', id) != PointsOf(t, id) && PointsOf(t', id) != map[]
  {
    hide UniqueNames, UniqueRowTags, Inserted;
    ReplacedPoints(t, id, points);
    var now := PointsOf(After(t, ReplacePoints(id, points)), id);
    assert t.nextRow in now && t.nextRow !in PointsOf(t, id);
  }
}
