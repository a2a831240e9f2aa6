/** Writing a tag to the device (internal/collector/collector.go:441-508). */
module Writes {
  import opened Points
  import opened Reordering
  import opened Planner
  import opened Wire
  import opened ScanRefinement

  /** The dynamic types WriteTag distinguishes. */
  datatype WriteValue =
    | U16Value(u: u16)
    | I16Value(i: int)   // -32768 <= i < 32768
    | IntValue(n: i64)
    | BoolWrite(b: bool)
    | OtherWrite

  datatype WriteError = TagNotFound | ReadOnly | Offline | TypeMismatch | OutOfRange | Unsupported

  /** The request sent to the device, or the error returned instead. */
  datatype WriteAction = Refused(error: WriteError) | SingleRegister(address: u16, value: u16) | SingleCoil(address: u16, code: u16)

  predicate WellTyped(v: WriteValue) { v.I16Value? ==> -0x8000 <= v.i < 0x8000 }

  /** findPoint: the first configured point with the tag, in visiting order. */
  method FindPoint(visit: seq<ReadChunk>, tag: string) returns (found: Option<Point>)
    ensures found.Some? ==> found.value.tag == tag && found.value in PlanPoints(visit)
    ensures found.None? ==> forall p :: p in PlanPoints(visit) ==> p.tag != tag
  {
    for k := 0 to |visit|
      invariant forall p :: p in PlanPoints(visit[..k]) ==> p.tag != tag
    {
      for j := 0 to |visit[k].points|
        invariant forall i :: 0 <= i < j ==> visit[k].points[i].tag != tag
      {
        if visit[k].points[j].tag == tag {
          PointInPlan(visit, k, j);
          return Some(visit[k].points[j]);
        }
      }
      assert visit[..k + 1][..k] == visit[..k];
    }
    assert visit[..|visit|] == visit;
    return None;
  }

  /** Every configured tag is findable, through whatever chunks and in whatever
      order, and the point found is the configured one; other tags are not. */
  lemma FindableTags(points: seq<Point>, planned: seq<Point>, tag: string, found: Option<Point>)
    requires UniqueTags(points) && multiset(planned) == multiset(points)
    requires found.Some? ==> found.value.tag == tag && found.value in planned
    requires found.None? ==> forall p :: p in planned ==> p.tag != tag
    ensures forall p :: p in points && p.tag == tag ==> found == Some(p)
    ensures found.None? <==> tag !in TagsOf(points)
  {
    UniqueUnderReordering(points, planned);
    forall p | p in points && p.tag == tag ensures found == Some(p) {
      assert p in multiset(planned);
      assert p in planned && found.Some?;
    }
    if tag in TagsOf(points) {
      var i :| 0 <= i < |points| && points[i].tag == tag;
      assert points[i] in points;
    }
    if found.Some? {
      assert found.value in multiset(points);
    }
  }

  function Action(target: Point, value: WriteValue): WriteAction
    requires WellTyped(value)
  {
    match value
    case U16Value(u) =>
      if target.regType == HoldingReg then SingleRegister(target.address, u) else Refused(TypeMismatch)
    case I16Value(i) =>
      if target.regType == HoldingReg then SingleRegister(target.address, U16(i)) else Refused(TypeMismatch)
    case IntValue(n) =>
      if target.regType != HoldingReg then Refused(TypeMismatch)
      else if n < 0 || n > 65535 then Refused(OutOfRange)
      else SingleRegister(target.address, n)
    case BoolWrite(b) =>
      if target.regType == CoilStatus then SingleCoil(target.address, if b then 0xFF00 else 0) else Refused(TypeMismatch)
    case OtherWrite => Refused(Unsupported)
  }

  /** The answer for a point with the tag, after the checks in their order; a tag
      that no point has is not found. */
  ghost predicate Answers(visit: seq<ReadChunk>, online: bool, tag: string, value: WriteValue, action: WriteAction)
    requires WellTyped(value)
  {
    && (action == Refused(TagNotFound) <==> forall p :: p in PlanPoints(visit) ==> p.tag != tag)
    && (action != Refused(TagNotFound) ==>
          exists p :: p in PlanPoints(visit) && p.tag == tag &&
            action == if p.writeable != 1 then Refused(ReadOnly) else if !online then Refused(Offline) else Action(p, value))
  }

  method WriteTag(visit: seq<ReadChunk>, online: bool, tag: string, value: WriteValue) returns (action: WriteAction)
    requires WellTyped(value)
    ensures Answers(visit, online, tag, value, action)
  {
    var found := FindPoint(visit, tag);
    if found.None? { return Refused(TagNotFound); }
    var target := found.value;
    if target.writeable != 1 { return Refused(ReadOnly); }
    if !online { return Refused(Offline); }
    return Action(target, value);
  }

  /** The device after the request; a refused write sends nothing. */
  function Perform(img: Image, a: WriteAction): Image {
    match a
    case Refused(_) => img
    case SingleRegister(address, value) => WriteRegister(img, address, value)
    case SingleCoil(address, code) => WriteCoil(img, address, code)
  }

  /** The number a value stands for, if it is one. */
  function NumberOf(v: WriteValue): Option<int> {
    match v
    case U16Value(u) => Some(u)
    case I16Value(i) => Some(i)
    case IntValue(n) => Some(n)
    case _ => None
  }

  /** Exactly which values are refused and why, and what an accepted one sends: the
      number modulo 65536 to a holding register, or a switch to a coil. */
  lemma ActionExactly(target: Point, value: WriteValue)
    requires WellTyped(value)
    ensures Action(target, value) == Refused(Unsupported) <==> value == OtherWrite
    ensures Action(target, value) == Refused(TypeMismatch) <==>
              (value.BoolWrite? && target.regType != CoilStatus) || (NumberOf(value).Some? && target.regType != HoldingReg)
    ensures Action(target, value) == Refused(OutOfRange) <==>
              value.IntValue? && target.regType == HoldingReg && !(0 <= value.n <= 0xFFFF)
    ensures Action(target, value).SingleRegister? <==>
              NumberOf(value).Some? && target.regType == HoldingReg && (value.IntValue? ==> 0 <= value.n <= 0xFFFF)
    ensures Action(target, value).SingleRegister? ==>
              var a := Action(target, value); a.address == target.address && (a.value - NumberOf(value).value) % 0x1_0000 == 0
    ensures value.BoolWrite? && target.regType == CoilStatus ==>
              Action(target, value) == SingleCoil(target.address, if value.b then 0xFF00 else 0)
    ensures Action(target, value).SingleCoil? ==> value.BoolWrite? && target.regType == CoilStatus
  {
    if value.I16Value? { assert U16(value.i) == if value.i < 0 then value.i + 0x1_0000 else value.i; }
  }
}
