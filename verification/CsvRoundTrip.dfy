/** Export in canonical order, and what importing an export gives back
    (internal/pointcsv/csv.go:109-135 against 19-107). */
module CsvRoundTrip {
  import opened Points
  import opened Reordering
  import opened Decimal
  import opened PointCsv

  // ------------------------------------------------- the canonical order

  predicate StringLess(a: string, b: string) {
    b != [] && (a == [] || a[0] < b[0] || (a[0] == b[0] && StringLess(a[1..], b[1..])))
  }

  predicate PointLess(p: Point, q: Point) {
    if RegName(p.regType) != RegName(q.regType) then StringLess(RegName(p.regType), RegName(q.regType))
    else if p.address != q.address then p.address < q.address
    else StringLess(p.tag, q.tag)
  }

  ghost predicate Ordered(points: seq<Point>) {
    forall i, j :: 0 <= i < j < |points| ==> !PointLess(points[j], points[i])
  }

  ghost predicate ExportOrder(points: seq<Point>, ordered: seq<Point>) {
    multiset(ordered) == multiset(points) && Ordered(ordered)
  }

  lemma {:induction false} StringOrder(a: string, b: string)
    ensures !(StringLess(a, b) && StringLess(b, a))
    ensures !StringLess(a, b) && !StringLess(b, a) <==> a == b
  {
    if a == [] || b == [] {
    } else {
      StringOrder(a[1..], b[1..]);
      assert a == [a[0]] + a[1..] && b == [b[0]] + b[1..];
    }
  }

  lemma {:induction false} StringTransitive(a: string, b: string, c: string)
    requires StringLess(a, b) && StringLess(b, c)
    ensures StringLess(a, c)
  {
    if a == [] || a[0] < b[0] || b[0] < c[0] {
    } else {
      StringTransitive(a[1..], b[1..], c[1..]);
    }
  }

  /** The comparison is a total order on (register type, address, tag). */
  lemma PointOrder(p: Point, q: Point)
    ensures !(PointLess(p, q) && PointLess(q, p))
    ensures !PointLess(p, q) && !PointLess(q, p) ==> p.tag == q.tag
    ensures p == q ==> !PointLess(p, q)
  {
    StringOrder(RegName(p.regType), RegName(q.regType));
    StringOrder(p.tag, q.tag);
  }

  lemma PointTransitive(p: Point, q: Point, r: Point)
    requires !PointLess(q, p) && !PointLess(r, q)
    ensures !PointLess(r, p)
  {
    NotLessTransitive(RegName(p.regType), RegName(q.regType), RegName(r.regType));
    NotLessTransitive(p.tag, q.tag, r.tag);
    StringOrder(RegName(p.regType), RegName(r.regType));
    StringOrder(RegName(p.regType), RegName(q.regType));
    StringOrder(RegName(q.regType), RegName(r.regType));
  }

  lemma NotLessTransitive(a: string, b: string, c: string)
    ensures !StringLess(b, a) && !StringLess(c, b) ==> !StringLess(c, a)
  {
    StringOrder(a, b);
    StringOrder(b, c);
    if !StringLess(b, a) && !StringLess(c, b) && StringLess(c, a) {
      if a == b || b == c { assert false; } else { StringTransitive(a, b, c); StringOrder(a, c); }
    }
  }

  /** a and b agree up to k, where a ends or has the smaller character. */
  predicate LessAt(a: string, b: string, k: nat) {
    k <= |a| && k < |b| && a[..k] == b[..k] && (k < |a| ==> a[k] < b[k])
  }

  /** The comparison of names and tags is lexicographic. */
  lemma {:induction false} Lexicographic(a: string, b: string)
    ensures StringLess(a, b) <==> exists k: nat :: LessAt(a, b, k)
  {
    if b == [] {
    } else if a == [] || a[0] < b[0] {
      assert LessAt(a, b, 0);
    } else if b[0] < a[0] {
      forall k: nat ensures !LessAt(a, b, k) {
        FirstAgrees(a, b, k);
      }
    } else {
      Lexicographic(a[1..], b[1..]);
      if k: nat :| LessAt(a[1..], b[1..], k) {
        TailLess(a, b, k);
        assert LessAt(a, b, k + 1);
      }
      if k: nat :| LessAt(a, b, k) {
        assert k > 0;
        TailLess(a, b, k - 1);
        assert LessAt(a[1..], b[1..], k - 1);
      }
    }
  }

  lemma FirstAgrees(a: string, b: string, k: nat)
    requires a != [] && b != []
    ensures LessAt(a, b, k) ==> a[0] == b[0] || (k == 0 && a[0] < b[0])
  {
    if LessAt(a, b, k) && k > 0 { assert a[..k][0] == b[..k][0]; }
  }

  lemma TailLess(a: string, b: string, k: nat)
    requires a != [] && b != [] && a[0] == b[0]
    ensures LessAt(a, b, k + 1) <==> LessAt(a[1..], b[1..], k)
  {
    if k + 1 <= |a| && k + 1 < |b| {
      assert a[..k + 1] == [a[0]] + a[1..][..k] && b[..k + 1] == [b[0]] + b[1..][..k];
      if a[..k + 1] == b[..k + 1] { assert a[1..][..k] == a[..k + 1][1..] && b[1..][..k] == b[..k + 1][1..]; }
    }
  }

  /** The alphabetical place of a register type. */
  function Place(r: RegType): nat {
    match r case CoilStatus => 0 case HoldingReg => 1 case InputReg => 2 case _ => 3
  }

  lemma NamesAscend(q: RegType, r: RegType)
    requires !q.OtherReg? && !r.OtherReg? && Place(q) < Place(r)
    ensures StringLess(RegName(q), RegName(r)) && RegName(q) != RegName(r)
  {
    var a, b := RegName(q), RegName(r);
    Lexicographic(a, b);
    if q == InputReg {
      assert LessAt(a, b, 5);
    } else {
      assert LessAt(a, b, 0);
    }
  }

  /** What an export looks like: coils, holding registers, input registers,
      discrete inputs; ascending addresses within one type; ascending tags at one
      address. */
  lemma ExportAscends(points: seq<Point>, ordered: seq<Point>, i: nat, j: nat)
    requires ExportOrder(points, ordered) && i < j < |ordered|
    requires !ordered[i].regType.OtherReg? && !ordered[j].regType.OtherReg?
    ensures var p, q := ordered[i], ordered[j];
      && Place(p.regType) <= Place(q.regType)
      && (p.regType == q.regType ==> p.address <= q.address)
      && (p.regType == q.regType && p.address == q.address ==> !exists k: nat :: LessAt(q.tag, p.tag, k))
  {
    var p, q := ordered[i], ordered[j];
    hide StringLess, LessAt, RegName, Place;
    assert !PointLess(q, p);
    if Place(q.regType) < Place(p.regType) { NamesAscend(q.regType, p.regType); }
    Lexicographic(q.tag, p.tag);
  }

  /** Points with unique tags have one canonical order. */
  lemma {:induction false} OneOrder(s: seq<Point>, t: seq<Point>)
    requires multiset(s) == multiset(t) && Ordered(s) && Ordered(t) && UniqueTags(s)
    ensures s == t
  {
    hide PointLess;
    assert |s| == |multiset(s)| == |multiset(t)| == |t|;
    if s == [] {
    } else {
      FirstIsLeast(s, t[0]) by { assert t[0] in multiset(t); }
      FirstIsLeast(t, s[0]) by { assert s[0] in multiset(s); }
      PointOrder(s[0], t[0]);
      SameTagSamePoint(s, t[0]);
      TailMultiset(s);
      TailMultiset(t);
      OneOrder(s[1..], t[1..]);
    }
  }

  lemma TailMultiset(s: seq<Point>)
    requires s != []
    ensures s == [s[0]] + s[1..] && multiset(s[1..]) == multiset(s) - multiset{s[0]}
  {
    assert s == [s[0]] + s[1..];
  }

  lemma FirstIsLeast(s: seq<Point>, p: Point)
    requires p in multiset(s) && Ordered(s)
    ensures !PointLess(p, s[0])
  {
    var k :| 0 <= k < |s| && s[k] == p;
    PointOrder(p, p);
  }

  lemma SameTagSamePoint(s: seq<Point>, p: Point)
    requires p in multiset(s) && s[0].tag == p.tag && UniqueTags(s)
    ensures p == s[0]
  {
    var k :| 0 <= k < |s| && s[k] == p;
  }

  // ------------------------------------------------- writing

  function Rows(points: seq<Point>): seq<Record> {
    seq(|points|, i requires 0 <= i < |points| => FormatPoint(points[i]))
  }

  function Document(points: seq<Point>): seq<Record> { [HEADER] + Rows(points) }

  lemma InsertKeepsOrder(ordered: seq<Point>, k: nat, p: Point)
    requires k <= |ordered| && Ordered(ordered)
    requires k > 0 ==> !PointLess(p, ordered[k - 1])
    requires k < |ordered| ==> !PointLess(ordered[k], p)
    ensures Ordered(ordered[..k] + [p] + ordered[k..])
    ensures multiset(ordered[..k] + [p] + ordered[k..]) == multiset(ordered) + multiset{p}
  {
    hide PointLess;
    InsertMultiset(ordered, k, p);
    forall i | 0 <= i < k ensures !PointLess(p, ordered[i]) {
      PointOrder(ordered[i], ordered[k - 1]);
      if i < k - 1 { PointTransitive(ordered[i], ordered[k - 1], p); }
    }
    forall j | k <= j < |ordered| ensures !PointLess(ordered[j], p) {
      if k < j { PointTransitive(p, ordered[k], ordered[j]); }
    }
    var all := ordered[..k] + [p] + ordered[k..];
    forall i, j | 0 <= i < j < |all| ensures !PointLess(all[j], all[i]) {
      assert all[i] == if i < k then ordered[i] else if i == k then p else ordered[i - 1];
      assert all[j] == if j < k then ordered[j] else if j == k then p else ordered[j - 1];
    }
  }

  lemma InsertMultiset(ordered: seq<Point>, k: nat, p: Point)
    requires k <= |ordered|
    ensures multiset(ordered[..k] + [p] + ordered[k..]) == multiset(ordered) + multiset{p}
  {
    assert ordered == ordered[..k] + ordered[k..];
  }

  /** The copied list, sorted. */
  method SortForExport(points: seq<Point>) returns (ordered: seq<Point>)
    ensures ExportOrder(points, ordered)
  {
    hide PointLess;
    ordered := [];
    for n := 0 to |points|
      invariant ExportOrder(points[..n], ordered)
    {
      hide Ordered;
      var k := |ordered|;
      while k > 0 && PointLess(points[n], ordered[k - 1])
        invariant 0 <= k <= |ordered|
        invariant k < |ordered| ==> !PointLess(ordered[k], points[n])
      {
        PointOrder(points[n], ordered[k - 1]);
        k := k - 1;
      }
      InsertKeepsOrder(ordered, k, points[n]);
      assert points[..n + 1] == points[..n] + [points[n]];
      ordered := ordered[..k] + [points[n]] + ordered[k..];
    }
    assert points[..|points|] == points;
  }

  method Write(points: seq<Point>) returns (records: seq<Record>)
    ensures exists ordered :: ExportOrder(points, ordered) && records == Document(ordered)
  {
    var ordered := SortForExport(points);
    records := [HEADER];
    for i := 0 to |ordered|
      invariant records == [HEADER] + Rows(ordered)[..i]
    {
      records := records + [FormatPoint(ordered[i])];
    }
    assert records == Document(ordered);
  }

  // ------------------------------------------------- writing, then reading

  /** The text of the field that a column is named after. */
  function FieldText(p: Point, column: string): string {
    if column == "TagName" then p.tag
    else if column == "RegType" then RegName(p.regType)
    else if column == "Address" then Itoa(p.address)
    else if column == "DataType" then DataName(p.dataType)
    else if column == "BitOffset" then Itoa(p.bitOffset)
    else if column == "BitLen" then Itoa(p.bitLen)
    else if column == "Writeable" then Itoa(p.writeable)
    else if column == "Description" then p.description
    else ""
  }

  /** Every column holds what its header says. */
  lemma ColumnsFollowHeader(p: Point, k: nat)
    requires k < |HEADER|
    ensures |FormatPoint(p)| == |HEADER| && FormatPoint(p)[k] == FieldText(p, HEADER[k])
  {
  }

  lemma TypeNames(r: RegType, d: DataType)
    requires !r.OtherReg? && !d.OtherData?
    ensures RegTypeOf(TrimSpace(RegName(r))) == r && DataTypeOf(TrimSpace(DataName(d))) == d
  {
    hide TrimSpace;
    TrimSpaceFixpoint(RegName(r));
    TrimSpaceFixpoint(DataName(d));
  }

  lemma TagIsTrimmed(tag: string)
    requires ValidTagName(tag)
    ensures TrimSpace(tag) == tag
  {
    TrimSpaceFixpoint(tag);
  }

  /** One record: reading undoes writing exactly for the valid points whose
      description carries no surrounding space. */
  lemma RecordRoundTrip(p: Point)
    ensures ParseRecord(FormatPoint(p)) == Parsed(p, []) <==> Valid(p) && Trimmed(p.description)
  {
    TrimSpaceFixpoint(p.description);
    hide Valid, ValidatePoint, TrimSpace, FormatUint, Itoa, Atoi, ParseUint16, RegTypeOf, DataTypeOf, RegName, DataName;
    NumberFields(p);
    if Valid(p) && Trimmed(p.description) {
      ValidPoint(p);
      TypeNames(p.regType, p.dataType);
      TagIsTrimmed(p.tag);
      assert ValidatePoint(p) == [] by { NoErrors(p); }
    }
    if ParseRecord(FormatPoint(p)) == Parsed(p, []) {
      CleanHasTag(FormatPoint(p));
    }
  }

  lemma NoErrors(p: Point)
    requires Valid(p)
    ensures ValidatePoint(p) == []
  {
  }

  lemma NumberFields(p: Point)
    ensures ParseUint16(TrimSpace(FormatUint(p.address))) == Some(p.address)
    ensures Atoi(TrimSpace(Itoa(p.bitOffset))) == Some(p.bitOffset)
    ensures Atoi(TrimSpace(Itoa(p.bitLen))) == Some(p.bitLen)
    ensures Atoi(TrimSpace(Itoa(p.writeable))) == Some(p.writeable)
  {
    NumbersAreTrimmed(p.address);
    NumbersAreTrimmed(p.bitOffset);
    NumbersAreTrimmed(p.bitLen);
    NumbersAreTrimmed(p.writeable);
    UintRoundTrip(p.address, "");
    IntRoundTrip(p.bitOffset);
    IntRoundTrip(p.bitLen);
    IntRoundTrip(p.writeable);
  }

  /** The point lists that survive an export and import. */
  ghost predicate Exportable(points: seq<Point>) {
    && points != [] && AllValid(points) && UniqueTags(points)
    && forall i :: 0 <= i < |points| ==> Trimmed(points[i].description)
  }

  lemma RowsRoundTrip(o: seq<Point>)
    ensures Importable(Rows(o)) && Reads(Rows(o), o) <==> Exportable(o)
  {
    hide ParseRecord, FormatPoint, Valid, Trimmed;
    var rows := Rows(o);
    forall i | 0 <= i < |o|
      ensures |rows[i]| == 8
      ensures ParseRecord(rows[i]) == Parsed(o[i], []) <==> Valid(o[i]) && Trimmed(o[i].description)
    {
      EightColumns(o[i]);
      RecordRoundTrip(o[i]);
    }
    if Importable(rows) && Reads(rows, o) {
      forall i | 0 <= i < |o| ensures Valid(o[i]) && Trimmed(o[i].description) {
        assert ParseRecord(rows[i]).errors == [] && ParseRecord(rows[i]).point == o[i];
      }
      forall i, j | 0 <= i < j < |o| ensures o[i].tag != o[j].tag {
        assert ParseRecord(rows[i]).point.tag != ParseRecord(rows[j]).point.tag;
      }
    }
    if Exportable(o) {
      forall i | 0 <= i < |o| ensures ParseRecord(rows[i]) == Parsed(o[i], []) {
        assert Valid(o[i]) && Trimmed(o[i].description);
      }
    }
  }

  lemma EightColumns(p: Point)
    ensures |FormatPoint(p)| == 8
  {
  }

  lemma HeaderReads()
    ensures HeaderMatches(HEADER)
  {
    assert TrimBom(HEADER[0]) == HEADER[0];
    forall i | 0 <= i < 8 ensures TrimSpace(HEADER[i]) == HEADER[i] {
      TrimSpaceFixpoint(HEADER[i]);
    }
  }

  lemma SamePoints(points: seq<Point>, o: seq<Point>)
    requires multiset(points) == multiset(o)
    ensures Exportable(points) ==> Exportable(o)
  {
    hide Valid, Trimmed;
    assert |points| == |multiset(points)| == |multiset(o)| == |o|;
    if Exportable(points) {
      forall i | 0 <= i < |o| ensures Valid(o[i]) && Trimmed(o[i].description) {
        assert o[i] in multiset(o);
        var k :| 0 <= k < |points| && points[k] == o[i];
      }
      UniqueUnderReordering(points, o);
    }
  }

  /** The law of the format: an export can be imported again and gives back the
      exported points, in canonical order, exactly when the list is not empty and
      its points are valid, uniquely tagged and without stray spaces. */
  lemma RoundTrip(points: seq<Point>, o: seq<Point>)
    requires ExportOrder(points, o)
    ensures HeaderMatches(Document(o)[0]) && Document(o)[1..] == Rows(o)
    ensures Importable(Rows(o)) && Reads(Rows(o), o) <==> Exportable(points)
  {
    HeaderReads();
    RowsRoundTrip(o);
    SamePoints(points, o);
    SamePoints(o, points);
  }

  /** Whatever was imported is exportable, so it survives every later round. */
  lemma ImportsAreExportable(rows: seq<Record>, points: seq<Point>)
    requires Importable(rows) && Reads(rows, points)
    ensures Exportable(points)
  {
    hide ParseRecord, Valid, Trimmed;
    forall i | 0 <= i < |points| ensures Valid(points[i]) && Trimmed(points[i].description) {
      assert ParseRecord(rows[i]).errors == [];
      CleanHasTag(rows[i]);
      DescriptionIsTrimmed(rows[i]);
    }
    forall i, j | 0 <= i < j < |points| ensures points[i].tag != points[j].tag {
      assert ParseRecord(rows[i]).point.tag != ParseRecord(rows[j]).point.tag;
    }
  }

  lemma DescriptionIsTrimmed(record: Record)
    requires |record| == 8
    ensures Trimmed(ParseRecord(record).point.description)
  {
    TrimSpaceFixpoint(record[7]);
  }

  /** Exporting what was imported from an export writes the same records. */
  lemma ExportIsStable(points: seq<Point>, o: seq<Point>, back: seq<Point>, again: seq<Point>)
    requires Exportable(points) && ExportOrder(points, o)
    requires Reads(Document(o)[1..], back) && ExportOrder(back, again)
    ensures back == o && Document(again) == Document(o)
  {
    hide ParseRecord, FormatPoint, Valid, Trimmed;
    RoundTrip(points, o);
    ReadsOne(Rows(o), o, back);
    SamePoints(points, o);
    OneOrder(o, again);
  }

  lemma ReadsOne(rows: seq<Record>, a: seq<Point>, b: seq<Point>)
    requires Reads(rows, a) && Reads(rows, b)
    ensures a == b
  {
    hide ParseRecord;
  }

  /** Names of types, known or not, survive reading and writing. */
  lemma NamesRoundTrip(s: string)
    ensures RegName(RegTypeOf(s)) == s && DataName(DataTypeOf(s)) == s
  {
  }
}
