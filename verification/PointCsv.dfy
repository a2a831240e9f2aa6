/** Point CSV import and export at the level of records
    (internal/pointcsv/csv.go). */
module PointCsv {
  import opened Points
  import opened Decimal

  type Record = seq<string>

  const HEADER: Record := ["TagName", "RegType", "Address", "DataType", "BitOffset", "BitLen", "Writeable", "Description"]

  const BOM: char := '\U{FEFF}'

  datatype RowError = RowError(row: nat, error: FieldError)

  datatype Failure = MissingHeader | BadHeader | NoPoints

  datatype Result = Accepted(points: seq<Point>) | Rejected(errors: seq<RowError>) | Unreadable(failure: Failure)

  // ------------------------------------------------- names of the types

  function RegTypeOf(s: string): RegType {
    if s == "HoldingReg" then HoldingReg else if s == "InputReg" then InputReg
    else if s == "CoilStatus" then CoilStatus else if s == "InputStatus" then InputStatus
    else OtherReg(s)
  }

  function RegName(r: RegType): string {
    match r
    case HoldingReg => "HoldingReg"
    case InputReg => "InputReg"
    case CoilStatus => "CoilStatus"
    case InputStatus => "InputStatus"
    case OtherReg(name) => name
  }

  function DataTypeOf(s: string): DataType {
    if s == "Bool" then Bool else if s == "Int16" then Int16 else if s == "UInt16" then UInt16
    else if s == "Int32" then Int32 else if s == "UInt32" then UInt32 else if s == "Float32" then Float32
    else if s == "Double" then Double else OtherData(s)
  }

  function DataName(d: DataType): string {
    match d
    case Bool => "Bool"
    case Int16 => "Int16"
    case UInt16 => "UInt16"
    case Int32 => "Int32"
    case UInt32 => "UInt32"
    case Float32 => "Float32"
    case Double => "Double"
    case OtherData(name) => name
  }

  // ------------------------------------------------- one record

  datatype Parsed = Parsed(point: Point, errors: seq<FieldError>)

  function OrZero(v: Option<i64>): i64 { if v.Some? then v.value else 0 }

  /** A field that does not parse stays zero; the validator is consulted only when
      every field parsed. */
  function ParseRecord(record: Record): Parsed
    requires |record| == 8
  {
    var address := ParseUint16(TrimSpace(record[2]));
    var bitOffset := Atoi(TrimSpace(record[4]));
    var bitLen := Atoi(TrimSpace(record[5]));
    var writeable := Atoi(TrimSpace(record[6]));
    var writeableOk := writeable == Some(0) || writeable == Some(1);
    var point := Point(
      TrimSpace(record[0]), TrimSpace(record[7]), RegTypeOf(TrimSpace(record[1])),
      if address.Some? then address.value else 0, DataTypeOf(TrimSpace(record[3])),
      OrZero(bitOffset), OrZero(bitLen), if writeableOk then writeable.value else 0);
    var errors :=
      ErrorIf(address.None?, BadAddress) + ErrorIf(bitOffset.None?, BadBitOffset)
      + ErrorIf(bitLen.None?, BadBitLen) + ErrorIf(!writeableOk, BadWriteable);
    Parsed(point, if errors == [] then ValidatePoint(point) else errors)
  }

  function FormatPoint(p: Point): Record {
    [p.tag, RegName(p.regType), FormatUint(p.address), DataName(p.dataType), Itoa(p.bitOffset), Itoa(p.bitLen),
     Itoa(p.writeable), p.description]
  }

  // ------------------------------------------------- reading a document

  function TrimBom(s: string): string { if s != [] && s[0] == BOM then s[1..] else s }

  predicate HeaderMatches(header: Record) {
    && |header| == 8
    && TrimSpace(TrimBom(header[0])) == HEADER[0]
    && forall i :: 1 <= i < 8 ==> TrimSpace(header[i]) == HEADER[i]
  }

  /** The messages for data row i: a repeated tag counts against an earlier row
      only if that row was taken. */
  ghost function RowErrors(rows: seq<Record>, i: nat): seq<FieldError>
    requires i < |rows|
    decreases i, 1
  {
    if |rows[i]| != 8 then [WrongColumnCount]
    else ParseRecord(rows[i]).errors + ErrorIf(Repeats(rows, i), DuplicateTag)
  }

  ghost predicate Repeats(rows: seq<Record>, i: nat)
    requires i < |rows| && |rows[i]| == 8
    decreases i, 0
  {
    var tag := ParseRecord(rows[i]).point.tag;
    tag != "" && exists j :: 0 <= j < i && TakenAs(rows, j, tag)
  }

  ghost predicate TakenAs(rows: seq<Record>, i: nat, tag: string)
    requires i < |rows|
    decreases i, 3
  {
    Taken(rows, i) && ParseRecord(rows[i]).point.tag == tag
  }

  ghost predicate Taken(rows: seq<Record>, i: nat)
    requires i < |rows|
    ensures Taken(rows, i) ==> |rows[i]| == 8
    decreases i, 2
  {
    RowErrors(rows, i) == []
  }

  function Numbered(row: nat, errors: seq<FieldError>): seq<RowError> {
    seq(|errors|, k requires 0 <= k < |errors| => RowError(row, errors[k]))
  }

  /** All messages for the first n data rows, with their row numbers. */
  ghost function AllErrors(rows: seq<Record>, n: nat): seq<RowError>
    requires n <= |rows|
  {
    if n == 0 then [] else AllErrors(rows, n - 1) + Numbered(n + 1, RowErrors(rows, n - 1))
  }

  /** What the import promises to accept: eight readable and valid columns in
      every row, no tag twice, and at least one row. */
  ghost predicate Importable(rows: seq<Record>) {
    && rows != []
    && (forall i :: 0 <= i < |rows| ==> |rows[i]| == 8 && ParseRecord(rows[i]).errors == [])
    && (forall i, j :: 0 <= i < j < |rows| ==> ParseRecord(rows[i]).point.tag != ParseRecord(rows[j]).point.tag)
  }

  /** Point i is what row i says. */
  ghost predicate Reads(rows: seq<Record>, points: seq<Point>) {
    && |points| == |rows|
    && forall i :: 0 <= i < |rows| ==> |rows[i]| == 8 && points[i] == ParseRecord(rows[i]).point
  }

  /** What the import answers. */
  ghost predicate ResultOf(records: seq<Record>, result: Result) {
    if records == [] then result == Unreadable(MissingHeader)
    else if !HeaderMatches(records[0]) then result == Unreadable(BadHeader)
    else
      var rows := records[1..];
      && (result.Accepted? <==> Importable(rows))
      && (result.Accepted? ==> Reads(rows, result.points))
      && (result.Rejected? ==> result.errors == AllErrors(rows, |rows|) != [])
      && (result == Unreadable(NoPoints) <==> rows == [])
      && (result.Unreadable? ==> result.failure == NoPoints)
  }

  method Parse(records: seq<Record>) returns (result: Result)
    ensures ResultOf(records, result)
  {
    hide RowErrors, AllErrors, ParseRecord, Taken, Importable, SeenTags;
    if records == [] {
      return Unreadable(MissingHeader);
    }
    if !HeaderMatches(records[0]) {
      return Unreadable(BadHeader);
    }
    var rows := records[1..];
    var points: seq<Point> := [];
    var rowErrors: seq<RowError> := [];
    var seen: set<string> := {};
    NothingRead(rows);
    for i := 0 to |rows|
      invariant rowErrors == AllErrors(rows, i)
      invariant SeenTags(rows, i, seen)
      invariant rowErrors == [] ==> TakenAll(rows, i, points)
    {
      NextErrors(rows, i);
      if |rows[i]| != 8 {
        SeenSkips(rows, i, seen);
        rowErrors := rowErrors + [RowError(i + 2, WrongColumnCount)];
        continue;
      }
      var parsed := ParseRecord(rows[i]);
      var errors := parsed.errors;
      SeenRepeats(rows, i, seen);
      if parsed.point.tag != "" && parsed.point.tag in seen {
        errors := errors + [DuplicateTag];
      }
      assert errors == RowErrors(rows, i);
      if errors == [] {
        SeenGrows(rows, i, seen);
        seen := seen + {parsed.point.tag};
        points := points + [parsed.point];
      } else {
        SeenSkips(rows, i, seen);
        rowErrors := rowErrors + Numbered(i + 2, errors);
      }
    }
    NoErrorsMeansImportable(rows);
    if rowErrors != [] {
      return Rejected(rowErrors);
    }
    if points == [] {
      return Unreadable(NoPoints);
    }
    return Accepted(points);
  }

  ghost predicate SeenTags(rows: seq<Record>, n: nat, seen: set<string>)
    requires n <= |rows|
  {
    && (forall tag :: tag in seen ==> exists j :: 0 <= j < n && TakenAs(rows, j, tag))
    && (forall j, tag :: 0 <= j < n && TakenAs(rows, j, tag) ==> tag in seen)
  }

  ghost predicate TakenAll(rows: seq<Record>, n: nat, points: seq<Point>)
    requires n <= |rows|
  {
    && |points| == n
    && forall j :: 0 <= j < n ==> Taken(rows, j) && points[j] == ParseRecord(rows[j]).point
  }

  lemma NextErrors(rows: seq<Record>, i: nat)
    requires i < |rows|
    ensures AllErrors(rows, i + 1) == AllErrors(rows, i) + Numbered(i + 2, RowErrors(rows, i))
    ensures |rows[i]| != 8 ==> Numbered(i + 2, RowErrors(rows, i)) == [RowError(i + 2, WrongColumnCount)]
    ensures RowErrors(rows, i) == [] ==> AllErrors(rows, i + 1) == AllErrors(rows, i)
    ensures Taken(rows, i) <==> RowErrors(rows, i) == []
  {
  }

  lemma NothingRead(rows: seq<Record>)
    ensures AllErrors(rows, 0) == [] && SeenTags(rows, 0, {}) && TakenAll(rows, 0, [])
  {
  }

  lemma SeenRepeats(rows: seq<Record>, i: nat, seen: set<string>)
    requires i < |rows| && |rows[i]| == 8 && SeenTags(rows, i, seen)
    ensures var p := ParseRecord(rows[i]);
      RowErrors(rows, i) == p.errors + ErrorIf(p.point.tag != "" && p.point.tag in seen, DuplicateTag)
  {
    hide ParseRecord, TakenAs;
    var tag := ParseRecord(rows[i]).point.tag;
    if tag in seen {
      var j :| 0 <= j < i && TakenAs(rows, j, tag);
    }
    assert Repeats(rows, i) <==> tag != "" && tag in seen;
  }

  /** A taken row is taken under its own tag and no other. */
  lemma OwnTag(rows: seq<Record>, i: nat, tag: string)
    requires i < |rows| && Taken(rows, i)
    ensures |rows[i]| == 8 && (TakenAs(rows, i, tag) <==> tag == ParseRecord(rows[i]).point.tag)
  {
    hide ParseRecord, RowErrors, Taken;
  }

  lemma SeenGrows(rows: seq<Record>, i: nat, seen: set<string>)
    requires i < |rows| && SeenTags(rows, i, seen) && Taken(rows, i)
    ensures SeenTags(rows, i + 1, seen + {ParseRecord(rows[i]).point.tag})
  {
    hide ParseRecord, RowErrors, Taken, TakenAs, Repeats;
    var own := ParseRecord(rows[i]).point.tag;
    OwnTag(rows, i, own);
    forall tag | tag in seen + {own} ensures exists j :: 0 <= j < i + 1 && TakenAs(rows, j, tag) {
      if tag != own {
        var j :| 0 <= j < i && TakenAs(rows, j, tag);
      }
    }
    forall j, tag | 0 <= j < i + 1 && TakenAs(rows, j, tag) ensures tag in seen + {own} {
      if j == i { OwnTag(rows, i, tag); }
    }
  }

  lemma SeenSkips(rows: seq<Record>, i: nat, seen: set<string>)
    requires i < |rows| && SeenTags(rows, i, seen) && !Taken(rows, i)
    ensures SeenTags(rows, i + 1, seen)
  {
    hide ParseRecord, RowErrors, Taken;
  }

  lemma NumberedNone(row: nat, errors: seq<FieldError>)
    ensures Numbered(row, errors) == [] <==> errors == []
  {
    assert |Numbered(row, errors)| == |errors|;
  }

  lemma {:induction false} CleanRows(rows: seq<Record>, n: nat)
    requires n <= |rows|
    ensures AllErrors(rows, n) == [] <==> forall i :: 0 <= i < n ==> Taken(rows, i)
  {
    hide RowErrors, Taken, Numbered;
    if n == 0 {
    } else {
      CleanRows(rows, n - 1);
      NumberedNone(n + 1, RowErrors(rows, n - 1));
      NextErrors(rows, n - 1);
    }
  }

  lemma TakenIs(rows: seq<Record>, i: nat)
    requires i < |rows|
    ensures Taken(rows, i) <==> |rows[i]| == 8 && ParseRecord(rows[i]).errors == [] && !Repeats(rows, i)
  {
    hide Repeats, ParseRecord;
  }

  lemma TakenNoRepeat(rows: seq<Record>, i: nat, j: nat)
    requires i < j < |rows|
    ensures Taken(rows, i) && Taken(rows, j) ==> ParseRecord(rows[i]).point.tag != ParseRecord(rows[j]).point.tag
  {
    if Taken(rows, i) && Taken(rows, j) {
      TakenIs(rows, j);
      CleanHasTag(rows[j]);
      hide ParseRecord, RowErrors, Taken;
      assert !Repeats(rows, j);
      assert TakenAs(rows, i, ParseRecord(rows[i]).point.tag);
    }
  }

  lemma AllTakenImportable(rows: seq<Record>)
    requires rows != [] && forall i :: 0 <= i < |rows| ==> Taken(rows, i)
    ensures Importable(rows)
  {
    hide ParseRecord, RowErrors, Repeats, Taken;
    forall i | 0 <= i < |rows| ensures |rows[i]| == 8 && ParseRecord(rows[i]).errors == [] {
      TakenIs(rows, i);
    }
    forall i, j | 0 <= i < j < |rows| ensures ParseRecord(rows[i]).point.tag != ParseRecord(rows[j]).point.tag {
      TakenNoRepeat(rows, i, j);
    }
  }

  lemma ImportableAllTaken(rows: seq<Record>)
    ensures Importable(rows) ==> forall i :: 0 <= i < |rows| ==> Taken(rows, i)
  {
    hide ParseRecord, RowErrors, Repeats, Taken;
    if Importable(rows) {
      forall i | 0 <= i < |rows| ensures Taken(rows, i) {
        DistinctDontRepeat(rows, i);
        TakenIs(rows, i);
      }
    }
  }

  /** No message at all means exactly an importable document. */
  lemma NoErrorsMeansImportable(rows: seq<Record>)
    ensures rows != [] && AllErrors(rows, |rows|) == [] <==> Importable(rows)
  {
    hide AllErrors, Taken;
    CleanRows(rows, |rows|);
    if Importable(rows) {
      ImportableAllTaken(rows);
    } else if rows != [] && AllErrors(rows, |rows|) == [] {
      AllTakenImportable(rows);
    }
  }

  lemma DistinctDontRepeat(rows: seq<Record>, i: nat)
    requires Importable(rows) && i < |rows|
    ensures !Repeats(rows, i)
  {
    hide ParseRecord, RowErrors, Taken;
  }

  /** A record without messages is a valid point with a tag. */
  lemma CleanHasTag(record: Record)
    requires |record| == 8
    ensures ParseRecord(record).errors == [] ==> Valid(ParseRecord(record).point) && ParseRecord(record).point.tag != ""
  {
    if ParseRecord(record).errors == [] { ValidPoint(ParseRecord(record).point); }
  }
}
