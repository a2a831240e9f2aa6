/** What the import ignores, and what its messages say
    (internal/pointcsv/csv.go:19-107 and 137-147). */
module CsvMessages {
  import opened Points
  import opened Decimal
  import opened PointCsv

  // ------------------------------------------------- padding and the byte-order mark

  predicate SameFields(a: Record, b: Record) {
    |a| == |b| && forall i :: 0 <= i < |a| ==> TrimSpace(a[i]) == TrimSpace(b[i])
  }

  /** The same header, apart from white space around its fields and one
      byte-order mark at its very beginning. */
  predicate SameHeader(a: Record, b: Record) {
    && |a| == |b|
    && (a != [] ==> TrimSpace(TrimBom(a[0])) == TrimSpace(TrimBom(b[0])))
    && forall i :: 1 <= i < |a| ==> TrimSpace(a[i]) == TrimSpace(b[i])
  }

  ghost predicate SameDocument(a: seq<Record>, b: seq<Record>) {
    && |a| == |b|
    && (a != [] ==> SameHeader(a[0], b[0]))
    && forall i :: 1 <= i < |a| ==> SameFields(a[i], b[i])
  }

  lemma SameParsed(a: Record, b: Record)
    requires SameFields(a, b) && |a| == 8
    ensures ParseRecord(a) == ParseRecord(b)
  {
    hide TrimSpace;
  }

  ghost predicate SameRows(a: seq<Record>, b: seq<Record>) {
    |a| == |b| && forall i :: 0 <= i < |a| ==> SameFields(a[i], b[i])
  }

  lemma {:induction false} SameRowErrors(a: seq<Record>, b: seq<Record>, i: nat)
    requires SameRows(a, b) && i < |a|
    ensures RowErrors(a, i) == RowErrors(b, i) && (Taken(a, i) <==> Taken(b, i))
    decreases i, 0
  {
    assert SameFields(a[i], b[i]);
    if |a[i]| == 8 {
      SameParsed(a[i], b[i]);
      var tag := ParseRecord(a[i]).point.tag;
      forall j | 0 <= j < i ensures TakenAs(a, j, tag) <==> TakenAs(b, j, tag) {
        SameTakenAs(a, b, j, tag);
      }
      hide ParseRecord, SameFields, TakenAs;
      assert Repeats(a, i) <==> Repeats(b, i);
    }
  }

  lemma {:induction false} SameTakenAs(a: seq<Record>, b: seq<Record>, j: nat, tag: string)
    requires SameRows(a, b) && j < |a|
    ensures TakenAs(a, j, tag) <==> TakenAs(b, j, tag)
    decreases j, 1
  {
    SameRowErrors(a, b, j);
    assert SameFields(a[j], b[j]);
    if Taken(a, j) { SameParsed(a[j], b[j]); }
    hide ParseRecord, SameFields, RowErrors, Taken;
  }

  lemma {:induction false} SameErrors(a: seq<Record>, b: seq<Record>, n: nat)
    requires SameRows(a, b) && n <= |a|
    ensures AllErrors(a, n) == AllErrors(b, n)
  {
    hide RowErrors, SameFields;
    if n == 0 {
    } else {
      SameErrors(a, b, n - 1);
      SameRowErrors(a, b, n - 1);
    }
  }

  lemma SameReads(a: seq<Record>, b: seq<Record>, points: seq<Point>)
    requires SameRows(a, b) && Reads(a, points)
    ensures Reads(b, points)
  {
    hide ParseRecord, SameFields;
    forall i | 0 <= i < |b| ensures |b[i]| == 8 && points[i] == ParseRecord(b[i]).point {
      assert SameFields(a[i], b[i]);
      SameLength(a[i], b[i]);
      SameParsed(a[i], b[i]);
    }
  }

  lemma SameLength(a: Record, b: Record)
    requires SameFields(a, b)
    ensures |a| == |b|
  {
  }

  lemma HeaderIgnoresPadding(a: Record, b: Record)
    requires SameHeader(a, b)
    ensures HeaderMatches(a) <==> HeaderMatches(b)
  {
    hide TrimSpace, TrimBom;
  }

  lemma ReadsUnique(rows: seq<Record>, a: seq<Point>, b: seq<Point>)
    requires Reads(rows, a) && Reads(rows, b)
    ensures a == b
  {
    hide ParseRecord;
  }

  /** White space around fields and a byte-order mark change nothing: neither
      whether a document is accepted, nor the points, nor any message. */
  lemma PaddingIgnored(a: seq<Record>, b: seq<Record>, resultA: Result, resultB: Result)
    requires SameDocument(a, b) && ResultOf(a, resultA) && ResultOf(b, resultB)
    ensures resultA == resultB
  {
    hide HeaderMatches, Importable, Reads, AllErrors, SameHeader, SameFields;
    if a != [] {
      HeaderIgnoresPadding(a[0], b[0]);
      assert SameRows(a[1..], b[1..]);
      SameErrors(a[1..], b[1..], |a| - 1);
      NoErrorsMeansImportable(a[1..]);
      NoErrorsMeansImportable(b[1..]);
      if HeaderMatches(a[0]) && resultA.Accepted? {
        SameReads(a[1..], b[1..], resultA.points);
        ReadsUnique(b[1..], resultA.points, resultB.points);
      }
    }
  }

  /** A field with white space around it, and a document that begins with a
      byte-order mark, are such cases. */
  lemma PaddedField(left: string, field: string, right: string)
    requires AllSpace(left) && AllSpace(right)
    ensures TrimSpace(left + field + right) == TrimSpace(field)
    ensures TrimBom([BOM] + field) == field
  {
    hide IsSpace;
    var s, t := left + field + right, TrimSpace(field);
    TrimSpaceIs(field, t);
    var i, j :| 0 <= i <= j <= |field| && PaddedAt(field, t, i, j);
    assert s[..|left| + i] == left + field[..i];
    assert s[|left| + j..] == field[j..] + right;
    assert s[|left| + i..|left| + j] == field[i..j];
    assert PaddedAt(s, t, |left| + i, |left| + j);
    TrimSpaceIs(s, t);
  }

  /** Exactly these headers are accepted: the eight names in their order, with
      white space around them and perhaps a byte-order mark in front. */
  lemma AcceptedHeaders(h: Record)
    ensures HeaderMatches(h) <==>
              |h| == 8 && forall i :: 0 <= i < 8 ==> PaddedAs(if i == 0 then TrimBom(h[0]) else h[i], HEADER[i])
  {
    hide PaddedAs, TrimSpace, TrimBom;
    NamesAreTrimmed();
    if |h| == 8 {
      forall i | 0 <= i < 8 {
        TrimSpaceIs(if i == 0 then TrimBom(h[0]) else h[i], HEADER[i]);
      }
    }
  }

  lemma NamesAreTrimmed()
    ensures forall i :: 0 <= i < 8 ==> Trimmed(HEADER[i])
  {
  }

  // ------------------------------------------------- what the messages say

  /** Each message names the row it is about, counting the header as row 1, and
      every message of a row is there. */
  lemma {:induction false} MessagesNameTheirRow(rows: seq<Record>, n: nat, e: RowError)
    requires n <= |rows|
    ensures e in AllErrors(rows, n) <==> 2 <= e.row <= n + 1 && e.error in RowErrors(rows, e.row - 2)
  {
    hide RowErrors, Numbered;
    if n == 0 {
    } else {
      MessagesNameTheirRow(rows, n - 1, e);
      NumberedMembers(n + 1, RowErrors(rows, n - 1), e);
    }
  }

  lemma NumberedMembers(row: nat, errors: seq<FieldError>, e: RowError)
    ensures e in Numbered(row, errors) <==> e.row == row && e.error in errors
  {
    if e.row == row && e.error in errors {
      var k :| 0 <= k < |errors| && errors[k] == e.error;
      assert Numbered(row, errors)[k] == e;
    }
  }

  /** The tag of the row was taken from an earlier one. */
  ghost predicate TagTakenBefore(rows: seq<Record>, i: nat)
    requires i < |rows| && |rows[i]| == 8
  {
    var tag := ParseRecord(rows[i]).point.tag;
    tag != "" && exists j :: 0 <= j < i && TakenAs(rows, j, tag)
  }

  predicate WriteableText(s: string) { Atoi(TrimSpace(s)) == Some(0) || Atoi(TrimSpace(s)) == Some(1) }

  /** The columns Address, BitOffset, BitLen and Writeable can all be read. */
  predicate NumbersRead(record: Record)
    requires |record| == 8
  {
    && ParseUint16(TrimSpace(record[2])).Some? && Atoi(TrimSpace(record[4])).Some?
    && Atoi(TrimSpace(record[5])).Some? && WriteableText(record[6])
  }

  /** The messages a record gets on its own: each number that cannot be read, or,
      once all can be, what the validator says. */
  predicate RecordDeserves(record: Record, e: FieldError)
    requires |record| == 8
  {
    match e
    case BadAddress => ParseUint16(TrimSpace(record[2])).None?
    case BadBitOffset => Atoi(TrimSpace(record[4])).None?
    case BadBitLen => Atoi(TrimSpace(record[5])).None?
    case BadWriteable => !WriteableText(record[6])
    case _ => NumbersRead(record) && Deserves(ParseRecord(record).point, e)
  }

  lemma NumberColumns()
    ensures HEADER[2] == "Address" && HEADER[4] == "BitOffset" && HEADER[5] == "BitLen" && HEADER[6] == "Writeable"
  {
  }

  lemma RecordMessages(record: Record, e: FieldError)
    requires |record| == 8
    ensures e in ParseRecord(record).errors <==> RecordDeserves(record, e)
  {
    hide ParseUint16, Atoi, TrimSpace, ValidatePoint, ValidTagName;
    ValidatorMessages(ParseRecord(record).point, e);
    if NumbersRead(record) {
      hide Deserves;
      NoneUnread(record, e);
    } else {
      SomeUnread(record, e);
    }
  }

  lemma NoneUnread(record: Record, e: FieldError)
    requires |record| == 8 && NumbersRead(record)
    ensures ParseRecord(record).errors == ValidatePoint(ParseRecord(record).point)
    ensures e.BadWriteable? || e.BadAddress? || e.BadBitOffset? || e.BadBitLen? ==> !Deserves(ParseRecord(record).point, e)
  {
    hide ParseUint16, Atoi, TrimSpace, ValidatePoint, ValidTagName;
  }

  lemma SomeUnread(record: Record, e: FieldError)
    requires |record| == 8 && !NumbersRead(record)
    ensures e in ParseRecord(record).errors <==> RecordDeserves(record, e)
  {
    hide ParseUint16, Atoi, TrimSpace, ValidatePoint, Deserves, ErrorIf, WriteableText, ValidTagName;
    UnreadErrors(record);
    ErrorOrNone();
    hide ParseRecord;
  }

  lemma UnreadErrors(record: Record)
    requires |record| == 8 && !NumbersRead(record)
    ensures ParseRecord(record).errors ==
              ErrorIf(ParseUint16(TrimSpace(record[2])).None?, BadAddress) + ErrorIf(Atoi(TrimSpace(record[4])).None?, BadBitOffset)
              + ErrorIf(Atoi(TrimSpace(record[5])).None?, BadBitLen) + ErrorIf(!WriteableText(record[6]), BadWriteable)
  {
    hide ParseUint16, Atoi, TrimSpace, ValidatePoint, ValidTagName;
  }

  /** Exactly which messages a row gets: a wrong number of columns alone; or those
      of its record, and a tag taken before. */
  lemma RowMessages(rows: seq<Record>, i: nat, e: FieldError)
    requires i < |rows|
    ensures |rows[i]| != 8 ==> (e in RowErrors(rows, i) <==> e == WrongColumnCount)
    ensures |rows[i]| == 8 ==>
              (e in RowErrors(rows, i) <==> if e == DuplicateTag then TagTakenBefore(rows, i) else RecordDeserves(rows[i], e))
  {
    hide ParseRecord, RowErrors, RecordDeserves, TagTakenBefore;
    RowErrorsIs(rows, i);
    if |rows[i]| == 8 {
      RecordMessages(rows[i], e);
      NotOfTheRecord(rows[i]);
      if TagTakenBefore(rows, i) { LastError(ParseRecord(rows[i]).errors, e); }
    }
  }

  lemma LastError(errors: seq<FieldError>, e: FieldError)
    ensures e in errors + [DuplicateTag] <==> e in errors || e == DuplicateTag
  {
  }

  lemma RowErrorsIs(rows: seq<Record>, i: nat)
    requires i < |rows|
    ensures |rows[i]| != 8 ==> RowErrors(rows, i) == [WrongColumnCount]
    ensures |rows[i]| == 8 ==>
              RowErrors(rows, i) == ParseRecord(rows[i]).errors + if TagTakenBefore(rows, i) then [DuplicateTag] else []
  {
    hide ParseRecord, Taken, TakenAs;
    if |rows[i]| == 8 {
      assert Repeats(rows, i) <==> TagTakenBefore(rows, i);
    }
  }

  lemma NotOfTheRecord(record: Record)
    requires |record| == 8
    ensures !RecordDeserves(record, DuplicateTag) && !RecordDeserves(record, WrongColumnCount)
  {
    hide ParseRecord;
  }
}
