/** Point configuration: the register and data types, and the validity check
    that every other component relies on (internal/config/point_config.go). */
module Points {
  type u16 = x: int | 0 <= x < 0x1_0000
  type i64 = x: int | -0x8000_0000_0000_0000 <= x < 0x8000_0000_0000_0000

  datatype Option<+T> = None | Some(value: T)

  datatype RegType = HoldingReg | InputReg | CoilStatus | InputStatus | OtherReg(name: string)
  datatype DataType = Bool | Int16 | UInt16 | Int32 | UInt32 | Float32 | Double | OtherData(name: string)

  datatype Point = Point(
    tag: string, description: string, regType: RegType, address: u16, dataType: DataType,
    bitOffset: i64, bitLen: i64, writeable: i64)

  /** One constructor per message of the validator. */
  datatype FieldError =
    | LongDescription | BadWriteable | BadTagName | BadRegType | BadDataType
    | BitTypeNeedsBool | BitTypeWithBitFields | NegativeBits | BoolWithBitFields
    | FloatWithBitFields | BitLenRequired | BitsExceedWidth | BeyondAddressSpace | NotWriteableType
    // The CSV reader adds these.
    | BadAddress | BadBitOffset | BadBitLen | DuplicateTag | WrongColumnCount

  predicate IsRegTypeBit(r: RegType) {
    r == CoilStatus || r == InputStatus
  }

  function TypeBitWidth(d: DataType): nat {
    match d
    case Bool => 1
    case Int16 | UInt16 => 16
    case Int32 | UInt32 | Float32 => 32
    case Double => 64
    case OtherData(_) => 16
  }

  function GetRegisterCount(p: Point): (n: nat)
    ensures 1 <= n <= 4
  {
    if IsRegTypeBit(p.regType) then 1 else
    match p.dataType
    case Int32 | UInt32 | Float32 => 2
    case Double => 4
    case _ => 1
  }

  /** The last address the point occupies, without wrap-around. */
  function EndAddr(p: Point): int {
    p.address + GetRegisterCount(p) - 1
  }

  /** Reading and writing a field of no stated length: one bit at a positive
      offset, otherwise the full width of the type. */
  function EffectiveLen(p: Point): int {
    if p.bitOffset > 0 && p.bitLen == 0 then 1
    else if p.bitLen == 0 then TypeBitWidth(p.dataType)
    else p.bitLen
  }

  // ---------------------------------------------------------------- text

  predicate IsLetter(c: char) { 'A' <= c <= 'Z' || 'a' <= c <= 'z' || c == '_' }

  predicate IsDigit(c: char) { '0' <= c <= '9' }

  predicate ValidTagName(s: string) {
    |s| > 0 && IsLetter(s[0]) && forall i :: 1 <= i < |s| ==> IsLetter(s[i]) || IsDigit(s[i])
  }

  /** Unicode white space, as Go's TrimSpace sees it. */
  predicate IsSpace(c: char) {
    var n := c as int;
    9 <= n <= 13 || n == 0x20 || n == 0x85 || n == 0xA0 || n == 0x1680 || 0x2000 <= n <= 0x200A
    || n == 0x2028 || n == 0x2029 || n == 0x202F || n == 0x205F || n == 0x3000
  }

  function TrimLeft(s: string): string {
    if |s| > 0 && IsSpace(s[0]) then TrimLeft(s[1..]) else s
  }

  function TrimRight(s: string): string {
    if |s| > 0 && IsSpace(s[|s| - 1]) then TrimRight(s[..|s| - 1]) else s
  }

  function TrimSpace(s: string): string { TrimRight(TrimLeft(s)) }

  predicate Trimmed(s: string) {
    |s| > 0 ==> !IsSpace(s[0]) && !IsSpace(s[|s| - 1])
  }

  lemma {:induction false} TrimLeftFirst(s: string)
    ensures TrimLeft(s) != [] ==> !IsSpace(TrimLeft(s)[0])
  {
    if |s| == 0 || !IsSpace(s[0]) {
    } else {
      TrimLeftFirst(s[1..]);
    }
  }

  lemma {:induction false} TrimRightEnds(s: string)
    ensures TrimRight(s) <= s
    ensures TrimRight(s) != [] ==> !IsSpace(TrimRight(s)[|TrimRight(s)| - 1])
  {
    if |s| == 0 || !IsSpace(s[|s| - 1]) {
    } else {
      TrimRightEnds(s[..|s| - 1]);
    }
  }

  /** Trimming yields a trimmed text, and the trimmed texts are its fixpoints. */
  lemma TrimSpaceFixpoint(s: string)
    ensures Trimmed(TrimSpace(s))
    ensures TrimSpace(s) == s <==> Trimmed(s)
  {
    TrimLeftFirst(s);
    TrimRightEnds(TrimLeft(s));
  }

  predicate AllSpace(s: string) { forall i :: 0 <= i < |s| ==> IsSpace(s[i]) }

  /** s is t with nothing but white space around it. */
  ghost predicate PaddedAs(s: string, t: string) {
    exists i, j :: 0 <= i <= j <= |s| && PaddedAt(s, t, i, j)
  }

  ghost predicate PaddedAt(s: string, t: string, i: nat, j: nat)
    requires i <= j <= |s|
  {
    AllSpace(s[..i]) && AllSpace(s[j..]) && s[i..j] == t
  }

  lemma {:induction false} TrimLeftIs(s: string) returns (i: nat)
    ensures i <= |s| && TrimLeft(s) == s[i..] && AllSpace(s[..i])
  {
    if |s| == 0 || !IsSpace(s[0]) {
      i := 0;
    } else {
      var k := TrimLeftIs(s[1..]);
      i := k + 1;
      assert s[..i] == [s[0]] + s[1..][..k];
    }
  }

  lemma {:induction false} TrimRightIs(s: string) returns (j: nat)
    ensures j <= |s| && TrimRight(s) == s[..j] && AllSpace(s[j..])
  {
    if |s| == 0 || !IsSpace(s[|s| - 1]) {
      j := |s|;
    } else {
      var n := |s| - 1;
      j := TrimRightIs(s[..n]);
      assert s[j..] == s[..n][j..] + [s[n]];
    }
  }

  /** Trimming takes away exactly the surrounding white space. */
  lemma TrimSpaceIs(s: string, t: string)
    ensures TrimSpace(s) == t <==> Trimmed(t) && PaddedAs(s, t)
  {
    var i := TrimLeftIs(s);
    var k := TrimRightIs(s[i..]);
    TrimSpaceFixpoint(s);
    hide TrimLeft, TrimRight, IsSpace;
    assert s[i..][..k] == s[i..i + k] && s[i..][k..] == s[i + k..];
    assert PaddedAt(s, TrimSpace(s), i, i + k);
    if Trimmed(t) && PaddedAs(s, t) {
      var a, b :| 0 <= a <= b <= |s| && PaddedAt(s, t, a, b);
      OneTrimmed(s, t, a, b, TrimSpace(s), i, i + k);
    }
  }

  lemma OneTrimmed(s: string, t: string, a: nat, b: nat, u: string, i: nat, j: nat)
    requires a <= b <= |s| && PaddedAt(s, t, a, b) && Trimmed(t)
    requires i <= j <= |s| && PaddedAt(s, u, i, j) && Trimmed(u)
    ensures t == u
  {
    hide IsSpace;
    if a < b {
      assert t[0] == s[a] && t[|t| - 1] == s[b - 1];
      SpaceAround(s, i, j, a);
      SpaceAround(s, i, j, b - 1);
    }
    if i < j {
      assert u[0] == s[i] && u[|u| - 1] == s[j - 1];
      SpaceAround(s, a, b, i);
      SpaceAround(s, a, b, j - 1);
    }
  }

  lemma SpaceAround(s: string, i: nat, j: nat, k: nat)
    requires i <= j <= |s| && k < |s| && AllSpace(s[..i]) && AllSpace(s[j..])
    ensures k < i || j <= k ==> IsSpace(s[k])
  {
    hide IsSpace;
    if k < i {
      assert s[..i][k] == s[k];
    } else if j <= k {
      assert s[j..][k - j] == s[k];
    }
  }

  /** Blanks, tabs and line ends are white space; visible ASCII is not. */
  lemma WhiteSpace()
    ensures IsSpace(' ') && IsSpace('\t') && IsSpace('\n') && IsSpace('\r')
    ensures forall c :: '!' <= c <= '~' ==> !IsSpace(c)
  {
  }

  // ---------------------------------------------------------------- validity

  function ErrorIf(failed: bool, e: FieldError): seq<FieldError> {
    if failed then [e] else []
  }

  function ValidatePoint(p: Point): seq<FieldError> {
    var errors :=
      ErrorIf(|TrimSpace(p.description)| > 255, LongDescription)
      + ErrorIf(p.writeable != 0 && p.writeable != 1, BadWriteable)
      + ErrorIf(!ValidTagName(p.tag), BadTagName);
    if p.regType.OtherReg? then errors + [BadRegType]
    else if p.dataType.OtherData? then errors + [BadDataType]
    else if IsRegTypeBit(p.regType) then
      errors
      + ErrorIf(p.dataType != Bool, BitTypeNeedsBool)
      + ErrorIf(p.bitOffset != 0 || p.bitLen != 0, BitTypeWithBitFields)
    else if p.bitOffset < 0 || p.bitLen < 0 then errors + [NegativeBits]
    else errors + ValidateRegisterField(p)
  }

  function ValidateRegisterField(p: Point): seq<FieldError> {
    var width := TypeBitWidth(p.dataType);
    var isFloat := p.dataType == Float32 || p.dataType == Double;
    var noBits := p.bitOffset == 0 && p.bitLen == 0;
    var effectiveLen := if p.bitOffset > 0 && p.bitLen == 0 then 1 else p.bitLen;
    ErrorIf(p.dataType == Bool && !noBits, BoolWithBitFields)
    + ErrorIf(isFloat && !noBits, FloatWithBitFields)
    + ErrorIf(p.dataType != Bool && !isFloat && noBits, BitLenRequired)
    + ErrorIf(p.bitOffset >= width || effectiveLen > width || p.bitOffset + effectiveLen > width, BitsExceedWidth)
    + ErrorIf(EndAddr(p) > 65535, BeyondAddressSpace)
    + ErrorIf(p.writeable == 1 && p.regType != HoldingReg && p.regType != CoilStatus, NotWriteableType)
  }

  predicate Valid(p: Point) { ValidatePoint(p) == [] }

  ghost predicate AllValid(pts: seq<Point>) {
    forall i :: 0 <= i < |pts| ==> Valid(pts[i])
  }

  predicate UniqueTags(pts: seq<Point>) {
    forall i, j :: 0 <= i < j < |pts| ==> pts[i].tag != pts[j].tag
  }

  /** What an accepted point guarantees to the planner and the decoder: its
      registers lie in the address space and its field inside its registers. */
  lemma ValidPoint(p: Point)
    requires Valid(p)
    ensures EndAddr(p) <= 65535
    ensures !p.regType.OtherReg? && !p.dataType.OtherData?
    ensures IsRegTypeBit(p.regType) ==> p.dataType == Bool
    ensures p.bitOffset >= 0 && p.bitLen >= 0
    ensures !IsRegTypeBit(p.regType) ==>
              1 <= EffectiveLen(p) && p.bitOffset + EffectiveLen(p) <= TypeBitWidth(p.dataType) <= 16 * GetRegisterCount(p)
    ensures ValidTagName(p.tag) && (p.writeable == 0 || p.writeable == 1) && |TrimSpace(p.description)| <= 255
  {
  }

  /** Acceptance, stated as one condition on the fields rather than as a list
      of failures: the list of errors is empty exactly on these points. */
  lemma ValidExactly(p: Point)
    ensures Valid(p) <==>
              && |TrimSpace(p.description)| <= 255 && ValidTagName(p.tag) && (p.writeable == 0 || p.writeable == 1)
              && !p.regType.OtherReg? && !p.dataType.OtherData?
              && if IsRegTypeBit(p.regType) then p.dataType == Bool && p.bitOffset == p.bitLen == 0
                 else
                   && (p.dataType in {Bool, Float32, Double} <==> p.bitOffset == 0 && p.bitLen == 0)
                   && p.bitOffset >= 0 && p.bitLen >= 0 && p.bitOffset + EffectiveLen(p) <= TypeBitWidth(p.dataType)
                   && EndAddr(p) <= 65535
                   && (p.writeable == 1 ==> p.regType == HoldingReg)
  {
  }

  /** The validator promises that only holding registers and coils can be
      writeable, but it returns before that check for bit-addressed types. The
      promise fails for discrete inputs, and for no other accepted point. */
  lemma WriteableTypes(p: Point)
    requires Valid(p) && p.writeable == 1
    ensures (p.regType == HoldingReg || p.regType == CoilStatus) <==> p.regType != InputStatus
  {
  }

  lemma WriteableDiscreteInputAccepted()
    ensures Valid(Point("Door", "", InputStatus, 0, Bool, 0, 0, 1))
  {
    assert TrimSpace("") == "";
    assert ValidTagName("Door");
  }

  // ---------------------------------------------------------------- messages

  /** Register and data type are known, so the fields are looked at. */
  predicate KnownTypes(p: Point) { !p.regType.OtherReg? && !p.dataType.OtherData? }

  predicate FieldChecked(p: Point) { KnownTypes(p) && !IsRegTypeBit(p.regType) && p.bitOffset >= 0 && p.bitLen >= 0 }

  /** Each message of the validator, and exactly when it is given. */
  predicate Deserves(p: Point, e: FieldError) {
    match e
    case LongDescription => |TrimSpace(p.description)| > 255
    case BadWriteable => p.writeable < 0 || p.writeable > 1
    case BadTagName => !ValidTagName(p.tag)
    case BadRegType => p.regType.OtherReg?
    case BadDataType => !p.regType.OtherReg? && p.dataType.OtherData?
    case BitTypeNeedsBool => KnownTypes(p) && IsRegTypeBit(p.regType) && p.dataType != Bool
    case BitTypeWithBitFields => KnownTypes(p) && IsRegTypeBit(p.regType) && !(p.bitOffset == p.bitLen == 0)
    case NegativeBits => KnownTypes(p) && !IsRegTypeBit(p.regType) && (p.bitOffset < 0 || p.bitLen < 0)
    case BoolWithBitFields => FieldChecked(p) && p.dataType == Bool && !(p.bitOffset == p.bitLen == 0)
    case FloatWithBitFields => FieldChecked(p) && p.dataType in {Float32, Double} && !(p.bitOffset == p.bitLen == 0)
    case BitLenRequired => FieldChecked(p) && p.dataType in {Int16, UInt16, Int32, UInt32} && p.bitOffset == p.bitLen == 0
    case BitsExceedWidth =>
      FieldChecked(p) && p.bitOffset + (if p.bitLen == 0 && p.bitOffset > 0 then 1 else p.bitLen) > TypeBitWidth(p.dataType)
    case BeyondAddressSpace => FieldChecked(p) && EndAddr(p) > 65535
    case NotWriteableType => FieldChecked(p) && p.writeable == 1 && p.regType == InputReg
    case _ => false
  }

  lemma ValidatorMessages(p: Point, e: FieldError)
    ensures e in ValidatePoint(p) <==> Deserves(p, e)
  {
    hide ValidatePoint, Deserves, EndAddr, TypeBitWidth;
    if !KnownTypes(p) {
      UnknownTypeMessages(p, e);
    } else if FieldChecked(p) {
      RegisterMessages(p, e);
    } else {
      EarlyMessages(p, e);
    }
  }

  /** The messages that do not depend on the types. */
  predicate General(e: FieldError) { e == LongDescription || e == BadWriteable || e == BadTagName }

  function GeneralErrors(p: Point): seq<FieldError> {
    ErrorIf(|TrimSpace(p.description)| > 255, LongDescription) + ErrorIf(p.writeable != 0 && p.writeable != 1, BadWriteable)
    + ErrorIf(!ValidTagName(p.tag), BadTagName)
  }

  lemma GeneralMessages(p: Point, e: FieldError)
    ensures e in GeneralErrors(p) <==> General(e) && Deserves(p, e)
  {
    hide TrimSpace, ValidTagName, TypeBitWidth, EndAddr;
  }

  lemma UnknownTypeMessages(p: Point, e: FieldError)
    requires !KnownTypes(p)
    ensures e in ValidatePoint(p) <==> Deserves(p, e)
  {
    hide TrimSpace, ValidTagName, ErrorIf, ValidateRegisterField, TypeBitWidth, EndAddr;
    GeneralMessages(p, e);
    assert ValidatePoint(p) == GeneralErrors(p) + [if p.regType.OtherReg? then BadRegType else BadDataType];
    hide GeneralErrors, ValidatePoint;
  }

  lemma EarlyMessages(p: Point, e: FieldError)
    requires KnownTypes(p) && !FieldChecked(p)
    ensures e in ValidatePoint(p) <==> Deserves(p, e)
  {
    hide ErrorIf, ValidatePoint, GeneralErrors, TypeBitWidth, EndAddr, TrimSpace, ValidTagName;
    GeneralMessages(p, e);
    ErrorOrNone();
    EarlyErrors(p);
  }

  lemma EarlyErrors(p: Point)
    requires KnownTypes(p) && !FieldChecked(p)
    ensures ValidatePoint(p) == GeneralErrors(p) +
              if IsRegTypeBit(p.regType) then
                ErrorIf(p.dataType != Bool, BitTypeNeedsBool) + ErrorIf(p.bitOffset != 0 || p.bitLen != 0, BitTypeWithBitFields)
              else [NegativeBits]
  {
    hide TrimSpace, ValidTagName, ErrorIf, ValidateRegisterField;
  }

  lemma RegisterMessages(p: Point, e: FieldError)
    requires FieldChecked(p)
    ensures e in ValidatePoint(p) <==> Deserves(p, e)
  {
    hide TrimSpace, ValidTagName, ErrorIf, ValidateRegisterField, Deserves, TypeBitWidth, EndAddr;
    GeneralMessages(p, e);
    FieldMessages(p, e);
    assert ValidatePoint(p) == GeneralErrors(p) + ValidateRegisterField(p);
  }

  lemma FieldMessages(p: Point, e: FieldError)
    requires FieldChecked(p)
    ensures e in ValidateRegisterField(p) <==> !General(e) && Deserves(p, e)
  {
    hide TrimSpace, ValidTagName, ErrorIf;
    ErrorOrNone();
  }

  lemma ErrorOrNone()
    ensures forall b, e, f :: f in ErrorIf(b, e) <==> b && f == e
  {
  }
}
