/** What a read reports after a write: WriteTag always sends one whole register
    or one coil, whatever the type and the bit field of the point
    (internal/collector/collector.go:473-502 against 307-376). */
module WriteBack {
  import opened Points
  import opened Bits
  import opened Planner
  import opened Wire
  import opened Decoder
  import opened Writes

  // ------------------------------------------------- the number a point's registers form

  function SwapBytes(x: u16): u16 { x % 256 * 256 + x / 256 }

  /** Two registers x and y after reordering. */
  function TwoRegisters(order: ByteOrder, x: u16, y: u16): nat {
    match order
    case ABCD | Unset => x * 0x1_0000 + y
    case CDAB => y * 0x1_0000 + x
    case BADC => SwapBytes(x) * 0x1_0000 + SwapBytes(y)
    case DCBA => SwapBytes(y) * 0x1_0000 + SwapBytes(x)
    case OtherOrder(_) => 0
  }

  lemma TwoRegisterBytes(order: ByteOrder, f: int -> int, a: u16)
    requires a < 0xFFFF
    ensures BigEndian(Permute(order, RegisterBytes(f, a, 2))) == TwoRegisters(order, U16(f(a)), U16(f(a + 1)))
  {
    var d := RegisterBytes(f, a, 2);
    var x, y := U16(f(a)), U16(f(a + 1));
    assert d == [x / 256, x % 256, y / 256, y % 256];
    hide RegisterBytes, U16;
    FourByteOrders(order, d);
    hide BigEndian;
    assert Word(d[0], d[1]) == x && Word(d[2], d[3]) == y;
    assert Word(d[1], d[0]) == SwapBytes(x) && Word(d[3], d[2]) == SwapBytes(y);
  }

  lemma OneRegisterBytes(order: ByteOrder, f: int -> int, a: u16)
    ensures BigEndian(Permute(order, RegisterBytes(f, a, 1))) == U16(f(a))
  {
    var slice := RegisterBytes(f, a, 1);
    var v := U16(f(a));
    assert |slice| == 2 && Permute(order, slice) == slice;
    assert slice == [v / 256, v % 256];
    assert slice[..1][..0] == [] && slice[..1] == [v / 256];
    assert BigEndian(slice[..1]) == v / 256;
  }

  /** The value of a register point denotes its reordered registers. */
  lemma PointDenotes(order: ByteOrder, img: Image, p: Point)
    requires Valid(p) && !IsRegTypeBit(p.regType)
    ensures p.bitOffset >= 0 && EffectiveLen(p) > 0 && EndAddr(p) <= 65535
    ensures Denotes(p, PointValue(order, img, p),
                    BigEndian(Permute(order, RegisterBytes(Registers(img, p.regType), p.address, GetRegisterCount(p)))))
  {
    ValidPoint(p);
    hide Valid, Denotes, DecodeRegisters;
    DecodeIsExact(order, p, RegisterBytes(Registers(img, p.regType), p.address, GetRegisterCount(p)));
  }

  lemma OneRegister(order: ByteOrder, img: Image, p: Point)
    requires Valid(p) && !IsRegTypeBit(p.regType) && GetRegisterCount(p) == 1
    ensures p.bitOffset >= 0 && EffectiveLen(p) > 0
    ensures Denotes(p, PointValue(order, img, p), U16(Registers(img, p.regType)(p.address)))
  {
    hide Valid, Denotes, PointValue;
    PointDenotes(order, img, p);
    OneRegisterBytes(order, Registers(img, p.regType), p.address);
  }

  lemma TwoRegisterPoint(order: ByteOrder, img: Image, p: Point)
    requires Valid(p) && !IsRegTypeBit(p.regType) && GetRegisterCount(p) == 2
    ensures p.bitOffset >= 0 && EffectiveLen(p) > 0
    ensures var f := Registers(img, p.regType);
      Denotes(p, PointValue(order, img, p), TwoRegisters(order, U16(f(p.address)), U16(f(p.address + 1))))
  {
    hide Valid, Denotes, PointValue;
    PointDenotes(order, img, p);
    TwoRegisterBytes(order, Registers(img, p.regType), p.address);
  }

  // ------------------------------------------------- the points that read a write back

  /** The value written, as the scan reports values. */
  function Written(value: WriteValue): Value {
    match value
    case U16Value(u) => Number(u)
    case I16Value(i) => Number(i)
    case IntValue(n) => Number(n)
    case BoolWrite(b) => BoolValue(b)
    case OtherWrite => Number(0)
  }

  /** The whole first register: an unsigned 16-bit point without a bit field, or
      the 16 bits of a 32-bit point that the byte order takes from there. */
  predicate ReadsUnsigned(order: ByteOrder, p: Point) {
    && p.regType == HoldingReg
    && ((p.dataType == UInt16 && FullWidth(p))
        || ((p.dataType == Int32 || p.dataType == UInt32) && EffectiveLen(p) == 16
            && if order == CDAB then p.bitOffset == 0 else (order == ABCD || order == Unset) && p.bitOffset == 16))
  }

  predicate ReadsSigned(p: Point) {
    p.regType == HoldingReg && p.dataType == Int16 && FullWidth(p)
  }

  predicate Matches(order: ByteOrder, p: Point, value: WriteValue) {
    match value
    case U16Value(_) | IntValue(_) => ReadsUnsigned(order, p)
    case I16Value(_) => ReadsSigned(p)
    case BoolWrite(_) => p.regType == CoilStatus
    case OtherWrite => false
  }

  /** Sixteen whole bits out of two registers. */
  lemma HalfOf(x: u16, y: u16)
    ensures ((x * 0x1_0000 + y) / Pow2(16)) % Pow2(16) == x
    ensures ((x * 0x1_0000 + y) / Pow2(0)) % Pow2(16) == y
  {
    Pow2Values();
    DivUnique(x * 0x1_0000 + y, 0x1_0000, x, y);
  }

  lemma WholeWordReadBack(order: ByteOrder, img: Image, p: Point, u: u16)
    requires Valid(p) && ReadsUnsigned(order, p) && p.dataType != UInt16
    ensures PointValue(order, WriteRegister(img, p.address, u), p) == Number(u)
  {
    hide Valid, PointValue, Denotes, U16, WriteRegister;
    var after := WriteRegister(img, p.address, u);
    TwoRegisterPoint(order, after, p);
    Neighbours(img, p.address, u);
    var y := U16(after.holding(p.address + 1));
    HalfOf(u, y);
    HalfOf(y, u);
    DenotesField(p, PointValue(order, after, p), TwoRegisters(order, u, y));
  }

  /** The written register and its neighbour after a write. */
  lemma Neighbours(img: Image, a: u16, u: u16)
    ensures var after := WriteRegister(img, a, u);
      U16(after.holding(a)) == u && after.holding(a + 1) == img.holding(a + 1)
  {
  }

  lemma SmallU16(u: u16)
    ensures U16(u) == u
  {
  }

  /** Below full width a 32-bit point has the value of its field. */
  lemma DenotesField(p: Point, v: Value, raw: nat)
    requires p.bitOffset >= 0 && EffectiveLen(p) > 0 && Denotes(p, v, raw)
    requires p.dataType == UInt32 || (p.dataType == Int32 && EffectiveLen(p) < 32)
    ensures v == Number((raw / Pow2(p.bitOffset)) % Pow2(EffectiveLen(p)))
  {
    if p.dataType == Int32 { SmallMod(v.n, Pow2(EffectiveLen(p))); }
  }

  lemma WholeRegisterReadBack(order: ByteOrder, img: Image, p: Point, n: int)
    requires Valid(p) && p.regType == HoldingReg && FullWidth(p)
    requires (p.dataType == UInt16 && 0 <= n < 0x1_0000) || (p.dataType == Int16 && -0x8000 <= n < 0x8000)
    ensures PointValue(order, WriteRegister(img, p.address, U16(n)), p) == Number(n)
  {
    hide Valid, Denotes, PointValue;
    var after := WriteRegister(img, p.address, U16(n));
    ValidPoint(p);
    OneRegister(order, after, p);
    NumberDenotes(p, n);
    Pow2Values();
    assert EncodeRaw(p.dataType, Number(n)) == U16(n) == U16(after.holding(p.address));
    DenotesUnique(p, PointValue(order, after, p), Number(n), U16(n));
  }

  lemma SentRegister(p: Point, value: WriteValue)
    requires WellTyped(value) && !Action(p, value).Refused? && !value.BoolWrite?
    ensures Written(value).Number? && Action(p, value) == SingleRegister(p.address, U16(Written(value).n))
    ensures value.I16Value? || 0 <= Written(value).n < 0x1_0000
  {
  }

  /** An accepted write of a matching value is what reading the point reports
      next, for every byte order. */
  lemma WriteThenRead(order: ByteOrder, img: Image, p: Point, value: WriteValue)
    requires Valid(p) && WellTyped(value) && Matches(order, p, value) && !Action(p, value).Refused?
    ensures PointValue(order, Perform(img, Action(p, value)), p) == Written(value)
  {
    hide Valid;
    if value.BoolWrite? {
      CoilReadBack(order, img, p, value.b);
    } else {
      hide PointValue, Action;
      SentRegister(p, value);
      var n := Written(value).n;
      if p.dataType == UInt16 || p.dataType == Int16 {
        WholeRegisterReadBack(order, img, p, n);
      } else {
        SmallU16(n);
        WholeWordReadBack(order, img, p, n);
      }
    }
  }

  /** A coil reads back every Bool written to it. */
  lemma CoilReadBack(order: ByteOrder, img: Image, p: Point, b: bool)
    requires Valid(p) && p.regType == CoilStatus
    ensures PointValue(order, Perform(img, Action(p, BoolWrite(b))), p) == BoolValue(b)
  {
    hide Valid;
  }

  /** A write changes no point of another register type, and none that does not
      contain the written address. */
  lemma WriteFrame(order: ByteOrder, img: Image, p: Point, q: Point, value: WriteValue)
    requires Valid(p) && Valid(q) && WellTyped(value) && !(p.regType == q.regType && Covers(q, p.address))
    ensures PointValue(order, Perform(img, Action(p, value)), q) == PointValue(order, img, q)
  {
    ValidPoint(q);
    hide Valid, DecodeRegisters;
    var after := Perform(img, Action(p, value));
    if !IsRegTypeBit(q.regType) {
      var f, g := Registers(img, q.regType), Registers(after, q.regType);
      assert RegisterBytes(f, q.address, GetRegisterCount(q)) == RegisterBytes(g, q.address, GetRegisterCount(q));
    }
  }

  // ------------------------------------------------- and no others

  /** A field of a number whose low m bits are set and whose others are not. */
  lemma OnesField(m: nat, off: nat, len: nat)
    ensures ((Pow2(m) - 1) / Pow2(off)) % Pow2(len)
            == Pow2(if off >= m then 0 else if m - off < len then m - off else len) - 1
  {
    var shifted := (Pow2(m) - 1) / Pow2(off);
    if off >= m {
      Pow2Grows(m, off);
      DivUnique(Pow2(m) - 1, Pow2(off), 0, Pow2(m) - 1);
      SmallMod(0, Pow2(len));
    } else {
      Pow2Add(m - off, off);
      TopOnes(Pow2(m - off), Pow2(off));
      assert shifted == Pow2(m - off) - 1;
      if m - off < len {
        Pow2Grows(m - off, len);
        SmallMod(shifted, Pow2(len));
      } else {
        Pow2Add(m - off - len, len);
        TopOnes(Pow2(m - off - len), Pow2(len));
      }
    }
  }

  lemma TopOnes(a: nat, b: nat)
    requires a > 0 && b > 0
    ensures (a * b - 1) / b == a - 1 && (a * b - 1) % b == b - 1
  {
    assert a * b - 1 == (a - 1) * b + (b - 1);
    DivUnique(a * b - 1, b, a - 1, b - 1);
  }

  function Field(raw: nat, off: nat, len: nat): nat { (raw / Pow2(off)) % Pow2(len) }

  lemma SixteenBits(len: nat)
    ensures Pow2(len) == 0x1_0000 <==> len == 16
    ensures Pow2(len) == 1 <==> len == 0
  {
    Pow2Values();
    if len < 16 { Pow2Grows(len, 15); assert Pow2(15) == 0x8000; }
    if len > 16 { Pow2Grows(17, len); assert Pow2(17) == 0x2_0000; }
    if len >= 1 { Pow2Grows(1, len); assert Pow2(1) == 2; }
  }

  lemma AllOnes(off: nat, len: nat)
    requires off + len <= 32
    ensures Field(0xFFFF_FFFF, off, len) == 0xFFFF <==> len == 16
  {
    Pow2Values();
    OnesField(32, off, len);
    SixteenBits(len);
  }

  lemma LowOnes(off: nat)
    requires off <= 16
    ensures Field(0xFFFF, off, 16) == 0xFFFF <==> off == 0
    ensures Field(0xFFFF, off, 16) == 0 <==> off == 16
  {
    Pow2Values();
    OnesField(16, off, 16);
    SixteenBits(16 - off);
  }

  lemma NoField(off: nat, len: nat)
    ensures Field(0, off, len) == 0
  {
    DivUnique(0, Pow2(off), 0, 0);
    SmallMod(0, Pow2(len));
  }

  /** The number 1 with its bytes swapped is not read as 1. */
  lemma SwappedOne()
    ensures Field(0x100_0000, 16, 16) == 0x100 && Field(0x100, 0, 16) == 0x100
  {
    Pow2Values();
  }

  predicate FieldReads(order: ByteOrder, off: nat, len: nat, u: u16, y: u16) {
    Field(TwoRegisters(order, u, y), off, len) == u
  }

  /** Four pairs of registers decide the byte order and the place of the field. */
  lemma FieldDecides(order: ByteOrder, off: nat, len: nat)
    requires off + len <= 32
    ensures FieldReads(order, off, len, 0xFFFF, 0xFFFF) && FieldReads(order, off, len, 0xFFFF, 0)
            && FieldReads(order, off, len, 0, 0xFFFF) && FieldReads(order, off, len, 1, 0) ==>
              len == 16 && if order == CDAB then off == 0 else (order == ABCD || order == Unset) && off == 16
  {
    hide Field, TwoRegisters;
    Samples(order);
    NoField(off, len);
    AllOnes(off, len);
    SwappedOne();
    if len == 16 {
      LowOnes(off);
    }
  }

  lemma Samples(order: ByteOrder)
    ensures order.OtherOrder? ==> TwoRegisters(order, 1, 0) == 0
    ensures !order.OtherOrder? ==> TwoRegisters(order, 0xFFFF, 0xFFFF) == 0xFFFF_FFFF
    ensures order in {ABCD, Unset, BADC} ==> TwoRegisters(order, 0, 0xFFFF) == 0xFFFF
    ensures order in {CDAB, DCBA} ==> TwoRegisters(order, 0xFFFF, 0) == 0xFFFF
    ensures order == BADC ==> TwoRegisters(order, 1, 0) == 0x100_0000
    ensures order == DCBA ==> TwoRegisters(order, 1, 0) == 0x100
  {
  }

  /** A device whose holding registers all hold y. */
  function Filled(y: u16): Image {
    Image(_ => false, _ => false, _ => y, _ => 0)
  }

  /** What two registers must form if u is to be read back. */
  lemma FieldIsWritten(order: ByteOrder, p: Point, u: u16, y: u16)
    requires Valid(p) && p.regType == HoldingReg && (p.dataType == Int32 || p.dataType == UInt32)
    requires PointValue(order, WriteRegister(Filled(y), p.address, u), p) == Number(u)
    ensures p.bitOffset >= 0 && EffectiveLen(p) > 0
    ensures FieldReads(order, p.bitOffset, EffectiveLen(p), u, y)
  {
    hide Valid, PointValue, TwoRegisters, U16, WriteRegister;
    ValidPoint(p);
    var after := WriteRegister(Filled(y), p.address, u);
    TwoRegisterPoint(order, after, p);
    Neighbours(Filled(y), p.address, u);
    SmallU16(y);
    if p.dataType == Int32 {
      Pow2Values();
      var len := EffectiveLen(p);
      assert len == 32 || u < Pow2(len);
      SmallMod(u, Pow2(len));
    }
  }

  /** All registers set, only the written one, only the other, and the number 1:
      four devices decide. */
  lemma OnlyWholeWords(order: ByteOrder, p: Point)
    requires Valid(p) && p.regType == HoldingReg && (p.dataType == Int32 || p.dataType == UInt32)
    requires forall y: u16, u: u16 :: PointValue(order, WriteRegister(Filled(y), p.address, u), p) == Number(u)
    ensures ReadsUnsigned(order, p)
  {
    ValidPoint(p);
    hide Valid, PointValue, FieldReads, Filled;
    var ones: u16 := 0xFFFF;
    FieldIsWritten(order, p, ones, ones);
    FieldIsWritten(order, p, ones, 0);
    FieldIsWritten(order, p, 0, ones);
    FieldIsWritten(order, p, 1, 0);
    FieldDecides(order, p.bitOffset, EffectiveLen(p));
  }

  /** For every accepted holding register and every byte order: each number
      written is read back, whatever the other registers hold, if and only if the
      point is exactly the register written. */
  lemma UnsignedReadBack(order: ByteOrder, p: Point)
    requires Valid(p) && p.regType == HoldingReg
    ensures (forall img: Image, u: u16 :: PointValue(order, WriteRegister(img, p.address, u), p) == Number(u))
            <==> ReadsUnsigned(order, p)
  {
    hide Valid, PointValue;
    ValidPoint(p);
    if ReadsUnsigned(order, p) {
      forall img: Image, u: u16 ensures PointValue(order, WriteRegister(img, p.address, u), p) == Number(u) {
        if p.dataType == UInt16 {
          SmallU16(u);
          WholeRegisterReadBack(order, img, p, u);
        } else {
          WholeWordReadBack(order, img, p, u);
        }
      }
    } else if p.dataType == Int32 || p.dataType == UInt32 {
      if forall y: u16, u: u16 :: PointValue(order, WriteRegister(Filled(y), p.address, u), p) == Number(u) {
        OnlyWholeWords(order, p);
      }
    } else {
      NotReadBack(order, Filled(0), p);
    }
  }

  /** The largest register value is lost on every other type. */
  lemma NotReadBack(order: ByteOrder, img: Image, p: Point)
    requires Valid(p) && p.regType == HoldingReg && !ReadsUnsigned(order, p) && p.dataType != Int32 && p.dataType != UInt32
    ensures PointValue(order, WriteRegister(img, p.address, 0xFFFF), p) != Number(0xFFFF)
  {
    ValidPoint(p);
    hide Valid, PointValue;
    hide Registers, RegisterBytes, Permute, BigEndian, WriteRegister;
    var after := WriteRegister(img, p.address, 0xFFFF);
    PointDenotes(order, after, p);
    TopValueDenotes(p, BigEndian(Permute(order, RegisterBytes(Registers(after, p.regType), p.address, GetRegisterCount(p)))));
  }

  lemma TopValueDenotes(p: Point, raw: nat)
    requires p.bitOffset >= 0 && EffectiveLen(p) > 0
    requires p.dataType != Int32 && p.dataType != UInt32 && !p.dataType.OtherData?
    requires !FullWidth(p) || p.dataType != UInt16
    requires p.bitOffset + EffectiveLen(p) <= TypeBitWidth(p.dataType)
    ensures !Denotes(p, Number(0xFFFF), raw)
  {
    var len := EffectiveLen(p);
    Pow2Values();
    assert Pow2(15) == 0x8000;
    if len < 16 { Pow2Grows(len, 15); }
  }

  /** The same for signed numbers: only a whole Int16 register reads them back. */
  lemma SignedReadBack(order: ByteOrder, p: Point)
    requires Valid(p) && p.regType == HoldingReg
    ensures (forall img: Image, i :: -0x8000 <= i < 0x8000 ==> PointValue(order, WriteRegister(img, p.address, U16(i)), p) == Number(i))
            <==> ReadsSigned(p)
  {
    hide Valid, PointValue;
    ValidPoint(p);
    if ReadsSigned(p) {
      forall img: Image, i | -0x8000 <= i < 0x8000
        ensures PointValue(order, WriteRegister(img, p.address, U16(i)), p) == Number(i)
      {
        WholeRegisterReadBack(order, img, p, i);
      }
    } else {
      MinusOneLost(order, p);
    }
  }

  lemma MinusOneLost(order: ByteOrder, p: Point)
    requires Valid(p) && p.regType == HoldingReg && !ReadsSigned(p)
    ensures PointValue(order, WriteRegister(Filled(0), p.address, U16(-1)), p) != Number(-1)
  {
    ValidPoint(p);
    hide Valid, PointValue, Denotes, TwoRegisters, Registers, RegisterBytes, Permute, BigEndian;
    var after := WriteRegister(Filled(0), p.address, U16(-1));
    PointDenotes(order, after, p);
    if PointValue(order, after, p) == Number(-1) {
      var raw := BigEndian(Permute(order, RegisterBytes(Registers(after, p.regType), p.address, GetRegisterCount(p))));
      NegativeNeedsSign(p, raw);
      WideMinusOneLost(order, p);
    }
  }

  lemma NegativeNeedsSign(p: Point, raw: nat)
    requires p.bitOffset >= 0 && EffectiveLen(p) > 0 && Denotes(p, Number(-1), raw)
    ensures (p.dataType == Int16 || p.dataType == Int32) && EffectiveLen(p) == TypeBitWidth(p.dataType)
  {
  }

  lemma WideMinusOneLost(order: ByteOrder, p: Point)
    requires Valid(p) && p.regType == HoldingReg && p.dataType == Int32 && EffectiveLen(p) == 32
    ensures PointValue(order, WriteRegister(Filled(0), p.address, U16(-1)), p) != Number(-1)
  {
    ValidPoint(p);
    assert U16(-1) == 0xFFFF;
    hide Valid, PointValue, Denotes, TwoRegisters, U16, WriteRegister;
    var after := WriteRegister(Filled(0), p.address, 0xFFFF);
    TwoRegisterPoint(order, after, p);
    Neighbours(Filled(0), p.address, 0xFFFF);
    SmallU16(0);
    HalfOnes(order);
    if PointValue(order, after, p) == Number(-1) {
      MinusOneDenotes(p, TwoRegisters(order, 0xFFFF, 0));
    }
  }

  lemma MinusOneDenotes(p: Point, raw: nat)
    requires p.bitOffset >= 0 && EffectiveLen(p) > 0 && p.dataType == Int32 && Denotes(p, Number(-1), raw)
    ensures (raw / Pow2(p.bitOffset)) % Pow2(EffectiveLen(p)) == -1 % Pow2(EffectiveLen(p))
  {
  }

  lemma HalfOnes(order: ByteOrder)
    ensures (TwoRegisters(order, 0xFFFF, 0) / Pow2(0)) % Pow2(32) != -1 % Pow2(32)
  {
    Pow2Values();
  }

  // ------------------------------------------------- two accepted points that lose a write

  /** The low byte of a register, and a whole 32-bit number. */
  const BYTE_POINT := Point("LowByte", "", HoldingReg, 0, UInt16, 0, 8, 1)
  const WIDE_POINT := Point("Wide", "", HoldingReg, 0, UInt32, 0, 32, 1)

  lemma BitFieldLosesWrite(order: ByteOrder, img: Image)
    ensures Valid(BYTE_POINT) && BYTE_POINT.writeable == 1 && Action(BYTE_POINT, U16Value(256)) == SingleRegister(0, 256)
    ensures PointValue(order, Perform(img, SingleRegister(0, 256)), BYTE_POINT) == Number(0)
  {
    ExampleValid(BYTE_POINT);
    hide Valid, PointValue;
    Pow2Values();
    OneRegister(order, WriteRegister(img, 0, 256), BYTE_POINT);
    SmallU16(256);
  }

  lemma WideNumberLosesWrite(img: Image)
    ensures Valid(WIDE_POINT) && WIDE_POINT.writeable == 1 && Action(WIDE_POINT, U16Value(1)) == SingleRegister(0, 1)
    ensures PointValue(ABCD, Perform(img, SingleRegister(0, 1)), WIDE_POINT) == Number(0x1_0000 + U16(img.holding(1)))
  {
    ExampleValid(WIDE_POINT);
    hide Valid, PointValue, Denotes, TwoRegisters, U16, WriteRegister;
    var after := WriteRegister(img, 0, 1);
    TwoRegisterPoint(ABCD, after, WIDE_POINT);
    Neighbours(img, 0, 1);
    var y := U16(img.holding(1));
    DenotesField(WIDE_POINT, PointValue(ABCD, after, WIDE_POINT), TwoRegisters(ABCD, 1, y));
    WideRaw(y);
  }

  lemma WideRaw(y: u16)
    ensures (TwoRegisters(ABCD, 1, y) / Pow2(0)) % Pow2(32) == 0x1_0000 + y
  {
    Pow2Values();
  }

  lemma ExampleValid(p: Point)
    requires p == BYTE_POINT || p == WIDE_POINT
    ensures Valid(p)
  {
    assert ValidTagName(p.tag) && TrimSpace(p.description) == "";
    ValidExactly(p);
  }
}
