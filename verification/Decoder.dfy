/** From bytes to values: byte order, field extraction and conversion
    (internal/collector/collector.go:286-439). */
module Decoder {
  import opened Points
  import opened Bits
  import opened Planner
  import opened Wire

  datatype ByteOrder = ABCD | DCBA | CDAB | BADC | Unset | OtherOrder(name: string)

  /** Floating-point values stay raw bit patterns; integers are exact. */
  datatype Value = BoolValue(b: bool) | Number(n: int) | Float32Bits(bits: nat) | Float64Bits(bits: nat)

  // ------------------------------------------------- byte order

  function Zeros(n: nat): seq<byte> { seq(n, _ => 0) }

  function Permute(order: ByteOrder, d: seq<byte>): (res: seq<byte>)
    ensures |res| == |d|
  {
    if |d| == 4 then
      match order
      case ABCD | Unset => d
      case DCBA => [d[3], d[2], d[1], d[0]]
      case CDAB => [d[2], d[3], d[0], d[1]]
      case BADC => [d[1], d[0], d[3], d[2]]
      case OtherOrder(_) => Zeros(4)
    else if |d| == 8 then
      match order
      case ABCD | Unset => d
      case DCBA => [d[7], d[6], d[5], d[4], d[3], d[2], d[1], d[0]]
      case CDAB => [d[2], d[3], d[0], d[1], d[6], d[7], d[4], d[5]]
      case BADC => [d[1], d[0], d[3], d[2], d[5], d[4], d[7], d[6]]
      case OtherOrder(_) => Zeros(8)
    else d
  }

  /** The source fills a fresh buffer in place. */
  method ApplyGlobalByteOrder(order: ByteOrder, data: seq<byte>) returns (out: seq<byte>)
    ensures out == Permute(order, data)
  {
    hide Permute;
    if order == ABCD || order == Unset {
      PlacedBytes(order, data, data);
      return data;
    }
    var res := new byte[|data|](_ => 0);
    if |data| == 2 {
      PlacedBytes(order, data, data);
      return data;
    } else if |data| == 4 {
      match order
      case DCBA => res[0], res[1], res[2], res[3] := data[3], data[2], data[1], data[0];
      case CDAB => res[0], res[1], res[2], res[3] := data[2], data[3], data[0], data[1];
      case BADC => res[0], res[1], res[2], res[3] := data[1], data[0], data[3], data[2];
      case _ =>
    } else if |data| == 8 {
      match order
      case DCBA =>
        for i := 0 to 8
          invariant forall k :: 0 <= k < i ==> res[k] == data[7 - k]
        {
          res[i] := data[7 - i];
        }
      case CDAB =>
        res[0], res[1] := data[2], data[3];
        res[2], res[3] := data[0], data[1];
        res[4], res[5] := data[6], data[7];
        res[6], res[7] := data[4], data[5];
      case BADC =>
        var i := 0;
        while i < 8
          invariant 0 <= i <= 8 && i % 2 == 0
          invariant forall k :: 0 <= k < i ==> res[k] == data[if k % 2 == 0 then k + 1 else k - 1]
        {
          res[i], res[i + 1] := data[i + 1], data[i];
          i := i + 2;
        }
      case _ =>
    } else {
      forall k | 0 <= k < |data| {
        res[k] := data[k];
      }
    }
    PlacedBytes(order, data, res[..]);
    return res[..];
  }

  /** Which byte of the data comes to place k when its length is 4 or 8. */
  function Source(order: ByteOrder, n: nat, k: nat): int {
    match order
    case DCBA => n - 1 - k
    case CDAB => if k % 4 < 2 then k + 2 else k - 2
    case BADC => if k % 2 == 0 then k + 1 else k - 1
    case _ => k
  }

  predicate PlacedAt(order: ByteOrder, d: seq<byte>, out: seq<byte>, k: nat)
    requires k < |out|
  {
    if order.OtherOrder? then out[k] == 0
    else var i := Source(order, |d|, k); 0 <= i < |d| && out[k] == d[i]
  }

  lemma PlacedBytes(order: ByteOrder, d: seq<byte>, out: seq<byte>)
    requires |out| == |d|
    requires |d| == 4 || |d| == 8 ==> forall k :: 0 <= k < |d| ==> PlacedAt(order, d, out, k)
    requires |d| != 4 && |d| != 8 ==> out == d
    ensures out == Permute(order, d)
  {
    var p := Permute(order, d);
    if |d| == 4 || |d| == 8 {
      forall k | 0 <= k < |d| ensures out[k] == p[k] {
        assert PlacedAt(order, d, out, k);
      }
    }
  }

  /** Reordering twice restores the bytes exactly for the known orders, for
      lengths the code leaves alone, and for all-zero data. An unknown order
      name, which the program's own validation refuses, would zero 4- and 8-byte
      values. */
  lemma ReorderTwice(order: ByteOrder, d: seq<byte>)
    ensures Permute(order, Permute(order, d)) == d
            <==> !order.OtherOrder? || (|d| != 4 && |d| != 8) || d == Zeros(|d|)
  {
  }

  function Word(hi: int, lo: int): int { hi * 256 + lo }

  /** The two registers read, under each byte order: which is the high word, and
      whether their bytes are swapped, as the comment at lines 383-391 gives it for
      four bytes [A B C D]. An unknown order leaves zeros. */
  lemma FourByteOrders(order: ByteOrder, d: seq<byte>)
    requires |d| == 4
    ensures BigEndian(Permute(order, d)) ==
            match order
            case ABCD | Unset => Word(d[0], d[1]) * 0x1_0000 + Word(d[2], d[3])
            case CDAB => Word(d[2], d[3]) * 0x1_0000 + Word(d[0], d[1])
            case BADC => Word(d[1], d[0]) * 0x1_0000 + Word(d[3], d[2])
            case DCBA => Word(d[3], d[2]) * 0x1_0000 + Word(d[1], d[0])
            case OtherOrder(_) => 0
  {
    hide BigEndian;
    FourBytes(Permute(order, d));
  }

  /** Eight bytes: word swap and byte swap work on each 32-bit half separately,
      so CDAB does not reverse the four words; full reversal also swaps the
      halves. An unknown order zeroes both. */
  lemma EightByteOrders(order: ByteOrder, d: seq<byte>)
    requires |d| == 8
    ensures Permute(order, d) ==
            if order == DCBA then Permute(order, d[4..]) + Permute(order, d[..4])
            else Permute(order, d[..4]) + Permute(order, d[4..])
  {
  }

  lemma FourBytes(d: seq<byte>)
    requires |d| == 4
    ensures BigEndian(d) == Word(d[0], d[1]) * 0x1_0000 + Word(d[2], d[3])
  {
    assert d[..3][..2] == d[..2] && d[..2][..1] == d[..1];
    assert BigEndian(d[..1]) == Word(0, d[0]);
    assert BigEndian(d[..2]) == Word(d[0], d[1]);
    assert BigEndian(d[..3]) == Word(BigEndian(d[..2]), d[2]);
    assert BigEndian(d) == Word(BigEndian(d[..3]), d[3]);
  }

  // ------------------------------------------------- fields

  /** Two's complement of the low w bits. */
  function Signed(x: nat, w: nat): int
    requires w > 0
  {
    var low := x % Pow2(w);
    if low < Pow2(w - 1) then low else low - Pow2(w)
  }

  function Convert(d: DataType, len: int, field: nat): Value {
    match d
    case Bool => BoolValue(field == 1)
    case Int16 => Number(if len == 16 then Signed(field, 16) else field)
    case Int32 => Number(if len == 32 then Signed(field, 32) else field)
    case Float32 => Float32Bits(field % Pow2(32))
    case Double => Float64Bits(field)
    case _ => Number(field)
  }

  function RawValue(d: seq<byte>): nat {
    if |d| in {2, 4, 8} then BigEndian(d) else 0
  }

  function DecodeRegisters(order: ByteOrder, p: Point, slice: seq<byte>): Value
    requires p.bitOffset >= 0 && p.bitLen >= 0
  {
    var raw := RawValue(Permute(order, slice));
    var field := BitAnd(Shr(raw, p.bitOffset), Mask64(EffectiveLen(p)));
    Convert(p.dataType, EffectiveLen(p), field)
  }

  function DecodeBit(raw: byte, bitOffset: nat): Value {
    BoolValue(BitAnd(Shr(raw, bitOffset), 1) == 1)
  }

  /** The bounds check and slice of a register point, in uint16 arithmetic. */
  function RegisterSlice(address: u16, count: nat, start: u16, raw: seq<byte>): Option<seq<byte>>
    requires start <= address && 1 <= count <= 4 && address - start + count <= MAX_REGISTERS
  {
    var byteOffset, required := U16(U16(address - start) * 2), U16(count * 2);
    if U16(byteOffset + required) > U16(|raw|) then None
    else Some(raw[byteOffset..byteOffset + required])
  }

  /** On a complete reply the check passes and the slice is the point's own. */
  lemma RegisterSliceExact(address: u16, count: nat, start: u16, raw: seq<byte>)
    requires start <= address && 1 <= count <= 4 && address - start + count <= MAX_REGISTERS
    requires 2 * (address - start + count) <= |raw| < 0x1_0000
    ensures RegisterSlice(address, count, start, raw) == Some(raw[2 * (address - start)..2 * (address - start) + 2 * count])
  {
  }

  function DecodeBitAt(address: u16, start: u16, raw: seq<byte>): Option<Value> {
    var bitIdx := U16(address - start);
    if bitIdx / 8 >= |raw| then None else Some(DecodeBit(raw[bitIdx / 8], bitIdx % 8))
  }

  lemma DecodeBitAtExact(address: u16, start: u16, raw: seq<byte>, i: nat, j: nat)
    requires address == start + 8 * i + j && j < 8 && i < |raw|
    ensures DecodeBitAt(address, start, raw) == Some(BoolValue(Shr(raw[i], j) % 2 == 1))
  {
    assert U16(address - start) == 8 * i + j;
    LowBit(Shr(raw[i], j));
  }

  /** One point cut out of the reply to its chunk; None when the reply is too
      short and the source skips the point. */
  function DecodeAt(order: ByteOrder, c: ReadChunk, p: Point, raw: seq<byte>): Option<Value>
    requires |c.points| > 0 && ChunkOk(c, c.points[0].regType) && p in c.points
    requires p.bitOffset >= 0 && p.bitLen >= 0
  {
    if IsRegTypeBit(c.points[0].regType) then
      DecodeBitAt(p.address, c.startAddr, raw)
    else
      InChunk(c, p);
      match RegisterSlice(p.address, GetRegisterCount(p), c.startAddr, raw)
      case None => None
      case Some(slice) => Some(DecodeRegisters(order, p, slice))
  }

  /** The bytes of a reply that hold the point, counted without wrap-around. */
  function FirstByte(c: ReadChunk, p: Point): int {
    if IsRegTypeBit(p.regType) then (p.address - c.startAddr) / 8 else 2 * (p.address - c.startAddr)
  }

  function ByteCount(p: Point): nat { if IsRegTypeBit(p.regType) then 1 else 2 * GetRegisterCount(p) }

  /** A point is skipped if and only if the reply ends before its last byte;
      otherwise its own bytes alone decide, whatever the rest of the reply. */
  lemma SkippedExactly(order: ByteOrder, c: ReadChunk, p: Point, raw: seq<byte>)
    requires |c.points| > 0 && ChunkOk(c, c.points[0].regType) && p in c.points && Valid(p) && |raw| < 0x1_0000
    ensures p.bitOffset >= 0 && p.bitLen >= 0 && FirstByte(c, p) >= 0
    ensures DecodeAt(order, c, p, raw).None? <==> |raw| < FirstByte(c, p) + ByteCount(p)
    ensures |raw| >= FirstByte(c, p) + ByteCount(p) ==>
              var own := raw[FirstByte(c, p)..FirstByte(c, p) + ByteCount(p)];
              DecodeAt(order, c, p, raw) == Some(
                if IsRegTypeBit(p.regType) then BoolValue(Shr(own[0], (p.address - c.startAddr) % 8) % 2 == 1)
                else DecodeRegisters(order, p, own))
  {
    hide Valid, DecodeRegisters, ChunkOk, Shr, RegisterSlice, DecodeBitAt, GetRegisterCount;
    ValidPoint(p);
    InChunk(c, p);
    if IsRegTypeBit(p.regType) {
      DecodeBitAtSome(p.address, c.startAddr, raw);
    } else {
      RegisterSliceSome(p.address, GetRegisterCount(p), c.startAddr, raw);
    }
  }

  lemma DecodeBitAtSome(address: u16, start: u16, raw: seq<byte>)
    requires start <= address
    ensures var i := (address - start) / 8;
      DecodeBitAt(address, start, raw) ==
        if |raw| < i + 1 then None else Some(BoolValue(Shr(raw[i], (address - start) % 8) % 2 == 1))
  {
    var k := address - start;
    if k / 8 < |raw| { DecodeBitAtExact(address, start, raw, k / 8, k % 8); }
  }

  lemma RegisterSliceSome(address: u16, count: nat, start: u16, raw: seq<byte>)
    requires start <= address && 1 <= count <= 4 && address - start + count <= MAX_REGISTERS && |raw| < 0x1_0000
    ensures var from := 2 * (address - start);
      RegisterSlice(address, count, start, raw) == if |raw| < from + 2 * count then None else Some(raw[from..from + 2 * count])
  {
    hide U16;
    SmallOffsets(address - start, count);
  }

  /** No wrap-around inside a chunk. */
  lemma SmallOffsets(offset: nat, count: nat)
    requires count <= 4 && offset + count <= MAX_REGISTERS
    ensures U16(U16(offset) * 2) == 2 * offset && U16(count * 2) == 2 * count
    ensures U16(2 * offset + 2 * count) == 2 * offset + 2 * count
    ensures forall n: nat :: n < 0x1_0000 ==> U16(n) == n
  {
  }

  lemma InChunk(c: ReadChunk, p: Point)
    requires |c.points| > 0 && ChunkOk(c, c.points[0].regType) && p in c.points
    ensures p.regType == c.points[0].regType && c.startAddr <= p.address
    ensures p.address - c.startAddr + GetRegisterCount(p) <= c.quantity <= MaxQuantity(p.regType)
    ensures c.startAddr + c.quantity <= 0x1_0000
  {
    var k :| 0 <= k < |c.points| && c.points[k] == p;
    assert Within(c.points[k], c.startAddr, c.startAddr + c.quantity);
  }

  /** Reading the point on its own: its registers, or its one bit. */
  function PointValue(order: ByteOrder, img: Image, p: Point): Value
    requires Valid(p)
  {
    ValidPoint(p);
    if IsRegTypeBit(p.regType) then BoolValue(Inputs(img, p.regType)(p.address))
    else DecodeRegisters(order, p, RegisterBytes(Registers(img, p.regType), p.address, GetRegisterCount(p)))
  }

  /** A point decoded out of a conforming reply to its whole chunk has the value
      it has when read on its own; it is never skipped as out of bounds. */
  lemma BatchDecodesLikeSingle(order: ByteOrder, img: Image, c: ReadChunk, p: Point)
    requires |c.points| > 0 && ChunkOk(c, c.points[0].regType) && p in c.points && Valid(p)
    ensures p.bitOffset >= 0 && p.bitLen >= 0
    ensures DecodeAt(order, c, p, Reply(img, p.regType, c.startAddr, c.quantity)) == Some(PointValue(order, img, p))
  {
    ValidPoint(p);
    InChunk(c, p);
    if IsRegTypeBit(p.regType) {
      BitLikeSingle(order, img, c, p);
    } else {
      RegistersLikeSingle(order, img, c, p);
    }
  }

  lemma BitLikeSingle(order: ByteOrder, img: Image, c: ReadChunk, p: Point)
    requires |c.points| > 0 && ChunkOk(c, c.points[0].regType) && p in c.points && Valid(p)
    requires p.regType == c.points[0].regType && IsRegTypeBit(p.regType) && p.bitOffset >= 0 && p.bitLen >= 0
    requires c.startAddr <= p.address < c.startAddr + c.quantity
    ensures DecodeAt(order, c, p, Reply(img, p.regType, c.startAddr, c.quantity)) == Some(PointValue(order, img, p))
  {
    InChunk(c, p);
    var f, k := Inputs(img, p.regType), p.address - c.startAddr;
    var i, j := k / 8, k % 8;
    BitOfReply(f, c.startAddr, c.quantity, i, j);
    DecodeBitAtExact(p.address, c.startAddr, BitBytes(f, c.startAddr, c.quantity), i, j);
    assert DecodeBitAt(p.address, c.startAddr, BitBytes(f, c.startAddr, c.quantity)) == Some(BoolValue(f(p.address)));
  }

  lemma RegistersLikeSingle(order: ByteOrder, img: Image, c: ReadChunk, p: Point)
    requires |c.points| > 0 && ChunkOk(c, c.points[0].regType) && p in c.points && Valid(p)
    requires p.regType == c.points[0].regType && !IsRegTypeBit(p.regType) && p.bitOffset >= 0 && p.bitLen >= 0
    ensures DecodeAt(order, c, p, Reply(img, p.regType, c.startAddr, c.quantity)) == Some(PointValue(order, img, p))
  {
    InChunk(c, p);
    var k, n := p.address - c.startAddr, GetRegisterCount(p);
    var raw := Reply(img, p.regType, c.startAddr, c.quantity);
    RegistersOfReply(Registers(img, p.regType), c.startAddr, c.quantity, k, n);
    RegisterSliceExact(p.address, n, c.startAddr, raw);
    assert RegisterSlice(p.address, n, c.startAddr, raw) == Some(RegisterBytes(Registers(img, p.regType), p.address, n));
  }

  lemma LowBit(x: nat)
    ensures BitAnd(x, 1) == x % 2
  {
    assert BitAnd(x / 2, 0) == 0;
  }

  // ------------------------------------------------- what a value means

  predicate InSignedRange(n: int, w: nat)
    requires w > 0
  {
    0 <= n + Pow2(w - 1) && n < Pow2(w - 1)
  }

  /** The value of an accepted register point, given the number its reordered
      registers form: the field raw / 2^offset mod 2^length, negative only for
      signed types read at full width; floats and Bool take no field. */
  ghost predicate Denotes(p: Point, v: Value, raw: nat)
    requires p.bitOffset >= 0 && EffectiveLen(p) > 0
  {
    var len := EffectiveLen(p);
    var field := (raw / Pow2(p.bitOffset)) % Pow2(len);
    match p.dataType
    case Bool => v == BoolValue(raw % 2 == 1)
    case Float32 => v == Float32Bits(raw)
    case Double => v == Float64Bits(raw)
    case Int16 | Int32 =>
      && v.Number? && v.n % Pow2(len) == field
      && if len == TypeBitWidth(p.dataType) then InSignedRange(v.n, len) else 0 <= v.n < Pow2(len)
    case _ => v == Number(field)
  }

  lemma DecodeIsExact(order: ByteOrder, p: Point, slice: seq<byte>)
    requires Valid(p) && !IsRegTypeBit(p.regType) && |slice| == 2 * GetRegisterCount(p)
    ensures p.bitOffset >= 0 && p.bitLen >= 0 && EffectiveLen(p) > 0
    ensures p.bitOffset + EffectiveLen(p) <= 8 * |slice|
    ensures Denotes(p, DecodeRegisters(order, p, slice), BigEndian(Permute(order, slice)))
  {
    ValidPoint(p);
    hide Valid;
    hide BitAnd;
    hide Shr;
    hide Mask64;
    hide Denotes;
    hide Convert;
    hide Permute;
    var d := Permute(order, slice);
    var raw, len := BigEndian(d), EffectiveLen(p);
    BigEndianBound(d);
    Pow2Values();
    Pow2Grows(8 * |d|, 64);
    ExtractIsDivMod(raw, p.bitOffset, len);
    var field := (raw / Pow2(p.bitOffset)) % Pow2(len);
    assert DecodeRegisters(order, p, slice) == Convert(p.dataType, len, field);
    ConvertDenotes(p, raw);
  }

  lemma ConvertDenotes(p: Point, raw: nat)
    requires Valid(p) && !IsRegTypeBit(p.regType) && p.bitOffset >= 0 && EffectiveLen(p) > 0
    requires raw < Pow2(16 * GetRegisterCount(p))
    ensures Denotes(p, Convert(p.dataType, EffectiveLen(p), (raw / Pow2(p.bitOffset)) % Pow2(EffectiveLen(p))), raw)
  {
    ValidPoint(p);
    var len := EffectiveLen(p);
    var field := (raw / Pow2(p.bitOffset)) % Pow2(len);
    Pow2Values();
    if p.dataType.Int16? || p.dataType.Int32? {
      SignedDenotes(field, len);
      SmallMod(field, Pow2(len));
    } else if p.dataType.Bool? {
      assert Pow2(p.bitOffset) == 1 && Pow2(len) == 2;
    } else if p.dataType.Float32? || p.dataType.Double? {
      assert Pow2(p.bitOffset) == 1 && raw / 1 == raw;
      SmallMod(raw, Pow2(len));
    }
  }

  lemma SmallMod(x: nat, m: nat)
    requires x < m
    ensures x % m == x
  {
  }

  /** Two's complement keeps the residue and lands in the signed range. */
  lemma SignedDenotes(field: nat, w: nat)
    requires 0 < w && field < Pow2(w)
    ensures Signed(field, w) % Pow2(w) == field && InSignedRange(Signed(field, w), w)
  {
    SmallMod(field, Pow2(w));
    if field >= Pow2(w - 1) {
      DivUnique(field - Pow2(w), Pow2(w), -1, field);
    }
  }

  // ------------------------------------------------- encoding back

  predicate FullWidth(p: Point) { p.bitOffset == 0 && EffectiveLen(p) == TypeBitWidth(p.dataType) }

  /** The values a full-width register point can take. */
  predicate Representable(d: DataType, v: Value) {
    match d
    case Bool => v.BoolValue?
    case Int16 => v.Number? && -0x8000 <= v.n < 0x8000
    case UInt16 => v.Number? && 0 <= v.n < 0x1_0000
    case Int32 => v.Number? && -0x8000_0000 <= v.n < 0x8000_0000
    case UInt32 => v.Number? && 0 <= v.n < 0x1_0000_0000
    case Float32 => v.Float32Bits? && v.bits < 0x1_0000_0000
    case Double => v.Float64Bits? && v.bits < TWO_64
    case OtherData(_) => false
  }

  /** The register contents for a value, before byte reordering. */
  function EncodeRaw(d: DataType, v: Value): nat {
    match v
    case BoolValue(b) => if b then 1 else 0
    case Number(n) => n % Pow2(TypeBitWidth(d))
    case Float32Bits(bits) => bits
    case Float64Bits(bits) => bits
  }

  lemma DenotesUnique(p: Point, v: Value, w: Value, raw: nat)
    requires p.bitOffset >= 0 && EffectiveLen(p) > 0 && Denotes(p, v, raw) && Denotes(p, w, raw)
    ensures v == w
  {
    if p.dataType.Int16? || p.dataType.Int32? {
      var m := Pow2(EffectiveLen(p));
      assert m == 2 * Pow2(EffectiveLen(p) - 1);
      SameResidue(v.n, w.n, m);
    }
  }

  lemma SameResidue(a: int, b: int, m: int)
    requires m > 0 && a % m == b % m && -m < a - b < m
    ensures a == b
  {
    var k := a / m - b / m;
    assert a - b == k * m by {
      assert k * m == (a / m) * m - (b / m) * m;
    }
    if k >= 1 { MulAtLeast(k, m); } else if k <= -1 { MulAtLeast(-k, m); }
  }

  /** Encoding with the same byte order and decoding gives the value back. */
  lemma EncodeDecode(order: ByteOrder, p: Point, v: Value)
    requires Valid(p) && !IsRegTypeBit(p.regType) && FullWidth(p) && Representable(p.dataType, v)
    requires !order.OtherOrder? || GetRegisterCount(p) == 1
    ensures p.bitLen >= 0
    ensures DecodeRegisters(order, p, Permute(order, ToBigEndian(EncodeRaw(p.dataType, v), 2 * GetRegisterCount(p)))) == v
  {
    ValidPoint(p);
    var raw, n := EncodeRaw(p.dataType, v), 2 * GetRegisterCount(p);
    EncodedDenotes(p, v);
    BigEndianRoundTrip(raw, n);
    var d := ToBigEndian(raw, n);
    ReorderTwice(order, d);
    DecodeIsExact(order, p, Permute(order, d));
    DenotesUnique(p, v, DecodeRegisters(order, p, Permute(order, d)), raw);
  }

  lemma EncodedDenotes(p: Point, v: Value)
    requires Valid(p) && !IsRegTypeBit(p.regType) && FullWidth(p) && Representable(p.dataType, v)
    ensures EffectiveLen(p) > 0 && Denotes(p, v, EncodeRaw(p.dataType, v))
    ensures EncodeRaw(p.dataType, v) < Pow2(8 * (2 * GetRegisterCount(p)))
  {
    hide Valid;
    ValidPoint(p);
    Pow2Values();
    if v.Number? {
      hide Denotes;
      NumberDenotes(p, v.n);
    } else {
      PatternDenotes(p, v);
    }
  }

  lemma PatternDenotes(p: Point, v: Value)
    requires FullWidth(p) && Representable(p.dataType, v) && !v.Number?
    ensures EffectiveLen(p) > 0 && Denotes(p, v, EncodeRaw(p.dataType, v))
  {
    assert EncodeRaw(p.dataType, v) / Pow2(0) == EncodeRaw(p.dataType, v);
  }

  lemma NumberDenotes(p: Point, n: int)
    requires Valid(p) && !IsRegTypeBit(p.regType) && FullWidth(p) && Representable(p.dataType, Number(n))
    ensures EffectiveLen(p) > 0 && Denotes(p, Number(n), EncodeRaw(p.dataType, Number(n)))
  {
    ValidPoint(p);
    var len := EffectiveLen(p);
    var raw := n % Pow2(len);
    Pow2Values();
    assert Pow2(15) == 0x8000 && Pow2(31) == 0x8000_0000;
    assert (raw / Pow2(0)) % Pow2(len) == raw by {
      assert raw / 1 == raw;
      SmallMod(raw, Pow2(len));
    }
    if n >= 0 { SmallMod(n, Pow2(len)); }
  }
}
