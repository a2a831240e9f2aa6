/** What a conforming device answers. Reads pack registers high byte first and
    coils from the lowest bit of the first byte up, padding with zeros
    (MODBUS Application Protocol Specification V1.1b3, sections 6.1 to 6.4);
    single writes change one coil or one register (sections 6.5 and 6.6). */
module Wire {
  import opened Points
  import opened Bits
  import opened Planner

  /** The four address spaces of a device; a register holds its number mod
      65536. */
  datatype Image = Image(coils: int -> bool, discrete: int -> bool, holding: int -> int, input: int -> int)

  function Registers(img: Image, r: RegType): int -> int {
    if r == HoldingReg then img.holding else img.input
  }

  function Inputs(img: Image, r: RegType): int -> bool {
    if r == CoilStatus then img.coils else img.discrete
  }

  function RegisterBytes(f: int -> int, start: u16, qty: nat): seq<byte>
    requires start + qty <= 0x1_0000
  {
    seq(2 * qty, i requires 0 <= i < 2 * qty => if i % 2 == 0 then U16(f(start + i / 2)) / 256 else U16(f(start + i / 2)) % 256)
  }

  /** Up to eight inputs in one byte, the first in its lowest bit. */
  function PackedByte(f: int -> bool, start: int, n: nat): (b: nat)
    requires 0 <= start && start + n <= 0x1_0000
    ensures b < Pow2(n)
    decreases n
  {
    if n == 0 then 0 else (if f(start) then 1 else 0) + 2 * PackedByte(f, start + 1, n - 1)
  }

  function BitBytes(f: int -> bool, start: u16, qty: nat): seq<byte>
    requires start + qty <= 0x1_0000
  {
    Pow2Values();
    seq((qty + 7) / 8, i requires 0 <= i < (qty + 7) / 8 => PackedAt(f, start, qty, i))
  }

  function PackedAt(f: int -> bool, start: u16, qty: nat, i: nat): byte
    requires start + qty <= 0x1_0000 && i < (qty + 7) / 8
  {
    var n := if qty - 8 * i < 8 then qty - 8 * i else 8;
    Pow2Values();
    Pow2Grows(n, 8);
    PackedByte(f, start + 8 * i, n)
  }

  function Reply(img: Image, r: RegType, start: u16, qty: nat): seq<byte>
    requires start + qty <= 0x1_0000
  {
    if IsRegTypeBit(r) then BitBytes(Inputs(img, r), start, qty) else RegisterBytes(Registers(img, r), start, qty)
  }

  /** The reads a device carries out: at least one and at most 2000 inputs or 125
      registers, inside the address space; it refuses all others. */
  predicate Accepts(r: RegType, start: u16, qty: nat) {
    1 <= qty <= (if IsRegTypeBit(r) then 0x7D0 else 0x7D) && start + qty <= 0x1_0000
  }

  /** The planner's limits are the largest quantities accepted. */
  lemma LargestRequest(r: RegType, qty: nat)
    ensures Accepts(r, 0, qty) <==> 1 <= qty <= MaxQuantity(r)
  {
  }

  lemma RequestAccepted(c: ReadChunk, r: RegType)
    requires ChunkOk(c, r)
    ensures Accepts(r, c.startAddr, c.quantity)
  {
  }

  /** Coil k of a packed reply is bit k % 8 of byte k / 8. */
  lemma {:induction false} PackedBit(f: int -> bool, start: int, n: nat, j: nat)
    requires 0 <= start && start + n <= 0x1_0000 && j < n
    ensures Shr(PackedByte(f, start, n), j) % 2 == if f(start + j) then 1 else 0
    decreases n
  {
    if j == 0 {
    } else {
      PackedBit(f, start + 1, n - 1, j - 1);
      assert PackedByte(f, start, n) / 2 == PackedByte(f, start + 1, n - 1);
    }
  }

  lemma BitOfReply(f: int -> bool, start: u16, qty: nat, i: nat, j: nat)
    requires start + qty <= 0x1_0000 && j < 8 && 8 * i + j < qty
    ensures i < |BitBytes(f, start, qty)|
    ensures Shr(BitBytes(f, start, qty)[i], j) % 2 == if f(start + 8 * i + j) then 1 else 0
  {
    hide Pow2;
    hide Shr;
    hide PackedByte;
    var n := if qty - 8 * i < 8 then qty - 8 * i else 8;
    assert i < (qty + 7) / 8;
    PackedBit(f, start + 8 * i, n, j);
    assert BitBytes(f, start, qty)[i] == PackedAt(f, start, qty, i);
  }

  /** The bytes of some registers inside a longer reply are the reply to a
      request for just these registers. */
  lemma RegistersOfReply(f: int -> int, start: u16, qty: nat, off: nat, count: nat)
    requires start + qty <= 0x1_0000 && off + count <= qty
    ensures start + off < 0x1_0000 || count == 0
    ensures count > 0 ==> RegisterBytes(f, start, qty)[2 * off..2 * off + 2 * count] == RegisterBytes(f, start + off, count)
  {
    if count > 0 {
      var whole, own := RegisterBytes(f, start, qty), RegisterBytes(f, start + off, count);
      forall i | 0 <= i < 2 * count ensures whole[2 * off..2 * off + 2 * count][i] == own[i] {
        assert (2 * off + i) % 2 == i % 2 && (2 * off + i) / 2 == off + i / 2;
      }
    }
  }

  // ------------------------------------------------- writes

  /** Section 6.6. */
  function WriteRegister(img: Image, a: u16, v: u16): Image {
    img.(holding := x => if x == a then v else img.holding(x))
  }

  /** Section 6.5: 0xFF00 sets the coil, 0x0000 clears it, anything else leaves
      it alone. */
  function WriteCoil(img: Image, a: u16, v: u16): Image {
    if v == 0xFF00 then img.(coils := x => x == a || img.coils(x))
    else if v == 0 then img.(coils := x => x != a && img.coils(x))
    else img
  }
}
