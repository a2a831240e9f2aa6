/** Shifts and masks of unsigned words, bit by bit, and what they compute. */
module Bits {
  type byte = x: int | 0 <= x < 256

  const TWO_64 := 0x1_0000_0000_0000_0000

  function Pow2(n: nat): (r: nat)
    ensures r > 0
  {
    if n == 0 then 1 else 2 * Pow2(n - 1)
  }

  /** Logical shift right: drops the lowest bit n times. */
  function Shr(x: nat, n: nat): nat {
    if n == 0 then x else Shr(x / 2, n - 1)
  }

  /** Bitwise and. */
  function BitAnd(x: nat, y: nat): nat {
    if x == 0 || y == 0 then 0
    else (if x % 2 == 1 && y % 2 == 1 then 1 else 0) + 2 * BitAnd(x / 2, y / 2)
  }

  /** `(1 << n) - 1` on 64-bit words: shifting out every bit leaves 0, and 0 - 1
      wraps to all ones. */
  function Mask64(n: nat): nat {
    ((if n >= 64 then 0 else Pow2(n)) - 1) % TWO_64
  }

  lemma MulAtLeast(k: int, d: int)
    requires k >= 1 && d > 0
    ensures k * d >= d && (-k) * d <= -d
  {
    assert (k - 1) * d >= 0;
    assert k * d == (k - 1) * d + d;
    assert (-k) * d == -(k * d);
  }

  lemma DivUnique(x: int, d: int, q: int, r: int)
    requires d > 0 && x == q * d + r && 0 <= r < d
    ensures x / d == q && x % d == r
  {
    var k := x / d - q;
    assert k * d == r - x % d by {
      assert k * d == (x / d) * d - q * d;
    }
    if k >= 1 {
      MulAtLeast(k, d);
    } else if k <= -1 {
      MulAtLeast(-k, d);
    }
  }

  /** Dividing by 2m halves first. */
  lemma HalveFirst(x: nat, m: nat)
    requires m > 0
    ensures x / (2 * m) == (x / 2) / m
    ensures x % (2 * m) == x % 2 + 2 * ((x / 2) % m)
  {
    var q, r := (x / 2) / m, (x / 2) % m;
    assert x / 2 == q * m + r;
    assert x == q * (2 * m) + (2 * r + x % 2);
    DivUnique(x, 2 * m, q, 2 * r + x % 2);
  }

  lemma {:induction false} ShrIsDiv(x: nat, n: nat)
    ensures Shr(x, n) == x / Pow2(n)
    decreases n
  {
    if n == 0 {
    } else {
      ShrIsDiv(x / 2, n - 1);
      HalveFirst(x, Pow2(n - 1));
    }
  }

  lemma {:induction false} MaskIsMod(x: nat, n: nat)
    ensures BitAnd(x, Pow2(n) - 1) == x % Pow2(n)
    decreases n
  {
    if n == 0 {
      assert x % 1 == 0;
    } else {
      MaskIsMod(x / 2, n - 1);
      MaskStep(x, Pow2(n - 1));
    }
  }

  lemma BitAndStep(x: nat, y: nat)
    ensures BitAnd(x, y) == (if x % 2 == 1 && y % 2 == 1 then 1 else 0) + 2 * BitAnd(x / 2, y / 2)
  {
  }

  lemma OddHalf(m: nat)
    requires m > 0
    ensures (2 * m - 1) / 2 == m - 1 && (2 * m - 1) % 2 == 1
  {
  }

  /** One bit of the mask and the mask above it. */
  lemma MaskStep(x: nat, m: nat)
    requires m > 0 && BitAnd(x / 2, m - 1) == (x / 2) % m
    ensures BitAnd(x, 2 * m - 1) == x % (2 * m)
  {
    var low := 2 * m - 1;
    BitAndStep(x, low);
    OddHalf(m);
    hide BitAnd;
    calc {
      BitAnd(x, low);
      (if x % 2 == 1 then 1 else 0) + 2 * BitAnd(x / 2, m - 1);
      x % 2 + 2 * ((x / 2) % m);
      { HalveFirst(x, m); }
      x % (2 * m);
    }
  }

  lemma {:induction false} Pow2Add(a: nat, b: nat)
    ensures Pow2(a + b) == Pow2(a) * Pow2(b)
    decreases a
  {
    if a == 0 {
    } else {
      Pow2Add(a - 1, b);
      assert Pow2(a + b) == 2 * Pow2(a - 1 + b);
    }
  }

  lemma {:induction false} Pow2Grows(a: nat, b: nat)
    requires a <= b
    ensures Pow2(a) <= Pow2(b)
    decreases b
  {
    if a == b {
    } else {
      Pow2Grows(a, b - 1);
    }
  }

  lemma Pow2Values()
    ensures Pow2(8) == 256 && Pow2(16) == 0x1_0000 && Pow2(32) == 0x1_0000_0000 && Pow2(64) == TWO_64
  {
    assert Pow2(8) == 256;
    Pow2Add(8, 8);
    Pow2Add(16, 16);
    Pow2Add(32, 32);
  }

  lemma MaskValue(len: nat)
    requires len <= 64
    ensures Mask64(len) == Pow2(len) - 1
  {
    Pow2Values();
    hide Pow2;
    if len < 64 {
      Pow2Grows(len, 64);
    }
  }

  /** The extraction `(x >> off) & mask` of a 64-bit word, arithmetically. */
  lemma ExtractIsDivMod(x: nat, off: nat, len: nat)
    requires x < TWO_64 && len <= 64
    ensures BitAnd(Shr(x, off), Mask64(len)) == (x / Pow2(off)) % Pow2(len)
  {
    ShrIsDiv(x, off);
    MaskIsMod(Shr(x, off), len);
    MaskValue(len);
  }

  // ------------------------------------------------- bytes

  /** The big-endian value of a byte string. */
  function BigEndian(d: seq<byte>): nat {
    if d == [] then 0 else BigEndian(d[..|d| - 1]) * 256 + d[|d| - 1]
  }

  function ToBigEndian(v: nat, n: nat): (d: seq<byte>)
    ensures |d| == n
  {
    if n == 0 then [] else ToBigEndian(v / 256, n - 1) + [v % 256]
  }

  lemma {:induction false} BigEndianBound(d: seq<byte>)
    ensures BigEndian(d) < Pow2(8 * |d|)
  {
    if d == [] {
    } else {
      BigEndianBound(d[..|d| - 1]);
      Pow2Add(8, 8 * (|d| - 1));
      Pow2Values();
    }
  }

  /** Printing a value in n bytes and reading it back. */
  lemma {:induction false} BigEndianRoundTrip(v: nat, n: nat)
    requires v < Pow2(8 * n)
    ensures BigEndian(ToBigEndian(v, n)) == v
    decreases n
  {
    if n == 0 {
    } else {
      Pow2Add(8, 8 * (n - 1));
      Pow2Values();
      BigEndianRoundTrip(v / 256, n - 1);
      assert ToBigEndian(v, n)[..n - 1] == ToBigEndian(v / 256, n - 1);
    }
  }
}
