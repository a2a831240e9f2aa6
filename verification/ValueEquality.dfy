/** When two collected values count as unchanged: reflect.DeepEqual on values
    that are a bool or a float64 (internal/kafkapub/coordinator.go:119). Numbers
    are compared as floats, so NaN differs from itself and -0 equals 0. */
module ValueEquality {
  import opened Bits
  import opened Decoder

  /** Finite(m, e) is m * 2^e with m odd, or zero; each number has one form. */
  datatype Float = NaN | Infinite(negative: bool) | Finite(m: int, e: int)

  function Normal(m: int, e: int): Float
    decreases if m < 0 then -m else m
  {
    if m == 0 then Finite(0, 0) else if m % 2 == 0 then Normal(m / 2, e + 1) else Finite(m, e)
  }

  /** The number of an IEEE 754 pattern with the given sign, exponent field and
      fraction field: `ones` is the exponent field of all ones, `implicit` the
      leading bit of the significand, 2^-unit the least positive number. */
  function FromFields(negative: bool, exponent: nat, fraction: nat, ones: nat, implicit: nat, unit: int): Float {
    if exponent == ones then
      if fraction == 0 then Infinite(negative) else NaN
    else
      var magnitude := if exponent == 0 then fraction else implicit + fraction;
      Normal(if negative then -magnitude else magnitude, (if exponent == 0 then 0 else exponent - 1) - unit)
  }

  function FloatOf(v: Value): Float
    requires !v.BoolValue?
  {
    match v
    case Number(n) => Normal(n, 0)
    case Float32Bits(bits) =>
      FromFields((bits / 0x8000_0000) % 2 == 1, (bits / 0x80_0000) % 0x100, bits % 0x80_0000, 0xFF, 0x80_0000, 149)
    case Float64Bits(bits) =>
      FromFields((bits / 0x8000_0000_0000_0000) % 2 == 1, (bits / 0x10_0000_0000_0000) % 0x800, bits % 0x10_0000_0000_0000,
                 0x7FF, 0x10_0000_0000_0000, 1074)
  }

  predicate Same(a: Value, b: Value) {
    if a.BoolValue? || b.BoolValue? then a == b
    else FloatOf(a) != NaN && FloatOf(a) == FloatOf(b)
  }

  /** A partial equivalence: symmetric and transitive, reflexive except on NaN. */
  lemma SamePartialEquivalence(a: Value, b: Value, c: Value)
    ensures Same(a, b) ==> Same(b, a)
    ensures Same(a, b) && Same(b, c) ==> Same(a, c)
    ensures Same(a, a) <==> a.BoolValue? || FloatOf(a) != NaN
  {
  }

  // ------------------------------------------------- which numbers are the same

  /** The fields of a single or double precision pattern. */
  function Negative(v: Value): bool
    requires v.Float32Bits? || v.Float64Bits?
  {
    (if v.Float32Bits? then v.bits / 0x8000_0000 else v.bits / 0x8000_0000_0000_0000) % 2 == 1
  }

  function Exponent(v: Value): nat
    requires v.Float32Bits? || v.Float64Bits?
  {
    if v.Float32Bits? then (v.bits / 0x80_0000) % 0x100 else (v.bits / 0x10_0000_0000_0000) % 0x800
  }

  function Fraction(v: Value): nat
    requires v.Float32Bits? || v.Float64Bits?
  {
    v.bits % ImplicitBit(v)
  }

  function ImplicitBit(v: Value): nat { if v.Float32Bits? then 0x80_0000 else 0x10_0000_0000_0000 }

  predicate AllOnes(v: Value) {
    !v.BoolValue? && !v.Number? && Exponent(v) == if v.Float32Bits? then 0xFF else 0x7FF
  }

  predicate NaNPattern(v: Value) { AllOnes(v) && Fraction(v) != 0 }

  predicate InfinitePattern(v: Value) { AllOnes(v) && Fraction(v) == 0 }

  /** Subnormal patterns have no implicit bit. */
  function Mantissa(v: Value): int
    requires v.Float32Bits? || v.Float64Bits?
  {
    var magnitude := if Exponent(v) == 0 then Fraction(v) else ImplicitBit(v) + Fraction(v);
    if Negative(v) then -magnitude else magnitude
  }

  /** How often the unit of the width is doubled. */
  function Doublings(v: Value): nat
    requires v.Float32Bits? || v.Float64Bits?
  {
    if Exponent(v) == 0 then 0 else Exponent(v) - 1
  }

  /** A finite number in units of 2^-u, where 2^-149 and 2^-1074 are the least
      numbers of single and double precision. */
  function Units(v: Value, u: nat): int
    requires u >= 1074 && !v.BoolValue? && !AllOnes(v)
  {
    match v
    case Number(n) => n * Pow2(u)
    case Float32Bits(_) => Mantissa(v) * Pow2(u - 149 + Doublings(v))
    case Float64Bits(_) => Mantissa(v) * Pow2(u - 1074 + Doublings(v))
  }

  predicate Normalised(f: Float) { f.Finite? && (f.m % 2 != 0 || (f.m == 0 && f.e == 0)) }

  lemma {:induction false} NormalUnits(m: int, e: int, u: nat)
    requires e + u >= 0
    ensures var n := Normal(m, e); Normalised(n) && n.e + u >= 0 && n.m * Pow2(n.e + u) == m * Pow2(e + u)
    decreases if m < 0 then -m else m
  {
    if m == 0 || m % 2 != 0 {
    } else {
      var h := m / 2;
      NormalUnits(h, e + 1, u);
      assert Pow2(e + 1 + u) == 2 * Pow2(e + u);
      MoveTwo(h, Pow2(e + u));
    }
  }

  lemma MoveTwo(h: int, p: nat)
    ensures h * (2 * p) == (2 * h) * p
  {
  }

  /** Two normalised numbers of one value are one. */
  lemma {:induction false} OddUnique(m: int, j: nat, n: int, k: nat)
    requires m % 2 != 0 && n % 2 != 0 && m * Pow2(j) == n * Pow2(k)
    ensures m == n && j == k
    decreases j + k
  {
    if j == 0 && k == 0 {
    } else if j == 0 {
      EvenProduct(n, k);
    } else if k == 0 {
      EvenProduct(m, j);
    } else {
      EvenProduct(m, j);
      EvenProduct(n, k);
      OddUnique(m, j - 1, n, k - 1);
    }
  }

  lemma EvenProduct(n: int, k: nat)
    requires k > 0
    ensures n * Pow2(k) == 2 * (n * Pow2(k - 1)) && (n * Pow2(k)) % 2 == 0
  {
    var p := Pow2(k - 1);
    assert Pow2(k) == 2 * p;
    hide Pow2;
    assert n * (2 * p) == 2 * (n * p);
  }

  lemma NormalisedUnique(f: Float, g: Float, u: nat)
    requires Normalised(f) && Normalised(g) && f.e + u >= 0 && g.e + u >= 0
    requires f.m * Pow2(f.e + u) == g.m * Pow2(g.e + u)
    ensures f == g
  {
    hide Pow2;
    if f.m == 0 {
      ZeroProduct(g.m, Pow2(g.e + u));
    } else if g.m == 0 {
      ZeroProduct(f.m, Pow2(f.e + u));
    } else {
      OddUnique(f.m, f.e + u, g.m, g.e + u);
    }
  }

  lemma ZeroProduct(m: int, p: nat)
    requires p > 0 && m * p == 0
    ensures m == 0
  {
    if m != 0 { MulAtLeast(if m < 0 then -m else m, p); }
  }

  /** What FloatOf finds in a value, by its fields. */
  ghost predicate FloatIs(v: Value, u: nat)
    requires u >= 1074 && !v.BoolValue?
  {
    && (NaNPattern(v) <==> FloatOf(v) == NaN)
    && (InfinitePattern(v) ==> FloatOf(v) == Infinite(Negative(v)))
    && (!AllOnes(v) ==> var f := FloatOf(v); Normalised(f) && f.e + u >= 0 && f.m * Pow2(f.e + u) == Units(v, u))
  }

  lemma NumberIs(n: int, u: nat)
    requires u >= 1074
    ensures FloatIs(Number(n), u)
  {
    hide Pow2, Normal;
    NormalUnits(n, 0, u);
  }

  lemma SingleIs(bits: nat, u: nat)
    requires u >= 1074
    ensures FloatIs(Float32Bits(bits), u)
  {
    var v := Float32Bits(bits);
    SingleFloat(bits);
    hide Pow2, Normal, Negative, Exponent, Fraction, Mantissa;
    if !AllOnes(v) { NormalUnits(Mantissa(v), Doublings(v) - 149, u); }
  }

  lemma SingleFloat(bits: nat)
    ensures var v := Float32Bits(bits);
      FloatOf(v) ==
        if NaNPattern(v) then NaN else if AllOnes(v) then Infinite(Negative(v)) else Normal(Mantissa(v), Doublings(v) - 149)
  {
    hide Normal;
  }

  lemma DoubleIs(bits: nat, u: nat)
    requires u >= 1074
    ensures FloatIs(Float64Bits(bits), u)
  {
    var v := Float64Bits(bits);
    DoubleFloat(bits);
    hide Pow2, Normal, Negative, Exponent, Fraction, Mantissa;
    if !AllOnes(v) { NormalUnits(Mantissa(v), Doublings(v) - 1074, u); }
  }

  lemma DoubleFloat(bits: nat)
    ensures var v := Float64Bits(bits);
      FloatOf(v) ==
        if NaNPattern(v) then NaN else if AllOnes(v) then Infinite(Negative(v)) else Normal(Mantissa(v), Doublings(v) - 1074)
  {
    hide Normal;
  }

  lemma EveryFloatIs(v: Value, u: nat)
    requires u >= 1074 && !v.BoolValue?
    ensures FloatIs(v, u)
  {
    hide FloatIs;
    match v
    case Number(n) => NumberIs(n, u);
    case Float32Bits(bits) => SingleIs(bits, u);
    case Float64Bits(bits) => DoubleIs(bits, u);
  }

  /** Two numbers count as the same if and only if both are finite and equal,
      whatever their kinds, or both are the same infinity. */
  lemma SameExactly(a: Value, b: Value, u: nat)
    requires u >= 1074 && !a.BoolValue? && !b.BoolValue?
    ensures Same(a, b) <==>
              || (!AllOnes(a) && !AllOnes(b) && Units(a, u) == Units(b, u))
              || (InfinitePattern(a) && InfinitePattern(b) && Negative(a) == Negative(b))
  {
    hide FloatOf, Pow2, Units;
    EveryFloatIs(a, u);
    EveryFloatIs(b, u);
    if !AllOnes(a) && !AllOnes(b) && Units(a, u) == Units(b, u) {
      NormalisedUnique(FloatOf(a), FloatOf(b), u);
    }
  }

  /** Different integers always differ. */
  lemma IntegersDiffer(a: int, b: int)
    ensures Same(Number(a), Number(b)) <==> a == b
  {
    hide Pow2, Same;
    SameExactly(Number(a), Number(b), 1074);
    var p := Pow2(1074);
    assert Units(Number(a), 1074) == a * p && Units(Number(b), 1074) == b * p;
    if a * p == b * p {
      assert (a - b) * p == 0;
      ZeroProduct(a - b, p);
    }
  }

  lemma BoolsDiffer(a: bool, b: Value)
    ensures Same(BoolValue(a), b) <==> b == BoolValue(a)
  {
  }

  /** Scaled mantissas of one width: only equal ones have equal values. */
  lemma ScaledUnique(m: int, j: nat, n: int, k: nat, top: nat)
    requires -2 * top < m < 2 * top && -2 * top < n < 2 * top && j <= k
    requires j < k ==> n >= top || -n >= top
    requires m * Pow2(j) == n * Pow2(k)
    ensures j == k && m == n
  {
    var p := Pow2(j);
    if j < k {
      Pow2Grows(j + 1, k);
      var q := Pow2(k);
      assert q >= 2 * p;
      hide Pow2;
      TooFar(m, p, n, q, top);
    } else {
      hide Pow2;
      assert (m - n) * p == 0;
      ZeroProduct(m - n, p);
    }
  }

  lemma TooFar(m: int, p: nat, n: int, q: nat, top: nat)
    requires -2 * top < m < 2 * top && (n >= top || -n >= top) && 0 < 2 * p <= q
    ensures m * p != n * q
  {
    Magnitude(m, p);
    Magnitude(n, q);
    var a, b := Abs(m), Abs(n);
    MulMono(top, b, q);
    MulMono(2 * p, q, top);
    DoubledProduct(a, top, p);
  }

  lemma DoubledProduct(a: nat, top: nat, p: nat)
    requires a < 2 * top && p > 0
    ensures a * p < (2 * p) * top
  {
    MulMono(a + 1, 2 * top, p);
    assert (a + 1) * p == a * p + p;
  }

  function Abs(m: int): nat { if m < 0 then -m else m }

  lemma Magnitude(m: int, p: nat)
    ensures Abs(m * p) == Abs(m) * p
  {
    assert (-m) * p == -(m * p);
    MulMono(0, Abs(m), p);
  }

  lemma MulMono(a: nat, b: nat, c: nat)
    requires a <= b
    ensures a * c <= b * c
  {
    assert (b - a) * c >= 0;
  }

  predicate OneWidth(a: Value, b: Value) {
    (a.Float32Bits? && b.Float32Bits? && a.bits < 0x1_0000_0000 && b.bits < 0x1_0000_0000)
    || (a.Float64Bits? && b.Float64Bits? && a.bits < TWO_64 && b.bits < TWO_64)
  }

  predicate ZeroPattern(v: Value)
    requires v.Float32Bits? || v.Float64Bits?
  {
    v.bits % (if v.Float32Bits? then 0x8000_0000 else 0x8000_0000_0000_0000) == 0
  }

  /** The sign is the bit above the exponent field. */
  lemma SingleFields(bits: nat)
    requires bits < 0x1_0000_0000
    ensures bits == (bits / 0x8000_0000) % 2 * 0x8000_0000 + (bits / 0x80_0000) % 0x100 * 0x80_0000 + bits % 0x80_0000
    ensures bits % 0x8000_0000 == (bits / 0x80_0000) % 0x100 * 0x80_0000 + bits % 0x80_0000
  {
    var q := bits / 0x80_0000;
    DivUnique(bits, 0x8000_0000, q / 0x100, q % 0x100 * 0x80_0000 + bits % 0x80_0000);
  }

  lemma DoubleFields(bits: nat)
    requires bits < TWO_64
    ensures bits == (bits / 0x8000_0000_0000_0000) % 2 * 0x8000_0000_0000_0000
                    + (bits / 0x10_0000_0000_0000) % 0x800 * 0x10_0000_0000_0000 + bits % 0x10_0000_0000_0000
    ensures bits % 0x8000_0000_0000_0000
            == (bits / 0x10_0000_0000_0000) % 0x800 * 0x10_0000_0000_0000 + bits % 0x10_0000_0000_0000
  {
    var q := bits / 0x10_0000_0000_0000;
    DivUnique(bits, 0x8000_0000_0000_0000, q / 0x800, q % 0x800 * 0x10_0000_0000_0000 + bits % 0x10_0000_0000_0000);
  }

  lemma PatternOf(a: Value, b: Value)
    requires OneWidth(a, b)
    ensures a == b <==> Negative(a) == Negative(b) && Exponent(a) == Exponent(b) && Fraction(a) == Fraction(b)
    ensures ZeroPattern(a) <==> Exponent(a) == 0 && Fraction(a) == 0
  {
    if a.Float32Bits? {
      SingleFields(a.bits);
      SingleFields(b.bits);
    } else {
      DoubleFields(a.bits);
      DoubleFields(b.bits);
    }
  }

  /** Two patterns of one width count as the same if and only if neither is NaN
      and they are equal or both are zeros. */
  lemma PatternsDiffer(a: Value, b: Value)
    requires OneWidth(a, b)
    ensures Same(a, b) <==> !NaNPattern(a) && !NaNPattern(b) && (a == b || (ZeroPattern(a) && ZeroPattern(b)))
  {
    hide Pow2, Same, Negative, Exponent, Fraction, ZeroPattern;
    SameExactly(a, b, 1074);
    PatternOf(a, b);
    PatternOf(b, a);
    if !AllOnes(a) && !AllOnes(b) && Units(a, 1074) == Units(b, 1074) {
      UnitsDecide(a, b, 1074);
    }
  }

  lemma NotANumber()
    ensures !Same(Float32Bits(0x7FC0_0000), Float32Bits(0x7FC0_0000))
  {
    hide Same;
    PatternsDiffer(Float32Bits(0x7FC0_0000), Float32Bits(0x7FC0_0000));
  }

  lemma SignedZero()
    ensures Same(Float32Bits(0x8000_0000), Float32Bits(0)) && Float32Bits(0x8000_0000) != Float32Bits(0)
  {
    hide Same;
    PatternsDiffer(Float32Bits(0x8000_0000), Float32Bits(0));
  }

  lemma UnitsDecide(a: Value, b: Value, u: nat)
    requires OneWidth(a, b) && u >= 1074 && !AllOnes(a) && !AllOnes(b) && Units(a, u) == Units(b, u)
    ensures a == b || (ZeroPattern(a) && ZeroPattern(b))
  {
    hide Pow2, Negative, Exponent, Fraction, ZeroPattern;
    PatternOf(a, b);
    PatternOf(b, a);
    var c := if a.Float32Bits? then u - 149 else u - 1074;
    FractionSmall(a);
    FractionSmall(b);
    if Doublings(a) <= Doublings(b) {
      ScaledUnique(Mantissa(a), c + Doublings(a), Mantissa(b), c + Doublings(b), ImplicitBit(a));
    } else {
      ScaledUnique(Mantissa(b), c + Doublings(b), Mantissa(a), c + Doublings(a), ImplicitBit(a));
    }
  }

  lemma FractionSmall(v: Value)
    requires v.Float32Bits? || v.Float64Bits?
    ensures Fraction(v) < ImplicitBit(v)
  {
  }
}
