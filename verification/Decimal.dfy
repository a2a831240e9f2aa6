/** Decimal text as strconv prints and reads it: FormatUint, Itoa, ParseUint with
    base 10 and 16 bits, and Atoi (used at internal/pointcsv/csv.go:78-101 and
    125). */
module Decimal {
  import opened Points

  function DigitChar(d: nat): (c: char)
    requires d < 10
    ensures IsDigit(c) && DigitValue(c) == d
  {
    ('0' as int + d) as char
  }

  function DigitValue(c: char): nat
    requires IsDigit(c)
  {
    c as int - '0' as int
  }

  predicate AllDigits(s: string) { forall i :: 0 <= i < |s| ==> IsDigit(s[i]) }

  function FormatUint(n: nat): string {
    if n < 10 then [DigitChar(n)] else FormatUint(n / 10) + [DigitChar(n % 10)]
  }

  function Itoa(i: int): string {
    if i < 0 then "-" + FormatUint(-i) else FormatUint(i)
  }

  function ValueOf(s: string): nat
    requires AllDigits(s)
  {
    if s == [] then 0 else 10 * ValueOf(s[..|s| - 1]) + DigitValue(s[|s| - 1])
  }

  /** No sign, no underscore, at least one digit, at most 65535. */
  function ParseUint16(s: string): Option<u16> {
    if s == [] || !AllDigits(s) || ValueOf(s) > 65535 then None else Some(ValueOf(s))
  }

  /** An optional sign, then digits; 64-bit range. */
  function Atoi(s: string): Option<i64> {
    var signed := s != [] && (s[0] == '-' || s[0] == '+');
    var digits := if signed then s[1..] else s;
    if digits == [] || !AllDigits(digits) then None
    else
      var v := if signed && s[0] == '-' then -(ValueOf(digits) as int) else ValueOf(digits);
      if -0x8000_0000_0000_0000 <= v < 0x8000_0000_0000_0000 then Some(v) else None
  }

  /** Printed without needless leading zeros. */
  predicate NoLeadingZero(s: string) { s != [] && (s[0] == '0' ==> |s| == 1) }

  lemma {:induction false} FormatReads(n: nat)
    ensures AllDigits(FormatUint(n)) && NoLeadingZero(FormatUint(n)) && ValueOf(FormatUint(n)) == n
    ensures FormatUint(n)[0] == '0' ==> n == 0
  {
    if n < 10 {
      assert FormatUint(n)[..0] == [];
    } else {
      FormatReads(n / 10);
      var s := FormatUint(n);
      assert s[..|s| - 1] == FormatUint(n / 10);
    }
  }

  /** Of all digit strings with a given value only the printed one has no
      leading zero. */
  lemma {:induction false} PrintedIsCanonical(s: string)
    requires AllDigits(s) && NoLeadingZero(s)
    ensures FormatUint(ValueOf(s)) == s
  {
    hide ValueOf, FormatUint, IsDigit;
    if |s| == 1 {
      OneDigit(s[0]);
      assert s == [s[0]];
    } else {
      var n := |s| - 1;
      PrintedIsCanonical(s[..n]);
      Positive(s[..n]);
      LastDigit(s[..n], s[n]);
      assert s == s[..n] + [s[n]];
    }
  }

  lemma OneDigit(c: char)
    requires IsDigit(c)
    ensures AllDigits([c]) && FormatUint(ValueOf([c])) == [c]
  {
    assert [c][..0] == [];
    assert DigitChar(DigitValue(c)) == c;
  }

  /** One more digit, read and printed. */
  lemma LastDigit(t: string, c: char)
    requires AllDigits(t) && IsDigit(c) && ValueOf(t) > 0 && FormatUint(ValueOf(t)) == t
    ensures AllDigits(t + [c]) && FormatUint(ValueOf(t + [c])) == t + [c]
  {
    hide ValueOf, FormatUint, IsDigit;
    ReadLast(t, c);
    FormatLast(ValueOf(t), c);
  }

  lemma ReadLast(t: string, c: char)
    requires AllDigits(t) && IsDigit(c)
    ensures AllDigits(t + [c]) && ValueOf(t + [c]) == 10 * ValueOf(t) + DigitValue(c)
  {
    assert (t + [c])[..|t|] == t;
  }

  lemma FormatLast(a: nat, c: char)
    requires a > 0 && IsDigit(c)
    ensures FormatUint(10 * a + DigitValue(c)) == FormatUint(a) + [c]
  {
    var n := 10 * a + DigitValue(c);
    assert n / 10 == a && n % 10 == DigitValue(c);
    assert FormatUint(n) == FormatUint(n / 10) + [DigitChar(n % 10)];
    hide FormatUint;
    assert DigitChar(DigitValue(c)) == c;
  }

  lemma {:induction false} Positive(s: string)
    requires AllDigits(s) && s != [] && s[0] != '0'
    ensures ValueOf(s) > 0
  {
    if |s| == 1 { assert s[..0] == []; } else { Positive(s[..|s| - 1]); }
  }

  /** Reading undoes printing for every 16-bit value, and printing undoes reading
      exactly on the canonical texts. */
  lemma UintRoundTrip(n: u16, s: string)
    ensures ParseUint16(FormatUint(n)) == Some(n)
    ensures ParseUint16(s).Some? ==> (FormatUint(ParseUint16(s).value) == s <==> NoLeadingZero(s))
  {
    FormatReads(n);
    if ParseUint16(s).Some? {
      if NoLeadingZero(s) { PrintedIsCanonical(s); } else { FormatReads(ParseUint16(s).value); }
    }
  }

  lemma IntRoundTrip(i: i64)
    ensures Atoi(Itoa(i)) == Some(i)
  {
    hide FormatUint, ValueOf;
    var v: int := i;
    FormatReads(if v < 0 then -v else v);
    assert v < 0 ==> Itoa(v)[1..] == FormatUint(-v);
  }

  lemma NumbersAreTrimmed(i: int)
    ensures Trimmed(Itoa(i)) && TrimSpace(Itoa(i)) == Itoa(i)
  {
    FormatReads(if i < 0 then -i else i);
    TrimSpaceFixpoint(Itoa(i));
  }

  /** The notation is the usual one. */
  lemma UsualNotation()
    ensures FormatUint(65535) == "65535" && Itoa(-655) == "-655"
    ensures ParseUint16("65535") == Some(65535) && ParseUint16("65536") == None && Atoi("-655") == Some(-655)
    ensures Atoi("655") == Some(655) && Atoi("+655") == Some(655)
  {
    SixFiveFive();
    hide FormatUint, ValueOf;
    FormatLast(655, '3');
    FormatLast(6553, '5');
    FormatLast(6553, '6');
    FormatReads(655);
    FormatReads(65535);
    FormatReads(65536);
    assert "655" + "3" + "5" == "65535" && "655" + "3" + "6" == "65536";
    assert "-655"[1..] == "655" && "-655"[0] == '-';
    assert "+655"[1..] == "655" && "+655"[0] == '+';
  }

  lemma SixFiveFive()
    ensures FormatUint(655) == "655"
  {
    assert FormatUint(6) == "6";
    FormatLast(6, '5');
    FormatLast(65, '5');
    assert "6" + "5" == "65" && "65" + "5" == "655";
  }
}
