/** Decimal text of natural numbers, and Go's `strconv.ParseUint(s, 10, 64)`. */
module Decimals {
  import opened Wrappers

  const TWO_TO_THE_64: nat := 0x1_0000_0000_0000_0000

  predicate IsDigit(c: char) {
    '0' <= c <= '9'
  }

  predicate AllDigits(s: string) {
    forall i :: 0 <= i < |s| ==> IsDigit(s[i])
  }

  function DigitChar(d: nat): (c: char)
    requires d < 10
    ensures IsDigit(c) && DigitValue(c) == d
  {
    ('0' as int + d) as char
  }

  function DigitValue(c: char): nat
    requires IsDigit(c)
  {
    c as int - '0' as int
  }

  function Decimal(n: nat): (s: string)
    ensures s != [] && AllDigits(s)
  {
    if n < 10 then [DigitChar(n)] else Decimal(n / 10) + [DigitChar(n % 10)]
  }

  function Value(s: string): nat
    requires AllDigits(s)
  {
    if s == [] then 0 else 10 * Value(s[..|s| - 1]) + DigitValue(s[|s| - 1])
  }

  function ParseUint64(s: string): Option<nat> {
    if s != [] && AllDigits(s) && Value(s) < TWO_TO_THE_64 then Some(Value(s)) else None
  }

  lemma {:induction false} ValueOfDecimal(n: nat)
    ensures Value(Decimal(n)) == n
  {
    if n >= 10 {
      ValueOfDecimal(n / 10);
      var s := Decimal(n);
      assert s[..|s| - 1] == Decimal(n / 10) && s[|s| - 1] == DigitChar(n % 10);
    }
  }

  /** Parsing is the inverse of printing on 64 bits, and rejects every larger number. */
  lemma ParseOfDecimal(n: nat)
    ensures ParseUint64(Decimal(n)) == if n < TWO_TO_THE_64 then Some(n) else None
  {
    ValueOfDecimal(n);
  }

  /** The ten digits, by what they look like. */
  lemma DigitsAreTen(c: char)
    ensures IsDigit(c) <==> c in "0123456789"
    ensures forall d: nat :: d < 10 ==> Decimal(d) == ["0123456789"[d]]
  {
  }

  /** And the base is ten. */
  lemma AppendedDigit(n: nat, d: nat)
    requires 0 < n && d < 10
    ensures Decimal(10 * n + d) == Decimal(n) + ["0123456789"[d]]
  {
    DigitsAreTen('0');
  }

  function Zeros(z: nat): string {
    seq(z, _ => '0')
  }

  lemma {:induction false} LeadingZeros(z: nat, s: string)
    requires AllDigits(s)
    ensures AllDigits(Zeros(z) + s) && Value(Zeros(z) + s) == Value(s)
    decreases |s|, z
  {
    var text := Zeros(z) + s;
    if s != [] {
      LeadingZeros(z, s[..|s| - 1]);
      assert text[..|text| - 1] == Zeros(z) + s[..|s| - 1];
    } else if z > 0 {
      LeadingZeros(z - 1, s);
      assert text == Zeros(z) && text[..z - 1] == Zeros(z - 1) + s && Zeros(z - 1) + s == Zeros(z - 1);
    }
  }

  lemma {:induction false} TextOfValue(s: string) returns (z: nat)
    requires s != [] && AllDigits(s)
    ensures s == Zeros(z) + Decimal(Value(s))
    decreases |s|
  {
    var front, d := s[..|s| - 1], DigitValue(s[|s| - 1]);
    if front == [] {
      z := 0;
      assert s == Decimal(d) && Value(s) == d;
    } else {
      z := TextOfValue(front);
      assert s == front + Decimal(d);
      if Value(front) > 0 {
        assert Decimal(Value(s)) == Decimal(Value(front)) + Decimal(d);
      } else {
        z := |front|;
        assert front == Zeros(|front| - 1) + ['0'];
        assert front == Zeros(|front|);
      }
    }
  }

  /** What parses is decimal text with any number of leading zeros, within 64 bits, and nothing else. */
  lemma ParseUint64Iff(s: string, n: nat)
    ensures ParseUint64(s) == Some(n) <==> n < TWO_TO_THE_64 && exists z: nat :: s == Zeros(z) + Decimal(n)
  {
    if ParseUint64(s) == Some(n) {
      var z := TextOfValue(s);
    } else if n < TWO_TO_THE_64 {
      forall z: nat | s == Zeros(z) + Decimal(n)
        ensures false
      {
        LeadingZeros(z, Decimal(n));
        ValueOfDecimal(n);
      }
    }
  }
}
