/** Numbers as `operator<<` prints them and `std::from_chars` reads them. */
module Decimals {
  import opened Options

  const UINT64_MAX: nat := 0xffff_ffff_ffff_ffff
  const UINT32_MAX: nat := 0xffff_ffff
  const INT64_MIN: int := -0x8000_0000_0000_0000
  const INT64_MAX: int := 0x7fff_ffff_ffff_ffff

  predicate IsDigit(c: char) {
    '0' <= c <= '9'
  }

  predicate AllDigits(s: string) {
    forall i :: 0 <= i < |s| ==> IsDigit(s[i])
  }

  function DigitChar(d: nat): (c: char)
    requires d < 10
    ensures IsDigit(c) && DigitValue(c) == d
  {
    ('0' as int + d) as char
  }

  function DigitValue(c: char): (d: nat)
    requires IsDigit(c)
    ensures d < 10
  {
    c as int - '0' as int
  }

  function PrintNat(n: nat): (s: string)
    ensures |s| > 0 && AllDigits(s)
  {
    if n < 10 then [DigitChar(n)] else PrintNat(n / 10) + [DigitChar(n % 10)]
  }

  function PrintInt(n: int): string {
    if n < 0 then "-" + PrintNat(-n) else PrintNat(n)
  }

  /** The value of a string of digits; leading zeros do not matter. */
  function ValueOf(s: string): nat
    requires AllDigits(s)
  {
    if s == [] then 0 else 10 * ValueOf(s[..|s| - 1]) + DigitValue(s[|s| - 1])
  }

  /** All of the text must be digits, and the value must fit. */
  function ParseUnsigned(s: string): Option<nat> {
    if s == [] || !AllDigits(s) || ValueOf(s) > UINT64_MAX then None else Some(ValueOf(s))
  }

  /** A minus sign is accepted, a plus sign is not. */
  function ParseSigned(s: string): Option<int> {
    if s != [] && s[0] == '-' then
      if s[1..] == [] || !AllDigits(s[1..]) || -(ValueOf(s[1..]) as int) < INT64_MIN then None
      else Some(-(ValueOf(s[1..]) as int))
    else if s == [] || !AllDigits(s) || ValueOf(s) > INT64_MAX then None
    else Some(ValueOf(s))
  }

  lemma {:induction false} PrintedValue(n: nat)
    ensures ValueOf(PrintNat(n)) == n
  {
    if n < 10 {
      assert PrintNat(n)[..0] == [];
    } else {
      PrintedValue(n / 10);
      assert PrintNat(n)[..|PrintNat(n)| - 1] == PrintNat(n / 10);
    }
  }

  /** What is printed is read back, exactly when the type of the reader can hold it. */
  lemma UnsignedRoundTrip(n: nat)
    ensures ParseUnsigned(PrintNat(n)) == if n <= UINT64_MAX then Some(n) else None
  {
    PrintedValue(n);
  }

  lemma SignedRoundTrip(n: int)
    ensures ParseSigned(PrintInt(n)) == if INT64_MIN <= n <= INT64_MAX then Some(n) else None
  {
    if n < 0 {
      PrintedValue(-n);
      assert PrintInt(n)[1..] == PrintNat(-n);
    } else {
      PrintedValue(n);
      assert IsDigit(PrintNat(n)[0]);
    }
  }

  // ---------------------------------------------------------------- what is a number

  function Zeros(k: nat): string {
    seq(k, _ => '0')
  }

  /** The text is the number as it is printed, with any number of zeros in front. */
  ghost predicate Spells(s: string, n: nat) {
    exists k: nat :: s == Zeros(k) + PrintNat(n)
  }

  ghost predicate SpellsInt(s: string, n: int) {
    || (n >= 0 && Spells(s, n))
    || (n <= 0 && s != "" && s[0] == '-' && Spells(s[1..], -n))
  }

  lemma {:induction false} ZeroInFront(s: string)
    requires AllDigits(s)
    ensures AllDigits("0" + s) && ValueOf("0" + s) == ValueOf(s)
  {
    if s != "" {
      var before := s[..|s| - 1];
      ZeroInFront(before);
      assert ("0" + s)[..|s|] == "0" + before;
    } else {
      assert "0" + s == "0";
      assert "0"[..0] == "";
    }
  }

  lemma {:induction false} SpelledValue(k: nat, n: nat)
    ensures AllDigits(Zeros(k) + PrintNat(n)) && ValueOf(Zeros(k) + PrintNat(n)) == n
  {
    if k == 0 {
      PrintedValue(n);
      assert Zeros(0) + PrintNat(n) == PrintNat(n);
    } else {
      SpelledValue(k - 1, n);
      ZeroInFront(Zeros(k - 1) + PrintNat(n));
      assert Zeros(k) + PrintNat(n) == "0" + (Zeros(k - 1) + PrintNat(n));
    }
  }

  lemma PrintOneMore(n: nat, d: nat)
    requires n > 0 && d < 10
    ensures PrintNat(10 * n + d) == PrintNat(n) + [DigitChar(d)]
  {
    assert (10 * n + d) / 10 == n && (10 * n + d) % 10 == d;
  }

  lemma {:induction false} DigitsSpell(s: string) returns (k: nat)
    requires s != "" && AllDigits(s)
    ensures s == Zeros(k) + PrintNat(ValueOf(s))
  {
    var before, last := s[..|s| - 1], s[|s| - 1];
    assert s == before + [last] && DigitChar(DigitValue(last)) == last;
    if before == "" {
      k := 0;
      assert ValueOf(s) == DigitValue(last) && Zeros(0) + [last] == [last];
    } else {
      k := DigitsSpell(before);
      var n := ValueOf(before);
      if n == 0 {
        assert PrintNat(0) == ['0'];
        assert Zeros(k) + ['0'] == Zeros(k + 1);
        k := k + 1;
      } else {
        PrintOneMore(n, DigitValue(last));
      }
    }
  }

  /** A text is read as a number if and only if it spells that number in decimal, leading zeros
      allowed and nothing else around it, and the number is less than 2 to the 64th. */
  lemma UnsignedIsExact(s: string, n: nat)
    ensures ParseUnsigned(s) == Some(n) <==> n < 0x1_0000_0000_0000_0000 && Spells(s, n)
  {
    DigitsAreExact(s, n);
  }

  lemma DigitsAreExact(s: string, n: nat)
    ensures Spells(s, n) <==> s != "" && AllDigits(s) && ValueOf(s) == n
  {
    if s != "" && AllDigits(s) {
      var k := DigitsSpell(s);
    }
    forall k: nat | s == Zeros(k) + PrintNat(n) ensures s != "" && AllDigits(s) && ValueOf(s) == n {
      SpelledValue(k, n);
    }
  }

  /** The same with a minus sign in front of negative numbers; minus zero is zero. */
  lemma SignedIsExact(s: string, n: int)
    ensures ParseSigned(s) == Some(n) <==>
              -0x8000_0000_0000_0000 <= n < 0x8000_0000_0000_0000 && SpellsInt(s, n)
  {
    if s != "" && s[0] == '-' {
      assert !AllDigits(s);
      if n <= 0 {
        DigitsAreExact(s[1..], -n);
      }
    }
    if n >= 0 {
      DigitsAreExact(s, n);
    }
  }

  lemma {:induction false} NoLeadingZero(n: nat)
    requires n > 0
    ensures PrintNat(n)[0] != '0'
  {
    if n >= 10 {
      NoLeadingZero(n / 10);
    } else {
      assert DigitValue(PrintNat(n)[0]) == n;
    }
  }

  /** A number is printed in its one canonical form: a minus sign exactly in front of negative
      ones, and no zero in front of other digits. */
  lemma PrintedIsCanonical(n: int)
    ensures SpellsInt(PrintInt(n), n)
    ensures PrintInt(n)[0] == '-' <==> n < 0
    ensures var digits := if n < 0 then PrintInt(n)[1..] else PrintInt(n);
            digits[0] == '0' <==> n == 0
  {
    var m: nat := if n < 0 then -n else n;
    assert Zeros(0) + PrintNat(m) == PrintNat(m);
    assert IsDigit(PrintNat(m)[0]);
    if n < 0 {
      assert PrintInt(n)[1..] == PrintNat(m);
    }
    if m > 0 {
      NoLeadingZero(m);
    }
  }

  lemma PrintNatInjective(m: nat, n: nat)
    requires PrintNat(m) == PrintNat(n)
    ensures m == n
  {
    PrintedValue(m);
    PrintedValue(n);
  }
}
