/**
  `generateAccountNumber` of the bank: the prefix `ACC`, a dash, and the random draw
  `Math.floor(Math.random() * 1000000000)` written in decimal and left-padded with
  zeros to nine characters. The draw is a parameter.
*/
module AccountNumber {

  const Prefix: string := "ACC"
  const Width: nat := 9
  const DrawBound: nat := 1000000000

  /** The values a uniform integer draw below 10^9 can take. */
  type Draw = n: nat | n < DrawBound

  predicate IsDigit(c: char) {
    '0' <= c <= '9'
  }

  predicate AllDigits(s: string) {
    forall i :: 0 <= i < |s| ==> IsDigit(s[i])
  }

  function DigitChar(d: nat): (c: char)
    requires d < 10
    ensures IsDigit(c) && c as int - '0' as int == d
  {
    ('0' as int + d) as char
  }

  /** The number a string of decimal digits denotes (most significant first). */
  function DigitsValue(s: string): nat
    requires AllDigits(s)
  {
    if s == [] then 0
    else DigitsValue(s[..|s| - 1]) * 10 + (s[|s| - 1] as int - '0' as int)
  }

  function Pow10(k: nat): (p: nat)
    ensures p >= 1
  {
    if k == 0 then 1 else 10 * Pow10(k - 1)
  }

  /** `n.toString()` for a non-negative integer. */
  function Decimal(n: nat): (s: string)
    ensures 1 <= |s| && AllDigits(s)
  {
    if n < 10 then [DigitChar(n)] else Decimal(n / 10) + [DigitChar(n % 10)]
  }

  /** `s.padStart(width, fill)`: never truncates, only prepends fill characters. */
  function PadStart(s: string, width: nat, fill: char): (r: string)
    ensures |r| == if |s| >= width then |s| else width
    ensures r[|r| - |s|..] == s
    ensures forall i :: 0 <= i < |r| - |s| ==> r[i] == fill
  {
    if |s| >= width then s else seq(width - |s|, _ => fill) + s
  }

  /** `generateAccountNumber()` for a given draw. */
  function Generate(draw: Draw): (r: string)
    ensures |r| == |Prefix| + 1 + Width
    ensures r[..4] == Prefix + "-"
    ensures AllDigits(r[4..]) && DigitsValue(r[4..]) == draw
  {
    var digits := Decimal(draw);
    DecimalValue(draw);
    DecimalLength(draw, Width);
    var padded := PadStart(digits, Width, '0');
    LeadingZeros(padded[..|padded| - |digits|], digits);
    assert padded == padded[..|padded| - |digits|] + digits;
    var r := Prefix + "-" + padded;
    assert r[4..] == padded;
    r
  }

  /** Distinct draws give distinct account numbers. */
  lemma GenerateInjective(a: Draw, b: Draw)
    requires a != b
    ensures Generate(a) != Generate(b)
  {
  }

  lemma {:induction false} DecimalValue(n: nat)
    ensures DigitsValue(Decimal(n)) == n
  {
    if n >= 10 {
      DecimalValue(n / 10);
      var s := Decimal(n);
      assert s[..|s| - 1] == Decimal(n / 10);
    }
  }

  lemma {:induction false} DecimalLength(n: nat, k: nat)
    requires 1 <= k && n < Pow10(k)
    ensures |Decimal(n)| <= k
  {
    if n >= 10 {
      DecimalLength(n / 10, k - 1);
    }
  }

  lemma {:induction false} LeadingZeros(zeros: string, s: string)
    requires forall i :: 0 <= i < |zeros| ==> zeros[i] == '0'
    requires AllDigits(s)
    ensures AllDigits(zeros + s) && DigitsValue(zeros + s) == DigitsValue(s)
  {
    if s == [] {
      assert zeros + s == zeros;
      AllZeros(zeros);
    } else {
      var t := zeros + s;
      assert t[..|t| - 1] == zeros + s[..|s| - 1];
      LeadingZeros(zeros, s[..|s| - 1]);
    }
  }

  lemma {:induction false} AllZeros(zeros: string)
    requires forall i :: 0 <= i < |zeros| ==> zeros[i] == '0'
    ensures AllDigits(zeros) && DigitsValue(zeros) == 0
  {
    if zeros != [] {
      AllZeros(zeros[..|zeros| - 1]);
    }
  }
}
