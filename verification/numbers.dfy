/** Java's 64-bit `long`, its narrowing cast from `double`, and `String.valueOf(long)`. */
module Numbers {

  const MinLong: int := -0x8000_0000_0000_0000
  const MaxLong: int := 0x7FFF_FFFF_FFFF_FFFF

  /** The values of a Java `long`. */
  type Long = x: int | -0x8000_0000_0000_0000 <= x <= 0x7FFF_FFFF_FFFF_FFFF

  /** The Java cast `(long) d`: rounds toward zero and saturates at the bounds of `long`.
      Metric values are modelled as reals, so NaN (which Java casts to 0) does not arise. */
  function DoubleToLong(d: real): (r: Long)
    ensures 0.0 <= d < (MaxLong + 1) as real ==> r as real <= d < (r + 1) as real
    ensures (MinLong - 1) as real < d <= 0.0 ==> (r - 1) as real < d <= r as real
    ensures (MaxLong + 1) as real <= d ==> r == MaxLong
    ensures d <= (MinLong - 1) as real ==> r == MinLong
  {
    var t := if d >= 0.0 then d.Floor else -((-d).Floor);
    if t > MaxLong then MaxLong else if t < MinLong then MinLong else t
  }

  predicate IsDigit(c: char) {
    '0' <= c <= '9'
  }

  function DigitChar(d: int): (c: char)
    requires 0 <= d < 10
    ensures IsDigit(c)
  {
    ('0' as int + d) as char
  }

  function DigitValue(c: char): (d: int)
    requires IsDigit(c)
    ensures 0 <= d < 10 && DigitChar(d) == c
  {
    c as int - '0' as int
  }

  /** Decimal digits of `n`, most significant first, without leading zeros. */
  function Digits(n: nat): (s: string)
    ensures |s| >= 1
    ensures forall i :: 0 <= i < |s| ==> IsDigit(s[i])
    ensures s[0] == '0' <==> n == 0
    ensures s[0] == '0' ==> |s| == 1
    decreases n
  {
    if n < 10 then [DigitChar(n)] else Digits(n / 10) + [DigitChar(n % 10)]
  }

  /** `String.valueOf(long)`: an optional minus sign followed by the decimal digits, with no
      leading zero and no "-0". */
  function LongText(n: int): (s: string)
    ensures IsCanonicalLongText(s)
    ensures s[0] == '-' <==> n < 0
  {
    if n < 0 then "-" + Digits(-n) else Digits(n)
  }

  /** The shape of the text `LongText` produces. */
  predicate IsLongText(s: string) {
    && |s| >= 1
    && (s[0] == '-' || IsDigit(s[0]))
    && forall i :: 1 <= i < |s| ==> IsDigit(s[i])
  }

  /** Decimal text as `Long.toString` writes it: a lone "0", or a nonzero leading digit,
      or a minus sign followed by a nonzero leading digit. */
  predicate IsCanonicalLongText(s: string) {
    && IsLongText(s)
    && (s[0] == '0' ==> |s| == 1)
    && (s[0] == '-' ==> |s| >= 2 && s[1] != '0')
  }

  /** Reads a digit string back as a natural number (reference inverse of `Digits`). */
  function ParseDigits(s: string): nat
    requires forall i :: 0 <= i < |s| ==> IsDigit(s[i])
    decreases |s|
  {
    if s == [] then 0 else ParseDigits(s[..|s| - 1]) * 10 + DigitValue(s[|s| - 1])
  }

  /** Reads decimal text back as an integer (reference inverse of `LongText`). */
  function ParseLongText(s: string): int
    requires IsLongText(s)
  {
    if s[0] == '-' then 0 - ParseDigits(s[1..]) as int else ParseDigits(s)
  }

  lemma {:induction false} DigitsRoundTrip(n: nat)
    ensures ParseDigits(Digits(n)) == n
    decreases n
  {
    if n >= 10 {
      var prefix := Digits(n / 10);
      var s := prefix + [DigitChar(n % 10)];
      assert s[..|s| - 1] == prefix;
      DigitsRoundTrip(n / 10);
    }
  }

  /** The decimal text of a long determines the long: reading it back gives the number. */
  lemma LongTextRoundTrip(n: int)
    ensures ParseLongText(LongText(n)) == n
  {
    if n < 0 {
      assert LongText(n)[1..] == Digits(-n);
      DigitsRoundTrip(-n);
    } else {
      DigitsRoundTrip(n);
    }
  }

  /** A digit string without a leading zero (other than "0" itself) is the decimal text of
      the number it denotes. */
  lemma {:induction false} DigitsOfParse(s: string)
    requires |s| >= 1
    requires forall i :: 0 <= i < |s| ==> IsDigit(s[i])
    requires s[0] == '0' ==> |s| == 1
    ensures Digits(ParseDigits(s)) == s
    decreases |s|
  {
    var p := s[..|s| - 1];
    var d := DigitValue(s[|s| - 1]);
    if |s| == 1 {
      assert p == [];
    } else {
      DigitsOfParse(p);
      var n := ParseDigits(s);
      assert n == ParseDigits(p) * 10 + d;
      assert ParseDigits(p) != 0;
      assert n / 10 == ParseDigits(p) && n % 10 == d;
      assert p + [s[|s| - 1]] == s;
    }
  }

  /** `LongText` is onto the canonical texts: each one is the text of the number it reads as.
      With `LongTextRoundTrip` this makes `LongText` a bijection between integers and
      canonical decimal texts. */
  lemma CanonicalLongTextUnique(s: string)
    requires IsCanonicalLongText(s)
    ensures LongText(ParseLongText(s)) == s
  {
    if s[0] == '-' {
      var t := s[1..];
      DigitsOfParse(t);
      assert [s[0]] + t == s;
    } else {
      DigitsOfParse(s);
    }
  }

  /** Distinct numbers have distinct decimal texts. */
  lemma LongTextInjective(a: int, b: int)
    ensures LongText(a) == LongText(b) ==> a == b
  {
    LongTextRoundTrip(a);
    LongTextRoundTrip(b);
  }
}
