/** The two pieces of C string handling the display text depends on: the
    `%d` conversion of snprintf and its truncation to the destination buffer. */
module Text {
  import opened Optional

  predicate IsDigit(c: char) {
    '0' <= c <= '9'
  }

  predicate AllDigits(s: string) {
    forall i | 0 <= i < |s| :: IsDigit(s[i])
  }

  function DigitChar(d: int): (c: char)
    requires 0 <= d < 10
    ensures IsDigit(c)
  {
    ('0' as int + d) as char
  }

  function DigitValue(c: char): (d: int)
    requires IsDigit(c)
    ensures 0 <= d < 10
  {
    c as int - '0' as int
  }

  /** Decimal digits of a natural number, most significant first, without
      leading zeros. */
  function NatDigits(n: nat): (s: string)
    decreases n
    ensures 1 <= |s|
    ensures AllDigits(s)
    ensures s[0] == '0' <==> n == 0
    ensures |s| > 1 ==> s[0] != '0'
    ensures n < Pow10(|s|)
    ensures |s| > 1 ==> Pow10(|s| - 1) <= n
  {
    if n < 10 then [DigitChar(n)]
    else
      var p := NatDigits(n / 10);
      assert n < 10 * Pow10(|p|) by {
        assert n == 10 * (n / 10) + n % 10;
      }
      p + [DigitChar(n % 10)]
  }

  /** What `%d` prints for `n`: a minus sign for negatives, then the digits. */
  function DecimalString(n: int): (s: string)
    ensures 1 <= |s|
    ensures s[0] == '-' <==> n < 0
    ensures n < 0 ==> AllDigits(s[1..]) && 2 <= |s|
    ensures n >= 0 ==> AllDigits(s)
    ensures n < 0 ==> s[1] != '0'
    ensures n >= 0 && |s| > 1 ==> s[0] != '0'
  {
    if n < 0 then "-" + NatDigits(-n) else NatDigits(n)
  }

  /** The number a string of decimal digits denotes. */
  function DigitsValue(s: string): nat
    requires AllDigits(s)
    decreases |s|
  {
    if |s| == 0 then 0 else DigitsValue(s[..|s| - 1]) * 10 + DigitValue(s[|s| - 1])
  }

  /** Reads back an optionally signed decimal integer; anything else is `None`. */
  function ParseDecimal(s: string): (r: Option<int>)
    ensures r.Some? ==> 1 <= |s|
  {
    if 2 <= |s| && s[0] == '-' && AllDigits(s[1..]) then
      var magnitude: int := DigitsValue(s[1..]);
      Some(-magnitude)
    else if 1 <= |s| && AllDigits(s) then Some(DigitsValue(s))
    else None
  }

  lemma {:induction false} NatDigitsValue(n: nat)
    ensures DigitsValue(NatDigits(n)) == n
    decreases n
  {
    if n >= 10 {
      var p := NatDigits(n / 10);
      var s := p + [DigitChar(n % 10)];
      assert s[..|s| - 1] == p;
      NatDigitsValue(n / 10);
    }
  }

  /** `%d` printing is undone by parsing: no two integers print alike. */
  lemma DecimalRoundTrip(n: int)
    ensures ParseDecimal(DecimalString(n)) == Some(n)
  {
    var s := DecimalString(n);
    if n < 0 {
      var d := NatDigits(-n);
      assert s[1..] == d;
      NatDigitsValue(-n);
      assert ParseDecimal(s) == Some(0 - DigitsValue(d) as int);
    } else {
      assert s == NatDigits(n);
      assert !(s[0] == '-');
      NatDigitsValue(n);
      assert ParseDecimal(s) == Some(DigitsValue(s));
    }
  }

  /** A printed integer contains no space, which lets a line holding two of
      them be split unambiguously. */
  lemma DecimalHasNoSpace(n: int)
    ensures ' ' !in DecimalString(n)
  {
    var s := DecimalString(n);
    forall i | 0 <= i < |s|
      ensures s[i] != ' '
    {
      if n < 0 && i >= 1 {
        assert s[i] == s[1..][i - 1];
      }
    }
  }

  lemma {:induction false} NatDigitsShort(n: nat, k: nat)
    requires 1 <= k
    requires n < Pow10(k)
    ensures |NatDigits(n)| <= k
    decreases n
  {
    if n >= 10 {
      NatDigitsShort(n / 10, k - 1);
    }
  }

  function Pow10(k: nat): (p: nat)
    ensures p >= 1
  {
    if k == 0 then 1 else 10 * Pow10(k - 1)
  }

  /** Integers of a plausible readout size print in at most five characters. */
  lemma DecimalStringShort(n: int)
    requires -9999 <= n <= 99999
    ensures |DecimalString(n)| <= 5
  {
    assert Pow10(4) == 10000;
    assert Pow10(5) == 100000;
    if n < 0 {
      NatDigitsShort(-n, 4);
    } else {
      NatDigitsShort(n, 5);
    }
  }

  /** snprintf into a buffer of `size` bytes keeps the longest prefix that
      leaves room for the terminating NUL. */
  function Truncate(s: string, size: nat): (r: string)
    requires 1 <= size
    ensures r <= s
    ensures |r| == if |s| < size then |s| else size - 1
  {
    if |s| < size then s else s[..size - 1]
  }
}
