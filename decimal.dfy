/** Decimal numerals: the digits of a natural number as Python's `str(n)`
    writes them, and the value of a digit string as `int(s)` reads it. */
module Decimal {

  /** A single decimal digit. */
  type Digit = d: int | 0 <= d <= 9

  /** The digits of `n`, most significant first, without leading zeros
      (`[int(c) for c in str(n)]`); zero is written as one digit. */
  function DigitsOf(n: nat): (ds: seq<Digit>)
    ensures |ds| >= 1
    ensures ds[0] == 0 ==> n == 0
    decreases n
  {
    if n < 10 then [n] else DigitsOf(n / 10) + [n % 10]
  }

  /** The number a sequence of digits denotes, most significant first;
      leading zeros contribute nothing. */
  function ValueOf(ds: seq<Digit>): nat
    decreases |ds|
  {
    if ds == [] then 0 else ValueOf(ds[..|ds| - 1]) * 10 + ds[|ds| - 1]
  }

  /** Writing one more digit after a digit sequence. */
  lemma ValueOfSnoc(ds: seq<Digit>, d: Digit)
    ensures ValueOf(ds + [d]) == ValueOf(ds) * 10 + d
  {
    assert (ds + [d])[..|ds|] == ds;
  }

  /** Reading back the digits of `n` gives `n`. */
  lemma {:induction false} ValueOfDigitsOf(n: nat)
    ensures ValueOf(DigitsOf(n)) == n
    decreases n
  {
    if n >= 10 {
      ValueOfDigitsOf(n / 10);
      var ds := DigitsOf(n / 10) + [n % 10];
      assert ds[..|ds| - 1] == DigitsOf(n / 10);
    }
  }

  /** Writing `10 * n + d` appends the digit `d` to the digits of `n`, unless
      the whole number is a single digit. */
  lemma DigitsOfShift(n: nat, d: Digit)
    requires n > 0
    ensures DigitsOf(n * 10 + d) == DigitsOf(n) + [d]
  {
    assert (n * 10 + d) / 10 == n;
    assert (n * 10 + d) % 10 == d;
  }

  /** A digit sequence without leading zeros is exactly how its value is written. */
  lemma {:induction false} DigitsOfValueOf(ds: seq<Digit>)
    requires |ds| >= 1 && (ds[0] != 0 || |ds| == 1)
    ensures DigitsOf(ValueOf(ds)) == ds
    decreases |ds|
  {
    if |ds| > 1 {
      var init := ds[..|ds| - 1];
      DigitsOfValueOf(init);
      ValueOfPositive(init);
      DigitsOfShift(ValueOf(init), ds[|ds| - 1]);
    }
  }

  /** A digit sequence that starts with a non-zero digit denotes a positive number. */
  lemma {:induction false} ValueOfPositive(ds: seq<Digit>)
    requires |ds| >= 1 && ds[0] != 0
    ensures ValueOf(ds) > 0
    decreases |ds|
  {
    if |ds| > 1 {
      ValueOfPositive(ds[..|ds| - 1]);
    }
  }

  predicate IsDigitChar(c: char)
  {
    '0' <= c <= '9'
  }

  predicate IsDigitString(s: string)
  {
    forall i :: 0 <= i < |s| ==> IsDigitChar(s[i])
  }

  /** `str(d)` for one digit. */
  function DigitChar(d: Digit): (c: char)
    ensures IsDigitChar(c)
  {
    ('0' as int + d) as char
  }

  /** `int(c)` for one digit character. */
  function CharDigit(c: char): (d: Digit)
    requires IsDigitChar(c)
    ensures DigitChar(d) == c
  {
    c as int - '0' as int
  }

  /** Digits written one character each (`''.join(str(d) for d in ds)`). */
  function DigitString(ds: seq<Digit>): (s: string)
    ensures |s| == |ds| && IsDigitString(s)
    ensures forall i :: 0 <= i < |ds| ==> CharDigit(s[i]) == ds[i]
  {
    seq(|ds|, i requires 0 <= i < |ds| => DigitChar(ds[i]))
  }

  /** The digits of a digit string, one per character. */
  function StringDigits(s: string): (ds: seq<Digit>)
    requires IsDigitString(s)
    ensures |ds| == |s| && DigitString(ds) == s
  {
    seq(|s|, i requires 0 <= i < |s| => CharDigit(s[i]))
  }

  /** `int(s)` for a non-empty string of decimal digits. */
  function StringValue(s: string): nat
    requires |s| > 0 && IsDigitString(s)
  {
    ValueOf(StringDigits(s))
  }

  /** `str(n)` for a natural number. */
  function NatToString(n: nat): (s: string)
    ensures |s| > 0 && IsDigitString(s)
    ensures StringValue(s) == n
    ensures s[0] == '0' ==> n == 0
  {
    var s := DigitString(DigitsOf(n));
    DigitsRoundTrip(DigitsOf(n));
    ValueOfDigitsOf(n);
    s
  }

  /** Turning digits into characters and back loses nothing. */
  lemma DigitsRoundTrip(ds: seq<Digit>)
    ensures StringDigits(DigitString(ds)) == ds
  {
  }

  /** The digit string of a concatenation is the concatenation of the digit strings. */
  lemma StringDigitsAppend(a: string, b: string)
    requires IsDigitString(a) && IsDigitString(b)
    ensures IsDigitString(a + b)
    ensures StringDigits(a + b) == StringDigits(a) + StringDigits(b)
  {
  }

  /** A leading zero does not change the value of a digit sequence. */
  lemma {:induction false} ValueOfLeadingZero(ds: seq<Digit>)
    ensures ValueOf([0] + ds) == ValueOf(ds)
    decreases |ds|
  {
    if ds != [] {
      var init := ds[..|ds| - 1];
      assert ([0] + ds)[..|ds|] == [0] + init;
      ValueOfLeadingZero(init);
    }
  }

  /** How many digits `str(n)` has, for the widths the card formats use. */
  lemma DigitCount(n: nat)
    ensures n < 10 ==> |DigitsOf(n)| == 1
    ensures 10 <= n < 100 ==> |DigitsOf(n)| == 2
    ensures 1000 <= n < 10000 ==> |DigitsOf(n)| == 4
  {
    if 1000 <= n < 10000 {
      assert n / 10 / 10 / 10 == n / 1000 < 10;
      assert |DigitsOf(n / 10 / 10 / 10)| == 1;
      assert |DigitsOf(n / 10 / 10)| == 2;
      assert |DigitsOf(n / 10)| == 3;
    }
  }
}
