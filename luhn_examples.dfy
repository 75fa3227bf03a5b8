/** Worked examples of the Luhn check on the published test number
    4539 1488 0343 6467. */
module LuhnExamples {
  import opened Decimal
  import opened Luhn

  /** The published test number 4539 1488 0343 6467 passes the check. */
  lemma KnownValid(ds: seq<Digit>)
    requires ds == [4, 5, 3, 9, 1, 4, 8, 8, 0, 3, 4, 3, 6, 4, 6, 7]
    ensures Checksum(ValueOf(ds)) == 0
  {
    KnownValidSum(ds);
    ChecksumOfDigits(ds);
  }

  lemma KnownValidSum(ds: seq<Digit>)
    requires ds == [4, 5, 3, 9, 1, 4, 8, 8, 0, 3, 4, 3, 6, 4, 6, 7]
    ensures LuhnSum(ds) == 80
  {
    assert ds[..4] == [4, 5, 3, 9] && ds[4..8] == [1, 4, 8, 8];
    assert ds[8..12] == [0, 3, 4, 3] && ds[12..] == [6, 4, 6, 7];
    SixteenDigits(ds);
    FourDigits(ds[..4]);
    FourDigits(ds[4..8]);
    FourDigits(ds[8..12]);
    FourDigits(ds[12..]);
  }

  /** Incrementing the last digit of the published test number, to
      4539 1488 0343 6468, makes it fail the check. */
  lemma KnownInvalid(ds: seq<Digit>)
    requires ds == [4, 5, 3, 9, 1, 4, 8, 8, 0, 3, 4, 3, 6, 4, 6, 8]
    ensures Checksum(ValueOf(ds)) == 1
  {
    KnownInvalidSum(ds);
    ChecksumOfDigits(ds);
  }

  lemma KnownInvalidSum(ds: seq<Digit>)
    requires ds == [4, 5, 3, 9, 1, 4, 8, 8, 0, 3, 4, 3, 6, 4, 6, 8]
    ensures LuhnSum(ds) == 81
  {
    assert ds[..4] == [4, 5, 3, 9] && ds[4..8] == [1, 4, 8, 8];
    assert ds[8..12] == [0, 3, 4, 3] && ds[12..] == [6, 4, 6, 8];
    SixteenDigits(ds);
    FourDigits(ds[..4]);
    FourDigits(ds[4..8]);
    FourDigits(ds[8..12]);
    FourDigits(ds[12..]);
  }

  /** A group of four digits ending at an odd position: the first and third
      are doubled. */
  lemma FourDigits(s: seq<Digit>)
    requires |s| == 4
    ensures PositionalSum(s, 1) == DoubledDigitSum(s[0]) + s[1] + DoubledDigitSum(s[2]) + s[3]
  {
    assert s[1..][1..] == s[2..] && s[2..][1..] == s[3..] && s[3..][1..] == [];
    assert PositionalSum(s[3..], 1) == s[3];
    assert PositionalSum(s[2..], 1) == DoubledDigitSum(s[2]) + s[3];
    assert PositionalSum(s[1..], 1) == s[1] + DoubledDigitSum(s[2]) + s[3];
  }

  /** The total of sixteen digits is the sum of the totals of its four groups
      of four, each taken on its own. */
  lemma SixteenDigits(ds: seq<Digit>)
    requires |ds| == 16
    ensures LuhnSum(ds) == PositionalSum(ds[..4], 1) + PositionalSum(ds[4..8], 1)
                         + PositionalSum(ds[8..12], 1) + PositionalSum(ds[12..], 1)
  {
    var a, b, c, d := ds[..4], ds[4..8], ds[8..12], ds[12..];
    assert ds == a + (b + (c + d));
    PositionalSumConcat(a, b + (c + d), 1);
    PositionalSumConcat(b, c + d, 1);
    PositionalSumConcat(c, d, 1);
    PositionalSumShift(a, 1, 6);
    PositionalSumShift(b, 1, 4);
    PositionalSumShift(c, 1, 2);
  }

  /** Moving digits an even number of places leaves their total unchanged. */
  lemma {:induction false} PositionalSumShift(ds: seq<Digit>, last: nat, k: nat)
    ensures PositionalSum(ds, last + 2 * k) == PositionalSum(ds, last)
    decreases k
  {
    if k > 0 {
      PositionalSumShift(ds, last, k - 1);
      PositionalSumPeriodic(ds, last + 2 * (k - 1));
    }
  }
}
