/** The Luhn mod-10 check of ISO/IEC 7812-1, Annex B: `luhn_checksum` and
    `is_valid_luhn`, with a positional specification of the checksum and the
    facts the card generator rests on. */
module Luhn {
  import opened Decimal

  /** Python's `sum` over a list of integers. */
  function Sum(s: seq<int>): int
    decreases |s|
  {
    if s == [] then 0 else s[0] + Sum(s[1..])
  }

  /** `sum(digits_of(d * 2))`: the digit-sum of a doubled digit. */
  function DoubledDigitSum(d: Digit): (r: nat)
    ensures r == if d <= 4 then 2 * d else 2 * d - 9
    ensures r <= 9
  {
    var doubled := 2 * d;
    var ds := DigitsOf(doubled);
    if doubled < 10 then
      assert Sum(ds) == doubled + Sum([]);
      Sum(ds)
    else
      assert doubled / 10 == 1 && doubled % 10 == doubled - 10;
      assert ds == DigitsOf(1) + [doubled - 10] == [1, doubled - 10];
      assert ds[1..] == [doubled - 10] && ds[1..][1..] == [];
      assert Sum(ds) == 1 + (doubled - 10);
      Sum(ds)
  }

  /** The sum of the doubled digit-sums of a list of digits. */
  function SumDoubled(s: seq<Digit>): nat
    decreases |s|
  {
    if s == [] then 0 else DoubledDigitSum(s[0]) + SumDoubled(s[1..])
  }

  /** What digit `d` adds to the total when it stands at `position`
      (1 = last digit) counting from the right: itself at an odd position,
      the digit-sum of its double at an even one. */
  function Contribution(d: Digit, position: nat): nat
  {
    if position % 2 == 1 then d else DoubledDigitSum(d)
  }

  /** The total of the contributions of `ds` when its last digit stands at
      position `last` from the right. */
  function PositionalSum(ds: seq<Digit>, last: nat): nat
    decreases |ds|
  {
    if ds == [] then 0 else Contribution(ds[0], last + |ds| - 1) + PositionalSum(ds[1..], last)
  }

  /** The Luhn total of a digit sequence: its last digit is at position 1. */
  function LuhnSum(ds: seq<Digit>): nat
  {
    PositionalSum(ds, 1)
  }

  /** The value `luhn_checksum(n)` returns, stated positionally. */
  function Checksum(n: nat): (r: nat)
    ensures r < 10
  {
    LuhnSum(DigitsOf(n)) % 10
  }

  /** `s[-1::-2]`: the last element, then every second element going left. */
  function FromLastByTwo(s: seq<Digit>): (r: seq<Digit>)
    decreases |s|, 1
  {
    if s == [] then [] else [s[|s| - 1]] + FromSecondLastByTwo(s[..|s| - 1])
  }

  /** `s[-2::-2]`: the second-to-last element, then every second element
      going left; empty when `s` has fewer than two elements. */
  function FromSecondLastByTwo(s: seq<Digit>): (r: seq<Digit>)
    decreases |s|, 0
  {
    if s == [] then [] else FromLastByTwo(s[..|s| - 1])
  }

  /** The interleavings split the digits between them: the first holds the
      digits at odd positions from the right, the second those at even
      positions, nearest first. */
  lemma {:induction false} StridesAt(s: seq<Digit>, j: nat)
    ensures |FromLastByTwo(s)| == (|s| + 1) / 2 && |FromSecondLastByTwo(s)| == |s| / 2
    ensures j < |FromLastByTwo(s)| ==> FromLastByTwo(s)[j] == s[|s| - 1 - 2 * j]
    ensures j < |FromSecondLastByTwo(s)| ==> FromSecondLastByTwo(s)[j] == s[|s| - 2 - 2 * j]
    decreases |s|
  {
    if s != [] {
      var init := s[..|s| - 1];
      StridesAt(init, if j > 0 then j - 1 else 0);
      StridesAt(init, j);
    }
  }

  /** `luhn_checksum(card_number)`: the digits at odd positions from the right
      are summed as they are, those at even positions through the digit-sum of
      their double, and the total is taken mod 10. */
  method LuhnChecksum(cardNumber: nat) returns (checksum: nat)
    ensures checksum == Checksum(cardNumber)
  {
    var digits := DigitsOf(cardNumber);
    var total := 0;
    var oddDigits := FromLastByTwo(digits);
    var evenDigits := FromSecondLastByTwo(digits);
    total := total + Sum(oddDigits);
    for i := 0 to |evenDigits|
      invariant total + SumDoubled(evenDigits[i..]) == Sum(oddDigits) + SumDoubled(evenDigits)
    {
      assert evenDigits[i..] == [evenDigits[i]] + evenDigits[i + 1..];
      total := total + DoubledDigitSum(evenDigits[i]);
    }
    assert evenDigits[|evenDigits|..] == [];
    StridesSum(digits);
    checksum := total % 10;
  }

  /** `is_valid_luhn(card_number)`. */
  method IsValidLuhn(cardNumber: nat) returns (valid: bool)
    ensures valid <==> Checksum(cardNumber) == 0
  {
    var checksum := LuhnChecksum(cardNumber);
    valid := checksum == 0;
  }

  /** Summing the two interleavings as `luhn_checksum` does gives the positional
      total; summed the other way round (the doubled role swapped), they give
      the total of the same digits moved one position to the left. */
  lemma {:induction false} StridesSum(ds: seq<Digit>)
    ensures Sum(FromLastByTwo(ds)) + SumDoubled(FromSecondLastByTwo(ds)) == LuhnSum(ds)
    ensures SumDoubled(FromLastByTwo(ds)) + Sum(FromSecondLastByTwo(ds)) == PositionalSum(ds, 2)
    decreases |ds|
  {
    if ds != [] {
      var init, d := ds[..|ds| - 1], ds[|ds| - 1];
      assert ds == init + [d];
      StridesSum(init);
      var odd := FromLastByTwo(ds);
      assert odd == [d] + FromSecondLastByTwo(init);
      assert odd[1..] == FromSecondLastByTwo(init);
      PositionalSumAppend(init, d, 1);
      PositionalSumAppend(init, d, 2);
      PositionalSumPeriodic(init, 1);
    }
  }

  /** Moving a sequence two places to the left changes no digit's parity. */
  lemma {:induction false} PositionalSumPeriodic(ds: seq<Digit>, last: nat)
    ensures PositionalSum(ds, last + 2) == PositionalSum(ds, last)
    decreases |ds|
  {
    if ds != [] {
      PositionalSumPeriodic(ds[1..], last);
    }
  }

  /** Appending a digit moves every earlier digit one position to the left,
      to the opposite parity; the new digit contributes at the old position. */
  lemma {:induction false} PositionalSumAppend(ds: seq<Digit>, d: Digit, last: nat)
    ensures PositionalSum(ds + [d], last) == PositionalSum(ds, last + 1) + Contribution(d, last)
    decreases |ds|
  {
    if ds == [] {
      assert [d][1..] == [];
    } else {
      assert (ds + [d])[1..] == ds[1..] + [d];
      PositionalSumAppend(ds[1..], d, last);
    }
  }

  /** The total of a concatenation: the digits of `a` stand `|b|` places
      further left than they would on their own. */
  lemma {:induction false} PositionalSumConcat(a: seq<Digit>, b: seq<Digit>, last: nat)
    ensures PositionalSum(a + b, last) == PositionalSum(a, last + |b|) + PositionalSum(b, last)
    decreases |a|
  {
    if a != [] {
      assert (a + b)[1..] == a[1..] + b;
      PositionalSumConcat(a[1..], b, last);
    } else {
      assert a + b == b;
    }
  }

  /** Leading zeros contribute nothing: a digit sequence with leading zeros
      has the same total as the canonical digits of its value. */
  lemma {:induction false} LeadingZerosIgnored(ds: seq<Digit>, last: nat)
    ensures PositionalSum(DigitsOf(ValueOf(ds)), last) == PositionalSum(ds, last)
    decreases |ds|
  {
    if ds == [] {
      assert DigitsOf(0) == [0];
    } else {
      var init, d := ds[..|ds| - 1], ds[|ds| - 1];
      assert ds == init + [d];
      var v := ValueOf(init);
      ValueOfSnoc(init, d);
      LeadingZerosIgnored(init, last + 1);
      PositionalSumAppend(init, d, last);
      CanonicalAppend(v, d, last);
    }
  }

  /** The total of the digits of `10 * v + d`: those of `v` one position
      further left, and `d` at `last`. */
  lemma CanonicalAppend(v: nat, d: Digit, last: nat)
    ensures PositionalSum(DigitsOf(v * 10 + d), last)
         == PositionalSum(DigitsOf(v), last + 1) + Contribution(d, last)
  {
    if v == 0 {
      SingleDigit(d, last + 1);
      SingleDigit(d, last);
    } else {
      DigitsOfShift(v, d);
      PositionalSumAppend(DigitsOf(v), d, last);
    }
  }

  /** A number below ten is written as one digit, which contributes alone. */
  lemma SingleDigit(d: Digit, last: nat)
    ensures PositionalSum(DigitsOf(d), last) == Contribution(d, last)
    ensures PositionalSum(DigitsOf(0), last) == 0
  {
    assert DigitsOf(d) == [d] && DigitsOf(0) == [0];
    assert [d][1..] == [] && [0][1..] == [];
  }

  /** The checksum of the number a digit sequence denotes depends on those
      digits alone, leading zeros included or not. */
  lemma ChecksumOfDigits(ds: seq<Digit>)
    ensures Checksum(ValueOf(ds)) == LuhnSum(ds) % 10
  {
    LeadingZerosIgnored(ds, 1);
  }

  /** Appending a 0 shifts every digit to the opposite parity and adds nothing. */
  lemma AppendZero(ds: seq<Digit>)
    ensures Checksum(ValueOf(ds) * 10) == PositionalSum(ds, 2) % 10
  {
    assert (ds + [0])[..|ds|] == ds;
    ChecksumOfDigits(ds + [0]);
    PositionalSumAppend(ds, 0, 1);
  }

  /** Appending the digit `d` to a number adds `d` to the checksum of the
      number with a 0 appended. */
  lemma AppendDigit(ds: seq<Digit>, d: Digit)
    ensures Checksum(ValueOf(ds + [d])) == (Checksum(ValueOf(ds) * 10) + d) % 10
  {
    var p := PositionalSum(ds, 2);
    AppendZero(ds);
    ChecksumOfDigits(ds + [d]);
    PositionalSumAppend(ds, d, 1);
    assert LuhnSum(ds + [d]) == p + d;
    ModTen(p, d);
  }

  /** The same on numbers: writing the digit `d` after `n` adds `d` to the
      checksum of `n` with a 0 written after it. */
  lemma AppendDigitValue(n: nat, d: Digit)
    ensures Checksum(n * 10 + d) == (Checksum(n * 10) + d) % 10
  {
    var ds := DigitsOf(n);
    ValueOfDigitsOf(n);
    assert (ds + [d])[..|ds|] == ds;
    assert ValueOf(ds + [d]) == n * 10 + d;
    AppendDigit(ds, d);
  }

  lemma ModTen(x: nat, d: nat)
    ensures (x % 10 + d) % 10 == (x + d) % 10
  {
    var q := x / 10;
    assert x + d == (x % 10 + d) + 10 * q;
  }

  /** The Luhn total computed on the number itself, peeling off its last
      decimal digit at each step; `last` is the position of that digit. */
  function LuhnTotal(n: nat, last: nat): nat
    decreases n
  {
    if n < 10 then Contribution(n, last)
    else Contribution(n % 10, last) + LuhnTotal(n / 10, last + 1)
  }

  /** The positional total over the written digits of `n` is the arithmetic
      total of `n`. */
  lemma {:induction false} LuhnTotalOfDigits(n: nat, last: nat)
    ensures PositionalSum(DigitsOf(n), last) == LuhnTotal(n, last)
    decreases n
  {
    if n < 10 {
      assert DigitsOf(n) == [n];
      assert [n][1..] == [];
    } else {
      LuhnTotalOfDigits(n / 10, last + 1);
      PositionalSumAppend(DigitsOf(n / 10), n % 10, last);
    }
  }

  /** The checksum of `n` is its arithmetic Luhn total mod 10. */
  lemma ChecksumIsTotal(n: nat)
    ensures Checksum(n) == LuhnTotal(n, 1) % 10
  {
    LuhnTotalOfDigits(n, 1);
  }
}
