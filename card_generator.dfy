/** The card generator: `generate_card_number`, `generate_expiration_date`,
    `generate_credit_card` and `generate_multiple_cards`. Every random draw
    (`random.randint`) is an input: the filler digits of a number, the month
    and the year of its expiry. */
module CardGenerator {
  import opened Decimal
  import opened Luhn

  /** The most cards one call of `generate_multiple_cards` produces. */
  const MaxCards := 50

  /** The values `random.randint` supplies for one card. */
  datatype CardDraw = CardDraw(filler: seq<Digit>, month: int, year: int)

  /** How many filler digits `range(length - len(prefix) - 1)` draws. */
  function FillerCount(prefixLength: nat, length: int): (k: nat)
    ensures length > prefixLength ==> k == length - prefixLength - 1
    ensures length <= prefixLength ==> k == 0
  {
    if length - prefixLength - 1 > 0 then length - prefixLength - 1 else 0
  }

  /** A prefix of decimal digits that, with the filler drawn for `length`,
      gives `int(number)` at least one digit to read. */
  predicate ValidPrefix(prefix: string, length: int)
  {
    IsDigitString(prefix) && |prefix| + FillerCount(|prefix|, length) > 0
  }

  /** A draw the `randint` calls of `luhangen.py` could produce for one card. */
  predicate ValidDraw(draw: CardDraw, prefix: string, length: int)
  {
    |draw.filler| == FillerCount(|prefix|, length)
    && 1 <= draw.month <= 12
    && 2024 <= draw.year <= 2030
  }

  /** `s` is `prefix`, then the filler digits, then one digit that makes the
      whole number pass the Luhn check. */
  predicate IsCardNumber(s: string, prefix: string, filler: seq<Digit>)
  {
    |s| == |prefix| + |filler| + 1
    && IsDigitString(s)
    && s[..|s| - 1] == prefix + DigitString(filler)
    && Checksum(StringValue(s)) == 0
  }

  /** Only one check digit completes a number: the Luhn check tells the ten
      candidate digits apart. */
  lemma CheckDigitUnique(ds: seq<Digit>, d1: Digit, d2: Digit)
    requires Checksum(ValueOf(ds + [d1])) == 0
    requires Checksum(ValueOf(ds + [d2])) == 0
    ensures d1 == d2
  {
    var c := Checksum(ValueOf(ds) * 10);
    AppendDigit(ds, d1);
    AppendDigit(ds, d2);
    SmallModTen(c + d1);
    SmallModTen(c + d2);
  }

  lemma SmallModTen(x: nat)
    requires x < 20
    ensures x % 10 == 0 <==> x == 0 || x == 10
  {
  }

  /** The check digit `(10 - c) % 10`, for the checksum `c` of `n` with a 0
      written after it, completes `n`; it is 0 exactly when `c` is. */
  lemma CheckDigitCompletes(n: nat)
    ensures var c := Checksum(n * 10);
      var d := (10 - c) % 10;
      0 <= d <= 9 && (d == 0 <==> c == 0) && Checksum(n * 10 + d) == 0
  {
    var c := Checksum(n * 10);
    AppendDigitValue(n, (10 - c) % 10);
    Complement(c);
  }

  /** `(10 - c) % 10` is the digit that brings `c` to a multiple of 10. */
  lemma Complement(c: nat)
    requires c < 10
    ensures var d := (10 - c) % 10;
      0 <= d <= 9 && (d == 0 <==> c == 0) && (c + d) % 10 == 0
  {
  }

  /** `generate_card_number(prefix, length)`: the prefix, the filler digits,
      and the check digit `10 - luhn_checksum(int(number) * 10)`, with 10
      written as 0. When `length <= len(prefix)` there is no filler and the
      result is one digit longer than the prefix. */
  method GenerateCardNumber(prefix: string, length: int, filler: seq<Digit>) returns (card: string)
    requires ValidPrefix(prefix, length)
    requires |filler| == FillerCount(|prefix|, length)
    ensures IsCardNumber(card, prefix, filler)
    ensures |card| == if length > |prefix| then length else |prefix| + 1
    ensures card[..|prefix|] == prefix
  {
    var number := prefix + DigitString(filler);
    StringDigitsAppend(prefix, DigitString(filler));
    var checksum := LuhnChecksum(StringValue(number) * 10);
    var checksumDigit := 10 - checksum;
    if checksumDigit == 10 {
      checksumDigit := 0;
    }
    assert checksumDigit == (10 - checksum) % 10;
    card := number + [DigitChar(checksumDigit)];
    AppendCheckDigit(number, checksumDigit);
  }

  /** Appending the check digit to a digit string gives a string whose number
      passes the Luhn check; the string before it is unchanged. */
  lemma AppendCheckDigit(number: string, d: Digit)
    requires |number| > 0 && IsDigitString(number)
    requires d == (10 - Checksum(StringValue(number) * 10)) % 10
    ensures IsDigitString(number + [DigitChar(d)])
    ensures Checksum(StringValue(number + [DigitChar(d)])) == 0
    ensures (number + [DigitChar(d)])[..|number|] == number
  {
    var ds := StringDigits(number);
    StringDigitsAppend(number, [DigitChar(d)]);
    assert StringDigits([DigitChar(d)]) == [d];
    assert (ds + [d])[..|ds|] == ds;
    CheckDigitCompletes(ValueOf(ds));
    assert (number + [DigitChar(d)])[..|number|] == number;
  }

  /** `f'{n:02}'` for a month: two characters, zero-padded. */
  function MonthString(month: int): (mm: string)
    requires 1 <= month <= 12
    ensures |mm| == 2 && IsDigitString(mm)
    ensures StringValue(mm) == month
    ensures mm[0] == '0' <==> month < 10
  {
    var s := NatToString(month);
    DigitCount(month);
    if month < 10 then
      var mm := "0" + s;
      StringDigitsAppend("0", s);
      assert StringDigits("0") == [0];
      ValueOfLeadingZero(StringDigits(s));
      mm
    else
      s
  }

  /** `f'{n}'` for a year of the window 2024..2030: four digit characters. */
  function YearString(year: int): (yyyy: string)
    requires 2024 <= year <= 2030
    ensures |yyyy| == 4 && IsDigitString(yyyy)
    ensures StringValue(yyyy) == year
  {
    DigitCount(year);
    NatToString(year)
  }

  /** `generate_expiration_date()` with the two `randint` results given:
      the month and the year as the strings the card entry shows. */
  function GenerateExpirationDate(month: int, year: int): (date: (string, string))
    requires 1 <= month <= 12 && 2024 <= year <= 2030
    ensures |date.0| == 2 && IsDigitString(date.0) && StringValue(date.0) == month
    ensures |date.1| == 4 && IsDigitString(date.1) && StringValue(date.1) == year
  {
    (MonthString(month), YearString(year))
  }

  /** `entry` is `number|MM|YYYY` for a generated number of `prefix` with the
      draw's filler, and the draw's month and year. */
  predicate IsCardEntry(entry: string, prefix: string, length: int, draw: CardDraw)
    requires ValidDraw(draw, prefix, length)
  {
    var n := |prefix| + |draw.filler| + 1;
    var date := GenerateExpirationDate(draw.month, draw.year);
    |entry| == n + 8
    && IsCardNumber(entry[..n], prefix, draw.filler)
    && entry[n..] == "|" + date.0 + "|" + date.1
  }

  /** `generate_credit_card(prefix, length)`: a generated number, then its
      expiry month and year, separated by `|`. */
  method GenerateCreditCard(prefix: string, length: int, draw: CardDraw) returns (entry: string)
    requires ValidPrefix(prefix, length)
    requires ValidDraw(draw, prefix, length)
    ensures IsCardEntry(entry, prefix, length, draw)
    ensures entry[..|prefix|] == prefix
  {
    var cardNumber := GenerateCardNumber(prefix, length, draw.filler);
    var (expMonth, expYear) := GenerateExpirationDate(draw.month, draw.year);
    entry := cardNumber + "|" + expMonth + "|" + expYear;
    assert entry[..|cardNumber|] == cardNumber;
    assert entry[|cardNumber|..] == "|" + expMonth + "|" + expYear;
  }

  /** How many cards `range(min(count, 50))` produces. */
  function BatchSize(count: int): (n: nat)
    ensures n <= MaxCards
    ensures count <= 0 ==> n == 0
    ensures 0 <= count <= MaxCards ==> n == count
    ensures count >= MaxCards ==> n == MaxCards
  {
    if count <= 0 then 0 else if count < MaxCards then count else MaxCards
  }

  /** `generate_multiple_cards(count, prefix, length)`: `min(count, 50)` card
      entries (none when `count` is not positive), the i-th made from the
      i-th draw. The prefix is read only when at least one card is made, so
      an empty batch is returned for any prefix. Every number in the batch
      passes `is_valid_luhn`. */
  method GenerateMultipleCards(count: int, prefix: string, length: int, draws: seq<CardDraw>)
    returns (cards: seq<string>)
    requires BatchSize(count) > 0 ==> ValidPrefix(prefix, length)
    requires |draws| >= BatchSize(count)
    requires forall i :: 0 <= i < |draws| ==> ValidDraw(draws[i], prefix, length)
    ensures |cards| == BatchSize(count)
    ensures forall i :: 0 <= i < |cards| ==> IsCardEntry(cards[i], prefix, length, draws[i])
    ensures forall i :: 0 <= i < |cards| ==> PassesAtHead(cards[i], |prefix| + |draws[i].filler| + 1)
  {
    cards := [];
    for i := 0 to BatchSize(count)
      invariant |cards| == i
      invariant forall j :: 0 <= j < i ==> IsCardEntry(cards[j], prefix, length, draws[j])
      invariant forall j :: 0 <= j < i ==> PassesAtHead(cards[j], |prefix| + |draws[j].filler| + 1)
    {
      var entry := GenerateCreditCard(prefix, length, draws[i]);
      BatchAppend(cards, entry, prefix, length, draws);
      cards := cards + [entry];
    }
  }

  /** One more entry, made from the next draw, keeps every entry of the
      batch a valid card whose number passes the check. */
  lemma BatchAppend(cards: seq<string>, entry: string, prefix: string, length: int, draws: seq<CardDraw>)
    requires |cards| < |draws|
    requires forall i :: 0 <= i < |draws| ==> ValidDraw(draws[i], prefix, length)
    requires forall j :: 0 <= j < |cards| ==> IsCardEntry(cards[j], prefix, length, draws[j])
    requires forall j :: 0 <= j < |cards| ==> PassesAtHead(cards[j], |prefix| + |draws[j].filler| + 1)
    requires IsCardEntry(entry, prefix, length, draws[|cards|])
    ensures forall j :: 0 <= j <= |cards| ==> IsCardEntry((cards + [entry])[j], prefix, length, draws[j])
    ensures forall j :: 0 <= j <= |cards| ==>
      PassesAtHead((cards + [entry])[j], |prefix| + |draws[j].filler| + 1)
  {
  }

  /** The first `n` characters of `entry` are a number that passes
      `is_valid_luhn`, and a `|` follows them. */
  predicate PassesAtHead(entry: string, n: nat)
  {
    0 < n < |entry| && IsDigitString(entry[..n])
    && Checksum(StringValue(entry[..n])) == 0 && entry[n] == '|'
  }

  /** Corollary of `IsCardEntry`: the number at the head of a generated
      entry passes `is_valid_luhn` and is followed by `|`. */
  lemma EntryNumberIsValid(entry: string, prefix: string, length: int, draw: CardDraw)
    requires ValidDraw(draw, prefix, length)
    requires IsCardEntry(entry, prefix, length, draw)
    ensures PassesAtHead(entry, |prefix| + |draw.filler| + 1)
  {
  }

  /** The fields after the number read back as the drawn month and year. */
  lemma EntryDateFields(entry: string, prefix: string, length: int, draw: CardDraw)
    requires ValidDraw(draw, prefix, length)
    requires IsCardEntry(entry, prefix, length, draw)
    ensures var n := |prefix| + |draw.filler| + 1;
      entry[n + 3] == '|'
      && StringValue(entry[n + 1..n + 3]) == draw.month
      && StringValue(entry[n + 4..]) == draw.year
  {
    var n := |prefix| + |draw.filler| + 1;
    var date := GenerateExpirationDate(draw.month, draw.year);
    var tail := entry[n..];
    assert tail == "|" + date.0 + "|" + date.1;
    assert tail[1..3] == date.0 && tail[4..] == date.1 && tail[3] == '|';
    assert entry[n + 1..n + 3] == tail[1..3];
    assert entry[n + 4..] == tail[4..];
  }
}
