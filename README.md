# luhangen: the Luhn card-number generator and the key-checker tally, in Dafny

`luhangen.py` is a small command-line tool with two jobs. It builds synthetic
card numbers that pass the Luhn mod-10 check of ISO/IEC 7812-1, Annex B. It
also sends a secret key to seven read-only endpoints of a payment API and
counts how many of them accepted it. This project models the deterministic
core of both jobs and proves what the code promises:

- `decimal.dfy` (module `Decimal`) covers the digits of a natural number as
  `str(n)` writes them and the value of a digit string as `int(s)` reads it.
  It proves the round trips between the two and shows that leading zeros
  change nothing.
- `luhn.dfy` (module `Luhn`) models `luhn_checksum` and `is_valid_luhn`.
  `luhn_checksum` is a method with the code's loop over the even-position
  digits. It is proved equal to a positional specification: a digit at an
  odd position from the right counts as itself, and a digit at an even
  position counts as the digit-sum of its double. The module also holds the
  facts the generator rests on. Appending a 0 moves every digit to the
  opposite parity and adds nothing. Appending a digit `d` adds `d` to that
  total.
- `luhn_examples.dfy` (module `LuhnExamples`) checks the published test
  number 4539 1488 0343 6467, and the same number with its last digit
  incremented.
- `card_generator.dfy` (module `CardGenerator`) models
  `generate_card_number`, `generate_expiration_date`, `generate_credit_card`
  and `generate_multiple_cards`. Every random draw is an input. The main
  theorem is that every generated number passes the check. The appended
  digit is the only digit that makes it pass. Each batch holds
  `min(count, 50)` entries, none when `count` is not positive, each of the
  form `number|MM|YYYY`.
- `key_checker.dfy` (module `KeyChecker`) models `detect_key_type` and the
  probe loop of `check_stripe_key`. The status code each endpoint returned is
  an input. Only a 200 counts as passed. A 401, a 403 and every other code
  count as failed. Passed plus failed is always the seven endpoints.

Three behaviours of the code that the model keeps as they are:

- `generate_card_number` has no length error. When `length <= len(prefix)`,
  `range` is empty and the result is the prefix followed by one check digit.
  `CardGenerator.GenerateCardNumber` states exactly that.
- For a digit-only prefix, `luhn_checksum` always receives a non-negative
  integer, `int(number) * 10`, whose `str` is never empty (`Decimal.DigitsOf`).
- `check_stripe_key` has only four outcomes per endpoint: 200, 401, 403 and
  any other code. An exception from `requests.get` is not caught and ends the
  whole check.

## Model

| member | source | states |
|---|---|---|
| `Decimal.ValueOf` | luhangen.py:89 | `int()` of a digit sequence, most significant first; `Decimal.ValueOfDigitsOf` and `Decimal.DigitsOfValueOf` fix it as the inverse of `str` |
| `Decimal.StringValue` | luhangen.py:89 | `int(number)` for a non-empty digit string: the value of its digits, one per character (`Luhn.ChecksumOfDigits` states what the checksum sees of it) |
| `Decimal.DigitChar` | luhangen.py:92 | `str(checksum_digit)` for one digit is a digit character; `Decimal.CharDigit` states that it is the only character reading back as that digit |
| `Decimal.CharDigit` | luhangen.py:74 | `int(c)` for a digit character gives the digit that `str` writes as exactly that character |
| `Decimal.DigitString` | luhangen.py:88 | `''.join(str(...))` over the filler digits is a digit string of the same length whose i-th character reads back as the i-th digit |
| `Decimal.DigitsOf` | luhangen.py:73-74 | `digits_of(n)` has at least one digit and no leading zero unless `n` is 0 |
| `Decimal.ValueOfDigitsOf` | luhangen.py:73-74 | reading back the digits of `n` gives `n` (`int(str(n)) == n`) |
| `Decimal.DigitsOfValueOf` | luhangen.py:89 | a digit sequence without leading zeros is exactly how its value is written |
| `Decimal.ValueOfLeadingZero` | luhangen.py:89 | `int()` ignores a leading `0`, as in a prefix with leading zeros or a zero-padded month |
| `Decimal.NatToString` | luhangen.py:95-96 | `str(n)` is a non-empty digit string that reads back as `n` and starts with `0` only for 0 |
| `Decimal.DigitCount` | luhangen.py:95-96 | `str(n)` has 1 digit below 10, 2 digits from 10 to 99, and 4 digits from 1000 to 9999 |
| `Luhn.Sum` | luhangen.py:79-81 | Python's `sum` over a list of integers; `Luhn.StridesSum` states what it gives over the two strides |
| `Luhn.FromLastByTwo` | luhangen.py:77 | `digits[-1::-2]`; `Luhn.StridesAt` gives its length `(k+1)/2` and its j-th element, the digit `2j` places from the right end |
| `Luhn.FromSecondLastByTwo` | luhangen.py:78 | `digits[-2::-2]`; `Luhn.StridesAt` gives its length `k/2` and its j-th element, the digit `2j+1` places from the right end |
| `Luhn.DoubledDigitSum` | luhangen.py:81 | `sum(digits_of(d * 2))` is `2d` when `d <= 4` and `2d - 9` otherwise, never above 9 |
| `Luhn.Checksum` | luhangen.py:76-82 | the checksum is the positional Luhn total mod 10, always in 0..9 |
| `Luhn.StridesAt` | luhangen.py:77-78 | `digits[-1::-2]` holds the digits at odd positions from the right and `digits[-2::-2]` those at even positions, nearest first, with lengths `(k+1)/2` and `k/2` |
| `Luhn.StridesSum` | luhangen.py:77-81 | summing the odd stride and the doubled digit-sums of the even stride gives the positional total; with the roles swapped it gives the total one position further left |
| `Luhn.LuhnChecksum` | luhangen.py:72-82 | the loop over `even_digits` returns the positional checksum of the number |
| `Luhn.IsValidLuhn` | luhangen.py:84-85 | `is_valid_luhn(n)` holds exactly when the checksum of `n` is 0 |
| `Luhn.PositionalSumPeriodic` | luhangen.py:77-78 | moving digits two positions keeps every digit's parity, so the total is unchanged |
| `Luhn.PositionalSumAppend` | luhangen.py:89 | appending a digit moves every earlier digit to the opposite parity, and the new digit contributes at the old position |
| `Luhn.PositionalSumConcat` | luhangen.py:77-81 | in a concatenation, the digits of the front part stand as many positions further left as the back part is long |
| `Luhn.LeadingZerosIgnored` | luhangen.py:89 | leading zeros contribute nothing: the total of any digit sequence equals the total of the written digits of its value |
| `Luhn.CanonicalAppend` | luhangen.py:73-81 | the total of the digits of `10 v + d` is the total of `v` one position further left, plus `d` at the last position |
| `Luhn.ChecksumOfDigits` | luhangen.py:89 | the checksum of `int(s)` for a digit string `s` is the Luhn total of its characters mod 10, leading zeros included |
| `Luhn.AppendZero` | luhangen.py:89 | the checksum of `int(number) * 10` is the total of `number` with every digit moved to the opposite parity; the 0 adds nothing |
| `Luhn.AppendDigit` | luhangen.py:89-92 | appending digit `d` gives the checksum of the number with a 0 appended, plus `d`, mod 10 |
| `Luhn.AppendDigitValue` | luhangen.py:89-92 | the same stated on integers: `checksum(10 n + d) == (checksum(10 n) + d) % 10` |
| `Luhn.LuhnTotalOfDigits` | luhangen.py:73-81 | the positional total over `str(n)` equals an independent arithmetic total that peels digits off with `% 10` and `/ 10` |
| `Luhn.ChecksumIsTotal` | luhangen.py:72-82 | the checksum is that arithmetic total mod 10 |
| `LuhnExamples.KnownValid` | luhangen.py:84-85 | 4539 1488 0343 6467 passes the check |
| `LuhnExamples.KnownInvalid` | luhangen.py:84-85 | 4539 1488 0343 6468 fails it, with checksum 1 |
| `LuhnExamples.FourDigits` | luhangen.py:77-81 | in four digits ending at an odd position, the first and third are doubled |
| `LuhnExamples.SixteenDigits` | luhangen.py:77-81 | the total of sixteen digits is the sum of the totals of its four groups of four |
| `LuhnExamples.PositionalSumShift` | luhangen.py:77-78 | an even shift of position leaves a total unchanged |
| `CardGenerator.FillerCount` | luhangen.py:88 | `range(length - len(prefix) - 1)` draws `length - len(prefix) - 1` digits, or none when that is not positive |
| `CardGenerator.CheckDigitCompletes` | luhangen.py:89-91 | the digit `(10 - checksum(10 n)) % 10` lies in 0..9, is 0 exactly when that checksum is 0, and makes `10 n + d` pass the check |
| `CardGenerator.CheckDigitUnique` | luhangen.py:89-92 | no two different last digits both make the same number pass, so the check digit is determined |
| `CardGenerator.AppendCheckDigit` | luhangen.py:92 | `number + str(checksum_digit)` is a digit string that passes the check and still begins with `number` |
| `CardGenerator.GenerateCardNumber` | luhangen.py:87-92 | for a digit-only prefix (empty allowed when at least one filler digit is drawn), the result is the prefix, then the filler digits, then one digit, and it passes `is_valid_luhn`; its length is `length` when `length > len(prefix)` and `len(prefix) + 1` otherwise |
| `CardGenerator.MonthString` | luhangen.py:95 | `f'{m:02}'` is two digit characters that read back as the month, starting with `0` exactly for months 1 to 9 |
| `CardGenerator.YearString` | luhangen.py:96 | a year of 2024..2030 is written as four digit characters that read back as the year |
| `CardGenerator.GenerateExpirationDate` | luhangen.py:94-97 | the month string is 2 characters and reads back as the month; the year string is 4 characters and reads back as the year |
| `CardGenerator.GenerateCreditCard` | luhangen.py:99-102 | the entry is a generated number for the prefix and the filler, then a vertical bar, the drawn month as MM, a vertical bar and the drawn year as YYYY |
| `CardGenerator.BatchSize` | luhangen.py:106 | `range(min(count, 50))` runs `count` times, capped at 50, and not at all when `count` is not positive |
| `CardGenerator.GenerateMultipleCards` | luhangen.py:104-108 | the batch has exactly `BatchSize(count)` entries, the i-th is the card made from the i-th draw, and the number at the head of every entry passes `is_valid_luhn`; when no card is made the prefix is never read, so any prefix gives the empty batch |
| `CardGenerator.BatchAppend` | luhangen.py:106-107 | appending the card made from the next draw keeps every entry of the batch a valid card whose number passes the check |
| `CardGenerator.EntryNumberIsValid` | luhangen.py:99-102 | corollary of the entry's shape: the number at the head of an entry passes `is_valid_luhn` and is followed by a vertical bar |
| `CardGenerator.EntryDateFields` | luhangen.py:95-102 | the two fields after the number read back as the drawn month and year, separated by a vertical bar |
| `KeyChecker.StartsWith` | luhangen.py:15-17 | `s.startswith(p)`: `p` is no longer than `s` and equals its first `len(p)` characters |
| `KeyChecker.Endpoints` | luhangen.py:27-35 | the `tests` table: seven capability names with their URLs, in the order the dictionary lists them |
| `KeyChecker.DetectKeyType` | luhangen.py:14-20 | "Live Key" exactly for an `sk_live` prefix, "Test Key" exactly for an `sk_test` prefix, and "Unknown Key Type" exactly when neither matches |
| `KeyChecker.PrefixesExclusive` | luhangen.py:15-18 | no key starts with both `sk_live` and `sk_test`, so the order of the two tests is immaterial |
| `KeyChecker.Classify` | luhangen.py:48-63 | 200 is Accessible, 401 is Unauthorized, 403 is Forbidden, and any other code is Inaccessible and carries that code, each in both directions |
| `KeyChecker.CountOk` | luhangen.py:48-51 | the number of 200 responses never exceeds the number of responses |
| `KeyChecker.CountOkAppend` | luhangen.py:46-51 | one more response adds 1 to the pass count exactly when it is a 200 |
| `KeyChecker.CountOkExtremes` | luhangen.py:41-63 | all probes pass exactly when every endpoint answered 200, and none passes exactly when none did |
| `KeyChecker.CheckKey` | luhangen.py:22-69 | the key type is detected, one result per endpoint comes back in table order with its name and classified outcome, `passed` counts the 200s, and `passed + failed` is 7 |
| `KeyChecker.PassCount` | luhangen.py:66-67 | the number of results reported as passed never exceeds the number of results |
| `KeyChecker.SummaryMatchesResults` | luhangen.py:46-67 | the summary's pass count equals the number of per-endpoint results reported as passed |

## Left out

- HTTP: `requests.get` and the bearer-token header are not modelled. Each response is replaced by its status code, given to `KeyChecker.CheckKey` in endpoint order.
- Transport failures: an exception from `requests.get` is not handled by the code. It would end `check_stripe_key`, and it is not modelled.
- Logging (`logging.basicConfig` and every `logging.*` call) is a process-wide side effect and is not modelled.
- Printing and colouring (`colorama`, `print`) are display only and are not modelled. `KeyChecker.CheckKey` returns the key type, the per-endpoint results and the two counts that the code prints.
- `main_menu`, the interactive `input()` loop with its `int(...)` parsing, is not modelled.
- Randomness: every `random.randint` result is an input (`CardGenerator.CardDraw`), held to the range `randint` draws from. Uniformity and unpredictability are not modelled.
- The default arguments of `generate_credit_card` and `generate_multiple_cards` (`prefix="4"`, `length=16`, `count=1`) are not modelled: callers pass every argument.
- `CardGenerator.GenerateCardNumber`: the prefix must consist of the ASCII digits `0`-`9`, so prefixes that `int()` also accepts, such as `"+4"`, `" 4"`, `"4_0"`, `"-4"` or non-ASCII digits, are not modelled. For most of those the function would return a string that is not all ASCII digits; for `"-4"` the value `int(number) * 10` is negative, its `str` starts with `-`, and `luhn_checksum` raises `ValueError` in `digits_of`.
- `CardGenerator.GenerateCardNumber`: an empty prefix with `length <= 1` leaves `number` empty, and `int("")` raises `ValueError`. That error path is not modelled; an empty prefix with `length >= 2` is.
- `CardGenerator.GenerateCreditCard` and `CardGenerator.GenerateMultipleCards` share the prefix condition of `CardGenerator.GenerateCardNumber`. `CardGenerator.GenerateMultipleCards` demands it only when at least one card is made.
- `CardGenerator.GenerateCardNumber`: CPython 3.11, and the 2022 security releases of 3.7–3.10, refuse to convert between `int` and `str` beyond 4300 digits by default. `int(number)` raises `ValueError` when `number` is longer than 4300 characters, and `str` inside `digits_of` raises it when `int(number) * 10` has more than 4300 digits (prefix `"4"` with `length = 4301`, say). The model has no such limit and returns a passing card for every length. `CardGenerator.GenerateCreditCard` and `CardGenerator.GenerateMultipleCards` inherit this.
- `Luhn.LuhnChecksum`: takes a natural number only. For a negative integer, `str(n)` starts with `-` and the code raises `ValueError`; with a digit-only prefix the generator never passes one.
