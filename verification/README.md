# Receipt points engine — Dafny model

This project models the scoring engine of a small receipt-processing web
service written in Go. A submitted `Receipt` (retailer name, purchase date,
purchase time, items, total) is turned into an integer number of reward
points by `calculatePoints`, which adds up eight independent rules:

1. one point per ASCII letter or digit in the retailer name;
2. 50 points when the total is a round dollar amount;
3. 25 points when the total is a multiple of 0.25;
4. 5 points for every two items;
5. for every item whose white-space-trimmed description length is a multiple
   of 3, `ceil(price * 0.2)` points;
6. 5 points when the total is greater than 10.00;
7. 6 points when the day of the purchase date is odd;
8. 10 points when the purchase time is after 14:00 and before 16:00.

Amounts are parsed by `parseMoney` (`fmt.Sscanf` with `%f`), dates and times
by Go's `time.Parse` with the layouts `"2006-01-02"` and `"15:04"`. Every
parse error is swallowed: a failed amount is 0, a failed date or time is
Go's zero `time.Time` (January 1 of year 1, 00:00).

The model works on exact values instead of floats: an amount is a whole
number of cents (`nat`), so `total == math.Trunc(total)` becomes
`cents % 100 == 0`, `math.Mod(total, 0.25) == 0` becomes `cents % 25 == 0`,
`total > 10.0` becomes `cents > 1000` and `math.Ceil(price * 0.2)` becomes
`CeilFifth(cents)`, the least k with `k * 500 >= cents`. Lemmas in `Money`
prove that each of these equals the exact real-number reading of the Go
expression, and the contracts of the rule functions in `Scoring` are stated
in those real-number terms. A time is a `GoTime.Time` with the fields the layouts
set, compared by `Before`/`After` as Go compares instants.

Modules (one per component):

- `Wrappers` (`wrappers.dfy`): `Option`, the outcome of every parse.
- `Text` (`text.dfy`): character classes, digit strings, the deletion of
  `[^a-zA-Z0-9]` that rule 1 measures, and `strings.TrimSpace`.
- `Money` (`money.dfy`): `parseMoney` as cents, its inverse `FormatCents`,
  and the exact-arithmetic bridges for rules 2, 3, 5 and 6.
- `GoTime` (`gotime.dfy`): `time.Parse` for the two layouts (including month
  range, days in month with leap years, one- or two-digit hours), the zero
  Time, `Before`/`After`, and the inverse renderings `FormatDate`/`FormatClock`.
- `Scoring` (`scoring.dfy`): `Receipt`, `Item`, one function per rule, the
  reference sum `Points`, the method `CalculatePoints` that runs the rules in
  source order with one accumulator, and the rule properties.
- `ScoringExamples` (`scoring_examples.dfy`): worked values for concrete
  names, amounts, dates, times and items.

The model follows the code as written, including its edge cases. Rule 5 has
no guard for an empty trimmed description, so a blank description qualifies
(`Scoring.BlankDescriptionQualifies`). A date that does not parse falls back
to the zero Time's day 1 and earns rule 7's 6 points
(`ScoringExamples.DateExamples`, including the impossible "2023-02-29"). A
time that does not parse becomes the year-1 zero Time, which is after the
year-0 start of the window but not before its end, so it earns nothing from
rule 8.

## Model

| member | source | states |
|---|---|---|
| Scoring.CalculatePoints | main.go:72-121 | running the eight rules in order into one accumulator yields exactly the reference sum `Points` of the rule contributions; the result is never negative, but only because the model's amounts are unsigned (see "Left out") |
| Scoring.Points | main.go:72-121 | the score is at least one point per alphanumeric position of the name plus 5 per complete pair of items plus the item bonuses, and the remaining rules 2, 3, 6, 7 and 8 add at most 75 + 5 + 6 + 10 = 96 on top |
| Scoring.CountAlnum | main.go:76 | the one-pass count equals the length of the name after every character outside [a-zA-Z0-9] is deleted |
| Scoring.SumItemPoints | main.go:93-99 | the loop over the items (trim, test length mod 3, parse price, add ceil of a fifth) totals the per-item rule 5 points of every item |
| Scoring.AfternoonBonus | main.go:113-118 | parsing the purchase time and the bounds "14:00" and "16:00" from text and testing after-start and before-end yields exactly rule 8's points: 10 strictly inside the window, 0 otherwise or after a parse error |
| Scoring.RetailerPoints | main.go:76 | rule 1 never gives more points than the retailer name has characters |
| Scoring.RetailerPointsCountsAlnum | main.go:76 | rule 1 equals the number of positions of the retailer name that hold an ASCII letter or digit |
| Scoring.RetailerPointsInsert | main.go:76 | inserting a character anywhere in the name adds one point if it is in [a-zA-Z0-9] and nothing otherwise |
| Text.KeepAlnum | main.go:76 | deleting [^a-zA-Z0-9] leaves only letters and digits and never lengthens the name |
| Text.KeepAlnumKeepsAlnum | main.go:76 | every letter or digit survives the deletion exactly as many times as it occurs |
| Text.KeepAlnumLength | main.go:76 | the deleted-down name has one character per alphanumeric position of the original |
| Text.KeepAlnumAppend | main.go:76 | the deletion of one string followed by another is the two deletions concatenated |
| Text.KeepAlnumOfAlnum | main.go:76 | a name made only of letters and digits is unchanged by the deletion |
| Money.IsWholeIffRoundDollar | main.go:80 | `total == math.Trunc(total)` holds of the exact amount exactly when the cents are a multiple of 100 |
| Scoring.RoundDollarPoints | main.go:79-82 | rule 2 gives 50 exactly when the exact total equals its truncation, and 0 otherwise |
| Money.ModQuarterIffMultipleOf25 | main.go:85 | `math.Mod(total, 0.25) == 0` holds of the exact amount exactly when the cents are a multiple of 25 |
| Scoring.QuarterPoints | main.go:85-87 | rule 3 gives 25 exactly when Go's `math.Mod` of the exact total by 0.25 is zero, and 0 otherwise |
| Scoring.RoundDollarAlsoQuarter | main.go:79-87 | a round-dollar total always earns rule 3 too, 75 together; otherwise rule 2 adds nothing to rule 3; so the two rules give 0, 25 or 75 and never 50 |
| Money.OverTenIffOver1000 | main.go:102 | `total > 10.0` holds of the exact amount exactly when the cents exceed 1000 |
| Scoring.OverTenPoints | main.go:102-104 | rule 6 gives 5 exactly when the exact total is strictly greater than 10, and 0 otherwise |
| Scoring.PairPoints | main.go:90 | rule 4 is a multiple of 5 whose number of fives is the number of complete pairs among the items: with k fives, 2k <= items < 2k + 2 |
| Scoring.PairPointsMonotone | main.go:90 | rule 4 never decreases as items are added and grows by 5 with every two more items |
| Money.CeilFifth | main.go:97 | the bonus is the least whole number whose 500-cent multiple covers the price |
| Money.CeilFifthIsCeil | main.go:97 | the bonus equals `math.Ceil(price * 0.2)` of the exact price |
| Scoring.ItemPoints | main.go:94-97 | an item earns `math.Ceil(price * 0.2)` of its exact price (0 for a price that fails to parse) when its trimmed description length is a multiple of 3, and 0 otherwise |
| Scoring.BlankDescriptionQualifies | main.go:94-97 | an empty or all-white-space description trims to length 0 and therefore earns the price bonus |
| Scoring.ItemPointsDependOnTrim | main.go:94-97 | two descriptions that trim alike earn the same points for the same price |
| Scoring.ItemPointsUntrimmed | main.go:94-97 | a description without surrounding white space is measured as written |
| Scoring.ItemsPointsBounds | main.go:93-99 | every item's bonus is part of the rule 5 sum, and a list in which no item qualifies earns nothing from rule 5 |
| Scoring.ItemsPointsAppend | main.go:93-99 | rule 5 over two lists of items is the sum of rule 5 over each |
| Scoring.ItemsPointsSwap | main.go:93-99 | swapping two blocks of items does not change rule 5 |
| Scoring.ItemsPointsRemove | main.go:93-99 | taking one item out of the list takes exactly its own bonus out of rule 5 |
| Scoring.ItemsPointsPermutation | main.go:93-99 | the order of the items does not matter: any two lists with the same multiset of items earn the same rule 5 points |
| Scoring.NonQualifyingAddsNothing | main.go:93-99 | an item whose trimmed description length is not a multiple of 3 adds nothing wherever it stands |
| Text.TrimSpace | main.go:94 | the trimmed text neither starts nor ends with white space, is no longer than the input, and is empty exactly when the input is all white space |
| Text.TrimSpacePadded | main.go:94 | white space added on either side of a trimmed text is removed again |
| Text.TrimSpaceTrimmed | main.go:94 | text without surrounding white space is its own trim |
| Text.TrimSpaceIdempotent | main.go:94 | trimming twice is trimming once |
| Money.ParseMoney | main.go:123-127 | text that parses is non-empty and holds only digits and points |
| Money.ParseMoneyAccepts | main.go:123-127 | a text parses exactly when it holds only digits and points, at most one point, at most two characters after the point and at least one digit, so a lone "." and the empty text are rejected |
| Money.ParseMoneyShape | main.go:123-127 | text that parses holds at most one point, and at most two digits follow it |
| Money.ParseMoneyWhole | main.go:123-127 | digits without a point read as that many whole units |
| Money.ParseMoneyDecimal | main.go:123-127 | digits, a point and up to two fraction digits read as units * 100 plus the fraction in cents |
| Money.ParseMoneyRejectsTwoPoints | main.go:123-127 | text holding two points does not parse |
| Money.MoneyOrZero | main.go:79 | unfolding helper for `total, _ := parseMoney(...)` (also at main.go:96): the parsed amount, or Go's zero value 0 after an error |
| Money.ParseFormatCents | main.go:123-127 | every amount rendered as units, a point and two cent digits parses back to itself |
| GoTime.ParseDate | main.go:107 | a parsed date has a month in 1..12, a day within that month of that year, a four-digit year, and came from ten characters with '-' at positions 4 and 7 |
| GoTime.ParseFormatDate | main.go:107 | every valid date rendered as YYYY-MM-DD parses back to itself at midnight |
| GoTime.FormatParseDate | main.go:107 | every accepted date text is exactly the YYYY-MM-DD rendering of the date it yields, so its other eight characters are digits whose values are the year, month and day |
| GoTime.DaysIn | main.go:107 | a month has 28 to 31 days, and 29 exactly for February of a leap year |
| GoTime.ParseClock | main.go:113 | a parsed time lies on January 1 of year 0 with an hour in 0..23 and a minute in 0..59, and came from four or five characters with ':' third from the end |
| GoTime.ParseFormatClock | main.go:113 | every valid time rendered as HH:MM parses back to itself on January 1 of year 0 |
| GoTime.ParseClockOneHourDigit | main.go:113 | a single hour digit is accepted: H:MM reads as 0H:MM |
| GoTime.FormatParseClock | main.go:113 | every accepted clock text is exactly the rendering of the time it yields, with the hour in two digits or, below 10, in one, and the minute in two |
| GoTime.OrZero | main.go:107 | unfolding helper for `t, _ := time.Parse(...)` (also at main.go:113-115): the parsed instant, or the zero Time of January 1, year 1, after an error |
| GoTime.BeforeIsStrictOrder | main.go:116 | Before is irreflexive, asymmetric and transitive |
| GoTime.BeforeSameDay | main.go:116 | two instants of the same day compare as their minutes since midnight |
| Scoring.OddDayPoints | main.go:107-110 | rule 7 gives 6 exactly when the date fails to parse or parses to an odd day, and 0 otherwise |
| Scoring.WindowBounds | main.go:114-115 | the bounds parsed from "14:00" and "16:00" are 14:00 and 16:00 on January 1 of year 0 |
| Scoring.AfternoonPoints | main.go:113-118 | rule 8 gives 10 exactly when the time parses and lies strictly between 14:00 and 16:00 (840 < minutes < 960), and 0 otherwise, an unparseable time included |
| ScoringExamples.MoneyExamples | main.go:123-127 | "6.49", "35.35" and "9.00" parse to 649, 3535 and 900 cents |
| ScoringExamples.MoneyFailureExamples | main.go:124-126 | "abc", "" and a lone "." are not numbers, fail to parse and count as 0 |
| ScoringExamples.RetailerTarget | main.go:76 | "Target" earns 6 |
| ScoringExamples.RetailerCornerMarket | main.go:76 | "M&M Corner Market" earns 14 |
| ScoringExamples.TotalExamples | main.go:79-104 | 35.35 earns neither rule 2 nor 3, 9.00 earns both, a total of 0 earns 75, 10.00 earns no rule 6 bonus and 10.01 earns 5 |
| ScoringExamples.PairExamples | main.go:90 | four and five items both earn 10 |
| ScoringExamples.DateExamples | main.go:107-110 | 2022-01-01 earns 6, 2022-01-02 earns 0, and the unparseable 2023-02-29 and "not a date" earn 6 |
| ScoringExamples.ClockExamples | main.go:113-118 | 14:33 earns 10; 14:00, 16:00 and the unparseable "2pm" earn 0 |
| ScoringExamples.ItemCheesePizza | main.go:93-98 | "Emils Cheese Pizza" at 12.25 earns 3 |
| ScoringExamples.TrimPaddedDescription | main.go:94 | "   Klarbrunn 12-PK 12 FL OZ  " trims to its 24 inner characters |
| ScoringExamples.ItemPaddedDescription | main.go:93-98 | that padded description at 12.00 earns 3 |

## Left out

- HTTP routing and handlers (`main`, `processReceipt`, `getPoints`) and JSON binding: transport plumbing around the engine.
- Identifier generation (`uuid.New`): a foreign library with random output.
- The receipt store (`sync.Map` with a mutex): shared state whose only purpose is concurrency; sequentially it is a map put and get.
- Floating point: amounts are exact cents and the rules' float tests are replaced by integer tests proved equal to the exact real-number reading; IEEE-754 rounding of `price * 0.2`, `math.Mod` and the decimal-to-binary conversion is not modelled.
- Money.ParseMoney: accepts only optional digits, an optional point and at most two fraction digits with at least one digit in all; Go's `%f` also accepts a sign, an exponent, more fraction digits, leading spaces, a numeric prefix followed by other text ("10abc" reads as 10, "1.2.3" as 1.2), digits separated by underscores ("1_000.00" reads as 1000), hexadecimal mantissas ("0x1p4"), and "inf", "Infinity" and "nan", all of which the model treats as a failed parse worth 0. A NaN total earns nothing from rules 2, 3 and 6 in Go, where the model's 0 earns 75. In the other direction, a digit string too large for a float64 makes Go's ParseFloat fail with a range error, so Go reads 0 where the model reads the exact, very large amount: such a total earns 80 from rules 2, 3 and 6 in the model against Go's 75, and such a price earns a large item bonus in the model against Go's 0.
- Scoring.CalculatePoints: the score is never negative only because amounts are unsigned here; in Go a qualifying item with a negative price such as "-100.00" adds `int(math.Ceil(-20.0))` = -20, so the score can go negative.
- Money.ParseMoneyRejectsTwoPoints: two-point text is a failure worth 0 only in the model; Go reads its numeric prefix, so a total of "1.2.3" is 1.2 there and earns nothing from rules 2 and 3, where the model's 0 earns 75.
- Text.TrimSpace: removes ASCII white space only; Go also trims Unicode white space.
- Scoring.ItemPoints: measures the trimmed description in characters; Go's `len` counts UTF-8 bytes, which agrees only for ASCII descriptions.
- Integer width: points and `int(math.Ceil(...))` are unbounded integers; Go's 64-bit `int` overflow on absurd prices is not modelled.
- GoTime.ParseDate and GoTime.ParseClock: only the two layouts the engine uses; the general layout language, time zones, seconds and fractional seconds are not modelled.
