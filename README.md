# Historical performance averages, modelled in Dafny

This project models `computeHistoricalPerformanceAverages` of
`src/analytics_helpers.js`, the single function that turns a trader's log of
trade records into summary statistics. It makes one pass over the records
and then derives guarded ratios.

- **Money parsing** (module `Money`). The inner `parseNumber` works in four steps:
  - it turns a field into text;
  - it deletes every character of the class written in the source as `[â‚¬,$]`;
  - it replaces the first comma by a point;
  - it reads the leading decimal numeral, and gives 0 when there is none.
- **The pass** (module `Analytics`). `Step` is one call of the `forEach`
  callback, and `Accumulate` folds it over the log as a specification.
  - The variables the callback closes over are the fields of class `Pass`.
  - Its methods `AddDate`, `AddAmounts` and `Visit` change those fields in
    place, and each is proved against the function it implements.
  - `ComputeHistoricalPerformanceAverages` is the loop itself, proved to return
    `Derive(Accumulate(trades, parseDate))`.
- **Derivations** (module `Analytics`). `Derive` computes the seven returned
  fields, each guarded against a zero denominator. `years` uses the numeric
  ascending sort of module `Sorting`.
- **Properties** (modules `MoneyProperties`, `MoneyExamples`,
  `AnalyticsProperties`, `AnalyticsExamples`). What the parser and the
  computation promise, stated against definitions that read the log directly:
  - `Admitted`: the records that are not skipped;
  - `InvestedTotal`, `NetResult`, `GrossProfitOf`, `GrossLossOf`: sums over them;
  - `WinCount`, `LossCount`: how many of them have a result of at least 0, or below it;
  - `DatedMonths`: the months of their valid entry dates.

Where the evident intent and the code disagree, the model follows the code:

- **Euro amounts.** The field `INVESTMENT (EURO)`, the name `totalInvestedEUR`
  and the euro-looking characters in the stripped class suggest that
  `"€1,234.56"` should read as 1234.56. The stripped class holds U+00E2, U+201A and U+00AC, which is how a UTF-8 euro
  sign reads when misdecoded as Windows-1252. It does not hold the euro sign
  U+20AC itself. So any text that starts with `€` parses to 0
  (`MoneyExamples.EuroSignIsNotStripped`).
- **Decimal commas.** The `replace(',', '.')` after the stripping suggests
  that a remaining comma should be read as a decimal separator. The code
  deletes every comma before that step, so
  the step never changes anything (`MoneyProperties.DecimalCommaStepIsNoOp`).
  `"1,50"` is therefore read as 150 (`MoneyExamples.DecimalCommaIsDropped`).

Field values are `Cell`s: `Missing` (undefined), `Null` or `Text`. A record's
entry date counts as present when it is non-empty text, which is JavaScript's
truthiness for these values. Date parsing is a parameter, `parseDate`. It
returns the calendar month (`getFullYear()` and a 0-based `getMonth()`), or
None for an invalid date.

## Model

| member | source | states |
|---|---|---|
| Money.ToText | src/analytics_helpers.js:6 | `String(v)` on undefined, null and text; the amounts of the first two are stated by `MoneyExamples.MissingFieldIsZero` and `MoneyExamples.NullFieldIsZero` |
| Money.Strip | src/analytics_helpers.js:6 | the global replace of the class by the empty string; its properties are stated by `MoneyProperties.StripRemovesClass`, `StripKeepsCleanText` and `StripConcat` |
| Money.ReplaceFirst | src/analytics_helpers.js:6 | `replace` with a one-character string pattern; stated by `MoneyProperties.ReplaceFirstAbsent` and `ReplaceFirstAtFirstOccurrence` |
| Money.TrimStart | src/analytics_helpers.js:6 | the white space `parseFloat` skips; stated by `MoneyProperties.TrimStartDropsLeadingWhiteSpace` |
| Money.ParseNumeral | src/analytics_helpers.js:6 | `parseFloat` on trimmed text; stated by `MoneyProperties.NumeralFailsExactly`, `LeadingDigitsIsMaximal`, `ParsePositiveDecimal`, `ParseNegativeDecimal`, `ParseNumeralPlusSign`, `ParseNumeralMinusSign`, and `ParseNumeralIgnoresRest` and `ParseDigitsIgnoresRest` for the text after the numeral |
| Money.ParseNumber | src/analytics_helpers.js:6 | the inner `parseNumber`; stated by `MoneyProperties.ParseCleanText`, `NoNumeralIsZero`, `StrippedCharIgnored`, `ParseNumberSkipsWhiteSpace` and the round trip `ParseRenderedCents` |
| MoneyProperties.StripRemovesClass | src/analytics_helpers.js:6 | after the global replace no character of the class `â ‚ ¬ , $` is left, and the text is no longer than before |
| MoneyProperties.StripKeepsCleanText | src/analytics_helpers.js:6 | text with no character of the class is left exactly as it was |
| MoneyProperties.StripConcat | src/analytics_helpers.js:6 | the replace works character by character: stripping a concatenation is the concatenation of the stripped parts |
| MoneyProperties.ReplaceFirstAbsent | src/analytics_helpers.js:6 | a string-pattern `replace` of a character that does not occur changes nothing |
| MoneyProperties.ReplaceFirstAtFirstOccurrence | src/analytics_helpers.js:6 | a string-pattern `replace` rewrites the first occurrence only and keeps every other character in place |
| MoneyProperties.DecimalCommaStepIsNoOp | src/analytics_helpers.js:6 | no comma survives the stripping, so the `replace(',', '.')` that follows leaves the text unchanged |
| MoneyProperties.TrimStartDropsLeadingWhiteSpace | src/analytics_helpers.js:6 | `parseFloat` skips exactly the leading white space: a suffix remains, everything dropped is white space, and the rest does not start with it |
| MoneyProperties.LeadingDigitsIsMaximal | src/analytics_helpers.js:6 | the digits read are the longest leading run: the next character, if any, is not a digit |
| MoneyProperties.NumeralFailsExactly | src/analytics_helpers.js:6 | `parseFloat` yields NaN exactly when, after an optional sign, the text starts with neither a digit nor a point followed by a digit |
| MoneyProperties.ParseNumeralIgnoresRest | src/analytics_helpers.js:6 | `parseFloat` stops at the longest numeral: `ip.fp` followed by anything that does not start with a digit is worth the value of `ip.fp` |
| MoneyProperties.ParseDigitsIgnoresRest | src/analytics_helpers.js:6 | digits followed by anything that does not continue the numeral are worth the digits, so a bare trailing point, as in "12.", adds nothing |
| MoneyProperties.ParseNumeralPlusSign | src/analytics_helpers.js:6 | a leading `+` is accepted and dropped: "+5" is worth what "5" is |
| MoneyProperties.ParseNumeralMinusSign | src/analytics_helpers.js:6 | a leading `-` negates whatever the rest reads as, trailing text and all: "-50" and "-50 EUR" are worth minus 50, and a rest with no numeral stays NaN |
| MoneyProperties.TrimStartSkipsWhiteSpace | src/analytics_helpers.js:6 | any run of white space in front of a text is skipped entirely |
| MoneyProperties.ParseNumberSkipsWhiteSpace | src/analytics_helpers.js:6 | a field with white space in front is worth what the rest of it is worth |
| MoneyProperties.ParseCleanText | src/analytics_helpers.js:6 | text that stripping and trimming leave alone is worth its numeral's value, or 0 when it has none |
| MoneyProperties.NoNumeralIsZero | src/analytics_helpers.js:6 | text that does not start like a numeral is worth 0, never NaN: the NaN of `parseFloat` becomes 0 |
| MoneyProperties.SameStripSameAmount | src/analytics_helpers.js:6 | two texts that strip to the same text are worth the same amount |
| MoneyProperties.StrippedCharIgnored | src/analytics_helpers.js:6 | inserting a character of the class anywhere in a text leaves its amount unchanged |
| MoneyProperties.ParseDigitsText | src/analytics_helpers.js:6 | plain digit text is worth the integer it denotes |
| MoneyProperties.ParsePositiveDecimal | src/analytics_helpers.js:6 | the numeral `ip.fp` is read as `ip + fp / 10^len(fp)` |
| MoneyProperties.ParseNegativeDecimal | src/analytics_helpers.js:6 | the numeral `-ip.fp` is read as the negation of that value |
| MoneyProperties.ParseDecimalText | src/analytics_helpers.js:6 | plain `digits.digits` text is worth its decimal value |
| MoneyProperties.ParseRenderedCents | src/analytics_helpers.js:6 | round trip: an amount of `c` cents written as `-`? digits `.` two digits parses back to `c / 100` |
| MoneyExamples.MissingFieldIsZero | src/analytics_helpers.js:6 | an undefined field (`String(undefined)` is "undefined") is worth 0 |
| MoneyExamples.NullFieldIsZero | src/analytics_helpers.js:6 | a null field (`String(null)` is "null") is worth 0 |
| MoneyExamples.WordIsZero | src/analytics_helpers.js:6 | the text "foo" is worth 0 |
| MoneyExamples.DollarAndCommaStripped | src/analytics_helpers.js:6 | a dollar sign and a thousands comma are dropped: `$ip,jp.fp` is worth what `ipjp.fp` is worth |
| MoneyExamples.DollarAndThousandsSeparator | src/analytics_helpers.js:6 | `$ip,jp.fp`, as in "$1,234.56", is worth the decimal value of `ipjp.fp` |
| MoneyExamples.EuroSignIsNotStripped | src/analytics_helpers.js:6 | any text starting with the euro sign U+20AC, "€1,234.56" included, is worth 0 |
| MoneyExamples.TrailingEuroSignIgnored | src/analytics_helpers.js:6 | `ip.fp €`, as in "1234.56 €", is worth the decimal value of `ip.fp`: the sign after the amount is ignored |
| MoneyExamples.TrailingUnitIgnored | src/analytics_helpers.js:6 | digits followed by " EUR", as in "50 EUR", are worth the digits |
| MoneyExamples.LeadingSpaceSkipped | src/analytics_helpers.js:6 | " 100", an untrimmed cell, is worth 100: a space then digits is worth the digits |
| MoneyExamples.NegativeDigitsText | src/analytics_helpers.js:6 | "-" followed by digits, as in "-50", is worth minus their value |
| MoneyExamples.DecimalCommaIsDropped | src/analytics_helpers.js:6 | `ip,fp`, as in "1,50", is worth the integer `ipfp` and not `ip.fp` |
| Sorting.SortAscending | src/analytics_helpers.js:21 | `sort((a, b) => a - b)` on the years; stated by `Sorting.SortAscendingPermutes`, `SortAscendingOrders` and `SortAscendingStrictly` |
| Sorting.SortAscendingPermutes | src/analytics_helpers.js:21 | the sort of the years returns a permutation of them |
| Sorting.SortAscendingOrders | src/analytics_helpers.js:21 | with the comparator `a - b` the years come back in ascending order |
| Sorting.SortAscendingStrictly | src/analytics_helpers.js:21 | years without duplicates come back strictly ascending |
| Analytics.IsTruthy | src/analytics_helpers.js:8 | the test `if (!t['DATE IN'])`: empty text, null and undefined are falsy; its effect is stated by `Analytics.Step` and `AnalyticsProperties.SkippedRecordIsIgnored` |
| Analytics.AddYear | src/analytics_helpers.js:13 | `yearsSet.add`: the years afterwards are those before plus the added one, and a set without duplicates stays without duplicates |
| Analytics.RecordDate | src/analytics_helpers.js:12-16 | an invalid date records nothing; a valid one adds its month to the month keys and its year to the years, and touches no amount or counter |
| Analytics.RecordAmounts | src/analytics_helpers.js:17-19 | counts one trade and adds its investment; a result of at least 0 (so 0 too) adds one win and the result to the gross profit, leaving the loss counter and the gross loss alone; a negative result adds one loss and its absolute value to the gross loss, leaving the win counter and the gross profit alone; years and months are untouched |
| Analytics.Step | src/analytics_helpers.js:8-19 | a record with a falsy entry date changes nothing; any other record counts as a trade and adds its parsed investment; a record whose date does not parse adds no year and no month |
| Analytics.Accumulate | src/analytics_helpers.js:7-20 | the `forEach` pass as a fold of `Step`: never more trades than records; its totals against the log are stated by `AnalyticsProperties.AccumulateCounts`, `AccumulateMonths` and `AccumulateIsConsistent` |
| Analytics.Derive | src/analytics_helpers.js:21-30 | the derivations after the loop: `success` is always true; the figures are stated against the log by `AnalyticsProperties.LogWinRate`, `LogAverageInvestment`, `LogTradesPerMonth`, `LogRoiTarget`, `LogLossTarget` and `Years` |
| Analytics.GuardedQuotient | src/analytics_helpers.js:23-29 | a guarded ratio is 0 when its guard fails and otherwise multiplies back by the denominator to the numerator |
| Analytics.Pass.constructor | src/analytics_helpers.js:2-5 | the accumulators start at zero, with no years and no months |
| Analytics.Pass.AddDate | src/analytics_helpers.js:12-16 | the in-place `yearsSet.add` (only for a year not yet present) and month-key update yield `RecordDate` of the previous state |
| Analytics.Pass.AddAmounts | src/analytics_helpers.js:17-19 | the in-place updates of the totals and counters yield `RecordAmounts` of the previous state |
| Analytics.Pass.Visit | src/analytics_helpers.js:8-19 | one run of the callback leaves the accumulators at `Step` of their previous values |
| Analytics.ComputeHistoricalPerformanceAverages | src/analytics_helpers.js:1-31 | the loop over mutable accumulators followed by the derivations returns `Derive(Accumulate(trades, parseDate))`, whose `success` is true |
| AnalyticsProperties.StepKeepsConsistent | src/analytics_helpers.js:8-19 | one callback step keeps trades = wins + losses, both gross totals non-negative, the years free of duplicates, and the years equal to the years of the month keys |
| AnalyticsProperties.AccumulateIsConsistent | src/analytics_helpers.js:7-20 | those relations hold after any log: every counted trade is exactly one win or one loss, and every year seen has at least one month key |
| AnalyticsProperties.SkippedRecordIsIgnored | src/analytics_helpers.js:8 | a record with a falsy entry date, anywhere in the log, can be removed without changing any total, counter, year or month |
| AnalyticsProperties.AdmittedRecordsSuffice | tests/analytics.test.js:7 | filtering out the records without an entry date first, as the test does, gives the same totals as passing the whole log |
| AnalyticsProperties.AccumulateCounts | src/analytics_helpers.js:9-19 | the trade count is the number of admitted records; the invested total is the sum of their investments; the gross profit is the sum of their results of at least 0 and the gross loss the sum of the absolute values of their negative results, so their difference is the sum of the signed results; the win (loss) count is the number of them whose result is at least 0 (negative) |
| AnalyticsProperties.AccumulateMonths | src/analytics_helpers.js:11-16 | the month keys are exactly the entry months of the admitted records whose date is valid |
| AnalyticsProperties.LogAverageInvestment | src/analytics_helpers.js:23 | the average investment is the admitted investments over the number of admitted records, or 0 when there are none |
| AnalyticsProperties.LogTradesPerMonth | src/analytics_helpers.js:22-24 | trades per month are the admitted records over the distinct valid entry months, or 0 when there is none |
| AnalyticsProperties.LogWinRate | src/analytics_helpers.js:27 | the win rate is the share of admitted records with a result of at least 0, or 0 when none was admitted, and always lies in [0, 1] |
| AnalyticsProperties.DerivedTargets | src/analytics_helpers.js:25-29 | the ROI target (loss per failed operation) is the average win (loss) over the average investment when there is a win (loss) and that average is positive, is 0 otherwise, and is never negative |
| AnalyticsProperties.LogRoiTarget | src/analytics_helpers.js:25-28 | the ROI target is the gross profit per winning record over the average investment when there is a win and that average is positive, and 0 otherwise |
| AnalyticsProperties.LogLossTarget | src/analytics_helpers.js:26-29 | the loss per failed operation is the gross loss per losing record over the average investment when there is a loss and that average is positive, and 0 otherwise |
| AnalyticsProperties.LogTargetsNonNegative | src/analytics_helpers.js:28-29 | on any log both suggested percentages are at least 0 |
| AnalyticsProperties.Years | src/analytics_helpers.js:21 | the returned years are strictly ascending, so hold no duplicate, and are exactly the years of the valid entry dates of admitted records |
| AnalyticsProperties.NoRecordAdmitted | src/analytics_helpers.js:8 | a log in which no record has an entry date leaves every accumulator at its initial value |
| AnalyticsProperties.NothingAdmitted | src/analytics_helpers.js:23-30 | such a log returns `success` with every figure 0 and no years |
| AnalyticsExamples.MalformedRecordCountsAsWin | src/analytics_helpers.js:8-19 | a record dated "bad-date" with investment "foo" and a null result is not skipped: it counts as one more trade and one more win, and adds no amount, year or month |
| AnalyticsExamples.HundredParses | src/analytics_helpers.js:6 | "100" is read as 100 |
| AnalyticsExamples.FiftyParses | src/analytics_helpers.js:6 | "50" is read as 50 |
| AnalyticsExamples.ValidRecordStep | src/analytics_helpers.js:9-19 | a record entered in January 2024 with investment "100" and result "50" records that month and year and counts a trade of 100 with result 50 |
| AnalyticsExamples.ValidRecordFirst | src/analytics_helpers.js:2-19 | from the initial state that record gives 100 invested, one win, gross profit 50, the year 2024 and one month |
| AnalyticsExamples.ValidLog | src/analytics_helpers.js:2-20 | the log holding only that record gives the same totals |
| AnalyticsExamples.ValidThenMalformedTotals | src/analytics_helpers.js:7-20 | the valid record followed by the malformed one gives 100 invested, two trades, both wins, gross profit 50, the year 2024 and one month |
| AnalyticsExamples.ValidThenMalformedFigures | src/analytics_helpers.js:21-30 | those totals give win rate 1, average investment 50, 2 trades per month, ROI target 0.5, loss target 0 and the years [2024] |
| AnalyticsExamples.ValidThenMalformed | src/analytics_helpers.js:1-31 | the whole computation on that two-record log returns exactly those figures |
| AnalyticsExamples.MinusTwentyParses | src/analytics_helpers.js:6 | "-20" is read as -20 |
| AnalyticsExamples.LosingRecordStep | src/analytics_helpers.js:9-19 | a January 2024 record with investment "100" and result "-20" records that month and year and counts a trade of 100 with result -20 |
| AnalyticsExamples.LosingAfterValid | src/analytics_helpers.js:17-19 | after the valid record it takes the loss branch: a second trade, 200 invested, one loss, gross loss 20, gross profit and the win count unchanged, no new year or month |
| AnalyticsExamples.ValidThenLosingTotals | src/analytics_helpers.js:7-20 | the valid record followed by the losing one gives 200 invested, two trades, one win and one loss, gross profit 50, gross loss 20, the year 2024 and one month |
| AnalyticsExamples.ValidThenLosingFigures | src/analytics_helpers.js:21-30 | those totals give win rate 0.5, average investment 100, 2 trades per month, ROI target 0.5, loss target 0.2 and the years [2024] |
| AnalyticsExamples.ValidThenLosing | src/analytics_helpers.js:1-31 | the whole computation on that two-record log returns exactly those figures |

## Left out

- tests/analytics.test.js: it reads `data/Trades.csv` with a CSV library and checks rounded figures. That file and the CSV parsing are not part of this model, so the expected values cannot be restated. Only the test's pre-filtering of records is modelled (`AnalyticsProperties.AdmittedRecordsSuffice`).
- Date parsing: `new Date(...)` and its `isNaN` check are a parameter, `parseDate`, not modelled JavaScript date semantics. A date-only text such as "2024-01-01" is read as UTC midnight while `getFullYear()` and `getMonth()` report local time, so the month a record counts under depends on the host's time zone; the examples that assume January 2024 for that date hold at UTC or east of it.
- Money.ParseNumeral: the numeral grammar is sign, digits, point, digits. Exponents (`1e3`), `Infinity` and the IEEE-754 limits of `parseFloat` are not modelled.
- Floating point: amounts, sums and ratios are exact `real`s. Rounding in the sums and divisions and the sign of zero are not modelled.
- Analytics.GuardedQuotient: a zero denominator behind a passing guard cannot occur with exact arithmetic. The NaN or Infinity that floating point could give there is not modelled.
- Field values: a field is undefined, null or text, which covers what a CSV parser yields. Numbers, booleans and objects in a field, and the record fields the function does not read, are not modelled.
- The month key string built from year and month: it is modelled as the (year, month) pair. Distinct pairs give distinct keys, and only the number of keys is used.
- `Array.prototype.sort` is modelled by an insertion sort. Any correct sort returns the same sequence for distinct integers.
- Malformed arguments: a `trades` that is not an array, or a null or undefined element in it, makes the source throw a TypeError when it reads `t['DATE IN']`. The model's types rule both out, so that exception is not modelled.
- `module.exports` is not modelled; it is only the module's export.
