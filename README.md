# Mortgage calculator — a Dafny model

This project models the core of a small C# batch program that reads a file of
loan prospects and prints, for each one, the fixed monthly payment of an
amortizing loan. Three pieces of `MortgageCalculator/Program.cs` are modelled
and proved about:

- **Record validation** (`Program.ValidateCustomer`): one comma-separated line
  becomes a `Customer` (name, total loan, annual interest rate in percent,
  term in years) or fails. The line is split on `,` exactly as
  `String.Split(',')` does. A line with fewer than four fields fails with the
  field-count error (`InvalidInputException`). With more than four fields,
  the first two are joined by a space to form the name and the numeric fields
  shift by one. Every `"` is removed from the name. Every `.` in the loan and
  rate fields becomes `,` before parsing. A field that does not parse gives
  the generic format error (a plain `Exception`). `double.TryParse` and
  `int.TryParse` depend on the culture, so they are parameters of the model
  (`Validation.NumberParsers`). The properties are about which strings reach
  them and how their results are used.
- **Payment computation** (`Customer.CalculateMonthlyPayment`): the loop that
  builds `(1 + r)^n` by repeated multiplication is a Dafny method with a loop
  invariant. Its result is tied to the specification function
  `Customers.MonthlyPayment`, and that function is proved to retire the loan:
  paying it every month for the whole term leaves a balance of exactly zero.
  `TotalYears * 12` is a 32-bit C# `int` product and wraps as one.
- **The read loop of `Main`**, over the file's lines as a `seq<string>`. Line 1
  is a header. Whitespace-only lines are skipped but still advance the line
  counter. Each record is reported as prospect `lineNumber - 1`. The run stops
  at the first line that fails validation. `Report.ProcessLines` is the loop;
  `Report.Run` is its specification, one `Report.Step` per line, and the lemmas
  about `Run` state the header, blank-line, numbering and fail-fast rules.

Files: `wrappers.dfy` (Option, Result), `strings.dfy` (the .NET string
operations used), `customers.dfy` (the customer record and the payment),
`validation.dfy` (line validation), `report.dfy` (the read loop).

## Behaviour worth noting

- A zero interest rate is not special-cased. `pow` stays 1 and the formula
  divides by zero, so the model gives no payment (`None`). See
  `Customers.ZeroRateHasNoPayment`.
- Blank lines advance `lineNumber`, and a prospect is numbered
  `lineNumber - 1`, so a blank line leaves a gap in the numbering. For a
  header, a valid line, a blank line and a valid line, the prospects are
  numbered 1 and 3. See `Report.BlankLineLeavesGap`.
- The two validation failures are different exceptions: too few fields throws
  `InvalidInputException`, and a non-numeric field throws a plain `Exception`.
  Both stop the run: `Main` catches only the first, and the second is left
  uncaught.
- `TotalYears * 12` wraps in 32 bits. A term of 178956971 years gives a
  negative month count and no payment; a term of 357913942 years wraps to 8
  months and does get a payment. See `Customers.WrappedTermIsShort`.

## Model

| member | source | states |
|---|---|---|
| `Strings.Split` | MortgageCalculator/Program.cs:115 | `String.Split(',')`: at least one piece, no piece contains the separator, and there is one more piece than there are separators in the line |
| `Strings.JoinSplit` | MortgageCalculator/Program.cs:115 | rejoining the pieces of a split with the separator gives back the original line |
| `Strings.SplitJoin` | MortgageCalculator/Program.cs:115 | splitting a join of separator-free pieces gives back those pieces, so each piece is a maximal separator-free run and empty pieces are kept |
| `Strings.RemoveAll` | MortgageCalculator/Program.cs:134 | `Replace("\"", "")`: the result has no `"`; a character is in the result iff it is in the input and is not `"`; every other character keeps its count |
| `Strings.RemoveAllAbsent` | MortgageCalculator/Program.cs:134 | removing a character that does not occur leaves the string unchanged, so removing quotes twice is the same as removing them once |
| `Strings.RemoveAllConcat` | MortgageCalculator/Program.cs:134 | removing a character from a concatenation concatenates the two removals |
| `Strings.ReplaceChar` | MortgageCalculator/Program.cs:138-139 | `Replace('.', ',')`: same length; each `.` becomes `,` and every other character is unchanged |
| `Strings.ReplaceCharRemoves` | MortgageCalculator/Program.cs:138-139 | after replacing `.` by a different character, no `.` is left |
| `Strings.ReplaceCharInverse` | MortgageCalculator/Program.cs:138-139 | when the replacement character did not occur in the input, replacing it back restores the input |
| `Strings.IsWhiteSpace` | MortgageCalculator/Program.cs:75 | `char.IsWhiteSpace`; among ASCII characters, exactly the space and the controls from tab to carriage return |
| `Strings.IsNullOrWhiteSpace` | MortgageCalculator/Program.cs:75 | `string.IsNullOrWhiteSpace` on a non-null line: the empty line qualifies, and a line that qualifies holds no comma, no quote, no letter and no digit |
| `Validation.ValidateCustomer` | MortgageCalculator/Program.cs:113-156 | fewer than four fields iff the result is the field-count error with message "Format invalid: " + line; any other failure is the format error with the same message; a successful name contains neither `"` nor `,` |
| `Validation.TooFewFields` | MortgageCalculator/Program.cs:115-121 | a line with fewer than three commas is rejected with the field-count error, and only such a line is |
| `Validation.BlankLineIsInvalid` | MortgageCalculator/Program.cs:115-120 | a whitespace-only line is a single field, so validating it would fail with the field-count error (the loop skips such lines before validating) |
| `Validation.FourFieldLine` | MortgageCalculator/Program.cs:122-150 | for a four-field line, the record exists iff the loan, rate and years texts all parse; its name is field 0 with quotes removed and not trimmed; loan and rate are parsed from fields 1 and 2 with `.` replaced by `,`; years is parsed from field 3 unchanged |
| `Validation.SplitNameLine` | MortgageCalculator/Program.cs:125-150 | for a line of five or more fields, the name is field 0, a space and field 1, with quotes removed; loan, rate and years come from fields 2, 3 and 4 in the same way; fields after index 4 do not affect the result |
| `Validation.DecimalText` | MortgageCalculator/Program.cs:138-139 | the loan and rate texts handed to `double.TryParse`: same length as the field, no `.` left, each `.` now `,` and every other character unchanged |
| `Validation.DecimalTextRoundTrip` | MortgageCalculator/Program.cs:138-139 | the loan and rate texts handed to `double.TryParse` contain no `.`, and turning their `,` back into `.` gives the field as written |
| `Validation.QuotedNameWithComma` | MortgageCalculator/Program.cs:125-150 | the line `"Jane,Doe",3200,5,4` is accepted whenever its three numbers parse, with the name `Jane Doe` and loan, rate and years parsed from `3200`, `5` and `4` |
| `Validation.PlainNameLine` | MortgageCalculator/Program.cs:118-150 | the line `John Doe,100000,4,15` is accepted whenever its three numbers parse, with the name `John Doe` as written and loan, rate and years parsed from `100000`, `4` and `15` |
| `Customers.Wrap32` | MortgageCalculator/Program.cs:34 | a C# `int` product: exact when it fits in 32 bits, and always congruent to the exact product modulo 2^32 |
| `Customers.MonthlyInterestRate` | MortgageCalculator/Program.cs:33 | `InterestRate / 12 / 100`: the monthly rate times 1200 is the annual rate in percent |
| `Customers.NumberOfPayments` | MortgageCalculator/Program.cs:34 | `TotalYears * 12` as a C# `int`: exactly 12 × the years for terms between -178956970 and 178956970 years, and otherwise congruent to it modulo 2^32 |
| `Customers.Iterations` | MortgageCalculator/Program.cs:36 | how often the `for` loop multiplies: below 2^31, and zero exactly when the month count is zero or negative |
| `Customers.Growth` | MortgageCalculator/Program.cs:35-39 | the value `pow` reaches: 1 when the loop does not run or the rate is zero, and above 1 when the loop runs at a positive rate |
| `Customers.Annuity` | MortgageCalculator/Program.cs:40 | the closed form: the payment times the denominator `1 - 1/pow` equals the loan times the monthly rate |
| `Customers.MonthlyPayment` | MortgageCalculator/Program.cs:33-41 | there is a payment iff `pow` is neither 0 nor 1, and then payment × (1 - 1/pow) equals one month's interest on the whole loan |
| `Customers.CalculateMonthlyPayment` | MortgageCalculator/Program.cs:31-42 | the loop leaves `pow == (1 + r)^k`, where k is the wrapped `TotalYears * 12` or 0 if that is not positive, and the result is `MonthlyPayment` of the customer |
| `Customers.GrowthOverMonths` | MortgageCalculator/Program.cs:33-39 | for a term from 0 to 178956970 years, the loop runs exactly `TotalYears * 12` times and `pow == (1 + InterestRate/12/100)^(12 * TotalYears)` |
| `Customers.PositiveRateAndTerm` | MortgageCalculator/Program.cs:33-40 | with a positive rate and a positive month count, wrapped or not: pow > 1, the denominator is strictly between 0 and 1, a payment exists, and for a positive loan the payment is positive and exceeds the first month's interest |
| `Customers.ZeroRateHasNoPayment` | MortgageCalculator/Program.cs:33-40 | with a zero rate, pow is 1 and the denominator is exactly 0; there is no special case and so no payment |
| `Customers.NoMonthsHasNoPayment` | MortgageCalculator/Program.cs:34-40 | whenever `TotalYears * 12` comes out zero or negative, wrapped or not, the loop runs no iteration, pow is 1 and there is no payment |
| `Customers.NonPositiveTermHasNoPayment` | MortgageCalculator/Program.cs:34-40 | a term of 0 or fewer years (down to -178956970) runs no iteration, so pow is 1 and there is no payment |
| `Customers.OverflowingTermHasNoPayment` | MortgageCalculator/Program.cs:34-40 | a term of 178956971 years wraps `TotalYears * 12` to a negative count, so the loop runs no iteration and there is no payment |
| `Customers.WrappedTermIsShort` | MortgageCalculator/Program.cs:34-40 | a term of 357913942 years wraps `TotalYears * 12` to 8 months; with a positive rate that short term gets a payment |
| `Customers.BalanceClosedForm` | MortgageCalculator/Program.cs:35-40 | the balance after k monthly payments, times r, equals loan × r × (1 + r)^k − payment × ((1 + r)^k − 1) |
| `Customers.PaymentAmortizesLoan` | MortgageCalculator/Program.cs:40 | whenever the payment exists, paying it every month for the loop's number of months leaves a balance of exactly zero |
| `Report.Step` | MortgageCalculator/Program.cs:71-88 | definition of one loop iteration: nothing changes once the run has stopped, on line 1 or on a whitespace-only line; otherwise a failing line stops the run at its number with its error, and a valid line appends prospect `lineNumber - 1` with its payment |
| `Report.Run` | MortgageCalculator/Program.cs:68-90 | definition of the loop over all lines: one `Step` per line, numbered from 1, starting with no prospects |
| `Report.ProcessLines` | MortgageCalculator/Program.cs:68-104 | the loop over the lines returns exactly the prospects and the outcome of `Run` with `ValidateCustomer` and `MonthlyPayment` |
| `Report.AbortIsFinal` | MortgageCalculator/Program.cs:99-104 | once a line has failed validation, reading further lines changes neither the prospects nor the outcome |
| `Report.ProspectsComeFromValidLines` | MortgageCalculator/Program.cs:72-88 | every prospect's number k is between 1 and the line count minus 1, so the header never yields one; line k (0-based) is not blank and validates to the prospect's customer; the prospect's payment is that customer's |
| `Report.ProspectNumbersIncrease` | MortgageCalculator/Program.cs:72-83 | prospect numbers strictly increase in input order |
| `Report.ProspectCountBound` | MortgageCalculator/Program.cs:72-74 | the header alone (or no line) yields no prospect and no failure; otherwise there are fewer prospects than lines |
| `Report.RunIsFailFast` | MortgageCalculator/Program.cs:69-104 | every non-blank line after the header and before the stopping point validates and is reported under its index; when the run stops, it is at a non-blank line (line 2 or later) that fails with the recorded error, and every prospect comes from an earlier line |
| `Report.BlankLineIsSkipped` | MortgageCalculator/Program.cs:75 | appending a whitespace-only line changes neither the prospects nor the outcome |
| `Report.ValidLineIsReported` | MortgageCalculator/Program.cs:74-88 | a non-blank line after the header that validates, while the run is still going, appends exactly one prospect, numbered one below the line, with that customer and its payment |
| `Report.BlankLineLeavesGap` | MortgageCalculator/Program.cs:72-83 | a valid line after a blank one is numbered as if the blank line had been a prospect: the numbering has a gap |

## Left out

- Opening the file with `StreamReader`, `EndOfStream`/`ReadLine`, and the `FileNotFoundException` handler: file I/O. The input is the sequence of lines the reader would return.
- `Console.OutputEncoding`, `Console.WriteLine` and the `Console.ReadLine` keypress waits: console I/O. A reported prospect is the `Report.Prospect` value the formatted line is built from.
- The `string.Format` with `{2:#.00}` and `{4:#.00}`: culture- and float-dependent number formatting.
- IEEE-754 doubles: amounts, rates and payments are exact reals. Rounding after many multiplications is not modelled, so neither are the ±0.01 payment checks in `MortgageCalculatorTest/UnitTest1.cs`.
- The internals of `double.TryParse` and `int.TryParse`: both are parameters (`Validation.NumberParsers`), except that `int.TryParse` yields a 32-bit value.
- `Customers.MonthlyPayment`: gives `None` when `pow` is 1, where the C# code yields an infinite or NaN double, and when `pow` is 0 (a rate of exactly -1200 %), where it yields a signed zero; neither value is modelled.
- `Customers.CalculateMonthlyPayment`: returns `None` in the same two cases as `Customers.MonthlyPayment`.
- The `Trim()` on `values[0]` at line 122: its result is always overwritten before use, so it has no effect and is not modelled.
- The exception classes: the two failures are the two constructors of `Validation.ValidationError`, and both stop the run.
- `lineNumber` in `Main` is an unbounded integer in the model; a file of more than 2^31 − 1 lines would overflow the C# `int`.
