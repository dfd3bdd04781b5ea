# Budget allocator, BMI classifier and form logic, modelled in Dafny

This project models the computational core of a small personal-finance and BMI web
application:

- the server's `/api/calculate` handler, which validates one `income` field and returns
  the 50/30/20 split (needs, wants, savings) with each part subdivided by fixed shares;
- the client's BMI calculator, which reads weight and height, computes
  weight / (height/100)² and places the value in one of five half-open bands;
- the client's in-place Fisher–Yates `shuffleArray` and the five budgeting tips taken
  from a shuffled copy of the recommendation list;
- the client's `addDebt` (validate four fields, append one debt) and the checks made
  before a request is sent: an empty debt list, the income field, and the three
  emergency-fund fields.

Amounts are exact `real`s. JavaScript's coercions are modelled in `JsCoercion`:
truthiness, `Number(x)` (what `isNaN` uses), and `parseFloat(x)`. NaN is `None`. Both
string readers share one scanner for decimal literals of the form
`[+-]? digits* ('.' digits*)? ([eE] [+-]? digits+)?`, with at least one digit before the
exponent. `parseFloat` skips leading white space and takes the longest such prefix.
`Number` trims white space at both ends, reads a blank text as 0, also reads `0b`, `0o` and
`0x` integers, and otherwise needs the whole trimmed text to be one literal. White space is
the StrWhiteSpaceChar set of ECMA-262 (section 7.1.4.1.1): the white-space characters and
the line terminators.

Files and modules:

| file | module | source |
|---|---|---|
| js_coercion.dfy | JsCoercion | JavaScript semantics used by both source files |
| budget_allocator.dfy | BudgetAllocator | server.js |
| bmi_classifier.dfy | BmiClassifier | client/src/App.jsx |
| tip_shuffle.dfy | TipShuffle | client/src/App.jsx |
| debt_form.dfy | DebtForm | client/src/App.jsx |
| input_guards.dfy | InputGuards | client/src/App.jsx |

The form state of the React component is a value: each handler takes the current state
and returns the next one. `shuffleArray` is the only in-place algorithm. It is a method
on an `array`, proved against the function `Shuffled`.

Some behaviour of the code is easy to overlook; the model keeps it as written:

- The BMI handler refuses only a weight or height that is 0 or NaN. A negative value
  still gets a band (`NegativeWeightClassified`).
- The server accepts the text `"0"` and negative incomes. Only a falsy or non-numeric
  value is refused (`ZeroTextAccepted`).
- The emergency-fund check lets monthly expenses of `"0"` through (`ZeroExpensesSent`), and
  blank ones such as `" "` as well (`BlankExpensesSent`); the same holds of the current-fund
  field, the other text input. The target-months field is a menu whose three choices, "3",
  "6" and "12", all pass the check (`TargetMonthsOptionsPass`), so neither "0" nor " " can
  be chosen there.
- The client's income check lets blank text such as `" "` through, because `Number(" ")`
  is 0. The server as written then answers 200 with every amount NaN (`null` in JSON),
  which the result view cannot format (`BlankIncomeSent`).
- Hex text such as `"0x10"` passes the server's test, because `Number("0x10")` is 16, but
  `parseFloat` reads it as 0 (`NonDecimalReadsZero`, `ReadersDisagree`). The server, as
  written and as corrected, then answers 200 with an all-zero body (`RadixIncomeReadsZero`).

## Model

| member | source | states |
|---|---|---|
| JsCoercion.Truthy | server.js:14 | a value is falsy exactly when it is undefined, null, false, the number 0 or the empty text |
| JsCoercion.NumberOf | server.js:14 | `Number(v)` is NaN exactly for undefined and for text `Number` cannot read; a number is itself |
| JsCoercion.ParseFloat | server.js:17 | `parseFloat` reads a number only from a number (itself) or from text; undefined, null and booleans give NaN |
| JsCoercion.NumericInput | client/src/App.jsx:84 | the falsy-or-NaN test passes: text passes when non-empty and readable by `Number`, a number when it is not 0, a boolean when it is true; undefined and null never |
| JsCoercion.ScanDecimal | server.js:17 | `parseFloat` finds a number exactly when the text, after an optional sign, starts with a digit or a point and a digit; the literal it reads is non-empty and lies inside the text; without a minus sign the value is not negative |
| JsCoercion.TrimEmptyIffBlank | server.js:14 | trimming leaves nothing exactly when the text is white space only |
| JsCoercion.BlankText | server.js:14-17 | a blank text is 0 for `Number` and NaN for `parseFloat` |
| JsCoercion.NumberIgnoresPadding | server.js:14 | white space around a text does not change what `Number` reads |
| JsCoercion.ParseFloatIgnoresPadding | server.js:17 | white space around a whole literal does not change what `parseFloat` reads |
| JsCoercion.ParseFloatIgnoresTrailingText | server.js:17 | `parseFloat` reads the literal at the start and ignores what follows it, as in "12px" |
| JsCoercion.NonDecimalReadsZero | server.js:17 | `parseFloat` reads a `0b`/`0o`/`0x` literal as 0 |
| JsCoercion.HexSixteen | server.js:14 | `Number("0x10")` is 16 |
| JsCoercion.ReadersDisagree | server.js:14-17 | the readers differ on "0x10" (16 against 0) and on " " (0 against NaN) |
| JsCoercion.NumberTextAgreesWithParseFloat | server.js:14-17 | where `Number` reads a text: blank text is NaN for `parseFloat`, a `0b`/`0o`/`0x` literal is 0 for it, and any other text is read to the same value by both |
| JsCoercion.NumericInputParses | server.js:14-17 | of the values that pass the falsy-or-NaN test, `parseFloat` fails exactly on `true` and on blank text; other decimal texts parse to what `Number` gives |
| JsCoercion.ScaleUp | server.js:17 | a positive exponent k multiplies by 10^k |
| JsCoercion.ScaleDown | server.js:17 | a negative exponent -k divides by 10^k |
| JsCoercion.DecimalTextRoundTrip | server.js:17 | `Number` and `parseFloat` both read back a natural number from its decimal text |
| JsCoercion.NegativeTextRoundTrip | server.js:17 | both readers read "-" followed by the text of n as -n |
| JsCoercion.FractionTextRoundTrip | server.js:17 | both readers read digits d, a point and digits f as d + f / 10^(number of digits of f) |
| JsCoercion.ExponentTextRoundTrip | server.js:17 | both readers read digits of value m, `e` and digits of value x as m × 10^x |
| JsCoercion.NegativeExponentTextRoundTrip | server.js:17 | both readers read digits d, `e-` and digits k as d / 10^k |
| JsCoercion.PaddedTextRoundTrip | server.js:14-17 | both readers read a natural number's text back with any white space around it |
| BudgetAllocator.IncomeGuardRejects | server.js:14 | the written falsy-or-NaN test: text is refused when empty or unreadable by `Number`, a number when 0, a boolean when false, undefined and null always |
| BudgetAllocator.SplitIncome | server.js:20-22 | needs + wants + savings = income, needs is half of it, and wants : savings = 3 : 2 |
| BudgetAllocator.SplitNeeds | server.js:25-31 | the five needs items sum to the needs total; utilities = transportation, housing = 2·groceries = 4·healthcare |
| BudgetAllocator.SplitWants | server.js:34-38 | the three wants items sum to the wants total; dining out = entertainment = 2·shopping |
| BudgetAllocator.SplitSavings | server.js:41-46 | the four savings items sum to the savings total; emergency fund = retirement, investing = 4·personal development |
| BudgetAllocator.Allocate | server.js:17-68 | the body echoes the income, every total is the sum of its items, and all amounts are non-negative exactly when the income is |
| BudgetAllocator.Calculate | server.js:12-70 | the corrected handler (see "## Findings"): 400 "Invalid income provided." exactly when the written test refuses the income or `parseFloat` cannot read it; otherwise the body is the allocation of the income `parseFloat` reads, balanced, and non-negative iff the income is |
| BudgetAllocator.GuardAdmitsUnreadableIncome | server.js:14-17 | the written test lets `true` and " " through although `parseFloat` reads both as NaN; the handler as written answers both with a NaN body |
| BudgetAllocator.CalculateAsWritten | server.js:12-70 | the handler as written answers 200 with a NaN body exactly for `true` and blank non-empty text, which `Calculate` refuses with 400; on every other income it answers as `Calculate` does |
| BudgetAllocator.BlankIncomeRefused | server.js:14-17 | any blank non-empty text passes the written test, is NaN for `parseFloat`, and is refused by the corrected handler `Calculate` (the handler as written answers it with a NaN body) |
| BudgetAllocator.CalculateDiffersOnTrueAndBlank | server.js:14-17 | the corrected handler `Calculate` refuses exactly what the written test refuses, plus `true` and blank non-empty text |
| BudgetAllocator.ItemSharesOfIncome | server.js:20-46 | each of the twelve items is a fixed share of the income (housing 20%, utilities 7.5%, …, personal development 2%), and the twelve sum to the income |
| BudgetAllocator.AllocateMonotone | server.js:20-46 | a larger income never lowers a total or any of the twelve items |
| BudgetAllocator.InvalidIncomesRejected | server.js:14-16 | undefined, null, "", 0, false and "abc" all get 400 |
| BudgetAllocator.LetterIncomeRefused | server.js:14-16 | text that starts with a lowercase letter gets 400 "Invalid income provided." |
| BudgetAllocator.NumeralIncomeAccepted | server.js:14-68 | the decimal text of any natural number is accepted and allocated as that number |
| BudgetAllocator.NumberIncomeAccepted | server.js:14-68 | any JSON number other than 0, negative ones included, is accepted and allocated as itself |
| BudgetAllocator.Income6000Example | server.js:17-53 | 6000 as a number or as text gives needs 3000, wants 1800, savings 1200, housing 1200, utilities 450, groceries 600, … |
| BudgetAllocator.RadixIncomeReadsZero | server.js:14-17 | a `0b`/`0o`/`0x` literal passes the written test because `Number` reads it, but `parseFloat` reads it as 0, so the handler as written and the corrected `Calculate` both answer 200 with the all-zero body |
| BudgetAllocator.ZeroTextAccepted | server.js:14-17 | the text "0" is truthy, so it passes validation and yields an all-zero body |
| BmiClassifier.Classify | client/src/App.jsx:237-257 | the band chosen contains the value in its half-open interval |
| BmiClassifier.BandsDisjoint | client/src/App.jsx:237-257 | no value lies in two bands |
| BmiClassifier.ClassifyIffInBand | client/src/App.jsx:237-257 | the chain chooses a band if and only if the value lies in its interval |
| BmiClassifier.ClassifyMonotone | client/src/App.jsx:237-257 | a larger BMI never gets a lighter band |
| BmiClassifier.BoundariesGoUp | client/src/App.jsx:241-257 | 16, 18.5, 25 and 30 fall in the band above the threshold |
| BmiClassifier.LabelsDistinct | client/src/App.jsx:238-254 | different bands show different labels |
| BmiClassifier.BodyMassIndex | client/src/App.jsx:231-232 | BMI × (height in metres)² = weight, and it is positive for a positive weight |
| BmiClassifier.HandleBmiCalc | client/src/App.jsx:224-259 | no result exactly when weight or height is 0 or unreadable; otherwise the value is the BMI of the two and the label, colour and advice are those of its band |
| BmiClassifier.HandleReadNumbers | client/src/App.jsx:225-258 | once both fields read as non-zero numbers, the result is the label of their BMI's band |
| BmiClassifier.NumeralRead | client/src/App.jsx:225-226 | `parseFloat` reads a natural number's text, with or without a leading minus |
| BmiClassifier.HealthyExample | client/src/App.jsx:224-258 | 70 kg at 175 cm is classified "Healthy" |
| BmiClassifier.NegativeWeightClassified | client/src/App.jsx:225-230 | a negative weight is not refused and is classified "Severely Underweight" |
| TipShuffle.RandomIndex | client/src/App.jsx:31 | `Math.floor(Math.random() * (i + 1))` is an index from 0 to i |
| TipShuffle.Swap | client/src/App.jsx:32 | the two positions exchange their elements and every other position keeps its element |
| TipShuffle.SwapPermutes | client/src/App.jsx:32 | a swap keeps the multiset of elements |
| TipShuffle.ShuffleFromPermutes | client/src/App.jsx:29-35 | whatever the random values, the shuffle keeps the length and the multiset of elements |
| TipShuffle.ShuffledPermutes | client/src/App.jsx:29-35 | the full shuffle is a permutation of its input |
| TipShuffle.ShuffleArray | client/src/App.jsx:29-35 | the array afterwards is the shuffle of its old contents under the given random values, a permutation of them |
| TipShuffle.PermutationKeepsDistinct | client/src/App.jsx:99-100 | a permutation of a list without repeats has no repeats |
| TipShuffle.RecommendationsDistinct | client/src/App.jsx:18-27 | the eight recommendations are pairwise different |
| TipShuffle.Take | client/src/App.jsx:100 | `slice(0, n)` is a prefix of length min(n, length) |
| TipShuffle.ShuffledPrefix | client/src/App.jsx:99-100 | shuffling a fresh copy and slicing gives the first n of the shuffle, min(n, length) of them, each from the list, no two alike |
| TipShuffle.SelectTips | client/src/App.jsx:99-100 | exactly five tips, the first five of the shuffled copy, each a recommendation, no two alike |
| DebtForm.NewDebt | client/src/App.jsx:155-161 | the new record carries the name, the id given, and the three amounts as `parseFloat` reads them |
| DebtForm.AddDebt | client/src/App.jsx:147-167 | an empty name or unreadable amount leaves the state unchanged; otherwise exactly one debt is appended after the unchanged earlier ones and the four fields are cleared |
| DebtForm.DebtManagementRequest | client/src/App.jsx:169-173 | the list is sent if and only if it is not empty, and unchanged |
| DebtForm.AddDebtEnablesRequest | client/src/App.jsx:162-173 | after a successful add the strategies can be requested |
| DebtForm.SameFieldsSameDebt | client/src/App.jsx:148-161 | whether an entry is accepted, and the debt it makes, depend only on the four typed fields |
| DebtForm.AddOneAppendsAccepted | client/src/App.jsx:147-167 | one add appends exactly the debt the entry is accepted as, or nothing |
| DebtForm.AddAllAppendsAccepted | client/src/App.jsx:147-167 | after any series of adds the list is the old list followed by the debts of the accepted entries, in order |
| DebtForm.InvalidEntriesRefused | client/src/App.jsx:148-154 | an empty name, or any of the three amounts blank or starting with a lowercase letter, leaves the list and the fields unchanged |
| DebtForm.InvalidEntryExamples | client/src/App.jsx:148-154 | two examples: an empty name, and a balance of "abc" |
| InputGuards.HandleCalculate | client/src/App.jsx:80-105 | invalid income text shows the client's error; a 400 shows the server's error text; a 200 shows its body with five distinct recommendations |
| InputGuards.ClientCheckMatchesServer | client/src/App.jsx:84-87 | for text, the client's income check passes if and only if the corrected handler `Calculate` answers 200 or the text is blank and non-empty (blank text is answered with a NaN body by the handler as written) |
| InputGuards.BlankIncomeSent | client/src/App.jsx:84-87 | " " passes the client's check; the handler as written answers it with a NaN body, the corrected handler `Calculate` with 400 |
| InputGuards.HandleCalculateAgainstServer | client/src/App.jsx:80-105 | against the corrected handler `Calculate`, an error is shown exactly when the client's check fails or the text is blank; blank non-empty text shows its 400 message (the handler as written sends a NaN body instead, see `BlankIncomeSent`); a result carries the allocation of the income `parseFloat` reads and five tips |
| InputGuards.EmergencyFundRequest | client/src/App.jsx:114-117 | the request is sent exactly when all three fields are non-empty and readable by `Number`, and it carries them as typed |
| InputGuards.EmergencyFieldsParse | client/src/App.jsx:114-117 | fields that pass the check, other than blank text and `0b`/`0o`/`0x` literals, are read to the same numbers by `parseFloat` |
| InputGuards.DigitFieldsSent | client/src/App.jsx:114-117 | fields made of digits pass the check, whatever their value |
| InputGuards.BlankExpensesSent | client/src/App.jsx:114-117 | a blank monthly-expenses field passes the check: `Number` reads it as 0, while `parseFloat` finds no number |
| InputGuards.ZeroExpensesSent | client/src/App.jsx:114-117 | monthly expenses of "0" pass the check; empty ones do not |
| InputGuards.TargetMonthsOptionsPass | client/src/App.jsx:109-117 | each choice of the target-months menu ("3", "6", "12") passes the check and reads the same under `Number` and `parseFloat` |

## Findings

| source | as written | input that shows it | evidently intended | confidence | as-written member | corrected member |
|---|---|---|---|---|---|---|
| server.js:14-17 | the test coerces with `Number` but the income is then read with `parseFloat`. Two values pass the test and read as NaN: the JSON value `true` (`Number(true)` is 1) and blank text such as " " (`Number(" ")` is 0). The response is then 200 with every amount NaN (null in JSON). The form itself sends " ", because its own check is the same test | request body `{"income": true}` or `{"income": " "}` | answer 400 "Invalid income provided." | medium, not executed | BudgetAllocator.GuardAdmitsUnreadableIncome | BudgetAllocator.Calculate |

## Left out

- HTTP plumbing: Express setup, JSON body parsing, static file serving and `listen` (server.js:2-8, 73-83). These are framework I/O. The handler is a function from the `income` value to a response.
- The client's `fetch` calls, `alert` pop-ups, the `catch` branches for network errors, and the resetting of `error`, `result` and `tips` when `handleCalculate` starts. The server's answer is an input of `HandleCalculate`. A refused entry is `None`, or the state left unchanged.
- The server logic of `/api/emergency-fund`, `/api/debt-management` and `/api/side-hustle`. No handler for them is in the modelled files, so only the client-side checks made before those requests are modelled.
- The side-hustle form's empty-field check (client/src/App.jsx:197-200) is not part of this model.
- Presentation: the colour-scheme table and its random rotation, tab and sub-tab state, all JSX rendering, and `toFixed` formatting. The BMI result's `color` string is kept because the handler stores it in its result.
- `Math.random()` is a sequence of values in [0, 1), one per loop iteration. `Date.now()` is a parameter.
- IEEE-754 arithmetic: amounts are exact reals, so the sums hold exactly rather than up to rounding.
- JsCoercion.ScanDecimal: `Infinity`, `+Infinity` and `-Infinity` are not read, and neither reader overflows to Infinity or underflows to 0 for large exponents. Values are exact reals.
- JsCoercion.NumberOf: arrays and objects as JSON values are not modelled. Only undefined, null, booleans, finite numbers and strings are.
- InputGuards.HandleCalculate: the server's answer is a `Response` of the corrected handler. The NaN body the handler as written sends for blank text is not passed to it, and what the result view then does (`toFixed` on `null`, client/src/App.jsx:306) is rendering, which is not modelled.
- InputGuards.EmergencyFieldsParse: states agreement only for fields that are not blank and not a `0b`/`0o`/`0x` literal. On those two kinds of text the readers differ in JavaScript too, as `BlankExpensesSent` and `ReadersDisagree` show.
- TipShuffle.ShuffleArray: `shuffleArray` also returns the array it was given. The method only changes the array in place. The caller shuffles a fresh copy, so no aliasing is lost.
