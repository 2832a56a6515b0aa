# phone-rate calculator, modelled in Dafny

The phone-rate installment calculator is one React component, `Calculator`. It
keeps seven input fields in component state:

- the iPhone price;
- the down payment;
- the interest rate;
- a weekly preset (4, 8, 12, 16 or 20 weeks);
- a monthly preset (30, 60, 90, 120 or 150 days);
- custom weeks;
- custom months.

It also keeps three derived fields: the down payment, a stored "monthly"
payment and the number of months. After every input change an effect
recomputes the three derived fields. The page then shows the down payment and
one payment line: a weekly figure, a monthly figure or an empty prompt.

The model has five modules:

- `Options` (options.dfy): the `Option` type. It stands for JavaScript `null`, and for `NaN` as a parse result.
- `NumericInput` (numeric_input.dfy) has three parts:
  - The text filter that every text input applies: `value === '' || /^\d*\.?\d*$/.test(value)`.
  - Its proofs: the filter equals the regular expression read literally (digits, an optional point, digits), and it also equals "only digits and at most one point".
  - `Parse`, a decimal reader for accepted text. It stands for `parseFloat`. `ReadNumber` adds the `|| 0` fallback.
- `FormState` (form_state.dfy):
  - the seven input fields as a `Form` record;
  - the four period fields and the "at most one is set" exclusion;
  - the four selection handlers as transitions on the record.
- `Recalculation` (recalculation.dfy):
  - The effect body, in two steps. `Read` turns the fields into numbers; `Compute` does the arithmetic on those numbers.
  - The payment line and the down-payment figure as the page shows them.
  - Lemmas about:
    - the down-payment rule;
    - custom-over-preset precedence;
    - the weekly and monthly formulas;
    - the truthiness guards that keep every divisor non-zero;
    - the fact that the shown figure repays what is financed;
    - worked examples.
- `CalculatorComponent` (calculator.dfy): the component as a class. It has:
  - the ten state fields;
  - the invariant `Valid`: filtered text only, at most one period field set, and derived fields equal to the recomputation of the inputs;
  - the four handlers;
  - the five filtered `onChange` setters;
  - the quick interest-rate buttons.

  React runs the effect after the render. The model runs the recomputation
  (`Refresh`) at the end of each state-changing method. The four setter calls of
  one handler are batched into one render, so each handler is one atomic
  update.

Amounts are exact `real`s. `0.4` is exactly two fifths, and `1000 / 3` is not
rounded.

## Custom period text

A non-empty custom text always decides the count, even "0" or "." (line 42):
`customWeeks ? parseFloat(customWeeks) : selectedWeekly`. Such text gives a week
count of 0 or NaN, and there is no fallback to the preset; the same holds for
custom months at line 43. In a reachable state this changes nothing, because
setting a custom field clears the preset (`ZeroCustomWeeksGiveNoWeeks`,
`CustomWeeksPrecedence`).

## Model

| member | source | states |
|---|---|---|
| NumericInput.MatchesNumeric | src/components/Calculator.tsx:126 | `/^\d*\.?\d*$/.test(value)` as a scanner over the text: digits until a point, then only digits. `MatchesIffSplit` proves it equal to the regular expression read literally. |
| NumericInput.Accepts | src/components/Calculator.tsx:126 | The guard of every text input: the empty text, or text the scanner matches. `AcceptsIffPattern` and `AcceptsIffDigitsWithOneDot` characterise it in both directions. |
| NumericInput.AcceptsIffPattern | src/components/Calculator.tsx:126 | The filter takes a string exactly when it splits into digits, then an optional point, then digits, which is the regular expression `^\d*\.?\d*$` read literally. |
| NumericInput.MatchesIffSplit | src/components/Calculator.tsx:126 | The scanner used as the filter matches exactly the strings the regular expression describes, in both directions. |
| NumericInput.AcceptsIffDigitsWithOneDot | src/components/Calculator.tsx:148 | The filter takes a string exactly when every character is a digit or a point and at most one is a point. |
| NumericInput.MatchesIffDigitsWithOneDot | src/components/Calculator.tsx:213 | The scanner matches exactly the digit-and-point strings that have at most one point. |
| NumericInput.AcceptsPrefix | src/components/Calculator.tsx:126-128 | Cutting characters off the end of accepted text leaves accepted text, so deleting from the end is never refused. |
| NumericInput.AcceptedParts | src/components/Calculator.tsx:23-25 | Accepted text is its digit part, its point if it has one, and its digit fraction part. |
| NumericInput.Parse | src/components/Calculator.tsx:23-25 | `parseFloat` on accepted text never gives a negative number. |
| NumericInput.ReadNumber | src/components/Calculator.tsx:23 | `parseFloat(s)`, with NaN and 0 read as 0, is never negative on accepted text. |
| NumericInput.ParseDefinedIffDigit | src/components/Calculator.tsx:24 | Accepted text gives a number, rather than NaN, exactly when it holds a digit. |
| NumericInput.ReadNumberWithoutDigit | src/components/Calculator.tsx:25 | Accepted text without a digit ("" or ".") reads as 0 once NaN falls back to 0. |
| NumericInput.ParseDecimal | src/components/Calculator.tsx:23-25 | "a.b" with a and b digit runs is accepted and reads as the whole number a plus the fraction b. It reads as NaN when there is no digit on either side. |
| NumericInput.ParseDigits | src/components/Calculator.tsx:23 | A non-empty run of digits is accepted and reads as the number it denotes. |
| NumericInput.ParseTrailingDot | src/components/Calculator.tsx:23 | A trailing point changes nothing: "12." reads as "12" does. |
| NumericInput.LeadingZeroDecimal | src/components/Calculator.tsx:24 | A leading "0" before "a.b" that holds a digit does not change its value. |
| NumericInput.ParseLeadingZero | src/components/Calculator.tsx:24 | For accepted text that holds a digit, a leading "0" changes nothing: "0.5" and ".5" read alike. |
| NumericInput.ParseShowNat | src/components/Calculator.tsx:25 | Reading back the decimal text of a natural number gives that number (round trip). |
| NumericInput.DigitsValueShowNat | src/components/Calculator.tsx:23 | The digits of a natural number's decimal text denote that number. |
| FormState.Populated | src/components/Calculator.tsx:65-91 | The period fields that are set: a preset that is not null, a custom text that is not empty. The handlers' contracts state their result in these terms, and `PaymentLineOf` picks its line by it (line 338, line 350). |
| FormState.AtMostOnePeriod | src/components/Calculator.tsx:65-91 | At most one period field is set. `HandlersEstablishExclusion` proves every handler establishes it; `Calculator.Valid` keeps it. |
| FormState.SelectWeekly | src/components/Calculator.tsx:65-70 | After `handleWeeklySelect` exactly the weekly preset is set, to the chosen value. Price, rate and down payment are untouched. |
| FormState.SelectMonthly | src/components/Calculator.tsx:72-77 | After `handleMonthlySelect` exactly the monthly preset is set, to the chosen value. The amounts are untouched. |
| FormState.ChangeCustomWeeks | src/components/Calculator.tsx:79-84 | After `handleCustomWeeksChange` the custom weeks hold the value and no other period field is set. The amounts are untouched. |
| FormState.ChangeCustomMonths | src/components/Calculator.tsx:86-91 | After `handleCustomMonthsChange` the custom months hold the value and no other period field is set. The amounts are untouched. |
| FormState.HandlersEstablishExclusion | src/components/Calculator.tsx:65-91 | Whatever the state before, every handler leaves at most one period field set. |
| FormState.HandlersKeepWellFormed | src/components/Calculator.tsx:79-91 | Given accepted text, the handlers keep every text field acceptable. |
| FormState.LastSelectionWins | src/components/Calculator.tsx:65-91 | The result of a handler depends only on the amounts and its argument, never on the earlier period selection. |
| FormState.AmountEditKeepsExclusion | src/components/Calculator.tsx:127 | Editing price, rate or down payment leaves the period fields, and so the exclusion, as they were. |
| Recalculation.Truthy | src/components/Calculator.tsx:45-52 | JavaScript truthiness of a count that may be null or NaN: present and not 0. `PaymentRepaysFinanced` shows that under this guard the count is a non-zero divisor. |
| Recalculation.ActualWeeks | src/components/Calculator.tsx:42 | The week count is null or NaN exactly when the custom text is non-empty with no digit, or is empty with no preset. Otherwise it is never negative. |
| Recalculation.ActualDays | src/components/Calculator.tsx:43 | The day count is null or NaN exactly when the custom text is non-empty with no digit, or is empty with no preset. Otherwise it is never negative. |
| Recalculation.Read | src/components/Calculator.tsx:23-25 | Reading accepted fields through `parseFloat`, with NaN read as 0, and lines 42-43 never gives a negative price, amount, rate, week count or day count. |
| Recalculation.Compute | src/components/Calculator.tsx:27-62 | The arithmetic of the effect on those numbers. The lemmas below state its down-payment rule, its three branches and its precedence. |
| Recalculation.Recompute | src/components/Calculator.tsx:22-63 | The effect body on the fields. The down payment and the months are never negative. The months are positive exactly when a period count is truthy, and zero months mean a zero payment. |
| Recalculation.DownPaymentRule | src/components/Calculator.tsx:27-36 | The down payment is the explicit amount when that is above 0, whatever the price. Otherwise it is 40% of the price when the price is above 0, else 0. It is never negative for readings of accepted text. |
| Recalculation.DefaultDownPayment | src/components/Calculator.tsx:24-39 | A blank or zero down payment gives 40% of the price down and 60% financed. |
| Recalculation.CustomWeeksPrecedence | src/components/Calculator.tsx:42 | Non-empty custom week text alone gives the week count. Changing the weekly preset then changes no reading. |
| Recalculation.CustomMonthsPrecedence | src/components/Calculator.tsx:43 | Non-empty custom month text gives 30 days per month, or NaN. Changing the monthly preset then changes no reading. |
| Recalculation.ZeroCustomWeeksGiveNoWeeks | src/components/Calculator.tsx:42-45 | Custom week text reading as 0 or NaN gives no usable week count, and there is no fallback to the preset. |
| Recalculation.WeeklyBeatsMonthly | src/components/Calculator.tsx:45-52 | Once a week count is truthy, the day count has no effect on any output. |
| Recalculation.WeeklyBranch | src/components/Calculator.tsx:45-51 | With w weeks:<br>- the stored payment is financed/w·4;<br>- the plan is w/4 months;<br>- the shown weekly figure is financed/w;<br>- the weekly figure paid w times, or the stored payment paid every month, repays the financed sum. |
| Recalculation.MonthlyBranch | src/components/Calculator.tsx:52-58 | With no week count and d days, the plan is d/30 months and the payment over those months repays the financed sum. |
| Recalculation.PaymentRepaysFinanced | src/components/Calculator.tsx:45-62 | For readings of accepted text:<br>- months are never negative;<br>- months are positive exactly when a period count resolves;<br>- payment × months is the financed sum, or 0 with no plan. |
| Recalculation.DefaultDownPaymentPositivePayment | src/components/Calculator.tsx:31-58 | No explicit down payment, a positive price and a plan give a positive financed sum and a positive payment. |
| Recalculation.PlanFromSingleField | src/components/Calculator.tsx:42-62 | With at most one period field set, the plan length follows from the one that is set:<br>- a weekly preset gives w/4 months;<br>- a monthly preset gives d/30 months;<br>- custom weeks give the read number/4;<br>- custom months give the read number itself;<br>- with none set, both are 0. |
| Recalculation.PaymentLineOf | src/components/Calculator.tsx:338-374 | Which payment line the page shows. The prompt shows exactly when no period field is set. The monthly line shows only when no weekly field is set; the weekly line only when a weekly field is set. `LineFigure` states its figure. |
| Recalculation.DownPaymentShown | src/components/Calculator.tsx:228 | A down payment figure that is shown is positive and is the computed down payment. `DownPaymentBlankIff` says when it is blank. |
| Recalculation.DownPaymentBlankIff | src/components/Calculator.tsx:228 | The down payment figure is blank exactly when both the amount and the price read as 0. Otherwise it is the computed down payment. |
| Recalculation.LineFigure | src/components/Calculator.tsx:338-354 | A figure on the payment line is the positive stored payment. On the weekly line it is divided by four. |
| Recalculation.WeeklyLineHasNoDays | src/components/Calculator.tsx:338 | Under the exclusion, the weekly line shows only when no month field is set. |
| Recalculation.MonthlyLineHasNoWeeks | src/components/Calculator.tsx:350 | The monthly line shows only when no weekly field is set. |
| Recalculation.WeeklyFigureRepays | src/components/Calculator.tsx:45-51 | With no day count, a positive stored payment comes from a week count, and its quarter paid once a week repays the financed sum. |
| Recalculation.MonthlyFigureRepays | src/components/Calculator.tsx:52-58 | With no week count, a positive stored payment comes from a day count and repays the financed sum over the months. |
| Recalculation.ShownWeeklyFigure | src/components/Calculator.tsx:338-342 | A weekly figure the page shows is positive and comes from a truthy week count; paid once per week, it repays the financed sum. |
| Recalculation.ShownMonthlyFigure | src/components/Calculator.tsx:350-354 | A monthly figure the page shows is positive and comes from a day count with no week count; paid every month of the plan, it repays the financed sum. |
| Recalculation.MixedSelectionMislabels | src/components/Calculator.tsx:338-342 | Without the exclusion, custom weeks "0" beside the 30-day preset makes the page show a monthly plan's payment, quartered, as a weekly figure. |
| Recalculation.WeeklyExample | src/components/Calculator.tsx:22-51 | Price 1000, rate 10%, 4-week preset give:<br>- 400 down;<br>- the stored payment 660;<br>- 1 month;<br>- 165 shown per week. |
| Recalculation.MonthlyExample | src/components/Calculator.tsx:52-58 | Price 1200, 200 down, 0%, 90-day preset give:<br>- 200 down;<br>- 1000/3 a month;<br>- 3 months. |
| Recalculation.ZeroPriceExample | src/components/Calculator.tsx:27-62 | A zero price with nothing else gives all outputs 0 and the prompt line. |
| Recalculation.ZeroWeeksExample | src/components/Calculator.tsx:42-62 | Custom weeks "0" with price 1000 give 400 down, no division, payment and months 0, and a blank weekly figure. |
| CalculatorComponent.BlankRecomputesToNothing | src/components/Calculator.tsx:9-19 | The initial blank fields already agree with the initial derived values 0. |
| CalculatorComponent.QuickRateLabels | src/components/Calculator.tsx:183 | The eight buttons write "0", "2.5", "5", "7.5", "10", "12.5", "15" and "20". |
| CalculatorComponent.RateLabel | src/components/Calculator.tsx:183-186 | `rate.toString()` for a quick rate: its whole part in decimal, then ".5" for a half. `QuickRateLabels` and `RateLabelReads` state its values and its round trip. |
| CalculatorComponent.RateLabelReads | src/components/Calculator.tsx:186 | A button label passes the filter and reads back as the button's rate (round trip of `toString` and `parseFloat`). |
| CalculatorComponent.Calculator.ShownWeeklyPayment | src/components/Calculator.tsx:338-346 | In every valid state, a weekly figure on the page is positive, comes from a truthy week count and, paid once a week, repays the financed sum. |
| CalculatorComponent.Calculator.ShownMonthlyPayment | src/components/Calculator.tsx:350-358 | In every valid state, a monthly figure on the page is positive, comes from a day count and, paid every month of the stored plan, repays the financed sum. |
| CalculatorComponent.Calculator.constructor | src/components/Calculator.tsx:9-19 | The component starts with blank fields and derived values 0, and the invariant holds. |
| CalculatorComponent.Calculator.Refresh | src/components/Calculator.tsx:22-63 | The effect sets the derived fields to the recomputation of the inputs and changes no input. |
| CalculatorComponent.Calculator.HandleWeeklySelect | src/components/Calculator.tsx:65-70 | Preserves the invariant. The new inputs are `SelectWeekly` of the old ones. |
| CalculatorComponent.Calculator.HandleMonthlySelect | src/components/Calculator.tsx:72-77 | Preserves the invariant. The new inputs are `SelectMonthly` of the old ones. |
| CalculatorComponent.Calculator.HandleCustomWeeksChange | src/components/Calculator.tsx:79-84 | Preserves the invariant. The new inputs are `ChangeCustomWeeks` of the old ones. |
| CalculatorComponent.Calculator.HandleCustomMonthsChange | src/components/Calculator.tsx:86-91 | Preserves the invariant. The new inputs are `ChangeCustomMonths` of the old ones. |
| CalculatorComponent.Calculator.OnPriceInput | src/components/Calculator.tsx:123-129 | The edit is kept exactly when the filter accepts it. Only the price changes; a rejected edit changes nothing. The invariant holds. |
| CalculatorComponent.Calculator.OnInterestRateInput | src/components/Calculator.tsx:145-151 | The same for the interest-rate text input. |
| CalculatorComponent.Calculator.OnDownPaymentInput | src/components/Calculator.tsx:210-216 | The same for the down-payment input. |
| CalculatorComponent.Calculator.OnCustomWeeksInput | src/components/Calculator.tsx:269-274 | Accepted text goes through `handleCustomWeeksChange`; rejected text changes nothing. The invariant holds. |
| CalculatorComponent.Calculator.OnCustomMonthsInput | src/components/Calculator.tsx:320-325 | Accepted text goes through `handleCustomMonthsChange`; rejected text changes nothing. The invariant holds. |
| CalculatorComponent.Calculator.PickQuickRate | src/components/Calculator.tsx:183-186 | A quick-rate button sets only the rate text, to its label, which reads as its rate. The invariant holds. |

## Left out

- The range slider's `onChange` (line 168) writes the browser's value string into the rate field without the filter. It is not modelled, so `WellFormed` is an invariant of the model.
- The slider's gradient percentage (line 171) and the highlighting of the active buttons (lines 188, 243, 294): presentation only.
- `toFixed(2)` formatting and IEEE-754 floating point: amounts are exact reals. Only the rule that a figure is shown when it is above 0 is modelled (lines 228, 342, 354).
- The period counts printed after the payment figures (lines 346, 358), the labels, the badge letters and the rest of the JSX: presentation only.
- `src/app/page.tsx` only mounts the component; it is not part of this model.
- React scheduling: the effect is run synchronously at the end of each state-changing method. The setters of one handler are treated as one atomic update, as React batches them.
- NumericInput.Parse: `parseFloat` is defined only on text the filter accepts, which is all a field can hold while the slider is left out. Other strings are out of scope.
- NumericInput.ParseDecimal: states "a.b" as the whole number a plus the fraction b. It does not state the equivalent form "the digits of a and b together, divided by 10 to the length of b", which this proof does not attempt.
- `NaN` is modelled as `None`: `parseFloat` of "" or "." and `NaN * 30` for custom months. In exact arithmetic every divisor is non-zero. IEEE overflow to Infinity, for example from a 400-digit price or a truthy subnormal week count, and the NaN that follows from it, are left out with floating point.
