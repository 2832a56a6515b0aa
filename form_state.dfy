/**
 * The seven input fields the calculator keeps in component state, and the four
 * period-selection handlers, as transitions on that record.
 */
module FormState {
  import opened Options
  import opened NumericInput

  /** A weekly preset button: 4, 8, 12, 16 or 20 weeks. */
  type WeeklyOption = w: int | w == 4 || w == 8 || w == 12 || w == 16 || w == 20 witness 4

  /** A monthly preset button, in days: 30, 60, 90, 120 or 150. */
  type MonthlyOption = d: int | d == 30 || d == 60 || d == 90 || d == 120 || d == 150 witness 30

  datatype Form = Form(
    iPhonePrice: string,
    downPayment: string,
    interestRate: string,
    selectedWeekly: Option<WeeklyOption>,
    selectedMonthly: Option<MonthlyOption>,
    customWeeks: string,
    customMonths: string)

  /** Every field starts empty (`''` or `null`). */
  const BLANK := Form("", "", "", None, None, "", "")

  /** Every text field holds text the numeric filter accepts. */
  predicate WellFormed(f: Form) {
    Accepts(f.iPhonePrice) && Accepts(f.downPayment) && Accepts(f.interestRate) &&
    Accepts(f.customWeeks) && Accepts(f.customMonths)
  }

  /** The four fields that choose a repayment period. */
  datatype PeriodField = WeeklyPreset | MonthlyPreset | CustomWeeks | CustomMonths

  /** The period fields that are set: a preset that is not null, a custom text that is not empty. */
  function Populated(f: Form): set<PeriodField> {
    (if f.selectedWeekly.Some? then {WeeklyPreset} else {}) +
    (if f.selectedMonthly.Some? then {MonthlyPreset} else {}) +
    (if f.customWeeks != "" then {CustomWeeks} else {}) +
    (if f.customMonths != "" then {CustomMonths} else {})
  }

  /** At most one of the four period fields is set. */
  predicate AtMostOnePeriod(f: Form) {
    forall p, q :: p in Populated(f) && q in Populated(f) ==> p == q
  }

  /** Price, interest rate and down-payment text agree. */
  predicate SameAmounts(f: Form, g: Form) {
    f.iPhonePrice == g.iPhonePrice && f.downPayment == g.downPayment &&
    f.interestRate == g.interestRate
  }

  /** Editing an amount field leaves the period fields, and so the exclusion, as they were. */
  lemma AmountEditKeepsExclusion(f: Form, g: Form)
    requires g.selectedWeekly == f.selectedWeekly && g.selectedMonthly == f.selectedMonthly
    requires g.customWeeks == f.customWeeks && g.customMonths == f.customMonths
    ensures Populated(g) == Populated(f)
    ensures AtMostOnePeriod(g) <==> AtMostOnePeriod(f)
  {
  }

  /** `handleWeeklySelect`: set the weekly preset, clear the other three. */
  function SelectWeekly(f: Form, weeks: WeeklyOption): (g: Form)
    ensures Populated(g) == {WeeklyPreset} && g.selectedWeekly == Some(weeks)
    ensures SameAmounts(f, g)
  {
    f.(selectedWeekly := Some(weeks), selectedMonthly := None, customWeeks := "", customMonths := "")
  }

  /** `handleMonthlySelect`: set the monthly preset, clear the other three. */
  function SelectMonthly(f: Form, days: MonthlyOption): (g: Form)
    ensures Populated(g) == {MonthlyPreset} && g.selectedMonthly == Some(days)
    ensures SameAmounts(f, g)
  {
    f.(selectedMonthly := Some(days), selectedWeekly := None, customWeeks := "", customMonths := "")
  }

  /** `handleCustomWeeksChange`: take the custom week text, clear the other three. */
  function ChangeCustomWeeks(f: Form, value: string): (g: Form)
    ensures Populated(g) == (if value == "" then {} else {CustomWeeks}) && g.customWeeks == value
    ensures SameAmounts(f, g)
  {
    f.(customWeeks := value, selectedWeekly := None, selectedMonthly := None, customMonths := "")
  }

  /** `handleCustomMonthsChange`: take the custom month text, clear the other three. */
  function ChangeCustomMonths(f: Form, value: string): (g: Form)
    ensures Populated(g) == (if value == "" then {} else {CustomMonths}) && g.customMonths == value
    ensures SameAmounts(f, g)
  {
    f.(customMonths := value, selectedWeekly := None, selectedMonthly := None, customWeeks := "")
  }

  /** A handler's result has at most one period field set, whatever the state before. */
  lemma HandlersEstablishExclusion(f: Form, weeks: WeeklyOption, days: MonthlyOption, value: string)
    ensures AtMostOnePeriod(SelectWeekly(f, weeks)) && AtMostOnePeriod(SelectMonthly(f, days))
    ensures AtMostOnePeriod(ChangeCustomWeeks(f, value)) && AtMostOnePeriod(ChangeCustomMonths(f, value))
  {
  }

  /** The handlers keep every text field acceptable when given accepted text. */
  lemma HandlersKeepWellFormed(f: Form, weeks: WeeklyOption, days: MonthlyOption, value: string)
    requires WellFormed(f) && Accepts(value)
    ensures WellFormed(SelectWeekly(f, weeks)) && WellFormed(SelectMonthly(f, days))
    ensures WellFormed(ChangeCustomWeeks(f, value)) && WellFormed(ChangeCustomMonths(f, value))
  {
  }

  /** Whatever the state, the last handler decides the whole period selection. */
  lemma LastSelectionWins(f: Form, g: Form, weeks: WeeklyOption, days: MonthlyOption, value: string)
    requires SameAmounts(f, g)
    ensures SelectWeekly(f, weeks) == SelectWeekly(g, weeks)
    ensures SelectMonthly(f, days) == SelectMonthly(g, days)
    ensures ChangeCustomWeeks(f, value) == ChangeCustomWeeks(g, value)
    ensures ChangeCustomMonths(f, value) == ChangeCustomMonths(g, value)
  {
  }
}
