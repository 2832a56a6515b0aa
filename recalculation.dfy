/**
 * The recomputation the calculator runs after every input change: the down
 * payment, the stored payment and the number of months, from the seven input
 * fields; and which payment figure the page then shows.
 *
 * It is written in two steps, as the effect body is: first the fields are
 * read as numbers (`Read`), then the arithmetic is done on those numbers
 * (`Compute`).
 */
module Recalculation {
  import opened Options
  import opened NumericInput
  import opened FormState

  /** The three derived state fields. */
  datatype Outputs = Outputs(calculatedDownPayment: real, monthlyPayment: real, totalMonths: real)

  const NO_OUTPUTS := Outputs(0.0, 0.0, 0.0)

  /**
   * The fields read as numbers: price, explicit down payment and rate after
   * `parseFloat(...) || 0`, and the week and day counts, None standing for
   * null or NaN.
   */
  datatype Readings = Readings(price: real, dpAmount: real, rate: real, weeks: Option<real>, days: Option<real>)

  /** JavaScript truthiness of a number that may be null or NaN (here None). */
  predicate Truthy(x: Option<real>) {
    x.Some? && x.value != 0.0
  }

  /** `customWeeks ? parseFloat(customWeeks) : selectedWeekly` */
  function ActualWeeks(f: Form): (w: Option<real>)
    requires WellFormed(f)
    ensures w.Some? ==> w.value >= 0.0
    ensures w.None? <==> if f.customWeeks != "" then !HasDigit(f.customWeeks) else f.selectedWeekly.None?
  {
    if f.customWeeks != "" then ParseDefinedIffDigit(f.customWeeks); Parse(f.customWeeks)
    else match f.selectedWeekly
      case None => None
      case Some(w) => Some(w as real)
  }

  /** `customMonths ? parseFloat(customMonths) * 30 : selectedMonthly` (NaN stays NaN) */
  function ActualDays(f: Form): (d: Option<real>)
    requires WellFormed(f)
    ensures d.Some? ==> d.value >= 0.0
    ensures d.None? <==> if f.customMonths != "" then !HasDigit(f.customMonths) else f.selectedMonthly.None?
  {
    if f.customMonths != "" then
      ParseDefinedIffDigit(f.customMonths);
      match Parse(f.customMonths)
      case None => None
      case Some(m) => Some(m * 30.0)
    else match f.selectedMonthly
      case None => None
      case Some(d) => Some(d as real)
  }

  /** The fields read as numbers; nothing read from accepted text is negative. */
  function Read(f: Form): (r: Readings)
    requires WellFormed(f)
    ensures NonNegative(r)
  {
    Readings(ReadNumber(f.iPhonePrice), ReadNumber(f.downPayment), ReadNumber(f.interestRate),
             ActualWeeks(f), ActualDays(f))
  }

  /** What reading accepted text can give: nothing negative. */
  predicate NonNegative(r: Readings) {
    r.price >= 0.0 && r.dpAmount >= 0.0 && r.rate >= 0.0 &&
    (r.weeks.Some? ==> r.weeks.value >= 0.0) && (r.days.Some? ==> r.days.value >= 0.0)
  }

  /** The arithmetic of the effect body. The truthiness guards keep every divisor non-zero. */
  function Compute(r: Readings): Outputs {
    var dp := if r.dpAmount > 0.0 then r.dpAmount else if r.price > 0.0 then r.price * 0.4 else 0.0;
    var remaining := r.price - dp;
    if Truthy(r.weeks) then
      var totalWithInterest := remaining * (1.0 + r.rate / 100.0);
      var weeklyPayment := totalWithInterest / r.weeks.value;
      var months := r.weeks.value / 4.0;
      Outputs(dp, weeklyPayment * 4.0, months)
    else if Truthy(r.days) then
      var months := r.days.value / 30.0;
      var totalWithInterest := remaining * (1.0 + r.rate / 100.0);
      Outputs(dp, totalWithInterest / months, months)
    else
      Outputs(dp, 0.0, 0.0)
  }

  /** The body of the recomputation effect. */
  function Recompute(f: Form): (out: Outputs)
    requires WellFormed(f)
    ensures out.calculatedDownPayment >= 0.0 && out.totalMonths >= 0.0
    ensures out.totalMonths > 0.0 <==> HasPlan(Read(f))
    ensures out.totalMonths == 0.0 ==> out.monthlyPayment == 0.0
  {
    DownPaymentRule(Read(f));
    PaymentRepaysFinanced(Read(f));
    Compute(Read(f))
  }

  /** What is financed and repaid: the price less the down payment, raised by the rate in percent. */
  function FinancedWithInterest(r: Readings): real {
    (r.price - Compute(r).calculatedDownPayment) * (1.0 + r.rate / 100.0)
  }

  /** Whether the readings give a week count or a day count the effect can divide by. */
  predicate HasPlan(r: Readings) {
    Truthy(r.weeks) || Truthy(r.days)
  }

  /** An installment paid `count` times adds up to `total`. */
  predicate Repays(installment: real, count: real, total: real) {
    installment * count == total
  }

  /**
   * The down payment is the explicit amount when that is positive, whatever the
   * price; otherwise 40% of the price when the price is positive, else 0.
   */
  lemma DownPaymentRule(r: Readings)
    ensures r.dpAmount > 0.0 ==> Compute(r).calculatedDownPayment == r.dpAmount
    ensures r.dpAmount <= 0.0 && r.price > 0.0 ==> Compute(r).calculatedDownPayment == r.price * 0.4
    ensures r.dpAmount <= 0.0 && r.price <= 0.0 ==> Compute(r).calculatedDownPayment == 0.0
    ensures NonNegative(r) ==> Compute(r).calculatedDownPayment >= 0.0
  {
  }

  /**
   * On accepted fields a blank or zero down payment means 40% of the price
   * down and 60% financed, also for a blank price.
   */
  lemma DefaultDownPayment(f: Form)
    requires WellFormed(f) && ReadNumber(f.downPayment) == 0.0
    ensures Recompute(f).calculatedDownPayment == ReadNumber(f.iPhonePrice) * 0.4
    ensures ReadNumber(f.iPhonePrice) - Recompute(f).calculatedDownPayment == ReadNumber(f.iPhonePrice) * 0.6
  {
    DownPaymentRule(Read(f));
  }

  /** Non-empty custom week text decides the week count; the weekly preset is not consulted. */
  lemma CustomWeeksPrecedence(f: Form, preset: Option<WeeklyOption>)
    requires WellFormed(f) && f.customWeeks != ""
    ensures ActualWeeks(f) == Parse(f.customWeeks)
    ensures WellFormed(f.(selectedWeekly := preset))
    ensures Read(f.(selectedWeekly := preset)) == Read(f)
  {
  }

  /** Non-empty custom month text decides the day count, at 30 days a month. */
  lemma CustomMonthsPrecedence(f: Form, preset: Option<MonthlyOption>)
    requires WellFormed(f) && f.customMonths != ""
    ensures Parse(f.customMonths).None? ==> ActualDays(f).None?
    ensures Parse(f.customMonths).Some? ==> ActualDays(f) == Some(Parse(f.customMonths).value * 30.0)
    ensures WellFormed(f.(selectedMonthly := preset))
    ensures Read(f.(selectedMonthly := preset)) == Read(f)
  {
  }

  /** Custom text that reads as zero or as no number ("0", ".") gives no week count, and no fallback to a preset. */
  lemma ZeroCustomWeeksGiveNoWeeks(f: Form)
    requires WellFormed(f) && f.customWeeks != "" && ReadNumber(f.customWeeks) == 0.0
    ensures !Truthy(ActualWeeks(f))
  {
  }

  /** A week count, once there is one, decides the outputs; the day count does not matter. */
  lemma WeeklyBeatsMonthly(r: Readings, days: Option<real>)
    requires Truthy(r.weeks)
    ensures Compute(r.(days := days)) == Compute(r)
  {
  }

  /**
   * Weekly plan: with a positive week count w the stored payment is four weeks'
   * worth, the plan lasts w / 4 months, and the week's figure, paid w times,
   * repays what is financed.
   */
  lemma WeeklyBranch(r: Readings)
    requires Truthy(r.weeks) && r.weeks.value > 0.0
    ensures var w := r.weeks.value; var out := Compute(r);
      && out.monthlyPayment == FinancedWithInterest(r) / w * 4.0
      && out.totalMonths == w / 4.0
      && out.monthlyPayment / 4.0 == FinancedWithInterest(r) / w
      && (out.monthlyPayment / 4.0) * w == FinancedWithInterest(r)
      && out.monthlyPayment * out.totalMonths == FinancedWithInterest(r)
  {
  }

  /**
   * Monthly plan: with no week count and a positive day count d the plan lasts
   * d / 30 months and the monthly payment, paid that many times, repays what
   * is financed.
   */
  lemma MonthlyBranch(r: Readings)
    requires !Truthy(r.weeks) && Truthy(r.days) && r.days.value > 0.0
    ensures var d := r.days.value; var out := Compute(r);
      && out.totalMonths == d / 30.0
      && out.monthlyPayment == FinancedWithInterest(r) / (d / 30.0)
      && out.monthlyPayment * out.totalMonths == FinancedWithInterest(r)
  {
  }

  /**
   * For every reading of accepted text: the plan lasts a positive number of
   * months exactly when a period count resolves, and the stored payment over
   * those months adds up to what is financed; with no plan both are 0.
   */
  lemma PaymentRepaysFinanced(r: Readings)
    requires NonNegative(r)
    ensures Compute(r).totalMonths >= 0.0
    ensures Compute(r).totalMonths > 0.0 <==> HasPlan(r)
    ensures Compute(r).monthlyPayment * Compute(r).totalMonths ==
      if HasPlan(r) then FinancedWithInterest(r) else 0.0
    ensures !HasPlan(r) ==> Compute(r).monthlyPayment == 0.0
  {
    if Truthy(r.weeks) {
      WeeklyBranch(r);
    } else if Truthy(r.days) {
      MonthlyBranch(r);
    }
  }

  /** With no explicit down payment, a positive price and a plan, the payment is positive. */
  lemma DefaultDownPaymentPositivePayment(r: Readings)
    requires NonNegative(r) && r.dpAmount == 0.0 && r.price > 0.0 && HasPlan(r)
    ensures FinancedWithInterest(r) > 0.0 && Compute(r).monthlyPayment > 0.0
  {
    var growth := 1.0 + r.rate / 100.0;
    assert FinancedWithInterest(r) == (r.price * 0.6) * growth;
    PaymentRepaysFinanced(r);
  }

  /**
   * While at most one period field is set, the one that is set gives the
   * length of the plan in months directly (custom months count as months).
   */
  lemma PlanFromSingleField(f: Form)
    requires WellFormed(f) && AtMostOnePeriod(f)
    ensures Populated(f) == {} ==> Recompute(f).totalMonths == 0.0 && Recompute(f).monthlyPayment == 0.0
    ensures WeeklyPreset in Populated(f) ==> Recompute(f).totalMonths == f.selectedWeekly.value as real / 4.0
    ensures MonthlyPreset in Populated(f) ==> Recompute(f).totalMonths == f.selectedMonthly.value as real / 30.0
    ensures CustomWeeks in Populated(f) ==> Recompute(f).totalMonths == ReadNumber(f.customWeeks) / 4.0
    ensures CustomMonths in Populated(f) ==> Recompute(f).totalMonths == ReadNumber(f.customMonths)
  {
    if CustomWeeks in Populated(f) {
      assert MonthlyPreset !in Populated(f) && CustomMonths !in Populated(f);
      ParseDefinedIffDigit(f.customWeeks);
    } else if CustomMonths in Populated(f) {
      assert WeeklyPreset !in Populated(f) && MonthlyPreset !in Populated(f);
      ParseDefinedIffDigit(f.customMonths);
    } else if WeeklyPreset in Populated(f) {
      assert MonthlyPreset !in Populated(f);
    }
  }

  /** The payment line below the period buttons. */
  datatype PaymentLine =
    | WeeklyLine(perWeek: Option<real>)
    | MonthlyLine(perMonth: Option<real>)
    | PromptLine

  /** Which line is shown, and its figure: blank unless the stored payment is positive. */
  function PaymentLineOf(f: Form, out: Outputs): (line: PaymentLine)
    ensures line.PromptLine? <==> Populated(f) == {}
    ensures line.MonthlyLine? ==> Populated(f) <= {MonthlyPreset, CustomMonths}
    ensures line.WeeklyLine? ==> WeeklyPreset in Populated(f) || CustomWeeks in Populated(f)
  {
    if f.selectedWeekly.Some? || f.customWeeks != "" then
      WeeklyLine(if out.monthlyPayment > 0.0 then Some(out.monthlyPayment / 4.0) else None)
    else if f.selectedMonthly.Some? || f.customMonths != "" then
      MonthlyLine(if out.monthlyPayment > 0.0 then Some(out.monthlyPayment) else None)
    else
      PromptLine
  }

  /** The down payment figure: blank unless positive. */
  function DownPaymentShown(out: Outputs): (shown: Option<real>)
    ensures shown.Some? ==> shown.value > 0.0 && shown.value == out.calculatedDownPayment
  {
    if out.calculatedDownPayment > 0.0 then Some(out.calculatedDownPayment) else None
  }

  /** With no day count, a positive stored payment comes from a week count, and a quarter of it per week repays the financed sum. */
  lemma WeeklyFigureRepays(r: Readings, x: real)
    requires NonNegative(r) && r.days.None? && Compute(r).monthlyPayment > 0.0
    requires x == Compute(r).monthlyPayment / 4.0
    ensures Truthy(r.weeks) && x > 0.0
    ensures Repays(x, r.weeks.value, FinancedWithInterest(r))
  {
    PaymentRepaysFinanced(r);
    WeeklyBranch(r);
  }

  /** With no week count, a positive stored payment comes from a day count and repays the financed sum over the months. */
  lemma MonthlyFigureRepays(r: Readings, x: real)
    requires NonNegative(r) && r.weeks.None? && Compute(r).monthlyPayment > 0.0
    requires x == Compute(r).monthlyPayment
    ensures Truthy(r.days) && x > 0.0
    ensures Repays(x, Compute(r).totalMonths, FinancedWithInterest(r))
  {
    PaymentRepaysFinanced(r);
  }

  /** A figure on the payment line is the positive stored payment, divided by four on the weekly line. */
  lemma LineFigure(f: Form, out: Outputs)
    ensures PaymentLineOf(f, out).WeeklyLine? && PaymentLineOf(f, out).perWeek.Some? ==>
      out.monthlyPayment > 0.0 && PaymentLineOf(f, out).perWeek.value == out.monthlyPayment / 4.0
    ensures PaymentLineOf(f, out).MonthlyLine? && PaymentLineOf(f, out).perMonth.Some? ==>
      out.monthlyPayment > 0.0 && PaymentLineOf(f, out).perMonth.value == out.monthlyPayment
  {
  }

  /** On readings of accepted text the down payment figure is blank exactly when both the amount and the price are 0. */
  lemma DownPaymentBlankIff(r: Readings)
    requires NonNegative(r)
    ensures DownPaymentShown(Compute(r)).None? <==> r.dpAmount == 0.0 && r.price == 0.0
    ensures DownPaymentShown(Compute(r)).Some? ==> DownPaymentShown(Compute(r)).value == Compute(r).calculatedDownPayment
  {
  }

  /** The weekly line shows only for a weekly field; with the exclusion no month field is then set. */
  lemma WeeklyLineHasNoDays(f: Form, out: Outputs)
    requires WellFormed(f) && AtMostOnePeriod(f) && PaymentLineOf(f, out).WeeklyLine?
    ensures Read(f).days.None?
  {
    assert MonthlyPreset !in Populated(f) && CustomMonths !in Populated(f);
  }

  /** The monthly line shows only when no weekly field is set. */
  lemma MonthlyLineHasNoWeeks(f: Form, out: Outputs)
    requires WellFormed(f) && PaymentLineOf(f, out).MonthlyLine?
    ensures Read(f).weeks.None?
  {
  }

  /**
   * While at most one period field is set, a weekly figure that is shown is
   * positive and, paid once per week of the plan, repays what is financed.
   */
  lemma ShownWeeklyFigure(f: Form, x: real)
    requires WellFormed(f) && AtMostOnePeriod(f)
    requires PaymentLineOf(f, Recompute(f)) == WeeklyLine(Some(x))
    ensures Truthy(Read(f).weeks) && x > 0.0
    ensures Repays(x, Read(f).weeks.value, FinancedWithInterest(Read(f)))
  {
    var r := Read(f);
    WeeklyLineHasNoDays(f, Compute(r));
    LineFigure(f, Compute(r));
    WeeklyFigureRepays(r, x);
  }

  /**
   * While at most one period field is set, a monthly figure that is shown is
   * positive and, paid once per month of the plan, repays what is financed.
   */
  lemma ShownMonthlyFigure(f: Form, x: real)
    requires WellFormed(f) && AtMostOnePeriod(f)
    requires PaymentLineOf(f, Recompute(f)) == MonthlyLine(Some(x))
    ensures !Truthy(Read(f).weeks) && Truthy(Read(f).days) && x > 0.0
    ensures Repays(x, Compute(Read(f)).totalMonths, FinancedWithInterest(Read(f)))
  {
    var r := Read(f);
    MonthlyLineHasNoWeeks(f, Compute(r));
    LineFigure(f, Compute(r));
    MonthlyFigureRepays(r, x);
  }

  /**
   * Without the exclusion the page can mislabel: custom weeks "0" beside the
   * 30-day preset computes a monthly plan but shows its payment as a weekly
   * figure divided by four.
   */
  lemma MixedSelectionMislabels()
    ensures var f := BLANK.(iPhonePrice := "100", customWeeks := "0", selectedMonthly := Some(30));
      && WellFormed(f) && !AtMostOnePeriod(f)
      && Recompute(f) == Outputs(40.0, 60.0, 1.0)
      && PaymentLineOf(f, Recompute(f)) == WeeklyLine(Some(15.0))
  {
    var f := BLANK.(iPhonePrice := "100", customWeeks := "0", selectedMonthly := Some(30));
    ParseDigits("100");
    ParseDigits("0");
    assert DigitsValue("100") == 100.0;
    assert CustomWeeks in Populated(f) && MonthlyPreset in Populated(f);
  }

  /** The form of the weekly example, read as numbers. */
  lemma WeeklyExampleReads()
    ensures var f := BLANK.(iPhonePrice := "1000", interestRate := "10", selectedWeekly := Some(4));
      WellFormed(f) && Read(f) == Readings(1000.0, 0.0, 10.0, Some(4.0), None)
  {
    ParseShowNat(1000);
    ParseShowNat(10);
    assert ShowNat(1000) == "1000" && ShowNat(10) == "10";
  }

  /** 1000 at 10% over the 4-week preset: 400 down, 660 repaid at 165 a week over one month. */
  lemma WeeklyExample()
    ensures var f := BLANK.(iPhonePrice := "1000", interestRate := "10", selectedWeekly := Some(4));
      && WellFormed(f)
      && Recompute(f) == Outputs(400.0, 660.0, 1.0)
      && PaymentLineOf(f, Recompute(f)) == WeeklyLine(Some(165.0))
  {
    WeeklyExampleReads();
  }

  /** The form of the monthly example, read as numbers. */
  lemma MonthlyExampleReads()
    ensures var f := BLANK.(iPhonePrice := "1200", downPayment := "200", interestRate := "0", selectedMonthly := Some(90));
      WellFormed(f) && Read(f) == Readings(1200.0, 200.0, 0.0, None, Some(90.0))
  {
    ParseShowNat(1200);
    ParseShowNat(200);
    ParseShowNat(0);
    assert ShowNat(1200) == "1200" && ShowNat(200) == "200" && ShowNat(0) == "0";
  }

  /** 1200 with 200 down at 0% over the 90-day preset: 1000 repaid over three months. */
  lemma MonthlyExample()
    ensures var f := BLANK.(iPhonePrice := "1200", downPayment := "200", interestRate := "0", selectedMonthly := Some(90));
      && WellFormed(f)
      && Recompute(f) == Outputs(200.0, 1000.0 / 3.0, 3.0)
      && PaymentLineOf(f, Recompute(f)) == MonthlyLine(Some(1000.0 / 3.0))
  {
    MonthlyExampleReads();
  }

  /** A zero price and nothing else: every output is 0 and the prompt line shows. */
  lemma ZeroPriceExample()
    ensures var f := BLANK.(iPhonePrice := "0");
      && WellFormed(f) && Recompute(f) == NO_OUTPUTS && PaymentLineOf(f, Recompute(f)) == PromptLine
  {
    ParseDigits("0");
  }

  /** The form of the zero-weeks example, read as numbers. */
  lemma ZeroWeeksExampleReads()
    ensures var f := BLANK.(iPhonePrice := "1000", customWeeks := "0");
      WellFormed(f) && Read(f) == Readings(1000.0, 0.0, 0.0, Some(0.0), None)
  {
    ParseShowNat(1000);
    ParseShowNat(0);
    assert ShowNat(1000) == "1000" && ShowNat(0) == "0";
  }

  /** Custom weeks "0": no division, the payment is 0 and the weekly figure is blank. */
  lemma ZeroWeeksExample()
    ensures var f := BLANK.(iPhonePrice := "1000", customWeeks := "0");
      && WellFormed(f)
      && Recompute(f) == Outputs(400.0, 0.0, 0.0)
      && PaymentLineOf(f, Recompute(f)) == WeeklyLine(None)
  {
    ZeroWeeksExampleReads();
  }
}
