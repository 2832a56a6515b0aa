/**
 * The calculator component: the seven input fields and three derived fields it
 * keeps in component state, the filtered `onChange` setters of the text
 * inputs, the period-selection handlers and the quick interest-rate buttons.
 * Every change of an input field re-runs the recomputation before anything
 * else happens, so the derived fields always agree with the inputs.
 */
module CalculatorComponent {
  import opened Options
  import opened NumericInput
  import opened FormState
  import opened Recalculation

  /** A quick interest-rate button's rate in percent: a whole number, plus a half when `half` is set. */
  datatype QuickRate = QuickRate(whole: nat, half: bool)

  /** The eight buttons: 0, 2.5, 5, 7.5, 10, 12.5, 15 and 20 percent. */
  const QUICK_RATES: seq<QuickRate> := [
    QuickRate(0, false), QuickRate(2, true), QuickRate(5, false), QuickRate(7, true),
    QuickRate(10, false), QuickRate(12, true), QuickRate(15, false), QuickRate(20, false)]

  /** The rate as a number. */
  function RateValue(q: QuickRate): (v: real)
    ensures v >= 0.0
  {
    q.whole as real + if q.half then 0.5 else 0.0
  }

  /** `rate.toString()` for such a rate: the whole number in decimal, then ".5" for a half. */
  function RateLabel(q: QuickRate): string {
    ShowNat(q.whole) + if q.half then ".5" else ""
  }

  /** The labels the eight buttons write into the rate field. */
  lemma QuickRateLabels()
    ensures RateLabel(QUICK_RATES[0]) == "0" && RateLabel(QUICK_RATES[1]) == "2.5"
    ensures RateLabel(QUICK_RATES[2]) == "5" && RateLabel(QUICK_RATES[3]) == "7.5"
    ensures RateLabel(QUICK_RATES[4]) == "10" && RateLabel(QUICK_RATES[5]) == "12.5"
    ensures RateLabel(QUICK_RATES[6]) == "15" && RateLabel(QUICK_RATES[7]) == "20"
  {
  }

  /** A button label passes the numeric filter and reads back as the button's rate. */
  lemma RateLabelReads(q: QuickRate)
    ensures Accepts(RateLabel(q)) && ReadNumber(RateLabel(q)) == RateValue(q)
  {
    var digits := ShowNat(q.whole);
    ParseShowNat(q.whole);
    DigitsValueShowNat(q.whole);
    if q.half {
      assert RateLabel(q) == digits + "." + "5";
      ParseDecimal(digits, "5");
    } else {
      assert RateLabel(q) == digits;
    }
  }

  /** The blank form gives the initial derived values: nothing is computed until a field is filled. */
  lemma BlankRecomputesToNothing()
    ensures WellFormed(BLANK) && Recompute(BLANK) == NO_OUTPUTS
  {
  }

  class Calculator {
    var iPhonePrice: string
    var downPayment: string
    var interestRate: string
    var selectedWeekly: Option<WeeklyOption>
    var selectedMonthly: Option<MonthlyOption>
    var customWeeks: string
    var customMonths: string

    var calculatedDownPayment: real
    var monthlyPayment: real
    var totalMonths: real

    /** The seven input fields. */
    function Inputs(): Form
      reads this
    {
      Form(iPhonePrice, downPayment, interestRate, selectedWeekly, selectedMonthly, customWeeks, customMonths)
    }

    /** The three derived fields. */
    function Results(): Outputs
      reads this
    {
      Outputs(calculatedDownPayment, monthlyPayment, totalMonths)
    }

    /**
     * Every text field holds filtered text, at most one period field is set,
     * and the derived fields are what the recomputation gives for the inputs.
     */
    ghost predicate Valid()
      reads this
    {
      WellFormed(Inputs()) && AtMostOnePeriod(Inputs()) && Results() == Recompute(Inputs())
    }

    /** The payment line the page shows for the current state. */
    function ShownPaymentLine(): PaymentLine
      reads this
    {
      PaymentLineOf(Inputs(), Results())
    }

    /** A weekly figure on the page is positive and, paid once a week, repays what is financed. */
    lemma ShownWeeklyPayment(x: real)
      requires Valid() && ShownPaymentLine() == WeeklyLine(Some(x))
      ensures Truthy(Read(Inputs()).weeks) && x > 0.0
      ensures Repays(x, Read(Inputs()).weeks.value, FinancedWithInterest(Read(Inputs())))
    {
      ShownWeeklyFigure(Inputs(), x);
    }

    /** A monthly figure on the page is positive and, paid every month of the plan, repays what is financed. */
    lemma ShownMonthlyPayment(x: real)
      requires Valid() && ShownPaymentLine() == MonthlyLine(Some(x))
      ensures Truthy(Read(Inputs()).days) && x > 0.0
      ensures Repays(x, totalMonths, FinancedWithInterest(Read(Inputs())))
    {
      ShownMonthlyFigure(Inputs(), x);
    }

    /** Every field starts empty and every derived value at 0. */
    constructor ()
      ensures Valid()
      ensures Inputs() == BLANK && Results() == NO_OUTPUTS
    {
      iPhonePrice, downPayment, interestRate := "", "", "";
      selectedWeekly, selectedMonthly := None, None;
      customWeeks, customMonths := "", "";
      calculatedDownPayment, monthlyPayment, totalMonths := 0.0, 0.0, 0.0;
      new;
      BlankRecomputesToNothing();
    }

    /** The recomputation effect, run once the input fields have changed. */
    method Refresh()
      modifies this
      requires WellFormed(Inputs())
      ensures Inputs() == old(Inputs())
      ensures Results() == Recompute(Inputs())
    {
      var out := Recompute(Inputs());
      calculatedDownPayment, monthlyPayment, totalMonths :=
        out.calculatedDownPayment, out.monthlyPayment, out.totalMonths;
    }

    /** `handleWeeklySelect`: a weekly preset button was pressed. */
    method HandleWeeklySelect(weeks: WeeklyOption)
      modifies this
      requires Valid()
      ensures Valid()
      ensures Inputs() == SelectWeekly(old(Inputs()), weeks)
    {
      HandlersEstablishExclusion(Inputs(), weeks, 30, "");
      HandlersKeepWellFormed(Inputs(), weeks, 30, "");
      selectedWeekly := Some(weeks);
      selectedMonthly := None;
      customWeeks := "";
      customMonths := "";
      Refresh();
    }

    /** `handleMonthlySelect`: a monthly preset button was pressed. */
    method HandleMonthlySelect(days: MonthlyOption)
      modifies this
      requires Valid()
      ensures Valid()
      ensures Inputs() == SelectMonthly(old(Inputs()), days)
    {
      HandlersEstablishExclusion(Inputs(), 4, days, "");
      HandlersKeepWellFormed(Inputs(), 4, days, "");
      selectedMonthly := Some(days);
      selectedWeekly := None;
      customWeeks := "";
      customMonths := "";
      Refresh();
    }

    /** `handleCustomWeeksChange`, reached only with text the filter accepted. */
    method HandleCustomWeeksChange(value: string)
      modifies this
      requires Valid() && Accepts(value)
      ensures Valid()
      ensures Inputs() == ChangeCustomWeeks(old(Inputs()), value)
    {
      HandlersEstablishExclusion(Inputs(), 4, 30, value);
      HandlersKeepWellFormed(Inputs(), 4, 30, value);
      customWeeks := value;
      selectedWeekly := None;
      selectedMonthly := None;
      customMonths := "";
      Refresh();
    }

    /** `handleCustomMonthsChange`, reached only with text the filter accepted. */
    method HandleCustomMonthsChange(value: string)
      modifies this
      requires Valid() && Accepts(value)
      ensures Valid()
      ensures Inputs() == ChangeCustomMonths(old(Inputs()), value)
    {
      HandlersEstablishExclusion(Inputs(), 4, 30, value);
      HandlersKeepWellFormed(Inputs(), 4, 30, value);
      customMonths := value;
      selectedWeekly := None;
      selectedMonthly := None;
      customWeeks := "";
      Refresh();
    }

    /** The `onChange` of the price input: the edit is kept only if the filter accepts it. */
    method OnPriceInput(value: string) returns (accepted: bool)
      modifies this
      requires Valid()
      ensures Valid()
      ensures accepted <==> Accepts(value)
      ensures Inputs() == if accepted then old(Inputs()).(iPhonePrice := value) else old(Inputs())
      ensures !accepted ==> Results() == old(Results())
    {
      accepted := value == "" || MatchesNumeric(value);
      if accepted {
        AmountEditKeepsExclusion(Inputs(), Inputs().(iPhonePrice := value));
        iPhonePrice := value;
        Refresh();
      }
    }

    /** The `onChange` of the interest-rate text input. */
    method OnInterestRateInput(value: string) returns (accepted: bool)
      modifies this
      requires Valid()
      ensures Valid()
      ensures accepted <==> Accepts(value)
      ensures Inputs() == if accepted then old(Inputs()).(interestRate := value) else old(Inputs())
      ensures !accepted ==> Results() == old(Results())
    {
      accepted := value == "" || MatchesNumeric(value);
      if accepted {
        AmountEditKeepsExclusion(Inputs(), Inputs().(interestRate := value));
        interestRate := value;
        Refresh();
      }
    }

    /** The `onChange` of the down-payment input. */
    method OnDownPaymentInput(value: string) returns (accepted: bool)
      modifies this
      requires Valid()
      ensures Valid()
      ensures accepted <==> Accepts(value)
      ensures Inputs() == if accepted then old(Inputs()).(downPayment := value) else old(Inputs())
      ensures !accepted ==> Results() == old(Results())
    {
      accepted := value == "" || MatchesNumeric(value);
      if accepted {
        AmountEditKeepsExclusion(Inputs(), Inputs().(downPayment := value));
        downPayment := value;
        Refresh();
      }
    }

    /** The `onChange` of the custom-weeks input: accepted text goes to `handleCustomWeeksChange`. */
    method OnCustomWeeksInput(value: string) returns (accepted: bool)
      modifies this
      requires Valid()
      ensures Valid()
      ensures accepted <==> Accepts(value)
      ensures Inputs() == if accepted then ChangeCustomWeeks(old(Inputs()), value) else old(Inputs())
      ensures !accepted ==> Results() == old(Results())
    {
      accepted := value == "" || MatchesNumeric(value);
      if accepted {
        HandleCustomWeeksChange(value);
      }
    }

    /** The `onChange` of the custom-months input: accepted text goes to `handleCustomMonthsChange`. */
    method OnCustomMonthsInput(value: string) returns (accepted: bool)
      modifies this
      requires Valid()
      ensures Valid()
      ensures accepted <==> Accepts(value)
      ensures Inputs() == if accepted then ChangeCustomMonths(old(Inputs()), value) else old(Inputs())
      ensures !accepted ==> Results() == old(Results())
    {
      accepted := value == "" || MatchesNumeric(value);
      if accepted {
        HandleCustomMonthsChange(value);
      }
    }

    /**
     * A quick-rate button: the rate field takes the button's label without
     * passing the filter, which would have accepted it anyway.
     */
    method PickQuickRate(q: QuickRate)
      modifies this
      requires Valid() && q in QUICK_RATES
      ensures Valid()
      ensures Inputs() == old(Inputs()).(interestRate := RateLabel(q))
      ensures ReadNumber(interestRate) == RateValue(q)
    {
      RateLabelReads(q);
      AmountEditKeepsExclusion(Inputs(), Inputs().(interestRate := RateLabel(q)));
      interestRate := RateLabel(q);
      Refresh();
    }
  }
}
