/**
 * The `/api/calculate` handler of the budget server: validate one income field, split
 * it 50/30/20 into needs, wants and savings, and subdivide each part by fixed shares.
 * Amounts are exact reals.
 */
module BudgetAllocator {
  import opened JsCoercion

  datatype Totals = Totals(needs: real, wants: real, savings: real)

  datatype NeedsBreakdown = NeedsBreakdown(
    housing: real, utilities: real, groceries: real, transportation: real, healthcareInsurance: real)

  datatype WantsBreakdown = WantsBreakdown(diningOut: real, entertainmentLeisure: real, shoppingMisc: real)

  datatype SavingsBreakdown = SavingsBreakdown(
    emergencyFund: real, retirementCPF: real, investing: real, personalDevelopment: real)

  datatype Category<B> = Category(description: string, breakdown: B)

  datatype Details = Details(
    needs: Category<NeedsBreakdown>, wants: Category<WantsBreakdown>, savings: Category<SavingsBreakdown>)

  /** The body of a successful response. */
  datatype Allocation = Allocation(income: real, breakdown: Totals, details: Details)

  /** A 200 response with its body, or a 400 response with its error text. */
  datatype Response = Ok(body: Allocation) | BadRequest(error: string)

  const InvalidIncomeMessage := "Invalid income provided."

  const NeedsDescription := "Essential expenses tailored for Singapore, covering housing (HDB/mortgage), utilities, groceries, transportation, and healthcare/insurance."
  const WantsDescription := "Discretionary spending including dining out at hawker centres/restaurants, entertainment, leisure, and occasional shopping."
  const SavingsDescription := "Financial reserves allocated for emergencies, CPF/retirement planning, investments, and personal development."

  /** The 50/30/20 split: needs is half the income, wants and savings share the rest 3:2. */
  function SplitIncome(income: real): (t: Totals)
    ensures t.needs + t.wants + t.savings == income
    ensures t.needs == t.wants + t.savings
    ensures 2.0 * t.wants == 3.0 * t.savings
  {
    Totals(income * 0.50, income * 0.30, income * 0.20)
  }

  /** Housing is 40% of needs; the other needs stand 3 : 4 : 3 : 2 to each other. */
  function SplitNeeds(total: real): (b: NeedsBreakdown)
    ensures b.housing + b.utilities + b.groceries + b.transportation + b.healthcareInsurance == total
    ensures b.utilities == b.transportation
    ensures b.housing == 2.0 * b.groceries && b.groceries == 2.0 * b.healthcareInsurance
    ensures 2.0 * b.utilities == 3.0 * b.healthcareInsurance
  {
    NeedsBreakdown(total * 0.40, total * 0.15, total * 0.20, total * 0.15, total * 0.10)
  }

  /** Dining out and entertainment take equal shares, each twice shopping. */
  function SplitWants(total: real): (b: WantsBreakdown)
    ensures b.diningOut + b.entertainmentLeisure + b.shoppingMisc == total
    ensures b.diningOut == b.entertainmentLeisure
    ensures b.diningOut == 2.0 * b.shoppingMisc
  {
    WantsBreakdown(total * 0.40, total * 0.40, total * 0.20)
  }

  /** Emergency fund and retirement take equal shares; investing is four times personal development. */
  function SplitSavings(total: real): (b: SavingsBreakdown)
    ensures b.emergencyFund + b.retirementCPF + b.investing + b.personalDevelopment == total
    ensures b.emergencyFund == b.retirementCPF
    ensures b.investing == 4.0 * b.personalDevelopment
    ensures 2.0 * b.emergencyFund == 5.0 * b.personalDevelopment
  {
    SavingsBreakdown(total * 0.25, total * 0.25, total * 0.40, total * 0.10)
  }

  /** Every total is split among its items: the invariant of a response body. */
  predicate Balanced(a: Allocation) {
    var t := a.breakdown;
    var n := a.details.needs.breakdown;
    var w := a.details.wants.breakdown;
    var s := a.details.savings.breakdown;
    && t.needs + t.wants + t.savings == a.income
    && n.housing + n.utilities + n.groceries + n.transportation + n.healthcareInsurance == t.needs
    && w.diningOut + w.entertainmentLeisure + w.shoppingMisc == t.wants
    && s.emergencyFund + s.retirementCPF + s.investing + s.personalDevelopment == t.savings
  }

  /** No amount in the body is negative. */
  predicate NonNegative(a: Allocation) {
    var t := a.breakdown;
    var n := a.details.needs.breakdown;
    var w := a.details.wants.breakdown;
    var s := a.details.savings.breakdown;
    && a.income >= 0.0 && t.needs >= 0.0 && t.wants >= 0.0 && t.savings >= 0.0
    && n.housing >= 0.0 && n.utilities >= 0.0 && n.groceries >= 0.0
    && n.transportation >= 0.0 && n.healthcareInsurance >= 0.0
    && w.diningOut >= 0.0 && w.entertainmentLeisure >= 0.0 && w.shoppingMisc >= 0.0
    && s.emergencyFund >= 0.0 && s.retirementCPF >= 0.0 && s.investing >= 0.0 && s.personalDevelopment >= 0.0
  }

  /** The body the handler builds for an income that passed validation. */
  function Allocate(income: real): (a: Allocation)
    ensures a.income == income
    ensures Balanced(a)
    ensures income >= 0.0 <==> NonNegative(a)
  {
    var t := SplitIncome(income);
    Allocation(income, t, Details(
      Category(NeedsDescription, SplitNeeds(t.needs)),
      Category(WantsDescription, SplitWants(t.wants)),
      Category(SavingsDescription, SplitSavings(t.savings))))
  }

  /**
   * The validation test as written in the handler: `!income || isNaN(income)`. A string is
   * refused when it is empty or `Number` cannot read it, a number when it is 0, a boolean
   * when it is false; undefined and null always are.
   */
  function IncomeGuardRejects(income: JsValue): (rejected: bool)
    ensures income.Str? ==> (rejected <==> income.s == "" || NumberOfText(income.s).None?)
    ensures income.Num? ==> (rejected <==> income.x == 0.0)
    ensures income.Bool? ==> (rejected <==> !income.b)
    ensures income.Undefined? || income.Null? ==> rejected
  {
    !NumericInput(income)
  }

  /**
   * The corrected handler. Besides the written test it also rejects an income that
   * `parseFloat` cannot read, so that no response carries NaN (the handler as written is
   * `CalculateAsWritten`; see `GuardAdmitsUnreadableIncome`).
   */
  function Calculate(income: JsValue): (r: Response)
    ensures r.BadRequest? <==> IncomeGuardRejects(income) || ParseFloat(income).None?
    ensures r.BadRequest? ==> r.error == InvalidIncomeMessage
    ensures r.Ok? ==> ParseFloat(income) == Some(r.body.income) && r.body == Allocate(r.body.income)
    ensures r.Ok? ==> Balanced(r.body) && (r.body.income >= 0.0 <==> NonNegative(r.body))
  {
    if IncomeGuardRejects(income) then BadRequest(InvalidIncomeMessage)
    else match ParseFloat(income)
      case None => BadRequest(InvalidIncomeMessage)
      case Some(incomeNum) => Ok(Allocate(incomeNum))
  }

  /**
   * What the handler as written can answer: a response `Calculate` also gives, or a 200
   * body in which the income and every amount are NaN (each written as `null` in JSON).
   */
  datatype WrittenResponse = Answered(response: Response) | NaNBody

  /**
   * The handler as written, with only the test `!income || isNaN(income)` before
   * `parseFloat`. It departs from `Calculate` exactly on `true` and on blank non-empty text,
   * which it answers with a NaN body where `Calculate` refuses them.
   */
  function CalculateAsWritten(income: JsValue): (r: WrittenResponse)
    ensures r.NaNBody? <==> income == Bool(true) || (income.Str? && income.s != "" && Blank(income.s))
    ensures r.Answered? ==> r.response == Calculate(income)
    ensures r.NaNBody? ==> Calculate(income) == BadRequest(InvalidIncomeMessage)
  {
    if IncomeGuardRejects(income) then Answered(BadRequest(InvalidIncomeMessage))
    else
      NumericInputParses(income);
      match ParseFloat(income)
      case None => NaNBody
      case Some(incomeNum) => Answered(Ok(Allocate(incomeNum)))
  }

  /**
   * As written, the test lets through two values that `parseFloat` cannot read: the JSON
   * value `true` (`Number(true)` is 1) and blank text such as " " (`Number(" ")` is 0, and
   * " " is truthy). The handler as written answers 200 with NaN amounts for both.
   */
  lemma GuardAdmitsUnreadableIncome()
    ensures !IncomeGuardRejects(Bool(true)) && ParseFloat(Bool(true)).None?
    ensures !IncomeGuardRejects(Str(" ")) && ParseFloat(Str(" ")).None?
    ensures CalculateAsWritten(Bool(true)) == NaNBody && CalculateAsWritten(Str(" ")) == NaNBody
    ensures Calculate(Bool(true)).BadRequest? && Calculate(Str(" ")).BadRequest?
  {
    BlankIncomeRefused(" ");
  }

  /** Blank, non-empty text passes the written test, and the added check refuses it. */
  lemma BlankIncomeRefused(s: string)
    requires s != "" && Blank(s)
    ensures !IncomeGuardRejects(Str(s)) && ParseFloat(Str(s)).None?
    ensures Calculate(Str(s)) == BadRequest(InvalidIncomeMessage)
  {
    BlankText(s);
  }

  /** The added check changes the outcome only for `true` and for blank non-empty text. */
  lemma CalculateDiffersOnTrueAndBlank(income: JsValue)
    ensures Calculate(income).BadRequest? <==>
      IncomeGuardRejects(income) || income == Bool(true) || (income.Str? && Blank(income.s))
  {
    if !IncomeGuardRejects(income) {
      NumericInputParses(income);
    }
  }

  /** Each of the twelve items is a fixed share of the income, and together they make it up. */
  lemma ItemSharesOfIncome(income: real)
    ensures var a := Allocate(income);
      var n := a.details.needs.breakdown;
      var w := a.details.wants.breakdown;
      var s := a.details.savings.breakdown;
      && n.housing == 0.20 * income && n.utilities == 0.075 * income && n.groceries == 0.10 * income
      && n.transportation == 0.075 * income && n.healthcareInsurance == 0.05 * income
      && w.diningOut == 0.12 * income && w.entertainmentLeisure == 0.12 * income && w.shoppingMisc == 0.06 * income
      && s.emergencyFund == 0.05 * income && s.retirementCPF == 0.05 * income
      && s.investing == 0.08 * income && s.personalDevelopment == 0.02 * income
      && n.housing + n.utilities + n.groceries + n.transportation + n.healthcareInsurance
         + w.diningOut + w.entertainmentLeisure + w.shoppingMisc
         + s.emergencyFund + s.retirementCPF + s.investing + s.personalDevelopment == income
  {
  }

  /** A larger income never lowers any amount: the three totals and all twelve items. */
  lemma AllocateMonotone(low: real, high: real)
    requires low <= high
    ensures var a, b := Allocate(low), Allocate(high);
      && a.breakdown.needs <= b.breakdown.needs && a.breakdown.wants <= b.breakdown.wants
      && a.breakdown.savings <= b.breakdown.savings
    ensures var n, m := Allocate(low).details.needs.breakdown, Allocate(high).details.needs.breakdown;
      && n.housing <= m.housing && n.utilities <= m.utilities && n.groceries <= m.groceries
      && n.transportation <= m.transportation && n.healthcareInsurance <= m.healthcareInsurance
    ensures var w, v := Allocate(low).details.wants.breakdown, Allocate(high).details.wants.breakdown;
      && w.diningOut <= v.diningOut && w.entertainmentLeisure <= v.entertainmentLeisure
      && w.shoppingMisc <= v.shoppingMisc
    ensures var s, t := Allocate(low).details.savings.breakdown, Allocate(high).details.savings.breakdown;
      && s.emergencyFund <= t.emergencyFund && s.retirementCPF <= t.retirementCPF
      && s.investing <= t.investing && s.personalDevelopment <= t.personalDevelopment
  {
  }

  /** Missing, null, empty, zero and non-numeric incomes are all refused. */
  lemma InvalidIncomesRejected()
    ensures Calculate(Undefined).BadRequest? && Calculate(Null).BadRequest?
    ensures Calculate(Str("")).BadRequest? && Calculate(Num(0.0)).BadRequest?
    ensures Calculate(Str("abc")).BadRequest? && Calculate(Bool(false)).BadRequest?
  {
    LetterIncomeRefused("abc");
  }

  /** Text that starts with a lowercase letter is refused. */
  lemma LetterIncomeRefused(s: string)
    requires s != [] && 'a' <= s[0] <= 'z'
    ensures Calculate(Str(s)) == BadRequest(InvalidIncomeMessage)
  {
    LetterFirstHasNoNumber(s);
  }

  /** The decimal text of any natural number is accepted and allocated as that number. */
  lemma NumeralIncomeAccepted(t: string, n: nat)
    requires t == DecimalText(n)
    ensures Calculate(Str(t)) == Ok(Allocate(n as real))
  {
    DecimalTextRoundTrip(n);
  }

  /** Any number other than 0 sent as a JSON number is accepted, negative ones included. */
  lemma NumberIncomeAccepted(x: real)
    requires x != 0.0
    ensures Calculate(Num(x)) == Ok(Allocate(x))
  {
  }

  /** The worked example: an income of 6000, sent as a number or as text. */
  lemma Income6000Example()
    ensures Calculate(Str("6000")) == Calculate(Num(6000.0)) == Ok(Allocate(6000.0))
    ensures var a := Allocate(6000.0);
      && a.income == 6000.0
      && a.breakdown == Totals(3000.0, 1800.0, 1200.0)
      && a.details.needs.breakdown == NeedsBreakdown(1200.0, 450.0, 600.0, 450.0, 300.0)
      && a.details.wants.breakdown == WantsBreakdown(720.0, 720.0, 360.0)
      && a.details.savings.breakdown == SavingsBreakdown(300.0, 300.0, 480.0, 120.0)
  {
    assert Calculate(Str("6000")) == Ok(Allocate(6000.0)) by {
      DecimalTextOf6000();
      NumeralIncomeAccepted("6000", 6000);
    }
    NumberIncomeAccepted(6000.0);
  }

  lemma DecimalTextOf6000()
    ensures DecimalText(6000) == "6000"
  {
  }

  /** The text "0" is truthy, so unlike the number 0 it is accepted and everything is zero. */
  lemma ZeroTextAccepted()
    ensures Calculate(Str("0")) == Ok(Allocate(0.0))
  {
    assert DecimalText(0) == [DigitChar(0)] == "0";
    NumeralIncomeAccepted("0", 0);
  }

  /**
   * A `0b`/`0o`/`0x` literal passes the written test, since `Number` reads it in its radix,
   * but `parseFloat` reads only its leading "0": as written and as corrected, the handler
   * answers 200 with the all-zero body.
   */
  lemma RadixIncomeReadsZero(s: string)
    requires NonDecimalLiteral(Trim(s))
    ensures !IncomeGuardRejects(Str(s)) && NumberOfText(s).Some? && ParseFloatText(s) == Some(0.0)
    ensures Calculate(Str(s)) == Ok(Allocate(0.0))
    ensures CalculateAsWritten(Str(s)) == Answered(Ok(Allocate(0.0)))
  {
    NonDecimalInput(s);
    IncomeAllocated(Str(s), 0.0);
  }

  /** An income that passes the written test and that `parseFloat` reads is allocated by both handlers. */
  lemma IncomeAllocated(income: JsValue, x: real)
    requires !IncomeGuardRejects(income) && ParseFloat(income) == Some(x)
    ensures Calculate(income) == Ok(Allocate(x))
    ensures CalculateAsWritten(income) == Answered(Ok(Allocate(x)))
  {
  }
}
