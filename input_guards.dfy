/**
 * The client's checks before it sends a request: the income field of the 50/30/20
 * calculator (with what it shows once the server answers) and the three emergency-fund
 * fields. Each field is the text of a form input.
 */
module InputGuards {
  import opened JsCoercion
  import opened BudgetAllocator
  import opened TipShuffle

  const InvalidIncomeAlert := "Please enter a valid number for income."
  const GenericError := "An error occurred."

  /** What the calculator shows: an error text, or the server's body with five tips. */
  datatype CalcView = ErrorShown(message: string) | ResultShown(result: Allocation, tips: seq<string>)

  /**
   * `handleCalculate`. The server's answer is an input (the request itself is not
   * modelled); the tips are drawn only after a successful answer.
   */
  method HandleCalculate(income: string, response: Response, rolls: seq<real>) returns (view: CalcView)
    requires |Recommendations| - 1 <= |rolls| && ValidRolls(rolls)
    ensures !NumericInput(Str(income)) ==> view == ErrorShown(InvalidIncomeAlert)
    ensures NumericInput(Str(income)) && response.BadRequest? ==>
      view == ErrorShown(if response.error != "" then response.error else GenericError)
    ensures NumericInput(Str(income)) && response.Ok? ==>
      && view.ResultShown? && view.result == response.body
      && view.tips == Take(Shuffled(Recommendations, rolls), TipCount)
      && |view.tips| == TipCount && NoDuplicates(view.tips)
      && forall t :: t in view.tips ==> t in Recommendations
  {
    if !NumericInput(Str(income)) {
      return ErrorShown(InvalidIncomeAlert);
    }
    match response
    case BadRequest(error) =>
      view := ErrorShown(if error != "" then error else GenericError);
    case Ok(body) =>
      var tips := SelectTips(rolls);
      view := ResultShown(body, tips);
  }

  /**
   * For the text the form sends, the client's check passes exactly when the corrected
   * handler `Calculate` answers 200, or when the text is blank but not empty: the client
   * lets " " through and `Calculate` refuses it (the handler as written answers it with a
   * NaN body, see `BlankIncomeSent`).
   */
  lemma ClientCheckMatchesServer(income: string)
    ensures NumericInput(Str(income)) <==> Calculate(Str(income)).Ok? || (income != "" && Blank(income))
  {
    CalculateDiffersOnTrueAndBlank(Str(income));
    if income != "" && Blank(income) {
      BlankText(income);
    }
  }

  /**
   * A blank income passes the client's check. The handler as written then answers 200 with
   * NaN amounts, which reach the result view as `null`; the corrected handler `Calculate`
   * refuses it.
   */
  lemma BlankIncomeSent()
    ensures NumericInput(Str(" "))
    ensures CalculateAsWritten(Str(" ")) == NaNBody
    ensures Calculate(Str(" ")) == BadRequest(InvalidIncomeMessage)
  {
    GuardAdmitsUnreadableIncome();
  }

  /**
   * Against the corrected handler `Calculate`, text the client lets through yields a result
   * and tips, except blank text, for which its error is shown; a result carries the income
   * `parseFloat` reads from the text. (The handler as written answers blank text with a NaN
   * body instead, see `BlankIncomeSent`.)
   */
  method HandleCalculateAgainstServer(income: string, rolls: seq<real>) returns (view: CalcView)
    requires |Recommendations| - 1 <= |rolls| && ValidRolls(rolls)
    ensures view.ErrorShown? <==> !NumericInput(Str(income)) || Blank(income)
    ensures income != "" && Blank(income) ==> view == ErrorShown(InvalidIncomeMessage)
    ensures view.ResultShown? ==>
      && ParseFloatText(income) == Some(view.result.income)
      && view.result == Allocate(view.result.income)
      && |view.tips| == TipCount
  {
    ClientCheckMatchesServer(income);
    view := HandleCalculate(income, Calculate(Str(income)), rolls);
  }

  /** The body `handleEmergencyFundCalc` posts: the three fields as typed. */
  datatype EmergencyFundBody = EmergencyFundBody(monthlyExpenses: string, targetMonths: string, currentFund: string)

  /** The emergency-fund check: every field non-empty and read by `Number`; else an alert. */
  function EmergencyFundRequest(monthlyExpenses: string, targetMonths: string, currentFund: string)
    : (r: Option<EmergencyFundBody>)
    ensures r.Some? <==>
      && monthlyExpenses != "" && NumberOfText(monthlyExpenses).Some?
      && targetMonths != "" && NumberOfText(targetMonths).Some?
      && currentFund != "" && NumberOfText(currentFund).Some?
    ensures r.Some? ==> r.value == EmergencyFundBody(monthlyExpenses, targetMonths, currentFund)
  {
    if !NumericInput(Str(monthlyExpenses)) || !NumericInput(Str(targetMonths)) || !NumericInput(Str(currentFund))
    then None
    else Some(EmergencyFundBody(monthlyExpenses, targetMonths, currentFund))
  }

  /**
   * A field that passes the check is read to the same number by `parseFloat`, unless it is
   * blank (`parseFloat` gives NaN) or a `0x`/`0o`/`0b` literal (`parseFloat` reads its 0).
   */
  lemma EmergencyFieldsParse(monthlyExpenses: string, targetMonths: string, currentFund: string)
    requires EmergencyFundRequest(monthlyExpenses, targetMonths, currentFund).Some?
    ensures !Blank(monthlyExpenses) && !NonDecimalLiteral(Trim(monthlyExpenses)) ==>
      ParseFloatText(monthlyExpenses) == NumberOfText(monthlyExpenses)
    ensures !Blank(targetMonths) && !NonDecimalLiteral(Trim(targetMonths)) ==>
      ParseFloatText(targetMonths) == NumberOfText(targetMonths)
    ensures !Blank(currentFund) && !NonDecimalLiteral(Trim(currentFund)) ==>
      ParseFloatText(currentFund) == NumberOfText(currentFund)
  {
    NumberTextAgreesWithParseFloat(monthlyExpenses);
    NumberTextAgreesWithParseFloat(targetMonths);
    NumberTextAgreesWithParseFloat(currentFund);
  }

  /** Fields that are runs of digits pass the check, whatever their value, "0" included. */
  lemma DigitFieldsSent(monthlyExpenses: string, targetMonths: string, currentFund: string)
    requires monthlyExpenses != [] && AllDigits(monthlyExpenses)
    requires targetMonths != [] && AllDigits(targetMonths)
    requires currentFund != [] && AllDigits(currentFund)
    ensures EmergencyFundRequest(monthlyExpenses, targetMonths, currentFund).Some?
  {
    DigitsSent(monthlyExpenses);
    DigitsSent(targetMonths);
    DigitsSent(currentFund);
  }

  /**
   * A blank field passes the check too: `Number` reads it as 0, so monthly expenses of " "
   * are sent, although `parseFloat` finds no number in them.
   */
  lemma BlankExpensesSent(monthlyExpenses: string, targetMonths: string, currentFund: string)
    requires monthlyExpenses != [] && Blank(monthlyExpenses)
    requires targetMonths != [] && AllDigits(targetMonths)
    requires currentFund != [] && AllDigits(currentFund)
    ensures EmergencyFundRequest(monthlyExpenses, targetMonths, currentFund).Some?
    ensures NumberOfText(monthlyExpenses) == Some(0.0) && ParseFloatText(monthlyExpenses).None?
  {
    BlankText(monthlyExpenses);
    DigitsSent(targetMonths);
    DigitsSent(currentFund);
  }

  /** "0" is non-empty text, so monthly expenses of zero are sent on to the server; "" is not. */
  lemma ZeroExpensesSent()
    ensures EmergencyFundRequest("0", "3", "6000").Some?
    ensures EmergencyFundRequest("", "3", "6000").None?
  {
    DigitFieldsSent("0", "3", "6000");
  }

  /** The choices of the target-months menu; the field starts at the first. */
  const TargetMonthsOptions := ["3", "6", "12"]

  /** Every choice of the menu passes the check and is read alike by `Number` and `parseFloat`. */
  lemma TargetMonthsOptionsPass(targetMonths: string)
    requires targetMonths in TargetMonthsOptions
    ensures NumericInput(Str(targetMonths))
    ensures NumberOfText(targetMonths).Some? && NumberOfText(targetMonths) == ParseFloatText(targetMonths)
  {
    assert targetMonths != [] && AllDigits(targetMonths);
    DigitsSent(targetMonths);
    ReadDigits(targetMonths);
  }

  /** A non-empty run of digits passes the form-field check. */
  lemma DigitsSent(d: string)
    requires d != [] && AllDigits(d)
    ensures NumericInput(Str(d))
  {
    ReadDigits(d);
  }
}
