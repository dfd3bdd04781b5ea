/**
 * The client's debt list: `addDebt` validates the four input fields and appends one debt,
 * and the strategy request is refused while the list is empty. The form's React state is
 * a value, and each handler returns the next state. `Date.now()` is an input.
 */
module DebtForm {
  import opened JsCoercion

  datatype Debt = Debt(id: int, name: string, balance: real, interest: real, minPayment: real)

  /** The debt list and the text of the four input fields. */
  datatype DebtState = DebtState(
    debts: seq<Debt>,
    newDebtName: string, newDebtBalance: string, newDebtInterest: string, newDebtMinPayment: string)

  /** A name is given and `parseFloat` reads all three amounts. */
  predicate ValidEntry(st: DebtState) {
    && st.newDebtName != ""
    && ParseFloatText(st.newDebtBalance).Some?
    && ParseFloatText(st.newDebtInterest).Some?
    && ParseFloatText(st.newDebtMinPayment).Some?
  }

  /** The record `addDebt` builds from the fields, stamped with the current time. */
  function NewDebt(st: DebtState, now: int): (d: Debt)
    requires ValidEntry(st)
    ensures d.name == st.newDebtName && d.id == now
    ensures Some(d.balance) == ParseFloatText(st.newDebtBalance)
    ensures Some(d.interest) == ParseFloatText(st.newDebtInterest)
    ensures Some(d.minPayment) == ParseFloatText(st.newDebtMinPayment)
  {
    Debt(now, st.newDebtName, ParseFloatText(st.newDebtBalance).value,
         ParseFloatText(st.newDebtInterest).value, ParseFloatText(st.newDebtMinPayment).value)
  }

  /**
   * `addDebt`: an invalid entry changes nothing (the alert is shown and the fields keep
   * their text); a valid one appends exactly one debt and clears the fields.
   */
  function AddDebt(st: DebtState, now: int): (r: DebtState)
    ensures !ValidEntry(st) ==> r == st
    ensures ValidEntry(st) ==>
      && |r.debts| == |st.debts| + 1
      && r.debts[..|st.debts|] == st.debts
      && r.debts[|st.debts|] == NewDebt(st, now)
      && r.newDebtName == r.newDebtBalance == r.newDebtInterest == r.newDebtMinPayment == ""
  {
    if !ValidEntry(st) then st
    else DebtState(st.debts + [NewDebt(st, now)], "", "", "", "")
  }

  /** `handleDebtManagement`'s guard: the list is sent only when it is not empty. */
  function DebtManagementRequest(debts: seq<Debt>): (r: Option<seq<Debt>>)
    ensures r.Some? <==> |debts| > 0
    ensures r.Some? ==> r.value == debts
  {
    if |debts| == 0 then None else Some(debts)
  }

  /** After a successful `addDebt` the strategies can be requested. */
  lemma AddDebtEnablesRequest(st: DebtState, now: int)
    requires ValidEntry(st)
    ensures DebtManagementRequest(AddDebt(st, now).debts) == Some(AddDebt(st, now).debts)
  {
  }

  /** What the user types for one debt before pressing "add", and when. */
  datatype Entry = Entry(name: string, balance: string, interest: string, minPayment: string, at: int)

  function Fill(st: DebtState, e: Entry): DebtState {
    st.(newDebtName := e.name, newDebtBalance := e.balance, newDebtInterest := e.interest,
        newDebtMinPayment := e.minPayment)
  }

  /** The state after typing and adding each entry in turn. */
  function AddAll(st: DebtState, entries: seq<Entry>): DebtState
    decreases |entries|
  {
    if entries == [] then st
    else AddAll(AddDebt(Fill(st, entries[0]), entries[0].at), entries[1..])
  }

  /** The debt one entry is accepted as, typed into an otherwise empty form; none if it is refused. */
  function Accepted(e: Entry): seq<Debt> {
    var st := Fill(DebtState([], "", "", "", ""), e);
    if ValidEntry(st) then [NewDebt(st, e.at)] else []
  }

  /** The debts the accepted entries produce, in the order they were added. */
  function AcceptedDebts(entries: seq<Entry>): seq<Debt>
    decreases |entries|
  {
    if entries == [] then [] else Accepted(entries[0]) + AcceptedDebts(entries[1..])
  }

  /** Adding never drops or reorders a debt: the list grows by the accepted entries, in order. */
  lemma {:induction false} AddAllAppendsAccepted(st: DebtState, entries: seq<Entry>)
    ensures AddAll(st, entries).debts == st.debts + AcceptedDebts(entries)
    decreases |entries|
  {
    if entries != [] {
      var e := entries[0];
      var next := AddDebt(Fill(st, e), e.at);
      AddOneAppendsAccepted(st, e);
      AddAllAppendsAccepted(next, entries[1..]);
      assert AddAll(st, entries) == AddAll(next, entries[1..]);
      assert AcceptedDebts(entries) == Accepted(e) + AcceptedDebts(entries[1..]);
      AppendAssociates(st.debts, Accepted(e), AcceptedDebts(entries[1..]));
    }
  }

  /**
   * Dafny knows this, but handing it to the induction step above as one fact keeps that step
   * within the solver's resource limit on every random seed.
   */
  lemma AppendAssociates(a: seq<Debt>, b: seq<Debt>, c: seq<Debt>)
    ensures a + b + c == a + (b + c)
  {
  }

  /** Typing one entry and adding it appends what that entry alone is accepted as. */
  lemma AddOneAppendsAccepted(st: DebtState, e: Entry)
    ensures AddDebt(Fill(st, e), e.at).debts == st.debts + Accepted(e)
  {
    SameFieldsSameDebt(Fill(st, e), Fill(DebtState([], "", "", "", ""), e), e.at);
  }

  /** Whether an entry is valid, and the debt it makes, depend only on the four fields. */
  lemma SameFieldsSameDebt(a: DebtState, b: DebtState, now: int)
    requires a.newDebtName == b.newDebtName && a.newDebtBalance == b.newDebtBalance
    requires a.newDebtInterest == b.newDebtInterest && a.newDebtMinPayment == b.newDebtMinPayment
    ensures ValidEntry(a) == ValidEntry(b)
    ensures ValidEntry(a) ==> NewDebt(a, now) == NewDebt(b, now)
  {
  }

  /** An amount field `parseFloat` finds no number in: blank, or starting with a lowercase letter. */
  predicate NoNumberField(t: string) {
    Blank(t) || (t != [] && 'a' <= t[0] <= 'z')
  }

  /**
   * An entry with an empty name, or with an amount that is blank or starts with a lowercase
   * letter, is refused and leaves the list and the fields as they were.
   */
  lemma InvalidEntriesRefused(st: DebtState, now: int)
    requires || st.newDebtName == "" || NoNumberField(st.newDebtBalance)
             || NoNumberField(st.newDebtInterest) || NoNumberField(st.newDebtMinPayment)
    ensures AddDebt(st, now) == st
  {
    NoNumberFieldUnread(st.newDebtBalance);
    NoNumberFieldUnread(st.newDebtInterest);
    NoNumberFieldUnread(st.newDebtMinPayment);
  }

  lemma NoNumberFieldUnread(t: string)
    ensures NoNumberField(t) ==> ParseFloatText(t).None?
  {
    if Blank(t) {
      BlankText(t);
    } else if t != [] && 'a' <= t[0] <= 'z' {
      LetterFirstHasNoNumber(t);
    }
  }

  /** An empty name, or a balance of "abc", is refused. */
  lemma InvalidEntryExamples(debts: seq<Debt>, now: int)
    ensures var st := DebtState(debts, "", "100", "5", "10"); AddDebt(st, now) == st
    ensures var st := DebtState(debts, "Card", "abc", "5", "10"); AddDebt(st, now) == st
  {
    InvalidEntriesRefused(DebtState(debts, "", "100", "5", "10"), now);
    InvalidEntriesRefused(DebtState(debts, "Card", "abc", "5", "10"), now);
  }
}
