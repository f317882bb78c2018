/**
 * The dashboard's balance card: the household's income and spending over
 * every row dated up to the end of the current month, and the remaining
 * balance between them.
 */
module DashboardSummary {
  import opened Wrappers
  import opened Calendar
  import opened Store
  import opened LedgerTable

  /** Filters of the card's query: the household's rows up to the month's last day. */
  function SummaryQuery(h: string, now: Date): seq<Condition>
    requires Valid(now)
  {
    [HouseholdIs(h), DateUpTo(MonthWindow(now).1)]
  }

  /**
   * `fetchSummary` followed by the card's `remaining`: incomes are summed
   * by magnitude, expenses as they are, and the remaining balance is the
   * one the ledger table's footer shows for the current month.
   */
  method FetchSummary(ledger: Ledger, householdId: string, now: Date)
    returns (totalIncome: int, totalSpent: int, remaining: int)
    requires Valid(now)
    ensures totalIncome == Income(Select(ledger.rows, SummaryQuery(householdId, now)))
    ensures totalSpent == Expense(Select(ledger.rows, SummaryQuery(householdId, now)))
    ensures totalIncome >= 0 && totalSpent >= 0
    ensures remaining == totalIncome - totalSpent
    ensures remaining == -Sum(Select(ledger.rows, SummaryQuery(householdId, now)))
    ensures remaining == ClosingBalance(ledger.rows, householdId, now)
  {
    var expenses := ledger.Query(SummaryQuery(householdId, now));
    var income, expense := 0, 0;
    for i := 0 to |expenses|
      invariant income == Income(expenses[..i]) && expense == Expense(expenses[..i])
    {
      assert expenses[..i + 1][..i] == expenses[..i];
      var e := expenses[i];
      if e.amount < 0 {
        income := income + Abs(e.amount);
      } else {
        expense := expense + e.amount;
      }
    }
    assert expenses[..|expenses|] == expenses;
    totalIncome, totalSpent := income, expense;
    remaining := totalIncome - totalSpent;
    IncomeMinusExpense(expenses);
    ClosingIsCumulative(ledger.rows, householdId, now);
  }

  /**
   * Recording a row of the household dated on or before the month's last
   * day moves the card by minus its amount; a later row or another
   * household's row leaves it unchanged.
   */
  lemma InsertEffectOnSummary(rows: seq<Entry>, h: string, now: Date, e: Entry)
    requires Valid(now)
    ensures -Sum(Select(rows + [e], SummaryQuery(h, now))) ==
      -Sum(Select(rows, SummaryQuery(h, now)))
        - (if e.household == h && NotAfter(e.date, MonthWindow(now).1) then e.amount else 0)
  {
    SelectAppendSum(rows, e, SummaryQuery(h, now));
    MatchesEach(SummaryQuery(h, now), e);
    assert MatchesAll(SummaryQuery(h, now), e) ==>
      Holds(SummaryQuery(h, now)[0], e) && Holds(SummaryQuery(h, now)[1], e);
  }
}
