/**
 * The month statement screen: the balance carried into the month, the
 * month's rows in date order with a running balance, the footer totals,
 * and the row editing, quick-add and delete actions.
 */
module LedgerTable {
  import opened Wrappers
  import opened Calendar
  import opened Store

  // ---------------------------------------------------------------------
  // Queries of `fetchData`
  // ---------------------------------------------------------------------

  /** Rows of household `h` dated strictly before `start`. */
  function PreviousQuery(h: string, start: Date): seq<Condition> {
    [HouseholdIs(h), DateBefore(start)]
  }

  /** Rows of household `h` with `start <= date <= end`. */
  function WindowQuery(h: string, start: Date, end: Date): seq<Condition> {
    [HouseholdIs(h), DateFrom(start), DateUpTo(end)]
  }

  /** `.order('transaction_date').order('created_at')`: `a` may come before `b`. */
  predicate InOrder(a: Entry, b: Entry) {
    Before(a.date, b.date) || (a.date == b.date && a.createdAt <= b.createdAt)
  }

  predicate Ordered(s: seq<Entry>) {
    forall i, j :: 0 <= i < j < |s| ==> InOrder(s[i], s[j])
  }

  function InsertInOrder(e: Entry, s: seq<Entry>): (r: seq<Entry>)
    requires Ordered(s)
    ensures Ordered(r)
    ensures forall x :: x in r <==> x == e || x in s
  {
    if s == [] || InOrder(e, s[0]) then [e] + s
    else
      assert s == [s[0]] + s[1..];
      var rest := InsertInOrder(e, s[1..]);
      assert forall x :: x in rest ==> InOrder(s[0], x) by {
        forall x | x in rest
          ensures InOrder(s[0], x)
        {
          if x != e {
            var k :| 0 <= k < |s[1..]| && s[1..][k] == x;
            assert s[k + 1] == x;
          }
        }
      }
      var r := [s[0]] + rest;
      assert Ordered(r) by {
        forall i, j | 0 <= i < j < |r|
          ensures InOrder(r[i], r[j])
        {
          assert r[j] == rest[j - 1] && r[j] in rest;
          if i > 0 {
            assert r[i] == rest[i - 1];
          }
        }
      }
      r
  }

  lemma {:induction false} InsertInOrderPermutes(e: Entry, s: seq<Entry>)
    requires Ordered(s)
    ensures multiset(InsertInOrder(e, s)) == multiset(s) + multiset{e}
  {
    if s != [] && !InOrder(e, s[0]) {
      InsertInOrderPermutes(e, s[1..]);
      assert s == [s[0]] + s[1..];
    }
  }

  /** The window rows as the store returns them: sorted by date, then by creation time. */
  function OrderByDateThenCreated(s: seq<Entry>): (r: seq<Entry>)
    ensures Ordered(r)
    ensures forall x :: x in r <==> x in s
    ensures multiset(r) == multiset(s)
  {
    if s == [] then [] else
      assert s == s[..|s| - 1] + [s[|s| - 1]];
      var init := OrderByDateThenCreated(s[..|s| - 1]);
      InsertInOrderPermutes(s[|s| - 1], init);
      InsertInOrder(s[|s| - 1], init)
  }

  lemma {:induction false} InsertInOrderSum(e: Entry, s: seq<Entry>)
    requires Ordered(s)
    ensures Sum(InsertInOrder(e, s)) == Sum(s) + e.amount
  {
    if s == [] || InOrder(e, s[0]) {
      SumAppend([e], s);
    } else {
      InsertInOrderSum(e, s[1..]);
      SumAppend([s[0]], InsertInOrder(e, s[1..]));
      SumAppend([s[0]], s[1..]);
      assert [s[0]] + s[1..] == s;
    }
  }

  /** Ordering the rows does not change their sum. */
  lemma {:induction false} OrderPreservesSum(s: seq<Entry>)
    ensures Sum(OrderByDateThenCreated(s)) == Sum(s)
  {
    if s != [] {
      OrderPreservesSum(s[..|s| - 1]);
      InsertInOrderSum(s[|s| - 1], OrderByDateThenCreated(s[..|s| - 1]));
    }
  }

  /** The balance carried into the month holding `month`: minus the sum of everything before its first day. */
  function OpeningBalance(rows: seq<Entry>, h: string, month: Date): int
    requires Valid(month)
  {
    -Sum(Select(rows, PreviousQuery(h, MonthWindow(month).0)))
  }

  /** The rows the statement lists for the month holding `month`. */
  function WindowRows(rows: seq<Entry>, h: string, month: Date): seq<Entry>
    requires Valid(month)
  {
    var (start, end) := MonthWindow(month);
    OrderByDateThenCreated(Select(rows, WindowQuery(h, start, end)))
  }

  /** The footer balance of the statement. */
  function ClosingBalance(rows: seq<Entry>, h: string, month: Date): int
    requires Valid(month)
  {
    OpeningBalance(rows, h, month) - Sum(WindowRows(rows, h, month))
  }

  /** `fetchData`: the opening balance (summed row by row) and the month's ordered rows. */
  method FetchData(ledger: Ledger, householdId: string, currentMonth: Date)
    returns (previousBalance: int, expenses: seq<Entry>)
    requires Valid(currentMonth)
    ensures previousBalance == OpeningBalance(ledger.rows, householdId, currentMonth)
    ensures expenses == WindowRows(ledger.rows, householdId, currentMonth)
    ensures Ordered(expenses)
    ensures forall e :: e in expenses <==>
      e in ledger.rows && e.household == householdId && SameMonth(e.date, currentMonth)
        && NotAfter(MonthWindow(currentMonth).0, e.date) && NotAfter(e.date, MonthWindow(currentMonth).1)
  {
    var (start, end) := MonthWindow(currentMonth);
    var prevData := ledger.Query(PreviousQuery(householdId, start));
    var prevBal := 0;
    for i := 0 to |prevData|
      invariant prevBal == -Sum(prevData[..i])
    {
      assert prevData[..i + 1][..i] == prevData[..i];
      prevBal := prevBal - prevData[i].amount;
    }
    assert prevData[..|prevData|] == prevData;
    previousBalance := prevBal;
    var window := ledger.Query(WindowQuery(householdId, start, end));
    expenses := OrderByDateThenCreated(window);
    forall e | e in window
      ensures e.household == householdId && SameMonth(e.date, currentMonth)
      ensures NotAfter(start, e.date) && NotAfter(e.date, end)
    {
      var q := WindowQuery(householdId, start, end);
      MatchesEach(q, e);
      assert Holds(q[0], e) && Holds(q[1], e) && Holds(q[2], e);
    }
    forall e | e in ledger.rows && e.household == householdId && NotAfter(start, e.date) && NotAfter(e.date, end)
      ensures e in window
    {
      MatchesEach(WindowQuery(householdId, start, end), e);
    }
  }

  /**
   * Inserting a row changes the opening balance by minus its amount exactly
   * when it belongs to the household and is dated before the month's first day.
   */
  lemma InsertEffectOnOpening(rows: seq<Entry>, h: string, month: Date, e: Entry)
    requires Valid(month)
    ensures OpeningBalance(rows + [e], h, month) ==
      OpeningBalance(rows, h, month) - (if e.household == h && Before(e.date, MonthWindow(month).0) then e.amount else 0)
  {
    var q := PreviousQuery(h, MonthWindow(month).0);
    SelectAppendSum(rows, e, q);
    MatchesEach(q, e);
  }

  /** A row dated before the month does not change the rows listed for the month. */
  lemma InsertBeforeKeepsWindow(rows: seq<Entry>, h: string, month: Date, e: Entry)
    requires Valid(month)
    requires Before(e.date, MonthWindow(month).0)
    ensures WindowRows(rows + [e], h, month) == WindowRows(rows, h, month)
  {
    var (start, end) := MonthWindow(month);
    var q := WindowQuery(h, start, end);
    KeepAppend(rows, [e], q, true);
    MatchesEach(q, e);
    assert [e][..0] == [];
    assert Select(rows + [e], q) == Select(rows, q);
  }

  /**
   * The footer balance is the household's balance counting every row dated
   * on or before the month's last day.
   */
  lemma ClosingIsCumulative(rows: seq<Entry>, h: string, month: Date)
    requires Valid(month)
    ensures ClosingBalance(rows, h, month) == -Sum(Select(rows, [HouseholdIs(h), DateUpTo(MonthWindow(month).1)]))
  {
    var (start, end) := MonthWindow(month);
    var whole := [HouseholdIs(h), DateUpTo(end)];
    var prev := PreviousQuery(h, start);
    var win := WindowQuery(h, start, end);
    forall i | 0 <= i < |rows|
      ensures MatchesAll(whole, rows[i]) <==> MatchesAll(prev, rows[i]) || MatchesAll(win, rows[i])
      ensures !(MatchesAll(prev, rows[i]) && MatchesAll(win, rows[i]))
    {
      MatchesEach(whole, rows[i]);
      MatchesEach(prev, rows[i]);
      MatchesEach(win, rows[i]);
    }
    SumSplit(rows, whole, prev, win);
    OrderPreservesSum(Select(rows, win));
  }

  // ---------------------------------------------------------------------
  // The statement rows (the `expenses.map` fold) and the footer
  // ---------------------------------------------------------------------

  /** A listed row: whether it is income, its magnitude, and the balance after it. */
  datatype Row = Row(entry: Entry, isIncome: bool, absAmount: nat, currentBalance: int)

  /**
   * The `expenses.map` fold: each row is annotated with its income flag and
   * magnitude, and the running balance moves up by the magnitude of an
   * income and down by that of an expense.
   */
  function Annotate(previousBalance: int, expenses: seq<Entry>): (rows: seq<Row>)
    ensures |rows| == |expenses|
  {
    if expenses == [] then []
    else
      var init := Annotate(previousBalance, expenses[..|expenses| - 1]);
      var expense := expenses[|expenses| - 1];
      var before := if init == [] then previousBalance else init[|init| - 1].currentBalance;
      var isIncome := expense.amount < 0;
      var absAmount := Abs(expense.amount);
      init + [Row(expense, isIncome, absAmount, if isIncome then before + absAmount else before - absAmount)]
  }

  /**
   * Row `k` of the statement shows entry `k`, is income exactly when its
   * amount is negative, shows the magnitude, and its balance is the opening
   * balance minus the amounts of rows 0..k.
   */
  lemma {:induction false} AnnotatedRowMeaning(previousBalance: int, expenses: seq<Entry>, k: nat)
    requires k < |expenses|
    ensures var row := Annotate(previousBalance, expenses)[k];
      row.entry == expenses[k]
      && (row.isIncome <==> expenses[k].amount < 0)
      && row.absAmount == Abs(expenses[k].amount)
      && row.currentBalance == previousBalance - Sum(expenses[..k + 1])
  {
    var init := expenses[..|expenses| - 1];
    if k < |expenses| - 1 {
      AnnotatedRowMeaning(previousBalance, init, k);
      assert init[..k + 1] == expenses[..k + 1];
    } else {
      assert expenses[..k + 1] == expenses;
      if k > 0 {
        AnnotatedRowMeaning(previousBalance, init, k - 1);
        assert init[..k] == init;
      }
    }
  }

  /** Each row's balance is the previous row's (the opening balance for the first) plus or minus its magnitude. */
  lemma AnnotatedRowStep(previousBalance: int, expenses: seq<Entry>, k: nat)
    requires k < |expenses|
    ensures var rows := Annotate(previousBalance, expenses);
      rows[k].currentBalance ==
        (if k == 0 then previousBalance else rows[k - 1].currentBalance)
        + (if rows[k].isIncome then rows[k].absAmount else -(rows[k].absAmount as int))
  {
    AnnotatedRowMeaning(previousBalance, expenses, k);
    if k > 0 {
      AnnotatedRowMeaning(previousBalance, expenses, k - 1);
      assert expenses[..k + 1][..k] == expenses[..k];
    } else {
      assert expenses[..1][..0] == [];
    }
  }

  /**
   * Two rows on the 1st (an expense of 1000, then an income of 500) and an
   * expense of 200 on the 3rd, from an opening balance of 0, show the
   * running balances -1000, -500 and -700.
   */
  lemma RunningBalanceExample(h: string)
    ensures var expenses := [
        Entry("a", h, 1000, Date(2024, 5, 1), 1, ""),
        Entry("b", h, -500, Date(2024, 5, 1), 2, ""),
        Entry("c", h, 200, Date(2024, 5, 3), 3, "")];
      var rows := Annotate(0, expenses);
      rows[0].currentBalance == -1000 && rows[1].currentBalance == -500 && rows[2].currentBalance == -700
      && !rows[0].isIncome && rows[1].isIncome && !rows[2].isIncome
  {
    var expenses := [
        Entry("a", h, 1000, Date(2024, 5, 1), 1, ""),
        Entry("b", h, -500, Date(2024, 5, 1), 2, ""),
        Entry("c", h, 200, Date(2024, 5, 3), 3, "")];
    assert expenses[..2] == expenses[..3][..2];
    assert expenses[..1] == expenses[..2][..1];
    assert expenses[..3] == expenses;
    AnnotatedRowMeaning(0, expenses, 0);
    AnnotatedRowMeaning(0, expenses, 1);
    AnnotatedRowMeaning(0, expenses, 2);
  }

  /** The statement rows, the footer totals and the footer balance. */
  method ComputeRows(previousBalance: int, expenses: seq<Entry>)
    returns (rows: seq<Row>, totalIncome: int, totalExpense: int, runningBalance: int)
    ensures rows == Annotate(previousBalance, expenses)
    ensures totalIncome == Income(expenses) && totalExpense == Expense(expenses)
    ensures totalIncome >= 0 && totalExpense >= 0
    ensures runningBalance == previousBalance + totalIncome - totalExpense
    ensures runningBalance == previousBalance - Sum(expenses)
  {
    rows, totalIncome, totalExpense, runningBalance := [], 0, 0, previousBalance;
    for i := 0 to |expenses|
      invariant rows == Annotate(previousBalance, expenses[..i])
      invariant runningBalance == if i == 0 then previousBalance else rows[i - 1].currentBalance
      invariant totalIncome == Income(expenses[..i]) && totalExpense == Expense(expenses[..i])
    {
      assert expenses[..i + 1][..i] == expenses[..i];
      var expense := expenses[i];
      var isIncome := expense.amount < 0;
      var absAmount := Abs(expense.amount);
      if isIncome {
        totalIncome := totalIncome + absAmount;
        runningBalance := runningBalance + absAmount;
      } else {
        totalExpense := totalExpense + absAmount;
        runningBalance := runningBalance - absAmount;
      }
      rows := rows + [Row(expense, isIncome, absAmount, runningBalance)];
    }
    assert expenses[..|expenses|] == expenses;
    if expenses != [] {
      AnnotatedRowMeaning(previousBalance, expenses, |expenses| - 1);
      assert expenses[..|expenses|] == expenses;
    }
    IncomeMinusExpense(expenses);
  }

  /**
   * The whole statement for the month holding `currentMonth`: the footer
   * balance equals the household's balance through the month's last day.
   */
  method Statement(ledger: Ledger, householdId: string, currentMonth: Date)
    returns (previousBalance: int, rows: seq<Row>, totalIncome: int, totalExpense: int, runningBalance: int)
    requires Valid(currentMonth)
    ensures previousBalance == OpeningBalance(ledger.rows, householdId, currentMonth)
    ensures rows == Annotate(previousBalance, WindowRows(ledger.rows, householdId, currentMonth))
    ensures totalIncome >= 0 && totalExpense >= 0
    ensures runningBalance == previousBalance + totalIncome - totalExpense
    ensures runningBalance == ClosingBalance(ledger.rows, householdId, currentMonth)
    ensures runningBalance ==
      -Sum(Select(ledger.rows, [HouseholdIs(householdId), DateUpTo(MonthWindow(currentMonth).1)]))
  {
    var expenses;
    previousBalance, expenses := FetchData(ledger, householdId, currentMonth);
    rows, totalIncome, totalExpense, runningBalance := ComputeRows(previousBalance, expenses);
    ClosingIsCumulative(ledger.rows, householdId, currentMonth);
  }

  // ---------------------------------------------------------------------
  // Editing, quick-add and delete
  // ---------------------------------------------------------------------

  /** `expenses.find(e => e.id === id)`: the first listed row with that id. */
  function FindById(expenses: seq<Entry>, id: string): (r: Option<Entry>)
    ensures r.Some? ==> r.value in expenses && r.value.id == id
    ensures r.None? <==> forall i :: 0 <= i < |expenses| ==> expenses[i].id != id
    ensures r.Some? ==>
      exists k :: 0 <= k < |expenses| && expenses[k] == r.value && forall j :: 0 <= j < k ==> expenses[j].id != id
  {
    if expenses == [] then None
    else if expenses[0].id == id then Some(expenses[0])
    else
      var r := FindById(expenses[1..], id);
      if r.Some? then
        var k :| 0 <= k < |expenses[1..]| && expenses[1..][k] == r.value
          && forall j :: 0 <= j < k ==> expenses[1..][j].id != id;
        assert expenses[k + 1] == r.value;
        r
      else r
  }

  /**
   * The amount an edit stores: NaN input is refused; otherwise the typed
   * magnitude, negative (income) when the row being edited was income.
   */
  function EditedAmount(editAmount: AmountInput, originalRow: Option<Entry>): (r: Result<int>)
    ensures r.Err? <==> editAmount.AsNumber().None?
    ensures r.Err? ==> r.message == "Invalid Amount"
    ensures r.Ok? ==> Abs(r.value) == Abs(editAmount.n)
    ensures r.Ok? && r.value < 0 ==> originalRow.Some? && originalRow.value.amount < 0
    ensures r.Ok? && originalRow.Some? && originalRow.value.amount < 0 ==> r.value <= 0
  {
    match editAmount.AsNumber()
    case None => Err("Invalid Amount")
    case Some(val) =>
      var isOriginalIncome := originalRow.Some? && originalRow.value.amount < 0;
      Ok(if isOriginalIncome then -Abs(val) else Abs(val))
  }

  /** An edit with a non-zero amount keeps the row's income/expense class. */
  lemma EditKeepsSignClass(val: int, row: Entry)
    requires val != 0
    ensures EditedAmount(Parsed(val), Some(row)).Ok?
    ensures (EditedAmount(Parsed(val), Some(row)).value < 0) == (row.amount < 0)
  {
  }

  /** `handleUpdate`: write the edited description, amount and date to the expanded row. */
  method HandleUpdate(ledger: Ledger, expenses: seq<Entry>, expandedRowId: Option<string>,
                      editDescription: string, editAmount: AmountInput, editDate: Date)
    returns (outcome: Outcome)
    modifies ledger
    ensures expandedRowId.None? ==> outcome == Skipped && ledger.rows == old(ledger.rows)
    ensures expandedRowId.Some? && editAmount.AsNumber().None? ==>
      outcome == Rejected("Invalid Amount") && ledger.rows == old(ledger.rows)
    ensures expandedRowId.Some? && editAmount.AsNumber().Some? ==>
      var id := expandedRowId.value;
      var amount := EditedAmount(editAmount, FindById(expenses, id));
      outcome == Applied && amount.Ok?
      && ledger.rows == UpdateById(old(ledger.rows), id, editDescription, amount.value, editDate)
  {
    if expandedRowId.None? {
      return Skipped;
    }
    var id := expandedRowId.value;
    var finalAmount := EditedAmount(editAmount, FindById(expenses, id));
    if finalAmount.Err? {
      return Rejected(finalAmount.message);
    }
    ledger.Update(id, editDescription, finalAmount.value, editDate);
    outcome := Applied;
  }

  /**
   * The row a quick-add inserts: a blank or unparsable amount is refused,
   * otherwise an expense of the typed magnitude with an empty description.
   */
  function QuickAddEntry(householdId: string, inputExpense: AmountInput, inputDate: Date,
                         newId: string, createdAt: int): (r: Result<Entry>)
    ensures inputExpense.Blank? ==> r == Err("金額を入力してください")
    ensures r.Ok? <==> inputExpense.Parsed?
    ensures r.Ok? ==>
      r.value.amount >= 0 && r.value.amount == Abs(inputExpense.n)
      && r.value.household == householdId && r.value.date == inputDate
      && r.value.id == newId && r.value.createdAt == createdAt && r.value.description == ""
  {
    match inputExpense
    case Blank => Err("金額を入力してください")
    case Unparsable => Err("Invalid Amount")
    case Parsed(n) => Ok(Entry(newId, householdId, Abs(n), inputDate, createdAt, ""))
  }

  /** `handleAddFromRow`: insert the quick-add row, or leave the table alone when refused. */
  method HandleAddFromRow(ledger: Ledger, householdId: string, inputExpense: AmountInput,
                          inputDate: Date, newId: string, createdAt: int)
    returns (outcome: Outcome)
    modifies ledger
    ensures !inputExpense.Parsed? ==> outcome.Rejected? && ledger.rows == old(ledger.rows)
    ensures inputExpense.Parsed? ==>
      outcome == Applied
      && ledger.rows == old(ledger.rows) + [QuickAddEntry(householdId, inputExpense, inputDate, newId, createdAt).value]
      && TotalBalance(ledger.rows, householdId) == TotalBalance(old(ledger.rows), householdId) - Abs(inputExpense.n)
  {
    var entry := QuickAddEntry(householdId, inputExpense, inputDate, newId, createdAt);
    if entry.Err? {
      return Rejected(entry.message);
    }
    ghost var before := ledger.rows;
    ledger.Insert(entry.value);
    AppendEffectOnBalance(before, householdId, entry.value);
    outcome := Applied;
  }

  /** `handleDelete`: delete the expanded row once the user confirms. */
  method HandleDelete(ledger: Ledger, expandedRowId: Option<string>, confirmed: bool)
    returns (outcome: Outcome)
    modifies ledger
    ensures expandedRowId.None? || !confirmed ==> outcome == Skipped && ledger.rows == old(ledger.rows)
    ensures expandedRowId.Some? && confirmed ==>
      outcome == Applied && ledger.rows == Keep(old(ledger.rows), [IdIs(expandedRowId.value)], false)
  {
    if expandedRowId.None? || !confirmed {
      return Skipped;
    }
    ledger.Delete([IdIs(expandedRowId.value)]);
    outcome := Applied;
  }
}
