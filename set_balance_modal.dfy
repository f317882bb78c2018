/**
 * The balance dialog. "Add" records a deposit; "set" forces the household's
 * balance to the typed figure by replacing every earlier adjustment row with
 * a single one dated on the sentinel day.
 */
module SetBalanceModal {
  import opened Wrappers
  import opened Calendar
  import opened Store
  import opened LedgerTable

  /** Labels of the rows this dialog writes (the first is only ever cleaned up). */
  const MonthlyBudget := "月次予算"
  const InitialBalance := "資産初期残高"
  const BalanceAdded := "残高追加"

  predicate IsAdjustmentLabel(description: string) {
    description == MonthlyBudget || description == InitialBalance || description == BalanceAdded
  }

  /** A row set mode removes: an adjustment row of household `h`. */
  predicate IsAdjustmentOf(e: Entry, h: string) {
    e.household == h && IsAdjustmentLabel(e.description)
  }

  datatype Mode = Add | Set

  /** The deposit row add mode inserts: income of the typed magnitude. */
  function AddedEntry(h: string, inputVal: int, newId: string, createdAt: int): Entry {
    Entry(newId, h, -Abs(inputVal), Sentinel, createdAt, BalanceAdded)
  }

  /** Filters of the three cleanup deletes of set mode, in the order they run. */
  function CleanupQuery(h: string, text: string): seq<Condition> {
    [HouseholdIs(h), DescriptionIs(text)]
  }

  lemma CleanupMatches(h: string, text: string, e: Entry)
    ensures MatchesAll(CleanupQuery(h, text), e) <==> e.household == h && e.description == text
  {
    MatchesEach(CleanupQuery(h, text), e);
  }

  /** The table after set mode's three deletes. */
  function WithoutAdjustments(rows: seq<Entry>, h: string): seq<Entry> {
    var r1 := Keep(rows, CleanupQuery(h, MonthlyBudget), false);
    var r2 := Keep(r1, CleanupQuery(h, InitialBalance), false);
    Keep(r2, CleanupQuery(h, BalanceAdded), false)
  }

  /** The three deletes remove every adjustment row of `h` and nothing else. */
  lemma WithoutAdjustmentsMembers(rows: seq<Entry>, h: string)
    ensures forall e :: e in WithoutAdjustments(rows, h) <==> e in rows && !IsAdjustmentOf(e, h)
  {
    var r1 := Keep(rows, CleanupQuery(h, MonthlyBudget), false);
    var r2 := Keep(r1, CleanupQuery(h, InitialBalance), false);
    KeepMembers(rows, CleanupQuery(h, MonthlyBudget), false);
    KeepMembers(r1, CleanupQuery(h, InitialBalance), false);
    KeepMembers(r2, CleanupQuery(h, BalanceAdded), false);
    forall e | e in rows
      ensures e in WithoutAdjustments(rows, h) <==> !IsAdjustmentOf(e, h)
    {
      CleanupMatches(h, MonthlyBudget, e);
      CleanupMatches(h, InitialBalance, e);
      CleanupMatches(h, BalanceAdded, e);
    }
  }

  /** The single adjustment row set mode inserts, sized so that the balance becomes `inputVal`. */
  function SetEntry(rows: seq<Entry>, h: string, inputVal: int, newId: string, createdAt: int): Entry {
    var actualBalance := Sum(HouseholdRows(WithoutAdjustments(rows, h), h));
    Entry(newId, h, -inputVal - actualBalance, Sentinel, createdAt, InitialBalance)
  }

  /** The table after set mode. */
  function AfterSet(rows: seq<Entry>, h: string, inputVal: int, newId: string, createdAt: int): seq<Entry> {
    WithoutAdjustments(rows, h) + [SetEntry(rows, h, inputVal, newId, createdAt)]
  }

  /** Set mode of `handleSubmit`: the three cleanup deletes, the balance loop, and the insert of the adjustment row. */
  method SetBalance(ledger: Ledger, householdId: string, inputVal: int, newId: string, createdAt: int)
    modifies ledger
    ensures ledger.rows == AfterSet(old(ledger.rows), householdId, inputVal, newId, createdAt)
  {
    ghost var before := ledger.rows;
    ledger.Delete(CleanupQuery(householdId, MonthlyBudget));
    ledger.Delete(CleanupQuery(householdId, InitialBalance));
    ledger.Delete(CleanupQuery(householdId, BalanceAdded));
    ghost var w := WithoutAdjustments(before, householdId);
    assert ledger.rows == w;
    var actualTransactions := ledger.Query([HouseholdIs(householdId)]);
    assert actualTransactions == HouseholdRows(w, householdId);
    var actualBalance := SumAmounts(actualTransactions);
    var targetActualBalance := -inputVal;
    var adjustmentAmount := targetActualBalance - actualBalance;
    assert Entry(newId, householdId, adjustmentAmount, Sentinel, createdAt, InitialBalance)
        == SetEntry(before, householdId, inputVal, newId, createdAt);
    ledger.Insert(Entry(newId, householdId, adjustmentAmount, Sentinel, createdAt, InitialBalance));
  }

  /** `handleSubmit`. */
  method HandleSubmit(ledger: Ledger, householdId: string, mode: Mode, amount: AmountInput,
                      newId: string, createdAt: int)
    returns (outcome: Outcome)
    modifies ledger
    ensures amount.AsNumber().None? ==>
      outcome == Rejected("有効な数値を入力してください") && ledger.rows == old(ledger.rows)
    ensures amount.Parsed? && mode == Add ==>
      outcome == Applied && ledger.rows == old(ledger.rows) + [AddedEntry(householdId, amount.n, newId, createdAt)]
    ensures amount.Parsed? && mode == Set ==>
      outcome == Applied && ledger.rows == AfterSet(old(ledger.rows), householdId, amount.n, newId, createdAt)
  {
    var inputVal := amount.AsNumber();
    if inputVal.None? {
      return Rejected("有効な数値を入力してください");
    }
    if mode == Add {
      ledger.Insert(AddedEntry(householdId, inputVal.value, newId, createdAt));
    } else {
      SetBalance(ledger, householdId, inputVal.value, newId, createdAt);
    }
    outcome := Applied;
  }

  // ---------------------------------------------------------------------
  // What the two modes guarantee
  // ---------------------------------------------------------------------

  /** Add mode raises the household's balance by the typed magnitude and leaves every other household's alone. */
  lemma AddRaisesBalance(rows: seq<Entry>, h: string, inputVal: int, newId: string, createdAt: int, g: string)
    ensures TotalBalance(rows + [AddedEntry(h, inputVal, newId, createdAt)], h) == TotalBalance(rows, h) + Abs(inputVal)
    ensures g != h ==> TotalBalance(rows + [AddedEntry(h, inputVal, newId, createdAt)], g) == TotalBalance(rows, g)
  {
    AppendEffectOnBalance(rows, h, AddedEntry(h, inputVal, newId, createdAt));
    AppendEffectOnBalance(rows, g, AddedEntry(h, inputVal, newId, createdAt));
  }

  /** After set mode the household's balance is exactly the typed figure, whatever came before. */
  lemma SetIsExact(rows: seq<Entry>, h: string, inputVal: int, newId: string, createdAt: int)
    ensures TotalBalance(AfterSet(rows, h, inputVal, newId, createdAt), h) == inputVal
  {
    AppendEffectOnBalance(WithoutAdjustments(rows, h), h, SetEntry(rows, h, inputVal, newId, createdAt));
  }

  /** Set mode keeps every row that is not an adjustment row of the household, and adds only its own row. */
  lemma SetKeepsOrdinaryRows(rows: seq<Entry>, h: string, inputVal: int, newId: string, createdAt: int)
    ensures forall e :: e in rows && !IsAdjustmentOf(e, h) ==> e in AfterSet(rows, h, inputVal, newId, createdAt)
    ensures forall e :: e in AfterSet(rows, h, inputVal, newId, createdAt) ==>
      (e in rows && !IsAdjustmentOf(e, h)) || e == SetEntry(rows, h, inputVal, newId, createdAt)
  {
    WithoutAdjustmentsMembers(rows, h);
  }

  /** Set mode does not touch another household's rows. */
  lemma SetLeavesOtherHouseholds(rows: seq<Entry>, h: string, inputVal: int, newId: string, createdAt: int, g: string)
    requires g != h
    ensures HouseholdRows(AfterSet(rows, h, inputVal, newId, createdAt), g) == HouseholdRows(rows, g)
  {
    var sel := [HouseholdIs(g)];
    var r1 := Keep(rows, CleanupQuery(h, MonthlyBudget), false);
    var r2 := Keep(r1, CleanupQuery(h, InitialBalance), false);
    forall e: Entry
      ensures MatchesAll(sel, e) ==> !MatchesAll(CleanupQuery(h, MonthlyBudget), e)
      ensures MatchesAll(sel, e) ==> !MatchesAll(CleanupQuery(h, InitialBalance), e)
      ensures MatchesAll(sel, e) ==> !MatchesAll(CleanupQuery(h, BalanceAdded), e)
    {
      MatchesEach(sel, e);
      CleanupMatches(h, MonthlyBudget, e);
      CleanupMatches(h, InitialBalance, e);
      CleanupMatches(h, BalanceAdded, e);
    }
    DeleteLeavesQuery(rows, CleanupQuery(h, MonthlyBudget), sel);
    DeleteLeavesQuery(r1, CleanupQuery(h, InitialBalance), sel);
    DeleteLeavesQuery(r2, CleanupQuery(h, BalanceAdded), sel);
    var w := WithoutAdjustments(rows, h);
    assert (w + [SetEntry(rows, h, inputVal, newId, createdAt)])[..|w|] == w;
  }

  /** After set mode, the household has exactly one adjustment row: the new initial-balance row. */
  lemma SetLeavesOneAdjustment(rows: seq<Entry>, h: string, inputVal: int, newId: string, createdAt: int, text: string)
    requires IsAdjustmentLabel(text)
    ensures Select(AfterSet(rows, h, inputVal, newId, createdAt), CleanupQuery(h, text)) ==
      if text == InitialBalance then [SetEntry(rows, h, inputVal, newId, createdAt)] else []
  {
    var w := WithoutAdjustments(rows, h);
    var x := SetEntry(rows, h, inputVal, newId, createdAt);
    var q := CleanupQuery(h, text);
    WithoutAdjustmentsMembers(rows, h);
    forall i | 0 <= i < |w|
      ensures !MatchesAll(q, w[i])
    {
      assert w[i] in w;
      CleanupMatches(h, text, w[i]);
    }
    KeepNoneMatch(w, q);
    CleanupMatches(h, text, x);
    assert (w + [x])[..|w|] == w;
  }

  /** The cleanup deletes remove an adjustment row of the household wherever it was appended. */
  lemma {:induction false} CleanupAbsorbs(rows: seq<Entry>, h: string, x: Entry)
    requires IsAdjustmentOf(x, h)
    ensures WithoutAdjustments(rows + [x], h) == WithoutAdjustments(rows, h)
  {
    var q1, q2, q3 := CleanupQuery(h, MonthlyBudget), CleanupQuery(h, InitialBalance), CleanupQuery(h, BalanceAdded);
    CleanupMatches(h, MonthlyBudget, x);
    CleanupMatches(h, InitialBalance, x);
    CleanupMatches(h, BalanceAdded, x);
    assert (rows + [x])[..|rows|] == rows;
    var r1 := Keep(rows, q1, false);
    var r2 := Keep(r1, q2, false);
    if x.description == MonthlyBudget {
      assert Keep(rows + [x], q1, false) == r1;
    } else if x.description == InitialBalance {
      assert Keep(rows + [x], q1, false) == r1 + [x];
      assert (r1 + [x])[..|r1|] == r1;
      assert Keep(r1 + [x], q2, false) == r2;
    } else {
      assert Keep(rows + [x], q1, false) == r1 + [x];
      assert (r1 + [x])[..|r1|] == r1;
      assert Keep(r1 + [x], q2, false) == r2 + [x];
      assert (r2 + [x])[..|r2|] == r2;
    }
  }

  /** The cleanup deletes find nothing more to delete once they have run. */
  lemma CleanupIdempotent(rows: seq<Entry>, h: string)
    ensures WithoutAdjustments(WithoutAdjustments(rows, h), h) == WithoutAdjustments(rows, h)
  {
    var w := WithoutAdjustments(rows, h);
    WithoutAdjustmentsMembers(rows, h);
    forall text | IsAdjustmentLabel(text)
      ensures forall i :: 0 <= i < |w| ==> !MatchesAll(CleanupQuery(h, text), w[i])
    {
      forall i | 0 <= i < |w|
        ensures !MatchesAll(CleanupQuery(h, text), w[i])
      {
        assert w[i] in w;
        CleanupMatches(h, text, w[i]);
      }
    }
    KeepNoneMatch(w, CleanupQuery(h, MonthlyBudget));
    KeepNoneMatch(w, CleanupQuery(h, InitialBalance));
    KeepNoneMatch(w, CleanupQuery(h, BalanceAdded));
  }

  /**
   * Running set mode twice with the same figure leaves the same table as
   * running it once (the second run's row replaces the first's, with the
   * same amount).
   */
  lemma SetIsIdempotent(rows: seq<Entry>, h: string, inputVal: int,
                        id1: string, createdAt1: int, id2: string, createdAt2: int)
    ensures AfterSet(AfterSet(rows, h, inputVal, id1, createdAt1), h, inputVal, id2, createdAt2)
         == AfterSet(rows, h, inputVal, id2, createdAt2)
    ensures SetEntry(AfterSet(rows, h, inputVal, id1, createdAt1), h, inputVal, id2, createdAt2).amount
         == SetEntry(rows, h, inputVal, id1, createdAt1).amount
  {
    var w := WithoutAdjustments(rows, h);
    var x1 := SetEntry(rows, h, inputVal, id1, createdAt1);
    var once := AfterSet(rows, h, inputVal, id1, createdAt1);
    assert once == w + [x1];
    CleanupAbsorbs(w, h, x1);
    CleanupIdempotent(rows, h);
    assert WithoutAdjustments(once, h) == w;
    assert SetEntry(once, h, inputVal, id2, createdAt2) == SetEntry(rows, h, inputVal, id2, createdAt2);
  }

  /** Set mode absorbs an earlier add: adding first makes no difference to the result. */
  lemma SetAbsorbsAdd(rows: seq<Entry>, h: string, added: int, addId: string, addCreatedAt: int,
                      inputVal: int, newId: string, createdAt: int)
    ensures AfterSet(rows + [AddedEntry(h, added, addId, addCreatedAt)], h, inputVal, newId, createdAt)
         == AfterSet(rows, h, inputVal, newId, createdAt)
  {
    CleanupAbsorbs(rows, h, AddedEntry(h, added, addId, addCreatedAt));
  }

  /**
   * A deposit raises the statement's footer balance by the typed magnitude
   * for every month from January 2000 on (the deposit is dated on the
   * sentinel day, before all of them).
   */
  lemma AddRaisesClosing(rows: seq<Entry>, h: string, inputVal: int, newId: string, createdAt: int, month: Date)
    requires Valid(month) && NotAfter(Sentinel, MonthWindow(month).1)
    ensures ClosingBalance(rows + [AddedEntry(h, inputVal, newId, createdAt)], h, month)
         == ClosingBalance(rows, h, month) + Abs(inputVal)
  {
    var e := AddedEntry(h, inputVal, newId, createdAt);
    var q := [HouseholdIs(h), DateUpTo(MonthWindow(month).1)];
    ClosingIsCumulative(rows, h, month);
    ClosingIsCumulative(rows + [e], h, month);
    SelectAppendSum(rows, e, q);
    MatchesEach(q, e);
  }

  /**
   * From an empty table: a deposit of 10000 shows 10000, an expense of 3000
   * then shows 7000, and setting the balance to 5000 shows 5000 with a
   * single initial-balance row as the household's only adjustment row.
   */
  lemma ScenarioFromEmpty(h: string, id1: string, id2: string, id3: string, t1: int, t2: int, t3: int)
    ensures var rows1 := [AddedEntry(h, 10000, id1, t1)];
      var rows2 := rows1 + [Entry(id2, h, 3000, Date(2024, 6, 1), t2, "")];
      var rows3 := AfterSet(rows2, h, 5000, id3, t3);
      TotalBalance(rows1, h) == 10000
      && TotalBalance(rows2, h) == 7000
      && TotalBalance(rows3, h) == 5000
      && Select(rows3, CleanupQuery(h, InitialBalance)) == [SetEntry(rows2, h, 5000, id3, t3)]
      && Select(rows3, CleanupQuery(h, BalanceAdded)) == []
      && Select(rows3, CleanupQuery(h, MonthlyBudget)) == []
  {
    var rows1 := [AddedEntry(h, 10000, id1, t1)];
    var rows2 := rows1 + [Entry(id2, h, 3000, Date(2024, 6, 1), t2, "")];
    AddRaisesBalance([], h, 10000, id1, t1, h);
    assert [] + [AddedEntry(h, 10000, id1, t1)] == rows1;
    AppendEffectOnBalance(rows1, h, Entry(id2, h, 3000, Date(2024, 6, 1), t2, ""));
    SetIsExact(rows2, h, 5000, id3, t3);
    SetLeavesOneAdjustment(rows2, h, 5000, id3, t3, InitialBalance);
    SetLeavesOneAdjustment(rows2, h, 5000, id3, t3, BalanceAdded);
    SetLeavesOneAdjustment(rows2, h, 5000, id3, t3, MonthlyBudget);
  }

  // ---------------------------------------------------------------------
  // Set mode against the balance the card shows
  // ---------------------------------------------------------------------

  /**
   * Set mode as written sums every row of the household, including rows
   * dated after the current month, while the card and the statement count
   * rows only up to the month's last day. With one expense of 700 dated in
   * January 2030, setting 5000 makes the all-time balance 5000 but leaves
   * June 2024's footer (and so the card) at 5700.
   */
  lemma SetFooterCounterexample(h: string, newId: string, createdAt: int)
    ensures var rows := [Entry("x", h, 700, Date(2030, 1, 5), 0, "")];
      var after := AfterSet(rows, h, 5000, newId, createdAt);
      TotalBalance(after, h) == 5000
      && ClosingBalance(after, h, Date(2024, 6, 1)) == 5700
  {
    var month := Date(2024, 6, 1);
    var e := Entry("x", h, 700, Date(2030, 1, 5), 0, "");
    assert MonthWindow(month).1.year == 2024;
    SetMissesLaterRow(e, h, 5000, month, newId, createdAt);
  }

  /**
   * With a single ordinary row of the household dated after the month, set
   * mode makes the all-time balance the typed figure but leaves the month's
   * footer that row's amount above it.
   */
  lemma SetMissesLaterRow(e: Entry, h: string, inputVal: int, month: Date, newId: string, createdAt: int)
    requires Valid(month) && NotAfter(Sentinel, MonthWindow(month).1)
    requires e.household == h && !IsAdjustmentLabel(e.description) && Before(MonthWindow(month).1, e.date)
    ensures TotalBalance(AfterSet([e], h, inputVal, newId, createdAt), h) == inputVal
    ensures ClosingBalance(AfterSet([e], h, inputVal, newId, createdAt), h, month) == inputVal + e.amount
  {
    var rows := [e];
    SetIsExact(rows, h, inputVal, newId, createdAt);
    SetClosingGap(rows, h, inputVal, month, newId, createdAt);
    NoAdjustmentsKept(rows, h);
    OneLaterRowSums(e, h, MonthWindow(month).1);
  }

  /** The sums over a single row of the household dated after `end`. */
  lemma OneLaterRowSums(e: Entry, h: string, end: Date)
    requires e.household == h && Before(end, e.date)
    ensures Sum(HouseholdRows([e], h)) == e.amount
    ensures Sum(Select([e], [HouseholdIs(h), DateUpTo(end)])) == 0
  {
    MatchesEach([HouseholdIs(h)], e);
    assert HouseholdRows([e], h) == [e];
    assert Sum([e]) == e.amount;
    var q := [HouseholdIs(h), DateUpTo(end)];
    assert !Holds(q[1], e);
    MatchesEach(q, e);
    KeepNoneMatch([e], q);
  }

  /**
   * After set mode, the footer of a month from January 2000 on is the typed
   * figure plus the household's ordinary rows dated after that month.
   */
  lemma SetClosingGap(rows: seq<Entry>, h: string, inputVal: int, month: Date, newId: string, createdAt: int)
    requires Valid(month) && NotAfter(Sentinel, MonthWindow(month).1)
    ensures var w := WithoutAdjustments(rows, h);
      ClosingBalance(AfterSet(rows, h, inputVal, newId, createdAt), h, month)
        == inputVal + Sum(HouseholdRows(w, h)) - Sum(Select(w, [HouseholdIs(h), DateUpTo(MonthWindow(month).1)]))
  {
    var w := WithoutAdjustments(rows, h);
    var x := SetEntry(rows, h, inputVal, newId, createdAt);
    var q := [HouseholdIs(h), DateUpTo(MonthWindow(month).1)];
    MatchesEach(q, x);
    SelectAppendSum(w, x, q);
    ClosingIsCumulative(w + [x], h, month);
  }

  /** The cleanup leaves a table without adjustment rows as it is. */
  lemma NoAdjustmentsKept(rows: seq<Entry>, h: string)
    requires forall i :: 0 <= i < |rows| ==> !IsAdjustmentOf(rows[i], h)
    ensures WithoutAdjustments(rows, h) == rows
  {
    forall i | 0 <= i < |rows|
      ensures !MatchesAll(CleanupQuery(h, MonthlyBudget), rows[i])
      ensures !MatchesAll(CleanupQuery(h, InitialBalance), rows[i])
      ensures !MatchesAll(CleanupQuery(h, BalanceAdded), rows[i])
    {
      CleanupMatches(h, MonthlyBudget, rows[i]);
      CleanupMatches(h, InitialBalance, rows[i]);
      CleanupMatches(h, BalanceAdded, rows[i]);
    }
    KeepNoneMatch(rows, CleanupQuery(h, MonthlyBudget));
    KeepNoneMatch(rows, CleanupQuery(h, InitialBalance));
    KeepNoneMatch(rows, CleanupQuery(h, BalanceAdded));
  }

  /**
   * The corrected adjustment row: sized against the rows the card counts,
   * those of the household dated up to the last day of `now`'s month.
   */
  function SetEntryThrough(rows: seq<Entry>, h: string, inputVal: int, now: Date, newId: string, createdAt: int): Entry
    requires Valid(now)
  {
    var counted := Sum(Select(WithoutAdjustments(rows, h), [HouseholdIs(h), DateUpTo(MonthWindow(now).1)]));
    Entry(newId, h, -inputVal - counted, Sentinel, createdAt, InitialBalance)
  }

  /** The table after the corrected set mode. */
  function AfterSetThrough(rows: seq<Entry>, h: string, inputVal: int, now: Date, newId: string, createdAt: int): seq<Entry>
    requires Valid(now)
  {
    WithoutAdjustments(rows, h) + [SetEntryThrough(rows, h, inputVal, now, newId, createdAt)]
  }

  /**
   * The corrected set mode: the same three deletes, a re-sum bounded by the
   * month's last day, and the insert.
   */
  method SetBalanceThrough(ledger: Ledger, householdId: string, inputVal: int, now: Date, newId: string, createdAt: int)
    requires Valid(now)
    modifies ledger
    ensures ledger.rows == AfterSetThrough(old(ledger.rows), householdId, inputVal, now, newId, createdAt)
  {
    ghost var before := ledger.rows;
    ledger.Delete(CleanupQuery(householdId, MonthlyBudget));
    ledger.Delete(CleanupQuery(householdId, InitialBalance));
    ledger.Delete(CleanupQuery(householdId, BalanceAdded));
    ghost var w := WithoutAdjustments(before, householdId);
    assert ledger.rows == w;
    var counted := ledger.Query([HouseholdIs(householdId), DateUpTo(MonthWindow(now).1)]);
    assert counted == Select(w, [HouseholdIs(householdId), DateUpTo(MonthWindow(now).1)]);
    var actualBalance := SumAmounts(counted);
    var adjustmentAmount := -inputVal - actualBalance;
    assert Entry(newId, householdId, adjustmentAmount, Sentinel, createdAt, InitialBalance)
        == SetEntryThrough(before, householdId, inputVal, now, newId, createdAt);
    ledger.Insert(Entry(newId, householdId, adjustmentAmount, Sentinel, createdAt, InitialBalance));
  }

  /**
   * After the corrected set mode the footer of the current month, and so
   * the card, shows exactly the typed figure, whatever rows lie ahead.
   */
  lemma SetThroughIsExact(rows: seq<Entry>, h: string, inputVal: int, now: Date, newId: string, createdAt: int)
    requires Valid(now) && NotAfter(Sentinel, MonthWindow(now).1)
    ensures ClosingBalance(AfterSetThrough(rows, h, inputVal, now, newId, createdAt), h, now) == inputVal
  {
    var w := WithoutAdjustments(rows, h);
    var x := SetEntryThrough(rows, h, inputVal, now, newId, createdAt);
    var q := [HouseholdIs(h), DateUpTo(MonthWindow(now).1)];
    MatchesEach(q, x);
    SelectAppendSum(w, x, q);
    ClosingIsCumulative(w + [x], h, now);
  }

  /**
   * When no row of the household is dated after the month, the corrected
   * set mode and set mode as written write the same table.
   */
  lemma SetThroughAgrees(rows: seq<Entry>, h: string, inputVal: int, now: Date, newId: string, createdAt: int)
    requires Valid(now)
    requires forall e :: e in rows && e.household == h ==> NotAfter(e.date, MonthWindow(now).1)
    ensures AfterSetThrough(rows, h, inputVal, now, newId, createdAt) == AfterSet(rows, h, inputVal, newId, createdAt)
  {
    var w := WithoutAdjustments(rows, h);
    var bounded := [HouseholdIs(h), DateUpTo(MonthWindow(now).1)];
    WithoutAdjustmentsMembers(rows, h);
    forall e | e in w
      ensures MatchesAll(bounded, e) == MatchesAll([HouseholdIs(h)], e)
    {
      MatchesEach(bounded, e);
      MatchesEach([HouseholdIs(h)], e);
    }
    KeepSameFilter(w, bounded, [HouseholdIs(h)], true);
  }

  /**
   * Set mode as written does fix the current month's footer when no row of
   * the household is dated after that month.
   */
  lemma SetFixesClosing(rows: seq<Entry>, h: string, inputVal: int, now: Date, newId: string, createdAt: int)
    requires Valid(now) && NotAfter(Sentinel, MonthWindow(now).1)
    requires forall e :: e in rows && e.household == h ==> NotAfter(e.date, MonthWindow(now).1)
    ensures ClosingBalance(AfterSet(rows, h, inputVal, newId, createdAt), h, now) == inputVal
  {
    SetThroughAgrees(rows, h, inputVal, now, newId, createdAt);
    SetThroughIsExact(rows, h, inputVal, now, newId, createdAt);
  }
}
