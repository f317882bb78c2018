/**
 * The `expenses` table every screen reads and writes, held in memory.
 *
 * Sign convention: a positive `amount` is an expense, a negative one is
 * income, and the balance shown to a household is minus the sum of its
 * amounts.
 */
module Store {
  import opened Wrappers
  import opened Calendar

  /** One row of the table. `createdAt` is the insertion timestamp, used to order rows of the same day. */
  datatype Entry = Entry(
    id: string,
    household: string,
    amount: int,
    date: Date,
    createdAt: int,
    description: string)

  /** Σ amount, accumulated front to back as the screens' loops do. */
  function Sum(s: seq<Entry>): int {
    if s == [] then 0 else Sum(s[..|s| - 1]) + s[|s| - 1].amount
  }

  /** Total of the incomes, each counted by its magnitude. */
  function Income(s: seq<Entry>): (r: int)
    ensures r >= 0
  {
    if s == [] then 0
    else Income(s[..|s| - 1]) + (if s[|s| - 1].amount < 0 then Abs(s[|s| - 1].amount) else 0)
  }

  /** Total of the expenses (rows with a non-negative amount). */
  function Expense(s: seq<Entry>): (r: int)
    ensures r >= 0
  {
    if s == [] then 0
    else Expense(s[..|s| - 1]) + (if s[|s| - 1].amount < 0 then 0 else s[|s| - 1].amount)
  }

  /** The `forEach` that adds up the amounts of a query's rows. */
  method SumAmounts(s: seq<Entry>) returns (total: int)
    ensures total == Sum(s)
  {
    total := 0;
    for i := 0 to |s|
      invariant total == Sum(s[..i])
    {
      assert s[..i + 1][..i] == s[..i];
      total := total + s[i].amount;
    }
    assert s[..|s|] == s;
  }

  lemma {:induction false} SumAppend(a: seq<Entry>, b: seq<Entry>)
    ensures Sum(a + b) == Sum(a) + Sum(b)
  {
    if b != [] {
      assert (a + b)[..|a + b| - 1] == a + b[..|b| - 1];
      SumAppend(a, b[..|b| - 1]);
    } else {
      assert a + b == a;
    }
  }

  /** Income minus expense is the balance: minus the sum of the amounts. */
  lemma {:induction false} IncomeMinusExpense(s: seq<Entry>)
    ensures Income(s) - Expense(s) == -Sum(s)
  {
    if s != [] {
      IncomeMinusExpense(s[..|s| - 1]);
    }
  }

  /** One filter of a store query or delete (`.eq`, `.lt`, `.gte`, `.lte`). */
  datatype Condition =
    | HouseholdIs(household: string)
    | IdIs(id: string)
    | DescriptionIs(text: string)
    | DateBefore(bound: Date)
    | DateFrom(bound: Date)
    | DateUpTo(bound: Date)

  predicate Holds(c: Condition, e: Entry) {
    match c
    case HouseholdIs(h) => e.household == h
    case IdIs(id) => e.id == id
    case DescriptionIs(t) => e.description == t
    case DateBefore(d) => Before(e.date, d)
    case DateFrom(d) => NotAfter(d, e.date)
    case DateUpTo(d) => NotAfter(e.date, d)
  }

  /** A row matches a query when it meets every one of its filters. */
  predicate MatchesAll(cs: seq<Condition>, e: Entry) {
    cs == [] || (Holds(cs[0], e) && MatchesAll(cs[1..], e))
  }

  /** A row matches a query exactly when it meets each filter in it. */
  lemma {:induction false} MatchesEach(cs: seq<Condition>, e: Entry)
    ensures MatchesAll(cs, e) <==> forall i :: 0 <= i < |cs| ==> Holds(cs[i], e)
  {
    if cs != [] {
      MatchesEach(cs[1..], e);
      assert forall i :: 1 <= i < |cs| ==> cs[i] == cs[1..][i - 1];
    }
  }

  /**
   * The rows, in table order, that match `cs` (`want`) or do not (`!want`):
   * `Keep(rows, cs, true)` is what a query returns, `Keep(rows, cs, false)`
   * what a delete leaves behind.
   */
  function Keep(rows: seq<Entry>, cs: seq<Condition>, want: bool): (r: seq<Entry>)
    ensures |r| <= |rows|
  {
    if rows == [] then []
    else
      var last := rows[|rows| - 1];
      Keep(rows[..|rows| - 1], cs, want) + (if MatchesAll(cs, last) == want then [last] else [])
  }

  /** `Keep` drops exactly the rows on the wrong side of the filters. */
  lemma {:induction false} KeepMembers(rows: seq<Entry>, cs: seq<Condition>, want: bool)
    ensures forall e :: e in Keep(rows, cs, want) <==> e in rows && MatchesAll(cs, e) == want
  {
    if rows != [] {
      var init, last := rows[..|rows| - 1], rows[|rows| - 1];
      KeepMembers(init, cs, want);
      assert rows == init + [last];
    }
  }

  /** Two filters that agree on every row keep the same rows. */
  lemma {:induction false} KeepSameFilter(rows: seq<Entry>, cs1: seq<Condition>, cs2: seq<Condition>, want: bool)
    requires forall e :: e in rows ==> MatchesAll(cs1, e) == MatchesAll(cs2, e)
    ensures Keep(rows, cs1, want) == Keep(rows, cs2, want)
  {
    if rows != [] {
      var init, last := rows[..|rows| - 1], rows[|rows| - 1];
      assert forall e :: e in init ==> e in rows;
      assert last in rows;
      KeepSameFilter(init, cs1, cs2, want);
    }
  }

  /** The rows a query with filters `cs` returns. */
  function Select(rows: seq<Entry>, cs: seq<Condition>): seq<Entry> {
    Keep(rows, cs, true)
  }

  lemma {:induction false} KeepAppend(a: seq<Entry>, b: seq<Entry>, cs: seq<Condition>, want: bool)
    ensures Keep(a + b, cs, want) == Keep(a, cs, want) + Keep(b, cs, want)
  {
    if b == [] {
      assert a + b == a;
    } else {
      assert (a + b)[..|a + b| - 1] == a + b[..|b| - 1];
      KeepAppend(a, b[..|b| - 1], cs, want);
    }
  }

  /** A row appended to the table adds its amount to the sum of every query it matches, and nothing to the others. */
  lemma SelectAppendSum(rows: seq<Entry>, e: Entry, cs: seq<Condition>)
    ensures Sum(Select(rows + [e], cs)) == Sum(Select(rows, cs)) + (if MatchesAll(cs, e) then e.amount else 0)
  {
    assert (rows + [e])[..|rows|] == rows;
    var kept := Select(rows, cs);
    if MatchesAll(cs, e) {
      assert (kept + [e])[..|kept|] == kept;
    } else {
      assert kept + [] == kept;
    }
  }

  /**
   * When every row matching `whole` matches exactly one of `part1` and
   * `part2` (and a row matching either matches `whole`), the sum over
   * `whole` splits into the two sums.
   */
  lemma {:induction false} SumSplit(rows: seq<Entry>, whole: seq<Condition>, part1: seq<Condition>, part2: seq<Condition>)
    requires forall i :: 0 <= i < |rows| ==>
      (MatchesAll(whole, rows[i]) <==> MatchesAll(part1, rows[i]) || MatchesAll(part2, rows[i]))
    requires forall i :: 0 <= i < |rows| ==> !(MatchesAll(part1, rows[i]) && MatchesAll(part2, rows[i]))
    ensures Sum(Select(rows, whole)) == Sum(Select(rows, part1)) + Sum(Select(rows, part2))
  {
    if rows != [] {
      var init, last := rows[..|rows| - 1], rows[|rows| - 1];
      SumSplit(init, whole, part1, part2);
      var tail1 := if MatchesAll(part1, last) then [last] else [];
      var tail2 := if MatchesAll(part2, last) then [last] else [];
      var tailW := if MatchesAll(whole, last) then [last] else [];
      SumAppend(Select(init, whole), tailW);
      SumAppend(Select(init, part1), tail1);
      SumAppend(Select(init, part2), tail2);
    }
  }

  /** A delete whose filters match no row leaves the table as it is, and the matching query is empty. */
  lemma {:induction false} KeepNoneMatch(rows: seq<Entry>, cs: seq<Condition>)
    requires forall i :: 0 <= i < |rows| ==> !MatchesAll(cs, rows[i])
    ensures Keep(rows, cs, false) == rows
    ensures Keep(rows, cs, true) == []
  {
    if rows != [] {
      var init, last := rows[..|rows| - 1], rows[|rows| - 1];
      KeepNoneMatch(init, cs);
      assert !MatchesAll(cs, last);
      assert Keep(rows, cs, false) == init + [last];
      assert init + [last] == rows;
      assert Keep(rows, cs, true) == [] + [];
    }
  }

  /**
   * A delete with filters `cs` does not change what a query with filters
   * `sel` returns, when no row the query returns is one the delete matches.
   */
  lemma {:induction false} DeleteLeavesQuery(rows: seq<Entry>, cs: seq<Condition>, sel: seq<Condition>)
    requires forall i :: 0 <= i < |rows| ==> MatchesAll(sel, rows[i]) ==> !MatchesAll(cs, rows[i])
    ensures Select(Keep(rows, cs, false), sel) == Select(rows, sel)
  {
    if rows != [] {
      var init, last := rows[..|rows| - 1], rows[|rows| - 1];
      DeleteLeavesQuery(init, cs, sel);
      var kept := Keep(init, cs, false);
      if !MatchesAll(cs, last) {
        assert (kept + [last])[..|kept|] == kept;
      } else {
        assert kept + [] == kept;
      }
    }
  }

  /** A household's own rows. */
  function HouseholdRows(rows: seq<Entry>, h: string): seq<Entry> {
    Select(rows, [HouseholdIs(h)])
  }

  /**
   * The all-time balance of household `h`: minus the sum of all its amounts.
   * Set mode aims at this figure; the screens show it only as far as the
   * current month's last day.
   */
  function TotalBalance(rows: seq<Entry>, h: string): int {
    -Sum(HouseholdRows(rows, h))
  }

  /** Appending a row of household `h` lowers its balance by the row's amount; other households' balances stay. */
  lemma AppendEffectOnBalance(rows: seq<Entry>, h: string, e: Entry)
    ensures TotalBalance(rows + [e], h) == TotalBalance(rows, h) - (if e.household == h then e.amount else 0)
  {
    SelectAppendSum(rows, e, [HouseholdIs(h)]);
    MatchesEach([HouseholdIs(h)], e);
  }

  /** `update(...).eq('id', id)`: every row with that id gets the new description, amount and date. */
  function UpdateById(rows: seq<Entry>, id: string, description: string, amount: int, date: Date): (r: seq<Entry>)
    ensures |r| == |rows|
    ensures forall i :: 0 <= i < |rows| && rows[i].id != id ==> r[i] == rows[i]
    ensures forall i :: 0 <= i < |rows| && rows[i].id == id ==>
      r[i] == rows[i].(description := description, amount := amount, date := date)
  {
    seq(|rows|, i requires 0 <= i < |rows| =>
      if rows[i].id == id then rows[i].(description := description, amount := amount, date := date)
      else rows[i])
  }

  /** The table. Each method is one committed store call. */
  class Ledger {
    var rows: seq<Entry>

    constructor (initial: seq<Entry>)
      ensures rows == initial
    {
      rows := initial;
    }

    /** `select ... where cs`, in table order. */
    function Query(cs: seq<Condition>): (r: seq<Entry>)
      reads this
      ensures forall e :: e in r <==> e in rows && MatchesAll(cs, e)
    {
      KeepMembers(rows, cs, true);
      Select(rows, cs)
    }

    method Insert(e: Entry)
      modifies this
      ensures rows == old(rows) + [e]
    {
      rows := rows + [e];
    }

    /** `delete ... where cs`. */
    method Delete(cs: seq<Condition>)
      modifies this
      ensures rows == Keep(old(rows), cs, false)
    {
      rows := Keep(rows, cs, false);
    }

    method Update(id: string, description: string, amount: int, date: Date)
      modifies this
      ensures rows == UpdateById(old(rows), id, description, amount, date)
    {
      rows := UpdateById(rows, id, description, amount, date);
    }
  }
}
