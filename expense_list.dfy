/**
 * The expense history: the household's rows grouped by date, the dates
 * listed newest first, and deletion of a row from the list.
 */
module ExpenseList {
  import opened Calendar
  import opened Store

  /** No date appears twice. */
  predicate Distinct(s: seq<Date>) {
    forall i, j :: 0 <= i < j < |s| ==> s[i] != s[j]
  }

  /** The rows dated `d`, in the order they come in `s`. */
  function OnDate(s: seq<Entry>, d: Date): (r: seq<Entry>)
    ensures |r| <= |s|
  {
    if s == [] then []
    else
      var last := s[|s| - 1];
      OnDate(s[..|s| - 1], d) + (if last.date == d then [last] else [])
  }

  /** Every row lands in the group of its own date and in no other. */
  lemma {:induction false} OnDateMembers(s: seq<Entry>, d: Date)
    ensures forall e :: e in OnDate(s, d) <==> e in s && e.date == d
  {
    if s != [] {
      OnDateMembers(s[..|s| - 1], d);
      assert s == s[..|s| - 1] + [s[|s| - 1]];
    }
  }

  /** Filtering by date keeps the relative order: it distributes over concatenation. */
  lemma {:induction false} OnDateAppend(a: seq<Entry>, b: seq<Entry>, d: Date)
    ensures OnDate(a + b, d) == OnDate(a, d) + OnDate(b, d)
  {
    if b == [] {
      assert a + b == a;
    } else {
      assert (a + b)[..|a + b| - 1] == a + b[..|b| - 1];
      OnDateAppend(a, b[..|b| - 1], d);
    }
  }

  /** The dates of `s`, each once, in the order they first appear (the key order of the grouping object). */
  function FirstAppearance(s: seq<Entry>): (r: seq<Date>)
    ensures Distinct(r)
  {
    if s == [] then []
    else
      var keys := FirstAppearance(s[..|s| - 1]);
      if s[|s| - 1].date in keys then keys else keys + [s[|s| - 1].date]
  }

  /** The keys are exactly the dates of the rows. */
  lemma {:induction false} FirstAppearanceMembers(s: seq<Entry>)
    ensures forall d :: d in FirstAppearance(s) <==> exists e :: e in s && e.date == d
  {
    if s != [] {
      var init, last := s[..|s| - 1], s[|s| - 1];
      FirstAppearanceMembers(init);
      assert forall e :: e in s <==> e in init || e == last by {
        assert s == init + [last];
      }
    }
  }

  /** What one more row does to the date filters and to the key order. */
  lemma AppendOne(s: seq<Entry>, e: Entry)
    ensures forall d :: OnDate(s + [e], d) == OnDate(s, d) + (if e.date == d then [e] else [])
    ensures FirstAppearance(s + [e]) ==
      if e.date in FirstAppearance(s) then FirstAppearance(s) else FirstAppearance(s) + [e.date]
  {
    assert (s + [e])[..|s|] == s;
  }

  /** A date that is not yet a key has no rows. */
  lemma NoKeyNoRows(s: seq<Entry>, d: Date)
    requires d !in FirstAppearance(s)
    ensures OnDate(s, d) == []
  {
    FirstAppearanceMembers(s);
    OnDateMembers(s, d);
  }

  /**
   * The `groupedExpenses` reduce: one list per date, each holding that
   * date's rows in their input order, keyed in order of first appearance.
   */
  method GroupByDate(expenses: seq<Entry>) returns (groups: map<Date, seq<Entry>>, keys: seq<Date>)
    ensures keys == FirstAppearance(expenses)
    ensures forall d :: d in groups <==> d in keys
    ensures forall d :: d in groups ==> groups[d] == OnDate(expenses, d)
  {
    groups, keys := map[], [];
    for i := 0 to |expenses|
      invariant keys == FirstAppearance(expenses[..i])
      invariant forall d :: d in groups <==> d in keys
      invariant forall d :: d in groups ==> groups[d] == OnDate(expenses[..i], d)
    {
      var expense := expenses[i];
      var date := expense.date;
      ghost var seen := expenses[..i];
      assert expenses[..i + 1] == seen + [expense];
      AppendOne(seen, expense);
      if date !in groups {
        NoKeyNoRows(seen, date);
        groups := groups[date := []];
        keys := keys + [date];
      }
      groups := groups[date := groups[date] + [expense]];
      forall d | d in groups
        ensures groups[d] == OnDate(seen + [expense], d)
      {
        assert OnDate(seen + [expense], d) == OnDate(seen, d) + (if date == d then [expense] else []);
      }
    }
    assert expenses[..|expenses|] == expenses;
  }

  /** How many times `d` occurs in `keys`. */
  function Hits(keys: seq<Date>, d: Date): nat {
    if keys == [] then 0
    else Hits(keys[..|keys| - 1], d) + (if keys[|keys| - 1] == d then 1 else 0)
  }

  lemma {:induction false} HitsAbsent(keys: seq<Date>, d: Date)
    requires d !in keys
    ensures Hits(keys, d) == 0
  {
    if keys != [] {
      assert keys[..|keys| - 1] <= keys;
      HitsAbsent(keys[..|keys| - 1], d);
    }
  }

  /** A date in a list without repeats occurs there exactly once. */
  lemma {:induction false} HitsOnce(keys: seq<Date>, d: Date)
    requires Distinct(keys) && d in keys
    ensures Hits(keys, d) == 1
  {
    var init, last := keys[..|keys| - 1], keys[|keys| - 1];
    assert keys == init + [last];
    if last == d {
      HitsAbsent(init, d);
    } else {
      HitsOnce(init, d);
    }
  }

  /** Total size of the groups listed under `keys`. */
  function GroupedCount(s: seq<Entry>, keys: seq<Date>): nat {
    if keys == [] then 0
    else GroupedCount(s, keys[..|keys| - 1]) + |OnDate(s, keys[|keys| - 1])|
  }

  /** One more row adds one to every group whose key is its date. */
  lemma {:induction false} GroupedCountStep(s: seq<Entry>, e: Entry, keys: seq<Date>)
    ensures GroupedCount(s + [e], keys) == GroupedCount(s, keys) + Hits(keys, e.date)
  {
    if keys != [] {
      GroupedCountStep(s, e, keys[..|keys| - 1]);
      assert (s + [e])[..|s|] == s;
    }
  }

  /** When the keys are distinct and cover every row's date, the group sizes add up to the number of rows. */
  lemma {:induction false} GroupedCountCovers(s: seq<Entry>, keys: seq<Date>)
    requires Distinct(keys)
    requires forall e :: e in s ==> e.date in keys
    ensures GroupedCount(s, keys) == |s|
  {
    if s == [] {
      GroupedCountEmpty(keys);
    } else {
      var init, last := s[..|s| - 1], s[|s| - 1];
      assert s == init + [last];
      GroupedCountCovers(init, keys);
      GroupedCountStep(init, last, keys);
      HitsOnce(keys, last.date);
    }
  }

  lemma {:induction false} GroupedCountEmpty(keys: seq<Date>)
    ensures GroupedCount([], keys) == 0
  {
    if keys != [] {
      GroupedCountEmpty(keys[..|keys| - 1]);
    }
  }

  /** Grouping neither loses nor duplicates a row: the group sizes sum to the input length. */
  lemma NothingLostOrDuplicated(expenses: seq<Entry>)
    ensures GroupedCount(expenses, FirstAppearance(expenses)) == |expenses|
  {
    FirstAppearanceMembers(expenses);
    GroupedCountCovers(expenses, FirstAppearance(expenses));
  }

  // ---------------------------------------------------------------------
  // `sortedDates`: the keys, newest first
  // ---------------------------------------------------------------------

  /** Newest first: no date is followed by a later one. */
  predicate Descending(s: seq<Date>) {
    forall i, j :: 0 <= i < j < |s| ==> NotAfter(s[j], s[i])
  }

  predicate StrictlyDescending(s: seq<Date>) {
    forall i, j :: 0 <= i < j < |s| ==> Before(s[j], s[i])
  }

  function InsertDescending(d: Date, s: seq<Date>): (r: seq<Date>)
    requires Descending(s)
    ensures Descending(r)
    ensures forall x :: x in r <==> x == d || x in s
  {
    if s == [] || NotAfter(s[0], d) then [d] + s
    else
      assert s == [s[0]] + s[1..];
      var rest := InsertDescending(d, s[1..]);
      assert forall x :: x in rest ==> NotAfter(x, s[0]) by {
        forall x | x in rest
          ensures NotAfter(x, s[0])
        {
          if x != d {
            var k :| 0 <= k < |s[1..]| && s[1..][k] == x;
            assert s[k + 1] == x;
          }
        }
      }
      var r := [s[0]] + rest;
      assert Descending(r) by {
        forall i, j | 0 <= i < j < |r|
          ensures NotAfter(r[j], r[i])
        {
          if i == 0 {
            assert r[j] in rest;
          } else {
            assert r[i] == rest[i - 1] && r[j] == rest[j - 1];
          }
        }
      }
      r
  }

  lemma {:induction false} InsertDescendingPermutes(d: Date, s: seq<Date>)
    requires Descending(s)
    ensures multiset(InsertDescending(d, s)) == multiset(s) + multiset{d}
  {
    if s != [] && !NotAfter(s[0], d) {
      InsertDescendingPermutes(d, s[1..]);
      assert s == [s[0]] + s[1..];
    }
  }

  /** The `sort` of the keys with a newest-first comparator. */
  function SortDescending(s: seq<Date>): (r: seq<Date>)
    ensures Descending(r)
    ensures forall x :: x in r <==> x in s
    ensures multiset(r) == multiset(s)
  {
    if s == [] then [] else
      assert s == s[..|s| - 1] + [s[|s| - 1]];
      var init := SortDescending(s[..|s| - 1]);
      InsertDescendingPermutes(s[|s| - 1], init);
      InsertDescending(s[|s| - 1], init)
  }

  /** A value found at two positions is counted at least twice. */
  lemma RepeatCounts(s: seq<Date>, i: int, j: int)
    requires 0 <= i < j < |s|
    ensures multiset(s)[s[j]] >= if s[i] == s[j] then 2 else 1
  {
    assert s == s[..j] + [s[j]] + s[j + 1..];
    assert s[..j][i] == s[i];
  }

  /** A sequence in which a value occurs at most once (by count) has no repeats. */
  lemma CountsMeanDistinct(s: seq<Date>)
    requires forall x :: multiset(s)[x] <= 1
    ensures Distinct(s)
  {
    forall i, j | 0 <= i < j < |s|
      ensures s[i] != s[j]
    {
      RepeatCounts(s, i, j);
    }
  }

  /** A sequence without repeats has every count at most one. */
  lemma {:induction false} DistinctMeansCounts(s: seq<Date>)
    requires Distinct(s)
    ensures forall x :: multiset(s)[x] <= 1
  {
    if s != [] {
      var init, last := s[..|s| - 1], s[|s| - 1];
      assert s == init + [last];
      DistinctMeansCounts(init);
    }
  }

  /** Sorting distinct keys lists each exactly once, strictly newest first. */
  lemma SortedKeysStrict(s: seq<Date>)
    requires Distinct(s)
    ensures StrictlyDescending(SortDescending(s))
  {
    var r := SortDescending(s);
    DistinctMeansCounts(s);
    CountsMeanDistinct(r);
  }

  /**
   * What the list shows: the groups, and the dates that head them, each
   * date of the input once and newest first.
   */
  method History(expenses: seq<Entry>) returns (groups: map<Date, seq<Entry>>, sortedDates: seq<Date>)
    ensures StrictlyDescending(sortedDates)
    ensures forall d :: d in sortedDates <==> exists e :: e in expenses && e.date == d
    ensures forall d :: d in groups <==> d in sortedDates
    ensures forall d :: d in groups ==> groups[d] == OnDate(expenses, d)
  {
    var keys;
    groups, keys := GroupByDate(expenses);
    sortedDates := SortDescending(keys);
    SortedKeysStrict(keys);
    FirstAppearanceMembers(expenses);
  }

  // ---------------------------------------------------------------------
  // Deleting a row from the list
  // ---------------------------------------------------------------------

  /** The list after `expenses.filter(e => e.id !== id)`. */
  function WithoutId(expenses: seq<Entry>, id: string): seq<Entry> {
    Keep(expenses, [IdIs(id)], false)
  }

  /**
   * The filter removes exactly the rows with that id, keeps the others in
   * their order, and changes nothing when no row has the id.
   */
  lemma WithoutIdMeaning(expenses: seq<Entry>, id: string, a: seq<Entry>, b: seq<Entry>)
    ensures forall e :: e in WithoutId(expenses, id) <==> e in expenses && e.id != id
    ensures WithoutId(a + b, id) == WithoutId(a, id) + WithoutId(b, id)
    ensures (forall e :: e in expenses ==> e.id != id) ==> WithoutId(expenses, id) == expenses
  {
    KeepMembers(expenses, [IdIs(id)], false);
    forall e: Entry
      ensures MatchesAll([IdIs(id)], e) <==> e.id == id
    {
      MatchesEach([IdIs(id)], e);
    }
    KeepAppend(a, b, [IdIs(id)], false);
    if forall e :: e in expenses ==> e.id != id {
      forall i | 0 <= i < |expenses|
        ensures !MatchesAll([IdIs(id)], expenses[i])
      {
        assert expenses[i] in expenses;
      }
      KeepNoneMatch(expenses, [IdIs(id)]);
    }
  }

  /**
   * `handleDelete`: nothing happens unless the user confirms; the store
   * deletes every row with the id; the list drops them only when the store
   * reports no error (`deleteFailed` stands for that reply).
   */
  method HandleDelete(ledger: Ledger, expenses: seq<Entry>, id: string, confirmed: bool, deleteFailed: bool)
    returns (shown: seq<Entry>)
    modifies ledger
    ensures !confirmed ==> shown == expenses && ledger.rows == old(ledger.rows)
    ensures confirmed && deleteFailed ==> shown == expenses && ledger.rows == old(ledger.rows)
    ensures confirmed && !deleteFailed ==>
      shown == WithoutId(expenses, id) && ledger.rows == Keep(old(ledger.rows), [IdIs(id)], false)
  {
    shown := expenses;
    if !confirmed {
      return;
    }
    if !deleteFailed {
      ledger.Delete([IdIs(id)]);
      shown := WithoutId(expenses, id);
    }
  }
}
