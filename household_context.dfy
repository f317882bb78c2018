/**
 * Which household the app shows: the one the user last chose, if it is
 * still active, otherwise the user's first active household, otherwise
 * none. The last choice is remembered per user in the browser's storage.
 */
module HouseholdContext {
  import opened Wrappers

  /**
   * One of the user's memberships. `archived` is the household's
   * `is_archived` flag; it is absent when the household row or the flag is
   * missing, and then the household counts as active.
   */
  datatype Membership = Membership(householdId: string, archived: Option<bool>)

  predicate IsActive(m: Membership) {
    m.archived != Some(true)
  }

  /** `memberships.filter(m => !m.households?.is_archived)`, in membership order. */
  function ActiveHouseholds(ms: seq<Membership>): (r: seq<Membership>)
    ensures forall m :: m in r <==> m in ms && IsActive(m)
  {
    if ms == [] then []
    else
      assert ms == ms[..|ms| - 1] + [ms[|ms| - 1]];
      ActiveHouseholds(ms[..|ms| - 1]) + (if IsActive(ms[|ms| - 1]) then [ms[|ms| - 1]] else [])
  }

  /** The filter keeps the first active membership at its head. */
  lemma {:induction false} FirstActive(ms: seq<Membership>, k: nat)
    requires k < |ms| && IsActive(ms[k])
    requires forall j :: 0 <= j < k ==> !IsActive(ms[j])
    ensures ActiveHouseholds(ms) != [] && ActiveHouseholds(ms)[0] == ms[k]
  {
    var init := ms[..|ms| - 1];
    if k < |ms| - 1 {
      FirstActive(init, k);
    } else {
      assert forall m :: m in init ==> !IsActive(m) by {
        forall m | m in init
          ensures !IsActive(m)
        {
          var j :| 0 <= j < |init| && init[j] == m;
          assert ms[j] == m;
        }
      }
      NoneActive(init);
    }
  }

  lemma {:induction false} NoneActive(ms: seq<Membership>)
    requires forall m :: m in ms ==> !IsActive(m)
    ensures ActiveHouseholds(ms) == []
  {
    if ms != [] {
      assert ms[|ms| - 1] in ms;
      assert forall m :: m in ms[..|ms| - 1] ==> m in ms;
      NoneActive(ms[..|ms| - 1]);
    }
  }

  /** The storage key of the last choice: `last_household_${user?.id}`. */
  function SavedKey(user: Option<string>): string {
    "last_household_" + match user { case Some(u) => u case None => "undefined" }
  }

  /** Different users remember their choices under different keys. */
  lemma SavedKeyInjective(u1: string, u2: string)
    requires u1 != u2
    ensures SavedKey(Some(u1)) != SavedKey(Some(u2))
  {
    var p := "last_household_";
    assert SavedKey(Some(u1))[|p|..] == u1;
    assert SavedKey(Some(u2))[|p|..] == u2;
  }

  /**
   * `refreshHouseholds`: the household selected for `user` given its
   * memberships and the browser's storage.
   */
  function SelectHousehold(user: Option<string>, memberships: seq<Membership>, storage: map<string, string>): (r: Option<string>)
    ensures user.None? ==> r == None
    ensures r.Some? ==> exists m :: m in memberships && IsActive(m) && m.householdId == r.value
    ensures user.Some? && (forall m :: m in memberships ==> !IsActive(m)) ==> r == None
  {
    if user.None? then None
    else
      var active := ActiveHouseholds(memberships);
      var savedKey := SavedKey(user);
      var isValidSavedId := savedKey in storage && exists m :: m in active && m.householdId == storage[savedKey];
      if isValidSavedId then Some(storage[savedKey])
      else if |active| > 0 then
        assert active[0] in active;
        Some(active[0].householdId)
      else None
  }

  /** A remembered household that is still active is selected again. */
  lemma SavedChoiceWins(u: string, memberships: seq<Membership>, storage: map<string, string>, m: Membership)
    requires SavedKey(Some(u)) in storage
    requires m in memberships && IsActive(m) && m.householdId == storage[SavedKey(Some(u))]
    ensures SelectHousehold(Some(u), memberships, storage) == Some(m.householdId)
  {
  }

  /**
   * Without a valid remembered choice, the first active membership in
   * membership order is selected.
   */
  lemma FirstActiveOtherwise(u: string, memberships: seq<Membership>, storage: map<string, string>, k: nat)
    requires k < |memberships| && IsActive(memberships[k])
    requires forall j :: 0 <= j < k ==> !IsActive(memberships[j])
    requires SavedKey(Some(u)) !in storage ||
      forall m :: m in memberships && IsActive(m) ==> m.householdId != storage[SavedKey(Some(u))]
    ensures SelectHousehold(Some(u), memberships, storage) == Some(memberships[k].householdId)
  {
    FirstActive(memberships, k);
  }

  /** The context's state: the selected household and the browser's storage. */
  datatype State = State(current: Option<string>, storage: map<string, string>)

  /**
   * `setCurrentHouseholdId`: the selection becomes `id`, and a non-null,
   * non-empty id is also remembered under the user's key.
   */
  function SetCurrent(s: State, user: Option<string>, id: Option<string>): (r: State)
    ensures r.current == id
    ensures id.None? || id == Some("") ==> r.storage == s.storage
    ensures id.Some? && id.value != "" ==>
      SavedKey(user) in r.storage && r.storage[SavedKey(user)] == id.value
    ensures forall k :: k != SavedKey(user) ==> (k in r.storage <==> k in s.storage)
    ensures forall k :: k != SavedKey(user) && k in s.storage ==> r.storage[k] == s.storage[k]
  {
    match id
    case Some(v) =>
      if v != "" then State(id, s.storage[SavedKey(user) := v]) else State(id, s.storage)
    case None => State(id, s.storage)
  }

  /** `refreshHouseholds` as a state change: only the selection moves. */
  function Refresh(s: State, user: Option<string>, memberships: seq<Membership>): (r: State)
    ensures r.storage == s.storage
    ensures r.current == SelectHousehold(user, memberships, s.storage)
  {
    State(SelectHousehold(user, memberships, s.storage), s.storage)
  }

  /**
   * Choosing an active household and reloading brings the same household
   * back, and another user's remembered choice is unaffected.
   */
  lemma ChooseThenRefresh(s: State, u: string, memberships: seq<Membership>, m: Membership, other: string)
    requires m in memberships && IsActive(m) && m.householdId != ""
    requires other != u
    ensures Refresh(SetCurrent(s, Some(u), Some(m.householdId)), Some(u), memberships).current == Some(m.householdId)
    ensures var t := SetCurrent(s, Some(u), Some(m.householdId));
      SavedKey(Some(other)) in t.storage <==> SavedKey(Some(other)) in s.storage
  {
    var t := SetCurrent(s, Some(u), Some(m.householdId));
    SavedChoiceWins(u, memberships, t.storage, m);
    SavedKeyInjective(other, u);
  }
}
