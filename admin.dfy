/**
 * The admin dashboard's delete action (src/app/admin/page.tsx): drop a user from the
 * directory, erase that user's ledger and budget keys, and reload the system-wide list.
 */
module Admin {
  import opened Types
  import opened Storage
  import opened Auth
  import opened Sorting
  import opened Ledger

  /** `users.filter(u => u.id !== userId)`. */
  function WithoutUser(users: seq<User>, userId: string): (r: seq<User>)
    ensures |r| <= |users|
    ensures forall u :: u in r <==> u in users && u.id != userId
    decreases |users|
  {
    if users == [] then []
    else
      var rest := WithoutUser(users[1..], userId);
      assert users == [users[0]] + users[1..];
      if users[0].id == userId then rest else [users[0]] + rest
  }

  /** The filter works piece by piece, so it keeps the relative order of the users it keeps. */
  lemma {:induction false} WithoutUserOfConcat(a: seq<User>, b: seq<User>, userId: string)
    ensures WithoutUser(a + b, userId) == WithoutUser(a, userId) + WithoutUser(b, userId)
    decreases |a|
  {
    if a == [] {
      assert a + b == b;
    } else {
      assert (a + b)[1..] == a[1..] + b;
      WithoutUserOfConcat(a[1..], b, userId);
    }
  }

  /** Deleting an id nobody has leaves the directory as it is. */
  lemma {:induction false} WithoutAbsentUser(users: seq<User>, userId: string)
    requires forall i :: 0 <= i < |users| ==> users[i].id != userId
    ensures WithoutUser(users, userId) == users
    decreases |users|
  {
    if users != [] {
      WithoutAbsentUser(users[1..], userId);
    }
  }

  /**
   * Deleting a user who is not an admin (the table offers no delete button for
   * admins) keeps every admin account.
   */
  lemma DeleteKeepsAdmins(users: seq<User>, userId: string)
    requires forall u :: u in users && u.id == userId ==> !u.isAdmin
    ensures forall u :: u in users && u.isAdmin ==> u in WithoutUser(users, userId)
  {
  }

  /**
   * The storage state after a confirmed delete: the directory is filtered and the user's
   * ledger and budget keys are gone; the session key and every other key keep their
   * entries.
   */
  function AfterDelete(m: map<string, Entry>, userId: string): (r: map<string, Entry>)
    requires WellFormed(m)
    ensures WellFormed(r)
    ensures LedgerKey(userId) !in r && BudgetKey(userId) !in r
    ensures Directory(r) == WithoutUser(Directory(m), userId)
    ensures Session(r) == Session(m)
    ensures forall k :: k != UsersKey && k != LedgerKey(userId) && k != BudgetKey(userId) ==>
      (k in r <==> k in m) && (k in m ==> r[k] == m[k])
  {
    KeyFamiliesDisjoint(userId, userId);
    FixedKeysOutsideFamilies();
    m[UsersKey := UserList(WithoutUser(Directory(m), userId))] - {LedgerKey(userId), BudgetKey(userId)}
  }

  /**
   * After the delete, everything the system-wide list gathers comes from a ledger other
   * than the deleted user's, stored before the delete.
   */
  lemma DeletedLedgerGone(m: map<string, Entry>, userId: string, keys: seq<string>, t: Transaction)
    requires WellFormed(m)
    requires t in Gather(AfterDelete(m, userId), keys)
    ensures exists k :: k != LedgerKey(userId) && HoldsIn(m, k, t)
  {
    var after := AfterDelete(m, userId);
    GatherSource(after, keys, t);
    var j :| 0 <= j < |keys| && HoldsIn(after, keys[j], t);
    FixedKeysOutsideFamilies();
    assert keys[j] != UsersKey;
    assert HoldsIn(m, keys[j], t);
  }

  /** The delete's four storage steps, seed included, end in `AfterDelete`. */
  lemma DeleteSteps(m: map<string, Entry>, userId: string)
    requires WellFormed(m)
    ensures WellFormed(Seeded(m)) && Directory(Seeded(m)) == Directory(m)
    ensures Seeded(m)[UsersKey := UserList(WithoutUser(Directory(m), userId))]
              - {LedgerKey(userId)} - {BudgetKey(userId)} == AfterDelete(m, userId)
  {
    var saved := UserList(WithoutUser(Directory(m), userId));
    assert Seeded(m)[UsersKey := saved] == m[UsersKey := saved];
    var n := m[UsersKey := saved];
    assert n - {LedgerKey(userId)} - {BudgetKey(userId)} == n - {LedgerKey(userId), BudgetKey(userId)};
  }

  /**
   * The confirmed branch's storage steps: save the filtered directory (seeding it first
   * when none is stored), then remove the user's ledger and budget keys.
   */
  method EraseUser(store: Store, userId: string) returns (updated: seq<User>)
    requires store.Valid()
    modifies store
    ensures store.Valid()
    ensures store.entries == AfterDelete(old(store.entries), userId)
    ensures updated == WithoutUser(Directory(old(store.entries)), userId)
  {
    ghost var m := store.entries;
    DeleteSteps(m, userId);
    var all := GetUsers(store);
    updated := WithoutUser(all, userId);
    SaveUsers(store, updated);
    store.RemoveItem(LedgerKey(userId));
    store.RemoveItem(BudgetKey(userId));
  }

  /** How a delete ends. */
  datatype DeleteOutcome =
    | Cancelled
    | Deleted
    /** The refresh met a ledger that does not parse; the keys were already erased. */
    | ThrewAfterDelete

  /** The page's two pieces of state. */
  class AdminPage {
    var users: seq<User>
    var transactions: seq<Transaction>

    constructor ()
      ensures users == [] && transactions == []
    {
      users, transactions := [], [];
    }

    /**
     * `handleDeleteUser`: `confirmed` is the answer to `window.confirm`, and `keys` is the
     * order in which storage lists its keys after the erasures.
     */
    method HandleDeleteUser(store: Store, userId: string, confirmed: bool, keys: seq<string>)
      returns (outcome: DeleteOutcome)
      requires store.Valid()
      requires confirmed ==> forall k :: k in keys <==> k in AfterDelete(store.entries, userId)
      requires forall i, j :: 0 <= i < j < |keys| ==> keys[i] != keys[j]
      modifies this, store
      ensures store.Valid()
      ensures !confirmed ==>
        outcome == Cancelled && store.entries == old(store.entries) &&
        users == old(users) && transactions == old(transactions)
      ensures confirmed ==>
        && outcome != Cancelled
        && store.entries == AfterDelete(old(store.entries), userId)
        && users == WithoutUser(Directory(old(store.entries)), userId)
      ensures confirmed ==>
        (outcome == ThrewAfterDelete <==> exists k :: k in store.entries && Corrupt(store.entries, k))
      ensures outcome == ThrewAfterDelete ==> transactions == old(transactions)
      ensures outcome == Deleted ==>
        && multiset(transactions) == multiset(Gather(store.entries, keys))
        && SortedBy(transactions, DateKey, Desc)
    {
      if !confirmed {
        return Cancelled;
      }
      users := EraseUser(store, userId);
      var refreshed := GetAllTransactions(store, keys);
      if refreshed.Threw? {
        return ThrewAfterDelete;
      }
      transactions := refreshed.value;
      outcome := Deleted;
    }
  }
}
