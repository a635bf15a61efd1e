/**
 * The browser's key-value storage. Values are JSON text in the browser; here an entry
 * is the decoded value, or `Unparsable` for text that JSON.parse rejects.
 */
module Storage {
  import opened Types
  import opened Text

  datatype Entry =
    | UserList(users: seq<User>)
    | UserRecord(user: User)
    | TransactionList(items: seq<Transaction>)
    | BudgetRecord(budget: Budget)
    | Unparsable

  const UsersKey: string := "users"
  const CurrentUserKey: string := "currentUser"
  const LedgerPrefix: string := "transactions_"
  const BudgetPrefix: string := "budget_"

  /** `transactions_${id}`: the key of one user's ledger. */
  function LedgerKey(userId: string): (k: string)
    ensures StartsWith(k, LedgerPrefix)
  {
    LedgerPrefix + userId
  }

  /** `budget_${id}`: the key of one user's budget. */
  function BudgetKey(userId: string): (k: string)
    ensures StartsWith(k, BudgetPrefix)
  {
    BudgetPrefix + userId
  }

  predicate IsLedgerKey(k: string) {
    StartsWith(k, LedgerPrefix)
  }

  predicate IsBudgetKey(k: string) {
    StartsWith(k, BudgetPrefix)
  }

  /** Each key family is distinct from the others. */
  lemma KeyFamiliesDisjoint(id: string, other: string)
    ensures LedgerKey(id) != BudgetKey(other)
    ensures LedgerKey(id) != UsersKey && LedgerKey(id) != CurrentUserKey
    ensures BudgetKey(id) != UsersKey && BudgetKey(id) != CurrentUserKey
    ensures !IsBudgetKey(LedgerKey(id)) && !IsLedgerKey(BudgetKey(id))
    ensures !IsLedgerKey(UsersKey) && !IsLedgerKey(CurrentUserKey)
  {
    assert LedgerKey(id)[0] != BudgetKey(other)[0];
    assert LedgerKey(id)[0] != UsersKey[0] && LedgerKey(id)[0] != CurrentUserKey[0];
    assert BudgetKey(id)[0] != UsersKey[0] && BudgetKey(id)[0] != CurrentUserKey[0];
    assert LedgerKey(id)[0] == 't' && BudgetKey(id)[0] == 'b';
    assert |BudgetKey(id)| >= |LedgerPrefix| ==> BudgetKey(id)[..|LedgerPrefix|][0] == 'b';
    assert LedgerKey(id)[..|BudgetPrefix|][0] == 't';
    assert |UsersKey| < |LedgerPrefix| && |CurrentUserKey| < |LedgerPrefix|;
  }

  /** The users and session keys belong to neither per-user family. */
  lemma FixedKeysOutsideFamilies()
    ensures !IsLedgerKey(UsersKey) && !IsLedgerKey(CurrentUserKey)
    ensures !IsBudgetKey(UsersKey) && !IsBudgetKey(CurrentUserKey)
  {
    assert CurrentUserKey[..|BudgetPrefix|][0] != BudgetPrefix[0];
  }

  /** Two users' keys of the same family differ exactly when their ids differ. */
  lemma KeysInjective(a: string, b: string)
    ensures LedgerKey(a) == LedgerKey(b) <==> a == b
    ensures BudgetKey(a) == BudgetKey(b) <==> a == b
  {
    if LedgerKey(a) == LedgerKey(b) {
      assert a == LedgerKey(a)[|LedgerPrefix|..] == LedgerKey(b)[|LedgerPrefix|..] == b;
    }
    if BudgetKey(a) == BudgetKey(b) {
      assert a == BudgetKey(a)[|BudgetPrefix|..] == BudgetKey(b)[|BudgetPrefix|..] == b;
    }
  }

  /**
   * The shape the app itself writes under key k. The users and session keys always
   * decode (their reads in the source have no recovery), while a ledger or budget key
   * may also hold text that does not parse (their reads catch the failure).
   */
  predicate Fits(k: string, e: Entry) {
    && (k == UsersKey ==> e.UserList?)
    && (k == CurrentUserKey ==> e.UserRecord?)
    && (IsLedgerKey(k) ==> e.TransactionList? || e.Unparsable?)
    && (IsBudgetKey(k) ==> e.BudgetRecord? || e.Unparsable?)
  }

  predicate WellFormed(m: map<string, Entry>) {
    forall k :: k in m ==> Fits(k, m[k])
  }

  /** `localStorage`: one mutable map from keys to entries. */
  class Store {
    var entries: map<string, Entry>

    ghost predicate Valid()
      reads this
    {
      WellFormed(entries)
    }

    constructor (initial: map<string, Entry>)
      ensures entries == initial
    {
      entries := initial;
    }

    /** `localStorage.setItem(key, value)`. */
    method SetItem(key: string, value: Entry)
      modifies this
      ensures entries == old(entries)[key := value]
      ensures old(Valid()) && Fits(key, value) ==> Valid()
    {
      entries := entries[key := value];
    }

    /** `localStorage.removeItem(key)`; removing an absent key changes nothing. */
    method RemoveItem(key: string)
      modifies this
      ensures entries == old(entries) - {key}
      ensures key !in old(entries) ==> entries == old(entries)
      ensures old(Valid()) ==> Valid()
    {
      entries := entries - {key};
    }
  }
}
