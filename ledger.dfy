/**
 * The per-user ledger (src/hooks/use-transactions.ts): loading and saving the
 * `transactions_<id>` key, adding a transaction, the running totals, and the
 * system-wide list the admin page shows.
 */
module Ledger {
  import opened Types
  import opened Text
  import opened Storage
  import opened Sorting

  /**
   * The load effect: the signed-in user's stored list; no user, a missing key or text
   * that does not parse all load as the empty list.
   */
  function Load(m: map<string, Entry>, user: Option<User>): (ts: seq<Transaction>)
    ensures user.None? ==> ts == []
    ensures user.Some? && LedgerKey(user.value.id) !in m ==> ts == []
    ensures user.Some? && LedgerKey(user.value.id) in m && m[LedgerKey(user.value.id)].Unparsable? ==> ts == []
  {
    if user.None? then []
    else
      var key := LedgerKey(user.value.id);
      if key in m && m[key].TransactionList? then m[key].items else []
  }

  /** The save effect: with a user, the whole list overwrites that user's key. */
  method Persist(store: Store, user: Option<User>, ts: seq<Transaction>)
    requires store.Valid()
    modifies store
    ensures store.Valid()
    ensures user.None? ==> store.entries == old(store.entries)
    ensures user.Some? ==> store.entries == old(store.entries)[LedgerKey(user.value.id) := TransactionList(ts)]
  {
    if user.Some? {
      var key := LedgerKey(user.value.id);
      KeyFamiliesDisjoint(user.value.id, user.value.id);
      store.SetItem(key, TransactionList(ts));
    }
  }

  /** Saving a list and loading it back gives the same list. */
  lemma PersistThenLoad(m: map<string, Entry>, u: User, ts: seq<Transaction>)
    ensures Load(m[LedgerKey(u.id) := TransactionList(ts)], Some(u)) == ts
  {
  }

  /** The record `addTransaction` builds from its input, a fresh id and the current time. */
  function Stamp(input: TransactionInput, id: string, date: string, owner: string): (t: Transaction)
    ensures t.id == id && t.date == date && t.userId == owner
    ensures t.kind == input.kind && t.amount == input.amount
    ensures t.description == input.description && t.category == input.category
  {
    Transaction(id, owner, input.kind, input.amount, input.description, input.category, date)
  }

  /** `addTransaction`: with a user, the new record goes in front of the previous list. */
  function AddTransaction(user: Option<User>, prev: seq<Transaction>, input: TransactionInput, id: string, date: string)
    : (r: seq<Transaction>)
    ensures user.None? ==> r == prev
    ensures user.Some? ==> |r| == |prev| + 1 && r[1..] == prev && r[0] == Stamp(input, id, date, user.value.id)
  {
    if user.None? then prev else [Stamp(input, id, date, user.value.id)] + prev
  }

  /** One call of `addTransaction`: its input and what `randomUUID` and the clock return. */
  datatype Pending = Pending(input: TransactionInput, id: string, date: string)

  function AddAll(user: Option<User>, prev: seq<Transaction>, ps: seq<Pending>): seq<Transaction>
    decreases |ps|
  {
    if ps == [] then prev
    else AddAll(user, AddTransaction(user, prev, ps[0].input, ps[0].id, ps[0].date), ps[1..])
  }

  /** The record one pending call stores for user u. */
  function Stamped(u: User, p: Pending): Transaction {
    Stamp(p.input, p.id, p.date, u.id)
  }

  /** The records n pending calls store, newest first. */
  function Newest(u: User, ps: seq<Pending>): seq<Transaction>
    decreases |ps|
  {
    if ps == [] then [] else Newest(u, ps[1..]) + [Stamped(u, ps[0])]
  }

  lemma {:induction false} AddAllIsNewestOver(u: User, prev: seq<Transaction>, ps: seq<Pending>)
    ensures AddAll(Some(u), prev, ps) == Newest(u, ps) + prev
    decreases |ps|
  {
    if ps != [] {
      var next := [Stamped(u, ps[0])] + prev;
      assert AddTransaction(Some(u), prev, ps[0].input, ps[0].id, ps[0].date) == next;
      assert AddAll(Some(u), prev, ps) == AddAll(Some(u), next, ps[1..]);
      AddAllIsNewestOver(u, next, ps[1..]);
      var older := Newest(u, ps[1..]);
      assert Newest(u, ps) == older + [Stamped(u, ps[0])];
      assert older + next == (older + [Stamped(u, ps[0])]) + prev;
    }
  }

  lemma {:induction false} NewestAt(u: User, ps: seq<Pending>, k: int)
    requires 0 <= k < |ps|
    ensures |Newest(u, ps)| == |ps|
    ensures Newest(u, ps)[k] == Stamped(u, ps[|ps| - 1 - k])
    decreases |ps|
  {
    if k < |ps| - 1 {
      NewestAt(u, ps[1..], k);
      assert ps[1..][|ps| - 2 - k] == ps[|ps| - 1 - k];
    } else if |ps| > 1 {
      NewestAt(u, ps[1..], 0);
    }
  }

  /** After n additions the list holds n more records, the newest first, over the old list. */
  lemma AddAllNewestFirst(u: User, prev: seq<Transaction>, ps: seq<Pending>, k: int)
    requires 0 <= k < |ps|
    ensures |AddAll(Some(u), prev, ps)| == |ps| + |prev|
    ensures AddAll(Some(u), prev, ps)[|ps|..] == prev
    ensures AddAll(Some(u), prev, ps)[k] == Stamped(u, ps[|ps| - 1 - k])
  {
    AddAllIsNewestOver(u, prev, ps);
    NewestAt(u, ps, k);
  }

  /** Sum of the income amounts. */
  function IncomeTotal(ts: seq<Transaction>): int
    decreases |ts|
  {
    if ts == [] then 0
    else IncomeTotal(ts[..|ts| - 1]) + (if ts[|ts| - 1].kind == Income then ts[|ts| - 1].amount else 0)
  }

  /** Sum of every amount that is not income. */
  function ExpenseTotal(ts: seq<Transaction>): int
    decreases |ts|
  {
    if ts == [] then 0
    else ExpenseTotal(ts[..|ts| - 1]) + (if ts[|ts| - 1].kind == Income then 0 else ts[|ts| - 1].amount)
  }

  /** Sum of all amounts. */
  function AmountTotal(ts: seq<Transaction>): int
    decreases |ts|
  {
    if ts == [] then 0 else AmountTotal(ts[..|ts| - 1]) + ts[|ts| - 1].amount
  }

  /** Every transaction counts in exactly one of the two totals. */
  lemma {:induction false} EveryTransactionCountsOnce(ts: seq<Transaction>)
    ensures IncomeTotal(ts) + ExpenseTotal(ts) == AmountTotal(ts)
    decreases |ts|
  {
    if ts != [] {
      EveryTransactionCountsOnce(ts[..|ts| - 1]);
    }
  }

  /** The totals add up over a concatenation. */
  lemma {:induction false} TotalsOfConcat(a: seq<Transaction>, b: seq<Transaction>)
    ensures IncomeTotal(a + b) == IncomeTotal(a) + IncomeTotal(b)
    ensures ExpenseTotal(a + b) == ExpenseTotal(a) + ExpenseTotal(b)
    decreases |b|
  {
    if b == [] {
      assert a + b == a;
    } else {
      assert (a + b)[..|a + b| - 1] == a + b[..|b| - 1];
      TotalsOfConcat(a, b[..|b| - 1]);
    }
  }

  /** Adding an income raises only the income total, adding an expense only the expense total. */
  lemma AddTransactionTotals(u: User, prev: seq<Transaction>, input: TransactionInput, id: string, date: string)
    ensures var r := AddTransaction(Some(u), prev, input, id, date);
      && IncomeTotal(r) == IncomeTotal(prev) + (if input.kind == Income then input.amount else 0)
      && ExpenseTotal(r) == ExpenseTotal(prev) + (if input.kind == Income then 0 else input.amount)
  {
    var t := Stamp(input, id, date, u.id);
    TotalsOfConcat([t], prev);
    assert [t][..0] == [];
  }

  /** With positive amounts neither total is negative. */
  lemma {:induction false} TotalsNonNegative(ts: seq<Transaction>)
    requires forall i :: 0 <= i < |ts| ==> ts[i].amount > 0
    ensures IncomeTotal(ts) >= 0 && ExpenseTotal(ts) >= 0
    decreases |ts|
  {
    if ts != [] {
      TotalsNonNegative(ts[..|ts| - 1]);
    }
  }

  /** The totals memo: one pass over the list with two accumulators. */
  method ComputeTotals(ts: seq<Transaction>) returns (totalIncome: int, totalExpenses: int, balance: int)
    ensures totalIncome == IncomeTotal(ts)
    ensures totalExpenses == ExpenseTotal(ts)
    ensures balance == totalIncome - totalExpenses
    ensures ts == [] ==> totalIncome == 0 && totalExpenses == 0 && balance == 0
  {
    totalIncome, totalExpenses := 0, 0;
    for i := 0 to |ts|
      invariant totalIncome == IncomeTotal(ts[..i])
      invariant totalExpenses == ExpenseTotal(ts[..i])
    {
      var t := ts[i];
      assert ts[..i + 1][..i] == ts[..i];
      if t.kind == Income {
        totalIncome := totalIncome + t.amount;
      } else {
        totalExpenses := totalExpenses + t.amount;
      }
    }
    assert ts[..|ts|] == ts;
    balance := totalIncome - totalExpenses;
  }

  /** What one storage key adds to the system-wide list. */
  function Contribution(m: map<string, Entry>, k: string): seq<Transaction> {
    if k in m && IsLedgerKey(k) && m[k].TransactionList? then m[k].items else []
  }

  /** A ledger key whose text does not parse: `JSON.parse` throws on it. */
  predicate Corrupt(m: map<string, Entry>, k: string) {
    k in m && IsLedgerKey(k) && !m[k].TransactionList?
  }

  /** The ledgers met along `keys`, concatenated in that order. */
  function Gather(m: map<string, Entry>, keys: seq<string>): seq<Transaction>
    decreases |keys|
  {
    if keys == [] then [] else Gather(m, keys[..|keys| - 1]) + Contribution(m, keys[|keys| - 1])
  }

  lemma {:induction false} GatherConcat(m: map<string, Entry>, a: seq<string>, b: seq<string>)
    ensures Gather(m, a + b) == Gather(m, a) + Gather(m, b)
    decreases |b|
  {
    if b == [] {
      assert a + b == a;
    } else {
      assert (a + b)[..|a + b| - 1] == a + b[..|b| - 1];
      GatherConcat(m, a, b[..|b| - 1]);
    }
  }

  lemma RemoveFromBoth(front: seq<string>, x: string, left: seq<string>, right: seq<string>)
    requires multiset(front + [x]) == multiset(left + [x] + right)
    ensures multiset(front) == multiset(left + right)
  {
    assert multiset(front + [x]) == multiset(front) + multiset{x};
    assert multiset(left + [x] + right) == multiset(left + right) + multiset{x};
    var a, b := multiset(front), multiset(left + right);
    forall y
      ensures a[y] == b[y]
    {
      assert (a + multiset{x})[y] == (b + multiset{x})[y];
    }
  }

  /** Moving one key to the end of the listing keeps the gathered multiset. */
  lemma GatherMoveToEnd(m: map<string, Entry>, left: seq<string>, x: string, right: seq<string>)
    ensures multiset(Gather(m, left + [x] + right)) == multiset(Gather(m, left + right) + Contribution(m, x))
  {
    GatherConcat(m, left, right);
    GatherConcat(m, left + [x], right);
    GatherConcat(m, left, [x]);
    assert Gather(m, [x]) == Contribution(m, x) by {
      assert [x][..0] == [];
    }
  }

  /**
   * The order in which `localStorage.key(i)` lists the keys does not matter: any two
   * listings of the same keys gather the same transactions, up to order.
   */
  lemma {:induction false} GatherPermutation(m: map<string, Entry>, k1: seq<string>, k2: seq<string>)
    requires multiset(k1) == multiset(k2)
    ensures multiset(Gather(m, k1)) == multiset(Gather(m, k2))
    decreases |k1|
  {
    if k1 == [] {
      assert k2 == [] by {
        assert |multiset(k2)| == 0;
      }
    } else {
      var x := k1[|k1| - 1];
      var front := k1[..|k1| - 1];
      assert k1 == front + [x];
      assert x in multiset(k2);
      var j :| 0 <= j < |k2| && k2[j] == x;
      var left, right := k2[..j], k2[j + 1..];
      assert k2 == left + [x] + right;
      RemoveFromBoth(front, x, left, right);
      GatherPermutation(m, front, left + right);
      GatherMoveToEnd(m, left, x, right);
    }
  }

  /** Key k is a readable ledger that holds t. */
  predicate HoldsIn(m: map<string, Entry>, k: string, t: Transaction) {
    k in m && IsLedgerKey(k) && m[k].TransactionList? && t in m[k].items
  }

  /** Every gathered transaction comes from the ledger under one of the listed keys. */
  lemma {:induction false} GatherSource(m: map<string, Entry>, keys: seq<string>, t: Transaction)
    requires t in Gather(m, keys)
    ensures exists j :: 0 <= j < |keys| && HoldsIn(m, keys[j], t)
    decreases |keys|
  {
    var front := keys[..|keys| - 1];
    var last := keys[|keys| - 1];
    if t in Gather(m, front) {
      GatherSource(m, front, t);
      var j :| 0 <= j < |front| && HoldsIn(m, front[j], t);
      assert keys[j] == front[j];
    } else {
      assert t in Contribution(m, last);
    }
  }

  /** One more key appends its contribution. */
  lemma GatherStep(m: map<string, Entry>, keys: seq<string>, i: int)
    requires 0 <= i < |keys|
    ensures Gather(m, keys[..i + 1]) == Gather(m, keys[..i]) + Contribution(m, keys[i])
  {
    assert keys[..i + 1][..i] == keys[..i];
  }

  /** When no listed key is corrupt and the keys cover the map, no key of the map is. */
  lemma NoneCorrupt(m: map<string, Entry>, keys: seq<string>)
    requires forall k :: k in keys <==> k in m
    requires forall j :: 0 <= j < |keys| ==> !Corrupt(m, keys[j])
    ensures forall k :: k in m ==> !Corrupt(m, k)
  {
    forall k | k in m
      ensures !Corrupt(m, k)
    {
      var j :| 0 <= j < |keys| && keys[j] == k;
    }
  }

  /**
   * `getAllTransactions`: walk every storage key in the order `keys` lists them, append
   * each ledger, then sort newest first. A ledger key whose text does not parse makes
   * it throw. ISO-8601 timestamps of one format compare chronologically as strings,
   * so the date comparison stands for the source's comparison of `getTime()` values.
   */
  method GetAllTransactions(store: Store, keys: seq<string>) returns (r: Fallible<seq<Transaction>>)
    requires store.Valid()
    requires forall k :: k in keys <==> k in store.entries
    requires forall i, j :: 0 <= i < j < |keys| ==> keys[i] != keys[j]
    ensures r.Threw? <==> exists k :: k in store.entries && Corrupt(store.entries, k)
    ensures r.Returned? ==> multiset(r.value) == multiset(Gather(store.entries, keys))
    ensures r.Returned? ==> SortedBy(r.value, DateKey, Desc)
  {
    var all: seq<Transaction> := [];
    var i := 0;
    while i < |keys|
      invariant 0 <= i <= |keys|
      invariant all == Gather(store.entries, keys[..i])
      invariant forall j :: 0 <= j < i ==> !Corrupt(store.entries, keys[j])
    {
      var key := keys[i];
      GatherStep(store.entries, keys, i);
      if StartsWith(key, LedgerPrefix) {
        var e := store.entries[key];
        if !e.TransactionList? {
          assert Corrupt(store.entries, key);
          return Threw;
        }
        all := all + e.items;
      }
      i := i + 1;
    }
    assert keys[..|keys|] == keys;
    NoneCorrupt(store.entries, keys);
    SortBySorted(all, DateKey, Desc);
    r := Returned(SortBy(all, DateKey, Desc));
  }
}
