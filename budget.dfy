/**
 * The budget hook (src/hooks/use-budget.ts): one budget per user under `budget_<id>`,
 * valid for one calendar month, and the month's spending it is measured against.
 */
module BudgetHook {
  import opened Types
  import opened Text
  import opened Storage
  import opened Ledger

  /** `new Date().toISOString().slice(0, 7)`: the "YYYY-MM" part of the current timestamp. */
  function CurrentMonth(nowIso: string): (month: string)
    ensures StartsWith(nowIso, month)
    ensures |nowIso| >= 7 ==> |month| == 7
  {
    Take(nowIso, 7)
  }

  /** The budget the load effect settles on. */
  function Loaded(m: map<string, Entry>, user: Option<User>, month: string): Option<Budget> {
    if user.None? then None
    else
      var key := BudgetKey(user.value.id);
      if key in m && m[key].BudgetRecord? && m[key].budget.month == month then Some(m[key].budget)
      else None
  }

  /**
   * The storage state after the load effect: a stored budget of another month is erased,
   * and so is a missing key (a no-op); text that does not parse is left in place.
   */
  function AfterLoad(m: map<string, Entry>, user: Option<User>, month: string): map<string, Entry> {
    if user.None? then m
    else
      var key := BudgetKey(user.value.id);
      if key in m && m[key].Unparsable? then m
      else if Loaded(m, user, month).Some? then m
      else m - {key}
  }

  /** Only a budget for the current month survives loading, and it is the stored one. */
  lemma LoadedIsCurrent(m: map<string, Entry>, user: Option<User>, month: string)
    ensures var b := Loaded(m, user, month);
      b.Some? ==> user.Some? && b.value.month == month && m[BudgetKey(user.value.id)] == BudgetRecord(b.value)
    ensures user.Some? && BudgetKey(user.value.id) in m && m[BudgetKey(user.value.id)].BudgetRecord? ==>
      (Loaded(m, user, month).None? <==> m[BudgetKey(user.value.id)].budget.month != month)
  {
  }

  /** Loading a second time finds what the first load left and changes nothing more. */
  lemma LoadIdempotent(m: map<string, Entry>, user: Option<User>, month: string)
    ensures Loaded(AfterLoad(m, user, month), user, month) == Loaded(m, user, month)
    ensures AfterLoad(AfterLoad(m, user, month), user, month) == AfterLoad(m, user, month)
  {
  }

  /** Loading touches only the signed-in user's budget key. */
  lemma LoadTouchesOneKey(m: map<string, Entry>, user: Option<User>, month: string, k: string)
    requires user.None? || k != BudgetKey(user.value.id)
    ensures k in AfterLoad(m, user, month) <==> k in m
    ensures k in m ==> AfterLoad(m, user, month)[k] == m[k]
  {
  }

  /** The state of one `useBudget(user, transactions)` instance. */
  class Hook {
    const user: Option<User>
    const currentMonth: string
    var budget: Option<Budget>

    /** The hook starts with no budget; the month is read from the clock once per render. */
    constructor (user: Option<User>, nowIso: string)
      ensures this.user == user && currentMonth == CurrentMonth(nowIso) && budget == None
    {
      this.user := user;
      currentMonth := CurrentMonth(nowIso);
      budget := None;
    }

    /** The load effect, with lazy expiry of last month's budget. */
    method Load(store: Store)
      requires store.Valid()
      modifies this, store
      ensures store.Valid()
      ensures budget == Loaded(old(store.entries), user, currentMonth)
      ensures store.entries == AfterLoad(old(store.entries), user, currentMonth)
    {
      if user.None? {
        budget := None;
        return;
      }
      var key := BudgetKey(user.value.id);
      if key in store.entries && store.entries[key].Unparsable? {
        budget := None;
        return;
      }
      if key in store.entries && store.entries[key].BudgetRecord? && store.entries[key].budget.month == currentMonth {
        budget := Some(store.entries[key].budget);
      } else {
        budget := None;
        store.RemoveItem(key);
      }
    }

    /** `saveBudget`: with a user, the state and the key follow the new value. */
    method SaveBudget(store: Store, nb: Option<Budget>)
      requires store.Valid()
      modifies this, store
      ensures store.Valid()
      ensures user.None? ==> budget == old(budget) && store.entries == old(store.entries)
      ensures user.Some? ==> budget == nb
      ensures user.Some? && nb.Some? ==>
        store.entries == old(store.entries)[BudgetKey(user.value.id) := BudgetRecord(nb.value)]
      ensures user.Some? && nb.None? ==> store.entries == old(store.entries) - {BudgetKey(user.value.id)}
    {
      if user.None? {
        return;
      }
      var key := BudgetKey(user.value.id);
      budget := nb;
      if nb.Some? {
        KeyFamiliesDisjoint(user.value.id, user.value.id);
        FixedKeysOutsideFamilies();
        store.SetItem(key, BudgetRecord(nb.value));
      } else {
        store.RemoveItem(key);
      }
    }

    /**
     * `setMonthlyBudget(amount)`: a positive amount becomes this month's budget, replacing
     * any earlier one; zero or less resets it.
     */
    method SetMonthlyBudget(store: Store, amount: int)
      requires store.Valid()
      modifies this, store
      ensures store.Valid()
      ensures user.None? ==> budget == old(budget) && store.entries == old(store.entries)
      ensures user.Some? && amount > 0 ==>
        && budget == Some(Budget(user.value.id, amount, currentMonth))
        && store.entries == old(store.entries)[BudgetKey(user.value.id) := BudgetRecord(budget.value)]
      ensures user.Some? && amount <= 0 ==>
        budget == None && store.entries == old(store.entries) - {BudgetKey(user.value.id)}
    {
      if user.None? {
        return;
      }
      if amount > 0 {
        SaveBudget(store, Some(Budget(user.value.id, amount, currentMonth)));
      } else {
        SaveBudget(store, None);
      }
    }
  }

  /** A budget set this month is the one the next load finds; a reset one is gone. */
  lemma SetThenLoad(m: map<string, Entry>, u: User, amount: int, month: string)
    ensures amount > 0 ==>
      Loaded(m[BudgetKey(u.id) := BudgetRecord(Budget(u.id, amount, month))], Some(u), month)
        == Some(Budget(u.id, amount, month))
    ensures Loaded(m - {BudgetKey(u.id)}, Some(u), month) == None
  {
  }

  /** `t.type === 'expense' && t.date.startsWith(currentMonth)`. */
  predicate SpentIn(t: Transaction, month: string) {
    t.kind == Expense && StartsWith(t.date, month)
  }

  /** The transactions dated in the month, in their order. */
  function InMonth(ts: seq<Transaction>, month: string): (r: seq<Transaction>)
    ensures |r| <= |ts|
    ensures forall t :: multiset(r)[t] == if StartsWith(t.date, month) then multiset(ts)[t] else 0
    ensures forall t :: t in r <==> t in ts && StartsWith(t.date, month)
    decreases |ts|
  {
    if ts == [] then []
    else
      var front := InMonth(ts[..|ts| - 1], month);
      var last := ts[|ts| - 1];
      assert ts == ts[..|ts| - 1] + [last];
      if StartsWith(last.date, month) then front + [last] else front
  }

  /** The filter works piece by piece, so the kept transactions stay in their order. */
  lemma {:induction false} InMonthOfConcat(a: seq<Transaction>, b: seq<Transaction>, month: string)
    ensures InMonth(a + b, month) == InMonth(a, month) + InMonth(b, month)
    decreases |b|
  {
    if b == [] {
      assert a + b == a;
    } else {
      assert (a + b)[..|a + b| - 1] == a + b[..|b| - 1];
      InMonthOfConcat(a, b[..|b| - 1], month);
    }
  }

  /**
   * `monthlyExpenses`: filter the month's expenses and add their amounts. The result is
   * the expense total of the transactions dated in that month, so income never counts.
   */
  function MonthlyExpenses(ts: seq<Transaction>, month: string): (r: int)
    ensures r == ExpenseTotal(InMonth(ts, month))
    decreases |ts|
  {
    if ts == [] then 0
    else
      var front := ts[..|ts| - 1];
      var last := ts[|ts| - 1];
      var sel := InMonth(front, month);
      assert StartsWith(last.date, month) ==> (sel + [last])[..|sel|] == sel;
      MonthlyExpenses(front, month) + (if SpentIn(last, month) then last.amount else 0)
  }

  /** Income never counts, and with positive amounts the month's spending is at most all spending. */
  lemma {:induction false} MonthlyExpensesBounds(ts: seq<Transaction>, month: string)
    requires forall i :: 0 <= i < |ts| ==> ts[i].amount > 0
    ensures 0 <= MonthlyExpenses(ts, month) <= ExpenseTotal(ts)
    decreases |ts|
  {
    if ts != [] {
      MonthlyExpensesBounds(ts[..|ts| - 1], month);
    }
  }

  lemma {:induction false} MonthlyExpensesOfConcat(a: seq<Transaction>, b: seq<Transaction>, month: string)
    ensures MonthlyExpenses(a + b, month) == MonthlyExpenses(a, month) + MonthlyExpenses(b, month)
    decreases |b|
  {
    if b == [] {
      assert a + b == a;
    } else {
      assert (a + b)[..|a + b| - 1] == a + b[..|b| - 1];
      MonthlyExpensesOfConcat(a, b[..|b| - 1], month);
    }
  }

  /**
   * Prepending a transaction, as `addTransaction` does, raises the month's spending by its
   * amount when it is an expense of that month and leaves it as it was otherwise.
   */
  lemma MonthlyExpensesOfAdded(t: Transaction, ts: seq<Transaction>, month: string)
    ensures MonthlyExpenses([t] + ts, month) ==
      MonthlyExpenses(ts, month) + (if SpentIn(t, month) then t.amount else 0)
  {
    MonthlyExpensesOfConcat([t], ts, month);
    assert [t][..0] == [];
  }
}
