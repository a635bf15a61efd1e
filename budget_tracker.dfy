/**
 * The budget card (src/components/budget-tracker.tsx): the progress bar, the alert latch
 * that warns at 80% and 100% of the budget, and the form that sets or resets the budget.
 * The ratio `monthlyExpenses / budgetAmount` is never formed: with a positive budget,
 * "ratio >= 1" is `exp >= budget` and "ratio >= 0.8" is `5 * exp >= 4 * budget`.
 */
module BudgetTracker {
  import opened Types
  import opened Storage
  import opened BudgetHook

  /** `budget?.amount ?? 0`. */
  function BudgetAmount(b: Option<Budget>): (a: int)
    ensures b.None? ==> a == 0
    ensures b.Some? ==> a == b.value.amount
  {
    if b.Some? then b.value.amount else 0
  }

  function Min(x: real, y: real): real {
    if x < y then x else y
  }

  /** Comparing n / d with c, for d > 0, is comparing n with c * d. */
  lemma QuotientCompare(n: int, d: int, c: int)
    requires d > 0
    ensures n as real / d as real > c as real <==> n > c * d
    ensures n as real / d as real >= c as real <==> n >= c * d
  {
    var q := n as real / d as real;
    assert q * d as real == n as real;
    if q > c as real {
      assert q * d as real > c as real * d as real;
    }
    if q >= c as real {
      assert q * d as real >= c as real * d as real;
    }
    if q < c as real {
      assert q * d as real < c as real * d as real;
    }
    if q <= c as real {
      assert q * d as real <= c as real * d as real;
    }
  }

  /** The bar's value: the percentage spent, capped at 100, and 0 without a budget. */
  function Progress(exp: int, budget: int): (p: real)
    ensures budget <= 0 ==> p == 0.0
    ensures budget > 0 && exp >= 0 ==> 0.0 <= p <= 100.0
    ensures budget > 0 ==> (p == 100.0 <==> exp >= budget)
    ensures budget > 0 ==> (p > 80.0 <==> 5 * exp > 4 * budget)
  {
    if budget > 0 then
      var share := exp as real / budget as real * 100.0;
      QuotientCompare(100 * exp, budget, 80);
      QuotientCompare(100 * exp, budget, 100);
      assert share == (100 * exp) as real / budget as real;
      Min(share, 100.0)
    else 0.0
  }

  /** The toasts the card can raise. */
  datatype Toast = BudgetExceeded | BudgetWarning | InvalidAmount

  /** The two refs `alertSent80` and `alertSent100`. */
  datatype Latch = Latch(sent80: bool, sent100: bool)

  /** What one run of the alert effect shows, and the refs it leaves. */
  datatype Outcome = Outcome(toast: Option<Toast>, latch: Latch)

  /**
   * One run of the alert effect. With a budget: the 100% toast fires iff spending has
   * reached the budget and the 100% ref is clear; otherwise the 80% toast fires iff
   * spending has reached 80% and the 80% ref is clear; afterwards each ref is cleared
   * when spending is below its threshold.
   */
  function Step(exp: int, budget: int, f: Latch): (o: Outcome)
    ensures budget <= 0 ==> o == Outcome(None, f)
    ensures o.toast != Some(InvalidAmount)
    ensures budget > 0 ==> (o.toast == Some(BudgetExceeded) <==> exp >= budget && !f.sent100)
    ensures budget > 0 ==>
      (o.toast == Some(BudgetWarning) <==> 5 * exp >= 4 * budget && !f.sent80 && !(exp >= budget && !f.sent100))
    ensures budget > 0 ==> o.latch.sent100 == (exp >= budget)
    ensures budget > 0 ==> o.latch.sent80 == (5 * exp >= 4 * budget && (f.sent80 || o.toast == Some(BudgetWarning)))
  {
    if budget <= 0 then Outcome(None, f)
    else
      var over := exp >= budget;
      var near := 5 * exp >= 4 * budget;
      var fired :=
        if over && !f.sent100 then Outcome(Some(BudgetExceeded), Latch(f.sent80, true))
        else if near && !f.sent80 then Outcome(Some(BudgetWarning), Latch(true, f.sent100))
        else Outcome(None, f);
      var g := fired.latch;
      Outcome(fired.toast, Latch(g.sent80 && near, g.sent100 && over))
  }

  /** Without a budget the bar is empty and the alert effect shows nothing and keeps the refs. */
  lemma NoBudgetQuiet(exp: int, f: Latch)
    ensures Progress(exp, BudgetAmount(None)) == 0.0
    ensures Step(exp, BudgetAmount(None), f) == Outcome(None, f)
  {
  }

  /** A ref that is set stays set while spending stays above its threshold: no toast repeats. */
  lemma NoRepeatWhileAbove(e1: int, e2: int, budget: int, f: Latch)
    requires budget > 0
    ensures Step(e1, budget, f).latch.sent100 ==> Step(e2, budget, Step(e1, budget, f).latch).toast != Some(BudgetExceeded)
    ensures Step(e1, budget, f).latch.sent80 ==> Step(e2, budget, Step(e1, budget, f).latch).toast != Some(BudgetWarning)
  {
  }

  /** The refs before run j of the sequence. */
  function LatchBefore(budget: int, exps: seq<int>, f: Latch, j: nat): Latch
    requires j <= |exps|
    decreases j
  {
    if j == 0 then f else Step(exps[j - 1], budget, LatchBefore(budget, exps, f, j - 1)).latch
  }

  lemma {:induction false} LatchShift(budget: int, exps: seq<int>, f: Latch, j: nat)
    requires 0 < j <= |exps|
    ensures LatchBefore(budget, exps, f, j) == LatchBefore(budget, exps[1..], Step(exps[0], budget, f).latch, j - 1)
    decreases j
  {
    if j > 1 {
      LatchShift(budget, exps, f, j - 1);
    }
  }

  lemma LatchShiftAll(budget: int, exps: seq<int>, f: Latch)
    requires exps != []
    ensures forall j :: 0 < j <= |exps| ==>
      LatchBefore(budget, exps, f, j) == LatchBefore(budget, exps[1..], Step(exps[0], budget, f).latch, j - 1)
  {
    forall j | 0 < j <= |exps| {
      LatchShift(budget, exps, f, j);
    }
  }

  /**
   * The alert effect runs once per change of spending, and the refs carry over from
   * run to run: run j is one `Step` from the refs the earlier runs left.
   */
  function Run(budget: int, exps: seq<int>, f: Latch): (r: seq<Outcome>)
    ensures |r| == |exps|
    ensures forall j :: 0 <= j < |exps| ==> r[j] == Step(exps[j], budget, LatchBefore(budget, exps, f, j))
    decreases |exps|
  {
    if exps == [] then []
    else
      var o := Step(exps[0], budget, f);
      LatchShiftAll(budget, exps, f);
      [o] + Run(budget, exps[1..], o.latch)
  }

  /**
   * Once the refs have seen one run, the 100% toast fires again only after a run in
   * which spending was below the budget.
   */
  lemma ExceededAgainNeedsDrop(budget: int, exps: seq<int>, f: Latch, j: nat)
    requires budget > 0
    requires 0 < j < |exps|
    requires Run(budget, exps, f)[j].toast == Some(BudgetExceeded)
    ensures exps[j - 1] < budget
  {
  }

  /** Budget 1000, spending 0, 850, 1050, 700: warning at 850, exceeded at 1050, both refs clear at 700. */
  lemma Scenario()
    ensures Run(1000, [0, 850, 1050, 700], Latch(false, false)) == [
      Outcome(None, Latch(false, false)),
      Outcome(Some(BudgetWarning), Latch(true, false)),
      Outcome(Some(BudgetExceeded), Latch(true, true)),
      Outcome(None, Latch(false, false))]
  {
    var exps := [0, 850, 1050, 700];
    assert exps[1..] == [850, 1050, 700];
    assert exps[1..][1..] == [1050, 700];
    assert exps[1..][1..][1..] == [700];
  }

  /**
   * Jumping straight past 100% sets only the 100% ref, so a later run that is still over
   * budget raises the 80% warning after the 100% alert.
   */
  lemma WarningAfterExceeded()
    ensures Run(1000, [1200, 1100], Latch(false, false)) == [
      Outcome(Some(BudgetExceeded), Latch(false, true)),
      Outcome(Some(BudgetWarning), Latch(true, true))]
  {
    var exps := [1200, 1100];
    assert exps[1..] == [1100];
  }

  /** The card's own state: the text in the amount field and the two refs. */
  class Card {
    var newBudgetAmount: string
    var sent80: bool
    var sent100: bool

    constructor ()
      ensures newBudgetAmount == "" && !sent80 && !sent100
    {
      newBudgetAmount := "";
      sent80, sent100 := false, false;
    }

    /** The alert effect, run with the month's spending and the budget the hook loaded. */
    method Evaluate(exp: int, loaded: Option<Budget>) returns (toast: Option<Toast>)
      modifies this
      ensures Outcome(toast, Latch(sent80, sent100)) == Step(exp, BudgetAmount(loaded), Latch(old(sent80), old(sent100)))
      ensures newBudgetAmount == old(newBudgetAmount)
    {
      var budget := BudgetAmount(loaded);
      toast := None;
      if budget <= 0 {
        return;
      }
      if exp >= budget && !sent100 {
        toast := Some(BudgetExceeded);
        sent100 := true;
      } else if 5 * exp >= 4 * budget && !sent80 {
        toast := Some(BudgetWarning);
        sent80 := true;
      }
      if sent100 && exp < budget {
        sent100 := false;
      }
      if sent80 && 5 * exp < 4 * budget {
        sent80 := false;
      }
    }

    /**
     * `handleSetBudget`: `parsed` is what `parseFloat` makes of the field (`None` for
     * NaN). Only a positive amount is set, and then the field is cleared; anything else
     * raises the "Invalid Amount" toast and changes nothing.
     */
    method HandleSetBudget(hook: Hook, store: Store, parsed: Option<int>) returns (toast: Option<Toast>)
      requires store.Valid()
      modifies this, hook, store
      ensures store.Valid()
      ensures sent80 == old(sent80) && sent100 == old(sent100)
      ensures parsed.Some? && parsed.value > 0 ==>
        && toast.None?
        && newBudgetAmount == ""
        && (hook.user.Some? ==>
              && hook.budget == Some(Budget(hook.user.value.id, parsed.value, hook.currentMonth))
              && store.entries == old(store.entries)[BudgetKey(hook.user.value.id) := BudgetRecord(hook.budget.value)])
        && (hook.user.None? ==> hook.budget == old(hook.budget) && store.entries == old(store.entries))
      ensures !(parsed.Some? && parsed.value > 0) ==>
        && toast == Some(InvalidAmount)
        && newBudgetAmount == old(newBudgetAmount)
        && hook.budget == old(hook.budget)
        && store.entries == old(store.entries)
    {
      if parsed.Some? && parsed.value > 0 {
        hook.SetMonthlyBudget(store, parsed.value);
        newBudgetAmount := "";
        toast := None;
      } else {
        toast := Some(InvalidAmount);
      }
    }
  }

  /** The "Reset Budget" button: `setMonthlyBudget(0)` clears the budget and its key. */
  method ResetBudget(hook: Hook, store: Store)
    requires store.Valid()
    modifies hook, store
    ensures store.Valid()
    ensures hook.user.Some? ==> hook.budget == None && store.entries == old(store.entries) - {BudgetKey(hook.user.value.id)}
    ensures hook.user.None? ==> hook.budget == old(hook.budget) && store.entries == old(store.entries)
  {
    hook.SetMonthlyBudget(store, 0);
  }
}
