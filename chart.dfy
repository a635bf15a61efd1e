/**
 * The overview chart's data (src/components/monthly-overview-chart.tsx): a zero-filled
 * bucket per day of the last seven days or per month of the last six months, then one
 * pass over the transactions adding each amount to the bucket of its day or month.
 *
 * Days are day numbers: what `format(new Date(t.date), 'yyyy-MM-dd')` computes is given
 * as the function `dayOf`. Months are indices `year * 12 + month0`; the bucket for a
 * month is keyed by its "YYYY-MM" text, which `t.date.slice(0, 7)` is matched against.
 */
module Chart {
  import opened Types
  import opened Text
  import opened Ledger
  import opened BudgetHook

  datatype Totals = Totals(income: int, expense: int)

  const Zero: Totals := Totals(0, 0)

  function Plus(a: Totals, b: Totals): Totals {
    Totals(a.income + b.income, a.expense + b.expense)
  }

  /** What one transaction adds to its bucket: income to income, anything else to expense. */
  function Share(t: Transaction): (s: Totals)
    ensures t.kind == Income ==> s == Totals(t.amount, 0)
    ensures t.kind != Income ==> s == Totals(0, t.amount)
  {
    if t.kind == Income then Totals(t.amount, 0) else Totals(0, t.amount)
  }

  /** One entry of `Object.entries(data)`: a key and its two sums. */
  datatype Bucket<K> = Bucket(key: K, totals: Totals)

  /** What the transactions whose key is k add up to, added in list order. */
  function Tallied<K(==)>(ts: seq<Transaction>, k: K, keyOf: Transaction -> K): Totals
    decreases |ts|
  {
    if ts == [] then Zero
    else
      var t := ts[|ts| - 1];
      var r := Tallied(ts[..|ts| - 1], k, keyOf);
      if keyOf(t) == k then Plus(r, Share(t)) else r
  }

  /**
   * The transactions whose key is k, in their order. The ensures gives membership;
   * `MatchingOfConcat` gives multiplicity and order.
   */
  function Matching<K(==)>(ts: seq<Transaction>, k: K, keyOf: Transaction -> K): (r: seq<Transaction>)
    ensures forall t :: t in r <==> t in ts && keyOf(t) == k
    decreases |ts|
  {
    if ts == [] then []
    else
      var t := ts[|ts| - 1];
      var front := Matching(ts[..|ts| - 1], k, keyOf);
      assert ts == ts[..|ts| - 1] + [t];
      if keyOf(t) == k then front + [t] else front
  }

  /** The filter works piece by piece, so the kept transactions stay in their order. */
  lemma {:induction false} MatchingOfConcat<K>(a: seq<Transaction>, b: seq<Transaction>, k: K, keyOf: Transaction -> K)
    ensures Matching(a + b, k, keyOf) == Matching(a, k, keyOf) + Matching(b, k, keyOf)
    decreases |b|
  {
    if b == [] {
      assert a + b == a;
    } else {
      assert (a + b)[..|a + b| - 1] == a + b[..|b| - 1];
      MatchingOfConcat(a, b[..|b| - 1], k, keyOf);
    }
  }

  /** The income and expense totals of a list. */
  function TotalsOf(ts: seq<Transaction>): Totals {
    Totals(IncomeTotal(ts), ExpenseTotal(ts))
  }

  /** A bucket holds the income total and the expense total of the transactions keyed to it. */
  lemma {:induction false} TalliedIsTotalsOfMatching<K>(ts: seq<Transaction>, k: K, keyOf: Transaction -> K)
    ensures Tallied(ts, k, keyOf) == TotalsOf(Matching(ts, k, keyOf))
    decreases |ts|
  {
    if ts != [] {
      var t := ts[|ts| - 1];
      var front := ts[..|ts| - 1];
      TalliedIsTotalsOfMatching(front, k, keyOf);
      if keyOf(t) == k {
        var r := Matching(front, k, keyOf) + [t];
        assert r[..|r| - 1] == Matching(front, k, keyOf);
      }
    }
  }

  lemma {:induction false} TalliedOfConcat<K>(a: seq<Transaction>, b: seq<Transaction>, k: K, keyOf: Transaction -> K)
    ensures Tallied(a + b, k, keyOf) == Plus(Tallied(a, k, keyOf), Tallied(b, k, keyOf))
    decreases |b|
  {
    if b == [] {
      assert a + b == a;
    } else {
      assert (a + b)[..|a + b| - 1] == a + b[..|b| - 1];
      TalliedOfConcat(a, b[..|b| - 1], k, keyOf);
    }
  }

  /** A transaction keyed elsewhere changes no bucket, wherever it stands in the list. */
  lemma OtherKeyIgnored<K>(a: seq<Transaction>, t: Transaction, b: seq<Transaction>, k: K, keyOf: Transaction -> K)
    requires keyOf(t) != k
    ensures Tallied(a + [t] + b, k, keyOf) == Tallied(a + b, k, keyOf)
  {
    TalliedOfConcat(a + [t], b, k, keyOf);
    TalliedOfConcat(a, [t], k, keyOf);
    TalliedOfConcat(a, b, k, keyOf);
    assert [t][..0] == [];
  }

  predicate Distinct<K(==)>(s: seq<K>) {
    forall i, j :: 0 <= i < j < |s| ==> s[i] != s[j]
  }

  /** The chart's rows over a window of keys: each key with what its transactions add up to. */
  function ChartRows<K(==)>(window: seq<K>, ts: seq<Transaction>, keyOf: Transaction -> K): (r: seq<Bucket<K>>)
    ensures |r| == |window|
    ensures forall i :: 0 <= i < |r| ==> r[i].key == window[i]
  {
    seq(|window|, i requires 0 <= i < |window| => Bucket(window[i], Tallied(ts, window[i], keyOf)))
  }

  /** With no transactions every bucket is zero; the number of buckets is the window's. */
  lemma EmptyChart<K>(window: seq<K>, keyOf: Transaction -> K)
    ensures forall i :: 0 <= i < |window| ==> ChartRows(window, [], keyOf)[i] == Bucket(window[i], Zero)
  {
  }

  /** The sum of the window's buckets. */
  function SumRows<K(==)>(window: seq<K>, ts: seq<Transaction>, keyOf: Transaction -> K): Totals
    decreases |window|
  {
    if window == [] then Zero
    else Plus(SumRows(window[..|window| - 1], ts, keyOf), Tallied(ts, window[|window| - 1], keyOf))
  }

  /** The transactions whose key falls in the window, in their order. */
  function InWindow<K(==)>(ts: seq<Transaction>, window: seq<K>, keyOf: Transaction -> K): seq<Transaction>
    decreases |ts|
  {
    if ts == [] then []
    else
      var t := ts[|ts| - 1];
      var front := InWindow(ts[..|ts| - 1], window, keyOf);
      if keyOf(t) in window then front + [t] else front
  }

  lemma TalliedStep<K>(ts: seq<Transaction>, t: Transaction, k: K, keyOf: Transaction -> K)
    ensures Tallied(ts + [t], k, keyOf) ==
      if keyOf(t) == k then Plus(Tallied(ts, k, keyOf), Share(t)) else Tallied(ts, k, keyOf)
  {
    assert (ts + [t])[..|ts + [t]| - 1] == ts;
  }

  lemma {:induction false} SumRowsStep<K>(window: seq<K>, ts: seq<Transaction>, t: Transaction, keyOf: Transaction -> K)
    requires Distinct(window)
    ensures SumRows(window, ts + [t], keyOf) ==
      if keyOf(t) in window then Plus(SumRows(window, ts, keyOf), Share(t)) else SumRows(window, ts, keyOf)
    decreases |window|
  {
    if window == [] {
      assert SumRows(window, ts + [t], keyOf) == Zero;
    } else {
      var n := |window| - 1;
      var front, w := window[..n], window[n];
      assert window == front + [w];
      assert keyOf(t) in window <==> keyOf(t) in front || keyOf(t) == w;
      assert Distinct(front) by {
        forall i, j | 0 <= i < j < |front|
          ensures front[i] != front[j]
        {
          assert front[i] == window[i] && front[j] == window[j];
        }
      }
      assert w !in front by {
        forall i | 0 <= i < |front|
          ensures front[i] != w
        {
          assert front[i] == window[i];
        }
      }
      SumRowsStep(front, ts, t, keyOf);
      TalliedStep(ts, t, w, keyOf);
      assert SumRows(window, ts + [t], keyOf) == Plus(SumRows(front, ts + [t], keyOf), Tallied(ts + [t], w, keyOf));
      assert SumRows(window, ts, keyOf) == Plus(SumRows(front, ts, keyOf), Tallied(ts, w, keyOf));
    }
  }

  lemma TotalsOfAppend(s: seq<Transaction>, t: Transaction)
    ensures TotalsOf(s + [t]) == Plus(TotalsOf(s), Share(t))
  {
    assert (s + [t])[..|s + [t]| - 1] == s;
  }

  /**
   * Over a window of distinct keys the buckets together hold the income total and the
   * expense total of exactly the transactions whose key is in the window.
   */
  lemma {:induction false} SumRowsIsTotalsInWindow<K>(window: seq<K>, ts: seq<Transaction>, keyOf: Transaction -> K)
    requires Distinct(window)
    ensures SumRows(window, ts, keyOf) == TotalsOf(InWindow(ts, window, keyOf))
    decreases |ts|
  {
    if ts == [] {
      SumRowsOfNothing(window, keyOf);
    } else {
      var t := ts[|ts| - 1];
      var front := ts[..|ts| - 1];
      assert ts == front + [t];
      SumRowsIsTotalsInWindow(window, front, keyOf);
      SumRowsStep(window, front, t, keyOf);
      var sel := InWindow(front, window, keyOf);
      if keyOf(t) in window {
        assert InWindow(ts, window, keyOf) == sel + [t];
        TotalsOfAppend(sel, t);
      } else {
        assert InWindow(ts, window, keyOf) == sel;
      }
    }
  }

  lemma {:induction false} SumRowsOfNothing<K>(window: seq<K>, keyOf: Transaction -> K)
    ensures SumRows(window, [], keyOf) == Zero
    decreases |window|
  {
    if window != [] {
      SumRowsOfNothing(window[..|window| - 1], keyOf);
    }
  }

  /** The sum of a list of rows, as the chart shows them. */
  function SumBuckets<K>(bs: seq<Bucket<K>>): Totals
    decreases |bs|
  {
    if bs == [] then Zero else Plus(SumBuckets(bs[..|bs| - 1]), bs[|bs| - 1].totals)
  }

  lemma {:induction false} SumBucketsOfRows<K>(window: seq<K>, ts: seq<Transaction>, keyOf: Transaction -> K)
    ensures SumBuckets(ChartRows(window, ts, keyOf)) == SumRows(window, ts, keyOf)
    decreases |window|
  {
    if window != [] {
      var front := window[..|window| - 1];
      SumBucketsOfRows(front, ts, keyOf);
      var rows, frontRows := ChartRows(window, ts, keyOf), ChartRows(front, ts, keyOf);
      assert rows[..|window| - 1] == frontRows by {
        forall i | 0 <= i < |front|
          ensures rows[i] == frontRows[i]
        {
          assert rows[i] == Bucket(window[i], Tallied(ts, window[i], keyOf));
          assert frontRows[i] == Bucket(front[i], Tallied(ts, front[i], keyOf));
        }
      }
      assert rows[|window| - 1].totals == Tallied(ts, window[|window| - 1], keyOf);
    }
  }

  /** The rows of a chart over distinct keys add up to the totals of the in-window transactions. */
  lemma ChartSumsInWindow<K>(window: seq<K>, ts: seq<Transaction>, keyOf: Transaction -> K)
    requires Distinct(window)
    ensures SumBuckets(ChartRows(window, ts, keyOf)) == TotalsOf(InWindow(ts, window, keyOf))
  {
    SumBucketsOfRows(window, ts, keyOf);
    SumRowsIsTotalsInWindow(window, ts, keyOf);
  }

  /** `Object.entries(data)`: the buckets in the order their keys were first inserted. */
  function Entries<K(==)>(data: map<K, Totals>, order: seq<K>): (r: seq<Bucket<K>>)
    requires forall i :: 0 <= i < |order| ==> order[i] in data
    ensures |r| == |order|
  {
    seq(|order|, i requires 0 <= i < |order| => Bucket(order[i], data[order[i]]))
  }

  /** `transactions.forEach(...)`: add each transaction to its bucket when it has one. */
  method Accumulate<K(==)>(data0: map<K, Totals>, ts: seq<Transaction>, keyOf: Transaction -> K)
    returns (data: map<K, Totals>)
    ensures data.Keys == data0.Keys
    ensures forall k :: k in data ==> data[k] == Plus(data0[k], Tallied(ts, k, keyOf))
  {
    data := data0;
    for i := 0 to |ts|
      invariant data.Keys == data0.Keys
      invariant forall k :: k in data ==> data[k] == Plus(data0[k], Tallied(ts[..i], k, keyOf))
    {
      var t := ts[i];
      var key := keyOf(t);
      assert ts[..i + 1][..i] == ts[..i];
      if key in data {
        var b := data[key];
        if t.kind == Income {
          data := data[key := Totals(b.income + t.amount, b.expense)];
        } else {
          data := data[key := Totals(b.income, b.expense + t.amount)];
        }
      }
    }
    assert ts[..|ts|] == ts;
  }

  /** A zero-filled map over a window of distinct keys, and its insertion order. */
  lemma ZeroFilledRows<K>(window: seq<K>, data0: map<K, Totals>, data: map<K, Totals>,
                              ts: seq<Transaction>, keyOf: Transaction -> K)
    requires forall k :: k in data0 <==> k in window
    requires forall k :: k in data0 ==> data0[k] == Zero
    requires data.Keys == data0.Keys
    requires forall k :: k in data ==> data[k] == Plus(data0[k], Tallied(ts, k, keyOf))
    ensures forall i :: 0 <= i < |window| ==> window[i] in data
    ensures Entries(data, window) == ChartRows(window, ts, keyOf)
  {
    assert forall i :: 0 <= i < |window| ==> window[i] in data0;
    var rows, entries := ChartRows(window, ts, keyOf), Entries(data, window);
    forall i | 0 <= i < |window|
      ensures entries[i] == rows[i]
    {
      var k := window[i];
      var tally := Tallied(ts, k, keyOf);
      assert data[k] == Plus(Zero, tally) == tally;
    }
  }

  /** `eachDayOfInterval({ start: subDays(now, 6), end: now })`: seven consecutive days. */
  function LastSevenDays(today: int): (days: seq<int>)
    ensures |days| == 7
    ensures forall i :: 0 <= i < 7 ==> days[i] == today - 6 + i
  {
    seq(7, i => today - 6 + i)
  }

  /**
   * The weekly view: seven zero-filled day buckets, in ascending order, then the
   * transactions of those days added in.
   */
  method WeeklyData(ts: seq<Transaction>, today: int, dayOf: string -> int) returns (buckets: seq<Bucket<int>>)
    ensures |buckets| == 7
    ensures forall i :: 0 <= i < 7 ==> buckets[i].key == today - 6 + i
    ensures buckets == ChartRows(LastSevenDays(today), ts, (t: Transaction) => dayOf(t.date))
  {
    var days := LastSevenDays(today);
    var keyOf := (t: Transaction) => dayOf(t.date);
    var data: map<int, Totals> := map[];
    var order: seq<int> := [];
    for i := 0 to 7
      invariant order == days[..i]
      invariant forall k :: k in data <==> k in order
      invariant forall k :: k in data ==> data[k] == Zero
    {
      var day := days[i];
      assert day !in order;
      order := order + [day];
      data := data[day := Zero];
      assert days[..i + 1] == days[..i] + [day];
    }
    assert order == days;
    assert forall k :: k in data <==> k in days;
    var filled := Accumulate(data, ts, keyOf);
    ZeroFilledRows(days, data, filled, ts, keyOf);
    buckets := Entries(filled, order);
  }

  /** The character of a decimal digit. */
  function Digit(d: int): char
    requires 0 <= d < 10
  {
    ('0' as int + d) as char
  }

  function DigitValue(c: char): int {
    c as int - '0' as int
  }

  /** `n` on four digits, leading zeros kept. */
  function Pad4(n: int): (s: string)
    requires 0 <= n < 10000
    ensures |s| == 4
  {
    [Digit(n / 1000), Digit(n / 100 % 10), Digit(n / 10 % 10), Digit(n % 10)]
  }

  /** `n` on two digits, leading zero kept. */
  function Pad2(n: int): (s: string)
    requires 0 <= n < 100
    ensures |s| == 2
  {
    [Digit(n / 10), Digit(n % 10)]
  }

  /** `format(d, 'yyyy-MM')` for the month with index `year * 12 + month0`. */
  function MonthKey(index: int): (s: string)
    requires 0 <= index < 120000
    ensures |s| == 7
  {
    Pad4(index / 12) + "-" + Pad2(index % 12 + 1)
  }

  /** Read a "YYYY-MM" text back as a month index. */
  function MonthIndex(s: string): int
    requires |s| == 7
  {
    var year := DigitValue(s[0]) * 1000 + DigitValue(s[1]) * 100 + DigitValue(s[2]) * 10 + DigitValue(s[3]);
    var month := DigitValue(s[5]) * 10 + DigitValue(s[6]);
    year * 12 + month - 1
  }

  lemma FourDigits(n: int)
    requires 0 <= n < 10000
    ensures (n / 1000) * 1000 + (n / 100 % 10) * 100 + (n / 10 % 10) * 10 + n % 10 == n
  {
    var a := n / 10;
    var b := a / 10;
    assert n == 10 * a + n % 10;
    assert a == 10 * b + a % 10;
    assert b == 10 * (b / 10) + b % 10;
    assert n / 100 == b;
    assert n / 1000 == b / 10;
  }

  /** The month text reads back as the month it was made from. */
  lemma MonthKeyRoundTrip(index: int)
    requires 0 <= index < 120000
    ensures MonthIndex(MonthKey(index)) == index
  {
    var y := index / 12;
    var m := index % 12 + 1;
    var s := MonthKey(index);
    FourDigits(y);
    assert DigitValue(s[0]) == y / 1000 && DigitValue(s[1]) == y / 100 % 10;
    assert DigitValue(s[2]) == y / 10 % 10 && DigitValue(s[3]) == y % 10;
    assert DigitValue(s[5]) == m / 10 && DigitValue(s[6]) == m % 10;
  }

  /** Different months give different keys. */
  lemma MonthKeyInjective(a: int, b: int)
    requires 0 <= a < 120000 && 0 <= b < 120000
    ensures MonthKey(a) == MonthKey(b) <==> a == b
  {
    if MonthKey(a) == MonthKey(b) {
      MonthKeyRoundTrip(a);
      MonthKeyRoundTrip(b);
    }
  }

  /** `t.date.slice(0, 7)`: the month part of an ISO timestamp. */
  function MonthOf(t: Transaction): string {
    Take(t.date, 7)
  }

  /** The six months from five months back to this one, oldest first. */
  function LastSixMonths(thisMonth: int): (months: seq<string>)
    requires 5 <= thisMonth < 120000
    ensures |months| == 6
    ensures forall i :: 0 <= i < 6 ==> months[i] == MonthKey(thisMonth - 5 + i)
  {
    seq(6, i requires 0 <= i < 6 => MonthKey(thisMonth - 5 + i))
  }

  lemma LastSixMonthsDistinct(thisMonth: int)
    requires 5 <= thisMonth < 120000
    ensures Distinct(LastSixMonths(thisMonth))
  {
    var ms := LastSixMonths(thisMonth);
    forall i | 0 <= i < 6
      ensures MonthIndex(ms[i]) == thisMonth - 5 + i
    {
      MonthKeyRoundTrip(thisMonth - 5 + i);
    }
  }

  /**
   * The monthly view: `for (i = 5; i >= 0; i--)` zero-fills the months from five back to
   * this one, then each transaction is added to the bucket its date's "YYYY-MM" names.
   * The month index must keep the year on four digits.
   */
  method MonthlyData(ts: seq<Transaction>, thisMonth: int) returns (buckets: seq<Bucket<string>>)
    requires 5 <= thisMonth < 120000
    ensures |buckets| == 6
    ensures forall i :: 0 <= i < 6 ==> buckets[i].key == MonthKey(thisMonth - 5 + i)
    ensures buckets == ChartRows(LastSixMonths(thisMonth), ts, MonthOf)
  {
    var months := LastSixMonths(thisMonth);
    LastSixMonthsDistinct(thisMonth);
    var data: map<string, Totals> := map[];
    var order: seq<string> := [];
    var i := 5;
    while i >= 0
      invariant -1 <= i <= 5
      invariant order == months[..5 - i]
      invariant forall k :: k in data <==> k in order
      invariant forall k :: k in data ==> data[k] == Zero
    {
      var key := MonthKey(thisMonth - i);
      assert key == months[5 - i];
      assert key !in order;
      order := order + [key];
      data := data[key := Zero];
      assert months[..5 - i + 1] == months[..5 - i] + [key];
      i := i - 1;
    }
    assert order == months;
    var filled := Accumulate(data, ts, MonthOf);
    ZeroFilledRows(months, data, filled, ts, MonthOf);
    buckets := Entries(filled, order);
  }

  /**
   * The chart's expense bar for a month is the budget card's spending for that month:
   * slicing seven characters and comparing is the same test as `startsWith` on a
   * seven-character month.
   */
  lemma {:induction false} MonthBucketIsMonthlyExpenses(ts: seq<Transaction>, month: string)
    requires |month| == 7
    ensures Tallied(ts, month, MonthOf).expense == MonthlyExpenses(ts, month)
    decreases |ts|
  {
    if ts != [] {
      var t := ts[|ts| - 1];
      MonthBucketIsMonthlyExpenses(ts[..|ts| - 1], month);
      TakeMatchesPrefix(t.date, month);
    }
  }
}
