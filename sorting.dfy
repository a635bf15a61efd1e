/**
 * The three-way comparator of the history table (src/components/transaction-history-table.tsx)
 * and the sort it drives. `getAllTransactions` sorts with the same order on the date column,
 * descending.
 */
module Sorting {
  import opened Types
  import opened Text

  /** `keyof Transaction`: the columns a table can be sorted by. */
  datatype Field = IdKey | UserIdKey | TypeKey | AmountKey | DescriptionKey | CategoryKey | DateKey

  datatype Direction = Asc | Desc

  /** A column value as JavaScript sees it: a string, a number, or `undefined`. */
  datatype SortValue = Str(s: string) | Num(n: int) | Missing

  /** `a[sortKey]`. */
  function ValueOf(t: Transaction, f: Field): SortValue {
    match f
    case IdKey => Str(t.id)
    case UserIdKey => Str(t.userId)
    case TypeKey => Str(TypeName(t.kind))
    case AmountKey => Num(t.amount)
    case DescriptionKey => Str(t.description)
    case CategoryKey => if t.category.Some? then Str(CategoryName(t.category.value)) else Missing
    case DateKey => Str(t.date)
  }

  /**
   * JavaScript's `a > b` on two values of one column. Comparing with `undefined` is
   * false both ways; a string and a number never meet in one column.
   */
  predicate Greater(a: SortValue, b: SortValue) {
    match (a, b)
    case (Str(x), Str(y)) => Less(y, x)
    case (Num(x), Num(y)) => x > y
    case _ => false
  }

  lemma GreaterAsymmetric(a: SortValue, b: SortValue)
    ensures !(Greater(a, b) && Greater(b, a))
  {
    if a.Str? && b.Str? && Greater(a, b) {
      LessAsymmetric(b.s, a.s);
    }
  }

  /** `aValue > bValue ? 1 : aValue < bValue ? -1 : 0`. */
  function Compare(a: SortValue, b: SortValue): (c: int)
    ensures c == 1 <==> Greater(a, b)
    ensures c == -1 <==> Greater(b, a)
    ensures c == 0 <==> !Greater(a, b) && !Greater(b, a)
  {
    GreaterAsymmetric(a, b);
    if Greater(a, b) then 1 else if Greater(b, a) then -1 else 0
  }

  /**
   * The callback handed to `sort`: descending negates the comparison, so x goes after y
   * when its value is greater (ascending) or smaller (descending), and they tie when
   * neither value is greater.
   */
  function Comparator(x: Transaction, y: Transaction, f: Field, d: Direction): (r: int)
    ensures d == Asc ==> (r == 1 <==> Greater(ValueOf(x, f), ValueOf(y, f)))
    ensures d == Asc ==> (r == -1 <==> Greater(ValueOf(y, f), ValueOf(x, f)))
    ensures d == Desc ==> (r == 1 <==> Greater(ValueOf(y, f), ValueOf(x, f)))
    ensures d == Desc ==> (r == -1 <==> Greater(ValueOf(x, f), ValueOf(y, f)))
    ensures r == 0 <==> !Greater(ValueOf(x, f), ValueOf(y, f)) && !Greater(ValueOf(y, f), ValueOf(x, f))
  {
    var c := Compare(ValueOf(x, f), ValueOf(y, f));
    if d == Desc then -c else c
  }

  /** The comparator is antisymmetric on every column and in both directions. */
  lemma ComparatorAntisymmetric(x: Transaction, y: Transaction, f: Field, d: Direction)
    ensures Comparator(x, y, f, d) == -Comparator(y, x, f, d)
    ensures Comparator(x, y, f, d) in {-1, 0, 1}
  {
    GreaterAsymmetric(ValueOf(x, f), ValueOf(y, f));
  }

  /** On two present strings the comparison is a strict total order. */
  lemma StrCompareTotal(a: string, b: string)
    ensures Compare(Str(a), Str(b)) == 0 <==> a == b
  {
    if a == b {
      LessIrreflexive(a);
    } else {
      LessTotal(a, b);
    }
  }

  /**
   * On every column but the category column, "x does not come after y" is transitive,
   * so the comparator is a consistent total preorder.
   */
  lemma {:induction false} ComparatorTransitive(x: Transaction, y: Transaction, z: Transaction, f: Field, d: Direction)
    requires f != CategoryKey
    requires Comparator(x, y, f, d) <= 0 && Comparator(y, z, f, d) <= 0
    ensures Comparator(x, z, f, d) <= 0
  {
    var a, b, c := ValueOf(x, f), ValueOf(y, f), ValueOf(z, f);
    if f != AmountKey {
      if d == Asc {
        NotLessTransitive(a.s, b.s, c.s);
      } else {
        NotLessTransitive(c.s, b.s, a.s);
      }
    }
  }

  /**
   * On the category column a row without a category compares equal to every row, so
   * the comparator is not transitive there: Food "equals" a blank, the blank "equals"
   * Transport, yet Food comes before Transport.
   */
  lemma CategoryComparatorNotTransitive(x: Transaction, y: Transaction, z: Transaction)
    requires x.category == Some(Food) && y.category == None && z.category == Some(Transport)
    ensures Comparator(x, y, CategoryKey, Asc) == 0 && Comparator(y, z, CategoryKey, Asc) == 0
    ensures Comparator(x, z, CategoryKey, Asc) == -1
  {
    assert Less("Food", "Transport");
  }

  /** Every pair in order: no element compares after a later one. */
  ghost predicate SortedBy(s: seq<Transaction>, f: Field, d: Direction) {
    forall i, j :: 0 <= i < j < |s| ==> Comparator(s[i], s[j], f, d) <= 0
  }

  /** Place x before the first element it does not compare after. */
  function Insert(x: Transaction, s: seq<Transaction>, f: Field, d: Direction): (r: seq<Transaction>)
    ensures multiset(r) == multiset(s) + multiset{x}
    ensures |r| == |s| + 1
  {
    if s == [] then [x]
    else if Comparator(x, s[0], f, d) <= 0 then [x] + s
    else
      var rest := Insert(x, s[1..], f, d);
      assert s == [s[0]] + s[1..];
      [s[0]] + rest
  }

  /** `[...transactions].sort(comparator)`: a sorted copy; the input is not touched. */
  function SortBy(s: seq<Transaction>, f: Field, d: Direction): (r: seq<Transaction>)
    ensures multiset(r) == multiset(s)
    ensures |r| == |s|
  {
    if s == [] then []
    else
      assert s == [s[0]] + s[1..];
      Insert(s[0], SortBy(s[1..], f, d), f, d)
  }

  /** Every element that goes into Insert(x, s) is x or from s, so a bound on both bounds it. */
  lemma InsertBounded(x: Transaction, s: seq<Transaction>, y: Transaction, f: Field, d: Direction)
    requires Comparator(y, x, f, d) <= 0
    requires forall j :: 0 <= j < |s| ==> Comparator(y, s[j], f, d) <= 0
    ensures forall j :: 0 <= j < |Insert(x, s, f, d)| ==> Comparator(y, Insert(x, s, f, d)[j], f, d) <= 0
  {
    var r := Insert(x, s, f, d);
    forall j | 0 <= j < |r|
      ensures Comparator(y, r[j], f, d) <= 0
    {
      assert r[j] in multiset(r);
      assert r[j] == x || r[j] in multiset(s);
      if r[j] != x {
        var k :| 0 <= k < |s| && s[k] == r[j];
      }
    }
  }

  /** Placing x in front of a sorted s it does not compare after keeps it sorted. */
  lemma ConsSorted(x: Transaction, s: seq<Transaction>, f: Field, d: Direction)
    requires f != CategoryKey
    requires s != [] && SortedBy(s, f, d) && Comparator(x, s[0], f, d) <= 0
    ensures SortedBy([x] + s, f, d)
  {
    var r := [x] + s;
    forall j | 1 <= j < |r|
      ensures Comparator(x, r[j], f, d) <= 0
    {
      if j > 1 {
        ComparatorTransitive(x, s[0], s[j - 1], f, d);
      }
    }
  }

  lemma {:induction false} InsertSorted(x: Transaction, s: seq<Transaction>, f: Field, d: Direction)
    requires f != CategoryKey
    requires SortedBy(s, f, d)
    ensures SortedBy(Insert(x, s, f, d), f, d)
    decreases |s|
  {
    if s == [] {
    } else if Comparator(x, s[0], f, d) <= 0 {
      ConsSorted(x, s, f, d);
    } else {
      InsertSorted(x, s[1..], f, d);
      InsertBehindHead(x, s, f, d);
    }
  }

  /** The head of a sorted list does not compare after anything behind it. */
  lemma HeadBoundsTail(s: seq<Transaction>, f: Field, d: Direction)
    requires s != [] && SortedBy(s, f, d)
    ensures forall j :: 0 <= j < |s[1..]| ==> Comparator(s[0], s[1..][j], f, d) <= 0
  {
    forall j | 0 <= j < |s[1..]|
      ensures Comparator(s[0], s[1..][j], f, d) <= 0
    {
      assert s[1..][j] == s[j + 1];
    }
  }

  /** A head that does not compare after anything in a sorted list keeps it sorted. */
  lemma ConsBounded(y: Transaction, rest: seq<Transaction>, f: Field, d: Direction)
    requires SortedBy(rest, f, d)
    requires forall j :: 0 <= j < |rest| ==> Comparator(y, rest[j], f, d) <= 0
    ensures SortedBy([y] + rest, f, d)
  {
    var r := [y] + rest;
    forall a, b | 0 <= a < b < |r|
      ensures Comparator(r[a], r[b], f, d) <= 0
    {
      assert r[b] == rest[b - 1];
      if a > 0 {
        assert r[a] == rest[a - 1];
      }
    }
  }

  /** When x goes after the head of a sorted s, the head stays in front of the sorted rest. */
  lemma InsertBehindHead(x: Transaction, s: seq<Transaction>, f: Field, d: Direction)
    requires s != [] && SortedBy(s, f, d) && Comparator(x, s[0], f, d) > 0
    requires SortedBy(Insert(x, s[1..], f, d), f, d)
    ensures SortedBy(Insert(x, s, f, d), f, d)
  {
    ComparatorAntisymmetric(x, s[0], f, d);
    HeadBoundsTail(s, f, d);
    InsertBounded(x, s[1..], s[0], f, d);
    ConsBounded(s[0], Insert(x, s[1..], f, d), f, d);
  }

  /** The sorted copy is in order on every column but the category column. */
  lemma {:induction false} SortBySorted(s: seq<Transaction>, f: Field, d: Direction)
    requires f != CategoryKey
    ensures SortedBy(SortBy(s, f, d), f, d)
    decreases |s|
  {
    if s != [] {
      SortBySorted(s[1..], f, d);
      InsertSorted(s[0], SortBy(s[1..], f, d), f, d);
    }
  }

  /** Ascending on a column: the values never decrease. */
  lemma AscendingMeansNonDecreasing(s: seq<Transaction>, f: Field, i: int, j: int)
    requires SortedBy(s, f, Asc)
    requires 0 <= i < j < |s|
    ensures !Greater(ValueOf(s[i], f), ValueOf(s[j], f))
  {
    assert Comparator(s[i], s[j], f, Asc) <= 0;
  }

  /** Descending on a column: the values never increase. */
  lemma DescendingMeansNonIncreasing(s: seq<Transaction>, f: Field, i: int, j: int)
    requires SortedBy(s, f, Desc)
    requires 0 <= i < j < |s|
    ensures !Greater(ValueOf(s[j], f), ValueOf(s[i], f))
  {
    assert Comparator(s[i], s[j], f, Desc) <= 0;
  }
}
