/** The sort controls of the transaction history table (src/components/transaction-history-table.tsx). */
module History {
  import opened Types
  import opened Sorting

  function Flip(d: Direction): (r: Direction)
    ensures r != d
  {
    if d == Asc then Desc else Asc
  }

  /** The two pieces of React state behind the column headers. */
  class SortState {
    var key: Option<Field>
    var direction: Direction

    /** The table opens sorted by date, newest first. */
    constructor ()
      ensures key == Some(DateKey) && direction == Desc
    {
      key := Some(DateKey);
      direction := Desc;
    }

    /**
     * `handleSort`: clicking the current column flips the direction; clicking another
     * column selects it, ascending.
     */
    method HandleSort(k: Option<Field>)
      modifies this
      ensures key == k
      ensures old(key) == k ==> direction == Flip(old(direction))
      ensures old(key) != k ==> direction == Asc
    {
      if key == k {
        direction := if direction == Asc then Desc else Asc;
      } else {
        key := k;
        direction := Asc;
      }
    }
  }

  /**
   * `sortedTransactions`: no key leaves the list as it is; otherwise a sorted copy that is
   * a permutation of the input.
   */
  function SortedTransactions(ts: seq<Transaction>, key: Option<Field>, d: Direction): (r: seq<Transaction>)
    ensures key.None? ==> r == ts
    ensures multiset(r) == multiset(ts)
    ensures key.Some? && key.value != CategoryKey ==> SortedBy(r, key.value, d)
  {
    if key.None? then ts
    else
      if key.value != CategoryKey then SortBySorted(ts, key.value, d); SortBy(ts, key.value, d)
      else SortBy(ts, key.value, d)
  }
}
