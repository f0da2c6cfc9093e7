/** Deleting the oldest items until a size budget is met: the loop everybody
    would write, and what it leaves. Used by the Hub's log cleanup and by the
    Agent's spool. */
module Budget {

  function Total<T>(items: seq<T>, size: T -> nat): nat {
    if items == [] then 0 else size(items[0]) + Total(items[1..], size)
  }

  /** While the total is over the budget, drop the oldest item. */
  function DropOldest<T>(items: seq<T>, size: T -> nat, max: int): seq<T>
    requires max >= 0
  {
    if Total(items, size) <= max then items else DropOldest(items[1..], size, max)
  }

  /** How many items that drops. */
  function DropCount<T>(items: seq<T>, size: T -> nat, max: int): (n: nat)
    requires max >= 0
    ensures n <= |items|
  {
    if Total(items, size) <= max then 0 else 1 + DropCount(items[1..], size, max)
  }

  lemma TotalSuffix<T>(items: seq<T>, size: T -> nat, i: nat)
    requires i < |items|
    ensures Total(items[i..], size) == size(items[i]) + Total(items[i + 1..], size)
  {
    assert items[i..][1..] == items[i + 1..];
  }

  /** What is kept is a suffix; it fits; and every longer suffix does not. */
  lemma {:induction false} DropOldestIsLeast<T>(items: seq<T>, size: T -> nat, max: int)
    requires max >= 0
    ensures var k := DropCount(items, size, max);
            DropOldest(items, size, max) == items[k..] && Total(items[k..], size) <= max &&
            forall j :: 0 <= j < k ==> Total(items[j..], size) > max
  {
    if Total(items, size) > max {
      DropOldestIsLeast(items[1..], size, max);
      var k := DropCount(items, size, max);
      assert items[1..][k - 1..] == items[k..];
      forall j | 0 <= j < k ensures Total(items[j..], size) > max {
        if j > 0 {
          assert items[1..][j - 1..] == items[j..];
        } else {
          assert items[0..] == items;
        }
      }
    } else {
      assert items[0..] == items;
    }
  }

  /** Only one cut has that property. */
  lemma LeastCutIsDropCount<T>(items: seq<T>, size: T -> nat, max: int, k: nat)
    requires max >= 0 && k <= |items| && Total(items[k..], size) <= max
    requires forall j :: 0 <= j < k ==> Total(items[j..], size) > max
    ensures k == DropCount(items, size, max) && items[k..] == DropOldest(items, size, max)
  {
    DropOldestIsLeast(items, size, max);
  }
}
