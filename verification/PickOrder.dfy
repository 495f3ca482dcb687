/** The order in which the scheduler looks at the table: a stable sort of the slots by `quants`. */
module PickOrder {
  import opened Options
  import opened ProcessTable

  /** Slot `j` comes before slot `k`. */
  predicate Before(t: Table, j: nat, k: nat)
    requires j < |t| && k < |t|
  {
    t[j].quants < t[k].quants || (t[j].quants == t[k].quants && j < k)
  }

  /** `j` put behind everything that does not come after it. */
  function Insert(t: Table, order: seq<nat>, j: nat): (r: seq<nat>)
    requires j < |t| && forall k :: 0 <= k < |order| ==> order[k] < |t|
    ensures |r| == |order| + 1 && forall k :: 0 <= k < |r| ==> r[k] < |t|
  {
    if order == [] || t[order[|order| - 1]].quants <= t[j].quants then order + [j]
    else Insert(t, order[..|order| - 1], j) + [order[|order| - 1]]
  }

  /** The first `n` slots in order: a stable insertion sort. */
  function Order(t: Table, n: nat): (r: seq<nat>)
    requires n <= |t|
    ensures |r| == n && forall k :: 0 <= k < n ==> r[k] < |t|
  {
    if n == 0 then [] else Insert(t, Order(t, n - 1), n - 1)
  }

  ghost predicate Sorted(t: Table, order: seq<nat>) {
    && (forall k :: 0 <= k < |order| ==> order[k] < |t|)
    && forall a, b :: 0 <= a < b < |order| ==> Before(t, order[a], order[b])
  }

  lemma {:induction false} InsertElements(t: Table, order: seq<nat>, j: nat)
    requires j < |t| && forall k :: 0 <= k < |order| ==> order[k] < |t|
    ensures multiset(Insert(t, order, j)) == multiset(order) + multiset{j}
  {
    if order != [] && t[order[|order| - 1]].quants > t[j].quants {
      InsertElements(t, order[..|order| - 1], j);
      assert order == order[..|order| - 1] + [order[|order| - 1]];
    }
  }

  lemma {:induction false} InsertSorted(t: Table, order: seq<nat>, j: nat)
    requires j < |t| && Sorted(t, order) && forall k :: 0 <= k < |order| ==> order[k] < j
    ensures Sorted(t, Insert(t, order, j))
  {
    if order != [] && t[order[|order| - 1]].quants > t[j].quants {
      var front, last := order[..|order| - 1], order[|order| - 1];
      InsertSorted(t, front, j);
      InsertedBefore(t, order, j);
      SortedSnoc(t, Insert(t, front, j), last);
    } else {
      SortedSnoc(t, order, j);
    }
  }

  /** What was in front of the last element, and what is put there, comes before it. */
  lemma InsertedBefore(t: Table, order: seq<nat>, j: nat)
    requires j < |t| && Sorted(t, order) && order != [] && t[order[|order| - 1]].quants > t[j].quants
    ensures var r, last := Insert(t, order[..|order| - 1], j), order[|order| - 1];
      forall a :: 0 <= a < |r| ==> Before(t, r[a], last)
  {
    hide Insert;
    var front, last := order[..|order| - 1], order[|order| - 1];
    var r := Insert(t, front, j);
    InsertElements(t, front, j);
    forall a | 0 <= a < |r|
      ensures Before(t, r[a], last)
    {
      assert r[a] in multiset(r);
      assert r[a] == j || r[a] in front;
    }
  }

  lemma SortedSnoc(t: Table, order: seq<nat>, last: nat)
    requires Sorted(t, order) && last < |t|
    requires order == [] || Before(t, order[|order| - 1], last)
    ensures Sorted(t, order + [last])
  {
  }

  /** `(0..n).collect()` */
  function Upto(n: nat): (r: seq<nat>)
    ensures |r| == n && forall k :: 0 <= k < n ==> r[k] == k
  {
    if n == 0 then [] else Upto(n - 1) + [n - 1]
  }

  /** The order is sorted, and it is a permutation of the slots. */
  lemma {:induction false} OrderSorted(t: Table, n: nat)
    requires n <= |t|
    ensures Sorted(t, Order(t, n))
    ensures multiset(Order(t, n)) == multiset(Upto(n))
  {
    hide Sorted, Insert, Before, Order, Upto;
    if n == 0 {
      NothingSorted(t);
    } else {
      OrderSorted(t, n - 1);
      var front := Order(t, n - 1);
      SameElements(front, Upto(n - 1));
      InsertSorted(t, front, n - 1);
      InsertElements(t, front, n - 1);
      OrderNext(t, n);
    }
  }

  lemma OrderNext(t: Table, n: nat)
    requires 0 < n <= |t|
    ensures Order(t, n) == Insert(t, Order(t, n - 1), n - 1)
    ensures var last: nat := n - 1; multiset(Upto(n)) == multiset(Upto(last)) + multiset{last}
  {
    hide Insert;
  }

  lemma NothingSorted(t: Table)
    ensures Sorted(t, Order(t, 0)) && Order(t, 0) == Upto(0)
  {
  }

  lemma SameElements(s: seq<nat>, r: seq<nat>)
    requires multiset(s) == multiset(r)
    ensures forall k :: 0 <= k < |s| ==> s[k] in r
    ensures forall k :: 0 <= k < |r| ==> r[k] in s
  {
    assert forall k :: 0 <= k < |s| ==> s[k] in multiset(s);
    assert forall k :: 0 <= k < |r| ==> r[k] in multiset(r);
  }

  /** Every slot is looked at. */
  lemma OrderHas(t: Table, j: nat)
    requires j < |t|
    ensures exists k :: (0 <= k < |t| && Order(t, |t|)[k] == j)
  {
    OrderSorted(t, |t|);
    SameElements(Order(t, |t|), Upto(|t|));
    assert Upto(|t|)[j] == j;
  }
}
