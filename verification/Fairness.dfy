/** Who waits for how long: the scheduler's choice and the bound on being passed over. */
module Fairness {
  import opened Options
  import opened ProcessTable
  import opened PickOrder
  import opened Machine
  import opened Regions
  import opened Protocol

  /** How often slot `j` can still be dispatched before slot `p`: until its count catches up. */
  function Debt(t: Table, p: nat, j: nat): nat
    requires p < |t| && j < |t|
  {
    var ahead := t[p].quants + (if j < p then 1 else 0);
    if j == p || ahead <= t[j].quants then 0 else ahead - t[j].quants
  }

  function Debts(t: Table, p: nat, n: nat): nat
    requires p < |t| && n <= |t|
  {
    if n == 0 then 0 else Debts(t, p, n - 1) + Debt(t, p, n - 1)
  }

  /** All others together. */
  function Potential(t: Table, p: nat): nat
    requires p < |t|
  {
    Debts(t, p, |t|)
  }

  /** The choice is the runnable slot with the smallest count, the lowest of them on a tie. */
  lemma ChoiceIsFirst(t: Table, p: nat)
    requires p < |t| && t[p].state == Runnable
    ensures Choice(t).Some? && (Choice(t).value == p || Before(t, Choice(t).value, p))
  {
    hide Order, Before;
    OrderSorted(t, |t|);
    OrderHas(t, p);
    var order := Order(t, |t|);
    var k :| 0 <= k < |order| && order[k] == p;
    var r := FirstRunnable(t, order, 0);
    if r.Some? && r.value != k {
      assert r.value < k;
    }
  }

  lemma {:induction false} DebtsSame(t: Table, u: Table, p: nat, n: nat)
    requires p < |t| == |u| && n <= |t| && forall j: nat :: j < n ==> Debt(u, p, j) == Debt(t, p, j)
    ensures Debts(u, p, n) == Debts(t, p, n)
  {
    if n > 0 {
      DebtsSame(t, u, p, n - 1);
    }
  }

  /** Dispatching somebody else pays off one of the debts. */
  lemma {:induction false} DebtsDrop(t: Table, u: Table, p: nat, j: nat, n: nat)
    requires p < |t| == |u| && j < n <= |t| && Debt(t, p, j) == Debt(u, p, j) + 1
    requires forall k: nat :: k < n && k != j ==> Debt(u, p, k) == Debt(t, p, k)
    ensures Debts(t, p, n) == Debts(u, p, n) + 1
  {
    hide Debt;
    if n - 1 == j {
      DebtsSame(t, u, p, n - 1);
    } else {
      DebtsDrop(t, u, p, j, n - 1);
    }
  }

  lemma DispatchPays(t: Table, p: nat, j: nat)
    requires p < |t| && j < |t| && j != p && Before(t, j, p)
    ensures Potential(t, p) == Potential(Dispatched(t, j), p) + 1
  {
    DebtsDrop(t, Dispatched(t, j), p, j, |t|);
  }

  /** Watching slot `slot` since it became able to run with count `quants`: it has been dispatched,
      or it can still run and no more than `bound` dispatches are possible before it is. */
  datatype Watch = Nothing | Watch(slot: nat, quants: nat, bound: nat)

  predicate Waits(t: Table, dispatches: nat, w: Watch) {
    w.Watch? ==>
      && w.slot < |t|
      && (|| t[w.slot].quants > w.quants
          || (t[w.slot].quants == w.quants && t[w.slot].state == Runnable && Potential(t, w.slot) + dispatches <= w.bound))
  }

  /** Whoever is being watched, the bound is kept. */
  ghost predicate KeepsWaits(c: Core, d: Core) {
    forall w: Watch :: Waits(c.table, c.dispatches, w) ==> Waits(d.table, d.dispatches, w)
  }

  /** No count changed, and what could run still can. */
  ghost predicate Steady(t: Table, u: Table) {
    |u| == |t| && forall j: nat :: j < |t| ==> u[j].quants == t[j].quants && (t[j].state == Runnable ==> u[j].state == Runnable)
  }

  lemma SteadyWaits(c: Core, d: Core)
    requires Steady(c.table, d.table) && d.dispatches == c.dispatches
    ensures KeepsWaits(c, d)
  {
    forall w: Watch | Waits(c.table, c.dispatches, w)
      ensures Waits(d.table, d.dispatches, w)
    {
      if w.Watch? {
        DebtsSame(c.table, d.table, w.slot, |c.table|);
      }
    }
  }

  /** The scheduler's choice pays off a debt to everybody it passes over. */
  lemma ChoiceWaits(c: Core, d: Core)
    requires Choice(c.table).Some? && d.dispatches == c.dispatches + 1
    requires Steady(Dispatched(c.table, Choice(c.table).value), d.table)
    ensures KeepsWaits(c, d)
  {
    hide Choice, Before;
    var j := Choice(c.table).value;
    var u := Dispatched(c.table, j);
    forall w: Watch | Waits(c.table, c.dispatches, w)
      ensures Waits(d.table, d.dispatches, w)
    {
      if w.Watch? && c.table[w.slot].quants == w.quants && w.slot != j {
        ChoiceIsFirst(c.table, w.slot);
        DispatchPays(c.table, w.slot, j);
        DebtsSame(u, d.table, w.slot, |u|);
      }
    }
  }
}
