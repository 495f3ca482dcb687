/** The loops of `Kernel`, `kwait` and `scheduler` over the process table, in place.  The locks they
    take slot by slot are in the machine. */
module KernelTables {
  import opened Options
  import opened ProcessTable
  import opened PickOrder
  import M = Machine
  import opened Regions
  import opened Protocol

  class Kernel {
    const table: array<Proc>
    var pid: nat

    constructor (table: array<Proc>)
      ensures this.table == table && pid == 0
    {
      this.table, pid := table, 0;
    }

    method Wakeup(chan: Option<nat>)
      modifies table
      ensures table[..] == Woken(old(table[..]), chan, 0)
    {
      ghost var t := table[..];
      for k := 0 to table.Length
        invariant forall j :: 0 <= j < table.Length ==> table[j] == if j < k then WokenProc(t[j], chan) else t[j]
      {
        if table[k].state == Sleeping && table[k].chan == chan {
          table[k] := table[k].(state := Runnable);
        }
      }
    }

    method Reparent(pid: Option<nat>)
      modifies table
      ensures table[..] == Reparented(old(table[..]), pid)
    {
      ghost var t := table[..];
      var anyChild := false;
      for k := 0 to table.Length
        invariant forall j :: 0 <= j < table.Length ==> table[j] == if j < k then AdoptedProc(t[j], pid) else t[j]
        invariant anyChild <==> exists j: nat :: (j < k && ChildAt(t, pid, j))
      {
        assert ChildAt(t, pid, k) <==> table[k].parent == pid;
        if table[k].parent == pid {
          table[k] := table[k].(parent := Some(0));
          anyChild := true;
        }
      }
      assert table[..] == Adopted(t, pid, 0);
      assert anyChild <==> HasChild(t, pid, 0);
      if anyChild {
        Wakeup(Some(0));
      } else {
        NoneAdopted(t, pid);
      }
    }

    /** The table part of `allocproc`: the first unused slot gets the next id. */
    method AllocProc() returns (r: Option<nat>)
      modifies this`pid, table
      ensures r == FirstUnused(old(table[..]), 0)
      ensures r.None? ==> table[..] == old(table[..]) && pid == old(pid)
      ensures r.Some? ==> pid == old(pid) + 1
      ensures r.Some? ==>
        table[..] == old(table[..])[r.value := old(table[..])[r.value].(pid := Some(old(pid)), state := Used)]
    {
      ghost var t := table[..];
      for k := 0 to table.Length
        invariant table[..] == t && pid == old(pid)
        invariant FirstUnused(t, 0) == FirstUnused(t, k)
      {
        if table[k].state == Unused {
          table[k] := table[k].(pid := Some(pid), state := Used);
          pid := pid + 1;
          return Some(k);
        }
      }
      r := None;
    }

    /** `kwait`'s scan: frees the first zombie child and answers its id and status, or says
        whether there is any child. */
    method ScanChildren(pid: Option<nat>) returns (zombie: Option<(Option<nat>, nat)>, hasKids: bool)
      modifies table
      ensures var t, z := old(table[..]), FirstZombie(old(table[..]), pid, 0);
        if z.Some? then
          zombie == Some((t[z.value].pid, t[z.value].xstatus)) && table[..] == t[z.value := Freed(t[z.value])]
        else zombie == None && table[..] == t && (hasKids <==> HasChild(t, pid, 0))
    {
      ghost var t := table[..];
      hasKids := false;
      for k := 0 to table.Length
        invariant table[..] == t && FirstZombie(t, pid, 0) == FirstZombie(t, pid, k)
        invariant hasKids <==> exists j: nat :: (j < k && ChildAt(t, pid, j))
      {
        assert ChildAt(t, pid, k) <==> table[k].parent == pid;
        if table[k].parent == pid {
          hasKids := true;
          if table[k].state == Zombie {
            zombie := Some((table[k].pid, table[k].xstatus));
            table[k] := Proc(None, Unused, None, None, 0, table[k].quants);
            return;
          }
        }
      }
      zombie := None;
      assert hasKids <==> HasChild(t, pid, 0);
    }

    /** The rest of that critical section: going to sleep on one's own id. */
    method PublishSleep(pid: Option<nat>) returns (found: Option<nat>)
      modifies table
      ensures found == M.SlotWithPid(old(table[..]), pid, 0)
      ensures table[..] == if found.Some? then Slept(old(table[..]), found.value) else old(table[..])
    {
      ghost var t := table[..];
      for k := 0 to table.Length
        invariant table[..] == t && M.SlotWithPid(t, pid, 0) == M.SlotWithPid(t, pid, k)
      {
        if table[k].pid == pid {
          table[k] := table[k].(chan := pid, state := Sleeping);
          return Some(k);
        }
      }
      found := None;
    }

    /** `scheduler`: the table part of one turn.  The order is a stable sort by `quants`. */
    method PickNext() returns (found: Option<nat>)
      modifies table
      ensures found == Choice(old(table[..]))
      ensures table[..] == if found.Some? then Dispatched(old(table[..]), found.value) else old(table[..])
    {
      ghost var t := table[..];
      var order := Order(table[..], table.Length);
      for k := 0 to |order|
        invariant table[..] == t && FirstRunnable(t, order, 0) == FirstRunnable(t, order, k)
      {
        var j := order[k];
        if table[j].state == Runnable {
          table[j] := table[j].(state := Running);
          table[j] := table[j].(quants := table[j].quants + 1);
          return Some(j);
        }
      }
      found := None;
    }
  }
}
