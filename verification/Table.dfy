/** The process table as a value: what the kernel's loops over it compute, and what every one of
    its operations keeps. */
module ProcessTable {
  import opened Options

  datatype ProcState = Unused | Used | Sleeping | Runnable | Running | Zombie

  /** A slot of the table, without its memory and its saved registers. */
  datatype Proc = Proc(pid: Option<nat>, state: ProcState, parent: Option<nat>, chan: Option<nat>,
                       xstatus: nat, quants: nat)

  type Table = seq<Proc>

  // ----- what the loops compute -----

  function WokenProc(p: Proc, chan: Option<nat>): Proc {
    if p.state == Sleeping && p.chan == chan then p.(state := Runnable) else p
  }

  /** `wakeup` from slot `k` on. */
  function Woken(t: Table, chan: Option<nat>, k: nat): (r: Table)
    ensures |r| == |t| && forall j :: 0 <= j < |t| ==> r[j] == if j < k then t[j] else WokenProc(t[j], chan)
  {
    seq(|t|, (j: nat) requires j < |t| => if j < k then t[j] else WokenProc(t[j], chan))
  }

  function AdoptedProc(p: Proc, pid: Option<nat>): Proc {
    if p.parent == pid then p.(parent := Some(0)) else p
  }

  /** The table part of `reparent`'s loop from slot `k` on. */
  function Adopted(t: Table, pid: Option<nat>, k: nat): (r: Table)
    ensures |r| == |t| && forall j :: 0 <= j < |t| ==> r[j] == if j < k then t[j] else AdoptedProc(t[j], pid)
  {
    seq(|t|, (j: nat) requires j < |t| => if j < k then t[j] else AdoptedProc(t[j], pid))
  }

  predicate ChildAt(t: Table, pid: Option<nat>, j: nat) {
    j < |t| && t[j].parent == pid
  }

  predicate HasChild(t: Table, pid: Option<nat>, k: nat) {
    exists j: nat :: k <= j < |t| && ChildAt(t, pid, j)
  }

  /** `reparent`: children of `pid` become children of 0, which is woken if there are any. */
  function Reparented(t: Table, pid: Option<nat>): Table {
    if HasChild(t, pid, 0) then Woken(Adopted(t, pid, 0), Some(0), 0) else t
  }

  /** `Process::free`; the dispatch count stays. */
  function Freed(p: Proc): Proc {
    Proc(None, Unused, None, None, 0, p.quants)
  }

  /** `kexit` of slot `i`, up to the switch. */
  function Exited(t: Table, i: nat, xstatus: nat): Table
    requires i < |t|
  {
    var t1 := Woken(Reparented(t, t[i].pid), t[i].parent, 0);
    t1[i := t1[i].(xstatus := xstatus, state := Zombie)]
  }

  /** `kfork` of slot `i` into slot `c`. */
  function Forked(t: Table, i: nat, c: nat, pid: nat): Table
    requires i < |t| && c < |t|
  {
    t[c := t[c].(pid := Some(pid), state := Runnable, parent := t[i].pid)]
  }

  /** A slot whose state changes. */
  function Moved(t: Table, i: nat, state: ProcState): Table
    requires i < |t|
  {
    t[i := t[i].(state := state)]
  }

  /** The slot that goes to sleep in `kwait`, on its own pid. */
  function Slept(t: Table, i: nat): Table
    requires i < |t|
  {
    t[i := t[i].(state := Sleeping, chan := t[i].pid)]
  }

  /** `scheduler`'s choice of slot `j`. */
  function Dispatched(t: Table, j: nat): Table
    requires j < |t|
  {
    t[j := t[j].(state := Running, quants := t[j].quants + 1)]
  }

  // ----- what holds between any two critical regions -----

  /** Alive and not a zombie. */
  predicate Living(p: Proc) {
    p.pid.Some? && p.state != Zombie
  }

  /** Ids are unique and below the counter; a slot is unused exactly when it has no id; nobody is
      stuck half-made. */
  ghost predicate Ids(t: Table, nextPid: nat) {
    && (forall j :: 0 <= j < |t| ==> t[j].state != Used && (t[j].state == Unused <==> t[j].pid == None))
    && (forall j :: 0 <= j < |t| ==> (t[j].pid.Some? ==> t[j].pid.value < nextPid) && (t[j].pid == None ==> t[j].parent == None))
    && (forall j, k :: 0 <= j < |t| && 0 <= k < |t| && t[j].pid == t[k].pid && t[j].pid.Some? ==> j == k)
  }

  /** At most one process runs: the current one. */
  ghost predicate OneRunning(t: Table, current: Option<nat>) {
    && (current.Some? ==> current.value < |t|)
    && (forall j: nat :: j < |t| ==> (t[j].state == Running <==> current == Some(j)))
  }

  /** Slot `q` is the living process with id `pid`. */
  predicate LivingAt(t: Table, pid: Option<nat>, q: nat) {
    q < |t| && t[q].pid == pid && Living(t[q])
  }

  ghost predicate LivingId(t: Table, pid: Option<nat>) {
    exists q: nat :: LivingAt(t, pid, q)
  }

  /** Slot `j`'s place in the tree: process 0 has no parent, everybody else has a living one with
      a smaller id. */
  ghost predicate ParentOk(t: Table, j: nat)
    requires j < |t|
  {
    if t[j].pid == None then true
    else if t[j].pid == Some(0) then t[j].parent == None
    else t[j].parent.Some? && t[j].parent.value < t[j].pid.value && LivingId(t, t[j].parent)
  }

  /** The processes form a tree rooted in process 0, which is alive. */
  ghost predicate Tree(t: Table) {
    LivingId(t, Some(0)) && forall j: nat :: j < |t| ==> ParentOk(t, j)
  }

  /** From parent to parent, through living processes, slot `j` reaches process 0 in `n` steps. */
  ghost predicate Descends(t: Table, j: nat, n: nat)
    decreases n
  {
    && j < |t| && t[j].pid.Some?
    && if n == 0 then t[j].pid == Some(0)
       else exists q: nat :: LivingAt(t, t[j].parent, q) && Descends(t, q, n - 1)
  }

  /** The parent relation is a tree rooted in process 0. */
  lemma {:induction false} RootedInInit(t: Table, j: nat) returns (n: nat)
    requires Tree(t) && j < |t| && t[j].pid.Some?
    ensures Descends(t, j, n)
    decreases t[j].pid.value
  {
    assert ParentOk(t, j);
    if t[j].pid == Some(0) {
      n := 0;
    } else {
      var q: nat :| LivingAt(t, t[j].parent, q);
      var k := RootedInInit(t, q);
      n := k + 1;
    }
  }

  /** Slot `j` sleeps only in `kwait`: on its own id, with a child to wait for and none that has
      already exited. */
  ghost predicate SleepOk(t: Table, j: nat)
    requires j < |t|
  {
    t[j].state == Sleeping ==>
      t[j].chan == t[j].pid && HasChild(t, t[j].pid, 0)
      && forall k: nat :: ChildAt(t, t[j].pid, k) ==> t[k].state != Zombie
  }

  ghost predicate NoLostWakeup(t: Table) {
    forall j: nat :: j < |t| ==> SleepOk(t, j)
  }

  /** A returned exit status: to whom, and which. */
  datatype Return = Return(reaper: nat, status: nat)

  /** The history of exits agrees with the table: an id has exited when its slot is a zombie that
      still holds the status, or when that status has been returned, once. */
  ghost predicate History(t: Table, nextPid: nat, exits: map<nat, nat>, returned: map<nat, Return>) {
    && (forall p :: p in exits ==> p < nextPid)
    && (forall p :: p in returned ==> p in exits && returned[p].status == exits[p])
    && (forall j :: 0 <= j < |t| && t[j].pid.Some? ==> HistoryAt(t[j], exits, returned))
  }

  ghost predicate HistoryAt(p: Proc, exits: map<nat, nat>, returned: map<nat, Return>)
    requires p.pid.Some?
  {
    && p.pid.value !in returned
    && (p.pid.value in exits <==> p.state == Zombie)
    && (p.state == Zombie ==> exits[p.pid.value] == p.xstatus)
  }

  ghost predicate Sane(t: Table, nextPid: nat, current: Option<nat>, exits: map<nat, nat>, returned: map<nat, Return>) {
    && Ids(t, nextPid) && OneRunning(t, current) && Tree(t) && NoLostWakeup(t) && History(t, nextPid, exits, returned)
  }

  // ----- the operations keep it -----

  /** Changing what is runnable, running or sleeping to runnable or running changes nothing else. */
  lemma AwakeKeeps(t: Table, u: Table, nextPid: nat, current: Option<nat>, exits: map<nat, nat>, returned: map<nat, Return>)
    requires Ids(t, nextPid) && Tree(t) && NoLostWakeup(t) && History(t, nextPid, exits, returned)
    requires |u| == |t| && forall j: nat :: j < |t| ==> SameButAwake(t[j], u[j])
    requires OneRunning(u, current)
    ensures Sane(u, nextPid, current, exits, returned)
  {
    hide ParentOk, SleepOk;
    AwakeIds(t, u, nextPid);
    AwakeTree(t, u);
    AwakeSleep(t, u);
  }

  predicate SameButAwake(p: Proc, q: Proc) {
    && q.pid == p.pid && q.parent == p.parent && q.xstatus == p.xstatus
    && (|| (q.state == p.state && q.chan == p.chan)
        || (p.state in {Sleeping, Runnable, Running} && q.state in {Runnable, Running}))
  }

  lemma AwakeIds(t: Table, u: Table, nextPid: nat)
    requires |u| == |t| && forall j: nat :: j < |t| ==> SameButAwake(t[j], u[j])
    ensures Ids(t, nextPid) ==> Ids(u, nextPid)
  {
  }

  lemma AwakeTree(t: Table, u: Table)
    requires Tree(t) && |u| == |t| && forall j: nat :: j < |t| ==> SameButAwake(t[j], u[j])
    ensures Tree(u)
  {
    LivingStays(t, u, Some(0));
    forall j: nat | j < |u|
      ensures ParentOk(u, j)
    {
      assert ParentOk(t, j);
      LivingStays(t, u, t[j].parent);
    }
  }

  lemma LivingStays(t: Table, u: Table, pid: Option<nat>)
    requires |u| == |t| && forall j: nat :: j < |t| && t[j].pid == pid && Living(t[j]) ==> u[j].pid == pid && Living(u[j])
    ensures LivingId(t, pid) ==> LivingId(u, pid)
  {
    if LivingId(t, pid) {
      var q: nat :| LivingAt(t, pid, q);
      assert LivingAt(u, pid, q);
    }
  }

  lemma AwakeSleep(t: Table, u: Table)
    requires NoLostWakeup(t) && |u| == |t| && forall j: nat :: j < |t| ==> SameButAwake(t[j], u[j])
    ensures NoLostWakeup(u)
  {
    forall j: nat | j < |u|
      ensures SleepOk(u, j)
    {
      assert SleepOk(t, j);
      if u[j].state == Sleeping {
        var k: nat :| 0 <= k < |t| && ChildAt(t, t[j].pid, k);
        assert ChildAt(u, u[j].pid, k);
        forall k: nat | ChildAt(u, u[j].pid, k)
          ensures u[k].state != Zombie
        {
          assert ChildAt(t, t[j].pid, k);
        }
      }
    }
  }

  /** Yielding. */
  lemma YieldKeeps(t: Table, i: nat, nextPid: nat, exits: map<nat, nat>, returned: map<nat, Return>)
    requires Sane(t, nextPid, Some(i), exits, returned)
    ensures i < |t| && Sane(Moved(t, i, Runnable), nextPid, None, exits, returned)
  {
    hide Ids, Tree, NoLostWakeup, History;
    AwakeKeeps(t, Moved(t, i, Runnable), nextPid, None, exits, returned);
  }

  /** Dispatching a runnable process. */
  lemma DispatchKeeps(t: Table, j: nat, nextPid: nat, exits: map<nat, nat>, returned: map<nat, Return>)
    requires Sane(t, nextPid, None, exits, returned) && j < |t| && t[j].state == Runnable
    ensures Sane(Dispatched(t, j), nextPid, Some(j), exits, returned)
  {
    hide Ids, Tree, NoLostWakeup, History;
    AwakeKeeps(t, Dispatched(t, j), nextPid, Some(j), exits, returned);
  }

  /** The channel of a process that is not asleep does not matter. */
  lemma ForgetKeeps(t: Table, j: nat, chan: Option<nat>, nextPid: nat, current: Option<nat>, exits: map<nat, nat>, returned: map<nat, Return>)
    requires Sane(t, nextPid, current, exits, returned) && j < |t| && t[j].state == Running
    ensures Sane(t[j := t[j].(chan := chan)], nextPid, current, exits, returned)
  {
    hide Ids, Tree, NoLostWakeup, History;
    AwakeKeeps(t, t[j := t[j].(chan := chan)], nextPid, current, exits, returned);
  }

  // ----- exit -----

  /** What `kexit` makes of slot `j`. */
  lemma ExitedAt(t: Table, i: nat, xstatus: nat, j: nat)
    requires i < |t| && j < |t| && t[i].state == Running
    ensures var u, adopts := Exited(t, i, xstatus), HasChild(t, t[i].pid, 0);
      && |u| == |t| && u[j].pid == t[j].pid && u[j].quants == t[j].quants
      && u[j].parent == (if adopts then AdoptedProc(t[j], t[i].pid).parent else t[j].parent)
      && (j == i ==> u[j].state == Zombie && u[j].xstatus == xstatus)
      && (j != i ==> u[j].xstatus == t[j].xstatus && u[j].chan == t[j].chan)
      && (j != i && t[j].state != Sleeping ==> u[j].state == t[j].state)
      && (j != i && t[j].state == Sleeping ==>
            u[j].state == if t[j].chan == t[i].parent || (adopts && t[j].chan == Some(0)) then Runnable else Sleeping)
  {
  }

  lemma ExitKeeps(t: Table, i: nat, xstatus: nat, nextPid: nat, exits: map<nat, nat>, returned: map<nat, Return>)
    requires Sane(t, nextPid, Some(i), exits, returned) && t[i].pid != Some(0)
    ensures i < |t| && t[i].pid.Some?
    ensures Sane(Exited(t, i, xstatus), nextPid, None, exits[t[i].pid.value := xstatus], returned)
  {
    hide Exited, ParentOk, SleepOk, HasChild, HistoryAt, Woken, Reparented;
    assert ParentOk(t, i);
    ExitTree(t, i, xstatus, nextPid);
    ExitSleep(t, i, xstatus, nextPid);
    ExitIds(t, i, xstatus, nextPid);
    ExitHistory(t, i, xstatus, nextPid, exits, returned);
  }

  lemma ExitIds(t: Table, i: nat, xstatus: nat, nextPid: nat)
    requires Ids(t, nextPid) && OneRunning(t, Some(i))
    ensures Ids(Exited(t, i, xstatus), nextPid) && OneRunning(Exited(t, i, xstatus), None)
  {
    hide Exited, HasChild, Ids;
    var u := Exited(t, i, xstatus);
    forall j: nat | j < |t|
      ensures |u| == |t| && u[j].pid == t[j].pid && (t[j].pid == None && t[j].parent == None && t[i].pid.Some? ==> u[j].parent == None)
      ensures if j == i then u[j].state == Zombie
              else if t[j].state == Sleeping then u[j].state in {Sleeping, Runnable} else u[j].state == t[j].state
    {
      ExitedAt(t, i, xstatus, j);
    }
    ExitIdsOnly(t, u, i, nextPid);
  }

  lemma ExitIdsOnly(t: Table, u: Table, i: nat, nextPid: nat)
    requires Ids(t, nextPid) && i < |t| == |u| && t[i].state == Running
    requires forall j: nat :: j < |t| ==>
      && u[j].pid == t[j].pid && (t[j].pid == None && t[j].parent == None && t[i].pid.Some? ==> u[j].parent == None)
      && if j == i then u[j].state == Zombie
         else if t[j].state == Sleeping then u[j].state in {Sleeping, Runnable} else u[j].state == t[j].state
    ensures Ids(u, nextPid)
  {
  }

  lemma ExitTree(t: Table, i: nat, xstatus: nat, nextPid: nat)
    requires Ids(t, nextPid) && OneRunning(t, Some(i)) && Tree(t) && t[i].pid != Some(0)
    ensures Tree(Exited(t, i, xstatus))
  {
    hide Exited, HasChild;
    var u := Exited(t, i, xstatus);
    forall pid: Option<nat> | pid != t[i].pid && LivingId(t, pid)
      ensures LivingId(u, pid)
    {
      var q: nat :| LivingAt(t, pid, q);
      ExitedAt(t, i, xstatus, q);
      assert LivingAt(u, pid, q);
    }
    ExitedAt(t, i, xstatus, i);
    forall j: nat | j < |u|
      ensures ParentOk(u, j)
    {
      assert ParentOk(t, j);
      ExitedAt(t, i, xstatus, j);
      if t[j].parent == t[i].pid {
        HasChildAt(t, t[i].pid, j);
      }
    }
  }

  lemma HasChildAt(t: Table, pid: Option<nat>, j: nat)
    requires ChildAt(t, pid, j)
    ensures HasChild(t, pid, 0)
  {
  }

  lemma ExitSleep(t: Table, i: nat, xstatus: nat, nextPid: nat)
    requires Ids(t, nextPid) && OneRunning(t, Some(i)) && Tree(t) && NoLostWakeup(t) && t[i].pid != Some(0)
    ensures NoLostWakeup(Exited(t, i, xstatus))
  {
    hide Exited, HasChild, Tree;
    var u := Exited(t, i, xstatus);
    ExitedAt(t, i, xstatus, i);
    forall j: nat | j < |u|
      ensures SleepOk(u, j)
    {
      ExitedAt(t, i, xstatus, j);
      if u[j].state == Sleeping {
        assert SleepOk(t, j);
        ExitSleeper(t, i, xstatus, nextPid, j);
      }
    }
  }

  /** Somebody who is still asleep after an exit has the same children as before, and the exiting
      process is none of them. */
  lemma ExitSleeper(t: Table, i: nat, xstatus: nat, nextPid: nat, j: nat)
    requires Ids(t, nextPid) && OneRunning(t, Some(i)) && Tree(t) && t[i].pid != Some(0)
    requires j < |t| && j != i && t[j].state == Sleeping && SleepOk(t, j)
    requires |Exited(t, i, xstatus)| == |t| && Exited(t, i, xstatus)[j].state == Sleeping
    ensures SleepOk(Exited(t, i, xstatus), j)
  {
    hide Exited, HasChild;
    var u := Exited(t, i, xstatus);
    var pid := t[j].pid;
    ExitedAt(t, i, xstatus, j);
    assert ParentOk(t, i);
    forall k: nat | k < |t|
      ensures ChildAt(u, pid, k) <==> ChildAt(t, pid, k)
      ensures ChildAt(u, pid, k) ==> k != i && u[k].state != Zombie
    {
      ExitedAt(t, i, xstatus, k);
      if t[k].parent == t[i].pid {
        HasChildAt(t, t[i].pid, k);
      }
    }
    SameChildren(t, u, pid);
  }

  lemma SameChildren(t: Table, u: Table, pid: Option<nat>)
    requires |u| == |t| && forall k: nat :: k < |t| ==> (ChildAt(u, pid, k) <==> ChildAt(t, pid, k))
    ensures HasChild(u, pid, 0) <==> HasChild(t, pid, 0)
  {
  }

  lemma ExitHistory(t: Table, i: nat, xstatus: nat, nextPid: nat, exits: map<nat, nat>, returned: map<nat, Return>)
    requires Ids(t, nextPid) && OneRunning(t, Some(i)) && History(t, nextPid, exits, returned) && t[i].pid.Some?
    ensures History(Exited(t, i, xstatus), nextPid, exits[t[i].pid.value := xstatus], returned)
  {
    hide Exited, HasChild;
    var u, pid := Exited(t, i, xstatus), t[i].pid.value;
    ExitedAt(t, i, xstatus, i);
    assert HistoryAt(t[i], exits, returned);
    forall j: nat | j < |u| && u[j].pid.Some?
      ensures HistoryAt(u[j], exits[pid := xstatus], returned)
    {
      ExitedAt(t, i, xstatus, j);
      assert HistoryAt(t[j], exits, returned);
    }
  }

  // ----- wait -----

  /** Returning the status of zombie `k` to its parent `i` and freeing its slot. */
  lemma FreeKeeps(t: Table, i: nat, k: nat, nextPid: nat, exits: map<nat, nat>, returned: map<nat, Return>)
    requires Sane(t, nextPid, Some(i), exits, returned) && t[i].pid.Some?
    requires ChildAt(t, t[i].pid, k) && t[k].state == Zombie
    ensures k != i && t[k].pid.Some? && t[k].pid.value !in returned
    ensures Sane(t[k := Freed(t[k])], nextPid, Some(i), exits, returned[t[k].pid.value := Return(t[i].pid.value, t[k].xstatus)])
  {
    var u := t[k := Freed(t[k])];
    assert HistoryAt(t[k], exits, returned);
    FreeTree(t, k);
    FreeSleep(t, i, k);
    forall j: nat | j < |u| && u[j].pid.Some?
      ensures HistoryAt(u[j], exits, returned[t[k].pid.value := Return(t[i].pid.value, t[k].xstatus)])
    {
      assert HistoryAt(t[j], exits, returned);
    }
    hide ParentOk, SleepOk, LivingId;
  }

  lemma FreeTree(t: Table, k: nat)
    requires Tree(t) && k < |t| && t[k].state == Zombie
    ensures Tree(t[k := Freed(t[k])])
  {
    var u := t[k := Freed(t[k])];
    LivingStays(t, u, Some(0));
    forall j: nat | j < |u|
      ensures ParentOk(u, j)
    {
      assert ParentOk(t, j);
      LivingStays(t, u, t[j].parent);
    }
  }

  lemma FreeSleep(t: Table, i: nat, k: nat)
    requires NoLostWakeup(t) && i < |t| && ChildAt(t, t[i].pid, k) && t[k].state == Zombie && t[i].pid.Some?
    requires forall a, b :: 0 <= a < |t| && 0 <= b < |t| && t[a].pid == t[b].pid && t[a].pid.Some? ==> a == b
    requires t[i].state == Running && forall j :: 0 <= j < |t| ==> (t[j].state == Unused <==> t[j].pid == None)
    ensures NoLostWakeup(t[k := Freed(t[k])])
  {
    var u := t[k := Freed(t[k])];
    forall j: nat | j < |u|
      ensures SleepOk(u, j)
    {
      assert SleepOk(t, j);
      if u[j].state == Sleeping {
        var c: nat :| 0 <= c < |t| && ChildAt(t, t[j].pid, c);
        assert ChildAt(u, u[j].pid, c);
        forall c: nat | ChildAt(u, u[j].pid, c)
          ensures u[c].state != Zombie
        {
          assert ChildAt(t, t[j].pid, c);
        }
      }
    }
  }

  /** Going to sleep with a child, none of them a zombie. */
  lemma SleepKeeps(t: Table, i: nat, nextPid: nat, exits: map<nat, nat>, returned: map<nat, Return>)
    requires Sane(t, nextPid, Some(i), exits, returned)
    requires HasChild(t, t[i].pid, 0) && forall k: nat :: ChildAt(t, t[i].pid, k) ==> t[k].state != Zombie
    ensures i < |t| && Sane(Slept(t, i), nextPid, None, exits, returned)
  {
    var u := Slept(t, i);
    SleepTree(t, i);
    forall j: nat | j < |u|
      ensures SleepOk(u, j)
    {
      SleepSleep(t, i, j);
    }
    forall j: nat | j < |u| && u[j].pid.Some?
      ensures HistoryAt(u[j], exits, returned)
    {
      assert HistoryAt(t[j], exits, returned);
    }
    hide ParentOk, SleepOk, LivingId, HasChild;
  }

  lemma SleepTree(t: Table, i: nat)
    requires Tree(t) && i < |t| && t[i].state == Running
    ensures Tree(Slept(t, i))
  {
    var u := Slept(t, i);
    LivingStays(t, u, Some(0));
    forall j: nat | j < |u|
      ensures ParentOk(u, j)
    {
      assert ParentOk(t, j);
      LivingStays(t, u, t[j].parent);
    }
  }

  lemma SleepSleep(t: Table, i: nat, j: nat)
    requires NoLostWakeup(t) && i < |t| && t[i].state == Running && j < |t|
    requires HasChild(t, t[i].pid, 0) && forall k: nat :: ChildAt(t, t[i].pid, k) ==> t[k].state != Zombie
    ensures SleepOk(Slept(t, i), j)
  {
    hide HasChild;
    var u := Slept(t, i);
    assert SleepOk(t, j);
    forall k: nat
      ensures ChildAt(u, t[j].pid, k) <==> ChildAt(t, t[j].pid, k)
    {
    }
    SameChildren(t, u, t[j].pid);
  }

  // ----- fork -----

  lemma ForkKeeps(t: Table, i: nat, c: nat, nextPid: nat, exits: map<nat, nat>, returned: map<nat, Return>)
    requires Sane(t, nextPid, Some(i), exits, returned) && c < |t| && t[c].state == Unused
    ensures i < |t| && Sane(Forked(t, i, c, nextPid), nextPid + 1, Some(i), exits, returned)
  {
    var u := Forked(t, i, c, nextPid);
    ForkTree(t, i, c, nextPid);
    ForkSleep(t, i, c, nextPid);
    forall j: nat | j < |u| && u[j].pid.Some?
      ensures HistoryAt(u[j], exits, returned)
    {
      assert j != c ==> HistoryAt(t[j], exits, returned);
    }
    hide ParentOk, SleepOk, LivingId;
  }

  lemma ForkTree(t: Table, i: nat, c: nat, pid: nat)
    requires Tree(t) && Ids(t, pid) && i < |t| && c < |t| && t[i].state == Running && t[c].state == Unused
    ensures Tree(Forked(t, i, c, pid))
  {
    var u := Forked(t, i, c, pid);
    LivingStays(t, u, Some(0));
    forall j: nat | j < |u|
      ensures ParentOk(u, j)
    {
      assert ParentOk(t, j);
      LivingStays(t, u, t[j].parent);
      assert LivingAt(u, t[i].pid, i);
    }
    assert LivingId(t, Some(0));
  }

  lemma ForkSleep(t: Table, i: nat, c: nat, pid: nat)
    requires NoLostWakeup(t) && Ids(t, pid) && i < |t| && c < |t| && t[i].state == Running && t[c].state == Unused
    ensures NoLostWakeup(Forked(t, i, c, pid))
  {
    hide HasChild;
    var u := Forked(t, i, c, pid);
    forall j: nat | j < |u|
      ensures SleepOk(u, j)
    {
      assert SleepOk(t, j);
      if u[j].state == Sleeping {
        forall k: nat
          ensures ChildAt(u, t[j].pid, k) <==> ChildAt(t, t[j].pid, k)
        {
        }
        SameChildren(t, u, t[j].pid);
      }
    }
  }
}
