/** Running kernel code with interrupts off: no timer can come in between, so a stretch of it is
    one step.  The kernel's loops, each shown to compute the function on tables that describes it. */
module Regions {
  import opened Options
  import opened ProcessTable
  import opened PickOrder
  import opened Machine

  /** `n` steps with interrupts off lead from `c` to `d`; only at `d` may they be on again. */
  ghost predicate Goes(c: Core, d: Core, n: nat)
    decreases n
  {
    if n == 0 then c == d else !c.cpu.sie && Next(c).On? && Goes(Next(c).core, d, n - 1)
  }

  ghost predicate Leads(c: Core, d: Core) {
    exists n: nat :: Goes(c, d, n)
  }

  lemma LeadsSelf(c: Core)
    ensures Leads(c, c)
  {
    assert Goes(c, c, 0);
  }

  lemma {:induction false} GoesOn(c: Core, d: Core, e: Core, n: nat, k: nat)
    requires Goes(c, d, n) && Goes(d, e, k)
    ensures Goes(c, e, n + k)
    decreases n
  {
    hide Next;
    if n > 0 {
      GoesOn(Next(c).core, d, e, n - 1, k);
    }
  }

  lemma LeadsOn(c: Core, d: Core, e: Core)
    requires Leads(c, d) && Leads(d, e)
    ensures Leads(c, e)
  {
    hide Next;
    var n: nat :| Goes(c, d, n);
    var k: nat :| Goes(d, e, k);
    GoesOn(c, d, e, n, k);
  }

  /** One step. */
  lemma LeadsStep(c: Core, d: Core)
    requires !c.cpu.sie && Next(c) == On(d)
    ensures Leads(c, d)
  {
    assert Goes(d, d, 0);
    assert Goes(c, d, 1);
  }

  /** A step and what it leads to. */
  lemma StepThen(c: Core, d: Core, e: Core)
    requires !c.cpu.sie && Next(c) == On(d) && Leads(d, e)
    ensures Leads(c, e)
  {
    hide Goes;
    LeadsStep(c, d);
    LeadsOn(c, d, e);
  }

  // ----- locks -----

  function Locked(c: Core, m: Mutex, code: Code): Core {
    c.(cpu := Saved(c.cpu, false), held := c.held + {m}, code := code)
  }

  function Unlocked(c: Core, m: Mutex, code: Code): Core
    requires c.cpu.depth >= 1
  {
    c.(cpu := PoppedOn(c.cpu.(depth := c.cpu.depth - 1)), held := c.held - {m}, code := code)
  }

  lemma TakeLeads(c: Core, m: Mutex, rest: Code)
    requires c.code == Do(Take(m), rest) && !c.cpu.sie && m !in c.held
    ensures Leads(c, Locked(c, m, rest))
  {
    hide Leads, Goes;
    var c1 := c.(code := Do(PushRead, Do(Acquire(m), rest)));
    var c2 := c.(code := Do(PushOff, Do(PushSave(false), Do(Acquire(m), rest))));
    var c3 := c.(code := Do(PushSave(false), Do(Acquire(m), rest)));
    var c4 := c.(cpu := Saved(c.cpu, false), code := Do(Acquire(m), rest));
    LeadsStep(c4, Locked(c, m, rest));
    StepThen(c3, c4, Locked(c, m, rest));
    StepThen(c2, c3, Locked(c, m, rest));
    StepThen(c1, c2, Locked(c, m, rest));
    StepThen(c, c1, Locked(c, m, rest));
  }

  lemma GiveLeads(c: Core, m: Mutex, rest: Code)
    requires c.code == Do(Give(m), rest) && !c.cpu.sie && m in c.held && c.cpu.depth >= 1
    ensures Leads(c, Unlocked(c, m, rest))
  {
    hide Leads, Goes;
    var c1 := c.(code := Do(Release(m), Do(PopDec, Do(PopOn, rest))));
    var c2 := c.(held := c.held - {m}, code := Do(PopDec, Do(PopOn, rest)));
    var c3 := c2.(cpu := c.cpu.(depth := c.cpu.depth - 1), code := Do(PopOn, rest));
    LeadsStep(c3, Unlocked(c, m, rest));
    StepThen(c2, c3, Unlocked(c, m, rest));
    StepThen(c1, c2, Unlocked(c, m, rest));
    StepThen(c, c1, Unlocked(c, m, rest));
  }

  /** Inside a region, taking a lock and giving it back leaves the hart as it was. */
  lemma TakeGive(c: Core, m: Mutex)
    requires c.cpu.depth >= 1 && m !in c.held
    ensures Saved(c.cpu, false).(depth := c.cpu.depth) == c.cpu && PoppedOn(c.cpu) == c.cpu
    ensures c.held + {m} - {m} == c.held
  {
  }

  /** A lock taken and given back inside a region, as the heap allocator's is: level, locks and the
      remembered state are as before. */
  lemma LeafSection(c: Core, m: Mutex, rest: Code)
    requires c.code == Do(Take(m), Do(Give(m), rest)) && !c.cpu.sie && c.cpu.depth >= 1 && m !in c.held
    ensures Leads(c, c.(code := rest))
  {
    hide Leads, Goes;
    var c1 := Locked(c, m, Do(Give(m), rest));
    TakeGive(c, m);
    TakeLeads(c, m, Do(Give(m), rest));
    GiveLeads(c1, m, rest);
    LeadsOn(c, c1, c.(code := rest));
  }

  /** The same with interrupts off but no level raised: what is remembered is that they were off. */
  lemma OuterSection(c: Core, m: Mutex, rest: Code)
    requires c.code == Do(Take(m), Do(Give(m), rest)) && !c.cpu.sie && c.cpu.depth == 0 && m !in c.held
    ensures Leads(c, c.(cpu := c.cpu.(prev := false), code := rest))
  {
    hide Leads, Goes;
    var c1 := Locked(c, m, Do(Give(m), rest));
    assert c1.held - {m} == c.held;
    TakeLeads(c, m, Do(Give(m), rest));
    GiveLeads(c1, m, rest);
    LeadsOn(c, c1, c.(cpu := c.cpu.(prev := false), code := rest));
  }

  // ----- wakeup -----

  ghost predicate NoneHeld(c: Core, k: nat) {
    forall j: nat :: j >= k ==> Own(j) !in c.held
  }

  lemma {:induction false} WakeLeads(c: Core, chan: Option<nat>, k: nat, rest: Code)
    requires c.code == Do(WakeFrom(chan, k), rest) && k <= |c.table|
    requires !c.cpu.sie && c.cpu.depth >= 1 && NoneHeld(c, k)
    ensures Leads(c, c.(table := Woken(c.table, chan, k), code := rest))
    decreases |c.table| - k
  {
    hide Leads, Goes;
    if k == |c.table| {
      assert Woken(c.table, chan, k) == c.table;
      LeadsStep(c, c.(code := rest));
    } else {
      WakeOne(c, chan, k, rest);
      var d := c.(table := c.table[k := WokenProc(c.table[k], chan)], code := Do(WakeFrom(chan, k + 1), rest));
      WakeLeads(d, chan, k + 1, rest);
      assert Woken(d.table, chan, k + 1) == Woken(c.table, chan, k);
      LeadsOn(c, d, c.(table := Woken(c.table, chan, k), code := rest));
    }
  }

  lemma WakeOne(c: Core, chan: Option<nat>, k: nat, rest: Code)
    requires c.code == Do(WakeFrom(chan, k), rest) && k < |c.table|
    requires !c.cpu.sie && c.cpu.depth >= 1 && Own(k) !in c.held
    ensures Leads(c, c.(table := c.table[k := WokenProc(c.table[k], chan)], code := Do(WakeFrom(chan, k + 1), rest)))
  {
    hide Leads, Goes, WokenProc, ZombieStep, AllocStep, AdoptStep, ScanStep, ScanTestStep, SchedStep, DispatchStep,
         PickStep;
    var after := Do(WakeFrom(chan, k + 1), rest);
    var c1 := c.(code := Do(Take(Own(k)), Do(WakeTest(chan, k), Do(Give(Own(k)), after))));
    var c2 := Locked(c1, Own(k), Do(WakeTest(chan, k), Do(Give(Own(k)), after)));
    var c3 := c2.(table := c.table[k := WokenProc(c.table[k], chan)], code := Do(Give(Own(k)), after));
    TakeGive(c, Own(k));
    WakeTested(c2, c3, chan, k, after);
    TakeLeads(c1, Own(k), Do(WakeTest(chan, k), Do(Give(Own(k)), after)));
    LeadsOn(c1, c2, Unlocked(c3, Own(k), after));
    StepThen(c, c1, Unlocked(c3, Own(k), after));
  }

  lemma WakeTested(c2: Core, c3: Core, chan: Option<nat>, k: nat, after: Code)
    requires c2.code == Do(WakeTest(chan, k), Do(Give(Own(k)), after)) && k < |c2.table| && !c2.cpu.sie
    requires Own(k) in c2.held && c2.cpu.depth >= 1
    requires c3 == c2.(table := c2.table[k := WokenProc(c2.table[k], chan)], code := Do(Give(Own(k)), after))
    ensures Leads(c2, Unlocked(c3, Own(k), after))
  {
    hide Leads, Goes, WokenProc, ZombieStep, AllocStep, AdoptStep, ScanStep, ScanTestStep, SchedStep, DispatchStep,
         PickStep;
    GiveLeads(c3, Own(k), after);
    StepThen(c2, c3, Unlocked(c3, Own(k), after));
  }

  // ----- reparent -----

  lemma {:induction false} AdoptLeads(c: Core, pid: Option<nat>, k: nat, any: bool, rest: Code)
    requires c.code == Do(AdoptFrom(pid, k, any), rest) && k <= |c.table| && !c.cpu.sie
    ensures Leads(c, c.(table := Adopted(c.table, pid, k),
                        code := if any || HasChild(c.table, pid, k) then Do(WakeFrom(Some(0), 0), rest) else rest))
    decreases |c.table| - k
  {
    hide Leads, Goes, HasChild;
    HasChildStep(c.table, pid, k);
    var e := c.(table := Adopted(c.table, pid, k),
                code := if any || HasChild(c.table, pid, k) then Do(WakeFrom(Some(0), 0), rest) else rest);
    if k == |c.table| {
      assert Adopted(c.table, pid, k) == c.table;
      LeadsStep(c, e);
    } else {
      var t1 := c.table[k := AdoptedProc(c.table[k], pid)];
      var d := c.(table := t1, code := Do(AdoptFrom(pid, k + 1, any || c.table[k].parent == pid), rest));
      AdoptLeads(d, pid, k + 1, any || c.table[k].parent == pid, rest);
      assert Adopted(t1, pid, k + 1) == Adopted(c.table, pid, k);
      HasChildFrame(c.table, k, AdoptedProc(c.table[k], pid), pid, k + 1);
      assert c.table[k].parent != pid ==> t1 == c.table;
      StepThen(c, d, e);
    }
  }

  lemma HasChildStep(t: Table, pid: Option<nat>, k: nat)
    requires k <= |t|
    ensures k == |t| ==> !HasChild(t, pid, k)
    ensures k < |t| ==> (HasChild(t, pid, k) <==> t[k].parent == pid || HasChild(t, pid, k + 1))
  {
    if k < |t| && t[k].parent == pid {
      assert ChildAt(t, pid, k);
    }
  }

  lemma HasChildFrame(t: Table, k: nat, p: Proc, pid: Option<nat>, from: nat)
    requires k < from && k < |t|
    ensures HasChild(t[k := p], pid, from) <==> HasChild(t, pid, from)
  {
    var u := t[k := p];
    if HasChild(u, pid, from) {
      var j: nat :| from <= j < |u| && ChildAt(u, pid, j);
      assert ChildAt(t, pid, j);
    }
    if HasChild(t, pid, from) {
      var j: nat :| from <= j < |t| && ChildAt(t, pid, j);
      assert ChildAt(u, pid, j);
    }
  }

  lemma ReparentLeads(c: Core, i: nat, rest: Code)
    requires c.code == Do(ReparentOf(i), rest) && i < |c.table|
    requires !c.cpu.sie && c.cpu.depth >= 1 && NoneHeld(c, 0)
    ensures Leads(c, c.(table := Reparented(c.table, c.table[i].pid), code := rest))
  {
    hide Leads, Goes, HasChild, NoneHeld;
    var pid := c.table[i].pid;
    var c1 := c.(code := Do(AdoptFrom(pid, 0, false), rest));
    AdoptLeads(c1, pid, 0, false, rest);
    var e := c.(table := Reparented(c.table, pid), code := rest);
    if HasChild(c.table, pid, 0) {
      var c2 := c.(table := Adopted(c.table, pid, 0), code := Do(WakeFrom(Some(0), 0), rest));
      assert NoneHeld(c2, 0) by { HeldSame(c, c2); }
      WakeLeads(c2, Some(0), 0, rest);
      LeadsOn(c1, c2, e);
    } else {
      NoneAdopted(c.table, pid);
    }
    StepThen(c, c1, e);
  }

  lemma HeldSame(c: Core, d: Core)
    requires NoneHeld(c, 0) && d.held == c.held
    ensures NoneHeld(d, 0)
  {
  }

  lemma NoneAdopted(t: Table, pid: Option<nat>)
    requires !HasChild(t, pid, 0)
    ensures Adopted(t, pid, 0) == t
  {
    forall j: nat | j < |t|
      ensures t[j].parent != pid
    {
      if t[j].parent == pid {
        HasChildAt(t, pid, j);
      }
    }
  }

  // ----- kwait's scan -----

  /** The first zombie child from slot `k` on. */
  function FirstZombie(t: Table, pid: Option<nat>, k: nat): (r: Option<nat>)
    requires k <= |t|
    ensures r.Some? ==> k <= r.value < |t| && ChildAt(t, pid, r.value) && t[r.value].state == Zombie
    ensures r.None? ==> forall j: nat :: k <= j && ChildAt(t, pid, j) ==> t[j].state != Zombie
    decreases |t| - k
  {
    if k == |t| then None
    else if t[k].parent == pid && t[k].state == Zombie then Some(k)
    else FirstZombie(t, pid, k + 1)
  }

  /** Where the scan ends, `KERNEL` still being held. */
  function Scanned(c: Core, i: nat, pid: nat, k: nat, kids: bool, rest: Code): Core
    requires k <= |c.table|
  {
    var z := FirstZombie(c.table, Some(pid), k);
    if z.Some? then
      var p := c.table[z.value];
      c.(table := c.table[z.value := Freed(p)],
         returned := if p.pid.Some? then c.returned[p.pid.value := Return(pid, p.xstatus)] else c.returned,
         code := Do(Give(Kernel), Do(Answer(p), rest)))
    else if kids || HasChild(c.table, Some(pid), k) then
      var j := SlotWithPid(c.table, Some(pid), 0);
      c.(code := SleepCode(i, if j.Some? then j.value else 0, Some(pid), rest))
    else c.(code := Do(Give(Kernel), rest))
  }

  /** What the scan relies on: zombies have ids whose status has not been returned, and the
      current process is the one with the given id. */
  ghost predicate ScanOk(c: Core, i: nat, pid: nat) {
    && c.cpu.current == Some(i) && i < |c.table| && c.table[i].pid == Some(pid)
    && (forall j :: 0 <= j < |c.table| && c.table[j].state == Zombie ==>
          c.table[j].pid.Some? && c.table[j].pid.value !in c.returned)
    && SlotWithPid(c.table, Some(pid), 0).Some?
  }

  lemma {:induction false} ScanLeads(c: Core, i: nat, pid: nat, k: nat, kids: bool, rest: Code)
    requires c.code == Do(ScanFrom(i, Some(pid), k, kids), rest) && k <= |c.table|
    requires !c.cpu.sie && c.cpu.depth >= 1 && NoneHeld(c, 0) && ScanOk(c, i, pid)
    ensures Leads(c, Scanned(c, i, pid, k, kids, rest))
    decreases |c.table| - k
  {
    hide Leads, Goes, HasChild, NoneHeld, Freed, ZombieStep, AllocStep, AdoptStep, ScanTestStep, SchedStep,
         DispatchStep, PickStep;
    HasChildStep(c.table, Some(pid), k);
    var e := Scanned(c, i, pid, k, kids, rest);
    if k == |c.table| {
      LeadsStep(c, e);
    } else if c.table[k].parent != Some(pid) {
      var d := c.(code := Do(ScanFrom(i, Some(pid), k + 1, kids), rest));
      assert NoneHeld(d, 0) by { HeldSame(c, d); }
      ScanLeads(d, i, pid, k + 1, kids, rest);
      StepThen(c, d, e);
    } else {
      ScanChild(c, i, pid, k, kids, rest);
      if c.table[k].state != Zombie {
        var d := c.(code := Do(ScanFrom(i, Some(pid), k + 1, true), rest));
        assert NoneHeld(d, 0) by { HeldSame(c, d); }
        ScanLeads(d, i, pid, k + 1, true, rest);
        LeadsOn(c, d, e);
      }
    }
  }

  /** One child: freed if it is a zombie. */
  lemma ScanChild(c: Core, i: nat, pid: nat, k: nat, kids: bool, rest: Code)
    requires c.code == Do(ScanFrom(i, Some(pid), k, kids), rest) && k < |c.table| && c.table[k].parent == Some(pid)
    requires !c.cpu.sie && c.cpu.depth >= 1 && NoneHeld(c, 0) && ScanOk(c, i, pid)
    ensures c.table[k].state == Zombie ==> Leads(c, Scanned(c, i, pid, k, kids, rest))
    ensures c.table[k].state != Zombie ==> Leads(c, c.(code := Do(ScanFrom(i, Some(pid), k + 1, true), rest)))
  {
    hide Leads, Goes, HasChild, Freed, Scanned, ScanOk;
    var c1 := c.(code := Do(Take(Own(k)), Do(ScanTest(i, Some(pid), k), rest)));
    var c2 := Locked(c1, Own(k), Do(ScanTest(i, Some(pid), k), rest));
    var e := if c.table[k].state == Zombie then Scanned(c, i, pid, k, kids, rest)
             else c.(code := Do(ScanFrom(i, Some(pid), k + 1, true), rest));
    ScanTested(c, c2, i, pid, k, kids, rest);
    TakeLeads(c1, Own(k), Do(ScanTest(i, Some(pid), k), rest));
    LeadsOn(c1, c2, e);
    StepThen(c, c1, e);
  }

  lemma ScanTested(c: Core, c2: Core, i: nat, pid: nat, k: nat, kids: bool, rest: Code)
    requires k < |c.table| && c.table[k].parent == Some(pid)
    requires c2 == Locked(c, Own(k), Do(ScanTest(i, Some(pid), k), rest))
    requires !c.cpu.sie && c.cpu.depth >= 1 && NoneHeld(c, 0) && ScanOk(c, i, pid)
    ensures Leads(c2, if c.table[k].state == Zombie then Scanned(c, i, pid, k, kids, rest)
                      else c.(code := Do(ScanFrom(i, Some(pid), k + 1, true), rest)))
  {
    hide Leads, Goes, HasChild, Freed;
    var p := c.table[k];
    var zombie := p.state == Zombie;
    var after := if zombie then Do(Give(Kernel), Do(Answer(p), rest)) else Do(ScanFrom(i, Some(pid), k + 1, true), rest);
    var c3 := c2.(table := if zombie then c.table[k := Freed(p)] else c.table,
                  returned := if zombie then c.returned[p.pid.value := Return(pid, p.xstatus)] else c.returned,
                  code := Do(Give(Own(k)), after));
    TakeGive(c, Own(k));
    GiveLeads(c3, Own(k), after);
    StepThen(c2, c3, Unlocked(c3, Own(k), after));
  }

  // ----- allocproc -----

  function FirstUnused(t: Table, k: nat): (r: Option<nat>)
    requires k <= |t|
    ensures r.Some? ==> k <= r.value < |t| && t[r.value].state == Unused
    ensures r.None? ==> forall j :: k <= j < |t| ==> t[j].state != Unused
    decreases |t| - k
  {
    if k == |t| then None else if t[k].state == Unused then Some(k) else FirstUnused(t, k + 1)
  }

  function Allocated(c: Core, i: nat, k: nat, rest: Code): Core
    requires k <= |c.table| == |c.ctx| && i < |c.table|
  {
    var free := FirstUnused(c.table, k);
    if free.Some? then
      c.(table := c.table[free.value := c.table[free.value].(pid := Some(c.nextPid), state := Used)],
         nextPid := c.nextPid + 1, ctx := c.ctx[free.value := Do(Forkret, End)],
         code := ForkRest(free.value, c.table[i].pid, rest))
    else c.(code := Do(Give(Kernel), Do(Panic, rest)))
  }

  lemma {:induction false} AllocLeads(c: Core, i: nat, k: nat, rest: Code)
    requires c.code == Do(AllocFrom(i, k), rest) && k <= |c.table| == |c.ctx| && i < |c.table| && !c.cpu.sie
    ensures Leads(c, Allocated(c, i, k, rest))
    decreases |c.table| - k
  {
    hide Leads, Goes;
    if k == |c.table| || c.table[k].state == Unused {
      LeadsStep(c, Allocated(c, i, k, rest));
    } else {
      var d := c.(code := Do(AllocFrom(i, k + 1), rest));
      AllocLeads(d, i, k + 1, rest);
      StepThen(c, d, Allocated(c, i, k, rest));
    }
  }

  // ----- the scheduler's choice -----

  function FirstRunnable(t: Table, order: seq<nat>, k: nat): (r: Option<nat>)
    requires k <= |order| && forall a :: 0 <= a < |order| ==> order[a] < |t|
    ensures r.Some? ==> k <= r.value < |order| && t[order[r.value]].state == Runnable
    ensures forall a :: k <= a < (if r.Some? then r.value else |order|) ==> t[order[a]].state != Runnable
    decreases |order| - k
  {
    if k == |order| then None
    else if t[order[k]].state == Runnable then Some(k)
    else FirstRunnable(t, order, k + 1)
  }

  function Picked(c: Core, order: seq<nat>, k: nat): Core
    requires k <= |order| && forall a :: 0 <= a < |order| ==> order[a] < |c.table|
  {
    var p := FirstRunnable(c.table, order, k);
    if p.Some? then
      var j := order[p.value];
      Locked(c, Own(j), Do(Give(Kernel), Do(Dispatch(j), End))).(table := c.table[j := c.table[j].(state := Running)])
    else c.(code := Do(Give(Kernel), Do(IntOn, IDLE)))
  }

  lemma {:induction false} PickLeads(c: Core, order: seq<nat>, k: nat)
    requires c.code == Do(PickFrom(order, k), End) && k <= |order| && forall a :: 0 <= a < |order| ==> order[a] < |c.table|
    requires !c.cpu.sie && c.cpu.depth >= 1 && NoneHeld(c, 0)
    ensures Leads(c, Picked(c, order, k))
    decreases |order| - k
  {
    hide Leads, Goes, NoneHeld;
    var e := Picked(c, order, k);
    if k == |order| {
      LeadsStep(c, e);
    } else {
      PickOne(c, order, k);
      if c.table[order[k]].state != Runnable {
        var d := c.(code := Do(PickFrom(order, k + 1), End));
        assert NoneHeld(d, 0) by { HeldSame(c, d); }
        PickLeads(d, order, k + 1);
        LeadsOn(c, d, e);
      }
    }
  }

  /** One slot looked at: taken if it can run. */
  lemma PickOne(c: Core, order: seq<nat>, k: nat)
    requires c.code == Do(PickFrom(order, k), End) && k < |order| && forall a :: 0 <= a < |order| ==> order[a] < |c.table|
    requires !c.cpu.sie && c.cpu.depth >= 1 && NoneHeld(c, 0)
    ensures c.table[order[k]].state == Runnable ==> Leads(c, Picked(c, order, k))
    ensures c.table[order[k]].state != Runnable ==> Leads(c, c.(code := Do(PickFrom(order, k + 1), End)))
  {
    hide Leads, Goes, ZombieStep, AllocStep, AdoptStep, ScanStep, ScanTestStep, SchedStep, DispatchStep;
    var j, after := order[k], Do(PickFrom(order, k + 1), End);
    var c1 := c.(code := Do(Take(Own(j)), Do(PickTest(order, k), End)));
    var c2 := Locked(c1, Own(j), Do(PickTest(order, k), End));
    TakeLeads(c1, Own(j), Do(PickTest(order, k), End));
    var d := if c.table[j].state == Runnable then Picked(c, order, k) else c.(code := after);
    if c.table[j].state == Runnable {
      PickTaken(c, c2, j, order, k);
    } else {
      PickPassed(c, c2, j, order, k);
    }
    LeadsOn(c1, c2, d);
    StepThen(c, c1, d);
  }

  lemma PickTaken(c: Core, c2: Core, j: nat, order: seq<nat>, k: nat)
    requires c2 == Locked(c, Own(j), Do(PickTest(order, k), End)) && k < |order| && order[k] == j < |c.table|
    requires forall a :: 0 <= a < |order| ==> order[a] < |c.table|
    requires !c.cpu.sie && c.cpu.depth >= 1 && c.table[j].state == Runnable
    ensures Leads(c2, Picked(c, order, k))
  {
    hide Leads, Goes, ZombieStep, AllocStep, AdoptStep, ScanStep, ScanTestStep, SchedStep, DispatchStep;
    LeadsStep(c2, Picked(c, order, k));
  }

  lemma PickPassed(c: Core, c2: Core, j: nat, order: seq<nat>, k: nat)
    requires c2 == Locked(c, Own(j), Do(PickTest(order, k), End)) && k < |order| && order[k] == j < |c.table|
    requires !c.cpu.sie && c.cpu.depth >= 1 && NoneHeld(c, 0) && c.table[j].state != Runnable
    ensures Leads(c2, c.(code := Do(PickFrom(order, k + 1), End)))
  {
    hide Leads, Goes, ZombieStep, AllocStep, AdoptStep, ScanStep, ScanTestStep, SchedStep, DispatchStep;
    var after := Do(PickFrom(order, k + 1), End);
    var c3 := c2.(code := Do(Give(Own(j)), after));
    TakeGive(c, Own(j));
    GiveLeads(c3, Own(j), after);
    StepThen(c2, c3, c.(code := after));
  }
}
