/** What the kernel's critical regions do as a whole, from the point where interrupts can come to
    the next such point. */
module Protocol {
  import opened Options
  import opened ProcessTable
  import opened PickOrder
  import opened Machine
  import opened Regions

  /** A hart in the middle of process `i`'s region: one lock held, entered with interrupts on. */
  function Begun(c: Core, i: nat, m: Mutex, body: Code): Core {
    c.(cpu := Cpu(Some(i), 1, true, false), held := {m}, code := body)
  }

  // ----- the control transfer -----

  /** The machine after process `i` has left the hart; `prev` is what its outermost lock saved. */
  function Left(s: Core, i: nat, rest: Code): Core
    requires i < |s.ctx|
  {
    s.(ctx := s.ctx[i := Do(RestorePrev(s.cpu.prev), rest)], cpu := Cpu(None, 0, s.cpu.prev, s.cpu.prev), held := {}, code := IDLE)
  }

  /** `sched` is reached with exactly the process's own lock, which the scheduler gives back. */
  ghost predicate Leaving(s: Core, i: nat) {
    && s.held == {Own(i)} && s.cpu.depth == 1 && !s.cpu.sie && s.cpu.current == Some(i)
    && i < |s.table| && i < |s.ctx| && s.table[i].state != Running && s.sched == Do(AfterRun(i), End)
  }

  lemma LeaveLeads(s: Core, i: nat, rest: Code)
    requires Leaving(s, i) && s.code == Do(Sched(i), rest)
    ensures Leads(s, Left(s, i, rest))
  {
    hide Leads, Goes;
    var s1 := s.(ctx := s.ctx[i := Do(RestorePrev(s.cpu.prev), rest)], code := s.sched);
    var s2 := s1.(cpu := s.cpu.(current := None), code := Do(Give(Own(i)), IDLE));
    GiveLeads(s2, Own(i), IDLE);
    assert s.held - {Own(i)} == {};
    StepThen(s1, s2, Left(s, i, rest));
    StepThen(s, s1, Left(s, i, rest));
  }

  // ----- yeld -----

  function Yielded(c: Core, i: nat, rest: Code): Core
    requires i < |c.ctx| && i < |c.table|
  {
    Left(c.(table := Moved(c.table, i, Runnable), cpu := c.cpu.(prev := false)), i, Do(Give(Own(i)), rest))
  }

  lemma YieldLeads(c: Core, i: nat, rest: Code)
    requires c.code == YieldCode(i, rest) && c.cpu == Cpu(Some(i), 0, c.cpu.prev, false) && c.held == {}
    requires i < |c.table| && i < |c.ctx| && c.sched == Do(AfterRun(i), End)
    ensures Leads(c, Yielded(c, i, rest))
  {
    hide Leads, Goes;
    var c0 := c.(cpu := c.cpu.(prev := false), code := Do(Take(Own(i)), HeapUse(YieldBody(i, rest))));
    var c1 := Locked(c0, Own(i), HeapUse(YieldBody(i, rest)));
    var c2 := c1.(code := YieldBody(i, rest));
    OuterSection(c, Heap, c0.code);
    TakeLeads(c0, Own(i), HeapUse(YieldBody(i, rest)));
    LeafSection(c1, Heap, YieldBody(i, rest));
    YieldLeaves(c, c2, i, rest);
    LeadsOn(c1, c2, Yielded(c, i, rest));
    LeadsOn(c0, c1, Yielded(c, i, rest));
    LeadsOn(c, c0, Yielded(c, i, rest));
  }

  lemma YieldLeaves(c: Core, c2: Core, i: nat, rest: Code)
    requires c.cpu == Cpu(Some(i), 0, c.cpu.prev, false) && c.held == {}
    requires i < |c.table| && i < |c.ctx| && c.sched == Do(AfterRun(i), End)
    requires c2 == c.(cpu := Cpu(Some(i), 1, false, false), held := {Own(i)}, code := YieldBody(i, rest))
    ensures Leads(c2, Yielded(c, i, rest))
  {
    hide Leads, Goes;
    var after := Do(Sched(i), Do(Give(Own(i)), rest));
    var c3 := c2.(table := Moved(c.table, i, Runnable), code := after);
    LeaveLeads(c3, i, Do(Give(Own(i)), rest));
    StepThen(c2, c3, Yielded(c, i, rest));
  }

  // ----- kexit -----

  function ExitDone(c: Core, i: nat, xstatus: nat): Core
    requires i < |c.ctx| && i < |c.table|
  {
    var exits := if c.table[i].pid.Some? then c.exits[c.table[i].pid.value := xstatus] else c.exits;
    Left(c.(table := Exited(c.table, i, xstatus), cpu := c.cpu.(prev := true), exits := exits), i, Do(Cordyceps, End))
  }

  /** Under `KERNEL`, with `held` beneath it: the children handed over, or the parent woken. */
  lemma ReparentRegion(s: Core, i: nat, rest: Code)
    requires s.code == Do(Take(Kernel), Do(ReparentOf(i), Do(Give(Kernel), rest)))
    requires s.held == {Local(i)} && s.cpu.depth == 1 && !s.cpu.sie && i < |s.table|
    ensures Leads(s, s.(table := Reparented(s.table, s.table[i].pid), code := rest))
  {
    hide Leads, Goes, Reparented;
    var s1 := Locked(s, Kernel, Do(ReparentOf(i), Do(Give(Kernel), rest)));
    var s2 := s1.(table := Reparented(s.table, s.table[i].pid), code := Do(Give(Kernel), rest));
    var e := s.(table := Reparented(s.table, s.table[i].pid), code := rest);
    TakeGive(s, Kernel);
    TakeLeads(s, Kernel, Do(ReparentOf(i), Do(Give(Kernel), rest)));
    ReparentLeads(s1, i, Do(Give(Kernel), rest));
    GiveLeads(s2, Kernel, rest);
    LeadsOn(s1, s2, e);
    LeadsOn(s, s1, e);
  }

  lemma WakeParentRegion(s: Core, i: nat, rest: Code)
    requires s.code == Do(Take(Kernel), Do(WakeParentOf(i), Do(Give(Kernel), rest)))
    requires s.held == {Local(i)} && s.cpu.depth == 1 && !s.cpu.sie && i < |s.table|
    ensures Leads(s, s.(table := Woken(s.table, s.table[i].parent, 0), code := rest))
  {
    hide Leads, Goes, Woken;
    var s1 := Locked(s, Kernel, Do(WakeParentOf(i), Do(Give(Kernel), rest)));
    var s2 := s1.(code := Do(WakeFrom(s.table[i].parent, 0), Do(Give(Kernel), rest)));
    var s3 := s1.(table := Woken(s.table, s.table[i].parent, 0), code := Do(Give(Kernel), rest));
    var e := s.(table := Woken(s.table, s.table[i].parent, 0), code := rest);
    TakeGive(s, Kernel);
    TakeLeads(s, Kernel, Do(WakeParentOf(i), Do(Give(Kernel), rest)));
    WakeLeads(s2, s.table[i].parent, 0, Do(Give(Kernel), rest));
    GiveLeads(s3, Kernel, rest);
    LeadsOn(s2, s3, e);
    StepThen(s1, s2, e);
    LeadsOn(s, s1, e);
  }

  /** The last part: the status, the state, and the locks changing hands out of order. */
  lemma ZombieRegion(s: Core, i: nat, xstatus: nat)
    requires s.code == Do(Take(Own(i)), Do(SetStatus(i, xstatus), Do(BecomeZombie(i),
                       Do(Give(Local(i)), Do(Sched(i), Do(Cordyceps, End))))))
    requires s.held == {Local(i)} && s.cpu.depth == 1 && s.cpu.current == Some(i) && !s.cpu.sie
    requires i < |s.table| && i < |s.ctx| && s.sched == Do(AfterRun(i), End)
    requires s.table[i].pid.Some? && s.table[i].pid.value !in s.exits
    ensures Leads(s, Left(s.(table := s.table[i := s.table[i].(xstatus := xstatus, state := Zombie)],
                             exits := s.exits[s.table[i].pid.value := xstatus]), i, Do(Cordyceps, End)))
  {
    hide Leads, Goes;
    var after := Do(Sched(i), Do(Cordyceps, End));
    var t := s.table[i := s.table[i].(xstatus := xstatus, state := Zombie)];
    var exits := s.exits[s.table[i].pid.value := xstatus];
    var s1 := Locked(s, Own(i), Do(SetStatus(i, xstatus), Do(BecomeZombie(i), Do(Give(Local(i)), after))));
    var s2 := s1.(table := s.table[i := s.table[i].(xstatus := xstatus)], code := Do(BecomeZombie(i), Do(Give(Local(i)), after)));
    var s3 := s1.(table := t, exits := exits, code := Do(Give(Local(i)), after));
    var s4 := s.(held := {Own(i)}, table := t, exits := exits, code := after);
    var e := Left(s.(table := t, exits := exits), i, Do(Cordyceps, End));
    TakeLeads(s, Own(i), Do(SetStatus(i, xstatus), Do(BecomeZombie(i), Do(Give(Local(i)), after))));
    LeaveLeads(s4, i, Do(Cordyceps, End));
    GiveLocal(s3, s4, i, after);
    LeadsOn(s3, s4, e);
    StepThen(s2, s3, e);
    StepThen(s1, s2, e);
    LeadsOn(s, s1, e);
  }

  lemma GiveLocal(s3: Core, s4: Core, i: nat, after: Code)
    requires s3.code == Do(Give(Local(i)), after) && s3.held == {Local(i)} + {Own(i)} && s3.cpu.depth == 2 && !s3.cpu.sie
    requires s4 == s3.(cpu := s3.cpu.(depth := 1), held := {Own(i)}, code := after)
    ensures Leads(s3, s4)
  {
    hide Leads, Goes;
    assert s3.held - {Local(i)} == {Own(i)};
    GiveLeads(s3, Local(i), after);
  }

  lemma ExitLeads(c: Core, i: nat, xstatus: nat)
    requires i < |c.table| && i < |c.ctx| && c.cpu.current == Some(i) && c.sched == Do(AfterRun(i), End)
    requires c.table[i].pid.Some? && c.table[i].pid.value !in c.exits && c.table[i].state == Running
    requires c.table[i].parent != c.table[i].pid
    ensures Leads(Begun(c, i, Local(i), ExitBody(i, xstatus)), ExitDone(c, i, xstatus))
  {
    hide Leads, Goes, Reparented, Woken;
    var b := Begun(c, i, Local(i), ExitBody(i, xstatus));
    var zombie := Do(Take(Own(i)), Do(SetStatus(i, xstatus), Do(BecomeZombie(i),
                  Do(Give(Local(i)), Do(Sched(i), Do(Cordyceps, End))))));
    var wake := Do(Take(Kernel), Do(WakeParentOf(i), Do(Give(Kernel), zombie)));
    SelfKept(c.table, i);
    var t1 := Reparented(c.table, c.table[i].pid);
    var t2 := Woken(t1, c.table[i].parent, 0);
    var b1 := b.(table := t1, code := wake);
    var b2 := b.(table := t2, code := zombie);
    ReparentRegion(b, i, wake);
    WakeParentRegion(b1, i, zombie);
    ZombieRegion(b2, i, xstatus);
    LeadsOn(b1, b2, ExitDone(c, i, xstatus));
    LeadsOn(b, b1, ExitDone(c, i, xstatus));
  }

  /** `kexit`'s loops do not touch the exiting process's own slot. */
  lemma SelfKept(t: Table, i: nat)
    requires i < |t| && t[i].state == Running && t[i].parent != t[i].pid
    ensures var t1 := Reparented(t, t[i].pid);
      |t1| == |t| && t1[i] == t[i] && |Woken(t1, t[i].parent, 0)| == |t| && Woken(t1, t[i].parent, 0)[i] == t[i]
  {
  }

  // ----- kwait -----

  function WaitDone(c: Core, i: nat, pid: nat): Core
    requires i < |c.ctx| && i < |c.table|
  {
    var z := FirstZombie(c.table, Some(pid), 0);
    var on := c.(cpu := Cpu(Some(i), 0, true, true), held := {});
    if z.Some? then
      var p := c.table[z.value];
      on.(table := c.table[z.value := Freed(p)],
          returned := if p.pid.Some? then c.returned[p.pid.value := Return(pid, p.xstatus)] else c.returned,
          code := Do(Answer(p), TAIL))
    else if HasChild(c.table, Some(pid), 0) then
      Left(c.(table := Slept(c.table, i), cpu := c.cpu.(prev := true)), i, WokenCode(i, TAIL))
    else on.(code := TAIL)
  }

  lemma SleepLeads(s: Core, i: nat, pid: nat)
    requires s.held == {Kernel} && s.cpu == Cpu(Some(i), 1, true, false) && s.code == SleepCode(i, i, Some(pid), TAIL)
    requires i < |s.table| && i < |s.ctx| && s.sched == Do(AfterRun(i), End) && s.table[i].pid == Some(pid)
    ensures Leads(s, Left(s.(table := Slept(s.table, i)), i, WokenCode(i, TAIL)))
  {
    hide Leads, Goes;
    var after := Do(Sched(i), WokenCode(i, TAIL));
    var s1 := Locked(s, Own(i), Do(SetChan(i, Some(pid)), Do(SetState(i, Sleeping), Do(Give(Kernel), after))));
    var s2 := s1.(table := s.table[i := s.table[i].(chan := Some(pid))], code := Do(SetState(i, Sleeping), Do(Give(Kernel), after)));
    var s3 := s1.(table := Slept(s.table, i), code := Do(Give(Kernel), after));
    var s4 := s.(table := Slept(s.table, i), held := {Own(i)}, code := after);
    var e := Left(s.(table := Slept(s.table, i)), i, WokenCode(i, TAIL));
    TakeLeads(s, Own(i), Do(SetChan(i, Some(pid)), Do(SetState(i, Sleeping), Do(Give(Kernel), after))));
    LeaveLeads(s4, i, WokenCode(i, TAIL));
    assert s3.held - {Kernel} == {Own(i)};
    GiveLeads(s3, Kernel, after);
    LeadsOn(s3, s4, e);
    StepThen(s2, s3, e);
    StepThen(s1, s2, e);
    LeadsOn(s, s1, e);
  }

  lemma WaitLeads(c: Core, i: nat, pid: nat)
    requires i < |c.table| && i < |c.ctx| && c.cpu.current == Some(i) && c.sched == Do(AfterRun(i), End)
    requires SlotWithPid(c.table, Some(pid), 0) == Some(i)
    requires forall j :: 0 <= j < |c.table| && c.table[j].state == Zombie ==>
      c.table[j].pid.Some? && c.table[j].pid.value !in c.returned
    ensures Leads(Begun(c, i, Kernel, WaitBody(i, Some(pid), TAIL)), WaitDone(c, i, pid))
  {
    hide Leads, Goes, HasChild, Freed;
    var b := Begun(c, i, Kernel, WaitBody(i, Some(pid), TAIL));
    var s := Scanned(b, i, pid, 0, false, TAIL);
    ScanLeads(b, i, pid, 0, false, TAIL);
    assert s.held == {Kernel} && s.held - {Kernel} == {};
    if FirstZombie(c.table, Some(pid), 0).None? && HasChild(c.table, Some(pid), 0) {
      SleepLeads(s, i, pid);
    } else {
      var z := FirstZombie(c.table, Some(pid), 0);
      GiveLeads(s, Kernel, if z.Some? then Do(Answer(c.table[z.value]), TAIL) else TAIL);
    }
    LeadsOn(b, s, WaitDone(c, i, pid));
  }

  // ----- kfork -----

  function ForkDone(c: Core, i: nat): Core
    requires i < |c.table| == |c.ctx|
  {
    var free := FirstUnused(c.table, 0);
    var on := c.(cpu := Cpu(Some(i), 0, true, true), held := {});
    if free.Some? then
      on.(table := Forked(c.table, i, free.value, c.nextPid), nextPid := c.nextPid + 1,
          ctx := c.ctx[free.value := Do(Forkret, End)], code := TAIL)
    else on.(code := Do(Panic, TAIL))
  }

  /** Everything from `allocproc` to the end, for slot `k`. */
  lemma ForkRestLeads(s: Core, i: nat, k: nat, parent: Option<nat>)
    requires s.held == {Kernel} && s.cpu == Cpu(Some(i), 1, true, false) && s.code == ForkRest(k, parent, TAIL)
    requires k < |s.table|
    ensures Leads(s, s.(table := s.table[k := s.table[k].(parent := parent, state := Runnable)],
                        cpu := Cpu(Some(i), 0, true, true), held := {}, code := TAIL))
  {
    hide Leads, Goes;
    var last := Do(Give(Kernel), TAIL);
    var second := Do(SetParent(k, parent), Do(Take(Own(k)), Do(SetState(k, Runnable), Do(Give(Own(k)), last))));
    var t1 := s.table[k := s.table[k].(parent := parent)];
    var t2 := s.table[k := s.table[k].(parent := parent, state := Runnable)];
    var s1 := s.(code := second);
    var s2 := s.(table := t1, code := second.rest);
    var s3 := s.(table := t2, code := last);
    var e := s.(table := t2, cpu := Cpu(Some(i), 0, true, true), held := {}, code := TAIL);
    assert t1[k := t1[k].(state := Runnable)] == t2;
    ForkCopied(s, k, second);
    ForkReady(s2, k, last);
    assert s3.held - {Kernel} == {};
    GiveLeads(s3, Kernel, TAIL);
    LeadsOn(s2, s3, e);
    StepThen(s1, s2, e);
    LeadsOn(s, s1, e);
  }

  lemma ForkCopied(s: Core, k: nat, second: Code)
    requires s.held == {Kernel} && s.cpu.depth == 1 && !s.cpu.sie
    requires s.code == Do(Take(Own(k)), Do(ForkCopy, Do(Give(Own(k)), second)))
    ensures Leads(s, s.(code := second))
  {
    hide Leads, Goes;
    var s1 := Locked(s, Own(k), Do(ForkCopy, Do(Give(Own(k)), second)));
    var copied := s1.(code := HeapUse(Do(Give(Own(k)), second)));
    var s2 := s1.(code := Do(Give(Own(k)), second));
    TakeGive(s, Own(k));
    TakeLeads(s, Own(k), Do(ForkCopy, Do(Give(Own(k)), second)));
    GiveLeads(s2, Own(k), second);
    LeafSection(copied, Heap, Do(Give(Own(k)), second));
    LeadsOn(copied, s2, s.(code := second));
    StepThen(s1, copied, s.(code := second));
    LeadsOn(s, s1, s.(code := second));
  }

  lemma ForkReady(s: Core, k: nat, last: Code)
    requires s.held == {Kernel} && s.cpu.depth == 1 && !s.cpu.sie && k < |s.table|
    requires s.code == Do(Take(Own(k)), Do(SetState(k, Runnable), Do(Give(Own(k)), last)))
    ensures Leads(s, s.(table := s.table[k := s.table[k].(state := Runnable)], code := last))
  {
    hide Leads, Goes;
    var t := s.table[k := s.table[k].(state := Runnable)];
    var s1 := Locked(s, Own(k), Do(SetState(k, Runnable), Do(Give(Own(k)), last)));
    var s2 := s1.(table := t, code := Do(Give(Own(k)), last));
    TakeGive(s, Own(k));
    TakeLeads(s, Own(k), Do(SetState(k, Runnable), Do(Give(Own(k)), last)));
    GiveLeads(s2, Own(k), last);
    StepThen(s1, s2, s.(table := t, code := last));
    LeadsOn(s, s1, s.(table := t, code := last));
  }

  lemma ForkLeads(c: Core, i: nat)
    requires i < |c.table| == |c.ctx| && c.cpu.current == Some(i)
    ensures Leads(Begun(c, i, Kernel, ForkBody(i, TAIL)), ForkDone(c, i))
  {
    hide Leads, Goes;
    var b := Begun(c, i, Kernel, ForkBody(i, TAIL));
    var s := Allocated(b, i, 0, TAIL);
    AllocLeads(b, i, 0, TAIL);
    var free := FirstUnused(c.table, 0);
    if free.Some? {
      ForkRestLeads(s, i, free.value, c.table[i].pid);
      ForkedTable(c.table, i, free.value, c.nextPid);
    } else {
      assert s.held - {Kernel} == {};
      GiveLeads(s, Kernel, Do(Panic, TAIL));
    }
    LeadsOn(b, s, ForkDone(c, i));
  }

  lemma ForkedTable(t: Table, i: nat, k: nat, pid: nat)
    requires i < |t| && k < |t|
    ensures var t1 := t[k := t[k].(pid := Some(pid), state := Used)];
      t1[k := t1[k].(parent := t[i].pid, state := Runnable)] == Forked(t, i, k, pid)
  {
  }

  // ----- scheduler -----

  const PICK: Code := Do(Take(Kernel), Do(Pick, End))

  /** The slot the scheduler takes: the first runnable one in order. */
  function Choice(t: Table): (r: Option<nat>)
    ensures r.Some? ==> r.value < |t| && t[r.value].state == Runnable
  {
    var order := Order(t, |t|);
    var p := FirstRunnable(t, order, 0);
    if p.Some? then Some(order[p.value]) else None
  }

  /** A hart about to continue process `j`: its lock handed over by the scheduler. */
  function Entering(c: Core, j: nat): Core
    requires j < |c.table| && j < |c.ctx|
  {
    c.(table := Dispatched(c.table, j), cpu := Cpu(Some(j), 1, false, false), held := {Own(j)},
       sched := Do(AfterRun(j), End), code := c.ctx[j], dispatches := c.dispatches + 1)
  }

  lemma PickRegion(c: Core)
    requires c.code == PICK && c.cpu == Cpu(None, 0, c.cpu.prev, false) && c.held == {} && |c.ctx| == |c.table|
    ensures Choice(c.table).Some? ==> Leads(c, Entering(c, Choice(c.table).value))
    ensures Choice(c.table).None? ==> Leads(c, c.(cpu := Cpu(None, 0, false, false), code := Do(IntOn, IDLE)))
  {
    hide Leads, Goes;
    var order := Order(c.table, |c.table|);
    var c1 := Locked(c, Kernel, Do(Pick, End));
    var c2 := c1.(code := Do(PickFrom(order, 0), End));
    var c3 := Picked(c2, order, 0);
    TakeLeads(c, Kernel, Do(Pick, End));
    PickLeads(c2, order, 0);
    var e := if Choice(c.table).Some? then Entering(c, Choice(c.table).value)
             else c.(cpu := Cpu(None, 0, false, false), code := Do(IntOn, IDLE));
    PickedLeads(c, c3, e);
    LeadsOn(c2, c3, e);
    PickStart(c1, c2, e);
    LeadsOn(c, c1, e);
  }

  lemma PickStart(c: Core, d: Core, e: Core)
    requires c.code == Do(Pick, End) && !c.cpu.sie && d == c.(code := Do(PickFrom(Order(c.table, |c.table|), 0), End))
    requires c.cpu.depth >= 1 && Heap !in c.held && Leads(d, e)
    ensures Leads(c, e)
  {
    hide Leads, Goes, Order, ZombieStep, AllocStep, AdoptStep, ScanStep, ScanTestStep, SchedStep, DispatchStep;
    var ordered := c.(code := HeapUse(d.code));
    LeafSection(ordered, Heap, d.code);
    LeadsOn(ordered, d, e);
    StepThen(c, ordered, e);
  }

  lemma PickedLeads(c: Core, c3: Core, e: Core)
    requires c.code == PICK && c.cpu == Cpu(None, 0, c.cpu.prev, false) && c.held == {} && |c.ctx| == |c.table|
    requires c3 == Picked(Locked(c, Kernel, Do(PickFrom(Order(c.table, |c.table|), 0), End)), Order(c.table, |c.table|), 0)
    requires e == if Choice(c.table).Some? then Entering(c, Choice(c.table).value)
                  else c.(cpu := Cpu(None, 0, false, false), code := Do(IntOn, IDLE))
    ensures Leads(c3, e)
  {
    hide Leads, Goes, Order;
    if Choice(c.table).Some? {
      var j := Choice(c.table).value;
      var c4 := c3.(cpu := Cpu(None, 1, false, false), held := {Own(j)}, code := Do(Dispatch(j), End));
      assert c3.held - {Kernel} == {Own(j)};
      GiveLeads(c3, Kernel, Do(Dispatch(j), End));
      LeadsStep(c4, e);
      LeadsOn(c3, c4, e);
    } else {
      assert c3.held - {Kernel} == {};
      GiveLeads(c3, Kernel, Do(IntOn, IDLE));
    }
  }

  // ----- coming back -----

  /** A process that had left under `sched` comes back: the interrupt level its region had saved
      is restored, so giving back its own lock leaves interrupts as they were at its first lock. */
  lemma ResumeLeads(s: Core, j: nat, prev: bool, rest: Code)
    requires s.code == Do(RestorePrev(prev), Do(Give(Own(j)), rest))
    requires s.cpu == Cpu(Some(j), 1, false, false) && s.held == {Own(j)}
    ensures Leads(s, s.(cpu := Cpu(Some(j), 0, prev, prev), held := {}, code := rest))
  {
    hide Leads, Goes;
    var s1 := s.(cpu := s.cpu.(prev := prev), code := Do(Give(Own(j)), rest));
    assert s1.held - {Own(j)} == {};
    GiveLeads(s1, Own(j), rest);
    StepThen(s, s1, s.(cpu := Cpu(Some(j), 0, prev, prev), held := {}, code := rest));
  }

  /** After a sleep the channel is cleared first. */
  lemma WakeUpLeads(s: Core, j: nat)
    requires s.code == Do(RestorePrev(true), WokenCode(j, TAIL)) && j < |s.table|
    requires s.cpu == Cpu(Some(j), 1, false, false) && s.held == {Own(j)}
    ensures Leads(s, s.(table := s.table[j := s.table[j].(chan := None)],
                        cpu := Cpu(Some(j), 0, true, true), held := {}, code := Do(Wait(j), TAIL)))
  {
    hide Leads, Goes;
    var s1 := s.(cpu := s.cpu.(prev := true), code := WokenCode(j, TAIL));
    var s2 := s1.(table := s.table[j := s.table[j].(chan := None)], code := Do(Give(Own(j)), Do(Wait(j), TAIL)));
    var e := s2.(cpu := Cpu(Some(j), 0, true, true), held := {}, code := Do(Wait(j), TAIL));
    assert s2.held - {Own(j)} == {};
    GiveLeads(s2, Own(j), Do(Wait(j), TAIL));
    StepThen(s1, s2, e);
    StepThen(s, s1, e);
  }

  /** A new process starts in `forkret`. */
  lemma StartLeads(s: Core, j: nat)
    requires s.code == Do(Forkret, End)
    requires s.cpu == Cpu(Some(j), 1, false, false) && s.held == {Own(j)}
    ensures Leads(s, s.(cpu := Cpu(Some(j), 0, false, false), held := {}, code := TAIL))
  {
    hide Leads, Goes;
    var s1 := s.(code := Do(Give(Own(j)), TAIL));
    assert s1.held - {Own(j)} == {};
    GiveLeads(s1, Own(j), TAIL);
    StepThen(s, s1, s.(cpu := Cpu(Some(j), 0, false, false), held := {}, code := TAIL));
  }
}
