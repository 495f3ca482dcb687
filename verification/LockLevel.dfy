/** The interrupt level is the number of locks held, at every point of every run. */
module LockLevel {
  import opened Options
  import opened ProcessTable
  import opened PickOrder
  import opened Machine
  import opened Regions
  import opened Protocol
  import opened Fairness
  import opened Safety
  import opened Guarantees

  /** Between raising the level and getting the lock, and between releasing the lock and lowering
      the level, the level is one ahead. */
  function Ahead(code: Code): nat {
    if code.Do? && (code.op.Acquire? || code.op.PopDec?) then 1 else 0
  }

  /** Code that goes on after something else: not the first thing after a switch. */
  predicate Inner(code: Code) {
    !(code.Do? && (code.op.RestorePrev? || code.op.AfterRun?))
  }

  predicate LinkOk(op: Op, rest: Code) {
    && Inner(rest)
    && if op.PushOff? then rest.Do? && rest.op.PushSave?
       else Ahead(rest) == if op.PushRead? || op.PushSave? || op.Release? then 1 else 0
  }

  /** The parts of `lock` and `unlock` follow each other. */
  predicate Linked(code: Code) {
    code.Do? ==> LinkOk(code.op, code.rest) && Linked(code.rest)
  }

  ghost predicate Whole(code: Code) {
    Resumed(code) && Inner(code)
  }

  /** Code a thread goes on with after a switch. */
  ghost predicate Resumed(code: Code) {
    Linked(code) && Ahead(code) == 0
  }

  ghost predicate Balanced(c: Core) {
    && c.cpu.depth == |c.held| + Ahead(c.code) && Linked(c.code)
    && (forall j :: 0 <= j < |c.ctx| ==> Resumed(c.ctx[j])) && Resumed(c.sched)
  }

  /** Any operation that is no part of a lock, before whole code. */
  predicate Plain(op: Op) {
    !op.PushOff? && !op.PushRead? && !op.PushSave? && !op.Release? && !op.Acquire? && !op.PopDec?
  }

  lemma Front(op: Op, rest: Code)
    requires Plain(op) && Whole(rest)
    ensures Resumed(Do(op, rest)) && (!op.RestorePrev? && !op.AfterRun? ==> Whole(Do(op, rest)))
  {
  }

  lemma WholeConstants()
    ensures Whole(End) && Whole(TAIL) && Whole(IDLE)
  {
    Front(ToUser, End);
    Front(IntOff, Do(ToUser, End));
    Front(SchedLoop, End);
  }

  lemma WholeHeap(rest: Code)
    requires Whole(rest)
    ensures Whole(HeapUse(rest))
  {
    hide Whole, Resumed;
    Front(Give(Heap), rest);
    Front(Take(Heap), Do(Give(Heap), rest));
  }

  lemma WholeYield(i: nat, rest: Code)
    requires Whole(rest)
    ensures Whole(YieldCode(i, rest))
  {
    hide Whole, Resumed;
    Front(Give(Own(i)), rest);
    Front(Sched(i), Do(Give(Own(i)), rest));
    Front(SetState(i, Runnable), Do(Sched(i), Do(Give(Own(i)), rest)));
    WholeHeap(YieldBody(i, rest));
    Front(Take(Own(i)), HeapUse(YieldBody(i, rest)));
    WholeHeap(Do(Take(Own(i)), HeapUse(YieldBody(i, rest))));
  }

  lemma WholeFork(k: nat, parent: Option<nat>, rest: Code)
    requires Whole(rest)
    ensures Whole(ForkRest(k, parent, rest))
  {
    hide Whole, Resumed;
    var c1 := Do(Give(Own(k)), Do(Give(Kernel), rest));
    var c2 := Do(Take(Own(k)), Do(SetState(k, Runnable), c1));
    Front(Give(Kernel), rest);
    Front(Give(Own(k)), Do(Give(Kernel), rest));
    Front(SetState(k, Runnable), c1);
    Front(Take(Own(k)), Do(SetState(k, Runnable), c1));
    Front(SetParent(k, parent), c2);
    Front(Give(Own(k)), Do(SetParent(k, parent), c2));
    Front(ForkCopy, Do(Give(Own(k)), Do(SetParent(k, parent), c2)));
    Front(Take(Own(k)), Do(ForkCopy, Do(Give(Own(k)), Do(SetParent(k, parent), c2))));
  }

  lemma WholeExit(i: nat, xstatus: nat)
    ensures Whole(Do(Take(Local(i)), ExitBody(i, xstatus)))
  {
    WholeConstants();
    hide Whole, Resumed;
    var c1 := Do(Sched(i), Do(Cordyceps, End));
    var c2 := Do(SetStatus(i, xstatus), Do(BecomeZombie(i), Do(Give(Local(i)), c1)));
    var c3 := Do(Give(Kernel), Do(Take(Own(i)), c2));
    var c4 := Do(Give(Kernel), Do(Take(Kernel), Do(WakeParentOf(i), c3)));
    Front(Cordyceps, End);
    Front(Sched(i), Do(Cordyceps, End));
    Front(Give(Local(i)), c1);
    Front(BecomeZombie(i), Do(Give(Local(i)), c1));
    Front(SetStatus(i, xstatus), Do(BecomeZombie(i), Do(Give(Local(i)), c1)));
    Front(Take(Own(i)), c2);
    Front(Give(Kernel), Do(Take(Own(i)), c2));
    Front(WakeParentOf(i), c3);
    Front(Take(Kernel), Do(WakeParentOf(i), c3));
    Front(Give(Kernel), Do(Take(Kernel), Do(WakeParentOf(i), c3)));
    Front(ReparentOf(i), c4);
    Front(Take(Kernel), Do(ReparentOf(i), c4));
    Front(Take(Local(i)), Do(Take(Kernel), Do(ReparentOf(i), c4)));
  }

  lemma WholeSleep(i: nat, j: nat, pid: Option<nat>, rest: Code)
    requires Whole(rest)
    ensures Whole(SleepCode(i, j, pid, rest))
  {
    hide Whole, Resumed;
    var c1 := Do(Sched(i), WokenCode(i, rest));
    Front(Wait(i), rest);
    Front(Give(Own(i)), Do(Wait(i), rest));
    Front(SetChan(i, None), Do(Give(Own(i)), Do(Wait(i), rest)));
    Front(Sched(i), WokenCode(i, rest));
    Front(Give(Kernel), c1);
    Front(SetState(j, Sleeping), Do(Give(Kernel), c1));
    Front(SetChan(j, pid), Do(SetState(j, Sleeping), Do(Give(Kernel), c1)));
    Front(Take(Own(j)), Do(SetChan(j, pid), Do(SetState(j, Sleeping), Do(Give(Kernel), c1))));
  }

  /** Code that follows a plain operation, or nothing, is whole. */
  lemma RestWhole(c: Core)
    requires Balanced(c) && c.code.Do? && (Plain(c.code.op) || c.code.op.Acquire? || c.code.op.PopDec?)
    ensures Whole(c.code.rest)
  {
  }

  /** Only the code changed, to whole code. */
  lemma Becomes(c: Core, d: Core)
    requires Balanced(c) && Ahead(c.code) == 0 && Whole(d.code)
    requires d.cpu.depth == c.cpu.depth && d.held == c.held && d.sched == c.sched && d.ctx == c.ctx
    ensures Balanced(d)
  {
  }

  /** The parts of `lock` and `unlock`. */
  lemma LockSteps(c: Core)
    requires Balanced(c) && c.code.Do? && !Plain(c.code.op) && Next(c).On?
    ensures Balanced(Next(c).core)
  {
    var op, rest := c.code.op, c.code.rest;
    if op.Acquire? {
      assert |c.held + {op.m}| == |c.held| + 1;
    } else if op.Release? {
      assert |c.held - {op.m}| == |c.held| - 1;
    }
  }

  lemma LockOpens(c: Core)
    requires Balanced(c) && c.code.Do? && (c.code.op.Take? || c.code.op.Give?) && Next(c).On?
    ensures Balanced(Next(c).core)
  {
    var m, rest := c.code.op.m, c.code.rest;
    if c.code.op.Take? {
      assert Linked(Do(Acquire(m), rest));
      assert Linked(Do(PushRead, Do(Acquire(m), rest)));
    } else {
      Front(PopOn, rest);
      assert Linked(Do(PopDec, Do(PopOn, rest)));
      assert Linked(Do(Release(m), Do(PopDec, Do(PopOn, rest))));
    }
  }

  /** Everything else keeps level and locks; what it goes on with is whole. */
  lemma PlainSteps(c: Core)
    requires Balanced(c) && c.code.Do? && Plain(c.code.op) && !c.code.op.Take? && !c.code.op.Give? && Next(c).On?
    ensures Balanced(Next(c).core)
  {
    hide Linked, Whole, Resumed, Balanced;
    var op, rest, d := c.code.op, c.code.rest, Next(c).core;
    RestWhole(c);
    WholeConstants();
    if op.Sched? || op.Dispatch? {
      Transfer(c);
    } else if op.AllocFrom? {
      AllocBalanced(c);
    } else {
      PlainCode(c);
      Becomes(c, d);
    }
  }

  lemma Transfer(c: Core)
    requires Balanced(c) && c.code.Do? && (c.code.op.Sched? || c.code.op.Dispatch?) && Next(c).On?
    ensures Balanced(Next(c).core)
  {
    RestWhole(c);
    Front(RestorePrev(c.cpu.prev), c.code.rest);
    if c.code.op.Dispatch? {
      WholeConstants();
      Front(AfterRun(c.code.op.slot), End);
    }
  }

  lemma AllocBalanced(c: Core)
    requires Balanced(c) && c.code.Do? && c.code.op.AllocFrom? && Next(c).On?
    ensures Balanced(Next(c).core)
  {
    hide Linked, ForkRest;
    var rest := c.code.rest;
    RestWhole(c);
    WholeConstants();
    Front(Forkret, End);
    Front(Panic, rest);
    Front(Give(Kernel), Do(Panic, rest));
    Front(AllocFrom(c.code.op.slot, c.code.op.k + 1), rest);
    if c.code.op.slot < |c.table| {
      WholeFork(c.code.op.k, c.table[c.code.op.slot].pid, rest);
    }
  }

  lemma PlainCode(c: Core)
    requires c.code.Do? && Plain(c.code.op) && Whole(c.code.rest) && Next(c).On?
    requires !c.code.op.Take? && !c.code.op.Give? && !c.code.op.Sched? && !c.code.op.Dispatch? && !c.code.op.AllocFrom?
    ensures var d := Next(c).core;
      && Whole(d.code) && d.cpu.depth == c.cpu.depth && d.held == c.held && d.sched == c.sched && d.ctx == c.ctx
  {
    hide Linked, Whole, Resumed, Next;
    if LoopOp(c.code.op) {
      LoopCode(c);
    } else if PickOp(c.code.op) {
      PickCode(c);
    } else if SchedulerOp(c.code.op) {
      SchedulerCode(c);
    } else if HeapOp(c.code.op) {
      HeapOpCode(c);
    } else if CallOp(c.code.op) {
      CallOpCode(c);
    } else {
      AssignCode(c);
    }
  }

  predicate LoopOp(op: Op) {
    op.AdoptFrom? || op.WakeFrom? || op.ScanFrom? || op.ScanTest?
  }

  predicate PickOp(op: Op) {
    op.PickFrom? || op.PickTest?
  }

  predicate SchedulerOp(op: Op) {
    op.SchedLoop? || op.Pick? || op.AfterRun? || op.Forkret?
  }

  predicate HeapOp(op: Op) {
    op.ForkCopy? || op.Exec? || op.Other?
  }

  predicate CallOp(op: Op) {
    op.Fork? || op.Exit? || op.Wait? || op.ReparentOf? || op.WakeParentOf?
  }

  lemma LoopCode(c: Core)
    requires c.code.Do? && Plain(c.code.op) && Whole(c.code.rest) && Next(c).On?
    requires !c.code.op.Take? && !c.code.op.Give? && !c.code.op.Sched? && !c.code.op.Dispatch? && !c.code.op.AllocFrom?
    requires LoopOp(c.code.op)
    ensures var d := Next(c).core;
      && Whole(d.code) && d.cpu.depth == c.cpu.depth && d.held == c.held && d.sched == c.sched && d.ctx == c.ctx
  {
    hide Linked, Whole, Resumed, ZombieStep, AllocStep, SchedStep, DispatchStep, PickStep;
    var op, rest := c.code.op, c.code.rest;
    match op {
      case AdoptFrom(pid, k, any) =>
        Front(AdoptFrom(pid, k + 1, true), rest);
        Front(AdoptFrom(pid, k + 1, any), rest);
        Front(WakeFrom(Some(0), 0), rest);
      case WakeFrom(chan, k) => WholeWake(chan, k, rest);
      case ScanFrom(i, pid, k, kids) => WholeScan(c, i, pid, k, kids, rest);
      case ScanTest(i, pid, k) => WholeTest(c, i, pid, k, rest);
      case _ =>
    }
  }

  lemma SchedulerCode(c: Core)
    requires c.code.Do? && Plain(c.code.op) && Whole(c.code.rest) && Next(c).On?
    requires !c.code.op.Take? && !c.code.op.Give? && !c.code.op.Sched? && !c.code.op.Dispatch? && !c.code.op.AllocFrom?
    requires SchedulerOp(c.code.op)
    ensures var d := Next(c).core;
      && Whole(d.code) && d.cpu.depth == c.cpu.depth && d.held == c.held && d.sched == c.sched && d.ctx == c.ctx
  {
    hide Linked, Whole, Resumed, ZombieStep, AllocStep, AdoptStep, ScanStep, ScanTestStep, SchedStep, DispatchStep;
    WholeConstants();
    var op := c.code.op;
    match op {
      case SchedLoop => WholeLoop();
      case Pick =>
        Front(PickFrom(Order(c.table, |c.table|), 0), End);
        WholeHeap(Do(PickFrom(Order(c.table, |c.table|), 0), End));
      case AfterRun(j) => Front(Give(Own(j)), IDLE);
      case Forkret => Front(Give(Own(if c.cpu.current.Some? then c.cpu.current.value else 0)), TAIL);
      case _ =>
    }
  }

  lemma PickCode(c: Core)
    requires c.code.Do? && Whole(c.code.rest) && PickOp(c.code.op) && Next(c).On?
    ensures var d := Next(c).core;
      && Whole(d.code) && d.cpu.depth == c.cpu.depth && d.held == c.held && d.sched == c.sched && d.ctx == c.ctx
  {
    hide Linked, Whole, Resumed, ZombieStep, AllocStep, AdoptStep, ScanStep, ScanTestStep, SchedStep, DispatchStep;
    var op := c.code.op;
    if op.PickFrom? {
      WholePick(op.order, op.k);
    } else {
      WholePicked(op.order, op.k);
    }
  }

  lemma HeapOpCode(c: Core)
    requires c.code.Do? && Whole(c.code.rest) && HeapOp(c.code.op) && Next(c).On?
    ensures var d := Next(c).core;
      && Whole(d.code) && d.cpu.depth == c.cpu.depth && d.held == c.held && d.sched == c.sched && d.ctx == c.ctx
  {
    hide Linked, Whole, Resumed, ZombieStep, AllocStep, AdoptStep, ScanStep, ScanTestStep, SchedStep, DispatchStep, PickStep;
    var op, rest := c.code.op, c.code.rest;
    if op.Exec? {
      Front(Exec(op.at + 1), rest);
      WholeHeap(Do(Exec(op.at + 1), rest));
    } else {
      WholeHeap(rest);
    }
  }

  lemma CallOpCode(c: Core)
    requires c.code.Do? && Plain(c.code.op) && Whole(c.code.rest) && Next(c).On?
    requires !c.code.op.Take? && !c.code.op.Give? && !c.code.op.Sched? && !c.code.op.Dispatch? && !c.code.op.AllocFrom?
    requires CallOp(c.code.op)
    ensures var d := Next(c).core;
      && Whole(d.code) && d.cpu.depth == c.cpu.depth && d.held == c.held && d.sched == c.sched && d.ctx == c.ctx
  {
    hide Linked, Whole, Resumed;
    var op, rest := c.code.op, c.code.rest;
    match op {
      case Fork(i) =>
        Front(AllocFrom(i, 0), rest);
        Front(Take(Kernel), Do(AllocFrom(i, 0), rest));
      case Exit(i, xstatus) => WholeExit(i, xstatus);
      case Wait(i) =>
        if i < |c.table| {
          Front(ScanFrom(i, c.table[i].pid, 0, false), rest);
          Front(Take(Kernel), Do(ScanFrom(i, c.table[i].pid, 0, false), rest));
        }
      case ReparentOf(i) =>
        if i < |c.table| {
          Front(AdoptFrom(c.table[i].pid, 0, false), rest);
        }
      case WakeParentOf(i) =>
        if i < |c.table| {
          Front(WakeFrom(c.table[i].parent, 0), rest);
        }
      case _ =>
    }
  }

  lemma AssignCode(c: Core)
    requires c.code.Do? && Plain(c.code.op) && Whole(c.code.rest) && Next(c).On?
    requires !c.code.op.Take? && !c.code.op.Give? && !c.code.op.Sched? && !c.code.op.Dispatch? && !c.code.op.AllocFrom?
    requires !LoopOp(c.code.op) && !PickOp(c.code.op) && !SchedulerOp(c.code.op) && !CallOp(c.code.op)
    requires !HeapOp(c.code.op)
    ensures var d := Next(c).core;
      && Whole(d.code) && d.cpu.depth == c.cpu.depth && d.held == c.held && d.sched == c.sched && d.ctx == c.ctx
  {
    hide Linked, Whole, Resumed;
    WholeConstants();
    Front(User, End);
  }

  lemma WholeWake(chan: Option<nat>, k: nat, rest: Code)
    requires Whole(rest)
    ensures Whole(Do(Take(Own(k)), Do(WakeTest(chan, k), Do(Give(Own(k)), Do(WakeFrom(chan, k + 1), rest)))))
  {
    hide Whole, Resumed;
    var c1 := Do(Give(Own(k)), Do(WakeFrom(chan, k + 1), rest));
    Front(WakeFrom(chan, k + 1), rest);
    Front(Give(Own(k)), Do(WakeFrom(chan, k + 1), rest));
    Front(WakeTest(chan, k), c1);
    Front(Take(Own(k)), Do(WakeTest(chan, k), c1));
  }

  lemma WholeScan(c: Core, i: nat, pid: Option<nat>, k: nat, kids: bool, rest: Code)
    requires Whole(rest) && ScanStep(c, i, pid, k, kids, rest).On?
    ensures Whole(ScanStep(c, i, pid, k, kids, rest).core.code)
  {
    hide Whole, Resumed;
    Front(ScanTest(i, pid, k), rest);
    Front(Take(Own(k)), Do(ScanTest(i, pid, k), rest));
    Front(ScanFrom(i, pid, k + 1, kids), rest);
    Front(Give(Kernel), rest);
    var found := SlotWithPid(c.table, pid, 0);
    if found.Some? {
      WholeSleep(i, found.value, pid, rest);
    }
  }

  lemma WholeTest(c: Core, i: nat, pid: Option<nat>, k: nat, rest: Code)
    requires Whole(rest) && ScanTestStep(c, i, pid, k, rest).On?
    ensures Whole(ScanTestStep(c, i, pid, k, rest).core.code)
  {
    hide Whole, Resumed;
    var p := c.table[k];
    Front(Answer(p), rest);
    Front(Give(Kernel), Do(Answer(p), rest));
    Front(Give(Own(k)), Do(Give(Kernel), Do(Answer(p), rest)));
    Front(ScanFrom(i, pid, k + 1, true), rest);
    Front(Give(Own(k)), Do(ScanFrom(i, pid, k + 1, true), rest));
  }

  lemma WholeLoop()
    ensures Whole(Do(IntOn, Do(IntOff, Do(Take(Kernel), Do(Pick, End)))))
  {
    WholeConstants();
    hide Whole, Resumed;
    Front(Pick, End);
    Front(Take(Kernel), Do(Pick, End));
    Front(IntOff, Do(Take(Kernel), Do(Pick, End)));
    Front(IntOn, Do(IntOff, Do(Take(Kernel), Do(Pick, End))));
  }

  lemma WholePick(order: seq<nat>, k: nat)
    ensures k < |order| ==> Whole(Do(Take(Own(order[k])), Do(PickTest(order, k), End)))
    ensures Whole(Do(Give(Kernel), Do(IntOn, IDLE)))
  {
    WholeConstants();
    hide Whole, Resumed;
    if k < |order| {
      Front(PickTest(order, k), End);
      Front(Take(Own(order[k])), Do(PickTest(order, k), End));
    }
    Front(IntOn, IDLE);
    Front(Give(Kernel), Do(IntOn, IDLE));
  }

  lemma WholePicked(order: seq<nat>, k: nat)
    ensures k < |order| ==> Whole(Do(Give(Kernel), Do(Dispatch(order[k]), End)))
    ensures k < |order| ==> Whole(Do(Give(Own(order[k])), Do(PickFrom(order, k + 1), End)))
  {
    WholeConstants();
    hide Whole, Resumed;
    if k < |order| {
      Front(Dispatch(order[k]), End);
      Front(Give(Kernel), Do(Dispatch(order[k]), End));
      Front(PickFrom(order, k + 1), End);
      Front(Give(Own(order[k])), Do(PickFrom(order, k + 1), End));
    }
  }

  /** Interrupts and system calls come at level zero. */
  lemma EntrySteps(c: Core, s: State)
    requires Balanced(c) && c.held == {} && c.cpu.depth == 0 && Inner(c.code) && s.On?
    requires s == UserTick(c) || s == KernelTick(c) || exists call: Call :: s == UserCall(c, call)
    ensures Balanced(s.core)
  {
    WholeConstants();
    Front(Sret, c.code);
    if c.cpu.current.Some? {
      var i := c.cpu.current.value;
      WholeYield(i, TAIL);
      WholeYield(i, Do(Sret, c.code));
      forall call: Call
        ensures Whole(Do(IntOn, CallCode(i, call)))
      {
        WholeCall(i, call);
      }
    }
  }

  lemma WholeCall(i: nat, call: Call)
    ensures Whole(Do(IntOn, CallCode(i, call)))
  {
    WholeConstants();
    hide Whole, Resumed;
    match call {
      case CallFork => Front(Fork(i), TAIL);
      case CallExec => Front(Exec(0), TAIL);
      case CallExit(xstatus) => Front(Exit(i, xstatus), End);
      case CallWait => Front(Wait(i), TAIL);
      case CallOther => Front(Other, TAIL);
    }
    Front(IntOn, CallCode(i, call));
  }

  lemma StepBalanced(c: Core, s: State)
    requires OnTrack(c, Nothing) && Balanced(c) && Step(On(c), s) && s.On?
    ensures Balanced(s.core)
  {
    hide Balanced, OnTrack, Next, UserTick, KernelTick, UserCall;
    if c.code != Do(User, End) && s == Next(c) {
      if c.code == End {
        EndStuck(c);
      } else if !Plain(c.code.op) {
        LockSteps(c);
      } else if c.code.op.Take? || c.code.op.Give? {
        LockOpens(c);
      } else {
        PlainSteps(c);
      }
    } else {
      if !c.cpu.sie {
        NotInUser(c);
      } else {
        InterruptsOnIsQuiet(c, Nothing);
        QuietLocated(c);
        QuietCode(c);
        EntrySteps(c, s);
      }
    }
  }

  lemma EndStuck(c: Core)
    ensures c.code == End ==> Next(c) == Bad
  {
  }

  /** The interrupt level is the number of locks held, one more in the middle of taking or giving
      back a lock; and interrupts are on only at level zero. */
  lemma {:induction false} LevelIsLocksHeld(states: seq<State>, k: nat)
    requires Run(states) && states[0].On? && Booted(states[0].core) && k < |states| && states[k].On?
    ensures Balanced(states[k].core)
    ensures var c := states[k].core;
      && c.cpu.depth == |c.held| + Ahead(c.code) && (c.cpu.sie ==> c.cpu.depth == 0 && c.held == {})
  {
    hide Step, OnTrack, Whole, Resumed, Quiet;
    NeverBad(states, k);
    if states[k].core.cpu.sie {
      InterruptsOnIsQuiet(states[k].core, Nothing);
      QuietLocated(states[k].core);
    }
    if k == 0 {
      BootBalanced(states[0].core);
    } else {
      assert Step(states[k - 1], states[k]);
      NeverBad(states, k - 1);
      HaltedStops(states[k]);
      LevelIsLocksHeld(states, k - 1);
      StepBalanced(states[k - 1].core, states[k]);
    }
  }

  lemma BootBalanced(c: Core)
    requires Booted(c)
    ensures Balanced(c)
  {
    WholeConstants();
    Front(Forkret, End);
  }
}
