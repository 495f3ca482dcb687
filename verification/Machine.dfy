/** The kernel on one hart as a state machine.  Each thread is a list of small operations still to
    be executed; a timer interrupt may come between any two of them while interrupts are on. */
module Machine {
  import opened Options
  import opened ProcessTable
  import opened PickOrder

  /** `Heap` is the allocator's own lock, taken for every piece of memory. */
  datatype Mutex = Kernel | Own(slot: nat) | Local(slot: nat) | Heap

  /** One operation of kernel code.  `slot` is the process executing it, unless said otherwise. */
  datatype Op =
    // IntMutex and Cpu; Take and Give are `lock` and `unlock`, the others their parts
    | Take(m: Mutex) | PushRead | PushOff | PushSave(was: bool) | Acquire(m: Mutex)
    | Give(m: Mutex) | Release(m: Mutex) | PopDec | PopOn
    // status register
    | IntOn | IntOff | Sret | ToUser | User
    // single assignments to a slot of the table
    | SetState(slot: nat, state: ProcState) | SetChan(slot: nat, chan: Option<nat>)
    | SetStatus(slot: nat, xstatus: nat) | SetParent(slot: nat, parent: Option<nat>)
    | BecomeZombie(slot: nat)
    // kfork
    | Fork(slot: nat) | AllocFrom(slot: nat, k: nat) | ForkCopy
    // kexit
    | Exit(slot: nat, xstatus: nat) | ReparentOf(slot: nat) | AdoptFrom(pid: Option<nat>, k: nat, any: bool)
    | WakeParentOf(slot: nat) | WakeFrom(chan: Option<nat>, k: nat) | WakeTest(chan: Option<nat>, k: nat)
    // kwait
    | Wait(slot: nat) | ScanFrom(slot: nat, pid: Option<nat>, k: nat, kids: bool)
    | ScanTest(slot: nat, pid: Option<nat>, k: nat) | CopyOut(child: nat, xstatus: nat)
    // kexec, one step of its work on memory
    | Exec(at: nat)
    // sched and scheduler
    | Sched(slot: nat) | RestorePrev(prev: bool)
    | SchedLoop | Pick | PickFrom(order: seq<nat>, k: nat) | PickTest(order: seq<nat>, k: nat)
    | Dispatch(slot: nat) | AfterRun(slot: nat) | Forkret
    // system calls without a part in the protocol, and the ends of the machine
    | Other | Panic | Cordyceps

  datatype Code = End | Do(op: Op, rest: Code)

  /** The fields of `Cpu`, and the interrupt-enable bit. */
  datatype Cpu = Cpu(current: Option<nat>, depth: nat, prev: bool, sie: bool)

  /** `exits` and `returned` record history; `dispatches` counts.  The kernel does not have them. */
  datatype Core = Core(table: Table, nextPid: nat, cpu: Cpu, held: set<Mutex>,
                       code: Code, ctx: seq<Code>, sched: Code,
                       exits: map<nat, nat>, returned: map<nat, Return>, dispatches: nat)

  /** `Halted` is a panic the source provides for; `Bad` is what must never happen: a lock taken by
      its holder, a lock or an interrupt level given back that nobody has, one of `sched`'s panics,
      a process entered while another is current, a zombie continuing, a process missing from the
      table, an exit or a status seen twice. */
  datatype State = On(core: Core) | Halted | Bad

  // ----- Cpu::push_interrupt_off and pop_interrupt_off, without the status register -----

  function Saved(cpu: Cpu, was: bool): Cpu {
    cpu.(prev := if cpu.depth == 0 then was else cpu.prev, depth := cpu.depth + 1)
  }

  function PoppedOn(cpu: Cpu): Cpu {
    if cpu.depth == 0 && cpu.prev then cpu.(sie := true) else cpu
  }

  // ----- kernel code -----

  /** The end of `usertrap`. */
  const TAIL: Code := Do(IntOff, Do(ToUser, End))

  const IDLE: Code := Do(SchedLoop, End)

  /** Memory taken or given back. */
  function HeapUse(rest: Code): Code {
    Do(Take(Heap), Do(Give(Heap), rest))
  }

  /** `yeld`; what it prints is formatted in memory from the heap. */
  function YieldCode(i: nat, rest: Code): Code {
    HeapUse(Do(Take(Own(i)), HeapUse(YieldBody(i, rest))))
  }

  function YieldBody(i: nat, rest: Code): Code {
    Do(SetState(i, Runnable), Do(Sched(i), Do(Give(Own(i)), rest)))
  }

  /** The steps of `kexec`: a new table, its kernel pages, the image's pages, the image, guard, stack
      and arguments; then the old address space is dropped in place, trampoline, trapframe, user pages
      and root; and the new one is stored. */
  const DROP: nat := 7
  const STORE: nat := 11

  function ForkBody(i: nat, rest: Code): Code {
    Do(AllocFrom(i, 0), rest)
  }

  /** `kfork` after `allocproc` has found slot `c`. */
  function ForkRest(c: nat, parent: Option<nat>, rest: Code): Code {
    Do(Take(Own(c)), Do(ForkCopy, Do(Give(Own(c)), Do(SetParent(c, parent),
    Do(Take(Own(c)), Do(SetState(c, Runnable), Do(Give(Own(c)), Do(Give(Kernel), rest))))))))
  }

  function ExitBody(i: nat, xstatus: nat): Code {
    Do(Take(Kernel), Do(ReparentOf(i), Do(Give(Kernel),
    Do(Take(Kernel), Do(WakeParentOf(i), Do(Give(Kernel),
    Do(Take(Own(i)), Do(SetStatus(i, xstatus), Do(BecomeZombie(i),
    Do(Give(Local(i)), Do(Sched(i), Do(Cordyceps, End))))))))))))
  }

  function WaitBody(i: nat, pid: Option<nat>, rest: Code): Code {
    Do(ScanFrom(i, pid, 0, false), rest)
  }

  /** `kwait` once it has freed zombie `p`. */
  function Answer(p: Proc): Op {
    CopyOut(if p.pid.Some? then p.pid.value else 0, p.xstatus)
  }

  /** `kwait` once it has found a child but no zombie; `j` is the slot found by id. */
  function SleepCode(i: nat, j: nat, pid: Option<nat>, rest: Code): Code {
    Do(Take(Own(j)), Do(SetChan(j, pid), Do(SetState(j, Sleeping), Do(Give(Kernel),
    Do(Sched(i), WokenCode(i, rest))))))
  }

  function WokenCode(i: nat, rest: Code): Code {
    Do(SetChan(i, None), Do(Give(Own(i)), Do(Wait(i), rest)))
  }

  function SlotWithPid(t: Table, pid: Option<nat>, k: nat): (r: Option<nat>)
    requires k <= |t|
    ensures r.Some? ==> k <= r.value < |t| && t[r.value].pid == pid
    ensures r.None? ==> forall j :: k <= j < |t| ==> t[j].pid != pid
    decreases |t| - k
  {
    if k == |t| then None else if t[k].pid == pid then Some(k) else SlotWithPid(t, pid, k + 1)
  }

  // ----- one step -----

  function Jump(c: Core, code: Code): (s: State)
    ensures s.On? ==> s.core.returned == c.returned && s.core.exits == c.exits
  {
    On(c.(code := code))
  }

  /** An assignment to slot `i`. */
  function Put(c: Core, i: nat, p: Proc, code: Code): (s: State)
    ensures s.On? ==> s.core.returned == c.returned && s.core.exits == c.exits
  {
    if i < |c.table| then On(c.(table := c.table[i := p], code := code)) else Bad
  }

  /** What the operation at the head of the code does. */
  function Next(c: Core): State {
    match c.code
    case End => Bad
    case Do(op, rest) =>
      match op
      case Take(m) => Jump(c, Do(PushRead, Do(Acquire(m), rest)))
      case PushRead => Jump(c, Do(PushOff, Do(PushSave(c.cpu.sie), rest)))
      case PushOff => On(c.(cpu := c.cpu.(sie := false), code := rest))
      case PushSave(was) => On(c.(cpu := Saved(c.cpu, was), code := rest))
      case Acquire(m) => if m in c.held then Bad else On(c.(held := c.held + {m}, code := rest))
      case Give(m) => Jump(c, Do(Release(m), Do(PopDec, Do(PopOn, rest))))
      case Release(m) => if m !in c.held then Bad else On(c.(held := c.held - {m}, code := rest))
      case PopDec => if c.cpu.depth < 1 then Bad else On(c.(cpu := c.cpu.(depth := c.cpu.depth - 1), code := rest))
      case PopOn => On(c.(cpu := PoppedOn(c.cpu), code := rest))
      case IntOn => On(c.(cpu := c.cpu.(sie := true), code := rest))
      case IntOff => On(c.(cpu := c.cpu.(sie := false), code := rest))
      case Sret => On(c.(cpu := c.cpu.(sie := true), code := rest))
      case ToUser => On(c.(cpu := c.cpu.(sie := true), code := Do(User, End)))
      case User => Bad
      case SetState(i, state) => if i < |c.table| then Put(c, i, c.table[i].(state := state), rest) else Bad
      case SetChan(i, chan) => if i < |c.table| then Put(c, i, c.table[i].(chan := chan), rest) else Bad
      case SetStatus(i, xstatus) => if i < |c.table| then Put(c, i, c.table[i].(xstatus := xstatus), rest) else Bad
      case SetParent(i, parent) => if i < |c.table| then Put(c, i, c.table[i].(parent := parent), rest) else Bad
      case BecomeZombie(i) => ZombieStep(c, i, rest)
      case Fork(i) => Jump(c, Do(Take(Kernel), ForkBody(i, rest)))
      case AllocFrom(i, k) => AllocStep(c, i, k, rest)
      case ForkCopy => Jump(c, HeapUse(rest))
      case Exit(i, xstatus) =>
        if i >= |c.table| then Bad
        else if c.table[i].pid == Some(0) then Halted
        else Jump(c, Do(Take(Local(i)), ExitBody(i, xstatus)))
      case ReparentOf(i) => if i < |c.table| then Jump(c, Do(AdoptFrom(c.table[i].pid, 0, false), rest)) else Bad
      case AdoptFrom(pid, k, any) => AdoptStep(c, pid, k, any, rest)
      case WakeParentOf(i) => if i < |c.table| then Jump(c, Do(WakeFrom(c.table[i].parent, 0), rest)) else Bad
      case WakeFrom(chan, k) =>
        if k < |c.table| then Jump(c, Do(Take(Own(k)), Do(WakeTest(chan, k), Do(Give(Own(k)), Do(WakeFrom(chan, k + 1), rest)))))
        else Jump(c, rest)
      case WakeTest(chan, k) => if k < |c.table| then Put(c, k, WokenProc(c.table[k], chan), rest) else Bad
      case Wait(i) => if i < |c.table| then Jump(c, Do(Take(Kernel), WaitBody(i, c.table[i].pid, rest))) else Bad
      case ScanFrom(i, pid, k, kids) => ScanStep(c, i, pid, k, kids, rest)
      case ScanTest(i, pid, k) => ScanTestStep(c, i, pid, k, rest)
      case CopyOut(_, _) => Jump(c, rest)
      case Exec(at) => Jump(c, if at < STORE then HeapUse(Do(Exec(at + 1), rest)) else rest)
      case Sched(i) => SchedStep(c, i, rest)
      case RestorePrev(prev) => On(c.(cpu := c.cpu.(prev := prev), code := rest))
      case SchedLoop => Jump(c, Do(IntOn, Do(IntOff, Do(Take(Kernel), Do(Pick, End)))))
      case Pick => Jump(c, HeapUse(Do(PickFrom(Order(c.table, |c.table|), 0), End)))
      case PickFrom(order, k) =>
        if k < |order| then Jump(c, Do(Take(Own(order[k])), Do(PickTest(order, k), End)))
        else Jump(c, Do(Give(Kernel), Do(IntOn, IDLE)))
      case PickTest(order, k) => PickStep(c, order, k)
      case Dispatch(j) => DispatchStep(c, j)
      case AfterRun(j) => On(c.(cpu := c.cpu.(current := None), code := Do(Give(Own(j)), IDLE)))
      case Forkret => if c.cpu.current.Some? then Jump(c, Do(Give(Own(c.cpu.current.value)), TAIL)) else Bad
      case Other => Jump(c, HeapUse(rest))
      case Panic => Halted
      case Cordyceps => Bad
  }

  function ZombieStep(c: Core, i: nat, rest: Code): State {
    if i >= |c.table| || c.table[i].pid.None? || c.table[i].pid.value in c.exits then Bad
    else
      On(c.(table := c.table[i := c.table[i].(state := Zombie)],
            exits := c.exits[c.table[i].pid.value := c.table[i].xstatus], code := rest))
  }

  function AllocStep(c: Core, i: nat, k: nat, rest: Code): (s: State)
    ensures s.On? ==> s.core.returned == c.returned && s.core.exits == c.exits
  {
    if k >= |c.table| then Jump(c, Do(Give(Kernel), Do(Panic, rest)))
    else if c.table[k].state == Unused then
      if i < |c.table| && k < |c.ctx| then
        On(c.(table := c.table[k := c.table[k].(pid := Some(c.nextPid), state := Used)], nextPid := c.nextPid + 1,
              ctx := c.ctx[k := Do(Forkret, End)], code := ForkRest(k, c.table[i].pid, rest)))
      else Bad
    else Jump(c, Do(AllocFrom(i, k + 1), rest))
  }

  function AdoptStep(c: Core, pid: Option<nat>, k: nat, any: bool, rest: Code): (s: State)
    ensures s.On? ==> s.core.returned == c.returned && s.core.exits == c.exits
  {
    if k < |c.table| then
      if c.table[k].parent == pid then Put(c, k, AdoptedProc(c.table[k], pid), Do(AdoptFrom(pid, k + 1, true), rest))
      else Jump(c, Do(AdoptFrom(pid, k + 1, any), rest))
    else if any then Jump(c, Do(WakeFrom(Some(0), 0), rest))
    else Jump(c, rest)
  }

  function ScanStep(c: Core, i: nat, pid: Option<nat>, k: nat, kids: bool, rest: Code): (s: State)
    ensures s.On? ==> s.core.returned == c.returned && s.core.exits == c.exits
  {
    if k < |c.table| then
      if c.table[k].parent == pid then Jump(c, Do(Take(Own(k)), Do(ScanTest(i, pid, k), rest)))
      else Jump(c, Do(ScanFrom(i, pid, k + 1, kids), rest))
    else if kids then
      var found := SlotWithPid(c.table, pid, 0);
      if found.None? then Bad else Jump(c, SleepCode(i, found.value, pid, rest))
    else Jump(c, Do(Give(Kernel), rest))
  }

  /** A zombie found is freed.  It is bad to return a status twice, or to anybody but the parent. */
  function ScanTestStep(c: Core, i: nat, pid: Option<nat>, k: nat, rest: Code): State {
    if k >= |c.table| then Bad
    else if c.table[k].state == Zombie then
      if c.table[k].pid.None? || c.table[k].pid.value in c.returned || pid.None?
         || c.table[k].parent != pid || c.cpu.current != Some(i) || i >= |c.table| || c.table[i].pid != pid then Bad
      else
        On(c.(table := c.table[k := Freed(c.table[k])],
              returned := c.returned[c.table[k].pid.value := Return(pid.value, c.table[k].xstatus)],
              code := Do(Give(Own(k)), Do(Give(Kernel), Do(Answer(c.table[k]), rest)))))
    else Jump(c, Do(Give(Own(k)), Do(ScanFrom(i, pid, k + 1, true), rest)))
  }

  /** `sched`, up to the control transfer.  Besides its three panics, it is bad to get here without
      the process's own lock, or with another one. */
  function SchedStep(c: Core, i: nat, rest: Code): (s: State)
    ensures s.On? ==> s.core.returned == c.returned && s.core.exits == c.exits
  {
    if c.cpu.sie || c.cpu.depth != 1 || c.cpu.current.None? || c.cpu.current.value >= |c.table|
       || c.table[c.cpu.current.value].state == Running
       || c.cpu.current != Some(i) || c.held != {Own(i)} || i >= |c.ctx| then Bad
    else On(c.(ctx := c.ctx[i := Do(RestorePrev(c.cpu.prev), rest)], code := c.sched))
  }

  function PickStep(c: Core, order: seq<nat>, k: nat): (s: State)
    ensures s.On? ==> s.core.returned == c.returned && s.core.exits == c.exits
  {
    if k >= |order| || order[k] >= |c.table| then Bad
    else if c.table[order[k]].state == Runnable then
      Put(c, order[k], c.table[order[k]].(state := Running), Do(Give(Kernel), Do(Dispatch(order[k]), End)))
    else Jump(c, Do(Give(Own(order[k])), Do(PickFrom(order, k + 1), End)))
  }

  function DispatchStep(c: Core, j: nat): (s: State)
    ensures s.On? ==> s.core.returned == c.returned && s.core.exits == c.exits
  {
    if j >= |c.table| || j >= |c.ctx| || c.cpu.current.Some? then Bad
    else
      On(c.(table := c.table[j := c.table[j].(quants := c.table[j].quants + 1)], dispatches := c.dispatches + 1,
            cpu := c.cpu.(current := Some(j)), sched := Do(AfterRun(j), End), code := c.ctx[j]))
  }

  /** System calls with a part in the protocol, and all others. */
  datatype Call = CallFork | CallExec | CallExit(xstatus: nat) | CallWait | CallOther

  /** What a thread in the kernel is about to do, in the end: fork, exit with a status, wait for a
      child, answer with a child and its status, or step `at` of `kexec`. */
  datatype Intent =
    | NoIntent | ToFork | ToExit(xstatus: nat) | ToWait | ToAnswer(child: nat, xstatus: nat) | ToExec(at: nat) | ToPanic

  function IntentOf(code: Code): Intent {
    match code
    case End => NoIntent
    case Do(op, rest) =>
      match op
      case Fork(_) => ToFork
      case AllocFrom(_, _) => ToFork
      case Exit(_, xstatus) => ToExit(xstatus)
      case SetStatus(_, xstatus) => ToExit(xstatus)
      case Wait(_) => ToWait
      case ScanFrom(_, _, _, _) => ToWait
      case CopyOut(child, xstatus) => ToAnswer(child, xstatus)
      case Exec(at) => ToExec(at)
      case Panic => ToPanic
      case _ => IntentOf(rest)
  }

  /** Where a thread stands in `kexec`: the step it takes next, 0 before the first and outside. */
  function Stage(code: Code): nat {
    var intent := IntentOf(code);
    if intent.ToExec? then intent.at else 0
  }

  function CallCode(i: nat, call: Call): Code {
    match call
    case CallFork => Do(Fork(i), TAIL)
    case CallExec => Do(Exec(0), TAIL)
    case CallExit(xstatus) => Do(Exit(i, xstatus), End)
    case CallWait => Do(Wait(i), TAIL)
    case CallOther => Do(Other, TAIL)
  }

  /** Entering the kernel by `ecall`: the hardware turns interrupts off, `usertrap` on again. */
  function UserCall(c: Core, call: Call): State {
    match c.cpu.current
    case None => Bad
    case Some(i) => On(c.(cpu := c.cpu.(sie := false), code := Do(IntOn, CallCode(i, call))))
  }

  /** A timer interrupt in user mode. */
  function UserTick(c: Core): State {
    match c.cpu.current
    case None => Bad
    case Some(i) => On(c.(cpu := c.cpu.(sie := false), code := YieldCode(i, TAIL)))
  }

  /** A timer interrupt in the kernel; the scheduler only returns from it. */
  function KernelTick(c: Core): State {
    match c.cpu.current
    case None => On(c.(cpu := c.cpu.(sie := false), code := Do(Sret, c.code)))
    case Some(i) => On(c.(cpu := c.cpu.(sie := false), code := YieldCode(i, Do(Sret, c.code))))
  }

  /** Operations that may also run out of memory, or meet a bad user pointer, and panic. */
  predicate MayPanic(op: Op) {
    op.AllocFrom? || op.ForkCopy? || op.ScanTest? || op.CopyOut? || op.Exec? || op.Other?
  }

  /** One step of the machine, including what the user and the timer do.  Faults, unknown system
      calls and interrupts other than the timer's end in a panic. */
  ghost predicate Step(s: State, s': State) {
    s.On? &&
    var c := s.core;
    if c.code == Do(User, End) then
      || s' == UserTick(c)
      || (exists call: Call :: s' == UserCall(c, call))
      || s' == Halted
    else
      || s' == Next(c)
      || (c.cpu.sie && (s' == KernelTick(c) || s' == Halted))
      || (c.code.Do? && MayPanic(c.code.op) && s' == Halted)
  }

  /** A run: each state follows from the one before. */
  ghost predicate Run(states: seq<State>) {
    |states| > 0 && forall k :: 0 <= k < |states| - 1 ==> Step(states[k], states[k + 1])
  }

  /** The machine as `main` leaves it: process 0 can run, everything else is unused. */
  ghost predicate Booted(c: Core) {
    && |c.table| >= 1 && |c.ctx| == |c.table|
    && c.table[0].pid == Some(0) && c.table[0].state == Runnable && c.table[0].parent == None
    && (forall j :: 1 <= j < |c.table| ==> c.table[j] == Proc(None, Unused, None, None, 0, 0))
    && c.nextPid == 1 && c.cpu == Cpu(None, 0, false, false) && c.held == {}
    && c.code == IDLE && c.sched == End
    && c.ctx[0] == Do(Forkret, End) && (forall j :: 1 <= j < |c.ctx| ==> c.ctx[j] == End)
    && c.exits == map[] && c.returned == map[] && c.dispatches == 0
  }
}
