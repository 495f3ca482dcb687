/** The machine with the memory of its processes: whatever step the machine takes, memory can follow,
    and a slot in use is ready for user mode exactly while its `kexec` is not replacing it. */
module Systems {
  import opened Options
  import opened Ram
  import opened TableView
  import opened PageTables
  import opened Spaces
  import opened AddressSpaces
  import opened ArgStack
  import opened UserCopy
  import opened Exec
  import opened ProcessMemory
  import opened KernelSpace
  import opened Slots
  import opened Population
  import T = ProcessTable
  import Regions
  import P = Protocol
  import M = Machine
  import opened Safety
  import Guarantees
  import Calls

  /** Slots in use are those that may enter user mode, and memory stands where the thread stands in `kexec`. */
  ghost predicate JoinedAt(unused: bool, stage: nat, s: Slot) {
    (s.live <==> !unused) && At(s) == stage
  }

  ghost predicate Joined(c: M.Core, slots: seq<Slot>) {
    && |c.table| == |slots|
    && forall i: nat :: i < |slots| ==> JoinedAt(c.table[i].state == T.Unused, StageAt(c, i), slots[i])
  }

  lemma JoinedStill(c: M.Core, d: M.Core, slots: seq<Slot>)
    requires Joined(c, slots) && SameJobs(c, d)
    ensures Joined(d, slots)
  {
    hide StageAt;
  }

  /** One slot changed, in the machine and in memory. */
  lemma JoinedAgain(c: M.Core, d: M.Core, slots: seq<Slot>, now: seq<Slot>, k: nat)
    requires Joined(c, slots) && SameBut(slots, now, k) && k < |slots| && |d.table| == |c.table|
    requires forall i: nat :: i < |slots| && i != k ==> d.table[i] == c.table[i] && StageAt(d, i) == StageAt(c, i)
    requires JoinedAt(d.table[k].state == T.Unused, StageAt(d, k), now[k])
    ensures Joined(d, now)
  {
    hide StageAt;
  }

  lemma ExecElsewhere(c: M.Core, d: M.Core, i: nat)
    requires ExecTo(c, d, i)
    ensures forall j: nat :: j != i ==> StageAt(d, j) == StageAt(c, j)
  {
  }

  /** The machine as `main` leaves it, with `n` slots. */
  function BootCore(n: nat): M.Core
    requires n > 0
  {
    M.Core(BootTable(n), 1, M.Cpu(None, 0, false, false), {}, M.IDLE,
           [M.Do(M.Forkret, M.End)] + seq(n - 1, _ => M.End), M.End, map[], map[], 0)
  }

  function BootTable(n: nat): T.Table
    requires n > 0
  {
    [T.Proc(Some(0), T.Runnable, None, None, 0, 0)] + seq(n - 1, _ => T.Proc(None, T.Unused, None, None, 0, 0))
  }

  lemma BootIsSane(n: nat)
    requires n > 0
    ensures M.Booted(BootCore(n)) && Quiet(BootCore(n))
  {
    hide Quiet;
    Guarantees.BootQuiet(BootCore(n));
  }

  lemma BootJoined(n: nat, slots: seq<Slot>)
    requires n > 0 && |slots| == n && forall i: nat :: i < n ==> (slots[i].live <==> i == 0) && At(slots[i]) == 0
    ensures Joined(BootCore(n), slots)
  {
  }

  /** What is left of a number in a register. */
  function Low32(x: nat): Word {
    x % (USIZE_MAX + 1)
  }

  /** The call of process `s` has answered `child`, and its word at `va` is `xstatus` if there is one;
      nothing else in memory has changed. */
  ghost predicate StatusOut(m0: Mem, m: Mem, s: Slot, va: Word, child: nat, xstatus: nat) {
    && s.trapframe in m0 && s.trapframe in m && m[s.trapframe] == m0[s.trapframe][A0 := Low32(child)]
    && if va == 0 then m == m0[s.trapframe := m[s.trapframe]]
       else Wf(m0, s.root) && WordOut(m0, m, View(m0, s.root), s.trapframe, va, Low32(xstatus))
  }

  ghost predicate WordOut(m0: Mem, m: Mem, view: map<nat, Leaf>, trapframe: nat, va: Word, w: Word)
    requires trapframe in m
  {
    && va / PAGESIZE in view
    && var f := view[va / PAGESIZE].frame;
    f in m0 && f != trapframe && m == m0[f := m0[f][va % PAGESIZE / 4 := w]][trapframe := m[trapframe]]
  }

  class System {
    const procs: Processes
    var core: M.Core

    constructor (procs: Processes, core: M.Core)
      ensures this.procs == procs && this.core == core
    {
      this.procs, this.core := procs, core;
    }

    /** Between two critical regions: what every run of the machine is always on its way to. */
    ghost predicate Valid()
      reads this, procs, procs.ram, procs.procs, set p | p in procs.procs :: p.pagetable
    {
      procs.Valid() && Quiet(core) && Joined(core, procs.slots)
    }

    ghost predicate IsReady(i: nat)
      reads this, procs, procs.ram
    {
      i < |procs.slots| && Ready(procs.ram.mem, procs.trampoline, procs.slots[i])
    }

    lemma SlotsAre(i: nat)
      requires Valid() && i < |core.table|
      ensures i < |procs.slots| == |procs.procs| == |procs.works| == |core.table|
      ensures procs.Live(i) <==> core.table[i].state != T.Unused
      ensures procs.Step(i) == StageAt(core, i) && (procs.Settled(i) <==> StageAt(core, i) == 0)
      ensures procs.works[i].Work? ==> procs.works[i].at == StageAt(core, i) && 1 <= StageAt(core, i) <= STORE
    {
      hide Quiet, StageAt, HomeOk, Built;
      SlotIs(procs.ram.mem, procs.trampoline, procs.slots, i);
    }

    /** Whoever is runnable, running, asleep or a zombie has its own address space with both kernel
        pages, its own trapframe and its guard, exactly while it is not between the first page that
        `kexec` unmaps and the store of the new address space. */
    lemma InUseIsReady(i: nat)
      requires Valid() && i < |core.table| && core.table[i].state != T.Unused
      ensures IsReady(i) <==> StageAt(core, i) <= M.DROP
    {
      hide Quiet, StageAt, SlotOk, Ready;
      SlotIs(procs.ram.mem, procs.trampoline, procs.slots, i);
      ReadyUnlessReplacing(procs.ram.mem, procs.trampoline, procs.slots[i]);
    }

    /** Whoever enters user mode, or is there, is ready for it. */
    lemma UserIsReady(i: nat)
      requires Valid() && core.cpu.current == Some(i) && core.code in {M.Do(M.ToUser, M.End), M.Do(M.User, M.End)}
      ensures IsReady(i)
    {
      hide Quiet, Ready;
      QuietLocated(core);
      CurrentPid(core, i);
      InUseIsReady(i);
    }

    /** The rest of `main`: `initproc`, and process 0 made, given its program and made runnable, all of it
        under `KERNEL`. */
    static method Boot(ram: Memory, kvm: Kvm, trampoline: nat, n: nat, img: seq<Byte>, beyond: seq<Byte>,
                       args: seq<seq<Byte>>, ghost text: nat) returns (r: Option<System>)
      requires ram.Valid() && trampoline + 1 < PAGES && |img| <= USIZE_MAX && |beyond| >= PAGESIZE
      requires kvm.pagetable.ram == ram && Wf(ram.mem, kvm.pagetable.root)
      requires KernelShape(View(ram.mem, kvm.pagetable.root), text, trampoline, 0)
      requires n > 0 ==> StackFits(n - 1)
      modifies ram
      ensures r.Some? ==> fresh(r.value) && r.value.Valid() && r.value.procs.ram == ram && n > 0 && r.value.core == BootCore(n)
      ensures r.Some? ==> |r.value.procs.slots| > 0 && exists before: Page ::
        before[..TRAPFRAME_WORDS] == DefaultTrapframe() && Started(ram.mem, before, r.value.procs.slots[0], trampoline, img, args)
    {
      hide View, Wf, Memory.Valid, AllOk, AllApart, OwnsTable, OwnStacks, KernelShape, Quiet, Joined, SlotOk, Processes.Valid, Started,
           DefaultTrapframe;
      var procs := new Processes(ram, trampoline);
      TableOwned(ram, kvm.pagetable.root);
      ghost var own := TableFrames(ram.mem, kvm.pagetable.root);
      NoneApart(ram.mem, own);
      NoStacks(ram.mem, kvm.pagetable.root, own);
      var ok, own1 := procs.InitProc(kvm, n, text, own);
      if !ok || n == 0 {
        return None;
      }
      procs.Lengths();
      procs.StepIs(0);
      ok := procs.Renew(0);
      if !ok {
        return None;
      }
      var started := procs.Exec(0, img, beyond, args);
      if started != Ok {
        return None;
      }
      procs.Lengths();
      BootIsSane(n);
      BootJoined(n, procs.slots);
      var system := new System(procs, BootCore(n));
      r := Some(system);
    }

    // ----- what memory does to follow the machine -----

    /** Nothing: the process tables agree, and nobody has got on in `kexec`. */
    method Keep(d: M.Core)
      requires Valid() && Quiet(d) && SameJobs(core, d)
      modifies this`core
      ensures Valid() && core == d
    {
      hide Processes.Valid, Quiet, Joined, SameJobs;
      JoinedStill(core, d, procs.slots);
      core := d;
    }

    /** The parent's call answers the child's id, the child's answers 0; else their registers agree. */
    ghost predicate ForkAnswers(i: nat, k: nat, pid: nat)
      reads this, procs, procs.ram
    {
      && i < |procs.slots| && k < |procs.slots| && k < |core.table| && core.table[k].pid == Some(pid)
      && var p, q := procs.slots[i].trapframe, procs.slots[k].trapframe;
      && p in procs.ram.mem && q in procs.ram.mem && procs.ram.mem[p][A0] == pid && procs.ram.mem[q][A0] == 0
      && forall w: nat :: w < TRAPFRAME_WORDS && w != A0 ==> procs.ram.mem[q][w] == procs.ram.mem[p][w]
    }

    /** A fork into slot `k`.  `false` is a panic: no frame left, or no id left. */
    method ForkInto(d: M.Core, i: nat, k: nat) returns (ok: bool)
      requires Valid() && Quiet(d) && ForkTo(core, d, i, k)
      modifies this`core, procs`slots, procs.ram, procs.procs
      ensures ok ==> Valid() && core == d && IsReady(k)
      ensures ok ==> ForkAnswers(i, k, old(core.nextPid))
    {
      hide Processes.Valid, Quiet, Joined, StageAt, Ready;
      CurrentPid(core, i);
      NotInExec(core, k);
      SlotsAre(i);
      SlotsAre(k);
      if core.nextPid + 1 > USIZE_MAX {
        return false;
      }
      ghost var slots0 := procs.slots;
      ok := procs.Renew(k);
      if !ok {
        return;
      }
      var forked := procs.Fork(i, k, core.nextPid);
      ok := forked == Forked;
      if ok {
        procs.StepIs(k);
        JoinedAgain(core, d, slots0, procs.slots, k);
        core := d;
        InUseIsReady(k);
      }
    }

    /** Zombie `z` is freed with its memory.  `false` is a panic: no frame left. */
    method Reap(d: M.Core, i: nat, z: nat) returns (ok: bool)
      requires Valid() && Quiet(d) && ReapTo(core, d, i, z)
      modifies this`core, procs`slots, procs.ram, procs.procs
      ensures ok ==> Valid() && core == d && !procs.Live(z)
    {
      hide Processes.Valid, Quiet, Joined, StageAt;
      NotInExec(core, z);
      SlotsAre(z);
      ghost var slots0 := procs.slots;
      ok := procs.Free(z);
      if ok {
        procs.StepIs(z);
        JoinedAgain(core, d, slots0, procs.slots, z);
        core := d;
      }
    }

    /** One step of `kexec`: the work on memory that the machine has at this step.  `false` is an error
        or a panic; the caller unwraps errors. */
    method ExecStep(d: M.Core, i: nat, img: seq<Byte>, beyond: seq<Byte>, args: seq<seq<Byte>>) returns (ok: bool)
      requires Valid() && Quiet(d) && ExecTo(core, d, i) && |img| <= USIZE_MAX && |beyond| >= PAGESIZE
      modifies this`core, procs`slots, procs`works, procs.ram, procs.procs
      ensures ok ==> Valid() && core == d
      ensures M.DROP <= old(StageAt(core, i)) ==> ok
      ensures i < |old(procs.slots)| && (ok ==> |procs.slots| == |old(procs.slots)|)
      ensures ok && old(StageAt(core, i)) == 0 ==> SameProgram(procs.slots[i].job, img, args)
      ensures ok && 0 < old(StageAt(core, i)) < M.STORE ==> SameJob(old(procs.slots[i].job), procs.slots[i].job)
      ensures ok && old(StageAt(core, i)) == M.STORE ==>
        Stored(procs.ram.mem, old(procs.slots[i].job), procs.slots[i], procs.trampoline)
    {
      hide SameProgram, SameJob, Stored, Processes.Valid, Quiet, Joined, StageAt;
      var at := M.Stage(core.code);
      CurrentPid(core, i);
      CodeStage(core, i);
      SlotsAre(i);
      ghost var slots0 := procs.slots;
      ok := procs.ExecOn(i, at, img, beyond, args);
      if ok {
        ExecElsewhere(core, d, i);
        JoinedAgain(core, d, slots0, procs.slots, i);
        core := d;
      }
    }

    /** In the loop over the user pages others may come between any two accesses to memory. */
    method DropPage(i: nat)
      requires Valid() && core.cpu.current == Some(i) && StageAt(core, i) == 9
      modifies procs`slots, procs`works, procs.ram
      ensures Valid() && |procs.slots| == |old(procs.slots)| && i < |procs.slots| && i < |procs.works|
      ensures SameJob(old(procs.slots[i].job), procs.slots[i].job)
      ensures old(procs.MorePages(i)) ==>
        || procs.works[i].page == old(procs.works[i].page) + 1
        || (procs.works[i].page == old(procs.works[i].page) && procs.works[i].freed && !old(procs.works[i].freed))
    {
      hide Processes.Valid, Quiet, Joined, StageAt;
      CurrentPid(core, i);
      SlotsAre(i);
      procs.StepIs(i);
      var more := procs.PageLeft(i);
      if more {
        ghost var slots0 := procs.slots;
        procs.DropOn(i);
        JoinedAgain(core, core, slots0, procs.slots, i);
      }
    }

    /** Any transition of the machine.  `false` is a panic. */
    method Follow(d: M.Core, e: Effect, img: seq<Byte>, beyond: seq<Byte>, args: seq<seq<Byte>>) returns (ok: bool)
      requires Valid() && Quiet(d) && HasEffect(core, d, e) && |img| <= USIZE_MAX && |beyond| >= PAGESIZE
      modifies this`core, procs`slots, procs`works, procs.ram, procs.procs
      ensures ok ==> Valid() && core == d
      ensures e.NoEffect? ==> ok
    {
      hide Processes.Valid, Quiet, Joined, SameJobs, ForkTo, ReapTo, ExecTo;
      match e {
        case NoEffect =>
          Keep(d);
          ok := true;
        case Forks(i, k) => ok := ForkInto(d, i, k);
        case Reaps(i, z) => ok := Reap(d, i, z);
        case Executes(i) => ok := ExecStep(d, i, img, beyond, args);
      }
    }

    // ----- the transitions by name -----

    /** One turn of the scheduler. */
    method Dispatch() returns (found: bool)
      requires Valid() && core.cpu.current == None && core.code == P.PICK && !core.cpu.sie
      modifies this`core
      ensures Valid() && found == P.Choice(old(core.table)).Some?
      ensures |old(core.ctx)| == |old(core.table)|
      ensures core == if found then Returned(old(core), P.Choice(old(core.table)).value)
                      else old(core).(cpu := M.Cpu(None, 0, false, false), code := M.Do(M.IntOn, M.IDLE))
      ensures found ==> core.cpu.current.Some? && Calls.Chosen(old(core), core, core.cpu.current.value)
    {
      hide Processes.Valid, Quiet, Joined, SameJobs, P.Choice, Returned;
      QuietLocated(core);
      var chosen := P.Choice(core.table);
      found := chosen.Some?;
      var d := if found then Returned(core, chosen.value)
               else core.(cpu := M.Cpu(None, 0, false, false), code := M.Do(M.IntOn, M.IDLE));
      PickFollows(core, d);
      if found {
        Calls.ReturnSeen(core, chosen.value);
      }
      Keep(d);
    }

    /** The machine's timer step `s` while a process runs, in user mode or in the kernel, also in the
        middle of `kexec`, where it stays: the process can run, nobody does. */
    method Tick(s: M.State)
      requires Valid() && core.cpu.current.Some? && core.cpu.sie
      requires s == if core.code == M.Do(M.User, M.End) then M.UserTick(core) else M.KernelTick(core)
      modifies this`core
      ensures Valid() && old(core.cpu.current).value < |old(core.table)|
      ensures s.On? && Regions.Leads(s.core, core)
      ensures var i := old(core.cpu.current).value;
        && core.cpu.current == None && core.table == old(core.table)[i := old(core.table)[i].(state := T.Runnable)]
        && StageAt(core, i) == old(StageAt(core, i))
    {
      hide Processes.Valid, Quiet, Joined, SameJobs, Regions.Leads;
      var i := core.cpu.current.value;
      ghost var d0 := Calls.TimerPreempts(core, i);
      var rest := if core.code == M.Do(M.User, M.End) then M.TAIL else M.Do(M.Sret, core.code);
      var d := P.Yielded(s.core, i, rest);
      Calls.TickPosition(core, i, rest);
      YieldFollows(core, s.core, i, rest);
      YieldedJobs(core, d, i, rest);
      Keep(d);
    }

    /** `kexit`, from its first lock. */
    method Exit(xstatus: nat)
      requires Valid() && core.cpu.current.Some? && core.cpu.current.value < |core.table|
      requires AtRegion(core.cpu.current.value, core.table[core.cpu.current.value].pid, core.code, ExitRegion(xstatus))
      modifies this`core
      ensures Valid() && |old(core.ctx)| == |old(core.table)|
      ensures core == P.ExitDone(old(core), old(core.cpu.current).value, xstatus)
      ensures |core.table| == |old(core.table)| && ExitedAs(old(core), core, old(core.cpu.current).value, xstatus)
    {
      hide Processes.Valid, Quiet, Joined, SameJobs, RegionBody, RegionLock, P.ExitDone;
      var i := core.cpu.current.value;
      QuietLocated(core);
      CurrentPid(core, i);
      AtRegionIntent(core, i, ExitRegion(xstatus));
      ExitFollows(core, i, xstatus);
      ExitJobs(core, i, xstatus);
      Keep(P.ExitDone(core, i, xstatus));
    }

    /** `kwait`, from its first lock to a status, to the answer that there is no child, or to sleep.
        `false` is a panic: no frame left. */
    method Wait() returns (ok: bool)
      requires Valid() && core.cpu.current.Some? && core.cpu.current.value < |core.table|
      requires AtRegion(core.cpu.current.value, core.table[core.cpu.current.value].pid, core.code, WaitRegion)
      modifies this`core, procs`slots, procs.ram, procs.procs
      ensures |old(core.ctx)| == |old(core.table)| && old(core.table)[old(core.cpu.current).value].pid.Some?
      ensures var i := old(core.cpu.current).value;
        ok ==> Valid() && core == P.WaitDone(old(core), i, old(core.table)[i].pid.value) && WaitOutcome(old(core), core, i)
      ensures ok && core.cpu.current.None? ==> procs.ram.mem == old(procs.ram.mem)
      ensures var i := old(core.cpu.current).value;
        ok && core.cpu.current.Some? && core.code == M.TAIL ==>
        && i < |procs.slots| && procs.slots[i].trapframe in old(procs.ram.mem)
        && var tf := procs.slots[i].trapframe;
        procs.ram.mem == old(procs.ram.mem)[tf := old(procs.ram.mem)[tf][A0 := USIZE_MAX]]
    {
      hide Processes.Valid, Quiet, Joined, SameJobs, RegionBody, RegionLock, P.WaitDone, ReapTo;
      var i := core.cpu.current.value;
      QuietLocated(core);
      CurrentPid(core, i);
      AtRegionIntent(core, i, WaitRegion);
      var pid := core.table[i].pid.value;
      WaitFollows(core, i, pid);
      var z, d := Regions.FirstZombie(core.table, Some(pid), 0), P.WaitDone(core, i, pid);
      WaitStage(core, i, pid);
      ok := true;
      if z.Some? {
        ok := Reap(d, i, z.value);
      } else {
        Keep(d);
        if core.cpu.current.Some? {
          SlotsAre(i);
          procs.AnswerCall(i, USIZE_MAX);
        }
      }
    }

    /** `kfork`, from its first lock.  `None` is a panic: no slot, no frame or no id left. */
    method Fork() returns (child: Option<nat>)
      requires Valid() && core.cpu.current.Some? && core.cpu.current.value < |core.table|
      requires AtRegion(core.cpu.current.value, core.table[core.cpu.current.value].pid, core.code, ForkRegion)
      modifies this`core, procs`slots, procs.ram, procs.procs
      ensures |old(core.ctx)| == |old(core.table)|
      ensures child.Some? ==> child == Regions.FirstUnused(old(core.table), 0) && IsReady(child.value)
      ensures child.Some? ==> ForkAnswers(old(core.cpu.current).value, child.value, old(core.nextPid))
      ensures child.Some? ==> Valid() && core == P.ForkDone(old(core), old(core.cpu.current).value)
      ensures child.Some? ==>
        |core.table| == |old(core.table)| && ForkedBy(old(core), core, old(core.cpu.current).value, child.value)
    {
      hide Processes.Valid, Quiet, Joined, SameJobs, RegionBody, RegionLock, P.ForkDone, ForkTo;
      var i := core.cpu.current.value;
      QuietLocated(core);
      AtRegionIntent(core, i, ForkRegion);
      ForkFollows(core, i);
      child := Regions.FirstUnused(core.table, 0);
      if child.Some? {
        var ok := ForkInto(P.ForkDone(core, i), i, child.value);
        if !ok {
          child := None;
        }
      }
    }

    /** A word of the user part, or of a page that is not mapped. */
    ghost predicate StatusTarget(s: Slot, va: Word)
      reads procs.ram
    {
      Wf(procs.ram.mem, s.root) && UserTarget(View(procs.ram.mem, s.root), s.pages, va / PAGESIZE)
    }

    /** The end of `kwait`: the child's status goes to a word of the process's own user part, unless the
        address is zero, and the call answers the child's id.  `false` is the panic when the page is not
        mapped. */
    method CopyOut(va: Word) returns (ok: bool)
      requires Valid() && core.cpu.current.Some? && Answering(core.code) && core.cpu.sie && va % 4 == 0
      requires core.cpu.current.value < |procs.slots|
      requires va != 0 ==> StatusTarget(procs.slots[core.cpu.current.value], va)
      modifies this`core, procs.ram
      ensures ok ==> Valid() && core == old(core).(code := M.TAIL) && procs.slots == old(procs.slots)
      ensures ok ==>
        StatusOut(old(procs.ram.mem), procs.ram.mem, procs.slots[core.cpu.current.value], va, old(core).code.op.child,
                  old(core).code.op.xstatus)
    {
      hide Processes.Valid, Quiet, Joined, SameJobs, View, Wf;
      var i, op := core.cpu.current.value, core.code.op;
      CurrentPid(core, i);
      StatusStage(core, i);
      SlotsAre(i);
      ok := true;
      if va != 0 {
        ok := procs.CopyStatus(i, va, Low32(op.xstatus));
        if !ok {
          return;
        }
      }
      procs.AnswerCall(i, Low32(op.child));
      Keep(core.(code := M.TAIL));
    }
  }

  lemma CodeStage(c: M.Core, i: nat)
    requires c.cpu.current == Some(i)
    ensures StageAt(c, i) == M.Stage(c.code)
  {
  }

  /** `kwait` goes on at once if there is no child. */
  lemma WaitStage(c: M.Core, i: nat, pid: nat)
    requires Quiet(c) && c.cpu.current == Some(i) && i < |c.table| == |c.ctx|
    ensures var d := P.WaitDone(c, i, pid);
      Regions.FirstZombie(c.table, Some(pid), 0).None? && d.cpu.current.Some? ==>
      d.cpu.current == Some(i) && d.code == M.TAIL && StageAt(d, i) == 0 && i < |d.table|
    ensures Regions.FirstZombie(c.table, Some(pid), 0).Some? ==> P.WaitDone(c, i, pid).code != M.TAIL
  {
    hide Quiet;
    assert M.IntentOf(M.TAIL) == M.NoIntent;
  }

  lemma StatusStage(c: M.Core, i: nat)
    requires Quiet(c) && c.cpu.current == Some(i) && Answering(c.code) && c.cpu.sie
    ensures StageAt(c, i) == 0 && Quiet(c.(code := M.TAIL)) && SameJobs(c, c.(code := M.TAIL))
  {
    hide T.Sane, AllSaved;
    assert M.IntentOf(M.TAIL) == M.NoIntent;
  }

  lemma AtRegionIntent(c: M.Core, i: nat, r: Region)
    requires c.cpu.current == Some(i) && i < |c.table| && AtRegion(i, c.table[i].pid, c.code, r) && !r.HeapRegion?
    ensures M.IntentOf(c.code) == RegionIntent(r)
  {
    hide RegionBody, RegionLock;
    LockIntent(c.code, RegionLock(i, r), RegionBody(i, c.table[i].pid, r));
    BodyIntent(i, c.table[i].pid, r);
  }

  lemma YieldedJobs(c: M.Core, d: M.Core, i: nat, rest: M.Code)
    requires Quiet(c) && c.cpu.current == Some(i) && i < |c.table| == |c.ctx| && M.IntentOf(rest) == M.IntentOf(c.code)
    requires d == P.Yielded(c.(cpu := c.cpu.(sie := false), code := M.YieldCode(i, rest)), i, rest)
    ensures SameJobs(c, d) && StageAt(d, i) == StageAt(c, i)
  {
    hide Quiet;
    CurrentPid(c, i);
    LeftJobs(c, d, i);
  }

  lemma NotInExec(c: M.Core, k: nat)
    requires Quiet(c) && k < |c.table| && c.table[k].state in {T.Unused, T.Zombie}
    ensures StageAt(c, k) == 0
  {
    hide Located, T.Ids, T.Tree, T.NoLostWakeup, T.History, Yielder;
    assert SavedOk(k, c.table[k].pid, c.table[k].state, c.ctx[k]);
  }

  lemma TableOwned(ram: Memory, root: nat)
    requires ram.Valid() && Wf(ram.mem, root)
    ensures root in ram.mem && OwnsTable(ram.mem, root, TableFrames(ram.mem, root))
  {
    forall f | f in TableFrames(ram.mem, root)
      ensures f in ram.mem
    {
      TableFrameIn(ram.mem, root, f);
    }
  }

  lemma NoneApart(m: Mem, own: set<nat>)
    ensures AllApart(m, [], own)
  {
  }
}
