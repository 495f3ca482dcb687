/** All processes together, from `initproc` on: their frames stay apart, and whoever can run has its
    own trapframe mapped and no hole but its guard, through everything any of them does. */
module Population {
  import opened Options
  import opened Ram
  import opened TableView
  import opened PageTables
  import opened Spaces
  import opened AddressSpaces
  import opened ArgStack
  import opened Ownership
  import opened Exec
  import opened UserCopy
  import opened ProcessMemory
  import opened KernelSpace
  import opened Dropping
  import opened Slots

  ghost predicate AllOk(m: Mem, trampoline: nat, slots: seq<Slot>) {
    && (forall i: nat :: i < |slots| ==> SlotOk(m, trampoline, slots[i]))
    && (forall i: nat, j: nat :: i < j < |slots| ==> FramesOf(m, slots[i]) !! FramesOf(m, slots[j]))
  }

  /** One process does something with its own frames: `Process::free`, a step of `kexec`, or the new
      trapframe of `allocproc`.  If it is fine afterwards, everybody is. */
  lemma OneActs(m0: Mem, free0: set<nat>, m1: Mem, free1: set<nat>, trampoline: nat, slots: seq<Slot>, i: nat, after: Slot)
    requires AllOk(m0, trampoline, slots) && i < |slots| && SlotOk(m1, trampoline, after)
    requires Confined(m0, free0, m1, free1, FramesOf(m0, slots[i]), FramesOf(m1, after))
    ensures AllOk(m1, trampoline, slots[i := after])
  {
    hide Confined, SlotOk, FramesOf;
    var now := slots[i := after];
    forall j: nat | j < |slots| && j != i
      ensures SlotOk(m1, trampoline, now[j]) && FramesOf(m1, now[j]) == FramesOf(m0, slots[j])
      ensures FramesOf(m1, now[j]) !! FramesOf(m1, after)
    {
      assert j < i || i < j;
      SlotKept(m0, free0, m1, free1, FramesOf(m0, slots[i]), FramesOf(m1, after), trampoline, slots[j]);
    }
    forall j: nat, k: nat | j < k < |now|
      ensures FramesOf(m1, now[j]) !! FramesOf(m1, now[k])
    {
      assert FramesOf(m0, slots[j]) !! FramesOf(m0, slots[k]);
    }
  }

  lemma SlotIs(m: Mem, trampoline: nat, slots: seq<Slot>, i: nat)
    requires AllOk(m, trampoline, slots) && i < |slots|
    ensures SlotOk(m, trampoline, slots[i])
  {
  }

  /** A new slot at the end of the table: `Process::new` has made its memory. */
  lemma OneJoins(m0: Mem, free0: set<nat>, m1: Mem, free1: set<nat>, trampoline: nat, slots: seq<Slot>, after: Slot)
    requires AllOk(m0, trampoline, slots) && SlotOk(m1, trampoline, after)
    requires Confined(m0, free0, m1, free1, {}, FramesOf(m1, after))
    ensures AllOk(m1, trampoline, slots + [after])
  {
    hide Confined, SlotOk, FramesOf;
    forall j: nat | j < |slots|
      ensures SlotOk(m1, trampoline, slots[j]) && FramesOf(m1, slots[j]) == FramesOf(m0, slots[j])
      ensures FramesOf(m1, slots[j]) !! FramesOf(m1, after)
    {
      SlotKept(m0, free0, m1, free1, {}, FramesOf(m1, after), trampoline, slots[j]);
    }
  }

  /** Nobody's frames meet `own`. */
  ghost predicate AllApart(m: Mem, slots: seq<Slot>, own: set<nat>) {
    forall i: nat :: i < |slots| ==> FramesOf(m, slots[i]) !! own
  }

  /** Somebody who is no process, the kernel for its stacks, acts on frames of its own. */
  lemma OutsiderActs(m0: Mem, free0: set<nat>, m1: Mem, free1: set<nat>, own0: set<nat>, own1: set<nat>,
                     trampoline: nat, slots: seq<Slot>)
    requires AllOk(m0, trampoline, slots) && AllApart(m0, slots, own0) && Confined(m0, free0, m1, free1, own0, own1)
    ensures AllOk(m1, trampoline, slots) && AllApart(m1, slots, own1)
  {
    hide Confined, SlotOk, FramesOf;
    forall j: nat | j < |slots|
      ensures SlotOk(m1, trampoline, slots[j]) && FramesOf(m1, slots[j]) == FramesOf(m0, slots[j])
      ensures FramesOf(m1, slots[j]) !! own1
    {
      SlotKept(m0, free0, m1, free1, own0, own1, trampoline, slots[j]);
    }
  }

  lemma OwnsFrames(m: Mem, root: nat, own: set<nat>)
    requires OwnsTable(m, root, own)
    ensures Wf(m, root) && own <= m.Keys
  {
    hide View;
  }

  lemma ApartFromNone(m: Mem, slots: seq<Slot>)
    ensures AllApart(m, slots, {})
  {
  }

  /** A new slot leaves the kernel's frames `own` alone, and stays apart from them. */
  lemma JoinsApart(m0: Mem, free0: set<nat>, m1: Mem, free1: set<nat>, trampoline: nat, slots: seq<Slot>, after: Slot,
                   root: nat, own: set<nat>)
    requires AllOk(m0, trampoline, slots) && SlotOk(m1, trampoline, after)
    requires Confined(m0, free0, m1, free1, {}, FramesOf(m1, after))
    requires AllApart(m0, slots, own) && OwnsTable(m0, root, own) && OwnStacks(m0, root, own, |slots|)
    ensures AllApart(m1, slots + [after], own) && OwnsTable(m1, root, own) && OwnStacks(m1, root, own, |slots|)
    ensures Wf(m0, root) && Wf(m1, root) && View(m1, root) == View(m0, root)
  {
    hide SlotOk, FramesOf, Wf, View, Tables, Confined, OwnStacks;
    ConfinedFrame(m0, free0, m1, free1, {}, FramesOf(m1, after), own);
    FrameTable(m0, m1, root);
    StacksKept(m0, m1, root, own, |slots|);
    forall j: nat | j < |slots|
      ensures FramesOf(m1, slots[j]) == FramesOf(m0, slots[j])
    {
      SlotKept(m0, free0, m1, free1, {}, FramesOf(m1, after), trampoline, slots[j]);
    }
  }

  /** `kfork`: parent `i` and child `c` act together, and end up apart. */
  lemma TwoAct(m0: Mem, free0: set<nat>, m1: Mem, free1: set<nat>, trampoline: nat, slots: seq<Slot>,
               i: nat, c: nat, parent: Slot, child: Slot)
    requires AllOk(m0, trampoline, slots) && i < |slots| && c < |slots| && i != c
    requires SlotOk(m1, trampoline, parent) && SlotOk(m1, trampoline, child) && FramesOf(m1, parent) !! FramesOf(m1, child)
    requires Confined(m0, free0, m1, free1, FramesOf(m0, slots[i]) + FramesOf(m0, slots[c]),
                      FramesOf(m1, parent) + FramesOf(m1, child))
    ensures AllOk(m1, trampoline, slots[i := parent][c := child])
  {
    hide Confined, SlotOk, FramesOf;
    var now := slots[i := parent][c := child];
    forall j: nat | j < |slots| && j != i && j != c
      ensures SlotOk(m1, trampoline, now[j]) && FramesOf(m1, now[j]) == FramesOf(m0, slots[j])
      ensures FramesOf(m1, now[j]) !! FramesOf(m1, parent) && FramesOf(m1, now[j]) !! FramesOf(m1, child)
    {
      assert (j < i || i < j) && (j < c || c < j);
      SlotKept(m0, free0, m1, free1, FramesOf(m0, slots[i]) + FramesOf(m0, slots[c]),
               FramesOf(m1, parent) + FramesOf(m1, child), trampoline, slots[j]);
    }
    forall j: nat, k: nat | j < k < |now|
      ensures FramesOf(m1, now[j]) !! FramesOf(m1, now[k])
    {
      assert FramesOf(m0, slots[j]) !! FramesOf(m0, slots[k]);
    }
  }

  lemma SlotsApart(m: Mem, trampoline: nat, slots: seq<Slot>, i: nat, j: nat)
    requires AllOk(m, trampoline, slots) && i < |slots| && j < |slots| && i != j
    ensures FramesOf(m, slots[i]) !! FramesOf(m, slots[j])
  {
    assert i < j || j < i;
  }

  /** After a fork both processes have their kernel pages, and the child has the parent's guard. */
  lemma ForkedReady(m0: Mem, m: Mem, root: nat, n: nat, tf: nat, croot: nat, cn: nat, ctf: nat, pid: Word, trampoline: nat)
    requires ForkedFrom(m0, root, n, tf, m, croot, cn, ctf, pid, trampoline)
    ensures Wf(m0, root) && Wf(m, root) && Wf(m, croot) && View(m, root) == View(m0, root)
    ensures KernelPages(View(m, croot), trampoline, ctf)
    ensures cn == n && (GuardedPages(View(m0, root), n) ==> GuardedPages(View(m, croot), n))
  {
    hide View, Wf, KernelPages, UserCopied, GuardedPages;
    CopiedGuard(m0, View(m0, root), m, View(m, croot), n);
  }

  /** A `kexec` under way, as the kernel stack of the process has it: the new address space (its root
      and its size), and how far it has come. */
  datatype Work = NoWork | Work(root: nat, size: nat, at: nat, page: nat, freed: bool, sp: int,
                                img: seq<Byte>, args: seq<seq<Byte>>)

  function JobOf(w: Work): Job {
    if w.NoWork? then Idle else Job(w.at, w.page, w.freed, w.root, w.size / PAGESIZE, w.sp, w.img, w.args)
  }

  /** A process as its object has it, as one of the slots. */
  ghost function SlotOf(p: Process, live: bool, w: Work): Slot
    reads p, p.pagetable
  {
    Slot(p.Root(), p.Pages(), p.trapframe, live, JobOf(w))
  }

  /** What does not depend on memory: the objects belong to the machine. */
  ghost predicate Shaped(p: Process, w: Work, ram: Memory, trampoline: nat)
    reads p, p.pagetable
  {
    && p.ram == ram && p.trampoline == trampoline && p.pagetable.pagetable.ram == ram
    && p.pagetable.begin == USER_START && p.pagetable.size % PAGESIZE == 0
    && trampoline + 1 < PAGES && p.trapframe + 1 < PAGES
    && (w.Work? ==> w.size % PAGESIZE == 0 && |w.img| <= USIZE_MAX)
  }

  /** What the methods of `Process` need and promise is what the lemmas above say. */
  lemma ProcessIsSlot(p: Process, live: bool)
    requires p.ram.Valid() && Shaped(p, NoWork, p.ram, p.trampoline)
    ensures SlotOk(p.ram.mem, p.trampoline, SlotOf(p, live, NoWork)) <==>
      p.Valid() && (live ==> p.Ready() && GuardedPages(p.Map(), p.Pages()))
    ensures FramesOf(p.ram.mem, SlotOf(p, live, NoWork)) == p.Own()
  {
    hide Space, View, Frames, KernelPages, GuardedPages, Memory.Valid;
    if Space(p.ram.mem, p.Root(), p.Pages()) {
      SpaceParts(p.ram.mem, p.Root(), p.Pages());
    }
  }

  lemma ForkSlots(p: Process, q: Process, m0: Mem, pid: Word, forked: bool)
    requires p.Valid() && q.Valid() && p.ram == q.ram && p.trampoline == q.trampoline
    requires Wf(m0, p.Root()) && View(m0, p.Root()) == p.Map()
    requires p.Ready() && GuardedPages(p.Map(), p.Pages())
    requires forked ==>
      ForkedFrom(m0, p.Root(), p.Pages(), p.trapframe, p.ram.mem, q.Root(), q.Pages(), q.trapframe, pid, p.trampoline)
    ensures SlotOk(p.ram.mem, p.trampoline, SlotOf(p, true, NoWork)) && SlotOk(p.ram.mem, p.trampoline, SlotOf(q, forked, NoWork))
    ensures FramesOf(p.ram.mem, SlotOf(p, true, NoWork)) == p.Own()
    ensures FramesOf(p.ram.mem, SlotOf(q, forked, NoWork)) == q.Own()
  {
    hide Space, View, Wf, Frames, KernelPages, GuardedPages, SlotOk, FramesOf, ForkedFrom, Memory.Valid;
    if forked {
      ForkedReady(m0, p.ram.mem, p.Root(), p.Pages(), p.trapframe, q.Root(), q.Pages(), q.trapframe, pid, p.trampoline);
    }
    ProcessIsSlot(p, true);
    ProcessIsSlot(q, forked);
  }

  lemma HasStarted(p: Process, before: Page, img: seq<Byte>, args: seq<seq<Byte>>)
    requires p.Valid() && exists sp: Word ::
      && ProgramSeen(p.ram.mem, p.Map(), p.Pages(), img, sp, args, p.trampoline, p.trapframe)
      && StartsWith(p.ram.mem[p.trapframe], before, |args|, sp)
    ensures Started(p.ram.mem, before, SlotOf(p, true, NoWork), p.trampoline, img, args)
  {
    hide Space, View, Wf, ProgramSeen, StartsWith, Memory.Valid, Frames;
    SpaceParts(p.ram.mem, p.Root(), p.Pages());
    var sp: Word :| ProgramSeen(p.ram.mem, p.Map(), p.Pages(), img, sp, args, p.trampoline, p.trapframe)
      && StartsWith(p.ram.mem[p.trapframe], before, |args|, sp);
    assert StartedAt(p.ram.mem, before, SlotOf(p, true, NoWork), p.trampoline, img, args, sp);
  }

  ghost predicate SameBut(a: seq<Slot>, b: seq<Slot>, i: nat) {
    |a| == |b| && forall j: nat :: j < |a| && j != i ==> a[j] == b[j]
  }

  ghost predicate NoneLive(slots: seq<Slot>, k: nat) {
    forall i: nat :: k <= i < |slots| ==> !slots[i].live && slots[i].job.Idle?
  }

  lemma OneMore(was: seq<Slot>, now: seq<Slot>, first: seq<Slot>)
    requires |now| == |was| + 1 && now[..|was|] == was && !now[|was|].live && now[|was|].job.Idle?
    requires |first| <= |was| && was[..|first|] == first && NoneLive(was, |first|)
    ensures now[..|first|] == first && NoneLive(now, |first|)
  {
    assert forall j: nat | j < |was| :: now[..|was|][j] == now[j];
  }

  /** The new address space as an object; the kernel stack has it as a value. */
  method TreeOf(ram: Memory, trampoline: nat, ghost trapframe: nat, w: Work) returns (u: Uvm)
    requires ram.Valid() && w.Work? && w.size % PAGESIZE == 0 && Built(ram.mem, trampoline, trapframe, JobOf(w))
    ensures fresh(u) && u.Valid() && u.pagetable.ram == ram && u.pagetable.root == w.root && u.size == w.size
  {
    hide Space, View, Wf, Memory.Valid, ArgsOn;
    var pt := new PageTable(ram, w.root);
    u := new Uvm(pt);
    u.size := w.size;
  }

  /** A new address space, for a `kexec` that begins. */
  method BeginTree(ram: Memory, trampoline: nat, img: seq<Byte>, args: seq<seq<Byte>>, ghost s: Slot)
    returns (ok: bool, w: Work)
    requires ram.Valid() && SlotOk(ram.mem, trampoline, s) && s.job.Idle?
    modifies ram
    ensures ram.Valid()
    ensures ok ==> w.Work? && w == Work(w.root, 0, 1, 0, false, 0, img, args)
    ensures ok ==> SlotOk(ram.mem, trampoline, s.(job := JobOf(w)))
    ensures ok ==> Confined(old(ram.mem), old(ram.free), ram.mem, ram.free,
                            old(FramesOf(ram.mem, s)), FramesOf(ram.mem, s.(job := JobOf(w))))
  {
    hide Space, View, Wf, Memory.Valid, Frames, Confined, Made, SlotOk, FramesOf;
    ghost var m0: Mem, free0 := ram.mem, ram.free;
    w := NoWork;
    RamFrames(ram);
    var created := Uvm.New(ram);
    if created.None? {
      return false, w;
    }
    var root := created.value.pagetable.root;
    SpaceParts(ram.mem, root, 0);
    MadeStart(m0, free0, ram.mem, ram.free, root);
    TreeStarts(m0, free0, ram.mem, ram.free, trampoline, s, root, img, args);
    ok, w := true, Work(root, 0, 1, 0, false, 0, img, args);
  }

  /** One of the first five parts. */
  method TreePart(u: Uvm, at: nat, trampoline: nat, trapframe: nat, img: seq<Byte>, beyond: seq<Byte>,
                  ghost m0: Mem, ghost free0: set<nat>) returns (r: Outcome)
    requires u.Valid() && 1 <= at < 6 && trampoline + 1 < PAGES && trapframe + 1 < PAGES
    requires |img| <= USIZE_MAX && |beyond| >= PAGESIZE
    requires Part(u.pagetable.ram.mem, u.pagetable.root, u.size / PAGESIZE, img, trampoline, trapframe, at)
    requires Made(m0, free0, u.pagetable.ram.mem, u.pagetable.ram.free, u.pagetable.root, u.size / PAGESIZE)
    modifies u`size, u.pagetable.ram
    ensures u.Valid()
    ensures Made(m0, free0, u.pagetable.ram.mem, u.pagetable.ram.free, u.pagetable.root, u.size / PAGESIZE)
    ensures r == Ok ==>
      Part(u.pagetable.ram.mem, u.pagetable.root, u.size / PAGESIZE, img, trampoline, trapframe, at + 1)
  {
    hide Space, View, Wf, Memory.Valid, Made, Part;
    match at {
      case 1 => r := KernelPart(u, trampoline, trapframe, img, m0, free0);
      case 2 => r := ImagePart(u, img, trampoline, trapframe, m0, free0);
      case 3 => r := LoadPart(u, img, beyond, trampoline, trapframe, m0, free0);
      case 4 => r := GuardPart(u, img, trampoline, trapframe, m0, free0);
      case _ => r := StackPart(u, img, trampoline, trapframe, m0, free0);
    }
  }

  /** The next part of a program half built, in a machine where others have been at work since the last. */
  method NextPart(ram: Memory, trampoline: nat, trapframe: nat, w: Work, beyond: seq<Byte>, ghost s: Slot)
    returns (ok: bool, w1: Work)
    requires ram.Valid() && trampoline + 1 < PAGES && trapframe + 1 < PAGES && |beyond| >= PAGESIZE
    requires w.Work? && 1 <= w.at < DROP && w.size % PAGESIZE == 0 && |w.img| <= USIZE_MAX
    requires SlotOk(ram.mem, trampoline, s) && s.job == JobOf(w) && s.trapframe == trapframe
    modifies ram
    ensures ram.Valid()
    ensures ok ==> w1.Work? && w1 == w.(at := w.at + 1, size := w1.size, sp := w1.sp) && w1.size % PAGESIZE == 0
    ensures ok ==> SlotOk(ram.mem, trampoline, s.(job := JobOf(w1)))
    ensures ok ==> Confined(old(ram.mem), old(ram.free), ram.mem, ram.free,
                            old(FramesOf(ram.mem, s)), FramesOf(ram.mem, s.(job := JobOf(w1))))
  {
    hide Space, View, Wf, Memory.Valid, Frames, Confined, Made, HomeOk, HomeFrames, Part, ArgsOn, ProgramIn, StackFrame,
         StackHolds, ArgsFit;
    ghost var m0: Mem, free0, n := ram.mem, ram.free, w.size / PAGESIZE;
    ghost var own := Frames(m0, w.root, n);
    PartHasSpace(m0, w.root, n, w.img, trampoline, trapframe, w.at);
    RamFrames(ram);
    TreeIn(m0, trampoline, s);
    AsIfMade(m0, free0, w.root, n);
    var u := TreeOf(ram, trampoline, trapframe, w);
    if w.at < 6 {
      var r := TreePart(u, w.at, trampoline, trapframe, w.img, beyond, m0 - own, free0 + own);
      if r != Ok {
        return false, w;
      }
      MadeFurther(m0, free0, ram.mem, ram.free, own, w.root, u.size / PAGESIZE);
      w1 := w.(at := w.at + 1, size := u.size);
      TreeActs(m0, free0, ram.mem, ram.free, trampoline, s, JobOf(w1));
    } else {
      ok, w1 := ArgsStep(ram, trampoline, trapframe, w, u, m0, free0, s);
      return;
    }
    ok := true;
  }

  /** The arguments, and the registers for them. */
  method ArgsStep(ram: Memory, trampoline: nat, trapframe: nat, w: Work, u: Uvm, ghost m0: Mem, ghost free0: set<nat>,
                  ghost s: Slot) returns (ok: bool, w1: Work)
    requires ram.Valid() && w.Work? && w.at == 6 && w.size % PAGESIZE == 0 && m0 == ram.mem && free0 == ram.free
    requires u.Valid() && u.pagetable.ram == ram && u.pagetable.root == w.root && u.size == w.size
    requires SlotOk(ram.mem, trampoline, s) && s.job == JobOf(w) && s.trapframe == trapframe
    modifies ram
    ensures ram.Valid()
    ensures ok ==> w1.Work? && w1 == w.(at := 7, sp := w1.sp)
    ensures ok ==> SlotOk(ram.mem, trampoline, s.(job := JobOf(w1)))
    ensures ok ==> Confined(m0, free0, ram.mem, ram.free, FramesOf(m0, s), FramesOf(ram.mem, s.(job := JobOf(w1))))
  {
    hide Space, View, Wf, Memory.Valid, Frames, Confined, Made, HomeOk, HomeFrames, Part, ArgsOn, ProgramIn, StackFrame,
         StackHolds, ArgsFit;
    ghost var n, own := w.size / PAGESIZE, Frames(m0, w.root, w.size / PAGESIZE);
    PartHasSpace(m0, w.root, n, w.img, trampoline, trapframe, 6);
    PartIsProgram(m0, w.root, n, w.img, trampoline, trapframe);
    RamFrames(ram);
    TreeIn(m0, trampoline, s);
    AsIfMade(m0, free0, w.root, n);
    var r, sp := ArgsPart(u, w.args, w.img, trampoline, trapframe, m0 - own, free0 + own);
    if r != Ok {
      return false, w;
    }
    PartIsProgram(ram.mem, w.root, n, w.img, trampoline, trapframe);
    ArgsAre(ram.mem, u, w.args, sp);
    MadeFurther(m0, free0, ram.mem, ram.free, own, w.root, n);
    TreeActs(m0, free0, ram.mem, ram.free, trampoline, s, JobOf(w));
    ghost var m1: Mem, free1 := ram.mem, ram.free;
    RamFrames(ram);
    FramesAreIn(m1, trampoline, s);
    ghost var p: Page := m1[trapframe][A0 := |w.args|][A1 := sp];
    ArgsWritten(m1, free1, trampoline, s, sp, p);
    ram.WriteWord(trapframe, A0, |w.args|);
    ram.WriteWord(trapframe, A1, sp);
    WroteTwice(m1, trapframe, A0, |w.args|, A1, sp);
    w1 := w.(at := 7, sp := sp);
    ConfinedTransitive(m0, free0, m1, free1, ram.mem, ram.free, FramesOf(m0, s), FramesOf(m1, s), FramesOf(ram.mem, s.(job := JobOf(w1))));
    ok := true;
  }

  lemma ArgsAre(m: Mem, u: Uvm, args: seq<seq<Byte>>, sp: int)
    requires u.Valid() && ArgsFit(args) && StackFrame(m, u.pagetable.root, u.End()) in m
    requires StackHolds(m[StackFrame(m, u.pagetable.root, u.End())], args, u.End(), sp)
    ensures ArgsOn(m, u.pagetable.root, u.size / PAGESIZE, args, sp) && |args| < ENTRIES && sp <= u.End()
  {
    hide Space, View, Wf, StackFrame, StackHolds, ArgsFit, Memory.Valid;
    StackHoldsBounds(m[StackFrame(m, u.pagetable.root, u.End())], args, u.End(), sp);
    assert u.End() == (USER_VPN + u.size / PAGESIZE) * PAGESIZE;
  }

  /** The next access to memory in the drop of the old address space. */
  method NextDrop(ram: Memory, trampoline: nat, pt: PageTable, n: nat, w: Work, ghost s: Slot) returns (w1: Work)
    requires ram.Valid() && pt.ram == ram && pt.root == s.root && n == s.pages
    requires SlotOk(ram.mem, trampoline, s) && s.job == JobOf(w) && w.Work? && DROP <= w.at < STORE
    modifies ram
    ensures ram.Valid()
    ensures w1.Work? && w1 == w.(at := w1.at, page := w1.page, freed := w1.freed)
    ensures w.at == 9 || w1.at == w.at + 1
    ensures w.at == 9 ==> w.page <= n && w1.page <= n && w1.at == (if w.page == n then 10 else 9)
    ensures w.at == 9 && w.page < n ==> w1.page == w.page + 1 || (w1.page == w.page && w1.freed && !w.freed)
    ensures SlotOk(ram.mem, trampoline, s.(job := JobOf(w1)))
    ensures Confined(old(ram.mem), old(ram.free), ram.mem, ram.free,
                     old(FramesOf(ram.mem, s)), FramesOf(ram.mem, s.(job := JobOf(w1))))
  {
    hide Space, View, Wf, Memory.Valid, Frames, Confined, Part, ArgsOn, Remains, Rest, TreeOk;
    ghost var m0: Mem, free0 := ram.mem, ram.free;
    ghost var own0, own1: set<nat>;
    if w.at == DROP {
      own0 := Frames(m0, s.root, n);
      BeginDrop(pt, n);
      w1 := w.(at := 8, page := 0, freed := false);
      own1 := Rest(ram.mem, s.root, n, 0);
    } else if w.at < 10 {
      own0 := Rest(m0, s.root, n, Low(DropOf(s.job)));
      DropParts(ram, s.root, n, DropOf(s.job));
      var d := DropPart(pt, Drop(w.at, w.page, w.freed), n);
      w1 := w.(at := d.at, page := d.page, freed := d.freed);
      own1 := Rest(ram.mem, s.root, n, Low(d));
    } else {
      own0 := Rest(m0, s.root, n, n);
      AllGone(m0, s.root, n, DropOf(s.job));
      EndDrop(pt, n);
      w1 := w.(at := STORE);
      own1 := {};
    }
    HomeActs(m0, free0, ram.mem, ram.free, trampoline, s, JobOf(w1), own0, own1);
  }

  /** The new address space, to take the place of the old one, and the rest of the registers. */
  method StoreTree(ram: Memory, trampoline: nat, tf: nat, w: Work, ghost s: Slot) returns (u: Uvm)
    requires ram.Valid() && SlotOk(ram.mem, trampoline, s) && s.job == JobOf(w) && s.trapframe == tf
    requires w.Work? && w.at == STORE && w.size % PAGESIZE == 0
    modifies ram
    ensures ram.Valid() && fresh(u) && u.pagetable.ram == ram && u.pagetable.root == w.root && u.size == w.size && u.begin == USER_START
    ensures var after := Slot(w.root, w.size / PAGESIZE, tf, true, Idle);
      && SlotOk(ram.mem, trampoline, after)
      && Confined(old(ram.mem), old(ram.free), ram.mem, ram.free, old(FramesOf(ram.mem, s)), FramesOf(ram.mem, after))
      && ProgramIn(ram.mem, after.root, after.pages, w.img, trampoline, tf)
      && ArgsOn(ram.mem, after.root, after.pages, w.args, w.sp)
    ensures tf in ram.mem && ram.mem[tf][A0] == |w.args| && ram.mem[tf][A1] == ram.mem[tf][SP] == w.sp
    ensures ram.mem[tf][EPC] == USER_START
  {
    hide Space, View, Wf, Memory.Valid, Frames, Confined, SlotOk, FramesOf, ProgramIn, ArgsOn;
    ghost var m0: Mem, free0 := ram.mem, ram.free;
    FramesAreIn(m0, trampoline, s);
    RamFrames(ram);
    RegistersAre(m0, trampoline, s);
    ghost var p: Page := m0[tf][SP := w.sp][EPC := USER_START];
    Stores(m0, free0, trampoline, s, p);
    ram.WriteWord(tf, SP, w.sp);
    ram.WriteWord(tf, EPC, USER_START);
    WroteTwice(m0, tf, SP, w.sp, EPC, USER_START);
    var pt := new PageTable(ram, w.root);
    u := new Uvm(pt);
    u.size := w.size;
  }

  lemma RegistersAre(m: Mem, trampoline: nat, s: Slot)
    requires SlotOk(m, trampoline, s) && At(s) == STORE
    ensures s.trapframe in m && m[s.trapframe][A0] == |s.job.args| && m[s.trapframe][A1] == s.job.sp
  {
    hide Part, ArgsOn, Frames;
  }

  lemma AllGone(m: Mem, root: nat, n: nat, d: Drop)
    requires Remains(m, root, n, d) && d.at == 10
    ensures d == Drop(10, n, false) && root in Rest(m, root, n, n)
  {
    hide View, Wf, LeafKinds, UserFrames;
  }

  lemma WordFits(va: Word)
    requires va % 4 == 0
    ensures va % PAGESIZE + 4 <= PAGESIZE
  {
    var q, p, r := va / 4, va / PAGESIZE, va % PAGESIZE;
    FourFits(r, q - 1024 * p);
  }

  lemma FourFits(r: nat, k: int)
    requires r == 4 * k && r < 4096
    ensures r + 4 <= 4096
  {
  }

  lemma OneWord(p: Page, k: nat, w: Word)
    requires k < ENTRIES
    ensures PutWords(p, k, [w]) == p[k := w]
  {
  }

  /** The job is about this program. */
  predicate SameProgram(j: Job, img: seq<Byte>, args: seq<seq<Byte>>) {
    j.Job? && j.img == img && j.args == args
  }

  /** Both jobs are about the same program, and from the drop on about the same stack. */
  predicate SameJob(a: Job, b: Job) {
    a.Job? && SameProgram(b, a.img, a.args) && a.at <= b.at && (a.at >= DROP ==> b.sp == a.sp)
  }

  lemma SameJobOn(a: Job, b: Job, c: Job)
    requires SameJob(a, b) && SameJob(b, c)
    ensures SameJob(a, c)
  {
  }

  /** The program of the job is there, to be started with its arguments. */
  ghost predicate Stored(m: Mem, j: Job, s: Slot, trampoline: nat) {
    && j.Job? && Wf(m, s.root) && s.trapframe in m && s.job.Idle?
    && ProgramSeen(m, View(m, s.root), s.pages, j.img, j.sp, j.args, trampoline, s.trapframe)
    && m[s.trapframe][A0] == |j.args| && m[s.trapframe][A1] == j.sp && m[s.trapframe][SP] == j.sp
    && m[s.trapframe][EPC] == USER_START
  }

  /** The process table, for its memory, with the `kexec`s under way. */
  class Processes {
    const ram: Memory
    const trampoline: nat
    var procs: seq<Process>
    var works: seq<Work>
    ghost var slots: seq<Slot>

    /** `Kernel::default`: no process yet. */
    constructor (ram: Memory, trampoline: nat)
      requires ram.Valid()
      ensures Valid() && this.ram == ram && this.trampoline == trampoline && procs == []
    {
      this.ram, this.trampoline, procs, works, slots := ram, trampoline, [], [], [];
    }

    ghost predicate Valid()
      reads this, ram, procs, set p | p in procs :: p.pagetable
    {
      && ram.Valid() && |slots| == |procs| == |works|
      && (forall i: nat :: i < |procs| ==>
            Shaped(procs[i], works[i], ram, trampoline) && slots[i] == SlotOf(procs[i], slots[i].live, works[i]))
      && (forall i: nat, j: nat :: i < j < |procs| ==> procs[i] != procs[j] && procs[i].pagetable != procs[j].pagetable)
      && AllOk(ram.mem, trampoline, slots)
    }

    ghost predicate Live(i: nat)
      reads this
    {
      i < |slots| && slots[i].live
    }

    /** Not in the middle of `kexec`. */
    predicate Settled(i: nat)
      reads this
    {
      i < |works| && works[i].NoWork?
    }

    /** The next step of the `kexec` of slot `i`. */
    ghost function Step(i: nat): nat
      reads this
    {
      if i < |slots| then At(slots[i]) else 0
    }

    lemma Lengths()
      requires Valid()
      ensures |works| == |slots| == |procs|
    {
      hide AllOk, Memory.Valid;
    }

    lemma StepIs(i: nat)
      requires Valid() && i < |works|
      ensures |works| == |slots| && (Settled(i) <==> Step(i) == 0)
      ensures works[i].Work? ==> works[i].at == Step(i) && 1 <= Step(i) <= STORE
      ensures works[i].Work? ==> SameProgram(slots[i].job, works[i].img, works[i].args) && slots[i].job.sp == works[i].sp
      ensures works[i].Work? ==> SameJob(slots[i].job, slots[i].job)
    {
      hide HomeOk, Built, Memory.Valid;
      SlotIs(ram.mem, trampoline, slots, i);
    }

    /** The kernel's address space, with `own` as its frames, shares none with a process.  Among them
        each page of each kernel stack has its own. */
    ghost predicate Beside(kvm: Kvm, own: set<nat>)
      reads this, ram
    {
      && kvm.pagetable.ram == ram && Wf(ram.mem, kvm.pagetable.root) && OwnsTable(ram.mem, kvm.pagetable.root, own)
      && AllApart(ram.mem, slots, own) && OwnStacks(ram.mem, kvm.pagetable.root, own, |procs|)
    }

    /** One turn of `initproc`'s loop: a process without pages, and its kernel stack. */
    method AddProcess(kvm: Kvm, ghost text: nat, ghost own: set<nat>) returns (ok: bool, ghost own1: set<nat>)
      requires Valid() && Beside(kvm, own) && trampoline + 1 < PAGES
      requires KernelShape(View(ram.mem, kvm.pagetable.root), text, trampoline, |procs|) && StackFits(|procs|)
      modifies this`procs, this`works, this`slots, ram
      ensures ok ==> Valid() && Beside(kvm, own1) && |procs| == |old(procs)| + 1
      ensures ok ==> slots[..|old(slots)|] == old(slots) && !Live(|old(slots)|) && slots[|old(slots)|].job.Idle?
      ensures ok ==> procs[..|old(procs)|] == old(procs) && fresh(procs[|old(procs)|])
      ensures ok ==> KernelShape(View(ram.mem, kvm.pagetable.root), text, trampoline, |procs|)
    {
      hide Space, View, Wf, Memory.Valid, Confined, Frames, KernelPages, GuardedPages, AllOk, SlotOk, FramesOf,
           KernelShape, OwnsTable, OwnStacks, AllApart, DefaultTrapframe;
      ghost var m0: Mem, free0, root := ram.mem, ram.free, kvm.pagetable.root;
      own1 := own;
      var created := Process.New(ram, trampoline);
      if created.None? {
        return false, own1;
      }
      var proc := created.value;
      ghost var m1: Mem, free1, after: Slot := ram.mem, ram.free, SlotOf(proc, false, NoWork);
      ProcessIsSlot(proc, false);
      OneJoins(m0, free0, m1, free1, trampoline, slots, after);
      JoinsApart(m0, free0, m1, free1, trampoline, slots, after, root, own);
      OwnsFrames(m1, root, own);
      ok, own1 := kvm.AllocKstack(Kstack(|procs|), text, trampoline, |procs|, own);
      if ok {
        OutsiderActs(m1, free1, ram.mem, ram.free, own, own1, trampoline, slots + [after]);
        procs, works, slots := procs + [proc], works + [NoWork], slots + [after];
      }
    }

    /** `initproc`: `n` more slots, each with an empty address space, a trapframe and a kernel stack. */
    method InitProc(kvm: Kvm, n: nat, ghost text: nat, ghost own: set<nat>) returns (ok: bool, ghost own1: set<nat>)
      requires Valid() && Beside(kvm, own) && trampoline + 1 < PAGES
      requires KernelShape(View(ram.mem, kvm.pagetable.root), text, trampoline, |procs|)
      requires n > 0 ==> StackFits(|procs| + n - 1)
      modifies this`procs, this`works, this`slots, ram
      ensures ok ==> Valid() && Beside(kvm, own1) && |procs| == |old(procs)| + n
      ensures ok ==> slots[..|old(slots)|] == old(slots) && NoneLive(slots, |old(slots)|)
      ensures ok ==> forall i: nat :: |old(procs)| <= i < |procs| ==> fresh(procs[i])
      ensures ok ==> KernelShape(View(ram.mem, kvm.pagetable.root), text, trampoline, |procs|)
    {
      hide View, Wf, Memory.Valid, AllOk, KernelShape, OwnsTable, OwnStacks, AllApart;
      ghost var old0 := slots;
      own1 := own;
      for i := |procs| to |procs| + n
        invariant Valid() && Beside(kvm, own1) && |procs| == i
        invariant |old0| <= |slots| && slots[..|old0|] == old0 && NoneLive(slots, |old0|)
        invariant forall j: nat :: |old(procs)| <= j < |procs| ==> fresh(procs[j])
        invariant KernelShape(View(ram.mem, kvm.pagetable.root), text, trampoline, |procs|)
      {
        ghost var was, were := slots, procs;
        ok, own1 := AddProcess(kvm, text, own1);
        if !ok {
          return;
        }
        OneMore(was, slots, old0);
        assert forall j: nat | j < i :: procs[..i][j] == procs[j] && procs[j] == were[j];
      }
      ok := true;
    }

    /** `kexec` of slot `i` without interruption, as at boot. */
    method Exec(i: nat, img: seq<Byte>, beyond: seq<Byte>, args: seq<seq<Byte>>) returns (r: Outcome)
      requires Valid() && Settled(i) && |img| <= USIZE_MAX && |beyond| >= PAGESIZE
      modifies this`slots, ram, procs[i]
      ensures r != Panic ==> Valid() && SameBut(old(slots), slots, i)
      ensures r == Ok ==> Live(i) && slots[i].job.Idle?
      ensures r == Ok ==> old(slots[i].trapframe) in old(ram.mem)
      ensures r == Ok ==>
        Started(ram.mem, old(ram.mem)[old(slots[i].trapframe)], slots[i], trampoline, img, args)
      ensures r == Err ==> slots == old(slots)
    {
      hide Space, View, Wf, Memory.Valid, Confined, Frames, KernelPages, GuardedPages, ProgramIn, StackHolds,
           StackFrame, ArgsFit, SameOutside, AllOk, SlotOk, FramesOf, ProgramSeen, StartsWith, Started, ArgsOn, StartFrame;
      ghost var m0: Mem, free0, before: Slot := ram.mem, ram.free, slots[i];
      SlotIs(m0, trampoline, slots, i);
      ProcessIsSlot(procs[i], before.live);
      r := procs[i].Kexec(img, beyond, args);
      if r == Panic {
        return;
      }
      if r == Err {
        ApartFromNone(m0, slots);
        OutsiderActs(m0, free0, ram.mem, ram.free, {}, {}, trampoline, slots);
      } else {
        ghost var after: Slot := SlotOf(procs[i], true, NoWork);
        ProgramIsGuarded(ram.mem, procs[i].Root(), procs[i].Pages(), img, trampoline, procs[i].trapframe);
        ProcessIsSlot(procs[i], true);
        HasStarted(procs[i], m0[before.trapframe], img, args);
        OneActs(m0, free0, ram.mem, ram.free, trampoline, slots, i, after);
        slots := slots[i := after];
      }
    }

    // ----- kexec with others in between -----

    /** `Uvm::new` in the `kexec` of slot `i`. */
    method NewTree(i: nat, img: seq<Byte>, args: seq<seq<Byte>>) returns (ok: bool)
      requires Valid() && Settled(i) && |img| <= USIZE_MAX
      modifies this`slots, this`works, ram
      ensures ok ==> Valid() && SameBut(old(slots), slots, i) && Live(i) == old(Live(i)) && Step(i) == 1
      ensures ok ==> SameProgram(slots[i].job, img, args)
    {
      hide Space, View, Wf, Memory.Valid, Frames, Confined, Made, AllOk, SlotOk, FramesOf;
      ghost var m0: Mem, free0 := ram.mem, ram.free;
      SlotIs(m0, trampoline, slots, i);
      var w: Work;
      ok, w := BeginTree(ram, trampoline, img, args, slots[i]);
      if ok {
        ghost var after: Slot := slots[i].(job := JobOf(w));
        OneActs(m0, free0, ram.mem, ram.free, trampoline, slots, i, after);
        works, slots := works[i := w], slots[i := after];
      }
    }

    /** The next part of the new address space; the arguments come last.  `false` is an error or a panic. */
    method BuildPart(i: nat, beyond: seq<Byte>) returns (ok: bool)
      requires Valid() && i < |works| && works[i].Work? && 1 <= works[i].at < DROP && |beyond| >= PAGESIZE
      modifies this`slots, this`works, ram
      ensures ok ==> Valid() && SameBut(old(slots), slots, i) && Live(i) == old(Live(i)) && Step(i) == old(Step(i)) + 1
      ensures ok ==> SameJob(old(slots[i].job), slots[i].job)
    {
      hide Space, View, Wf, Memory.Valid, Frames, Confined, Made, AllOk, SlotOk, FramesOf, Part, ArgsOn, TreeOk;
      ghost var m0: Mem, free0 := ram.mem, ram.free;
      SlotIs(m0, trampoline, slots, i);
      var w, tf := works[i], procs[i].trapframe;
      var w1: Work;
      ok, w1 := NextPart(ram, trampoline, tf, w, beyond, slots[i]);
      if ok {
        ghost var after: Slot := slots[i].(job := JobOf(w1));
        OneActs(m0, free0, ram.mem, ram.free, trampoline, slots, i, after);
        works, slots := works[i := w1], slots[i := after];
      }
    }

    /** The next access to memory in the drop of the old address space. */
    method DropOn(i: nat)
      requires Valid() && i < |works| && works[i].Work? && DROP <= works[i].at < STORE
      modifies this`slots, this`works, ram
      ensures Valid() && SameBut(old(slots), slots, i) && Live(i) == old(Live(i)) && works[i].Work?
      ensures |works| == |slots| && slots[i] == old(slots[i]).(job := slots[i].job)
      ensures SameJob(old(slots[i].job), slots[i].job)
      ensures Step(i) == works[i].at == if old(works[i].at) == 9 && old(MorePages(i)) then 9 else old(works[i].at) + 1
      ensures old(works[i].at) == 9 ==> works[i].page <= slots[i].pages
      ensures old(works[i].at) == 9 && old(MorePages(i)) ==>
        works[i].page == old(works[i].page) + 1
        || (works[i].page == old(works[i].page) && works[i].freed && !old(works[i].freed))
    {
      hide Space, View, Wf, Memory.Valid, Frames, Confined, AllOk, SlotOk, FramesOf;
      ghost var m0: Mem, free0 := ram.mem, ram.free;
      SlotIs(m0, trampoline, slots, i);
      var u := procs[i].pagetable;
      var w1 := NextDrop(ram, trampoline, u.pagetable, u.size / PAGESIZE, works[i], slots[i]);
      ghost var after: Slot := slots[i].(job := JobOf(w1));
      OneActs(m0, free0, ram.mem, ram.free, trampoline, slots, i, after);
      works, slots := works[i := w1], slots[i := after];
    }

    /** In the loop over the user part, there is a page left. */
    ghost predicate MorePages(i: nat)
      reads this
    {
      i < |works| == |slots| && works[i].Work? && works[i].page != slots[i].pages
    }

    method PageLeft(i: nat) returns (more: bool)
      requires Valid() && i < |works| && works[i].Work?
      ensures more == MorePages(i) && (works[i].at == 9 ==> works[i].page <= slots[i].pages)
    {
      hide View, Wf, LeafKinds, OwnsUserFrames, TreeOk, Memory.Valid;
      SlotIs(ram.mem, trampoline, slots, i);
      more := works[i].page != procs[i].pagetable.size / PAGESIZE;
    }

    /** The rest of that loop. */
    method DropPages(i: nat)
      requires Valid() && i < |works| && works[i].Work? && works[i].at == 9
      modifies this`slots, this`works, ram
      ensures Valid() && SameBut(old(slots), slots, i) && Live(i) == old(Live(i)) && works[i].Work?
      ensures |works| == |slots| && Step(i) == works[i].at == 9 && !MorePages(i)
      ensures SameJob(old(slots[i].job), slots[i].job)
    {
      hide Valid, SameProgram, SameJob;
      StepIs(i);
      var more := PageLeft(i);
      while more
        invariant Valid() && i < |works| == |slots| && works[i].Work? && Step(i) == works[i].at == 9 && more == MorePages(i)
        invariant SameBut(old(slots), slots, i) && Live(i) == old(Live(i)) && works[i].page <= slots[i].pages
        invariant SameJob(old(slots[i].job), slots[i].job)
        decreases slots[i].pages - works[i].page, if works[i].freed then 0 else 1
      {
        ghost var before := slots[i].job;
        DropOn(i);
        SameJobOn(old(slots[i].job), before, slots[i].job);
        more := PageLeft(i);
      }
    }

    /** Step `at` of the `kexec` of slot `i`.  `false` is an error or a panic, possible only before the drop. */
    method ExecOn(i: nat, at: nat, img: seq<Byte>, beyond: seq<Byte>, args: seq<seq<Byte>>) returns (ok: bool)
      requires Valid() && i < |works| && Live(i) && at == Step(i) && |img| <= USIZE_MAX && |beyond| >= PAGESIZE
      modifies this`slots, this`works, ram, procs[i]
      ensures ok ==> Valid() && SameBut(old(slots), slots, i) && Live(i) && Step(i) == if at == STORE then 0 else at + 1
      ensures at >= DROP ==> ok
      ensures ok && at == 0 ==> SameProgram(slots[i].job, img, args)
      ensures ok && 0 < at < STORE ==> SameJob(old(slots[i].job), slots[i].job)
      ensures ok && at == STORE ==> Stored(ram.mem, old(slots[i].job), slots[i], trampoline)
    {
      hide Valid, SameJob, SameProgram, Stored, ProgramIn, ArgsOn, ProgramSeen;
      StepIs(i);
      ok := true;
      if at == 0 {
        ok := NewTree(i, img, args);
      } else if at < DROP {
        ok := BuildPart(i, beyond);
      } else if at < STORE {
        if at == 9 {
          DropPages(i);
        }
        ghost var before := slots[i].job;
        DropOn(i);
        SameJobOn(old(slots[i].job), before, slots[i].job);
      } else {
        Store(i);
        StepIs(i);
      }
    }

    /** `self.pagetable = pagetree` is done, and the rest of the registers set. */
    method Store(i: nat)
      requires Valid() && i < |works| && works[i].Work? && works[i].at == STORE
      modifies this`slots, this`works, ram, procs[i]
      ensures Valid() && SameBut(old(slots), slots, i) && Live(i) && Settled(i)
      ensures var s, w := slots[i], old(works[i]);
        && s.trapframe == old(slots[i].trapframe) && s.trapframe in ram.mem
        && ProgramIn(ram.mem, s.root, s.pages, w.img, trampoline, s.trapframe)
        && ArgsOn(ram.mem, s.root, s.pages, w.args, w.sp)
        && Wf(ram.mem, s.root)
        && ProgramSeen(ram.mem, View(ram.mem, s.root), s.pages, w.img, w.sp, w.args, trampoline, s.trapframe)
        && ram.mem[s.trapframe][A0] == |w.args| && ram.mem[s.trapframe][A1] == ram.mem[s.trapframe][SP] == w.sp
        && ram.mem[s.trapframe][EPC] == USER_START
      ensures Stored(ram.mem, old(slots[i].job), slots[i], trampoline)
    {
      hide Space, View, Wf, Memory.Valid, Frames, Confined, AllOk, SlotOk, FramesOf, ProgramIn, ArgsOn, ProgramSeen, InRam;
      ghost var m0: Mem, free0 := ram.mem, ram.free;
      SlotIs(m0, trampoline, slots, i);
      var u := StoreTree(ram, trampoline, procs[i].trapframe, works[i], slots[i]);
      ghost var after: Slot := Slot(works[i].root, works[i].size / PAGESIZE, procs[i].trapframe, true, Idle);
      OneActs(m0, free0, ram.mem, ram.free, trampoline, slots, i, after);
      RamFrames(ram);
      ProgramSees(ram.mem, after.root, after.pages, works[i].img, trampoline, after.trapframe, works[i].args, works[i].sp);
      procs[i].pagetable := u;
      works, slots := works[i := NoWork], slots[i := after];
    }

    /** `Process::free` of slot `i`, which has exited. */
    method Free(i: nat) returns (ok: bool)
      requires Valid() && Settled(i)
      modifies this`slots, ram, procs[i]
      ensures ok ==> Valid() && !Live(i) && SameBut(old(slots), slots, i)
    {
      hide Space, View, Wf, Memory.Valid, Confined, Frames, KernelPages, GuardedPages, SameOutside, AllOk, SlotOk, FramesOf;
      ghost var m0: Mem, free0 := ram.mem, ram.free;
      SlotIs(m0, trampoline, slots, i);
      ProcessIsSlot(procs[i], slots[i].live);
      ok := procs[i].Free();
      if ok {
        ghost var after: Slot := SlotOf(procs[i], false, NoWork);
        ProcessIsSlot(procs[i], false);
        OneActs(m0, free0, ram.mem, ram.free, trampoline, slots, i, after);
        slots := slots[i := after];
      }
    }

    /** The new trapframe `allocproc` gives to the unused slot `i`. */
    method Renew(i: nat) returns (ok: bool)
      requires Valid() && Settled(i) && !Live(i)
      modifies this`slots, ram, procs[i]
      ensures ok ==> Valid() && !Live(i) && SameBut(old(slots), slots, i)
      ensures ok ==> slots[i].trapframe in ram.mem && ram.mem[slots[i].trapframe][..TRAPFRAME_WORDS] == DefaultTrapframe()
    {
      hide Space, View, Wf, Memory.Valid, Confined, Frames, KernelPages, GuardedPages, SameOutside, AllOk, SlotOk,
           FramesOf, DefaultTrapframe;
      ghost var m0: Mem, free0 := ram.mem, ram.free;
      SlotIs(m0, trampoline, slots, i);
      ProcessIsSlot(procs[i], false);
      ok := procs[i].Renew(DefaultTrapframe());
      if ok {
        ghost var after: Slot := SlotOf(procs[i], false, NoWork);
        ProcessIsSlot(procs[i], false);
        OneActs(m0, free0, ram.mem, ram.free, trampoline, slots, i, after);
        slots := slots[i := after];
      }
    }

    /** The end of `kwait`: the status goes to a word of the user part.  `false` is the panic when the
        page is not mapped. */
    method CopyStatus(i: nat, va: Word, xstatus: Word) returns (ok: bool)
      requires Valid() && Settled(i) && va % 4 == 0
      requires Wf(ram.mem, slots[i].root) && UserTarget(View(ram.mem, slots[i].root), slots[i].pages, va / PAGESIZE)
      modifies ram
      ensures Valid() && slots == old(slots) && Wf(ram.mem, slots[i].root)
      ensures View(ram.mem, slots[i].root) == old(View(ram.mem, slots[i].root))
      ensures ok <==> va / PAGESIZE in View(ram.mem, slots[i].root)
      ensures !ok ==> ram.mem == old(ram.mem)
      ensures ok ==> var f := View(ram.mem, slots[i].root)[va / PAGESIZE].frame;
        && f in old(ram.mem) && ram.mem == old(ram.mem)[f := old(ram.mem)[f][va % PAGESIZE / 4 := xstatus]]
        && f != slots[i].trapframe && slots[i].trapframe in ram.mem
    {
      hide Space, View, Wf, Memory.Valid, Confined, Frames, KernelPages, GuardedPages, AllOk, SlotOk, FramesOf, PutWords;
      ghost var m0: Mem, free0, s := ram.mem, ram.free, slots[i];
      SlotIs(m0, trampoline, slots, i);
      ProcessIsSlot(procs[i], s.live);
      WordFits(va);
      RamFrames(ram);
      var r := CopyOutWords(procs[i].pagetable, va, [xstatus]);
      SpaceParts(ram.mem, s.root, s.pages);
      ok := r == Ok;
      if ok {
        ghost var f := View(m0, s.root)[va / PAGESIZE].frame;
        OneWord(m0[f], va % PAGESIZE / 4, xstatus);
        UserFrameOwned(m0, s.root, s.pages, va / PAGESIZE);
        UserWritten(m0, free0, trampoline, s, va / PAGESIZE, ram.mem[f]);
        OneActs(m0, free0, ram.mem, ram.free, trampoline, slots, i, s);
        assert slots[i := s] == slots;
      }
    }

    /** The result of a system call of slot `i`. */
    method AnswerCall(i: nat, result: Word)
      requires Valid() && Settled(i)
      modifies ram
      ensures Valid() && slots == old(slots) && slots[i].trapframe in old(ram.mem)
      ensures ram.mem == old(ram.mem)[slots[i].trapframe := old(ram.mem)[slots[i].trapframe][A0 := result]]
    {
      hide Space, View, Wf, Memory.Valid, Confined, Frames, KernelPages, GuardedPages, AllOk, SlotOk, FramesOf;
      ghost var m0: Mem, free0, s := ram.mem, ram.free, slots[i];
      SlotIs(m0, trampoline, slots, i);
      ProcessIsSlot(procs[i], s.live);
      RamFrames(ram);
      ResultWritten(m0, free0, trampoline, s, m0[s.trapframe][A0 := result]);
      ram.WriteWord(procs[i].trapframe, A0, result);
      OneActs(m0, free0, ram.mem, ram.free, trampoline, slots, i, s);
      assert slots[i := s] == slots;
    }

    /** `kfork` of slot `i` into slot `c`.  A table for the walk of `clone` is never missing. */
    method Fork(i: nat, c: nat, pid: Word) returns (r: ForkResult)
      requires Valid() && Settled(i) && Settled(c) && Live(i) && !Live(c)
      modifies this`slots, ram, procs[c]
      ensures r != NoTable
      ensures r != NoMemory ==> Valid() && SameBut(old(slots), slots, c) && (Live(c) <==> r == Forked)
      ensures r == Forked ==>
        ForkedFrom(old(ram.mem), slots[i].root, slots[i].pages, slots[i].trapframe, ram.mem, slots[c].root, slots[c].pages,
                   slots[c].trapframe, pid, trampoline)
      ensures r == Forked ==> var p, q := slots[i].trapframe, slots[c].trapframe;
        && p in ram.mem && q in ram.mem && ram.mem[p][A0] == pid && ram.mem[q][A0] == 0
        && forall w: nat :: w < TRAPFRAME_WORDS && w != A0 ==> ram.mem[q][w] == ram.mem[p][w]
    {
      hide Space, View, Wf, Memory.Valid, Confined, Frames, KernelPages, GuardedPages, SameOutside, AllOk, SlotOk,
           FramesOf, ForkedFrom;
      ghost var m0: Mem, free0 := ram.mem, ram.free;
      SlotIs(m0, trampoline, slots, i);
      SlotIs(m0, trampoline, slots, c);
      ProcessIsSlot(procs[i], true);
      ProcessIsSlot(procs[c], false);
      SlotsApart(m0, trampoline, slots, i, c);
      SpaceParts(m0, procs[i].Root(), procs[i].Pages());
      r := procs[i].Kfork(procs[c], pid);
      if r == Forked || r == Refused {
        ghost var parent: Slot, child: Slot := SlotOf(procs[i], true, NoWork), SlotOf(procs[c], r == Forked, NoWork);
        ForkSlots(procs[i], procs[c], m0, pid, r == Forked);
        if r == Forked {
          ForkedRegisters(m0, procs[i].Root(), procs[i].Pages(), procs[i].trapframe, ram.mem, procs[c].Root(),
                          procs[c].Pages(), procs[c].trapframe, pid, trampoline);
        }
        TwoAct(m0, free0, ram.mem, ram.free, trampoline, slots, i, c, parent, child);
        slots := slots[i := parent][c := child];
      }
    }
  }
}
