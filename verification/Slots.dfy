/** The memory of one slot of the process table, also in the middle of `kexec`, and what every step of
    `kexec` does to it. */
module Slots {
  import opened Options
  import opened Ram
  import opened TableView
  import opened PageTables
  import opened Spaces
  import opened AddressSpaces
  import opened ArgStack
  import opened Ownership
  import opened Exec
  import opened Dropping
  import opened ProcessMemory
  import Machine

  /** A `kexec` under way.  `at` is its next step: 1 to 7 while the new address space, at `root`, is
      being built; 8 to 11 while the old one is being dropped and the new one has not been stored. */
  datatype Job = Idle | Job(at: nat, page: nat, freed: bool, root: nat, pages: nat, sp: int,
                            img: seq<Byte>, args: seq<seq<Byte>>)

  /** `live` slots are those that may enter user mode: after `kfork` or the first `kexec`, and until
      `Process::free`.  In the table they are the slots that are not unused (`Systems`). */
  datatype Slot = Slot(root: nat, pages: nat, trapframe: nat, live: bool, job: Job)

  /** The steps of `kexec`, by the first that touches the old address space, and the last. */
  const DROP: nat := Machine.DROP
  const STORE: nat := Machine.STORE

  function At(s: Slot): nat {
    if s.job.Idle? then 0 else s.job.at
  }

  /** The old address space is no longer whole, and the new one is not stored yet. */
  predicate Replacing(s: Slot) {
    At(s) > DROP
  }

  function DropOf(j: Job): Drop
    requires j.Job?
  {
    Drop(j.at, j.page, j.freed)
  }

  /** What belongs to the address space the process object has, and the trapframe. */
  ghost function HomeFrames(m: Mem, s: Slot): set<nat> {
    if !Replacing(s) then Owned(m, s.root, s.pages, s.trapframe)
    else if s.job.at < STORE then {s.trapframe} + Rest(m, s.root, s.pages, Low(DropOf(s.job)))
    else {s.trapframe}
  }

  ghost function TreeFrames(m: Mem, s: Slot): set<nat> {
    if s.job.Idle? then {} else Frames(m, s.job.root, s.job.pages)
  }

  ghost function FramesOf(m: Mem, s: Slot): set<nat> {
    HomeFrames(m, s) + TreeFrames(m, s)
  }

  /** The process can enter user mode: it has an address space of its own with both kernel pages
      mapped, the trapframe page to its own trapframe, and a user part without holes but the guard. */
  ghost predicate Ready(m: Mem, trampoline: nat, s: Slot) {
    && s.root in FramesOf(m, s) && Wf(m, s.root)
    && KernelPages(View(m, s.root), trampoline, s.trapframe) && GuardedPages(View(m, s.root), s.pages)
  }

  /** Address space and trapframe are there and apart from each other; or what `kexec` has left of them. */
  ghost predicate HomeOk(m: Mem, trampoline: nat, s: Slot) {
    && s.trapframe in m
    && if !Replacing(s) then
         && Space(m, s.root, s.pages) && Wf(m, s.root) && s.trapframe !in Frames(m, s.root, s.pages)
         && (s.live ==> KernelPages(View(m, s.root), trampoline, s.trapframe) && GuardedPages(View(m, s.root), s.pages))
       else
         && (s.job.at < STORE ==>
               && Remains(m, s.root, s.pages, DropOf(s.job))
               && s.trapframe !in Rest(m, s.root, s.pages, Low(DropOf(s.job))))
         && (s.job.at >= STORE ==> s.root != s.trapframe)
  }

  /** The new address space, as far as it has been built. */
  ghost predicate TreeOk(m: Mem, trampoline: nat, s: Slot) {
    s.job.Job? ==>
      && 1 <= s.job.at <= STORE
      && Built(m, trampoline, s.trapframe, s.job)
      && Frames(m, s.job.root, s.job.pages) !! HomeFrames(m, s)
      && (s.job.at == STORE ==> s.root !in Frames(m, s.job.root, s.job.pages))
  }

  ghost predicate Built(m: Mem, trampoline: nat, trapframe: nat, j: Job)
    requires j.Job?
  {
    && Part(m, j.root, j.pages, j.img, trampoline, trapframe, if j.at < DROP then j.at else 6)
    && (j.at >= DROP ==>
          && ArgsOn(m, j.root, j.pages, j.args, j.sp) && trapframe in m
          && m[trapframe][A0] == |j.args| && m[trapframe][A1] == j.sp)
  }

  ghost predicate SlotOk(m: Mem, trampoline: nat, s: Slot) {
    HomeOk(m, trampoline, s) && TreeOk(m, trampoline, s)
  }

  /** The process is about to start a program: it is there with its arguments, and the registers are set;
      `before` is the trapframe until then. */
  ghost predicate Started(m: Mem, before: Page, s: Slot, trampoline: nat, img: seq<Byte>, args: seq<seq<Byte>>) {
    exists sp: Word :: StartedAt(m, before, s, trampoline, img, args, sp)
  }

  ghost predicate StartedAt(m: Mem, before: Page, s: Slot, trampoline: nat, img: seq<Byte>, args: seq<seq<Byte>>, sp: Word) {
    && Wf(m, s.root) && s.trapframe in m
    && ProgramSeen(m, View(m, s.root), s.pages, img, sp, args, trampoline, s.trapframe)
    && StartsWith(m[s.trapframe], before, |args|, sp)
  }

  lemma HomeIn(m: Mem, trampoline: nat, s: Slot)
    requires HomeOk(m, trampoline, s)
    ensures HomeFrames(m, s) <= m.Keys && s.trapframe in HomeFrames(m, s)
  {
    hide Space, Wf, View, Frames, Remains, Rest, KernelPages, GuardedPages;
    if !Replacing(s) {
      OwnedIn(m, s.root, s.pages, s.trapframe);
    } else if s.job.at < STORE {
      RestIn(m, s.root, s.pages, DropOf(s.job));
    }
  }

  lemma TreeIn(m: Mem, trampoline: nat, s: Slot)
    requires TreeOk(m, trampoline, s)
    ensures TreeFrames(m, s) <= m.Keys
  {
    hide Wf, View, Frames, HomeFrames, Space;
    if s.job.Job? {
      FramesIn(m, s.job.root, s.job.pages);
    }
  }

  lemma FramesAreIn(m: Mem, trampoline: nat, s: Slot)
    requires SlotOk(m, trampoline, s)
    ensures FramesOf(m, s) <= m.Keys && s.trapframe in FramesOf(m, s)
  {
    hide HomeOk, TreeOk, HomeFrames, TreeFrames;
    HomeIn(m, trampoline, s);
    TreeIn(m, trampoline, s);
  }

  lemma HomeKept(m0: Mem, m1: Mem, trampoline: nat, s: Slot)
    requires HomeOk(m0, trampoline, s) && Kept(m0, m1, HomeFrames(m0, s))
    ensures HomeOk(m1, trampoline, s) && HomeFrames(m1, s) == HomeFrames(m0, s)
  {
    hide Space, Wf, View, Frames, Remains, Rest, KernelPages, GuardedPages;
    HomeIn(m0, trampoline, s);
    if !Replacing(s) {
      SpaceKept(m0, m1, s.root, s.pages);
    } else if s.job.at < STORE {
      RemainsKept(m0, m1, s.root, s.pages, DropOf(s.job));
    }
  }

  lemma BuiltKept(m0: Mem, m1: Mem, trampoline: nat, trapframe: nat, j: Job)
    requires j.Job? && j.at >= 1 && Built(m0, trampoline, trapframe, j)
    requires Kept(m0, m1, Frames(m0, j.root, j.pages)) && trapframe in m0 && trapframe in m1 && m1[trapframe] == m0[trapframe]
    ensures Built(m1, trampoline, trapframe, j) && Frames(m1, j.root, j.pages) == Frames(m0, j.root, j.pages)
  {
    hide Part, ArgsOn, Frames;
    PartKept(m0, m1, j.root, j.pages, j.img, trampoline, trapframe, if j.at < DROP then j.at else 6);
    if j.at >= DROP {
      ArgsKept(m0, m1, j.root, j.pages, j.img, trampoline, trapframe, j.args, j.sp);
    }
  }

  /** Whoever leaves its frames alone leaves the slot alone. */
  lemma SlotStays(m0: Mem, m1: Mem, trampoline: nat, s: Slot)
    requires SlotOk(m0, trampoline, s) && Kept(m0, m1, FramesOf(m0, s))
    ensures SlotOk(m1, trampoline, s) && FramesOf(m1, s) == FramesOf(m0, s)
  {
    hide HomeOk, HomeFrames, Built, Frames;
    HomeIn(m0, trampoline, s);
    HomeKept(m0, m1, trampoline, s);
    if s.job.Job? {
      BuiltKept(m0, m1, trampoline, s.trapframe, s.job);
    }
  }

  /** Somebody else's operation keeps a slot. */
  lemma SlotKept(m0: Mem, free0: set<nat>, m1: Mem, free1: set<nat>, own0: set<nat>, own1: set<nat>, trampoline: nat, s: Slot)
    requires Confined(m0, free0, m1, free1, own0, own1) && SlotOk(m0, trampoline, s) && FramesOf(m0, s) !! own0
    ensures SlotOk(m1, trampoline, s) && FramesOf(m1, s) == FramesOf(m0, s) && FramesOf(m1, s) !! own1
  {
    hide Confined, SlotOk, FramesOf;
    FramesAreIn(m0, trampoline, s);
    ConfinedFrame(m0, free0, m1, free1, own0, own1, FramesOf(m0, s));
    SlotStays(m0, m1, trampoline, s);
  }

  /** A live slot is ready exactly while its address space is not being replaced. */
  lemma ReadyUnlessReplacing(m: Mem, trampoline: nat, s: Slot)
    requires SlotOk(m, trampoline, s) && s.live
    ensures Ready(m, trampoline, s) <==> !Replacing(s)
  {
    hide Space, View, Wf, Frames, GuardedPages, Tables, UserFrames;
    if !Replacing(s) {
      FramesIn(m, s.root, s.pages);
    }
  }

  // ----- the steps of kexec -----

  /** `Uvm::new`: the new address space is begun. */
  lemma TreeStarts(m0: Mem, free0: set<nat>, m1: Mem, free1: set<nat>, trampoline: nat, s: Slot, root: nat,
                   img: seq<Byte>, args: seq<seq<Byte>>)
    requires SlotOk(m0, trampoline, s) && s.job.Idle? && Made(m0, free0, m1, free1, root, 0)
    requires Wf(m1, root) && View(m1, root) == map[]
    ensures var after := s.(job := Job(1, 0, false, root, 0, 0, img, args));
      SlotOk(m1, trampoline, after) && Confined(m0, free0, m1, free1, FramesOf(m0, s), FramesOf(m1, after))
  {
    hide Space, View, Wf, Frames, Confined, HomeOk, HomeFrames;
    var after := s.(job := Job(1, 0, false, root, 0, 0, img, args));
    HomeIn(m0, trampoline, s);
    MadeConfined(m0, free0, m1, free1, root, 0);
    ConfinedFrame(m0, free0, m1, free1, {}, Frames(m1, root, 0), HomeFrames(m0, s));
    HomeKept(m0, m1, trampoline, s);
    HomeSame(m1, trampoline, s, after);
    FirstBuilt(m1, trampoline, s.trapframe, root, img, args);
    assert FramesOf(m0, s) == {} + HomeFrames(m0, s);
    assert FramesOf(m1, after) == Frames(m1, root, 0) + HomeFrames(m0, s);
  }

  lemma FirstBuilt(m: Mem, trampoline: nat, trapframe: nat, root: nat, img: seq<Byte>, args: seq<seq<Byte>>)
    requires Space(m, root, 0) && Wf(m, root) && View(m, root) == map[]
    ensures Built(m, trampoline, trapframe, Job(1, 0, false, root, 0, 0, img, args))
  {
    hide Space, View, Wf, ArgsOn;
  }

  /** The job has no say in what the old address space is, as long as it is whole. */
  lemma HomeSame(m: Mem, trampoline: nat, s: Slot, after: Slot)
    requires !Replacing(s) && !Replacing(after) && after == s.(job := after.job)
    ensures HomeFrames(m, after) == HomeFrames(m, s)
    ensures HomeOk(m, trampoline, s) ==> HomeOk(m, trampoline, after)
  {
    hide Space, View, Wf, Frames, KernelPages, GuardedPages;
  }

  /** Work on the new address space alone. */
  lemma TreeActs(m0: Mem, free0: set<nat>, m1: Mem, free1: set<nat>, trampoline: nat, s: Slot, j: Job)
    requires SlotOk(m0, trampoline, s) && s.job.Job? && s.job.at < DROP && j.Job? && 1 <= j.at < DROP
    requires Confined(m0, free0, m1, free1, TreeFrames(m0, s), Frames(m1, j.root, j.pages))
    requires Built(m1, trampoline, s.trapframe, j)
    ensures SlotOk(m1, trampoline, s.(job := j))
    ensures Confined(m0, free0, m1, free1, FramesOf(m0, s), FramesOf(m1, s.(job := j)))
  {
    hide Frames, Confined, HomeOk, HomeFrames, Built;
    HomeIn(m0, trampoline, s);
    ConfinedFrame(m0, free0, m1, free1, TreeFrames(m0, s), Frames(m1, j.root, j.pages), HomeFrames(m0, s));
    HomeKept(m0, m1, trampoline, s);
    HomeSame(m1, trampoline, s, s.(job := j));
    assert FramesOf(m0, s) == TreeFrames(m0, s) + HomeFrames(m0, s);
    assert FramesOf(m1, s.(job := j)) == Frames(m1, j.root, j.pages) + HomeFrames(m0, s);
  }

  /** Whatever has been built at a moment inside such work, whole pages or not: the process still has
      its own address space as it was. */
  lemma ReadyWhileBuilding(m0: Mem, free0: set<nat>, m1: Mem, free1: set<nat>, trampoline: nat, s: Slot, own: set<nat>)
    requires SlotOk(m0, trampoline, s) && !Replacing(s) && Confined(m0, free0, m1, free1, TreeFrames(m0, s), own)
    ensures HomeOk(m1, trampoline, s) && HomeFrames(m1, s) == HomeFrames(m0, s) && HomeFrames(m1, s) !! own
  {
    hide Frames, Confined, HomeOk, HomeFrames, Built;
    HomeIn(m0, trampoline, s);
    ConfinedFrame(m0, free0, m1, free1, TreeFrames(m0, s), own, HomeFrames(m0, s));
    HomeKept(m0, m1, trampoline, s);
  }

  /** The registers for the new program: the last that is written before the drop. */
  lemma ArgsWritten(m: Mem, free: set<nat>, trampoline: nat, s: Slot, sp: int, p: Page)
    requires SlotOk(m, trampoline, s) && s.job.Job? && s.job.at == DROP - 1 && m.Keys !! free
    requires ArgsOn(m, s.job.root, s.job.pages, s.job.args, sp) && p[A0] == |s.job.args| && p[A1] == sp
    ensures s.trapframe in m
    ensures var after, m1 := s.(job := s.job.(at := DROP, sp := sp)), m[s.trapframe := p];
      SlotOk(m1, trampoline, after) && Confined(m, free, m1, free, FramesOf(m, s), FramesOf(m1, after))
  {
    hide Frames, Confined, HomeFrames, Part, ArgsOn, Space, View, Wf, KernelPages, GuardedPages;
    var tf, j, m1 := s.trapframe, s.job, m[s.trapframe := p];
    var after := s.(job := j.(at := DROP, sp := sp));
    HomeIn(m, trampoline, s);
    TreeIn(m, trampoline, s);
    TrapframeWritten(m, trampoline, s, p);
    ConfinedWrite(m, free, tf, p);
    ConfinedFrame(m, free, m1, free, {tf}, {tf}, FramesOf(m, s) - {tf});
    assert {tf} + (FramesOf(m, s) - {tf}) == FramesOf(m, s);
    PartKept(m, m1, j.root, j.pages, j.img, trampoline, tf, 6);
    ArgsKept(m, m1, j.root, j.pages, j.img, trampoline, tf, j.args, sp);
    HomeSame(m1, trampoline, s, after);
  }

  lemma TrapframeWritten(m: Mem, trampoline: nat, s: Slot, p: Page)
    requires HomeOk(m, trampoline, s) && !Replacing(s)
    ensures var m1 := m[s.trapframe := p]; HomeOk(m1, trampoline, s) && HomeFrames(m1, s) == HomeFrames(m, s)
  {
    hide Frames, Space, View, Wf, KernelPages, GuardedPages;
    FramesIn(m, s.root, s.pages);
    SpaceKept(m, m[s.trapframe := p], s.root, s.pages);
  }

  /** Work on the old address space alone, its drop. */
  lemma HomeActs(m0: Mem, free0: set<nat>, m1: Mem, free1: set<nat>, trampoline: nat, s: Slot, j: Job,
                 own0: set<nat>, own1: set<nat>)
    requires SlotOk(m0, trampoline, s) && s.job.Job? && s.job.at >= DROP
    requires j.Job? && DROP < j.at <= STORE && j == s.job.(at := j.at, page := j.page, freed := j.freed)
    requires Confined(m0, free0, m1, free1, own0, own1)
    requires s.trapframe !in own0 && HomeFrames(m0, s) == {s.trapframe} + own0
    requires HomeFrames(m1, s.(job := j)) == {s.trapframe} + own1
    requires j.at < STORE ==> Remains(m1, s.root, s.pages, DropOf(j)) && own1 == Rest(m1, s.root, s.pages, Low(DropOf(j)))
    requires j.at == STORE ==> s.root in own0 && own1 == {}
    ensures SlotOk(m1, trampoline, s.(job := j))
    ensures Confined(m0, free0, m1, free1, FramesOf(m0, s), FramesOf(m1, s.(job := j)))
  {
    hide Frames, Confined, HomeFrames, Part, ArgsOn, Space, View, Wf, KernelPages, GuardedPages, Remains, Rest;
    var after, others := s.(job := j), {s.trapframe} + TreeFrames(m0, s);
    HomeIn(m0, trampoline, s);
    TreeIn(m0, trampoline, s);
    ConfinedFrame(m0, free0, m1, free1, own0, own1, others);
    BuiltKept(m0, m1, trampoline, s.trapframe, s.job);
    assert FramesOf(m0, s) == own0 + others;
    assert FramesOf(m1, after) == own1 + others;
  }

  /** The new address space in place of the old one. */
  lemma Stores(m: Mem, free: set<nat>, trampoline: nat, s: Slot, p: Page)
    requires SlotOk(m, trampoline, s) && At(s) == STORE && m.Keys !! free
    ensures s.trapframe in m
    ensures var after, m1 := Slot(s.job.root, s.job.pages, s.trapframe, true, Idle), m[s.trapframe := p];
      && SlotOk(m1, trampoline, after) && Confined(m, free, m1, free, FramesOf(m, s), FramesOf(m1, after))
      && ProgramIn(m1, after.root, after.pages, s.job.img, trampoline, s.trapframe)
      && ArgsOn(m1, after.root, after.pages, s.job.args, s.job.sp)
  {
    hide Frames, Confined, Part, ArgsOn, Space, View, Wf, KernelPages, GuardedPages, ProgramIn, Remains, Rest;
    var tf, j, m1 := s.trapframe, s.job, m[s.trapframe := p];
    TreeIn(m, trampoline, s);
    ConfinedWrite(m, free, tf, p);
    ConfinedFrame(m, free, m1, free, {tf}, {tf}, TreeFrames(m, s));
    PartKept(m, m1, j.root, j.pages, j.img, trampoline, tf, 6);
    ArgsKept(m, m1, j.root, j.pages, j.img, trampoline, tf, j.args, j.sp);
    PartIsProgram(m1, j.root, j.pages, j.img, trampoline, tf);
    ProgramIsGuarded(m1, j.root, j.pages, j.img, trampoline, tf);
    PartHasSpace(m1, j.root, j.pages, j.img, trampoline, tf, 6);
    assert FramesOf(m, s) == {tf} + TreeFrames(m, s);
    assert FramesOf(m1, Slot(j.root, j.pages, tf, true, Idle)) == {tf} + TreeFrames(m, s);
  }

  lemma PartHasSpace(m: Mem, root: nat, n: nat, img: seq<Byte>, trampoline: nat, trapframe: nat, k: nat)
    requires Part(m, root, n, img, trampoline, trapframe, k)
    ensures Space(m, root, n) && Wf(m, root)
  {
  }

  /** A store into the user part by the kernel, for the process itself. */
  lemma UserWritten(m: Mem, free: set<nat>, trampoline: nat, s: Slot, v: nat, p: Page)
    requires SlotOk(m, trampoline, s) && s.job.Idle? && m.Keys !! free
    requires Wf(m, s.root) && v in View(m, s.root) && InUser(v, s.pages)
    ensures View(m, s.root)[v].frame in m
    ensures var m1 := m[View(m, s.root)[v].frame := p];
      SlotOk(m1, trampoline, s) && Confined(m, free, m1, free, FramesOf(m, s), FramesOf(m1, s))
  {
    hide Space, View, Tables, UserFrames, KernelPages, GuardedPages, Wf;
    var f := View(m, s.root)[v].frame;
    UserPageFrame(m, s.root, s.pages, v);
    StoreFrame(m, s.root, s.pages, f, p);
    FramesIn(m, s.root, s.pages);
    FramesIn(m[f := p], s.root, s.pages);
  }

  /** A write to the trapframe. */
  lemma ResultWritten(m: Mem, free: set<nat>, trampoline: nat, s: Slot, p: Page)
    requires SlotOk(m, trampoline, s) && s.job.Idle? && m.Keys !! free
    ensures s.trapframe in m
    ensures var m1 := m[s.trapframe := p];
      SlotOk(m1, trampoline, s) && Confined(m, free, m1, free, FramesOf(m, s), FramesOf(m1, s))
  {
    hide Space, View, Wf, Frames, KernelPages, GuardedPages;
    FramesIn(m, s.root, s.pages);
    SpaceKept(m, m[s.trapframe := p], s.root, s.pages);
  }
}
