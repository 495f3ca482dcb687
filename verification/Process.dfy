/** The memory of a process: its address space and its trapframe, through allocation, `kexec`,
    `kfork` and `Process::free`. */
module ProcessMemory {
  import opened Options
  import opened Ram
  import opened TableView
  import opened PageTables
  import opened Spaces
  import opened DeepCopy
  import opened AddressSpaces
  import opened Isolation
  import opened ArgStack
  import opened Ownership
  import opened Exec

  /** `Trapframe` as words: their number, and where the named ones are. */
  const TRAPFRAME_WORDS: nat := 36
  const EPC: nat := 3
  const SP: nat := 6
  const A0: nat := 14
  const A1: nat := 15

  /** `Trapframe::default()` */
  function DefaultTrapframe(): (words: seq<Word>)
    ensures |words| == TRAPFRAME_WORDS && forall w :: w in words ==> w == 0
  {
    seq(TRAPFRAME_WORDS, i => 0)
  }

  /** How `kfork` ends: a child, an `Err`, or one of the panics inside `clone`. */
  datatype ForkResult = Forked | Refused | NoTable | NoMemory

  /** All frames of a process. */
  ghost function Owned(m: Mem, root: nat, n: nat, trapframe: nat): set<nat> {
    {trapframe} + Frames(m, root, n)
  }

  /** `Box::new_in` for a trapframe: a frame of its own, its first words set.  0 is a failed
      allocation, which stops the machine. */
  method NewTrapframe(ram: Memory, words: seq<Word>) returns (f: nat)
    requires ram.Valid() && |words| == TRAPFRAME_WORDS
    modifies ram
    ensures ram.Valid()
    ensures f != 0 ==> Confined(old(ram.mem), old(ram.free), ram.mem, ram.free, {}, {f}) && f in ram.mem && f + 1 < PAGES
    ensures f != 0 ==> ram.mem[f][..TRAPFRAME_WORDS] == words
  {
    hide Confined;
    f := ram.Alloc();
    if f != 0 {
      ConfinedTaken(old(ram.mem), old(ram.free), ram.mem, ram.free, f);
      ghost var m1, free1 := ram.mem, ram.free;
      var page: Page := words + ram.mem[f][TRAPFRAME_WORDS..];
      ConfinedWrite(m1, free1, f, page);
      ram.WritePage(f, page);
      ConfinedTransitive(old(ram.mem), old(ram.free), m1, free1, ram.mem, ram.free, {}, {f}, {f});
      assert page[..TRAPFRAME_WORDS] == words;
    }
  }

  /** What the start of a program leaves in its trapframe. */
  ghost function StartFrame(p: Page, argc: Word, sp: Word): Page {
    p[A0 := argc][A1 := sp][SP := sp][EPC := USER_START]
  }

  /** The registers a program starts with: the number of its arguments, where the pointers to them are,
      the stack below them, and its first instruction; the others are as they were. */
  ghost predicate StartsWith(after: Page, before: Page, argc: nat, sp: int) {
    && after[A0] == argc && after[A1] == sp && after[SP] == sp && after[EPC] == USER_START
    && forall w: nat :: w < ENTRIES && w !in {A0, A1, SP, EPC} ==> after[w] == before[w]
  }

  lemma StartRegisters(p: Page, argc: Word, sp: Word)
    ensures StartsWith(StartFrame(p, argc, sp), p, argc, sp)
  {
  }

  /** The bookkeeping of `kexec`: a new address space was made, the trapframe written, the old
      address space dropped, the trapframe written again. */
  lemma Install(m0: Mem, free0: set<nat>, m1: Mem, free1: set<nat>, m2: Mem, free2: set<nat>,
                tf: nat, p: Page, q: Page, old0: set<nat>, new1: set<nat>)
    requires Confined(m0, free0, m1, free1, {}, new1) && {tf} + old0 <= m0.Keys && tf !in old0
    requires Confined(m1[tf := p], free1, m2, free2, old0, {})
    ensures tf in m2 && m2[tf] == p && m1[tf] == m0[tf]
    ensures Confined(m0, free0, m2[tf := q], free2, {tf} + old0, {tf} + new1)
    ensures tf !in new1 && Kept(m1, m2[tf := q], new1)
  {
  }

  /** A program is a fact about the frames of its address space. */
  lemma ProgramKept(m: Mem, m1: Mem, root: nat, n: nat, top: nat, img: seq<Byte>, trampoline: nat, trapframe: nat)
    requires ProgramIn(m, root, n, img, trampoline, trapframe) && top == (USER_VPN + n) * PAGESIZE
    requires Kept(m, m1, Frames(m, root, n))
    ensures ProgramIn(m1, root, n, img, trampoline, trapframe) && Frames(m1, root, n) == Frames(m, root, n)
    ensures StackFrame(m1, root, top) == StackFrame(m, root, top)
    ensures StackFrame(m, root, top) in Frames(m, root, n)
  {
    hide View, Wf, Space, Frames, Part, ProgramIn;
    PartIsProgram(m, root, n, img, trampoline, trapframe);
    PartIsProgram(m1, root, n, img, trampoline, trapframe);
    PartKept(m, m1, root, n, img, trampoline, trapframe, 6);
    StackOwned(m, root, n, img, trampoline, trapframe, top);
  }

  /** Drops an address space made since `m0`: nothing that was there before is touched. */
  method Abandon(u: Uvm, ghost m0: Mem, ghost free0: set<nat>)
    requires u.Valid()
    requires Made(m0, free0, u.pagetable.ram.mem, u.pagetable.ram.free, u.pagetable.root, u.size / PAGESIZE)
    modifies u.pagetable.ram
    ensures u.pagetable.ram.Valid() && SameOutside(m0, u.pagetable.ram.mem, {})
    ensures Confined(m0, free0, u.pagetable.ram.mem, u.pagetable.ram.free, {}, {})
  {
    hide Space, View, Wf, Memory.Valid, Confined, Made, SameOutside, Footprint, Tables, UserFrames;
    ghost var m1, free1, root, n := u.pagetable.ram.mem, u.pagetable.ram.free, u.pagetable.root, u.size / PAGESIZE;
    SpaceParts(m1, root, n);
    var dropped := u.Drop();
    MadeDropped(m0, free0, m1, free1, u.pagetable.ram.mem, u.pagetable.ram.free, root, n);
  }

  /** An address space and a trapframe owned by one process, untouched by somebody else. */
  lemma ProcessKept(m0: Mem, free0: set<nat>, m1: Mem, free1: set<nat>, own0: set<nat>, own1: set<nat>,
                    root: nat, n: nat, trapframe: nat)
    requires Confined(m0, free0, m1, free1, own0, own1)
    requires Space(m0, root, n) && trapframe in m0 && Owned(m0, root, n, trapframe) !! own0
    ensures Space(m1, root, n) && Wf(m0, root) && Wf(m1, root) && View(m1, root) == View(m0, root)
    ensures Frames(m1, root, n) == Frames(m0, root, n) <= m0.Keys && trapframe in m1 && m1[trapframe] == m0[trapframe]
    ensures Owned(m1, root, n, trapframe) !! own1
  {
    hide View, Wf, Space, Frames, ByteAt;
    FramesIn(m0, root, n);
    OthersKept(m0, free0, m1, free1, own0, own1, root, n, 0);
  }

  lemma WroteTwice(m: Mem, f: nat, i: nat, v: Word, j: nat, w: Word)
    requires f in m && i < ENTRIES && j < ENTRIES
    ensures var m1 := m[f := m[f][i := v]];
      m1[f := m1[f][j := w]] == m[f := m[f][i := v][j := w]]
  {
  }

  /** The user part of `view` in `m` is a copy of that of `view0` in `m0`: same pages, same
      permissions, same contents. */
  ghost predicate UserCopied(m0: Mem, view0: map<nat, Leaf>, m: Mem, view: map<nat, Leaf>, n: nat) {
    forall v: nat | InUser(v, n) :: CopiedPage(m0, view0, m, view, v)
  }

  /** Byte for byte, and with the same guard pages. */
  lemma CopiedBytes(m0: Mem, view0: map<nat, Leaf>, m: Mem, view: map<nat, Leaf>, n: nat, va: nat)
    requires UserCopied(m0, view0, m, view, n) && InUser(va / PAGESIZE, n)
    ensures ByteAt(m, view, va) == ByteAt(m0, view0, va)
    ensures GuardedPages(view0, n) ==> GuardedPages(view, n)
  {
    hide GetByte;
    assert CopiedPage(m0, view0, m, view, va / PAGESIZE);
    CopiedGuard(m0, view0, m, view, n);
  }

  lemma CopiedGuard(m0: Mem, view0: map<nat, Leaf>, m: Mem, view: map<nat, Leaf>, n: nat)
    requires UserCopied(m0, view0, m, view, n)
    ensures GuardedPages(view0, n) ==> GuardedPages(view, n)
  {
    if GuardedPages(view0, n) {
      forall v: nat | InUser(v, n)
        ensures v in view <==> v != USER_VPN + n - 2
      {
        assert CopiedPage(m0, view0, m, view, v);
      }
    }
  }

  /** A copy stays one while neither side's frames change. */
  lemma CopyKept(m0: Mem, m1: Mem, root0: nat, m2: Mem, m3: Mem, root: nat, n: nat)
    requires Space(m0, root0, n) && Space(m1, root0, n) && Wf(m0, root0) && Wf(m1, root0)
    requires View(m1, root0) == View(m0, root0) && Kept(m0, m1, Frames(m0, root0, n))
    requires Space(m2, root, n) && Space(m3, root, n) && Wf(m2, root) && Wf(m3, root)
    requires View(m3, root) == View(m2, root) && Kept(m2, m3, Frames(m2, root, n))
    requires UserCopied(m1, View(m1, root0), m2, View(m2, root), n)
    ensures UserCopied(m0, View(m0, root0), m3, View(m3, root), n)
  {
    hide View, Wf, Space, Frames;
    forall v: nat | InUser(v, n)
      ensures CopiedPage(m0, View(m0, root0), m3, View(m3, root), v)
    {
      assert CopiedPage(m1, View(m1, root0), m2, View(m2, root), v);
      if v in View(m0, root0) {
        UserFrameOwned(m0, root0, n, v);
        UserFrameOwned(m2, root, n, v);
      }
    }
  }

  /** Mapping the two kernel pages leaves the copied user part alone. */
  lemma CopyTook(m0: Mem, view0: map<nat, Leaf>, m1: Mem, free1: set<nat>, m2: Mem, free2: set<nat>, root: nat, n: nat,
                 trampoline: nat, trapframe: nat)
    requires Space(m1, root, n) && Space(m2, root, n) && Wf(m1, root) && Wf(m2, root) && InRam(m1)
    requires Copied(m0, view0, m1, View(m1, root), n) && Took(m1, free1, m2, free2, root, n, n)
    requires View(m2, root)
      == View(m1, root)[TRAMPOLINE_VPN := Leaf(trampoline, PTE_R + PTE_X)][TRAPFRAME_VPN := Leaf(trapframe, PTE_R + PTE_W)]
    ensures UserCopied(m0, view0, m2, View(m2, root), n) && KernelPages(View(m2, root), trampoline, trapframe)
  {
    hide View, Wf, Space, Footprint, TableFrames, UserFrames;
    SpaceBound(m1, root, n);
    forall v: nat | InUser(v, n)
      ensures CopiedPage(m0, view0, m2, View(m2, root), v)
    {
      assert CopiedPage(m0, view0, m1, View(m1, root), v);
      if v in View(m1, root) {
        UserPageFrame(m1, root, n, v);
      }
    }
  }

  lemma CloningMade(m0: Mem, free0: set<nat>, m: Mem, free: set<nat>, root0: nat, root: nat, n: nat)
    requires Cloning(m0, free0, m, free, root0, root, n, n) && m0.Keys !! free0
    ensures Made(m0, free0, m, free, root, n) && Wf(m0, root0) && Wf(m, root)
    ensures Copied(m0, View(m0, root0), m, View(m, root), n)
  {
    hide View, Copied, LeafKinds, Tables, UserFrames, UserCount, OwnsUserFrames, Footprint;
    FramesIn(m, root, n);
  }

  /** A clone does not have its kernel pages yet. */
  lemma NoKernelPages(m0: Mem, view0: map<nat, Leaf>, m: Mem, root: nat, n: nat)
    requires Space(m, root, n) && Wf(m, root) && InRam(m) && Copied(m0, view0, m, View(m, root), n)
    ensures KernelPagesFree(View(m, root))
  {
    hide View, Wf, Space;
    SpaceBound(m, root, n);
  }

  /** `kfork`'s address space: a clone, with the child's kernel pages. */
  method CopySpace(u: Uvm, trampoline: nat, trapframe: nat) returns (r: ForkResult, vm: Uvm)
    requires u.Valid() && trampoline + 1 < PAGES && trapframe + 1 < PAGES
    modifies u.pagetable.ram
    ensures u.pagetable.ram.Valid()
    ensures r == Forked ==>
      && fresh(vm) && fresh(vm.pagetable) && vm.pagetable.ram == u.pagetable.ram && vm.Valid() && vm.size == u.size
      && Made(old(u.pagetable.ram.mem), old(u.pagetable.ram.free), u.pagetable.ram.mem, u.pagetable.ram.free,
              vm.pagetable.root, u.size / PAGESIZE)
    ensures r == Forked ==> var m0, m := old(u.pagetable.ram.mem), u.pagetable.ram.mem;
      && Wf(m0, u.pagetable.root) && Wf(m, vm.pagetable.root)
      && UserCopied(m0, View(m0, u.pagetable.root), m, View(m, vm.pagetable.root), u.size / PAGESIZE)
      && KernelPages(View(m, vm.pagetable.root), trampoline, trapframe)
    ensures r == Refused ==>
      Confined(old(u.pagetable.ram.mem), old(u.pagetable.ram.free), u.pagetable.ram.mem, u.pagetable.ram.free, {}, {})
    ensures r == NoTable ==> MissesTable(old(u.pagetable.ram.mem), u.pagetable.root, u.size / PAGESIZE)
  {
    hide Space, View, Wf, Memory.Valid, Confined, Made, KernelPages, Copied, UserCopied, Took, Cloning, InRam,
         HasTable, GuardedPages, KernelPagesFree;
    vm := u;
    var ram := u.pagetable.ram;
    ghost var m0: Mem, free0, root0, n := ram.mem, ram.free, u.pagetable.root, u.size / PAGESIZE;
    RamFrames(ram);
    SpaceParts(m0, root0, n);
    var copied := u.Clone();
    if copied.MissingTable? {
      ghost var v: nat :| InUser(v, n) && !HasTable(m0, root0, v);
      if GuardedPages(View(m0, root0), n) {
        GuardedHasTables(m0, root0, n, v);
      }
      return NoTable, vm;
    }
    if copied.OutOfFrames? {
      return NoMemory, vm;
    }
    vm := copied.value;
    ghost var m1: Mem, free1, root := ram.mem, ram.free, vm.pagetable.root;
    RamFrames(ram);
    CloningMade(m0, free0, m1, free1, root0, root, n);
    NoKernelPages(m0, View(m0, root0), m1, root, n);
    var kernel := vm.InitProc(trampoline, trapframe);
    SpaceParts(ram.mem, root, n);
    MadeTook(m0, free0, m1, free1, ram.mem, ram.free, root, n, n);
    if kernel != Ok {
      Abandon(vm, m0, free0);
      return Refused, vm;
    }
    CopyTook(m0, View(m0, root0), m1, free1, ram.mem, ram.free, root, n, trampoline, trapframe);
    r := Forked;
  }

  lemma DroppedIs(m: Mem, free: set<nat>, m1: Mem, free1: set<nat>, root: nat, n: nat)
    requires Wf(m, root) && root in m
    requires var back := {root} + UserFrames(View(m, root), USER_VPN, n);
      && m1.Keys == m.Keys - back && free1 == free + back
      && Tables(m, root) <= m1.Keys && SameOutside(m, m1, Footprint(m, root, n))
    ensures Dropped(m, free, m1, free1, root, n)
  {
  }

  lemma KeptIn(m0: Mem, m1: Mem, f: nat)
    requires Kept(m0, m1, {f})
    ensures f in m0 && f in m1 && m1[f] == m0[f]
  {
  }

  lemma NewOwns(m0: Mem, free0: set<nat>, m1: Mem, free1: set<nat>, m2: Mem, free2: set<nat>, root: nat, f: nat)
    requires Made(m0, free0, m1, free1, root, 0) && Confined(m1, free1, m2, free2, {}, {f})
    ensures Space(m1, root, 0) && Space(m2, root, 0) && Wf(m1, root) && Wf(m2, root) && View(m2, root) == View(m1, root)
    ensures f !in Frames(m2, root, 0) && Confined(m0, free0, m2, free2, {}, Owned(m2, root, 0, f))
  {
    hide Space, View, Wf, Confined, Frames, ByteAt, SameOutside;
    MadeConfined(m0, free0, m1, free1, root, 0);
    FramesIn(m1, root, 0);
    OthersKept(m1, free1, m2, free2, {}, {f}, root, 0, 0);
    ConfinedFrame(m1, free1, m2, free2, {}, {f}, Frames(m1, root, 0));
    assert {} + Frames(m1, root, 0) == Frames(m1, root, 0);
    ConfinedTransitive(m0, free0, m1, free1, m2, free2, {}, Frames(m1, root, 0), {f} + Frames(m1, root, 0));
  }

  /** Adopting, and then writing the owner's trapframe `tf`. */
  lemma AdoptedAndWritten(m0: Mem, free0: set<nat>, m1: Mem, free1: set<nat>, m2: Mem, free2: set<nat>,
                          old0: set<nat>, new1: set<nat>, tf: nat, p: Page, others: set<nat>)
    requires Confined(m0, free0, m1, free1, {}, new1) && {tf} + old0 <= m0.Keys && tf !in old0
    requires others <= m0.Keys && others !! {tf} + old0
    requires Confined(m1, free1, m2, free2, old0, {})
    ensures tf in m2 && m2[tf] == m0[tf] && tf !in new1
    ensures Confined(m0, free0, m2[tf := p], free2, {tf} + old0 + others, {tf} + new1 + others)
    ensures {tf} + new1 !! others && Kept(m1, m2[tf := p], new1) && Kept(m0, m2[tf := p], others)
  {
  }

  /** Frames that stay the same are an address space that stays the same. */
  lemma SpaceKept(m0: Mem, m1: Mem, root: nat, n: nat)
    requires Space(m0, root, n) && Kept(m0, m1, Frames(m0, root, n))
    ensures Space(m1, root, n) && Wf(m0, root) && Wf(m1, root) && View(m1, root) == View(m0, root)
    ensures Frames(m1, root, n) == Frames(m0, root, n)
  {
    hide Space, View, Wf, Tables, UserFrames, TableFrames, Footprint, Frames;
    FramesIn(m0, root, n);
    FrameSpace(m0, m1, root, n);
    FramesIn(m1, root, n);
  }

  lemma OwnedIn(m: Mem, root: nat, n: nat, trapframe: nat)
    requires Space(m, root, n) && trapframe in m
    ensures Owned(m, root, n, trapframe) <= m.Keys && trapframe in Owned(m, root, n, trapframe)
    ensures Frames(m, root, n) <= Owned(m, root, n, trapframe)
  {
    hide Space, Frames;
    FramesIn(m, root, n);
  }

  lemma RefusedOwns(m0: Mem, free0: set<nat>, m1: Mem, free1: set<nat>, m2: Mem, free2: set<nat>,
                    own: set<nat>, cown: set<nat>, cown1: set<nat>)
    requires Confined(m0, free0, m1, free1, cown, cown1) && own <= m0.Keys && own !! cown
    requires Confined(m1, free1, m2, free2, {}, {})
    ensures Confined(m0, free0, m2, free2, own + cown, own + cown1) && own !! cown1
  {
    hide Confined;
    ConfinedFrame(m0, free0, m1, free1, cown, cown1, own);
    ConfinedIn(m0, free0, m1, free1, cown, cown1);
    ConfinedFrame(m1, free1, m2, free2, {}, {}, own + cown1);
    assert cown + own == own + cown && cown1 + own == own + cown1 == {} + (own + cown1);
    ConfinedTransitive(m0, free0, m1, free1, m2, free2, own + cown, own + cown1, own + cown1);
  }

  lemma ConfinedIn(m0: Mem, free0: set<nat>, m1: Mem, free1: set<nat>, own0: set<nat>, own1: set<nat>)
    requires Confined(m0, free0, m1, free1, own0, own1)
    ensures own0 <= m0.Keys && own1 <= m1.Keys && m0.Keys !! free0 && m1.Keys !! free1
  {
  }

  lemma ForkedOwns(m0: Mem, free0: set<nat>, m1: Mem, free1: set<nat>, m3: Mem, free3: set<nat>,
                   own: set<nat>, cown: set<nat>, cown1: set<nat>, cown3: set<nat>,
                   root: nat, n: nat, tf: nat, pid: Word)
    requires Confined(m0, free0, m1, free1, cown, cown1) && own <= m0.Keys && own !! cown
    requires Confined(m1, free1, m3, free3, cown1 + own, cown3 + own) && Kept(m1, m3, own) && own !! cown3
    requires Space(m0, root, n) && tf in m0 && own == Owned(m0, root, n, tf) && tf !in Frames(m0, root, n)
    ensures tf in m3 && m3[tf] == m0[tf]
    ensures var m4 := m3[tf := m3[tf][A0 := pid]];
      && Confined(m0, free0, m4, free3, own + cown, own + cown3)
      && Space(m4, root, n) && Wf(m0, root) && Wf(m4, root) && View(m4, root) == View(m0, root)
      && Frames(m4, root, n) == Frames(m0, root, n) && Owned(m4, root, n, tf) == own
      && Kept(m3, m4, cown3)
  {
    hide Confined, Space, View, Wf, Frames;
    ConfinedFrame(m0, free0, m1, free1, cown, cown1, own);
    assert cown + own == own + cown && cown1 + own == own + cown1 && cown3 + own == own + cown3;
    ConfinedTransitive(m0, free0, m1, free1, m3, free3, own + cown, own + cown1, own + cown3);
    ConfinedIn(m1, free1, m3, free3, own + cown1, own + cown3);
    OwnedIn(m0, root, n, tf);
    var m4 := m3[tf := m3[tf][A0 := pid]];
    ConfinedWrite(m3, free3, tf, m3[tf][A0 := pid]);
    ConfinedFrame(m3, free3, m4, free3, {tf}, {tf}, own + cown3 - {tf});
    assert {tf} + (own + cown3 - {tf}) == own + cown3;
    ConfinedTransitive(m0, free0, m3, free3, m4, free3, own + cown, own + cown3, own + cown3);
    SpaceKept(m0, m4, root, n);
  }

  /** A page without a level-0 table, which the address space of a program never has. */
  ghost predicate MissesTable(m: Mem, root: nat, n: nat) {
    Space(m, root, n) && Wf(m, root) && !GuardedPages(View(m, root), n)
  }

  lemma MissesKept(m0: Mem, m1: Mem, root: nat, n: nat)
    requires Space(m0, root, n) && Wf(m0, root) && Wf(m1, root) && View(m1, root) == View(m0, root)
    ensures MissesTable(m1, root, n) ==> MissesTable(m0, root, n)
  {
    hide View, Wf, Space, GuardedPages;
  }

  /** What a fork leaves behind: the parent as it was but for its result; the child with a copy
      of the parent's pages, its own kernel pages, and the parent's registers but for its result. */
  ghost predicate ForkedFrom(m0: Mem, root: nat, n: nat, tf: nat, m: Mem, croot: nat, cn: nat, ctf: nat,
                             pid: Word, trampoline: nat) {
    && Wf(m0, root) && Wf(m, root) && Wf(m, croot) && cn == n
    && View(m, root) == View(m0, root)
    && UserCopied(m0, View(m0, root), m, View(m, croot), n)
    && KernelPages(View(m, croot), trampoline, ctf)
    && tf in m0 && tf in m && m[tf] == m0[tf][A0 := pid]
    && ctf in m && m[ctf][..TRAPFRAME_WORDS] == m0[tf][..TRAPFRAME_WORDS][A0 := 0]
  }

  lemma ForkedRegisters(m0: Mem, root: nat, n: nat, tf: nat, m: Mem, croot: nat, cn: nat, ctf: nat, pid: Word, trampoline: nat)
    requires ForkedFrom(m0, root, n, tf, m, croot, cn, ctf, pid, trampoline)
    ensures tf in m0 && tf in m && m[tf] == m0[tf][A0 := pid] && ctf in m && m[ctf][A0] == 0
    ensures forall w: nat :: w < TRAPFRAME_WORDS && w != A0 ==> m[ctf][w] == m0[tf][w]
  {
    hide Wf, View, UserCopied, KernelPages;
    assert m[ctf][A0] == m[ctf][..TRAPFRAME_WORDS][A0];
    forall w: nat | w < TRAPFRAME_WORDS && w != A0
      ensures m[ctf][w] == m0[tf][w]
    {
      assert m[ctf][..TRAPFRAME_WORDS][w] == m0[tf][..TRAPFRAME_WORDS][A0 := 0][w];
    }
  }

  lemma CopyDone(m0: Mem, m1: Mem, m2: Mem, m3: Mem, m4: Mem, root: nat, n: nat, tf: nat, croot: nat, ctf: nat,
                 pid: Word, trampoline: nat, words: seq<Word>)
    requires Space(m0, root, n) && Wf(m0, root) && tf in m0 && Space(m1, root, n) && Wf(m1, root)
    requires View(m1, root) == View(m0, root) && Kept(m0, m1, Owned(m0, root, n, tf))
    requires Space(m2, croot, n) && Wf(m2, croot) && UserCopied(m1, View(m1, root), m2, View(m2, croot), n)
    requires KernelPages(View(m2, croot), trampoline, ctf)
    requires Kept(m2, m3, Frames(m2, croot, n)) && ctf in m1 && ctf in m3 && m3[ctf] == m1[ctf][A0 := 0]
    requires words == m0[tf][..TRAPFRAME_WORDS] == m1[ctf][..TRAPFRAME_WORDS]
    requires tf in m3 && m3[tf] == m0[tf] && m4 == m3[tf := m3[tf][A0 := pid]]
    requires Wf(m4, root) && View(m4, root) == View(m0, root) && Space(m3, croot, n)
    requires Kept(m3, m4, Owned(m3, croot, n, ctf))
    ensures ForkedFrom(m0, root, n, tf, m4, croot, n, ctf, pid, trampoline)
    ensures Space(m4, croot, n) && Wf(m4, croot) && Frames(m4, croot, n) == Frames(m3, croot, n)
    ensures Owned(m4, croot, n, ctf) == Owned(m3, croot, n, ctf)
  {
    hide Space, View, Wf, Frames, UserCopied, KernelPages, GuardedPages;
    SpaceKept(m2, m3, croot, n);
    SpaceKept(m3, m4, croot, n);
    CopyKept(m0, m1, root, m2, m4, croot, n);
    assert m4[ctf] == m3[ctf];
    assert m1[ctf][A0 := 0][..TRAPFRAME_WORDS] == m1[ctf][..TRAPFRAME_WORDS][A0 := 0];
  }

  /** Replacing a box: the new one is allocated before the old one goes back. */
  lemma Replaced(m0: Mem, free0: set<nat>, m1: Mem, free1: set<nat>, f0: nat, f1: nat, others: set<nat>)
    requires Confined(m0, free0, m1, free1, {}, {f1}) && f0 in m0 && others <= m0.Keys && f0 !in others
    ensures f0 in m1 && m1.Keys !! free1
    ensures Confined(m0, free0, m1 - {f0}, free1 + {f0}, {f0} + others, {f1} + others)
    ensures f1 in m1 - {f0} && f1 !in others && Kept(m0, m1 - {f0}, others)
  {
  }

  /** The bookkeeping of adopting an address space: the owner's old one, `old0`, is dropped. */
  lemma Adopted(m0: Mem, free0: set<nat>, m1: Mem, free1: set<nat>, m2: Mem, free2: set<nat>,
                old0: set<nat>, new1: set<nat>, others: set<nat>)
    requires Confined(m0, free0, m1, free1, {}, new1) && old0 <= m0.Keys && others <= m0.Keys && others !! old0
    requires Confined(m1, free1, m2, free2, old0, {})
    ensures Confined(m0, free0, m2, free2, old0 + others, new1 + others)
    ensures new1 !! others && Kept(m1, m2, new1) && Kept(m0, m2, others) && new1 <= m2.Keys
  {
  }

  /** What an address space with a program and its arguments is to the program. */
  lemma ProgramStarts(m: Mem, u: Uvm, img: seq<Byte>, trampoline: nat, trapframe: nat, args: seq<seq<Byte>>, sp: int)
    requires u.begin == USER_START && u.size % PAGESIZE == 0 && InRam(m)
    requires ProgramIn(m, u.pagetable.root, u.size / PAGESIZE, img, trampoline, trapframe)
    requires StackFrame(m, u.pagetable.root, u.End()) in m
    requires StackHolds(m[StackFrame(m, u.pagetable.root, u.End())], args, u.End(), sp)
    ensures var root, n := u.pagetable.root, u.size / PAGESIZE;
      ArgsOn(m, root, n, args, sp) && Wf(m, root) && ProgramSeen(m, View(m, root), n, img, sp, args, trampoline, trapframe)
  {
    hide Wf, View, StackFrame, StackHolds, ProgramIn, ProgramSeen, ArgsFit;
    StackHoldsBounds(m[StackFrame(m, u.pagetable.root, u.End())], args, u.End(), sp);
    assert u.End() == (USER_VPN + u.size / PAGESIZE) * PAGESIZE;
    ProgramSees(m, u.pagetable.root, u.size / PAGESIZE, img, trampoline, trapframe, args, sp);
  }

  class Process {
    const ram: Memory
    const trampoline: nat
    var pagetable: Uvm
    var trapframe: nat

    constructor (ram: Memory, trampoline: nat, pagetable: Uvm, trapframe: nat)
      ensures this.ram == ram && this.trampoline == trampoline
      ensures this.pagetable == pagetable && this.trapframe == trapframe
    {
      this.ram, this.trampoline, this.pagetable, this.trapframe := ram, trampoline, pagetable, trapframe;
    }

    /** Address space and trapframe are there and share no frame. */
    ghost predicate Valid()
      reads this, ram, pagetable, pagetable.pagetable.ram
    {
      && pagetable.pagetable.ram == ram && ram.Valid() && pagetable.Valid()
      && trampoline + 1 < PAGES && trapframe + 1 < PAGES
      && trapframe in ram.mem && trapframe !in Frames(ram.mem, Root(), Pages())
    }

    ghost function Root(): nat
      reads this, pagetable
    {
      pagetable.pagetable.root
    }

    ghost function Pages(): nat
      reads this, pagetable
    {
      pagetable.size / PAGESIZE
    }

    ghost function Own(): set<nat>
      reads this, ram, pagetable
    {
      Owned(ram.mem, Root(), Pages(), trapframe)
    }

    ghost function Map(): map<nat, Leaf>
      reads this, ram, pagetable, pagetable.pagetable.ram
      requires Valid()
    {
      SpaceParts(ram.mem, Root(), Pages());
      View(ram.mem, Root())
    }

    /** The process can enter user mode: the two kernel pages are mapped, the trapframe page to
        this process's own current trapframe. */
    ghost predicate Ready()
      reads this, ram, pagetable, pagetable.pagetable.ram
      requires Valid()
    {
      KernelPages(Map(), trampoline, trapframe)
    }

    /** `Process::new`, without the entries of the process table: no page is mapped. */
    static method New(ram: Memory, trampoline: nat) returns (r: Option<Process>)
      requires ram.Valid() && trampoline + 1 < PAGES
      modifies ram
      ensures r.Some? ==> fresh(r.value) && fresh(r.value.pagetable) && r.value.ram == ram && r.value.trampoline == trampoline
      ensures r.Some? ==> r.value.Valid() && r.value.Map() == map[] && r.value.pagetable.size == 0
      ensures r.Some? ==> ram.mem[r.value.trapframe][..TRAPFRAME_WORDS] == DefaultTrapframe()
      ensures r.Some? ==> Confined(old(ram.mem), old(ram.free), ram.mem, ram.free, {}, r.value.Own())
    {
      hide Space, View, Wf, Memory.Valid, Confined, Frames, Made, Tables, SameOutside, UserFrames, Footprint,
           TableFrames, InRam, ByteAt, Kept, DefaultTrapframe;
      ghost var m0: Mem, free0 := ram.mem, ram.free;
      RamFrames(ram);
      var created := Uvm.New(ram);
      if created.None? {
        return None;
      }
      var u := created.value;
      ghost var m1: Mem, free1, root := ram.mem, ram.free, u.pagetable.root;
      SpaceParts(m1, root, 0);
      MadeStart(m0, free0, m1, free1, root);
      var f := NewTrapframe(ram, DefaultTrapframe());
      if f == 0 {
        return None;
      }
      NewOwns(m0, free0, m1, free1, ram.mem, ram.free, root, f);
      var proc := new Process(ram, trampoline, u, f);
      r := Some(proc);
    }

    /** `self.trapframe = Box::new_in(..)`, as in `allocproc` and `kfork`.  `false` is a failed allocation. */
    method Renew(words: seq<Word>) returns (ok: bool)
      requires Valid() && |words| == TRAPFRAME_WORDS
      modifies this`trapframe, ram
      ensures ok ==> Valid() && Map() == old(Map()) && ram.mem[trapframe][..TRAPFRAME_WORDS] == words
      ensures ok ==> Confined(old(ram.mem), old(ram.free), ram.mem, ram.free, old(Own()), Own())
      ensures ok ==> Frames(ram.mem, Root(), Pages()) == old(Frames(ram.mem, Root(), Pages()))
      ensures ok ==> Kept(old(ram.mem), ram.mem, Frames(ram.mem, Root(), Pages()))
    {
      hide Space, View, Wf, Memory.Valid, Confined, Frames, Kept;
      ghost var m0: Mem, free0, root, n, f0 := ram.mem, ram.free, Root(), Pages(), trapframe;
      FramesIn(m0, root, n);
      var f := NewTrapframe(ram, words);
      if f == 0 {
        return false;
      }
      ghost var m1: Mem, free1 := ram.mem, ram.free;
      Replaced(m0, free0, m1, free1, f0, f, {});
      Replaced(m0, free0, m1, free1, f0, f, Frames(m0, root, n));
      ram.Dealloc(trapframe);
      assert {f0} + {} == {f0} && {f} + {} == {f};
      OthersKept(m0, free0, ram.mem, ram.free, {f0}, {f}, root, n, 0);
      trapframe := f;
      ok := true;
    }

    /** The memory part of `Process::free`.  `false` is a failed allocation. */
    method Free() returns (ok: bool)
      requires Valid()
      modifies this, ram
      ensures ok ==> Valid() && fresh(pagetable) && Map() == map[] && pagetable.size == 0
      ensures ok ==> ram.mem[trapframe][..TRAPFRAME_WORDS] == DefaultTrapframe()
      ensures ok ==> Confined(old(ram.mem), old(ram.free), ram.mem, ram.free, old(Own()), Own())
    {
      hide Space, View, Wf, Memory.Valid, Confined, Frames, Kept, Made, Tables, Dropped, SameOutside, UserFrames,
           Footprint, TableFrames, InRam, ByteAt, DefaultTrapframe;
      ghost var m0: Mem, free0, root0, n0 := ram.mem, ram.free, Root(), Pages();
      RamFrames(ram);
      FramesIn(m0, root0, n0);
      var created := Uvm.New(ram);
      if created.None? {
        return false;
      }
      var u := created.value;
      ghost var m1: Mem, free1, root := ram.mem, ram.free, u.pagetable.root;
      SpaceParts(m1, root, 0);
      MadeStart(m0, free0, m1, free1, root);
      MadeConfined(m0, free0, m1, free1, root, 0);
      OthersKept(m0, free0, m1, free1, {}, Frames(m1, root, 0), root0, n0, 0);
      RamFrames(ram);
      FramesIn(m1, root0, n0);
      var dropped := pagetable.Drop();
      ghost var m2: Mem, free2 := ram.mem, ram.free;
      DroppedIs(m1, free1, m2, free2, root0, n0);
      DroppedConfined(m1, free1, m2, free2, root0, n0);
      Adopted(m0, free0, m1, free1, m2, free2, Frames(m0, root0, n0), Frames(m1, root, 0), {trapframe});
      OthersKept(m1, free1, m2, free2, Frames(m0, root0, n0), {}, root, 0, 0);
      KeptIn(m0, m2, trapframe);
      pagetable := u;
      ghost var own := Own();
      assert own == Frames(m1, root, 0) + {trapframe};
      assert old(Own()) == Frames(m0, root0, n0) + {trapframe};
      ok := Renew(DefaultTrapframe());
      if ok {
        ConfinedTransitive(m0, free0, m2, free2, ram.mem, ram.free, old(Own()), own, Own());
      }
    }

    /** The child's side of `kfork`'s end: the copied address space in place of the old one, and
        0 as the result of the call.  `others` are frames of other processes. */
    method Adopt(vm: Uvm, ghost m0: Mem, ghost free0: set<nat>, ghost others: set<nat>)
      requires ram.Valid() && vm.Valid() && vm.pagetable.ram == ram && pagetable != vm && pagetable.pagetable.ram == ram
      requires pagetable.begin == USER_START && pagetable.size % PAGESIZE == 0
      requires Space(m0, Root(), Pages()) && trapframe in m0 && trapframe !in Frames(m0, Root(), Pages())
      requires trampoline + 1 < PAGES && trapframe + 1 < PAGES
      requires Made(m0, free0, ram.mem, ram.free, vm.pagetable.root, vm.size / PAGESIZE)
      requires others <= m0.Keys && others !! Owned(m0, Root(), Pages(), trapframe)
      modifies this, ram
      ensures Valid() && pagetable == vm && trapframe == old(trapframe)
      ensures Confined(m0, free0, ram.mem, ram.free, Owned(m0, old(Root()), old(Pages()), trapframe) + others, Own() + others)
      ensures Own() !! others && Kept(m0, ram.mem, others)
      ensures Kept(old(ram.mem), ram.mem, Frames(old(ram.mem), Root(), Pages()))
      ensures Space(old(ram.mem), Root(), Pages()) && Wf(old(ram.mem), Root()) && Map() == View(old(ram.mem), Root())
      ensures ram.mem[trapframe] == m0[trapframe][A0 := 0]
    {
      hide Space, View, Wf, Memory.Valid, Confined, Made, Frames, SameOutside, Tables, InRam, Kept, Dropped,
           UserFrames, Footprint, TableFrames, ByteAt;
      ghost var m1: Mem, free1, root0, n0, root, n := ram.mem, ram.free, Root(), Pages(), vm.pagetable.root, vm.size / PAGESIZE;
      MadeConfined(m0, free0, m1, free1, root, n);
      ProcessKept(m0, free0, m1, free1, {}, Frames(m1, root, n), root0, n0, trapframe);
      RamFrames(ram);
      FramesIn(m1, root0, n0);
      var dropped := pagetable.Drop();
      ghost var m2: Mem, free2 := ram.mem, ram.free;
      DroppedIs(m1, free1, m2, free2, root0, n0);
      DroppedConfined(m1, free1, m2, free2, root0, n0);
      ghost var q: Page := m0[trapframe][A0 := 0];
      AdoptedAndWritten(m0, free0, m1, free1, m2, free2, Frames(m0, root0, n0), Frames(m1, root, n), trapframe, q, others);
      pagetable := vm;
      ram.WriteWord(trapframe, A0, 0);
      SpaceKept(m1, ram.mem, root, n);
    }

    /** The memory part of `kfork`, `child` being the slot `allocproc` found and `pid` its new id. */
    method Kfork(child: Process, pid: Word) returns (r: ForkResult)
      requires Valid() && child.Valid() && child != this && child.ram == ram && child.trampoline == trampoline
      requires child.pagetable != pagetable && Own() !! child.Own()
      modifies child, ram
      ensures r == Forked || r == Refused ==>
        Valid() && child.Valid() && Map() == old(Map()) && Own() == old(Own()) && Own() !! child.Own()
      ensures r == Forked || r == Refused ==>
        Confined(old(ram.mem), old(ram.free), ram.mem, ram.free, old(Own()) + old(child.Own()), Own() + child.Own())
      ensures r == Forked ==> ForkedFrom(old(ram.mem), Root(), Pages(), trapframe, ram.mem, child.Root(), child.Pages(),
                                         child.trapframe, pid, trampoline)
      ensures r == Forked ==> fresh(child.pagetable) && fresh(child.pagetable.pagetable)
      ensures r == Refused ==> child.pagetable == old(child.pagetable)
      ensures r == NoTable ==> MissesTable(old(ram.mem), Root(), Pages())
      ensures r == Forked ==>
        && trapframe in ram.mem && ram.mem[trapframe] == old(ram.mem)[trapframe][A0 := pid]
        && child.trapframe in ram.mem && ram.mem[child.trapframe][A0] == 0 && child.Pages() == Pages()
        && forall w: nat :: w < TRAPFRAME_WORDS && w != A0 ==> ram.mem[child.trapframe][w] == old(ram.mem)[trapframe][w]
    {
      hide Space, View, Wf, Memory.Valid, Confined, Made, Frames, SameOutside, Tables, InRam, Kept, UserFrames,
           Footprint, TableFrames, ByteAt, UserCopied, KernelPages, GuardedPages, MissesTable, ForkedFrom;
      ghost var m0: Mem, free0, root, n, own, cown := ram.mem, ram.free, Root(), Pages(), Own(), child.Own();
      OwnedIn(m0, root, n, trapframe);
      var words := ram.mem[trapframe][..TRAPFRAME_WORDS];
      var ok := child.Renew(words);
      if !ok {
        return NoMemory;
      }
      ghost var m1: Mem, free1, cown1, croot, cn := ram.mem, ram.free, child.Own(), child.Root(), child.Pages();
      ConfinedFrame(m0, free0, m1, free1, cown, cown1, own);
      ProcessKept(m0, free0, m1, free1, cown, cown1, root, n, trapframe);
      var vm;
      r, vm := CopySpace(pagetable, trampoline, child.trapframe);
      if r == NoTable || r == NoMemory {
        MissesKept(m0, m1, root, n);
        return;
      }
      ghost var m2: Mem, free2 := ram.mem, ram.free;
      if r == Refused {
        OwnedIn(m1, croot, cn, child.trapframe);
        RefusedOwns(m0, free0, m1, free1, m2, free2, own, cown, cown1);
        ProcessKept(m1, free1, m2, free2, {}, {}, root, n, trapframe);
        ProcessKept(m1, free1, m2, free2, {}, {}, croot, cn, child.trapframe);
        return;
      }
      OwnedIn(m1, croot, cn, child.trapframe);
      child.Adopt(vm, m1, free1, own);
      ghost var m3: Mem, free3, cown3, vroot := ram.mem, ram.free, child.Own(), child.Root();
      ForkedOwns(m0, free0, m1, free1, m3, free3, own, cown, cown1, cown3, root, n, trapframe, pid);
      ram.WriteWord(trapframe, A0, pid);
      OwnedIn(m3, vroot, n, child.trapframe);
      CopyDone(m0, m1, m2, m3, ram.mem, root, n, trapframe, vroot, child.trapframe, pid, trampoline, words);
      ForkedRegisters(m0, root, n, trapframe, ram.mem, vroot, n, child.trapframe, pid, trampoline);
    }

    /** Arguments into the trapframe, and the old address space dropped. */
    method DropOld(argc: Word, sp: Word)
      requires ram.Valid() && pagetable.pagetable.ram == ram && pagetable.begin == USER_START && pagetable.size % PAGESIZE == 0
      requires Space(ram.mem, Root(), Pages()) && trapframe in ram.mem && trapframe !in Frames(ram.mem, Root(), Pages())
      modifies ram
      ensures ram.Valid() && trapframe in old(ram.mem)
      ensures var m1 := old(ram.mem)[trapframe := old(ram.mem)[trapframe][A0 := argc][A1 := sp]];
        Confined(m1, old(ram.free), ram.mem, ram.free, old(Frames(ram.mem, Root(), Pages())), {})
    {
      hide Space, View, Wf, Memory.Valid, Confined, Frames, SameOutside, Tables, InRam, Dropped, UserFrames, Footprint;
      ghost var m1: Mem, free1, root0, n0 := ram.mem, ram.free, Root(), Pages();
      ghost var p: Page := m1[trapframe][A0 := argc][A1 := sp];
      RamFrames(ram);
      FramesIn(m1, root0, n0);
      ConfinedWrite(m1, free1, trapframe, p);
      OthersKept(m1, free1, m1[trapframe := p], free1, {trapframe}, {trapframe}, root0, n0, 0);
      ram.WriteWord(trapframe, A0, argc);
      ram.WriteWord(trapframe, A1, sp);
      WroteTwice(m1, trapframe, A0, argc, A1, sp);
      FramesIn(ram.mem, root0, n0);
      var dropped := pagetable.Drop();
      DroppedIs(m1[trapframe := p], free1, ram.mem, ram.free, root0, n0);
      DroppedConfined(m1[trapframe := p], free1, ram.mem, ram.free, root0, n0);
    }

    /** The end of `kexec`: arguments into the trapframe, the new address space in place of the old one. */
    method Switch(u: Uvm, argc: Word, sp: Word, ghost img: seq<Byte>, ghost m0: Mem, ghost free0: set<nat>)
      requires ram.Valid() && u.Valid() && u.pagetable.ram == ram && pagetable != u && pagetable.pagetable.ram == ram
      requires pagetable.begin == USER_START && pagetable.size % PAGESIZE == 0
      requires Space(m0, Root(), Pages()) && trapframe in m0 && trapframe !in Frames(m0, Root(), Pages())
      requires trampoline + 1 < PAGES && trapframe + 1 < PAGES
      requires Made(m0, free0, ram.mem, ram.free, u.pagetable.root, u.size / PAGESIZE)
      requires ProgramIn(ram.mem, u.pagetable.root, u.size / PAGESIZE, img, trampoline, trapframe)
      modifies this, ram
      ensures Valid() && Ready() && pagetable == u && trapframe == old(trapframe) && trapframe in old(ram.mem)
      ensures Confined(m0, free0, ram.mem, ram.free, Owned(m0, old(Root()), old(Pages()), trapframe), Own())
      ensures ram.mem[trapframe] == StartFrame(m0[trapframe], argc, sp)
      ensures ProgramIn(ram.mem, Root(), Pages(), img, trampoline, trapframe)
      ensures Kept(old(ram.mem), ram.mem, Frames(old(ram.mem), Root(), Pages()))
      ensures var f := StackFrame(old(ram.mem), Root(), pagetable.End());
        StackFrame(ram.mem, Root(), pagetable.End()) == f && f in Frames(old(ram.mem), Root(), Pages())
    {
      hide Space, View, Wf, Memory.Valid, Confined, Made, ProgramIn, KernelPages, StackTop, StackFrame, Frames,
           SameOutside, Tables, InRam, Kept, Dropped, UserFrames, Footprint;
      ghost var m1: Mem, free1, root0, n0, root, n := ram.mem, ram.free, Root(), Pages(), u.pagetable.root, u.size / PAGESIZE;
      MadeConfined(m0, free0, m1, free1, root, n);
      ProcessKept(m0, free0, m1, free1, {}, Frames(m1, root, n), root0, n0, trapframe);
      ghost var p: Page := m1[trapframe][A0 := argc][A1 := sp];
      FramesIn(m0, root0, n0);
      DropOld(argc, sp);
      ghost var m2: Mem, free2 := ram.mem, ram.free;
      ghost var q: Page := p[SP := sp][EPC := USER_START];
      Install(m0, free0, m1, free1, m2, free2, trapframe, p, q, Frames(m0, root0, n0), Frames(m1, root, n));
      pagetable := u;
      ram.WriteWord(trapframe, SP, sp);
      ram.WriteWord(trapframe, EPC, USER_START);
      WroteTwice(m2, trapframe, SP, sp, EPC, USER_START);
      ProgramKept(m1, ram.mem, root, n, u.End(), img, trampoline, trapframe);
      RamFrames(ram);
      ProgramTop(ram.mem, root, n, img, trampoline, trapframe);
    }

    /** `kexec` with nobody in between, as at boot: all or nothing.  `Panic` is a failed allocation for a table or the stack, or an
        underflow while pushing arguments. */
    method Kexec(img: seq<Byte>, beyond: seq<Byte>, args: seq<seq<Byte>>) returns (r: Outcome)
      requires Valid() && |img| <= USIZE_MAX && |beyond| >= PAGESIZE
      modifies this, ram
      ensures r != Panic ==> Valid()
      ensures r == Err ==>
        && pagetable == old(pagetable) && trapframe == old(trapframe)
        && SameOutside(old(ram.mem), ram.mem, {}) && Confined(old(ram.mem), old(ram.free), ram.mem, ram.free, {}, {})
      ensures r == Ok ==>
        && fresh(pagetable) && trapframe == old(trapframe) && Ready() && ArgsFit(args)
        && Confined(old(ram.mem), old(ram.free), ram.mem, ram.free, old(Own()), Own())
      ensures r == Ok ==> ProgramIn(ram.mem, Root(), Pages(), img, trampoline, trapframe)
      ensures r == Ok ==> StackFrame(ram.mem, Root(), pagetable.End()) in ram.mem
      ensures r == Ok ==> exists sp: Word ::
        && StackHolds(ram.mem[StackFrame(ram.mem, Root(), pagetable.End())], args, pagetable.End(), sp)
        && ram.mem[trapframe] == StartFrame(old(ram.mem)[trapframe], |args|, sp)
        && ArgsOn(ram.mem, Root(), Pages(), args, sp)
        && ProgramSeen(ram.mem, Map(), Pages(), img, sp, args, trampoline, trapframe)
        && StartsWith(ram.mem[trapframe], old(ram.mem)[trapframe], |args|, sp)
    {
      hide Space, View, Wf, Memory.Valid, Confined, Made, ProgramIn, KernelPages, StackTop, StackFrame, StackHolds,
           Frames, ArgsFit, SameOutside, Rewritten, Tables, InRam, ArgsOn, ProgramSeen, StartsWith, StartFrame;
      ghost var m0: Mem, free0, root0, n0 := ram.mem, ram.free, Root(), Pages();
      RamFrames(ram);
      var created := Uvm.New(ram);
      if created.None? {
        return Panic;
      }
      var u := created.value;
      ghost var root := u.pagetable.root;
      SpaceParts(ram.mem, root, 0);
      MadeStart(m0, free0, ram.mem, ram.free, root);
      var sp: nat;
      r, sp := BuildProgram(u, trampoline, trapframe, img, beyond, args, m0, free0);
      if r == Panic {
        return;
      }
      if r == Err {
        Abandon(u, m0, free0);
        ProcessKept(m0, free0, ram.mem, ram.free, {}, {}, root0, n0, trapframe);
        return;
      }
      StackHoldsBounds(ram.mem[StackFrame(ram.mem, root, u.End())], args, u.End(), sp);
      Switch(u, |args|, sp, img, m0, free0);
      RamFrames(ram);
      ProgramStarts(ram.mem, pagetable, img, trampoline, trapframe, args, sp);
      StartRegisters(m0[trapframe], |args|, sp);
    }
  }
}
