/** Building a program's address space, as `kexec` does: image, guard page, stack, arguments. */
module Exec {
  import opened Arithmetic
  import opened Options
  import opened Ram
  import opened TableView
  import opened PageTables
  import opened Spaces
  import opened AddressSpaces
  import opened ArgStack
  import opened UserCopy
  import opened Ownership

  const RWX: nat := PTE_R + PTE_W + PTE_X
  const RW: nat := PTE_W + PTE_R

  /** The two kernel pages of a process: the trampoline, and its own trapframe. */
  ghost predicate KernelPages(view: map<nat, Leaf>, trampoline: nat, trapframe: nat) {
    && TRAMPOLINE_VPN in view && view[TRAMPOLINE_VPN] == Leaf(trampoline, PTE_R + PTE_X)
    && TRAPFRAME_VPN in view && view[TRAPFRAME_VPN] == Leaf(trapframe, PTE_R + PTE_W)
  }

  /** The user part of a program: `c` pages of image, a guard page, a page of stack. */
  ghost predicate ProgramPages(view: map<nat, Leaf>, c: nat) {
    && (forall v: nat | InUser(v, c + 2) :: v in view <==> v != USER_VPN + c)
    && (forall v: nat | InUser(v, c) && v in view :: view[v].perm == WithU(RWX))
    && (USER_VPN + c + 1 in view ==> view[USER_VPN + c + 1].perm == WithU(RW))
  }

  /** Only the page below the last one is missing. */
  ghost predicate GuardedPages(view: map<nat, Leaf>, n: nat) {
    n >= 2 && forall v: nat | InUser(v, n) :: v in view <==> v != USER_VPN + n - 2
  }

  /** Every page of such an address space has a level-0 table, so `clone` always finds an entry
      to read, even for the guard page. */
  lemma GuardedHasTables(m: Mem, root: nat, n: nat, v: nat)
    requires Space(m, root, n) && InRam(m) && Wf(m, root) && GuardedPages(View(m, root), n) && InUser(v, n)
    ensures HasTable(m, root, v)
  {
    hide View, Wf, Space;
    SpaceBound(m, root, n);
    RootSlot(m, root, v);
    var guard := USER_VPN + n - 2;
    if v == guard {
      var near := if v % 1024 == 1023 then v - 1 else v + 1;
      assert near / 1024 == v / 1024;
      RootSlot(m, root, near);
    }
  }

  /** The image's pages and the kernel's, before guard and stack are added. */
  ghost predicate ImagePages(view: map<nat, Leaf>, c: nat, trampoline: nat, trapframe: nat) {
    && UserMapped(view, c, USER_VPN, c) && KernelPages(view, trampoline, trapframe)
    && (forall v: nat | InUser(v, c) && v in view :: view[v].perm == WithU(RWX))
  }

  lemma ImageMapped(view0: map<nat, Leaf>, view: map<nat, Leaf>, c: nat, trampoline: nat, trapframe: nat)
    requires view0 == map[][TRAMPOLINE_VPN := Leaf(trampoline, PTE_R + PTE_X)][TRAPFRAME_VPN := Leaf(trapframe, PTE_R + PTE_W)]
    requires GrownView(view0, view, 0, c, RWX)
    requires USER_VPN + c < TRAPFRAME_VPN
    ensures ImagePages(view, c, trampoline, trapframe) && UserCount(view, c) == c
  {
    hide Pages, WithU, UserCount;
    forall v: nat | InUser(v, c)
      ensures v in view && v !in view0
    {
      PagesHas(USER_VPN + 0, c - 0, v);
    }
    AllCounted(view, c);
  }

  lemma AllCounted(view: map<nat, Leaf>, c: nat)
    requires forall v: nat | InUser(v, c) :: v in view
    ensures UserCount(view, c) == c
  {
    assert UserPages(view, c) == Interval(USER_VPN, USER_VPN + c);
  }

  /** The same with the guard page: the page behind the image is not mapped. */
  ghost predicate GuardPages(view: map<nat, Leaf>, c: nat, trampoline: nat, trapframe: nat) {
    ImagePages(view, c, trampoline, trapframe) && USER_VPN + c !in view
  }

  lemma GuardMapped(view0: map<nat, Leaf>, view: map<nat, Leaf>, c: nat, trampoline: nat, trapframe: nat)
    requires ImagePages(view0, c, trampoline, trapframe) && USER_VPN + c !in view0 && GrownView(view0, view, c, c + 1, 0)
    ensures GuardPages(view, c, trampoline, trapframe)
  {
    hide Pages, WithU;
    assert view.Keys == view0.Keys;
  }

  lemma StackMapped(view0: map<nat, Leaf>, view: map<nat, Leaf>, c: nat, trampoline: nat, trapframe: nat)
    requires GuardPages(view0, c, trampoline, trapframe)
    requires USER_VPN + c + 1 !in view0 && GrownView(view0, view, c + 1, c + 2, RW)
    ensures ProgramPages(view, c) && KernelPages(view, trampoline, trapframe)
  {
    hide Pages, WithU;
    PagesOne(USER_VPN + c + 1);
    assert view.Keys == view0.Keys + {USER_VPN + c + 1};
  }

  /** Growing an address space does not change what its pages hold. */
  lemma HoldsGrown(m0: Mem, free0: set<nat>, m1: Mem, free1: set<nat>, root: nat, n0: nat, n1: nat, perm: nat,
                   va: nat, bytes: seq<Byte>)
    requires Grown(m0, free0, m1, free1, root, n0, n1, perm) && Wf(m0, root) && Wf(m1, root)
    requires Holds(m0, View(m0, root), va, bytes) && va + |bytes| <= USER_START + n0 * PAGESIZE && USER_START <= va
    ensures Holds(m1, View(m1, root), va, bytes)
  {
    hide View, Wf, Space, UserFrames, TableFrames, GetByte, Footprint, WithU, Pages;
    forall k: nat | k < |bytes|
      ensures ByteAt(m1, View(m1, root), va + k) == Some(bytes[k])
    {
      assert ByteAt(m0, View(m0, root), va + k) == Some(bytes[k]);
      InUserPage(va + k, n0);
      UserPageFrame(m0, root, n0, (va + k) / PAGESIZE);
    }
  }

  lemma InUserPage(va: nat, n: nat)
    requires USER_START <= va < USER_START + n * PAGESIZE
    ensures InUser(va / PAGESIZE, n)
  {
  }

  /** Rewriting the page of the stack does not change the pages of the image. */
  lemma HoldsElsewhere(m: Mem, root: nat, n: nat, v: nat, p: Page, va: nat, bytes: seq<Byte>)
    requires Space(m, root, n) && Wf(m, root) && InUser(v, n) && v in View(m, root)
    requires Holds(m, View(m, root), va, bytes) && USER_START <= va && va + |bytes| <= v * PAGESIZE
    ensures Holds(m[View(m, root)[v].frame := p], View(m, root), va, bytes)
  {
    hide View, Wf, Space, GetByte;
    var view := View(m, root);
    var m1 := m[view[v].frame := p];
    forall k: nat | k < |bytes|
      ensures ByteAt(m1, view, va + k) == Some(bytes[k])
    {
      assert ByteAt(m, view, va + k) == Some(bytes[k]);
      assert USER_VPN <= (va + k) / PAGESIZE < v;
      UserPagesDiffer(m, root, n, (va + k) / PAGESIZE, v);
    }
  }

  /** Panics of `sp -= ...`: something to be pushed is longer than the whole address below it. */
  predicate Underflow(args: seq<seq<Byte>>, base: nat) {
    || (exists k: nat | k < |args| :: |args[k]| > base)
    || 4 * (|args| + 1) > base
  }

  lemma PageBelow(top: nat, down: nat)
    requires 0 < down <= PAGESIZE && top % PAGESIZE == 0 && PAGESIZE <= top
    ensures (top - down) / PAGESIZE == top / PAGESIZE - 1 && (top - down) % PAGESIZE == PAGESIZE - down
  {
    var v := top / PAGESIZE;
    PageParts(top - down, v - 1, PAGESIZE - down);
  }

  /** The frame behind the page that ends at `top`. */
  ghost function StackFrame(m: Mem, root: nat, top: nat): nat {
    var v: nat := top / PAGESIZE;
    if Wf(m, root) && v > 0 && v - 1 in View(m, root) then View(m, root)[v - 1].frame else 0
  }

  /** `top` is the end of the stack page, the last page of the user part. */
  ghost predicate StackTop(m: Mem, root: nat, n: nat, top: nat) {
    && Space(m, root, n) && Wf(m, root) && n >= 1
    && top == (USER_VPN + n) * PAGESIZE && top + PAGESIZE <= USIZE_MAX
    && USER_VPN + n - 1 in View(m, root) && USER_VPN + n !in View(m, root)
    && StackFrame(m, root, top) in m
  }

  /** The page with argument `k` written to its place. */
  ghost function ArgWritten(p: Page, args: seq<seq<Byte>>, k: nat): Page
    requires k < |args|
  {
    if Padded(args, k + 1) <= PAGESIZE then PutBytes(p, PAGESIZE - Padded(args, k + 1), args[k]) else p
  }

  /** Memory with another page of stack. */
  ghost function WithStack(m: Mem, root: nat, top: nat, p: Page): Mem {
    m[StackFrame(m, root, top) := p]
  }

  /** What a page written to the stack leaves alone. */
  lemma StackRewritten(m: Mem, root: nat, n: nat, top: nat, p: Page)
    requires StackTop(m, root, n, top)
    ensures var m1 := WithStack(m, root, top, p);
      && StackTop(m1, root, n, top) && Wf(m1, root) && View(m1, root) == View(m, root)
      && StackFrame(m1, root, top) == StackFrame(m, root, top) && m1[StackFrame(m, root, top)] == p
      && Rewritten(m, m1, View(m, root), n)
  {
    hide Space, View, Wf, UserFrames, Tables;
    assert top / PAGESIZE == USER_VPN + n;
    SpaceParts(m, root, n);
    UserPageFrame(m, root, n, USER_VPN + n - 1);
    StoreFrame(m, root, n, StackFrame(m, root, top), p);
    SpaceParts(WithStack(m, root, top, p), root, n);
  }

  /** Where the next argument goes: on the page of the stack, or nowhere if it is empty. */
  lemma NextPlace(args: seq<seq<Byte>>, top: nat, sp: nat, k: nat)
    requires k < |args| && top % PAGESIZE == 0 && PAGESIZE <= top
    requires sp == top - Padded(args, k) && Padded(args, k) <= PAGESIZE && |args[k]| <= sp
    ensures sp - |args[k]| - (sp - |args[k]|) % 8 == top - Padded(args, k + 1)
    ensures Padded(args, k) <= Padded(args, k + 1)
    ensures |args[k]| <= Padded(args, k + 1)
    ensures 0 < Padded(args, k + 1) <= PAGESIZE ==>
      var next := top - Padded(args, k + 1);
      next / PAGESIZE == top / PAGESIZE - 1 && next % PAGESIZE == PAGESIZE - Padded(args, k + 1)
  {
    hide Padded, Slot;
    PaddedMonotone(args, k, k + 1);
    PaddedMonotone(args, k, k);
    PageMultiple(top, top / PAGESIZE);
    AlignedBelow(top, Padded(args, k));
    PushedDown(sp, args[k]);
    PaddedNext(args, k);
    if 0 < Padded(args, k + 1) <= PAGESIZE {
      PageBelow(top, Padded(args, k + 1));
    }
  }

  /** One argument pushed. */
  method PushArg(u: Uvm, args: seq<seq<Byte>>, top: nat, sp: nat, k: nat) returns (r: Outcome, next: nat)
    requires u.Valid() && StackTop(u.pagetable.ram.mem, u.pagetable.root, u.size / PAGESIZE, top)
    requires k < |args| && sp == top - Padded(args, k) && Padded(args, k) <= PAGESIZE && (k > 0 ==> Padded(args, k) > 0)
    modifies u.pagetable.ram
    ensures u.Valid() && StackTop(u.pagetable.ram.mem, u.pagetable.root, u.size / PAGESIZE, top)
    ensures u.pagetable.ram.free == old(u.pagetable.ram.free)
    ensures r == Panic <==> |args[k]| > sp
    ensures r == Err <==> r != Panic && (Padded(args, k + 1) > PAGESIZE || Padded(args, k + 1) == 0)
    ensures r != Ok ==> u.pagetable.ram.mem == old(u.pagetable.ram.mem)
    ensures r == Ok ==> next == top - Padded(args, k + 1)
    ensures r == Ok ==> var m0, root := old(u.pagetable.ram.mem), u.pagetable.root;
      StackFrame(m0, root, top) in m0
      && u.pagetable.ram.mem == WithStack(m0, root, top, ArgWritten(m0[StackFrame(m0, root, top)], args, k))
  {
    hide Space, View, Wf, Memory.Valid, Padded, Slot, PutBytes, UserFrames, StackTop, StackFrame, Rewritten;
    ghost var m0: Mem, root, n := u.pagetable.ram.mem, u.pagetable.root, u.size / PAGESIZE;
    StackBase(m0, root, n, top);
    next := 0;
    if |args[k]| > sp {
      return Panic, next;
    }
    NextPlace(args, top, sp, k);
    next := sp - |args[k]|;
    next := next - next % 8;
    if next < top - PAGESIZE {
      return Err, next;
    }
    r := CopyOutBytes(u, next, args[k]);
    StackRewritten(m0, root, n, top, ArgWritten(m0[StackFrame(m0, root, top)], args, k));
  }

  lemma PaddedNext(args: seq<seq<Byte>>, k: nat)
    requires k < |args|
    ensures Padded(args, k + 1) == Padded(args, k) + Slot(args[k]) && Slot(args[k]) >= |args[k]|
  {
  }

  lemma StackTwice(m: Mem, root: nat, n: nat, top: nat, p: Page, q: Page)
    requires StackTop(m, root, n, top)
    ensures WithStack(WithStack(m, root, top, p), root, top, q) == WithStack(m, root, top, q)
  {
    hide StackTop, StackFrame;
    StackRewritten(m, root, n, top, p);
  }

  /** When pushing argument `k` fails, the arguments do not fit. */
  lemma DoesNotFit(args: seq<seq<Byte>>, k: nat, top: nat)
    requires k < |args| && top >= PAGESIZE
    requires |args[k]| > top - Padded(args, k) || Padded(args, k + 1) > PAGESIZE || Padded(args, k + 1) == 0
    ensures !ArgsFit(args)
  {
    hide Slot, Padded;
    PaddedMonotone(args, k + 1, |args|);
    PaddedNext(args, k);
    PaddedMonotone(args, 1, k + 1);
    FirstSlot(args);
  }

  lemma FirstSlot(args: seq<seq<Byte>>)
    requires args != []
    ensures Padded(args, 1) > 0 <==> args[0] != []
  {
    assert Padded(args, 1) == Slot(args[0]);
  }

  lemma WroteArg(p: Page, args: seq<seq<Byte>>, k: nat)
    requires k < |args| && ArgsHeld(p, args, k) && Padded(args, k + 1) <= PAGESIZE
    ensures ArgsHeld(ArgWritten(p, args, k), args, k + 1)
  {
    hide PutBytes, Padded, ArgsHeld;
    PaddedNext(args, k);
    ArgsHeldSnoc(p, args, k);
  }

  /** The page with the pointer array written below the arguments. */
  ghost function PointersWritten(p: Page, args: seq<seq<Byte>>, words: seq<Word>): Page
    requires |words| == |args| + 1
  {
    var i := (PAGESIZE - Padded(args, |args|)) / 4 - |words|;
    if 0 <= i then PutWords(p, i, words) else p
  }

  lemma WrotePointers(p: Page, args: seq<seq<Byte>>, words: seq<Word>, top: nat)
    requires ArgsFit(args) && ArgsHeld(p, args, |args|) && Pointers(words, args, top) && top % 8 == 0
    ensures StackHolds(PointersWritten(p, args, words), args, top, top - Padded(args, |args|) - 4 * |words|)
  {
    hide Padded, ArgsHeld, Pointers, ArgsFit, PutWords;
    PointersPlace(args);
    PointersAre(words, args, top);
    var i := (PAGESIZE - Padded(args, |args|)) / 4 - |words|;
    ArgsHeldBelow(p, args, i, words);
    PutWordsThere(p, i, words);
    PaddedMonotone(args, |args|, |args|);
    WordAligned(top, Padded(args, |args|), |words|);
  }

  lemma PutWordsThere(p: Page, i: nat, words: seq<Word>)
    requires i + |words| <= ENTRIES
    ensures PutWords(p, i, words)[i..i + |words|] == words
  {
  }

  lemma WordAligned(top: int, down: int, k: nat)
    requires top % 8 == 0 && down % 8 == 0
    ensures (top - down - 4 * k) % 4 == 0
  {
    var a, b := top / 8, down / 8;
    assert top - down - 4 * k == 4 * (2 * a - 2 * b - k);
  }

  lemma PointersAre(words: seq<Word>, args: seq<seq<Byte>>, top: nat)
    requires Pointers(words, args, top)
    ensures |words| == |args| + 1
  {
  }

  lemma PointersPlace(args: seq<seq<Byte>>)
    requires ArgsFit(args)
    ensures var i := (PAGESIZE - Padded(args, |args|)) / 4 - (|args| + 1);
      0 <= i && 4 * (i + |args| + 1) == PAGESIZE - Padded(args, |args|)
      && Padded(args, |args|) <= PAGESIZE && i + |args| + 1 <= ENTRIES
  {
    PaddedMonotone(args, |args|, |args|);
    hide Padded;
    var q := Padded(args, |args|) / 8;
    assert Padded(args, |args|) == 8 * q;
  }

  /** The stack of a program: all arguments, and the array of pointers to them.  It succeeds
      exactly when they fit. */
  method PushArgs(u: Uvm, args: seq<seq<Byte>>, top: nat) returns (r: Outcome, sp: nat)
    requires u.Valid() && StackTop(u.pagetable.ram.mem, u.pagetable.root, u.size / PAGESIZE, top)
    modifies u.pagetable.ram
    ensures u.Valid() && StackTop(u.pagetable.ram.mem, u.pagetable.root, u.size / PAGESIZE, top)
    ensures u.pagetable.ram.free == old(u.pagetable.ram.free)
    ensures r == Ok <==> ArgsFit(args)
    ensures r == Panic ==> Underflow(args, top - PAGESIZE)
    ensures exists p: Page :: u.pagetable.ram.mem == WithStack(old(u.pagetable.ram.mem), u.pagetable.root, top, p)
    ensures r == Ok ==> StackFrame(u.pagetable.ram.mem, u.pagetable.root, top) in u.pagetable.ram.mem
    ensures r == Ok ==>
      StackHolds(u.pagetable.ram.mem[StackFrame(u.pagetable.ram.mem, u.pagetable.root, top)], args, top, sp)
  {
    hide Space, View, Wf, Memory.Valid, Padded, Slot, PutBytes, PutWords, UserFrames, ArgsHeld, ArgWritten,
         StackFrame, StackTop, Rewritten, StackHolds;
    ghost var m0: Mem, root, n := u.pagetable.ram.mem, u.pagetable.root, u.size / PAGESIZE;
    StackBase(m0, root, n, top);
    ghost var p: Page := m0[StackFrame(m0, root, top)];
    ArgsHeldNone(p, args);
    PaddedZero(args);
    sp := top;
    var ustack: seq<Word> := [];
    for k := 0 to |args|
      invariant u.Valid() && StackTop(u.pagetable.ram.mem, root, n, top) && u.pagetable.ram.free == old(u.pagetable.ram.free)
      invariant sp == top - Padded(args, k) && Padded(args, k) <= PAGESIZE && (k > 0 ==> Padded(args, k) > 0 && args[0] != [])
      invariant |ustack| == k && forall j: nat | j < k :: ustack[j] as int == ArgAddr(args, top, j)
      invariant u.pagetable.ram.mem == WithStack(m0, root, top, p) && ArgsHeld(p, args, k)
    {
      StackRewritten(m0, root, n, top, p);
      r, sp := PushArg(u, args, top, sp, k);
      if r != Ok {
        DoesNotFit(args, k, top);
        return;
      }
      WroteArg(p, args, k);
      StackTwice(m0, root, n, top, p, ArgWritten(p, args, k));
      p := ArgWritten(p, args, k);
      FirstSlot(args);
      ustack := ustack + [sp];
    }
    PaddedMonotone(args, |args|, |args|);
    StackRewritten(m0, root, n, top, p);
    ustack := ustack + [0];
    if 4 * |ustack| > sp {
      return Panic, sp;
    }
    sp := sp - 4 * |ustack|;
    if sp < top - PAGESIZE {
      return Err, sp;
    }
    PageBelow(top, Padded(args, |args|) + 4 * |ustack|);
    PointersPlace(args);
    WordAligned(top, Padded(args, |args|), |ustack|);
    StackBase(u.pagetable.ram.mem, root, n, top);
    r := CopyOutWords(u, sp, ustack);
    WrotePointers(p, args, ustack, top);
    assert sp % PAGESIZE / 4 == (PAGESIZE - Padded(args, |args|)) / 4 - |ustack|;
    StackTwice(m0, root, n, top, p, PointersWritten(p, args, ustack));
    StackRewritten(m0, root, n, top, PointersWritten(p, args, ustack));
  }

  lemma PaddedZero(args: seq<seq<Byte>>)
    ensures Padded(args, 0) == 0
  {
  }

  lemma StackBase(m: Mem, root: nat, n: nat, top: nat)
    requires StackTop(m, root, n, top)
    ensures StackFrame(m, root, top) in m
    ensures top % PAGESIZE == 0 && top % 8 == 0 && top >= 2 * PAGESIZE && top + PAGESIZE <= USIZE_MAX
    ensures Wf(m, root) && top / PAGESIZE == USER_VPN + n && n >= 1
    ensures USER_VPN + n - 1 in View(m, root) && USER_VPN + n !in View(m, root)
    ensures View(m, root)[USER_VPN + n - 1].frame == StackFrame(m, root, top)
    ensures WithStack(m, root, top, m[StackFrame(m, root, top)]) == m
  {
    hide Space, View, Wf;
    PageMultiple(top, USER_VPN + n);
  }

  lemma PageMultiple(top: nat, v: nat)
    requires top == v * PAGESIZE
    ensures top % PAGESIZE == 0 && top % 8 == 0 && top / PAGESIZE == v
  {
    PageParts(top, v, 0);
    EightParts(top, 512 * v);
  }

  /** The address space holds program `img`: pages and contents. */
  ghost predicate ProgramIn(m: Mem, root: nat, n: nat, img: seq<Byte>, trampoline: nat, trapframe: nat) {
    && Space(m, root, n) && Wf(m, root) && n == PageCount(img) + 2
    && ProgramPages(View(m, root), PageCount(img))
    && KernelPages(View(m, root), trampoline, trapframe)
    && Holds(m, View(m, root), USER_START, img)
  }

  lemma ProgramIsGuarded(m: Mem, root: nat, n: nat, img: seq<Byte>, trampoline: nat, trapframe: nat)
    requires ProgramIn(m, root, n, img, trampoline, trapframe)
    ensures Wf(m, root) && GuardedPages(View(m, root), n) && KernelPages(View(m, root), trampoline, trapframe)
  {
    hide View, Wf, Space, KernelPages, Holds;
  }

  function PageCount(img: seq<Byte>): nat {
    (|img| + PAGESIZE - 1) / PAGESIZE
  }

  /** A program half built: what `k` of the steps below have made. */
  ghost predicate Part(m: Mem, root: nat, n: nat, img: seq<Byte>, trampoline: nat, trapframe: nat, k: nat) {
    && Space(m, root, n) && Wf(m, root)
    && var view, c := View(m, root), PageCount(img);
    && (k == 1 ==> n == 0 && view == map[])
    && (k == 2 ==> n == 0 && view == KernelView(trampoline, trapframe))
    && (k == 3 || k == 4 ==> n == c && ImagePages(view, c, trampoline, trapframe))
    && (k == 5 ==> n == c + 1 && GuardPages(view, c, trampoline, trapframe))
    && (k >= 6 ==> n == c + 2 && ProgramPages(view, c) && KernelPages(view, trampoline, trapframe))
    && (k >= 4 ==> Holds(m, view, USER_START, img))
  }

  ghost function KernelView(trampoline: nat, trapframe: nat): map<nat, Leaf> {
    map[][TRAMPOLINE_VPN := Leaf(trampoline, PTE_R + PTE_X)][TRAPFRAME_VPN := Leaf(trapframe, PTE_R + PTE_W)]
  }

  lemma PartIsProgram(m: Mem, root: nat, n: nat, img: seq<Byte>, trampoline: nat, trapframe: nat)
    ensures Part(m, root, n, img, trampoline, trapframe, 6) <==> ProgramIn(m, root, n, img, trampoline, trapframe)
  {
    hide Space, Wf, View, Holds, ProgramPages, KernelPages;
  }

  /** It is a fact about its own frames. */
  lemma PartKept(m: Mem, m1: Mem, root: nat, n: nat, img: seq<Byte>, trampoline: nat, trapframe: nat, k: nat)
    requires Part(m, root, n, img, trampoline, trapframe, k) && Kept(m, m1, Frames(m, root, n)) && 1 <= k
    ensures Part(m1, root, n, img, trampoline, trapframe, k)
    ensures Wf(m, root) && Wf(m1, root) && View(m1, root) == View(m, root)
    ensures Space(m, root, n) && Frames(m1, root, n) == Frames(m, root, n)
  {
    hide View, Wf, Space, Frames, Footprint, Holds, ImagePages, GuardPages, ProgramPages, KernelPages;
    FramesIn(m, root, n);
    FrameSpace(m, m1, root, n);
    FramesIn(m1, root, n);
    if k >= 4 {
      HoldsKept(m, m1, root, n, img);
    }
  }

  lemma HoldsKept(m: Mem, m1: Mem, root: nat, n: nat, img: seq<Byte>)
    requires Space(m, root, n) && Wf(m, root) && Wf(m1, root) && View(m1, root) == View(m, root)
    requires Kept(m, m1, Frames(m, root, n)) && PageCount(img) <= n && Holds(m, View(m, root), USER_START, img)
    ensures Holds(m1, View(m1, root), USER_START, img)
  {
    hide View, Wf, Space, Frames, GetByte;
    var view, va := View(m, root), USER_START;
    forall k: nat | k < |img|
      ensures ByteAt(m1, view, va + k) == Some(img[k])
    {
      assert ByteAt(m, view, va + k) == Some(img[k]);
      InUserPage(va + k, n);
      UserFrameOwned(m, root, n, (va + k) / PAGESIZE);
    }
  }

  /** The page of stack is one of its frames. */
  lemma StackOwned(m: Mem, root: nat, n: nat, img: seq<Byte>, trampoline: nat, trapframe: nat, top: nat)
    requires ProgramIn(m, root, n, img, trampoline, trapframe) && top == (USER_VPN + n) * PAGESIZE
    ensures StackFrame(m, root, top) in Frames(m, root, n)
  {
    hide View, Wf, Space, Frames, KernelPages, Holds;
    assert top / PAGESIZE == USER_VPN + n;
    assert InUser(USER_VPN + n - 1, n);
    UserFrameOwned(m, root, n, USER_VPN + n - 1);
  }

  /** The arguments are on the stack of the address space. */
  ghost predicate ArgsOn(m: Mem, root: nat, n: nat, args: seq<seq<Byte>>, sp: int) {
    && ArgsFit(args) && var top := (USER_VPN + n) * PAGESIZE;
    StackFrame(m, root, top) in m && StackHolds(m[StackFrame(m, root, top)], args, top, sp)
  }

  lemma ArgsKept(m: Mem, m1: Mem, root: nat, n: nat, img: seq<Byte>, trampoline: nat, trapframe: nat,
                 args: seq<seq<Byte>>, sp: int)
    requires Part(m, root, n, img, trampoline, trapframe, 6) && ArgsOn(m, root, n, args, sp)
    requires Kept(m, m1, Frames(m, root, n))
    ensures ArgsOn(m1, root, n, args, sp)
  {
    hide View, Wf, Space, Frames, Part, ArgsFit, StackHolds;
    PartKept(m, m1, root, n, img, trampoline, trapframe, 6);
    PartIsProgram(m, root, n, img, trampoline, trapframe);
    StackOwned(m, root, n, img, trampoline, trapframe, (USER_VPN + n) * PAGESIZE);
  }

  // ----- what the program finds -----

  ghost function WordAt(m: Mem, view: map<nat, Leaf>, va: nat): Option<Word> {
    if va % 4 == 0 && va / PAGESIZE in view && view[va / PAGESIZE].frame in m
    then Some(m[view[va / PAGESIZE].frame][va % PAGESIZE / 4])
    else None
  }

  /** In the address space there is an array at `argv` of pointers to the arguments, ended by a zero. */
  ghost predicate ArgvAt(m: Mem, view: map<nat, Leaf>, argv: int, args: seq<seq<Byte>>) {
    && 0 <= argv && WordAt(m, view, argv + 4 * |args|) == Some(0)
    && forall j: nat :: j < |args| ==> ArgAt(m, view, argv + 4 * j, args[j])
  }

  /** At `va` there is a pointer to these bytes. */
  ghost predicate ArgAt(m: Mem, view: map<nat, Leaf>, va: nat, arg: seq<Byte>) {
    exists addr: Word :: WordAt(m, view, va) == Some(addr) && Holds(m, view, addr, arg)
  }

  /** A program finds its arguments where its registers say. */
  lemma ArgvIs(m: Mem, root: nat, n: nat, img: seq<Byte>, trampoline: nat, trapframe: nat, args: seq<seq<Byte>>, sp: int)
    requires ProgramIn(m, root, n, img, trampoline, trapframe) && InRam(m) && ArgsOn(m, root, n, args, sp)
    ensures Wf(m, root) && ArgvAt(m, View(m, root), sp, args)
  {
    hide View, Wf, Space, KernelPages, Holds, GetByte, Padded, ArgsFit, ProgramIn, WordAt;
    var top := (USER_VPN + n) * PAGESIZE;
    ProgramTop(m, root, n, img, trampoline, trapframe);
    StackBase(m, root, n, top);
    PointersPlace(args);
    PointerIs(m, root, n, top, args, sp, |args|);
    forall j: nat | j < |args|
      ensures ArgAt(m, View(m, root), sp + 4 * j, args[j])
    {
      PointerIs(m, root, n, top, args, sp, j);
      BytesAre(m, root, n, top, args, sp, j);
      var addr: Word := WordAt(m, View(m, root), sp + 4 * j).value;
      assert Holds(m, View(m, root), addr, args[j]);
    }
  }

  /** A program as it finds itself: its image, of as many pages as that needs, which it may read, write
      and execute; nothing mapped between that and its one page of stack, which it may not execute;
      its arguments; and above, out of its reach, the trampoline and the trapframe page. */
  ghost predicate ProgramSeen(m: Mem, view: map<nat, Leaf>, n: nat, img: seq<Byte>, argv: int, args: seq<seq<Byte>>,
                              trampoline: nat, trapframe: nat) {
    && n >= 2 && (n - 2) * PAGESIZE >= |img| && (n > 2 ==> (n - 3) * PAGESIZE < |img|)
    && Holds(m, view, USER_START, img) && ArgvAt(m, view, argv, args)
    && (forall v: nat :: USER_VPN <= v < USER_VPN + n - 2 ==> v in view && Rights(view[v].perm, true, true, true, true))
    && USER_VPN + n - 2 !in view
    && USER_VPN + n - 1 in view && Rights(view[USER_VPN + n - 1].perm, true, true, false, true)
    && TRAMPOLINE_VPN in view && view[TRAMPOLINE_VPN].frame == trampoline && Rights(view[TRAMPOLINE_VPN].perm, true, false, true, false)
    && TRAPFRAME_VPN in view && view[TRAPFRAME_VPN].frame == trapframe && Rights(view[TRAPFRAME_VPN].perm, true, true, false, false)
  }

  predicate Rights(perm: nat, r: bool, w: bool, x: bool, u: bool) {
    PermR(perm) == r && PermW(perm) == w && PermX(perm) == x && PermU(perm) == u
  }

  lemma BuildRights()
    ensures Rights(WithU(RWX), true, true, true, true) && Rights(WithU(RW), true, true, false, true)
    ensures Rights(PTE_R + PTE_X, true, false, true, false) && Rights(PTE_R + PTE_W, true, true, false, false)
  {
  }

  lemma ProgramSees(m: Mem, root: nat, n: nat, img: seq<Byte>, trampoline: nat, trapframe: nat, args: seq<seq<Byte>>, sp: int)
    requires ProgramIn(m, root, n, img, trampoline, trapframe) && InRam(m) && ArgsOn(m, root, n, args, sp)
    ensures Wf(m, root) && ProgramSeen(m, View(m, root), n, img, sp, args, trampoline, trapframe)
  {
    hide View, Wf, Space, Holds, ArgvAt, Rights, WithU, ArgsOn;
    ArgvIs(m, root, n, img, trampoline, trapframe, args, sp);
    BuildRights();
    assert InUser(USER_VPN + n - 1, n) && InUser(USER_VPN + n - 2, n);
    forall v: nat | USER_VPN <= v < USER_VPN + n - 2
      ensures v in View(m, root) && View(m, root)[v].perm == WithU(RWX)
    {
      assert InUser(v, n) && InUser(v, n - 2);
    }
  }

  lemma PointerIs(m: Mem, root: nat, n: nat, top: nat, args: seq<seq<Byte>>, sp: int, j: nat)
    requires StackTop(m, root, n, top) && ArgsOn(m, root, n, args, sp) && j <= |args| && top == (USER_VPN + n) * PAGESIZE
    ensures 0 <= sp && Wf(m, root)
    ensures WordAt(m, View(m, root), sp + 4 * j) == Some(if j == |args| then 0 else ArgAddr(args, top, j))
  {
    hide View, Wf, Space, Padded, ArgsHeld, ArgsFit;
    StackBase(m, root, n, top);
    PointersPlace(args);
    var p, i := m[StackFrame(m, root, top)], (PAGESIZE - Padded(args, |args|)) / 4 - (|args| + 1);
    assert p[i..i + |args| + 1][j] == p[i + j];
    PageBelow(top, top - sp - 4 * j);
    FourAligned(sp, j);
    assert (sp + 4 * j) % PAGESIZE == 4 * (i + j);
  }

  lemma FourAligned(sp: int, j: nat)
    requires sp % 4 == 0
    ensures (sp + 4 * j) % 4 == 0
  {
  }

  lemma BytesAre(m: Mem, root: nat, n: nat, top: nat, args: seq<seq<Byte>>, sp: int, j: nat)
    requires StackTop(m, root, n, top) && ArgsOn(m, root, n, args, sp) && j < |args| && top == (USER_VPN + n) * PAGESIZE
    ensures Wf(m, root) && ArgAddr(args, top, j) >= 0 && Holds(m, View(m, root), ArgAddr(args, top, j), args[j])
  {
    hide View, Wf, Space, Padded, Slot, ArgsFit, Pointers, GetByte;
    StackBase(m, root, n, top);
    PointersPlace(args);
    PaddedMonotone(args, j + 1, |args|);
    SlotOfArg(args, j);
    var p, at := m[StackFrame(m, root, top)], ArgAddr(args, top, j);
    assert ArgHeld(p, args, j);
    forall b: nat | b < |args[j]|
      ensures ByteAt(m, View(m, root), at + b) == Some(args[j][b])
    {
      assert ArgByte(p, args, j, b);
      PageBelow(top, Padded(args, j + 1) - b);
    }
  }

  /** `init_proc` */
  method KernelPart(u: Uvm, trampoline: nat, trapframe: nat, ghost img: seq<Byte>, ghost m0: Mem, ghost free0: set<nat>)
    returns (r: Outcome)
    requires u.Valid() && trampoline + 1 < PAGES && trapframe + 1 < PAGES
    requires Part(u.pagetable.ram.mem, u.pagetable.root, u.size / PAGESIZE, img, trampoline, trapframe, 1)
    requires Made(m0, free0, u.pagetable.ram.mem, u.pagetable.ram.free, u.pagetable.root, u.size / PAGESIZE)
    modifies u.pagetable.ram
    ensures u.Valid()
    ensures Made(m0, free0, u.pagetable.ram.mem, u.pagetable.ram.free, u.pagetable.root, u.size / PAGESIZE)
    ensures r == Ok ==> Part(u.pagetable.ram.mem, u.pagetable.root, u.size / PAGESIZE, img, trampoline, trapframe, 2)
  {
    hide Space, View, Wf, Memory.Valid, Made, Took;
    ghost var ram, root, n := u.pagetable.ram, u.pagetable.root, u.size / PAGESIZE;
    ghost var m1: Mem, free1 := ram.mem, ram.free;
    SpaceParts(m1, root, n);
    r := u.InitProc(trampoline, trapframe);
    SpaceParts(ram.mem, root, n);
    MadeTook(m0, free0, m1, free1, ram.mem, ram.free, root, n, n);
  }

  /** `alloc` */
  method ImagePart(u: Uvm, img: seq<Byte>, ghost trampoline: nat, ghost trapframe: nat, ghost m0: Mem, ghost free0: set<nat>)
    returns (r: Outcome)
    requires u.Valid() && |img| <= USIZE_MAX
    requires Part(u.pagetable.ram.mem, u.pagetable.root, u.size / PAGESIZE, img, trampoline, trapframe, 2)
    requires Made(m0, free0, u.pagetable.ram.mem, u.pagetable.ram.free, u.pagetable.root, u.size / PAGESIZE)
    modifies u`size, u.pagetable.ram
    ensures u.Valid()
    ensures Made(m0, free0, u.pagetable.ram.mem, u.pagetable.ram.free, u.pagetable.root, u.size / PAGESIZE)
    ensures r == Ok ==> Part(u.pagetable.ram.mem, u.pagetable.root, u.size / PAGESIZE, img, trampoline, trapframe, 3)
  {
    hide Space, View, Wf, Memory.Valid, Made, Grown, MappedCount, InRam, ImagePages;
    BuildPerms();
    ghost var ram, root := u.pagetable.ram, u.pagetable.root;
    ghost var m1: Mem, free1 := ram.mem, ram.free;
    SizeZero(u);
    SpaceParts(m1, root, 0);
    r := u.Alloc(|img|, PTE_R + PTE_W + PTE_X);
    RamFrames(ram);
    GrownMade(m0, free0, m1, free1, ram.mem, ram.free, root, 0, u.size / PAGESIZE, RWX);
    if r == Ok {
      ImageReady(m1, free1, ram.mem, ram.free, root, PageCount(img), trampoline, trapframe);
    }
  }

  lemma SizeZero(u: Uvm)
    requires u.Valid() && u.size / PAGESIZE == 0
    ensures u.size == 0
  {
    hide Space, Memory.Valid;
  }

  /** `load` */
  method LoadPart(u: Uvm, img: seq<Byte>, beyond: seq<Byte>, ghost trampoline: nat, ghost trapframe: nat,
                  ghost m0: Mem, ghost free0: set<nat>) returns (r: Outcome)
    requires u.Valid() && |beyond| >= PAGESIZE
    requires Part(u.pagetable.ram.mem, u.pagetable.root, u.size / PAGESIZE, img, trampoline, trapframe, 3)
    requires Made(m0, free0, u.pagetable.ram.mem, u.pagetable.ram.free, u.pagetable.root, u.size / PAGESIZE)
    modifies u.pagetable.ram
    ensures u.Valid() && r == Ok
    ensures Made(m0, free0, u.pagetable.ram.mem, u.pagetable.ram.free, u.pagetable.root, u.size / PAGESIZE)
    ensures Part(u.pagetable.ram.mem, u.pagetable.root, u.size / PAGESIZE, img, trampoline, trapframe, 4)
  {
    hide Space, View, Wf, Memory.Valid, Made, Holds, Rewritten, KernelPages;
    ghost var ram, root, n := u.pagetable.ram, u.pagetable.root, u.size / PAGESIZE;
    ghost var m1: Mem := ram.mem;
    r := u.Load(USER_START, img, beyond);
    SpaceParts(ram.mem, root, n);
    MadeRewritten(m0, free0, m1, ram.free, ram.mem, root, n);
  }

  /** `grow` for the guard page; an error is unwrapped. */
  method GuardPart(u: Uvm, ghost img: seq<Byte>, ghost trampoline: nat, ghost trapframe: nat, ghost m0: Mem, ghost free0: set<nat>)
    returns (r: Outcome)
    requires u.Valid()
    requires Part(u.pagetable.ram.mem, u.pagetable.root, u.size / PAGESIZE, img, trampoline, trapframe, 4)
    requires Made(m0, free0, u.pagetable.ram.mem, u.pagetable.ram.free, u.pagetable.root, u.size / PAGESIZE)
    modifies u`size, u.pagetable.ram
    ensures u.Valid() && r != Err
    ensures Made(m0, free0, u.pagetable.ram.mem, u.pagetable.ram.free, u.pagetable.root, u.size / PAGESIZE)
    ensures r == Ok ==> Part(u.pagetable.ram.mem, u.pagetable.root, u.size / PAGESIZE, img, trampoline, trapframe, 5)
  {
    hide Space, View, Wf, Memory.Valid, Made, Grown, MappedCount, InRam, Part;
    ghost var ram, root, c := u.pagetable.ram, u.pagetable.root, PageCount(img);
    ghost var m1: Mem, free1 := ram.mem, ram.free;
    RamFrames(ram);
    ImageCounted(m1, root, u.size / PAGESIZE, img, trampoline, trapframe);
    r := u.Grow(PAGESIZE, 0);
    GrownMade(m0, free0, m1, free1, ram.mem, ram.free, root, c, u.size / PAGESIZE, 0);
    if r == Ok {
      GuardReady(m1, free1, ram.mem, ram.free, root, img, trampoline, trapframe);
    } else {
      r := Panic;
    }
  }

  lemma ImageCounted(m: Mem, root: nat, n: nat, img: seq<Byte>, trampoline: nat, trapframe: nat)
    requires Part(m, root, n, img, trampoline, trapframe, 4)
    ensures n == PageCount(img) && MappedCount(m, root, n) == n
  {
    hide Space, View, Wf, Holds, UserCount;
    AllCounted(View(m, root), n);
  }

  lemma GuardReady(m0: Mem, free0: set<nat>, m1: Mem, free1: set<nat>, root: nat,
                   img: seq<Byte>, trampoline: nat, trapframe: nat)
    requires var c := PageCount(img);
      Part(m0, root, c, img, trampoline, trapframe, 4) && Grown(m0, free0, m1, free1, root, c, c + 1, 0) && InRam(m0)
    ensures Part(m1, root, PageCount(img) + 1, img, trampoline, trapframe, 5)
  {
    hide Space, Took, GrownView, Wf, View, Holds, ImagePages, Grown;
    var c := PageCount(img);
    GrownParts(m0, free0, m1, free1, root, c, c + 1, 0);
    EndUnmapped(m0, root, c);
    GuardMapped(View(m0, root), View(m1, root), c, trampoline, trapframe);
    HoldsGrown(m0, free0, m1, free1, root, c, c + 1, 0, USER_START, img);
  }

  /** `grow` for the page of stack; an error is unwrapped. */
  method StackPart(u: Uvm, ghost img: seq<Byte>, ghost trampoline: nat, ghost trapframe: nat, ghost m0: Mem, ghost free0: set<nat>)
    returns (r: Outcome)
    requires u.Valid()
    requires Part(u.pagetable.ram.mem, u.pagetable.root, u.size / PAGESIZE, img, trampoline, trapframe, 5)
    requires Made(m0, free0, u.pagetable.ram.mem, u.pagetable.ram.free, u.pagetable.root, u.size / PAGESIZE)
    modifies u`size, u.pagetable.ram
    ensures u.Valid() && r != Err
    ensures Made(m0, free0, u.pagetable.ram.mem, u.pagetable.ram.free, u.pagetable.root, u.size / PAGESIZE)
    ensures r == Ok ==> Part(u.pagetable.ram.mem, u.pagetable.root, u.size / PAGESIZE, img, trampoline, trapframe, 6)
  {
    hide Space, View, Wf, Memory.Valid, Made, Grown, MappedCount, InRam, Part;
    BuildPerms();
    ghost var ram, root, c := u.pagetable.ram, u.pagetable.root, PageCount(img);
    ghost var m1: Mem, free1 := ram.mem, ram.free;
    RamFrames(ram);
    GuardCounted(m1, root, u.size / PAGESIZE, img, trampoline, trapframe);
    r := u.Grow(PAGESIZE, PTE_W + PTE_R);
    GrownMade(m0, free0, m1, free1, ram.mem, ram.free, root, c + 1, u.size / PAGESIZE, RW);
    if r == Ok {
      StackReady(m1, free1, ram.mem, ram.free, root, img, trampoline, trapframe);
    } else {
      r := Panic;
    }
  }

  lemma GuardCounted(m: Mem, root: nat, n: nat, img: seq<Byte>, trampoline: nat, trapframe: nat)
    requires Part(m, root, n, img, trampoline, trapframe, 5)
    ensures n == PageCount(img) + 1
  {
  }

  lemma StackReady(m0: Mem, free0: set<nat>, m1: Mem, free1: set<nat>, root: nat,
                   img: seq<Byte>, trampoline: nat, trapframe: nat)
    requires var c := PageCount(img);
      Part(m0, root, c + 1, img, trampoline, trapframe, 5) && Grown(m0, free0, m1, free1, root, c + 1, c + 2, RW) && InRam(m0)
    ensures Part(m1, root, PageCount(img) + 2, img, trampoline, trapframe, 6)
  {
    hide Space, Took, GrownView, Wf, View, Holds, GuardPages, ProgramPages, KernelPages, Grown;
    var c := PageCount(img);
    GrownParts(m0, free0, m1, free1, root, c + 1, c + 2, RW);
    EndUnmapped(m0, root, c + 1);
    StackMapped(View(m0, root), View(m1, root), c, trampoline, trapframe);
    HoldsGrown(m0, free0, m1, free1, root, c + 1, c + 2, RW, USER_START, img);
  }

  /** The pages of a program, the image loaded: everything but the arguments. */
  method BuildPages(u: Uvm, trampoline: nat, trapframe: nat, img: seq<Byte>, beyond: seq<Byte>,
                    ghost m0: Mem, ghost free0: set<nat>) returns (r: Outcome)
    requires u.Valid() && u.size == 0 && View(u.pagetable.ram.mem, u.pagetable.root) == map[]
    requires trampoline + 1 < PAGES && trapframe + 1 < PAGES && |img| <= USIZE_MAX && |beyond| >= PAGESIZE
    requires Made(m0, free0, u.pagetable.ram.mem, u.pagetable.ram.free, u.pagetable.root, 0)
    modifies u`size, u.pagetable.ram
    ensures u.Valid()
    ensures Made(m0, free0, u.pagetable.ram.mem, u.pagetable.ram.free, u.pagetable.root, u.size / PAGESIZE)
    ensures r == Ok ==>
      ProgramIn(u.pagetable.ram.mem, u.pagetable.root, u.size / PAGESIZE, img, trampoline, trapframe)
  {
    hide Space, View, Wf, Memory.Valid, Made, Part, ProgramIn;
    FirstPart(u, img, trampoline, trapframe);
    r := KernelPart(u, trampoline, trapframe, img, m0, free0);
    if r == Ok {
      r := ImagePart(u, img, trampoline, trapframe, m0, free0);
    }
    if r == Ok {
      r := LoadPart(u, img, beyond, trampoline, trapframe, m0, free0);
      r := GuardPart(u, img, trampoline, trapframe, m0, free0);
    }
    if r == Ok {
      r := StackPart(u, img, trampoline, trapframe, m0, free0);
      PartIsProgram(u.pagetable.ram.mem, u.pagetable.root, u.size / PAGESIZE, img, trampoline, trapframe);
    }
  }

  lemma FirstPart(u: Uvm, img: seq<Byte>, trampoline: nat, trapframe: nat)
    requires u.Valid() && u.size == 0 && View(u.pagetable.ram.mem, u.pagetable.root) == map[]
    ensures Part(u.pagetable.ram.mem, u.pagetable.root, u.size / PAGESIZE, img, trampoline, trapframe, 1)
  {
    hide View, Memory.Valid;
  }

  lemma GrownMade(m0: Mem, free0: set<nat>, m1: Mem, free1: set<nat>, m2: Mem, free2: set<nat>, root: nat,
                  n1: nat, n2: nat, perm: nat)
    requires Made(m0, free0, m1, free1, root, n1) && Grown(m1, free1, m2, free2, root, n1, n2, perm)
    ensures Made(m0, free0, m2, free2, root, n2) && Space(m2, root, n2)
  {
    hide Space, Made, Took, GrownView, Wf, View;
    MadeTook(m0, free0, m1, free1, m2, free2, root, n1, n2);
  }

  lemma ImageReady(m0: Mem, free0: set<nat>, m1: Mem, free1: set<nat>, root: nat, c: nat, trampoline: nat, trapframe: nat)
    requires Grown(m0, free0, m1, free1, root, 0, c, RWX) && InRam(m1) && Wf(m0, root)
    requires View(m0, root)
      == map[][TRAMPOLINE_VPN := Leaf(trampoline, PTE_R + PTE_X)][TRAPFRAME_VPN := Leaf(trapframe, PTE_R + PTE_W)]
    ensures Wf(m1, root) && ImagePages(View(m1, root), c, trampoline, trapframe)
    ensures UserMapped(View(m1, root), c, USER_VPN, c) && MappedCount(m1, root, c) == c
  {
    hide Space, Took, GrownView, Wf, View, UserCount;
    SpaceParts(m1, root, c);
    SpaceBound(m1, root, c);
    ImageMapped(View(m0, root), View(m1, root), c, trampoline, trapframe);
  }

  lemma GrownParts(m0: Mem, free0: set<nat>, m1: Mem, free1: set<nat>, root: nat, n0: nat, n1: nat, perm: nat)
    requires Grown(m0, free0, m1, free1, root, n0, n1, perm)
    ensures Space(m0, root, n0) && Space(m1, root, n1) && Wf(m0, root) && Wf(m1, root)
    ensures GrownView(View(m0, root), View(m1, root), n0, n1, perm)
  {
  }

  lemma BuildPerms()
    ensures PermBits(PTE_R + PTE_W + PTE_X) && PermLeaf(PTE_R + PTE_W + PTE_X)
    ensures PermBits(PTE_W + PTE_R) && PermLeaf(PTE_W + PTE_R)
  {
  }

  /** Rewriting the stack page leaves the image alone. */
  lemma ProgramStack(m: Mem, root: nat, n: nat, top: nat, p: Page, img: seq<Byte>, trampoline: nat, trapframe: nat)
    requires ProgramIn(m, root, n, img, trampoline, trapframe) && StackTop(m, root, n, top)
    ensures ProgramIn(WithStack(m, root, top, p), root, n, img, trampoline, trapframe)
  {
    hide View, Wf, Space, Tables, UserFrames, TableFrames, GetByte, KernelPages, ProgramPages, Holds, Rewritten;
    StackRewritten(m, root, n, top, p);
    StackBase(m, root, n, top);
    HoldsElsewhere(m, root, n, USER_VPN + n - 1, p, USER_START, img);
  }

  lemma ProgramTop(m: Mem, root: nat, n: nat, img: seq<Byte>, trampoline: nat, trapframe: nat)
    requires ProgramIn(m, root, n, img, trampoline, trapframe) && InRam(m)
    ensures Space(m, root, n) && StackTop(m, root, n, (USER_VPN + n) * PAGESIZE)
    ensures Wf(m, root) && KernelPages(View(m, root), trampoline, trapframe)
  {
    hide View, Wf, Space, Tables, UserFrames, TableFrames, KernelPages, Holds;
    SpaceBound(m, root, n);
    EndUnmapped(m, root, n);
    assert InUser(USER_VPN + n - 1, n);
    UserPageFrame(m, root, n, USER_VPN + n - 1);
    assert (USER_VPN + n) * PAGESIZE / PAGESIZE == USER_VPN + n;
  }

  lemma StackHoldsBounds(p: Page, args: seq<seq<Byte>>, top: nat, sp: int)
    requires StackHolds(p, args, top, sp)
    ensures ArgsFit(args) && |args| < ENTRIES && sp <= top
  {
  }

  /** The arguments. */
  method ArgsPart(u: Uvm, args: seq<seq<Byte>>, ghost img: seq<Byte>, ghost trampoline: nat, ghost trapframe: nat,
                  ghost m0: Mem, ghost free0: set<nat>) returns (r: Outcome, sp: nat)
    requires u.Valid() && ProgramIn(u.pagetable.ram.mem, u.pagetable.root, u.size / PAGESIZE, img, trampoline, trapframe)
    requires Made(m0, free0, u.pagetable.ram.mem, u.pagetable.ram.free, u.pagetable.root, u.size / PAGESIZE)
    modifies u.pagetable.ram
    ensures u.Valid() && u.End() <= USIZE_MAX
    ensures Made(m0, free0, u.pagetable.ram.mem, u.pagetable.ram.free, u.pagetable.root, u.size / PAGESIZE)
    ensures ProgramIn(u.pagetable.ram.mem, u.pagetable.root, u.size / PAGESIZE, img, trampoline, trapframe)
    ensures r == Ok ==> ArgsFit(args)
    ensures r == Ok ==> StackFrame(u.pagetable.ram.mem, u.pagetable.root, u.End()) in u.pagetable.ram.mem
    ensures r == Ok ==>
      StackHolds(u.pagetable.ram.mem[StackFrame(u.pagetable.ram.mem, u.pagetable.root, u.End())], args, u.End(), sp)
  {
    hide Space, View, Wf, Memory.Valid, UserFrames, Made, ProgramIn, StackTop, StackFrame, StackHolds, ArgsFit,
         Rewritten, WithStack, InRam;
    RamFrames(u.pagetable.ram);
    ghost var m1: Mem, root, n := u.pagetable.ram.mem, u.pagetable.root, u.size / PAGESIZE;
    SpaceBound(m1, root, n);
    ProgramTop(m1, root, n, img, trampoline, trapframe);
    var top := u.End();
    assert top == (USER_VPN + n) * PAGESIZE;
    r, sp := PushArgs(u, args, top);
    ghost var p: Page :| u.pagetable.ram.mem == WithStack(m1, root, top, p);
    StackRewritten(m1, root, n, top, p);
    MadeRewritten(m0, free0, m1, u.pagetable.ram.free, u.pagetable.ram.mem, root, n);
    ProgramStack(m1, root, n, top, p, img, trampoline, trapframe);
  }

  /** The whole program: pages, image and arguments.  `Err` leaves an address space to be dropped. */
  method BuildProgram(u: Uvm, trampoline: nat, trapframe: nat, img: seq<Byte>, beyond: seq<Byte>,
                      args: seq<seq<Byte>>, ghost m0: Mem, ghost free0: set<nat>) returns (r: Outcome, sp: nat)
    requires u.Valid() && u.size == 0 && View(u.pagetable.ram.mem, u.pagetable.root) == map[]
    requires trampoline + 1 < PAGES && trapframe + 1 < PAGES && |img| <= USIZE_MAX && |beyond| >= PAGESIZE
    requires Made(m0, free0, u.pagetable.ram.mem, u.pagetable.ram.free, u.pagetable.root, 0)
    modifies u`size, u.pagetable.ram
    ensures u.Valid() && u.End() <= USIZE_MAX
    ensures Made(m0, free0, u.pagetable.ram.mem, u.pagetable.ram.free, u.pagetable.root, u.size / PAGESIZE)
    ensures r == Ok ==> ArgsFit(args)
    ensures r == Ok ==>
      ProgramIn(u.pagetable.ram.mem, u.pagetable.root, u.size / PAGESIZE, img, trampoline, trapframe)
    ensures r == Ok ==> StackFrame(u.pagetable.ram.mem, u.pagetable.root, u.End()) in u.pagetable.ram.mem
    ensures r == Ok ==>
      StackHolds(u.pagetable.ram.mem[StackFrame(u.pagetable.ram.mem, u.pagetable.root, u.End())], args, u.End(), sp)
  {
    hide Space, View, Wf, Memory.Valid, Made, ProgramIn, StackFrame, StackHolds, ArgsFit, InRam;
    sp := 0;
    r := BuildPages(u, trampoline, trapframe, img, beyond, m0, free0);
    if r == Ok {
      r, sp := ArgsPart(u, args, img, trampoline, trapframe, m0, free0);
    } else {
      RamFrames(u.pagetable.ram);
      SpaceBound(u.pagetable.ram.mem, u.pagetable.root, u.size / PAGESIZE);
    }
  }
}
