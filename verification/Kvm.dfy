/** `Kvm`: the kernel's own address space and the kernel stacks in it. */
module KernelSpace {
  import opened Options
  import opened Ram
  import opened TableView
  import opened PageTables
  import opened Spaces
  import opened Ownership

  const UART: nat := 0x1000_0000
  const KERNEL_START: nat := RAMSTART
  const KERNEL_STACK_PAGES: nat := 2

  const UART_VPN: nat := UART / PAGESIZE
  const KERNEL_VPN: nat := KERNEL_START / PAGESIZE
  const RAMEND_VPN: nat := RAMEND / PAGESIZE

  const RW: nat := PTE_R + PTE_W
  const RX: nat := PTE_R + PTE_X

  /** `KSTACK!(n)`: the lowest address of the kernel stack of process slot `n`. */
  function Kstack(n: nat): int {
    TRAMPOLINE - (n + 1) * PAGESIZE * (KERNEL_STACK_PAGES + 1) + PAGESIZE
  }

  /** The guard page below the stack of slot `n` still lies above RAM. */
  predicate StackFits(n: nat) {
    3 * (n + 1) <= TRAMPOLINE_VPN - RAMEND_VPN
  }

  /** Slot `n`'s stack and the page below it are above the end of RAM exactly for these `n`. */
  lemma KstackAboveRam(n: nat)
    ensures StackFits(n) <==> Kstack(n) - PAGESIZE >= RAMEND
  {
    assert Kstack(n) == (TRAMPOLINE_VPN - 3 * (n + 1) + 1) * PAGESIZE;
  }

  /** Stacks of different slots, with their guard pages, do not overlap, nor do they reach the trampoline. */
  lemma KstacksDisjoint(i: nat, j: nat)
    requires i < j
    ensures Kstack(j) + KERNEL_STACK_PAGES * PAGESIZE <= Kstack(i) - PAGESIZE
    ensures Kstack(i) + KERNEL_STACK_PAGES * PAGESIZE <= TRAMPOLINE
  {
    assert (j + 1) * PAGESIZE * (KERNEL_STACK_PAGES + 1) >= (i + 2) * PAGESIZE * (KERNEL_STACK_PAGES + 1);
  }

  /** Page `v` belongs to the stack of one of the slots below `k`. */
  predicate StackPage(v: nat, k: nat) {
    v < TRAMPOLINE_VPN && TRAMPOLINE_VPN - v <= 3 * k && (TRAMPOLINE_VPN - v) % 3 != 0
  }

  /** What the kernel's page `v` is mapped to, `text` being the number of text pages. */
  predicate KernelLeafAt(l: Leaf, v: nat, text: nat, trampoline: nat, k: nat) {
    if v == UART_VPN then l == Leaf(UART_VPN, RW)
    else if KERNEL_VPN <= v < KERNEL_VPN + text then l == Leaf(v, RX)
    else if KERNEL_VPN <= v < RAMEND_VPN then l == Leaf(v, RW)
    else if v == TRAMPOLINE_VPN then l == Leaf(trampoline, RX)
    else StackPage(v, k) && l.perm == RW
  }

  predicate KernelPage(v: nat, k: nat) {
    v == UART_VPN || KERNEL_VPN <= v < RAMEND_VPN || v == TRAMPOLINE_VPN || StackPage(v, k)
  }

  /** The kernel's address space with stacks for `k` slots: exactly the pages it should have, and
      each still mapped as it was first mapped.  Guard pages are not among them. */
  ghost predicate KernelShape(view: map<nat, Leaf>, text: nat, trampoline: nat, k: nat) {
    && KERNEL_VPN + text <= RAMEND_VPN
    && (forall v: nat :: v in view <==> KernelPage(v, k))
    && (forall v | v in view :: KernelLeafAt(view[v], v, text, trampoline, k))
  }

  /** The page below every stack is a guard; the stack itself is mapped. */
  lemma GuardsUnmapped(view: map<nat, Leaf>, text: nat, trampoline: nat, k: nat, n: nat)
    requires KernelShape(view, text, trampoline, k) && n < k && StackFits(n)
    ensures exists v: nat :: (Kstack(n) == (v + 1) * PAGESIZE && v !in view && v + 1 in view && v + 2 in view)
  {
    var v := TRAMPOLINE_VPN - 3 * (n + 1);
    assert Kstack(n) == (v + 1) * PAGESIZE;
    assert (TRAMPOLINE_VPN - v) % 3 == 0;
    assert !KernelPage(v, k) && KernelPage(v + 1, k) && KernelPage(v + 2, k);
  }

  /** The four ranges mapped by `Kvm::init` make up the kernel's address space; none of them
      meets another, so no entry is written twice. */
  lemma InitRanges(text: nat, trampoline: nat)
    requires KERNEL_VPN + text <= RAMEND_VPN
    ensures var v1 := map[] + Range(UART_VPN, UART_VPN, 1, RW);
      var v2 := v1 + Range(KERNEL_VPN, KERNEL_VPN, text, RX);
      var v3 := v2 + Range(KERNEL_VPN + text, KERNEL_VPN + text, RAMEND_VPN - KERNEL_VPN - text, RW);
      && v1.Keys !! Pages(KERNEL_VPN, text)
      && v2.Keys !! Pages(KERNEL_VPN + text, RAMEND_VPN - KERNEL_VPN - text)
      && v3.Keys !! Pages(TRAMPOLINE_VPN, 1)
      && KernelShape(v3 + Range(TRAMPOLINE_VPN, trampoline, 1, RX), text, trampoline, 0)
  {
    var v1 := map[] + Range(UART_VPN, UART_VPN, 1, RW);
    var v2 := v1 + Range(KERNEL_VPN, KERNEL_VPN, text, RX);
    var v3 := v2 + Range(KERNEL_VPN + text, KERNEL_VPN + text, RAMEND_VPN - KERNEL_VPN - text, RW);
    var v4 := v3 + Range(TRAMPOLINE_VPN, trampoline, 1, RX);
    hide Range, Pages;
    forall v: nat
      ensures v in Pages(KERNEL_VPN, text) ==> v !in v1
      ensures v in Pages(KERNEL_VPN + text, RAMEND_VPN - KERNEL_VPN - text) ==> v !in v2
      ensures v in Pages(TRAMPOLINE_VPN, 1) ==> v !in v3
      ensures v in v4 <==> KernelPage(v, 0)
      ensures v in v4 ==> KernelLeafAt(v4[v], v, text, trampoline, 0)
    {
      RangeAt(UART_VPN, UART_VPN, 1, RW, v);
      RangeAt(KERNEL_VPN, KERNEL_VPN, text, RX, v);
      RangeAt(KERNEL_VPN + text, KERNEL_VPN + text, RAMEND_VPN - KERNEL_VPN - text, RW, v);
      RangeAt(TRAMPOLINE_VPN, trampoline, 1, RX, v);
    }
  }

  lemma RangeAt(v: nat, frame: nat, n: nat, perm: nat, u: nat)
    ensures u in Range(v, frame, n, perm) <==> v <= u < v + n
    ensures u in Pages(v, n) <==> v <= u < v + n
    ensures u in Range(v, frame, n, perm) ==> Range(v, frame, n, perm)[u] == Leaf(frame + (u - v), perm)
  {
    if v <= u {
      assert RangeLeaf(v, frame, perm, u).perm == perm;
      assert RangeLeaf(v, 0, 0, u).perm == 0;
    }
  }

  /** Mapping the two pages of the next slot's stack meets no page that is already mapped. */
  lemma NextStack(view: map<nat, Leaf>, text: nat, trampoline: nat, k: nat, f0: nat, f1: nat)
    requires KernelShape(view, text, trampoline, k) && StackFits(k)
    ensures var v := TRAMPOLINE_VPN - 3 * (k + 1) + 1;
      && v !in view && v + 1 !in view
      && KernelShape(view[v := Leaf(f0, RW)][v + 1 := Leaf(f1, RW)], text, trampoline, k + 1)
  {
    var v := TRAMPOLINE_VPN - 3 * (k + 1) + 1;
    var view2 := view[v := Leaf(f0, RW)][v + 1 := Leaf(f1, RW)];
    StackSnoc(v, k);
    StackSnoc(v + 1, k);
    assert !KernelPage(v, k) && !KernelPage(v + 1, k);
    forall u: nat
      ensures u in view2 <==> KernelPage(u, k + 1)
      ensures u in view2 ==> KernelLeafAt(view2[u], u, text, trampoline, k + 1)
    {
      StackSnoc(u, k);
      assert u in view ==> KernelLeafAt(view[u], u, text, trampoline, k);
    }
  }

  lemma StackSnoc(u: nat, k: nat)
    requires 3 * (k + 1) <= TRAMPOLINE_VPN
    ensures var v := TRAMPOLINE_VPN - 3 * (k + 1) + 1;
      StackPage(u, k + 1) <==> StackPage(u, k) || u == v || u == v + 1
    ensures var v := TRAMPOLINE_VPN - 3 * (k + 1) + 1; !StackPage(v, k) && !StackPage(v + 1, k)
  {
  }

  lemma KernelPerms()
    ensures PermBits(RW) && PermBits(RX)
  {
  }

  /** No page of the kernel is for user mode, and none can be both written and executed; what can
      be executed is the kernel's text and the trampoline. */
  lemma KernelRights(view: map<nat, Leaf>, text: nat, trampoline: nat, k: nat, v: nat)
    requires KernelShape(view, text, trampoline, k) && v in view
    ensures PermR(view[v].perm) && !PermU(view[v].perm)
    ensures PermX(view[v].perm) <==> KERNEL_VPN <= v < KERNEL_VPN + text || v == TRAMPOLINE_VPN
    ensures PermW(view[v].perm) <==> !PermX(view[v].perm)
  {
    assert KernelLeafAt(view[v], v, text, trampoline, k);
  }

  lemma TakenTable(m0: Mem, free0: set<nat>, m1: Mem, free1: set<nat>, root: nat, page: nat)
    requires Wf(m0, root) && Taken(m0, free0, m1, free1, page)
    ensures Wf(m1, root) && View(m1, root) == View(m0, root) && page + 1 < PAGES
  {
    AfterAlloc(m0, m1, root);
  }

  /** `own` are frames handed out, those of the table among them. */
  ghost predicate OwnsTable(m: Mem, root: nat, own: set<nat>) {
    Wf(m, root) && root in m && TableFrames(m, root) <= own <= m.Keys
  }

  /** A frame taken and mapped: the owner has it now, and the tables it took. */
  lemma StackPageTaken(m0: Mem, free0: set<nat>, m1: Mem, free1: set<nat>, m2: Mem, free2: set<nat>,
                       root: nat, page: nat, own: set<nat>) returns (own1: set<nat>)
    requires OwnsTable(m0, root, own) && Taken(m0, free0, m1, free1, page)
    requires Wf(m1, root) && Wf(m2, root) && TableGrew(m1, free1, m2, free2, root)
    ensures OwnsTable(m2, root, own1) && Confined(m0, free0, m2, free2, own, own1)
    ensures page !in own && page in own1 && own <= own1 && page !in TableFrames(m2, root)
    ensures forall f :: f in own && f !in TableFrames(m0, root) ==> f !in TableFrames(m2, root)
  {
    hide View, Wf, Tables;
    AfterAlloc(m0, m1, root);
    own1 := own + {page} + Tables(m2, root);
  }

  /** Behind every page of the stacks of `k` slots is a frame of its own: the kernel's, no part of its
      table, and behind no other of these pages. */
  ghost predicate OwnStacks(m: Mem, root: nat, own: set<nat>, k: nat) {
    && Wf(m, root) && root in m
    && (forall v: nat :: StackPage(v, k) ==> StackFrameOk(m, root, own, v))
    && (forall u: nat, v: nat :: u < v && StackPage(u, k) && StackPage(v, k) ==> StackFramesDiffer(View(m, root), u, v))
  }

  ghost predicate StackFrameOk(m: Mem, root: nat, own: set<nat>, v: nat)
    requires Wf(m, root) && root in m
  {
    v in View(m, root) && View(m, root)[v].frame in own && View(m, root)[v].frame !in TableFrames(m, root)
  }

  ghost predicate StackFramesDiffer(view: map<nat, Leaf>, u: nat, v: nat) {
    u in view && v in view && view[u].frame != view[v].frame
  }

  lemma NoStacks(m: Mem, root: nat, own: set<nat>)
    requires Wf(m, root) && root in m
    ensures OwnStacks(m, root, own, 0)
  {
    hide View, Wf;
  }

  /** Mapping another page disturbs none of them. */
  lemma StacksStay(m0: Mem, m1: Mem, root: nat, own0: set<nat>, own1: set<nat>, k: nat, u: nat, l: Leaf)
    requires OwnStacks(m0, root, own0, k) && Wf(m1, root) && root in m1 && !StackPage(u, k)
    requires View(m1, root) == View(m0, root)[u := l] && own0 <= own1
    requires forall f :: f in own0 && f !in TableFrames(m0, root) ==> f !in TableFrames(m1, root)
    ensures OwnStacks(m1, root, own1, k)
    ensures forall v: nat :: StackPage(v, k) ==> v in View(m0, root) && View(m0, root)[v].frame in own0
  {
    hide View, Wf, TableFrames, StackPage;
    forall v: nat | StackPage(v, k)
      ensures StackFrameOk(m1, root, own1, v)
    {
      assert StackFrameOk(m0, root, own0, v);
    }
    forall a: nat, b: nat | a < b && StackPage(a, k) && StackPage(b, k)
      ensures StackFramesDiffer(View(m1, root), a, b)
    {
      assert StackFramesDiffer(View(m0, root), a, b);
    }
  }

  /** Nor does anything that leaves the table's meaning alone. */
  lemma StacksKept(m0: Mem, m1: Mem, root: nat, own: set<nat>, k: nat)
    requires OwnStacks(m0, root, own, k) && Wf(m1, root) && root in m1
    requires View(m1, root) == View(m0, root) && TableFrames(m1, root) == TableFrames(m0, root)
    ensures OwnStacks(m1, root, own, k)
  {
    hide View, Wf, TableFrames, StackPage;
    forall v: nat | StackPage(v, k)
      ensures StackFrameOk(m1, root, own, v)
    {
      assert StackFrameOk(m0, root, own, v);
    }
  }

  /** Two new frames behind the next two pages. */
  lemma StacksGrow(m: Mem, root: nat, own: set<nat>, k: nat, v: nat, f0: nat, f1: nat, before: set<nat>)
    requires OwnStacks(m, root, own, k) && 3 * (k + 1) <= TRAMPOLINE_VPN && v == TRAMPOLINE_VPN - 3 * (k + 1) + 1
    requires StackFrameOk(m, root, own, v) && StackFrameOk(m, root, own, v + 1)
    requires View(m, root)[v].frame == f0 && View(m, root)[v + 1].frame == f1 && f0 != f1 && f0 !in before && f1 !in before
    requires forall u: nat :: StackPage(u, k) ==> u in View(m, root) && View(m, root)[u].frame in before
    ensures OwnStacks(m, root, own, k + 1)
  {
    hide View, Wf, TableFrames, StackPage;
    forall u: nat | StackPage(u, k + 1)
      ensures StackFrameOk(m, root, own, u)
    {
      StackSnoc(u, k);
    }
    forall a: nat, b: nat | a < b && StackPage(a, k + 1) && StackPage(b, k + 1)
      ensures StackFramesDiffer(View(m, root), a, b)
    {
      StackSnoc(a, k);
      StackSnoc(b, k);
      if StackPage(a, k) && StackPage(b, k) {
        assert StackFramesDiffer(View(m, root), a, b);
      }
    }
  }

  /** Both pages done. */
  lemma StackPairDone(m0: Mem, free0: set<nat>, m1: Mem, free1: set<nat>, m2: Mem, free2: set<nat>, root: nat,
                      own: set<nat>, mid: set<nat>, own1: set<nat>, k: nat, v: nat, f0: nat, f1: nat, view: map<nat, Leaf>)
    requires 3 * (k + 1) <= TRAMPOLINE_VPN && v == TRAMPOLINE_VPN - 3 * (k + 1) + 1
    requires Wf(m0, root) && Wf(m1, root) && Wf(m2, root) && root in m0 && root in m2 && View(m0, root) == view
    requires View(m1, root) == view[v := Leaf(f0, RW)] && View(m2, root) == view[v := Leaf(f0, RW)][v + 1 := Leaf(f1, RW)]
    requires OwnStacks(m0, root, own, k) && OwnStacks(m2, root, own1, k)
    requires Confined(m0, free0, m1, free1, own, mid) && Confined(m1, free1, m2, free2, mid, own1)
    requires f0 in free0 && f0 !in own && f0 in mid && f1 in free1 && f1 !in mid && own <= mid <= own1
    requires StackFrameOk(m2, root, own1, v) && StackFrameOk(m2, root, own1, v + 1)
    ensures OwnStacks(m2, root, own1, k + 1) && Confined(m0, free0, m2, free2, own, own1)
    ensures f1 in free0 && f0 != f1
  {
    hide Wf, View, TableFrames, StackPage;
    ConfinedTransitive(m0, free0, m1, free1, m2, free2, own, mid, own1);
    forall u: nat | StackPage(u, k)
      ensures u in View(m2, root) && View(m2, root)[u].frame in own
    {
      StackSnoc(v, k);
      StackSnoc(v + 1, k);
      assert StackFrameOk(m0, root, own, u);
    }
    StacksGrow(m2, root, own1, k, v, f0, f1, own);
  }

  lemma OwnsNow(ram: Memory, root: nat, own: set<nat>)
    requires ram.Valid() && OwnsTable(ram.mem, root, own)
    ensures root in ram.mem && Confined(ram.mem, ram.free, ram.mem, ram.free, own, own)
  {
  }

  class Kvm {
    const pagetable: PageTable

    constructor (pagetable: PageTable)
      ensures this.pagetable == pagetable
    {
      this.pagetable := pagetable;
    }

    /** `Kvm::init`: device, kernel text, the rest of RAM and the trampoline.  `endText` and
        `trampoline` are the linker's symbols, both at page boundaries. */
    static method Init(ram: Memory, endText: nat, trampoline: nat) returns (r: Option<Kvm>)
      requires ram.Valid()
      requires endText % PAGESIZE == 0 && KERNEL_START <= endText <= RAMEND && trampoline + 1 < PAGES
      modifies ram
      ensures ram.Valid()
      ensures r.Some? ==> fresh(r.value) && r.value.pagetable.ram == ram && Wf(ram.mem, r.value.pagetable.root)
      ensures r.Some? ==>
        KernelShape(View(ram.mem, r.value.pagetable.root), (endText - KERNEL_START) / PAGESIZE, trampoline, 0)
    {
      hide Wf, View, TableGrew, Range, Pages, KernelShape, Memory.Valid, SameOutside, Tables, PermLeaf, PermU;
      KernelPerms();
      var pt := PageTable.New(ram);
      if pt.None? {
        return None;
      }
      var table := pt.value;
      ghost var text := (endText - KERNEL_START) / PAGESIZE;
      assert endText / PAGESIZE == KERNEL_VPN + text && (RAMEND - endText) / PAGESIZE == RAMEND_VPN - KERNEL_VPN - text;
      var mapped := table.Map(UART, UART, PAGESIZE, PTE_R + PTE_W);
      if mapped != Ok {
        return None;
      }
      mapped := table.Map(KERNEL_START, KERNEL_START, endText - KERNEL_START, PTE_X + PTE_R);
      if mapped != Ok {
        return None;
      }
      mapped := table.Map(endText, endText, RAMEND - endText, PTE_R + PTE_W);
      if mapped != Ok {
        return None;
      }
      mapped := table.Map(TRAMPOLINE, trampoline * PAGESIZE, PAGESIZE, PTE_R + PTE_X);
      if mapped != Ok {
        return None;
      }
      InitRanges(text, trampoline);
      var kvm := new Kvm(table);
      r := Some(kvm);
    }

    /** One turn of `alloc_kstack`'s loop: a new frame behind page `v`. */
    method AddStackPage(va: nat, ghost v: nat, ghost k: nat, ghost own: set<nat>)
      returns (ok: bool, ghost page: nat, ghost own1: set<nat>)
      requires pagetable.ram.Valid() && Wf(pagetable.ram.mem, pagetable.root)
      requires OwnsTable(pagetable.ram.mem, pagetable.root, own) && OwnStacks(pagetable.ram.mem, pagetable.root, own, k)
      requires va == v * PAGESIZE && v + 1 < PAGES && !StackPage(v, k)
      modifies pagetable.ram
      ensures pagetable.ram.Valid()
      ensures ok ==> Wf(pagetable.ram.mem, pagetable.root)
      ensures ok ==> View(pagetable.ram.mem, pagetable.root) == old(View(pagetable.ram.mem, pagetable.root))[v := Leaf(page, RW)]
      ensures ok ==> OwnsTable(pagetable.ram.mem, pagetable.root, own1) && OwnStacks(pagetable.ram.mem, pagetable.root, own1, k)
      ensures ok ==>
        Confined(old(pagetable.ram.mem), old(pagetable.ram.free), pagetable.ram.mem, pagetable.ram.free, own, own1)
      ensures ok ==> page in old(pagetable.ram.free) && page !in own && own <= own1
      ensures ok ==> pagetable.root in pagetable.ram.mem && StackFrameOk(pagetable.ram.mem, pagetable.root, own1, v)
      ensures ok ==> forall u: nat :: u != v && old(pagetable.root in pagetable.ram.mem && StackFrameOk(pagetable.ram.mem, pagetable.root, own, u)) ==>
        StackFrameOk(pagetable.ram.mem, pagetable.root, own1, u)
    {
      hide Wf, View, TableGrew, Memory.Valid, TableFrames, Range, Mapped, Taken, Confined, OwnStacks;
      KernelPerms();
      var ram, root := pagetable.ram, pagetable.root;
      page, own1 := 0, own;
      ghost var m0, free0 := ram.mem, ram.free;
      var f := ram.Alloc();
      page := f;
      if f == 0 {
        return false, page, own1;
      }
      TakenTable(m0, free0, ram.mem, ram.free, root, f);
      TakenParts(m0, free0, ram.mem, ram.free, f);
      ghost var m1, free1 := ram.mem, ram.free;
      var mapped := pagetable.MapOne(va, f * PAGESIZE, PTE_R + PTE_W, v, f);
      if mapped != Ok {
        return false, page, own1;
      }
      MappedGrew(m1, free1, ram.mem, ram.free, root, v, f, 1, RW);
      RangeOne(View(m1, root), v, f, RW);
      own1 := StackPageTaken(m0, free0, m1, free1, ram.mem, ram.free, root, f, own);
      StacksStay(m0, ram.mem, root, own, own1, k, v, Leaf(f, RW));
      ok := true;
    }

    /** Maps fresh frames as the kernel stack at `va`; `false` is the panic on a failed `unwrap`.
        `own` are frames of the kernel, its table's among them: nobody else's are touched. */
    method AllocKstack(va: nat, ghost text: nat, ghost trampoline: nat, ghost k: nat, ghost own: set<nat>)
      returns (ok: bool, ghost own1: set<nat>)
      requires pagetable.ram.Valid() && Wf(pagetable.ram.mem, pagetable.root)
      requires KernelShape(View(pagetable.ram.mem, pagetable.root), text, trampoline, k)
      requires OwnsTable(pagetable.ram.mem, pagetable.root, own) && OwnStacks(pagetable.ram.mem, pagetable.root, own, k)
      requires StackFits(k) && va == Kstack(k)
      modifies pagetable.ram
      ensures pagetable.ram.Valid()
      ensures ok ==> Wf(pagetable.ram.mem, pagetable.root)
      ensures ok ==> KernelShape(View(pagetable.ram.mem, pagetable.root), text, trampoline, k + 1)
      ensures ok ==> OwnsTable(pagetable.ram.mem, pagetable.root, own1) && OwnStacks(pagetable.ram.mem, pagetable.root, own1, k + 1)
      ensures ok ==>
        Confined(old(pagetable.ram.mem), old(pagetable.ram.free), pagetable.ram.mem, pagetable.ram.free, own, own1)
      ensures ok ==> exists f0: nat, f1: nat ::
        && f0 in old(pagetable.ram.free) && f1 in old(pagetable.ram.free) && f0 != f1 && {f0, f1} <= own1
        && pagetable.root in pagetable.ram.mem && {f0, f1} !! TableFrames(pagetable.ram.mem, pagetable.root)
        && View(pagetable.ram.mem, pagetable.root)
           == old(View(pagetable.ram.mem, pagetable.root))[va / PAGESIZE := Leaf(f0, RW)][va / PAGESIZE + 1 := Leaf(f1, RW)]
    {
      hide Wf, View, KernelShape, Memory.Valid, TableFrames, Confined, OwnsTable, OwnStacks, StackPage;
      var ram, root := pagetable.ram, pagetable.root;
      ghost var m0: Mem, free0, v: nat, view := ram.mem, ram.free, TRAMPOLINE_VPN - 3 * (k + 1) + 1, View(ram.mem, root);
      assert va == v * PAGESIZE;
      StackSnoc(v, k);
      StackSnoc(v + 1, k);
      OwnsNow(ram, root, own);
      ghost var f0, f1;
      ok, f0, own1 := AddStackPage(va, v, k, own);
      if !ok {
        return;
      }
      ghost var m1: Mem, free1, mid := ram.mem, ram.free, own1;
      ok, f1, own1 := AddStackPage(va + PAGESIZE, v + 1, k, mid);
      if !ok {
        return;
      }
      StackPairDone(m0, free0, m1, free1, ram.mem, ram.free, root, own, mid, own1, k, v, f0, f1, view);
      NextStack(view, text, trampoline, k, f0, f1);
      ok := true;
    }
  }
}
