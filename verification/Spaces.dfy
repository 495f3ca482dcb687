/** User address spaces as facts about memory: which pages a `Uvm` maps, and which frames it owns. */
module Spaces {
  import opened Ram
  import opened TableView
  import opened PageTables

  const USER_START: nat := 0x10000
  const VIRT_END: nat := 0xffff_ffff - PAGESIZE + 1
  const TRAMPOLINE: nat := VIRT_END - PAGESIZE
  const TRAPFRAME: nat := TRAMPOLINE - PAGESIZE

  /** The same addresses as virtual page numbers. */
  const USER_VPN: nat := USER_START / PAGESIZE
  const TRAMPOLINE_VPN: nat := TRAMPOLINE / PAGESIZE
  const TRAPFRAME_VPN: nat := TRAPFRAME / PAGESIZE

  /** Guard pages take no frame, so the size of memory does not bound them; `kexec` makes one. */
  const HOLES_MAX: nat := 1_000_000

  predicate InUser(v: nat, pages: nat) {
    USER_VPN <= v < USER_VPN + pages
  }

  /** `perm | PTE_U` */
  function WithU(perm: nat): nat {
    if PermU(perm) then perm else perm + PTE_U
  }

  /** The pages of the user part that are mapped. */
  ghost function UserPages(view: map<nat, Leaf>, pages: nat): set<nat> {
    set v | v in view && InUser(v, pages)
  }

  ghost function UserCount(view: map<nat, Leaf>, pages: nat): nat {
    |UserPages(view, pages)|
  }

  predicate LeafKind(l: Leaf, v: nat, pages: nat) {
    if InUser(v, pages) then UserLeaf(l)
    else (v == TRAMPOLINE_VPN || v == TRAPFRAME_VPN) && !PermU(l.perm) && PermLeaf(l.perm)
  }

  /** User leaves only inside the user part; the two pages at the top belong to the kernel. */
  ghost predicate LeafKinds(view: map<nat, Leaf>, pages: nat) {
    forall v | v in view :: LeafKind(view[v], v, pages)
  }

  /** Memory holds, at `root`, the address space of a user part of `pages` pages. */
  ghost predicate Space(m: Mem, root: nat, pages: nat) {
    && Wf(m, root)
    && LeafKinds(View(m, root), pages)
    && OwnsUserFrames(m, root, USER_VPN, pages)
    && pages <= UserCount(View(m, root), pages) + HOLES_MAX
  }

  /** Neither of the two kernel pages is mapped yet. */
  ghost predicate KernelPagesFree(view: map<nat, Leaf>) {
    TRAMPOLINE_VPN !in view && TRAPFRAME_VPN !in view
  }

  /** How many pages of the user part are mapped. */
  ghost function MappedCount(m: Mem, root: nat, pages: nat): nat {
    if Wf(m, root) then UserCount(View(m, root), pages) else 0
  }

  /** Every frame an address space is made of: its tables and the frames behind its user pages. */
  ghost function Footprint(m: Mem, root: nat, pages: nat): set<nat>
    requires Wf(m, root) && root in m
  {
    TableFrames(m, root) + UserFrames(View(m, root), USER_VPN, pages)
  }

  /** All frames handed out lie in RAM. */
  ghost predicate InRam(m: Mem) {
    forall f | f in m :: RAM_LO <= f < RAM_HI
  }

  ghost function Interval(lo: nat, hi: nat): (s: set<nat>)
    ensures forall x :: x in s <==> lo <= x < hi
    ensures lo <= hi ==> |s| == hi - lo
    decreases hi
  {
    if lo < hi then
      var s := Interval(lo, hi - 1);
      assert hi - 1 !in s;
      s + {hi - 1}
    else {}
  }

  lemma SubsetSize(a: set<nat>, b: set<nat>)
    requires a <= b
    ensures |a| <= |b|
  {
    if a != {} {
      var x :| x in a;
      SubsetSize(a - {x}, b - {x});
    }
  }

  /** A set of pages with pairwise different frames is no larger than the set of those frames. */
  lemma {:induction false} Pigeonhole(view: map<nat, Leaf>, pages: set<nat>, frames: set<nat>)
    requires forall v | v in pages :: v in view && view[v].frame in frames
    requires forall a, b | a in pages && b in pages && a != b :: view[a].frame != view[b].frame
    ensures |pages| <= |frames|
    decreases pages
  {
    if pages != {} {
      var v :| v in pages;
      Pigeonhole(view, pages - {v}, frames - {view[v].frame});
    }
  }

  /** However it was grown, an address space ends below the trapframe page: each mapped page
      holds one of the frames of RAM. */
  lemma SpaceBound(m: Mem, root: nat, pages: nat)
    requires Space(m, root, pages) && InRam(m)
    ensures USER_VPN + pages + 1 < TRAPFRAME_VPN
    ensures UserCount(View(m, root), pages) <= RAM_HI - RAM_LO
  {
    hide View, Wf, Tables, TableFrames, PermU, PermLeaf;
    var view := View(m, root);
    var mapped := UserPages(view, pages);
    forall v | v in mapped
      ensures view[v].frame in m
    {
      assert LeafKind(view[v], v, pages);
      assert view[v].frame in UserFrames(view, USER_VPN, pages);
    }
    forall a, b | a in mapped && b in mapped && a != b
      ensures view[a].frame != view[b].frame
    {
      assert LeafKind(view[a], a, pages) && LeafKind(view[b], b, pages);
      assert a < b || b < a;
    }
    var frames := Interval(RAM_LO, RAM_HI);
    Pigeonhole(view, mapped, m.Keys);
    SubsetSize(m.Keys, frames);
  }

  lemma NewSpace(m: Mem, root: nat)
    requires Wf(m, root) && View(m, root) == map[]
    ensures Space(m, root, 0)
  {
    hide Wf, View;
    assert UserFrames(map[], USER_VPN, 0) == {};
  }

  /** The page just past the user part is not mapped. */
  lemma EndUnmapped(m: Mem, root: nat, pages: nat)
    requires Space(m, root, pages) && InRam(m)
    ensures USER_VPN + pages !in View(m, root)
  {
    SpaceBound(m, root, pages);
  }

  /** A guard page: the user part gets longer, nothing is mapped. */
  lemma AddGuard(m: Mem, root: nat, pages: nat)
    requires Space(m, root, pages) && InRam(m)
    requires pages + 1 <= UserCount(View(m, root), pages) + HOLES_MAX
    ensures Space(m, root, pages + 1)
    ensures UserCount(View(m, root), pages + 1) == UserCount(View(m, root), pages)
    ensures UserFrames(View(m, root), USER_VPN, pages + 1) == UserFrames(View(m, root), USER_VPN, pages)
  {
    hide View, Wf, OwnsUserFrames, LeafKinds, UserCount, UserFrames;
    EndUnmapped(m, root, pages);
    KindsBeyond(View(m, root), pages);
    OwnsBeyond(m, root, USER_VPN, pages);
  }

  lemma KindsBeyond(view: map<nat, Leaf>, pages: nat)
    requires LeafKinds(view, pages) && USER_VPN + pages !in view
    ensures LeafKinds(view, pages + 1) && UserCount(view, pages + 1) == UserCount(view, pages)
  {
    hide UserLeaf, PermU, PermLeaf;
    assert UserPages(view, pages + 1) == UserPages(view, pages);
    forall v | v in view
      ensures LeafKind(view[v], v, pages + 1)
    {
      assert LeafKind(view[v], v, pages);
    }
  }

  /** An unmapped page owns nothing. */
  lemma OwnsBeyond(m: Mem, root: nat, v: nat, n: nat)
    requires Wf(m, root) && v + n !in View(m, root)
    ensures UserFrames(View(m, root), v, n + 1) == UserFrames(View(m, root), v, n)
    ensures OwnsUserFrames(m, root, v, n) ==> OwnsUserFrames(m, root, v, n + 1)
  {
    hide View, Wf, UserLeaf, Tables, TableFrames;
  }

  /** The view of an address space after its user part grew from `n0` to `n1` pages: nothing
      mapped before changed, and each new page is mapped with the given permissions, or none
      of them for a guard (`perm` 0). */
  ghost predicate GrownView(view0: map<nat, Leaf>, view1: map<nat, Leaf>, n0: nat, n1: nat, perm: nat) {
    && n0 <= n1
    && view1.Keys == view0.Keys + (if perm == 0 then {} else Pages(USER_VPN + n0, n1 - n0))
    && (forall v | v in view0 :: view1[v] == view0[v])
    && (forall v | v in view1 && v !in view0 :: view1[v].perm == WithU(perm))
  }

  /** The frames an operation took came from the allocator and joined the address space. */
  ghost predicate Took(m0: Mem, free0: set<nat>, m1: Mem, free1: set<nat>, root: nat, n0: nat, n1: nat) {
    && Wf(m0, root) && Wf(m1, root) && root in m0 && root in m1
    && m0.Keys <= m1.Keys && m1.Keys - m0.Keys <= free0 && free1 == free0 - (m1.Keys - m0.Keys)
    && SameOutside(m0, m1, TableFrames(m0, root))
    && TableFrames(m0, root) <= TableFrames(m1, root)
    && TableFrames(m1, root) - TableFrames(m0, root) <= m1.Keys - m0.Keys
    && Footprint(m1, root, n1) == Footprint(m0, root, n0) + (m1.Keys - m0.Keys)
  }

  /** What growing does. */
  ghost predicate Grown(m0: Mem, free0: set<nat>, m1: Mem, free1: set<nat>, root: nat, n0: nat, n1: nat, perm: nat) {
    && Space(m0, root, n0)
    && Space(m1, root, n1)
    && GrownView(View(m0, root), View(m1, root), n0, n1, perm)
    && Took(m0, free0, m1, free1, root, n0, n1)
  }

  lemma GrownNone(m: Mem, free: set<nat>, root: nat, n: nat, perm: nat)
    requires Space(m, root, n)
    ensures Grown(m, free, m, free, root, n, n, perm)
  {
    hide View, Tables, OwnsUserFrames, LeafKinds;
    RangeEmpty(View(m, root), USER_VPN + n, 0, 0);
    PagesNone(USER_VPN + n);
  }

  lemma PagesNone(v: nat)
    ensures Pages(v, 0) == {}
  {
  }

  lemma GrownViewSnoc(view0: map<nat, Leaf>, view1: map<nat, Leaf>, view2: map<nat, Leaf>, n0: nat, n1: nat, perm: nat)
    requires GrownView(view0, view1, n0, n1, perm) && GrownView(view1, view2, n1, n1 + 1, perm)
    ensures GrownView(view0, view2, n0, n1 + 1, perm)
  {
    hide Pages;
    PagesOne(USER_VPN + n1);
    PagesNext(USER_VPN + n0, n1 - n0);
  }

  lemma TookTransitive(m0: Mem, free0: set<nat>, m1: Mem, free1: set<nat>, m2: Mem, free2: set<nat>, root: nat,
                       n0: nat, n1: nat, n2: nat)
    requires Wf(m0, root) && Wf(m1, root) && Wf(m2, root) && root in m0 && root in m1 && root in m2
    requires Took(m0, free0, m1, free1, root, n0, n1) && Took(m1, free1, m2, free2, root, n1, n2)
    ensures Took(m0, free0, m2, free2, root, n0, n2)
  {
    hide Wf, View, TableFrames, Footprint;
    assert m2.Keys - m0.Keys == (m1.Keys - m0.Keys) + (m2.Keys - m1.Keys);
    assert free2 == free0 - (m2.Keys - m0.Keys);
    assert Footprint(m2, root, n2) == Footprint(m0, root, n0) + (m2.Keys - m0.Keys);
  }

  lemma GrownSnoc(m0: Mem, free0: set<nat>, m1: Mem, free1: set<nat>, m2: Mem, free2: set<nat>, root: nat,
                  n0: nat, n1: nat, perm: nat)
    requires Grown(m0, free0, m1, free1, root, n0, n1, perm)
    requires Grown(m1, free1, m2, free2, root, n1, n1 + 1, perm)
    ensures Grown(m0, free0, m2, free2, root, n0, n1 + 1, perm) && Space(m2, root, n1 + 1)
  {
    hide View, GrownView, Took, OwnsUserFrames, LeafKinds, UserCount, Wf;
    SpaceParts(m0, root, n0);
    SpaceParts(m1, root, n1);
    SpaceParts(m2, root, n1 + 1);
    GrownViewSnoc(View(m0, root), View(m1, root), View(m2, root), n0, n1, perm);
    TookTransitive(m0, free0, m1, free1, m2, free2, root, n0, n1, n1 + 1);
  }

  /** A guard page. */
  lemma GrowGuard(m: Mem, free: set<nat>, root: nat, n: nat)
    requires Space(m, root, n) && InRam(m)
    requires n + 1 <= MappedCount(m, root, n) + HOLES_MAX
    ensures Grown(m, free, m, free, root, n, n + 1, 0)
    ensures MappedCount(m, root, n + 1) == MappedCount(m, root, n)
  {
    hide View, Wf, OwnsUserFrames, LeafKinds, UserCount, TableFrames, UserFrames;
    SpaceParts(m, root, n);
    AddGuard(m, root, n);
  }

  /** One user leaf more, on values. */
  lemma OneMoreLeaf(view: map<nat, Leaf>, n: nat, l: Leaf)
    requires USER_VPN + n !in view && UserLeaf(l)
    ensures var view2 := view[USER_VPN + n := l];
      && UserFrames(view2, USER_VPN, n + 1) == UserFrames(view, USER_VPN, n) + {l.frame}
      && UserCount(view2, n + 1) == UserCount(view, n) + 1
      && (LeafKinds(view, n) ==> LeafKinds(view2, n + 1))
      && (Distinct(view, USER_VPN, n) && l.frame !in UserFrames(view, USER_VPN, n) ==> Distinct(view2, USER_VPN, n + 1))
  {
    hide UserLeaf, UserFrames, UserCount, LeafKinds, Distinct;
    OneMorePage(view, n, l);
    if LeafKinds(view, n) {
      OneMoreKinds(view, n, l);
    }
    OneMoreFrame(view, n, l);
    if Distinct(view, USER_VPN, n) && l.frame !in UserFrames(view, USER_VPN, n) {
      OneMoreDistinct(view, n, l);
    }
  }

  lemma OneMorePage(view: map<nat, Leaf>, n: nat, l: Leaf)
    requires USER_VPN + n !in view
    ensures UserCount(view[USER_VPN + n := l], n + 1) == UserCount(view, n) + 1
  {
    assert UserPages(view[USER_VPN + n := l], n + 1) == UserPages(view, n) + {USER_VPN + n};
  }

  lemma OneMoreKinds(view: map<nat, Leaf>, n: nat, l: Leaf)
    requires USER_VPN + n !in view && UserLeaf(l) && LeafKinds(view, n)
    ensures LeafKinds(view[USER_VPN + n := l], n + 1)
  {
    hide LeafKind, UserLeaf;
    var view2 := view[USER_VPN + n := l];
    forall v | v in view2
      ensures LeafKind(view2[v], v, n + 1)
    {
      OneMoreKind(if v in view then view[v] else l, v, n, l);
    }
  }

  lemma OneMoreKind(k: Leaf, v: nat, n: nat, l: Leaf)
    requires UserLeaf(l)
    ensures v == USER_VPN + n ==> LeafKind(l, v, n + 1)
    ensures v != USER_VPN + n && LeafKind(k, v, n) ==> LeafKind(k, v, n + 1)
  {
  }

  lemma OneMoreFrame(view: map<nat, Leaf>, n: nat, l: Leaf)
    requires USER_VPN + n !in view && UserLeaf(l)
    ensures UserFrames(view[USER_VPN + n := l], USER_VPN, n + 1) == UserFrames(view, USER_VPN, n) + {l.frame}
  {
    hide UserLeaf;
    var view2, v := view[USER_VPN + n := l], USER_VPN + n;
    var frames2, frames := UserFrames(view2, USER_VPN, n + 1), UserFrames(view, USER_VPN, n);
    assert view2[v].frame in frames2;
    forall f | f in frames2
      ensures f in frames + {l.frame}
    {
      var u :| u in view2 && USER_VPN <= u < USER_VPN + n + 1 && UserLeaf(view2[u]) && view2[u].frame == f;
    }
    forall f | f in frames
      ensures f in frames2
    {
      var u :| u in view && USER_VPN <= u < USER_VPN + n && UserLeaf(view[u]) && view[u].frame == f;
      assert view2[u] == view[u];
    }
  }

  lemma OneMoreDistinct(view: map<nat, Leaf>, n: nat, l: Leaf)
    requires USER_VPN + n !in view && UserLeaf(l)
    requires Distinct(view, USER_VPN, n) && l.frame !in UserFrames(view, USER_VPN, n)
    ensures Distinct(view[USER_VPN + n := l], USER_VPN, n + 1)
  {
    hide UserLeaf;
    var view2 := view[USER_VPN + n := l];
    forall a, b | a in view2 && b in view2 && USER_VPN <= a < b < USER_VPN + n + 1 && UserLeaf(view2[a]) && UserLeaf(view2[b])
      ensures view2[a].frame != view2[b].frame
    {
      if b == USER_VPN + n {
        assert view[a].frame in UserFrames(view, USER_VPN, n);
      }
    }
  }

  /** A page from the allocator mapped at the end of the user part. */
  lemma GrowPage(m0: Mem, free0: set<nat>, m1: Mem, free1: set<nat>, m2: Mem, free2: set<nat>, root: nat,
                 n: nat, page: nat, perm: nat)
    requires Space(m0, root, n) && InRam(m0) && perm != 0 && PermLeaf(WithU(perm)) && PermU(WithU(perm))
    requires Taken(m0, free0, m1, free1, page)
    requires Wf(m1, root) && Mapped(m1, free1, m2, free2, root, USER_VPN + n, page, 1, WithU(perm))
    ensures Space(m2, root, n + 1) && Grown(m0, free0, m2, free2, root, n, n + 1, perm)
  {
    hide *;
    TakenParts(m0, free0, m1, free1, page);
    SpaceParts(m0, root, n);
    GrowPageView(m0, m1, m2, free1, free2, root, n, page, perm);
    MappedGrew(m1, free1, m2, free2, root, USER_VPN + n, page, 1, WithU(perm));
    GrowPageOwns(m0, m1, free1, m2, free2, root, n, page);
    SpaceIs(m2, root, n + 1);
    TookPage(m0, free0, m1, m2, free2, root, n, page, perm);
    GrownIs(m0, free0, m2, free2, root, n, n + 1, perm);
  }

  lemma TakenParts(m0: Mem, free0: set<nat>, m1: Mem, free1: set<nat>, f: nat)
    requires Taken(m0, free0, m1, free1, f)
    ensures m0.Keys !! free0 && f in free0 && f !in m0 && free1 == free0 - {f}
    ensures m1.Keys == m0.Keys + {f} && SameOutside(m0, m1, {})
  {
  }

  lemma SpaceParts(m: Mem, root: nat, n: nat)
    requires Space(m, root, n)
    ensures Wf(m, root) && root in m
    ensures LeafKinds(View(m, root), n) && OwnsUserFrames(m, root, USER_VPN, n)
    ensures n <= UserCount(View(m, root), n) + HOLES_MAX
    ensures Distinct(View(m, root), USER_VPN, n)
    ensures UserFrames(View(m, root), USER_VPN, n) <= m.Keys - TableFrames(m, root)
  {
  }

  lemma SpaceIs(m: Mem, root: nat, n: nat)
    requires Wf(m, root)
    requires LeafKinds(View(m, root), n) && OwnsUserFrames(m, root, USER_VPN, n)
    requires n <= UserCount(View(m, root), n) + HOLES_MAX
    ensures Space(m, root, n)
  {
  }

  lemma GrownIs(m0: Mem, free0: set<nat>, m1: Mem, free1: set<nat>, root: nat, n0: nat, n1: nat, perm: nat)
    requires Space(m0, root, n0) && Space(m1, root, n1) && Wf(m0, root) && Wf(m1, root) && root in m0 && root in m1
    requires GrownView(View(m0, root), View(m1, root), n0, n1, perm)
    requires Took(m0, free0, m1, free1, root, n0, n1)
    ensures Grown(m0, free0, m1, free1, root, n0, n1, perm)
  {
  }

  lemma MappedGrew(m1: Mem, free1: set<nat>, m2: Mem, free2: set<nat>, root: nat, v: nat, frame: nat, n: nat, perm: nat)
    requires Wf(m1, root) && Mapped(m1, free1, m2, free2, root, v, frame, n, perm)
    ensures Wf(m2, root) && TableGrew(m1, free1, m2, free2, root)
    ensures View(m2, root) == View(m1, root) + Range(v, frame, n, perm)
  {
  }

  lemma GrowPageView(m0: Mem, m1: Mem, m2: Mem, free1: set<nat>, free2: set<nat>, root: nat, n: nat, page: nat, perm: nat)
    requires Space(m0, root, n) && InRam(m0) && perm != 0 && PermLeaf(WithU(perm)) && PermU(WithU(perm))
    requires page !in m0 && m1.Keys == m0.Keys + {page} && SameOutside(m0, m1, {})
    requires Wf(m1, root) && Mapped(m1, free1, m2, free2, root, USER_VPN + n, page, 1, WithU(perm))
    ensures root in m0 && root in m1 && root in m2 && Wf(m2, root)
    ensures Tables(m1, root) == Tables(m0, root)
    ensures GrownView(View(m0, root), View(m2, root), n, n + 1, perm)
    ensures LeafKinds(View(m2, root), n + 1) && Distinct(View(m2, root), USER_VPN, n + 1)
    ensures UserFrames(View(m2, root), USER_VPN, n + 1) == UserFrames(View(m0, root), USER_VPN, n) + {page}
    ensures UserCount(View(m2, root), n + 1) == UserCount(View(m0, root), n) + 1
  {
    hide View, Wf, Tables, TableGrew, UserLeaf, PermU, PermLeaf, UserCount, LeafKinds, UserFrames, WithU, Range,
         Pages, Mapped, Distinct, TableFrames, SameOutside;
    EndUnmapped(m0, root, n);
    AfterAlloc(m0, m1, root);
    MappedGrew(m1, free1, m2, free2, root, USER_VPN + n, page, 1, WithU(perm));
    RootSlot(m2, root, 0);
    var view, l := View(m0, root), Leaf(page, WithU(perm));
    RangeOne(view, USER_VPN + n, page, WithU(perm));
    UserLeafIs(l);
    OneMoreLeaf(view, n, l);
    PagesOne(USER_VPN + n);
    assert View(m2, root) == view[USER_VPN + n := l];
  }

  /** The new page and the old ones are owned: no table frame is among them. */
  lemma GrowPageOwns(m0: Mem, m1: Mem, free1: set<nat>, m2: Mem, free2: set<nat>, root: nat, n: nat, page: nat)
    requires Wf(m0, root) && Wf(m1, root) && Wf(m2, root) && root in m0 && root in m1 && root in m2
    requires OwnsUserFrames(m0, root, USER_VPN, n)
    requires page !in m0 && m1.Keys == m0.Keys + {page} && TableGrew(m1, free1, m2, free2, root)
    requires Tables(m1, root) == Tables(m0, root)
    requires UserFrames(View(m2, root), USER_VPN, n + 1) == UserFrames(View(m0, root), USER_VPN, n) + {page}
    requires Distinct(View(m2, root), USER_VPN, n + 1)
    ensures OwnsUserFrames(m2, root, USER_VPN, n + 1)
  {
    hide Wf, View, Tables, UserFrames, Distinct, SameOutside;
    if page in TableFrames(m0, root) {
      TableFrameIn(m0, root, page);
    }
  }

  lemma UserLeafIs(l: Leaf)
    requires PermLeaf(l.perm) && PermU(l.perm)
    ensures UserLeaf(l)
  {
  }

  /** An allocation does not disturb a table. */
  lemma AfterAlloc(m0: Mem, m1: Mem, root: nat)
    requires Wf(m0, root) && m0.Keys <= m1.Keys && SameOutside(m0, m1, {})
    ensures Wf(m1, root) && root in m0 && Tables(m1, root) == Tables(m0, root) && View(m1, root) == View(m0, root)
  {
    forall f | f in TableFrames(m0, root)
      ensures f in m0
    {
      TableFrameIn(m0, root, f);
    }
    FrameTable(m0, m1, root);
  }

  lemma RangeOne(view: map<nat, Leaf>, v: nat, frame: nat, perm: nat)
    ensures view + Range(v, frame, 1, perm) == view[v := Leaf(frame, perm)]
  {
    RangeEmpty(view, v, frame, perm);
    RangeSnoc(view, v, frame, 0, perm);
  }

  lemma TookPage(m0: Mem, free0: set<nat>, m1: Mem, m2: Mem, free2: set<nat>, root: nat,
                 n: nat, page: nat, perm: nat)
    requires Wf(m0, root) && Wf(m1, root) && Wf(m2, root) && root in m0 && root in m1 && root in m2
    requires Tables(m1, root) == Tables(m0, root) && TableGrew(m1, free0 - {page}, m2, free2, root)
    requires page !in m0 && page in free0 && m1.Keys == m0.Keys + {page} && SameOutside(m0, m1, {})
    requires m0.Keys !! free0
    requires UserFrames(View(m2, root), USER_VPN, n + 1) == UserFrames(View(m0, root), USER_VPN, n) + {page}
    ensures Took(m0, free0, m2, free2, root, n, n + 1)
  {
    hide Wf, View, Tables, UserFrames;
  }

  lemma WithUFacts(perm: nat)
    requires PermBits(perm) && PermLeaf(perm)
    ensures perm != 0 && PermBits(WithU(perm)) && PermLeaf(WithU(perm)) && PermU(WithU(perm))
    ensures PermR(WithU(perm)) == PermR(perm) && PermW(WithU(perm)) == PermW(perm) && PermX(WithU(perm)) == PermX(perm)
  {
  }

  /** One of the two kernel pages mapped (`k` 1), or the table grown without mapping it (`k` 0). */
  lemma MapKernelPage(m0: Mem, free0: set<nat>, m1: Mem, free1: set<nat>, root: nat, n: nat,
                      v: nat, frame: nat, k: nat, perm: nat)
    requires Space(m0, root, n) && InRam(m0) && m0.Keys !! free0 && k <= 1
    requires v == TRAMPOLINE_VPN || v == TRAPFRAME_VPN
    requires PermLeaf(perm) && !PermU(perm)
    requires Mapped(m0, free0, m1, free1, root, v, frame, k, perm)
    ensures Space(m1, root, n) && Took(m0, free0, m1, free1, root, n, n)
    ensures View(m1, root) == if k == 1 then View(m0, root)[v := Leaf(frame, perm)] else View(m0, root)
  {
    hide View, Wf, LeafKinds, UserFrames, UserCount, Distinct, PermLeaf, PermU, Range, Mapped, TableGrew, Took,
         OwnsUserFrames, TableFrames;
    SpaceParts(m0, root, n);
    SpaceBound(m0, root, n);
    MappedGrew(m0, free0, m1, free1, root, v, frame, k, perm);
    RootSlot(m1, root, 0);
    if k == 1 {
      RangeOne(View(m0, root), v, frame, perm);
      KernelLeaf(View(m0, root), n, v, Leaf(frame, perm));
    } else {
      RangeEmpty(View(m0, root), v, frame, perm);
    }
    TookTables(m0, free0, m1, free1, root, n);
  }

  /** A kernel leaf above the user part. */
  lemma KernelLeaf(view: map<nat, Leaf>, n: nat, v: nat, l: Leaf)
    requires LeafKinds(view, n) && USER_VPN + n <= v && (v == TRAMPOLINE_VPN || v == TRAPFRAME_VPN)
    requires PermLeaf(l.perm) && !PermU(l.perm)
    ensures LeafKinds(view[v := l], n)
    ensures UserCount(view[v := l], n) == UserCount(view, n)
    ensures UserFrames(view[v := l], USER_VPN, n) == UserFrames(view, USER_VPN, n)
    ensures Distinct(view, USER_VPN, n) ==> Distinct(view[v := l], USER_VPN, n)
  {
    KernelKinds(view, n, v, l);
    KernelCount(view, n, v, l);
    KernelFrames(view, n, v, l);
    hide LeafKinds, UserCount, UserFrames, UserLeaf;
  }

  lemma KernelKinds(view: map<nat, Leaf>, n: nat, v: nat, l: Leaf)
    requires LeafKinds(view, n) && LeafKind(l, v, n)
    ensures LeafKinds(view[v := l], n)
  {
    hide LeafKind;
    var view2 := view[v := l];
    forall u | u in view2
      ensures LeafKind(view2[u], u, n)
    {
      assert u != v ==> LeafKind(view[u], u, n);
    }
  }

  lemma KernelCount(view: map<nat, Leaf>, n: nat, v: nat, l: Leaf)
    requires !InUser(v, n)
    ensures UserCount(view[v := l], n) == UserCount(view, n)
  {
    assert UserPages(view[v := l], n) == UserPages(view, n);
  }

  lemma KernelFrames(view: map<nat, Leaf>, n: nat, v: nat, l: Leaf)
    requires !InUser(v, n)
    ensures UserFrames(view[v := l], USER_VPN, n) == UserFrames(view, USER_VPN, n)
    ensures Distinct(view, USER_VPN, n) ==> Distinct(view[v := l], USER_VPN, n)
  {
    hide UserLeaf;
    var view2 := view[v := l];
    var frames, frames2 := UserFrames(view, USER_VPN, n), UserFrames(view2, USER_VPN, n);
    forall f | f in frames
      ensures f in frames2
    {
      var u :| u in view && USER_VPN <= u < USER_VPN + n && UserLeaf(view[u]) && view[u].frame == f;
      assert view2[u] == view[u];
    }
  }

  /** Growing only the table keeps the user part and its frames. */
  lemma TookTables(m0: Mem, free0: set<nat>, m1: Mem, free1: set<nat>, root: nat, n: nat)
    requires Wf(m0, root) && Wf(m1, root) && root in m0 && root in m1
    requires TableGrew(m0, free0, m1, free1, root)
    requires UserFrames(View(m1, root), USER_VPN, n) == UserFrames(View(m0, root), USER_VPN, n)
    requires OwnsUserFrames(m0, root, USER_VPN, n) && Distinct(View(m1, root), USER_VPN, n)
    ensures Took(m0, free0, m1, free1, root, n, n) && OwnsUserFrames(m1, root, USER_VPN, n)
  {
    hide View, Wf, Tables, UserFrames, Distinct;
  }

  // ----- shrinking and dropping -----

  /** Frames given back by an address space whose tables stay. */
  ghost predicate Gave(m0: Mem, free0: set<nat>, m1: Mem, free1: set<nat>, root: nat, frames: set<nat>) {
    && Wf(m0, root) && Wf(m1, root) && root in m0 && root in m1
    && Tables(m1, root) == Tables(m0, root)
    && frames <= m0.Keys - TableFrames(m0, root)
    && m1.Keys == m0.Keys - frames && free1 == free0 + frames
    && SameOutside(m0, m1, TableFrames(m0, root) + frames)
  }

  lemma GaveTransitive(m0: Mem, free0: set<nat>, m1: Mem, free1: set<nat>, m2: Mem, free2: set<nat>, root: nat,
                       f1: set<nat>, f2: set<nat>)
    requires Gave(m0, free0, m1, free1, root, f1) && Gave(m1, free1, m2, free2, root, f2)
    ensures Gave(m0, free0, m2, free2, root, f1 + f2)
  {
    hide Wf, Tables;
  }

  /** The user part cut to its first `k` pages. */
  lemma CutUser(m0: Mem, free0: set<nat>, m1: Mem, free1: set<nat>, root: nat, k: nat, n: nat)
    requires Space(m0, root, n) && k <= n
    requires Unmapped(m0, free0, m1, free1, root, USER_VPN + k, n - k, true)
    ensures Space(m1, root, k) && View(m1, root) == View(m0, root) - Pages(USER_VPN + k, n - k)
    ensures Gave(m0, free0, m1, free1, root, UserFrames(View(m0, root), USER_VPN + k, n - k))
    ensures UserFrames(View(m1, root), USER_VPN, k) == UserFrames(View(m0, root), USER_VPN, k)
  {
    hide View, Wf, LeafKinds, UserFrames, UserCount, Distinct, Pages, Tables;
    SpaceParts(m0, root, n);
    UnmappedRoot(m0, free0, m1, free1, root, USER_VPN + k, n - k, true);
    CutView(View(m0, root), k, n);
  }

  lemma UnmappedRoot(m0: Mem, free0: set<nat>, m1: Mem, free1: set<nat>, root: nat, v: nat, n: nat, free: bool)
    requires Unmapped(m0, free0, m1, free1, root, v, n, free)
    ensures Wf(m0, root) && Wf(m1, root) && root in m0 && root in m1
  {
    RootSlot(m0, root, 0);
    RootSlot(m1, root, 0);
  }

  lemma CutView(view: map<nat, Leaf>, k: nat, n: nat)
    requires LeafKinds(view, n) && k <= n
    ensures var cut := view - Pages(USER_VPN + k, n - k);
      && LeafKinds(cut, k)
      && UserFrames(cut, USER_VPN, k) == UserFrames(view, USER_VPN, k)
      && (Distinct(view, USER_VPN, n) ==> Distinct(cut, USER_VPN, k))
      && UserCount(view, n) <= UserCount(cut, k) + (n - k)
      && UserFrames(view, USER_VPN, n) == UserFrames(cut, USER_VPN, k) + UserFrames(view, USER_VPN + k, n - k)
      && (Distinct(view, USER_VPN, n) ==> UserFrames(cut, USER_VPN, k) !! UserFrames(view, USER_VPN + k, n - k))
  {
    hide LeafKinds, UserFrames, Distinct, UserCount, Pages;
    CutKinds(view, k, n);
    CutFrames(view, k, n);
    CutCount(view, k, n);
  }

  lemma CutKinds(view: map<nat, Leaf>, k: nat, n: nat)
    requires LeafKinds(view, n) && k <= n
    ensures LeafKinds(view - Pages(USER_VPN + k, n - k), k)
  {
    hide UserLeaf, Pages;
    var cut := view - Pages(USER_VPN + k, n - k);
    forall v | v in cut
      ensures LeafKind(cut[v], v, k)
    {
      PagesHas(USER_VPN + k, n - k, v);
      assert LeafKind(view[v], v, n);
    }
  }

  lemma CutFrames(view: map<nat, Leaf>, k: nat, n: nat)
    requires k <= n
    ensures var cut := view - Pages(USER_VPN + k, n - k);
      && UserFrames(cut, USER_VPN, k) == UserFrames(view, USER_VPN, k)
      && (Distinct(view, USER_VPN, n) ==> Distinct(cut, USER_VPN, k))
      && UserFrames(view, USER_VPN, n) == UserFrames(cut, USER_VPN, k) + UserFrames(view, USER_VPN + k, n - k)
      && (Distinct(view, USER_VPN, n) ==> UserFrames(cut, USER_VPN, k) !! UserFrames(view, USER_VPN + k, n - k))
  {
    hide UserLeaf, Pages;
    var cut := view - Pages(USER_VPN + k, n - k);
    forall v: nat
      ensures v in view && USER_VPN <= v < USER_VPN + k ==> v in cut
    {
      PagesHas(USER_VPN + k, n - k, v);
    }
    var frames := UserFrames(view, USER_VPN, n);
    var low, high := UserFrames(cut, USER_VPN, k), UserFrames(view, USER_VPN + k, n - k);
    forall f | f in frames
      ensures f in low + high
    {
      var u :| u in view && USER_VPN <= u < USER_VPN + n && UserLeaf(view[u]) && view[u].frame == f;
      if u < USER_VPN + k {
        assert u in cut;
      }
    }
    if Distinct(view, USER_VPN, n) {
      forall f, g | f in low && g in high
        ensures f != g
      {
        var u :| u in cut && USER_VPN <= u < USER_VPN + k && UserLeaf(cut[u]) && cut[u].frame == f;
        var w :| w in view && USER_VPN + k <= w < USER_VPN + n && UserLeaf(view[w]) && view[w].frame == g;
        assert view[u].frame != view[w].frame;
      }
    }
  }

  lemma CutCount(view: map<nat, Leaf>, k: nat, n: nat)
    requires k <= n
    ensures UserCount(view, n) <= UserCount(view - Pages(USER_VPN + k, n - k), k) + (n - k)
  {
    hide Pages;
    var cut := view - Pages(USER_VPN + k, n - k);
    var above := Interval(USER_VPN + k, USER_VPN + n);
    var low := UserPages(cut, k);
    forall v | v in UserPages(view, n)
      ensures v in low + above
    {
      PagesHas(USER_VPN + k, n - k, v);
    }
    SubsetSize(UserPages(view, n), low + above);
  }

  /** One of the two kernel pages unmapped. */
  lemma UnmapKernelPage(m0: Mem, free0: set<nat>, m1: Mem, free1: set<nat>, root: nat, n: nat, v: nat)
    requires Space(m0, root, n) && InRam(m0) && (v == TRAMPOLINE_VPN || v == TRAPFRAME_VPN)
    requires Unmapped(m0, free0, m1, free1, root, v, 1, false)
    ensures Space(m1, root, n) && Gave(m0, free0, m1, free1, root, {})
    ensures View(m1, root) == View(m0, root) - {v}
    ensures UserFrames(View(m1, root), USER_VPN, n) == UserFrames(View(m0, root), USER_VPN, n)
  {
    hide View, Wf, LeafKinds, UserFrames, UserCount, Distinct, Pages, Tables;
    SpaceParts(m0, root, n);
    SpaceBound(m0, root, n);
    UnmappedRoot(m0, free0, m1, free1, root, v, 1, false);
    PagesOne(v);
    DropKernelLeaf(View(m0, root), n, v);
  }

  lemma DropKernelLeaf(view: map<nat, Leaf>, n: nat, v: nat)
    requires !InUser(v, n)
    ensures LeafKinds(view, n) ==> LeafKinds(view - {v}, n)
    ensures UserCount(view - {v}, n) == UserCount(view, n)
    ensures UserFrames(view - {v}, USER_VPN, n) == UserFrames(view, USER_VPN, n)
    ensures Distinct(view, USER_VPN, n) ==> Distinct(view - {v}, USER_VPN, n)
  {
    hide UserLeaf, LeafKind;
    var low := view - {v};
    assert UserPages(low, n) == UserPages(view, n);
    var frames, frames2 := UserFrames(view, USER_VPN, n), UserFrames(low, USER_VPN, n);
    forall f | f in frames
      ensures f in frames2
    {
      var u :| u in view && USER_VPN <= u < USER_VPN + n && UserLeaf(view[u]) && view[u].frame == f;
      assert u in low;
    }
  }

  /** With the user part cut to nothing and both kernel pages gone, nothing is mapped. */
  lemma AllUnmapped(m: Mem, root: nat)
    requires Space(m, root, 0)
    requires TRAMPOLINE_VPN !in View(m, root) && TRAPFRAME_VPN !in View(m, root)
    ensures View(m, root) == map[] && AllLeaves(m, root)
  {
    hide View, Wf, LeafKinds;
    var view := View(m, root);
    forall v | v in view
      ensures false
    {
      KernelPageOnly(view, v);
    }
  }

  lemma KernelPageOnly(view: map<nat, Leaf>, v: nat)
    requires LeafKinds(view, 0) && v in view
    ensures v == TRAMPOLINE_VPN || v == TRAPFRAME_VPN
  {
    hide UserLeaf, PermU, PermLeaf;
    assert LeafKind(view[v], v, 0);
  }

  // ----- contents -----

  /** An address space depends on nothing but its own frames. */
  lemma FrameSpace(m0: Mem, m1: Mem, root: nat, n: nat)
    requires Space(m0, root, n) && root in m0
    requires forall f | f in Footprint(m0, root, n) :: f in m1 && m1[f] == m0[f]
    ensures Space(m1, root, n) && root in m1 && View(m1, root) == View(m0, root)
    ensures Tables(m1, root) == Tables(m0, root) && Footprint(m1, root, n) == Footprint(m0, root, n)
  {
    hide View, Wf, LeafKinds, UserFrames, UserCount, Distinct, Tables;
    FrameTable(m0, m1, root);
  }

  /** Storing into a frame that is no part of the table changes what the page holds and
      nothing about the address space. */
  lemma StoreFrame(m: Mem, root: nat, n: nat, f: nat, p: Page)
    requires Space(m, root, n) && root in m && f in UserFrames(View(m, root), USER_VPN, n)
    ensures var m1 := m[f := p];
      && Space(m1, root, n) && root in m1 && View(m1, root) == View(m, root)
      && Tables(m1, root) == Tables(m, root)
  {
    hide View, Wf, LeafKinds, UserFrames, UserCount, Distinct, Tables;
    forall g | g in TableFrames(m, root)
      ensures g in m
    {
      TableFrameIn(m, root, g);
    }
    FrameTable(m, m[f := p], root);
  }

  /** The frame behind a mapped user page is handed out and owned. */
  lemma UserPageFrame(m: Mem, root: nat, n: nat, v: nat)
    requires Space(m, root, n) && v in View(m, root) && InUser(v, n)
    ensures UserLeaf(View(m, root)[v])
    ensures View(m, root)[v].frame in UserFrames(View(m, root), USER_VPN, n)
    ensures View(m, root)[v].frame in m && root in m && View(m, root)[v].frame !in TableFrames(m, root)
  {
    hide View, Wf, UserLeaf, UserCount, Distinct, Tables;
    SpaceParts(m, root, n);
    assert LeafKind(View(m, root)[v], v, n);
  }

  /** Different user pages are backed by different frames. */
  lemma UserPagesDiffer(m: Mem, root: nat, n: nat, a: nat, b: nat)
    requires Space(m, root, n) && a in View(m, root) && b in View(m, root) && InUser(a, n) && InUser(b, n) && a != b
    ensures View(m, root)[a].frame != View(m, root)[b].frame
  {
    hide View, Wf, UserLeaf, UserCount, Tables, TableFrames, UserFrames;
    SpaceParts(m, root, n);
    assert LeafKind(View(m, root)[a], a, n) && LeafKind(View(m, root)[b], b, n);
    assert a < b || b < a;
  }
}
