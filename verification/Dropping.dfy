/** The drop of an address space, one access to memory at a time.  `kexec` does it with interrupts on,
    so other processes may run between any two of these. */
module Dropping {
  import opened Ram
  import opened TableView
  import opened PageTables
  import opened Spaces
  import opened AddressSpaces
  import opened Ownership
  import opened Options

  /** How far it has come: `at` is the next step of `kexec`, 8 when the trampoline is unmapped, 9 when
      the trapframe is too, 10 when no page is left; the first `page` user pages are unmapped, and
      the frame of the next one has gone back if `freed`. */
  datatype Drop = Drop(at: nat, page: nat, freed: bool)

  /** The first user page whose frame has not gone back. */
  function Low(d: Drop): nat {
    d.page + if d.freed then 1 else 0
  }

  /** What is left of the address space of `n` pages at `root`. */
  ghost predicate Remains(m: Mem, root: nat, n: nat, d: Drop) {
    && Wf(m, root) && root in m && LeafKinds(View(m, root), n) && USER_VPN + n + 1 < TRAPFRAME_VPN
    && TRAMPOLINE_VPN !in View(m, root)
    && (if d.at == 8 then Space(m, root, n) && d.page == 0 && !d.freed else TRAPFRAME_VPN !in View(m, root))
    && Low(d) <= n && (d.at == 10 ==> d.page == n) && (d.freed ==> USER_VPN + d.page in View(m, root))
    && NoneBelow(View(m, root), n, d.page)
    && OwnsUserFrames(m, root, USER_VPN + Low(d), n - Low(d))
  }

  ghost predicate NoneBelow(view: map<nat, Leaf>, n: nat, page: nat) {
    forall v: nat | v in view && InUser(v, n) :: USER_VPN + page <= v
  }

  /** The frames it still has. */
  ghost function Rest(m: Mem, root: nat, n: nat, low: nat): set<nat> {
    if Wf(m, root) && root in m && low <= n then TableFrames(m, root) + UserFrames(View(m, root), USER_VPN + low, n - low)
    else {}
  }

  lemma RestIn(m: Mem, root: nat, n: nat, d: Drop)
    requires Remains(m, root, n, d)
    ensures Wf(m, root) && root in m && root in Rest(m, root, n, Low(d)) && Rest(m, root, n, Low(d)) <= m.Keys
  {
    hide View, Tables, UserFrames, LeafKinds, Space, Distinct;
    forall f | f in TableFrames(m, root)
      ensures f in m
    {
      TableFrameIn(m, root, f);
    }
  }

  /** Others leave it alone. */
  lemma RemainsKept(m0: Mem, m1: Mem, root: nat, n: nat, d: Drop)
    requires Remains(m0, root, n, d) && Kept(m0, m1, Rest(m0, root, n, Low(d)))
    ensures Remains(m1, root, n, d) && Rest(m1, root, n, Low(d)) == Rest(m0, root, n, Low(d))
  {
    hide View, Wf, Tables, UserFrames, LeafKinds, Distinct, Space, NoneBelow;
    FrameTable(m0, m1, root);
    if d.at == 8 {
      FrameSpace(m0, m1, root, n);
    }
  }

  // ----- the two kernel pages -----

  lemma StartDrop(m0: Mem, free0: set<nat>, m1: Mem, free1: set<nat>, root: nat, n: nat)
    requires Space(m0, root, n) && InRam(m0) && m0.Keys !! free0
    requires Unmapped(m0, free0, m1, free1, root, TRAMPOLINE_VPN, 1, false)
    ensures Remains(m1, root, n, Drop(8, 0, false))
    ensures Confined(m0, free0, m1, free1, Frames(m0, root, n), Rest(m1, root, n, 0))
  {
    hide View, Wf, LeafKinds, Distinct, Tables, UserFrames, UserCount, Frames, Space, Unmapped;
    SpaceBound(m0, root, n);
    SpaceParts(m0, root, n);
    FramesIn(m0, root, n);
    UnmapKernelPage(m0, free0, m1, free1, root, n, TRAMPOLINE_VPN);
    SpaceParts(m1, root, n);
  }

  lemma GoOnDrop(m0: Mem, free0: set<nat>, m1: Mem, free1: set<nat>, root: nat, n: nat)
    requires Remains(m0, root, n, Drop(8, 0, false)) && InRam(m0) && m0.Keys !! free0
    requires Unmapped(m0, free0, m1, free1, root, TRAPFRAME_VPN, 1, false)
    ensures Remains(m1, root, n, Drop(9, 0, false))
    ensures Confined(m0, free0, m1, free1, Rest(m0, root, n, 0), Rest(m1, root, n, 0))
  {
    hide View, Wf, LeafKinds, Distinct, Tables, UserFrames, UserCount, Space, Unmapped;
    RestIn(m0, root, n, Drop(8, 0, false));
    UnmapKernelPage(m0, free0, m1, free1, root, n, TRAPFRAME_VPN);
    SpaceParts(m1, root, n);
  }

  // ----- one user page -----

  /** A user page that is not mapped is passed over. */
  lemma PassPage(m: Mem, root: nat, n: nat, page: nat)
    requires Remains(m, root, n, Drop(9, page, false)) && page < n && USER_VPN + page !in View(m, root)
    ensures Remains(m, root, n, Drop(9, page + 1, false))
    ensures Rest(m, root, n, page + 1) == Rest(m, root, n, page)
  {
    hide View, Wf, Tables, UserLeaf, LeafKinds, TableFrames;
    FramesFrom(View(m, root), n, page);
  }

  lemma FramesFrom(view: map<nat, Leaf>, n: nat, page: nat)
    requires page < n
    ensures var lo, hi := UserFrames(view, USER_VPN + page, n - page), UserFrames(view, USER_VPN + page + 1, n - page - 1);
      && hi <= lo
      && (USER_VPN + page !in view ==> hi == lo)
      && (USER_VPN + page in view && UserLeaf(view[USER_VPN + page]) ==> lo == hi + {view[USER_VPN + page].frame})
      && (USER_VPN + page in view && UserLeaf(view[USER_VPN + page]) && Distinct(view, USER_VPN + page, n - page) ==>
            view[USER_VPN + page].frame !in hi)
    ensures Distinct(view, USER_VPN + page, n - page) ==> Distinct(view, USER_VPN + page + 1, n - page - 1)
  {
    hide UserLeaf;
  }

  /** Its frame goes back first. */
  lemma GiveBackFrame(m: Mem, free: set<nat>, root: nat, n: nat, page: nat)
    requires Remains(m, root, n, Drop(9, page, false)) && page < n && m.Keys !! free && USER_VPN + page in View(m, root)
    ensures UserLeaf(View(m, root)[USER_VPN + page]) && View(m, root)[USER_VPN + page].frame in m
    ensures var f := View(m, root)[USER_VPN + page].frame;
      && Remains(m - {f}, root, n, Drop(9, page, true))
      && Confined(m, free, m - {f}, free + {f}, Rest(m, root, n, page), Rest(m - {f}, root, n, page + 1))
  {
    hide View, Wf, Tables, UserLeaf, TableFrames, UserFrames, Distinct;
    RestIn(m, root, n, Drop(9, page, false));
    var view, v := View(m, root), USER_VPN + page;
    assert LeafKind(view[v], v, n);
    var f := view[v].frame;
    FramesFrom(view, n, page);
    DropFrame(m, root, f);
  }

  /** Then its entry is cleared. */
  lemma ClearEntry(m: Mem, free: set<nat>, m1: Mem, root: nat, n: nat, page: nat)
    requires Remains(m, root, n, Drop(9, page, true)) && page < n && m.Keys !! free
    requires m[root][(USER_VPN + page) / 1024] != 0
    requires var t := PtePpn(m[root][(USER_VPN + page) / 1024]);
      t in m && m1 == m[t := m[t][(USER_VPN + page) % 1024 := 0]]
    ensures Remains(m1, root, n, Drop(9, page + 1, false))
    ensures Confined(m, free, m1, free, Rest(m, root, n, page + 1), Rest(m1, root, n, page + 1))
  {
    hide View, Wf, Tables, UserLeaf, UserFrames, Distinct, LeafKinds, PtePpn;
    RestIn(m, root, n, Drop(9, page, true));
    var view, v := View(m, root), USER_VPN + page;
    assert LeafEntryOk(0);
    SetLeaf(m, m1, free, root, v, 0);
    ClearedFrames(view, n, page);
  }

  lemma ClearedFrames(view: map<nat, Leaf>, n: nat, page: nat)
    requires page < n && LeafKinds(view, n)
    ensures var cut := view - {USER_VPN + page};
      && LeafKinds(cut, n)
      && UserFrames(cut, USER_VPN + page + 1, n - page - 1) == UserFrames(view, USER_VPN + page + 1, n - page - 1)
      && (Distinct(view, USER_VPN + page + 1, n - page - 1) ==> Distinct(cut, USER_VPN + page + 1, n - page - 1))
  {
    hide UserLeaf, LeafKind;
    var cut := view - {USER_VPN + page};
    var lo, hi := UserFrames(cut, USER_VPN + page + 1, n - page - 1), UserFrames(view, USER_VPN + page + 1, n - page - 1);
    forall f | f in hi
      ensures f in lo
    {
      var u :| u in view && USER_VPN + page + 1 <= u < USER_VPN + n && UserLeaf(view[u]) && view[u].frame == f;
      assert u in cut;
    }
  }

  // ----- the table -----

  /** With all pages gone nothing is mapped, and the frames left are the tables. */
  lemma NothingRemains(m: Mem, root: nat, n: nat)
    requires Remains(m, root, n, Drop(9, n, false))
    ensures View(m, root) == map[] && AllLeaves(m, root) && Remains(m, root, n, Drop(10, n, false))
  {
    hide View, Wf, Tables, UserFrames, Distinct;
    NoPages(View(m, root), n);
  }

  lemma NoPages(view: map<nat, Leaf>, n: nat)
    requires LeafKinds(view, n) && NoneBelow(view, n, n) && KernelPagesFree(view)
    ensures view == map[]
  {
    hide UserLeaf;
    assert forall v | v in view :: LeafKind(view[v], v, n);
    assert view.Keys == {};
  }

  /** The root goes back; the level-0 tables stay behind, nobody's. */
  lemma RootGoes(m: Mem, free: set<nat>, root: nat, n: nat)
    requires Remains(m, root, n, Drop(10, n, false)) && m.Keys !! free
    ensures root in m && Confined(m, free, m - {root}, free + {root}, Rest(m, root, n, n), {})
  {
    hide View, Wf, Tables, UserFrames;
    RestIn(m, root, n, Drop(10, n, false));
  }

  // ----- the code -----

  /** What comes next. */
  function Then(d: Drop, n: nat, mapped: bool): Drop {
    if d.at == 8 then Drop(9, 0, false)
    else if d.page == n then Drop(10, n, false)
    else if d.freed || !mapped then Drop(9, d.page + 1, false)
    else Drop(9, d.page, true)
  }

  /** `unmap` of the trampoline, where the drop begins. */
  method BeginDrop(pt: PageTable, ghost n: nat)
    requires pt.ram.Valid() && Space(pt.ram.mem, pt.root, n)
    modifies pt.ram
    ensures pt.ram.Valid() && Remains(pt.ram.mem, pt.root, n, Drop(8, 0, false))
    ensures Confined(old(pt.ram.mem), old(pt.ram.free), pt.ram.mem, pt.ram.free,
                     old(Frames(pt.ram.mem, pt.root, n)), Rest(pt.ram.mem, pt.root, n, 0))
  {
    hide Space, View, Wf, Unmapped, Remains, Frames, Rest, Confined, InRam;
    ghost var m0, free0 := pt.ram.mem, pt.ram.free;
    SpaceParts(m0, pt.root, n);
    RamFrames(pt.ram);
    var r := pt.Unmap(TRAMPOLINE, PAGESIZE, false);
    StartDrop(m0, free0, pt.ram.mem, pt.ram.free, pt.root, n);
  }

  /** The next access to memory, of the trapframe's entry or in the loop over the user part. */
  method DropPart(pt: PageTable, d: Drop, n: nat) returns (r: Drop)
    requires pt.ram.Valid() && Remains(pt.ram.mem, pt.root, n, d) && d.at in {8, 9}
    modifies pt.ram
    ensures pt.ram.Valid() && Remains(pt.ram.mem, pt.root, n, r)
    ensures r == Then(d, n, old(Wf(pt.ram.mem, pt.root) && USER_VPN + d.page in View(pt.ram.mem, pt.root)))
    ensures Confined(old(pt.ram.mem), old(pt.ram.free), pt.ram.mem, pt.ram.free,
                     old(Rest(pt.ram.mem, pt.root, n, Low(d))), Rest(pt.ram.mem, pt.root, n, Low(r)))
  {
    hide View, Wf, Unmapped, Remains, Rest, Confined, InRam, Memory.Valid, AllLeaves;
    ghost var m0, free0 := pt.ram.mem, pt.ram.free;
    DropParts(pt.ram, pt.root, n, d);
    if d.at == 8 {
      var u := pt.Unmap(TRAPFRAME, PAGESIZE, false);
      GoOnDrop(m0, free0, pt.ram.mem, pt.ram.free, pt.root, n);
      r := Drop(9, 0, false);
    } else if d.page == n {
      NothingRemains(m0, pt.root, n);
      RestSame(pt.ram, pt.root, n, d);
      var panicked := pt.FreeReq(pt.root, 1);
      assert !panicked;
      r := Drop(10, n, false);
    } else {
      r := DropPage(pt, d, n);
    }
  }

  /** One turn of `unmap`'s loop, in two parts: first the frame goes back, then the entry is cleared. */
  method DropPage(pt: PageTable, d: Drop, n: nat) returns (r: Drop)
    requires pt.ram.Valid() && Remains(pt.ram.mem, pt.root, n, d) && d.at == 9 && d.page < n
    modifies pt.ram
    ensures pt.ram.Valid() && Remains(pt.ram.mem, pt.root, n, r)
    ensures r == Then(d, n, old(Wf(pt.ram.mem, pt.root) && USER_VPN + d.page in View(pt.ram.mem, pt.root)))
    ensures Confined(old(pt.ram.mem), old(pt.ram.free), pt.ram.mem, pt.ram.free,
                     old(Rest(pt.ram.mem, pt.root, n, Low(d))), Rest(pt.ram.mem, pt.root, n, Low(r)))
  {
    hide View, Wf, Remains, Rest, Confined, Memory.Valid, PteV, PteR, PteW, PteX, PteU, PtePpn, PermR, PermW, PermX,
         PermU, PermLeaf, TableGrew, Tables;
    ghost var m0: Mem, free0 := pt.ram.mem, pt.ram.free;
    DropParts(pt.ram, pt.root, n, d);
    var va := (USER_VPN + d.page) * PAGESIZE;
    ghost var v := USER_VPN + d.page;
    assert va / PAGESIZE == v && va <= USIZE_MAX;
    RootSlot(m0, pt.root, v);
    LeafSlot(m0, pt.root, v);
    var walked := pt.Walk(va, false);
    r := Drop(9, d.page + 1, false);
    if walked.Some? {
      var (t, j) := walked.value;
      var pte := pt.ram.mem[t][j];
      if d.freed {
        pt.ram.WriteWord(t, j, 0);
        ClearEntry(m0, free0, pt.ram.mem, pt.root, n, d.page);
        return;
      }
      if PteV(pte) {
        GiveBackFrame(m0, free0, pt.root, n, d.page);
        pt.ram.Dealloc(PtePpn(pte));
        return Drop(9, d.page, true);
      }
    }
    PassPage(m0, pt.root, n, d.page);
    RestSame(pt.ram, pt.root, n, d);
  }

  /** `free_req` has found nothing mapped; the root goes back. */
  method EndDrop(pt: PageTable, ghost n: nat)
    requires pt.ram.Valid() && Remains(pt.ram.mem, pt.root, n, Drop(10, n, false))
    modifies pt.ram
    ensures pt.ram.Valid() && pt.root in pt.ram.free
    ensures Confined(old(pt.ram.mem), old(pt.ram.free), pt.ram.mem, pt.ram.free, old(Rest(pt.ram.mem, pt.root, n, n)), {})
  {
    hide View, Wf, Remains, Rest, Confined;
    RootGoes(pt.ram.mem, pt.ram.free, pt.root, n);
    pt.ram.Dealloc(pt.root);
  }

  lemma DropParts(ram: Memory, root: nat, n: nat, d: Drop)
    requires ram.Valid() && Remains(ram.mem, root, n, d)
    ensures Wf(ram.mem, root) && root in ram.mem && InRam(ram.mem) && ram.mem.Keys !! ram.free
    ensures USER_VPN + n + 1 < TRAPFRAME_VPN && d.page <= n && (d.freed ==> d.page < n)
    ensures d.freed ==> USER_VPN + d.page in View(ram.mem, root)
    ensures d.at == 8 ==> d == Drop(8, 0, false)
    ensures d.at == 9 && d.page == n ==> d == Drop(9, n, false)
    ensures Rest(ram.mem, root, n, Low(d)) <= ram.mem.Keys
  {
    hide View, Wf, LeafKinds, Space, NoneBelow;
    RestIn(ram.mem, root, n, d);
  }

  lemma RestSame(ram: Memory, root: nat, n: nat, d: Drop)
    requires ram.Valid() && Remains(ram.mem, root, n, d)
    ensures var own := Rest(ram.mem, root, n, Low(d)); Confined(ram.mem, ram.free, ram.mem, ram.free, own, own)
  {
    hide View, Wf, LeafKinds, Space, NoneBelow, Remains, Rest;
    DropParts(ram, root, n, d);
  }
}
