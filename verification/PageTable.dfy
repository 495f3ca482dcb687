/** `PageTable`: walk, map, unmap and the recursive free, over physical memory. */
module PageTables {
  import opened Options
  import opened Ram
  import opened TableView

  /** How a kernel function ends: `Ok` and `Err` are its `Result`, `Panic` is the machine
      stopping.  Overflow of `usize` arithmetic is a panic too. */
  datatype Outcome = Ok | Err | Panic

  function RangeLeaf(v: nat, frame: nat, perm: nat, u: nat): Leaf
    requires v <= u
  {
    Leaf(frame + (u - v), perm)
  }

  /** The pages `v`, `v + 1`, ... mapped in order to the frames `frame`, `frame + 1`, ... */
  ghost function Range(v: nat, frame: nat, n: nat, perm: nat): map<nat, Leaf> {
    map u: nat | v <= u < v + n :: RangeLeaf(v, frame, perm, u)
  }

  ghost function Pages(v: nat, n: nat): set<nat> {
    Range(v, 0, n, 0).Keys
  }

  lemma RangeEmpty(m: map<nat, Leaf>, v: nat, frame: nat, perm: nat)
    ensures m + Range(v, frame, 0, perm) == m
    ensures m - Pages(v, 0) == m
  {
  }

  lemma RangeSnoc(m: map<nat, Leaf>, v: nat, frame: nat, n: nat, perm: nat)
    ensures (m + Range(v, frame, n, perm))[v + n := Leaf(frame + n, perm)] == m + Range(v, frame, n + 1, perm)
  {
    var l, r := (m + Range(v, frame, n, perm))[v + n := Leaf(frame + n, perm)], m + Range(v, frame, n + 1, perm);
    assert RangeLeaf(v, frame, perm, v + n) == Leaf(frame + n, perm);
    assert forall u :: u in l <==> u in r;
    assert forall u | u in l :: l[u] == r[u];
  }

  lemma PagesNext(v: nat, n: nat)
    ensures Pages(v, n + 1) == Pages(v, n) + {v + n}
  {
    assert RangeLeaf(v, 0, 0, v + n).perm == 0;
  }

  lemma PagesSnoc(m: map<nat, Leaf>, v: nat, n: nat)
    ensures (m - Pages(v, n)) - {v + n} == m - Pages(v, n + 1)
  {
    hide Pages;
    PagesNext(v, n);
  }

  /** What `map` does: the table grew and the range is mapped on top of what was there. */
  ghost predicate Mapped(m0: Mem, free0: set<nat>, m1: Mem, free1: set<nat>, root: nat,
                         v: nat, frame: nat, n: nat, perm: nat) {
    && Wf(m0, root)
    && Wf(m1, root) && TableGrew(m0, free0, m1, free1, root)
    && View(m1, root) == View(m0, root) + Range(v, frame, n, perm)
  }

  lemma MappedNone(m: Mem, free: set<nat>, root: nat, v: nat, frame: nat, perm: nat)
    requires Wf(m, root)
    ensures Mapped(m, free, m, free, root, v, frame, 0, perm)
  {
    hide Wf, View, TableGrew, Range;
    TableGrewReflexive(m, free, root);
    RangeEmpty(View(m, root), v, frame, perm);
  }

  /** One more page mapped, or the table merely grown. */
  lemma MappedSnoc(m0: Mem, free0: set<nat>, m1: Mem, free1: set<nat>, m2: Mem, free2: set<nat>, root: nat,
                   v: nat, frame: nat, n: nat, perm: nat)
    requires Wf(m0, root) && Wf(m1, root) && Wf(m2, root)
    requires Mapped(m0, free0, m1, free1, root, v, frame, n, perm) && TableGrew(m1, free1, m2, free2, root)
    ensures View(m2, root) == View(m1, root)[v + n := Leaf(frame + n, perm)] ==>
      Mapped(m0, free0, m2, free2, root, v, frame, n + 1, perm)
    ensures View(m2, root) == View(m1, root) ==> Mapped(m0, free0, m2, free2, root, v, frame, n, perm)
  {
    hide Wf, View, TableGrew, Range;
    TableGrewTransitive(m0, free0, m1, free1, m2, free2, root);
    RangeSnoc(View(m0, root), v, frame, n, perm);
  }

  /** The frames `unmap` gives back for a range: those behind its user leaves. */
  ghost function UserFrames(view: map<nat, Leaf>, v: nat, n: nat): set<nat> {
    set u | u in view && v <= u < v + n && UserLeaf(view[u]) :: view[u].frame
  }

  predicate UserLeaf(l: Leaf) {
    PermU(l.perm) && PermLeaf(l.perm)
  }

  /** The user leaves of a range own their frames: handed out, not part of the table, all different. */
  ghost predicate OwnsUserFrames(mem: Mem, root: nat, v: nat, n: nat) {
    && Wf(mem, root)
    && UserFrames(View(mem, root), v, n) <= mem.Keys - TableFrames(mem, root)
    && Distinct(View(mem, root), v, n)
  }

  /** No two user leaves of the range share a frame. */
  ghost predicate Distinct(view: map<nat, Leaf>, v: nat, n: nat) {
    forall a, b | a in view && b in view && v <= a < b < v + n && UserLeaf(view[a]) && UserLeaf(view[b]) ::
      view[a].frame != view[b].frame
  }

  /** What `unmap` does to memory and allocator: the pages of the range leave the view, the
      frames behind its user leaves go back exactly when asked, the tables stay. */
  ghost predicate Unmapped(m0: Mem, free0: set<nat>, m1: Mem, free1: set<nat>, root: nat, v: nat, n: nat, free: bool) {
    && Wf(m0, root)
    && var freed := if free then UserFrames(View(m0, root), v, n) else {};
    && Wf(m1, root) && Tables(m1, root) == Tables(m0, root)
    && View(m1, root) == View(m0, root) - Pages(v, n)
    && m1.Keys == m0.Keys - freed && free1 == free0 + freed
    && SameOutside(m0, m1, TableFrames(m0, root) + freed)
  }

  lemma UnmappedNone(m: Mem, free0: set<nat>, root: nat, v: nat, free: bool)
    requires Wf(m, root)
    ensures Unmapped(m, free0, m, free0, root, v, 0, free)
  {
    hide Wf, View;
    RangeEmpty(View(m, root), v, 0, 0);
    assert UserFrames(View(m, root), v, 0) == {};
  }

  /** Unmapping page `v + n` after the `n` pages from `v`. */
  lemma UnmappedSnoc(m0: Mem, free0: set<nat>, m1: Mem, free1: set<nat>, m2: Mem, free2: set<nat>, root: nat,
                     v: nat, n: nat, free: bool)
    requires Wf(m0, root) && Wf(m1, root)
    requires Unmapped(m0, free0, m1, free1, root, v, n, free) && Unmapped(m1, free1, m2, free2, root, v + n, 1, free)
    ensures Unmapped(m0, free0, m2, free2, root, v, n + 1, free)
  {
    hide Wf, View, UserLeaf, Tables, UserFrames, Pages;
    PagesSnoc(View(m0, root), v, n);
    PagesOne(v + n);
    UserFramesSnoc(View(m0, root), v, n);
  }

  /** The frame behind page `v + n` is still owned when the pages before it are gone. */
  lemma StillOwns(m0: Mem, free0: set<nat>, m1: Mem, free1: set<nat>, root: nat, v: nat, n: nat, count: nat, free: bool)
    requires Wf(m0, root) && Wf(m1, root) && n < count
    requires OwnsUserFrames(m0, root, v, count) && Unmapped(m0, free0, m1, free1, root, v, n, free)
    ensures OwnsUserFrames(m1, root, v + n, 1)
  {
    hide Wf, View, UserLeaf, Tables;
    PagesOne(v + n);
    var view := View(m0, root);
    if v + n in View(m1, root) && UserLeaf(View(m1, root)[v + n]) {
      assert view[v + n].frame in UserFrames(view, v, count);
      assert view[v + n].frame !in UserFrames(view, v, n);
    }
  }

  lemma PagesOne(v: nat)
    ensures Pages(v, 1) == {v}
  {
    assert RangeLeaf(v, 0, 0, v).frame == 0;
  }

  lemma UserFramesSnoc(view: map<nat, Leaf>, v: nat, n: nat)
    ensures UserFrames(view, v, n + 1) == UserFrames(view, v, n) + UserFrames(view - Pages(v, n), v + n, 1)
  {
    hide UserLeaf, Pages;
    PagesHas(v, n, v + n);
    var rest := view - Pages(v, n);
    var after := UserFrames(view, v, n + 1);
    forall f | f in after
      ensures f in UserFrames(view, v, n) + UserFrames(rest, v + n, 1)
    {
      var u :| u in view && v <= u < v + n + 1 && UserLeaf(view[u]) && view[u].frame == f;
      if u == v + n {
        assert u in rest;
      }
    }
    assert UserFrames(rest, v + n, 1) <= UserFrames(view, v, n + 1);
  }

  lemma PagesHas(v: nat, n: nat, u: nat)
    ensures u in Pages(v, n) <==> v <= u < v + n
  {
    if v <= u {
      assert RangeLeaf(v, 0, 0, u).perm == 0;
    }
  }

  lemma NothingUnmapped(m: Mem, free0: set<nat>, root: nat, v: nat, free: bool)
    requires Wf(m, root) && v !in View(m, root)
    ensures Unmapped(m, free0, m, free0, root, v, 1, free)
  {
    hide View, Wf;
    PagesOne(v);
    assert View(m, root) - {v} == View(m, root);
    assert UserFrames(View(m, root), v, 1) == {};
  }

  lemma OwnedFrame(m: Mem, root: nat, v: nat)
    requires Wf(m, root) && OwnsUserFrames(m, root, v, 1) && v in View(m, root) && UserLeaf(View(m, root)[v])
    ensures View(m, root)[v].frame in m && View(m, root)[v].frame !in TableFrames(m, root)
    ensures root in m && View(m, root)[v].frame !in Tables(m, root)
  {
    hide View, Wf, UserLeaf, Tables;
    RootSlot(m, root, 0);
    assert View(m, root)[v].frame in UserFrames(View(m, root), v, 1);
  }

  lemma UnmappedWf(m0: Mem, free0: set<nat>, m1: Mem, free1: set<nat>, root: nat, v: nat, n: nat, free: bool)
    requires Wf(m0, root) && Unmapped(m0, free0, m1, free1, root, v, n, free)
    ensures Wf(m1, root)
  {
  }

  /** Clearing one mapped entry, after giving back its frame if it was a user leaf. */
  lemma UnmapOne(m0: Mem, free0: set<nat>, m1: Mem, m2: Mem, root: nat, v: nat, free: bool)
    requires Wf(m0, root) && v < PAGES && v in View(m0, root)
    requires free ==> OwnsUserFrames(m0, root, v, 1)
    requires root in m0 && m0[root][v / 1024] != 0
    requires m1 == if free && UserLeaf(View(m0, root)[v]) then m0 - {View(m0, root)[v].frame} else m0
    requires var t := PtePpn(m0[root][v / 1024]);
      t in m1 && m2 == m1[t := m1[t][v % 1024 := 0]]
    ensures var l := View(m0, root)[v];
      Unmapped(m0, free0, m2, if free && UserLeaf(l) then free0 + {l.frame} else free0, root, v, 1, free)
  {
    hide View, Wf, Tables, UserLeaf, TableGrew, SameOutside, Unmapped;
    hide TableFrames, UserFrames, OwnsUserFrames;
    RootSlot(m0, root, v);
    var l := View(m0, root)[v];
    UserFramesOne(View(m0, root), v);
    if free && UserLeaf(l) {
      OwnedFrame(m0, root, v);
      DropFrame(m0, root, l.frame);
    }
    assert LeafEntryOk(0);
    SetLeaf(m1, m2, free0, root, v, 0);
    PagesOne(v);
    assert free0 + {} == free0;
    UnmappedParts(m0, free0, m1, m2, root, v, free);
  }

  lemma UserFramesOne(view: map<nat, Leaf>, v: nat)
    requires v in view
    ensures UserFrames(view, v, 1) == if UserLeaf(view[v]) then {view[v].frame} else {}
  {
    hide UserLeaf;
  }

  /** Giving back a frame the table is not made of. */
  lemma DropFrame(m: Mem, root: nat, f: nat)
    requires Wf(m, root) && f !in TableFrames(m, root)
    ensures root in m - {f} && (m - {f})[root] == m[root]
    ensures Wf(m - {f}, root) && Tables(m - {f}, root) == Tables(m, root) && View(m - {f}, root) == View(m, root)
    ensures TableFrames(m - {f}, root) == TableFrames(m, root)
  {
    RootSlot(m, root, 0);
    forall g | g in TableFrames(m, root)
      ensures g in m
    {
      TableFrameIn(m, root, g);
    }
    FrameTable(m, m - {f}, root);
  }

  lemma UnmappedParts(m0: Mem, free0: set<nat>, m1: Mem, m2: Mem, root: nat, v: nat, free: bool)
    requires Wf(m0, root) && Wf(m2, root) && Tables(m2, root) == Tables(m0, root)
    requires View(m2, root) == View(m0, root) - Pages(v, 1)
    requires m1 == m0 - if free then UserFrames(View(m0, root), v, 1) else {}
    requires free ==> UserFrames(View(m0, root), v, 1) <= m0.Keys
    requires m2.Keys == m1.Keys && SameOutside(m1, m2, TableFrames(m0, root))
    ensures Unmapped(m0, free0, m2, free0 + if free then UserFrames(View(m0, root), v, 1) else {}, root, v, 1, free)
  {
    hide View, Wf, Tables, UserLeaf, Pages, UserFrames;
  }

  /** Every mapped page is a leaf for the hardware too. */
  ghost predicate AllLeaves(m: Mem, root: nat) {
    Wf(m, root) &&
    forall v | v in View(m, root) :: PermLeaf(View(m, root)[v].perm)
  }

  /** A level-0 table all of whose entries are zero or leaves for the hardware. */
  ghost predicate LeafTable(p: Page) {
    forall j | 0 <= j < ENTRIES :: p[j] != 0 ==> PteV(p[j]) && (PteR(p[j]) || PteW(p[j]) || PteX(p[j]))
  }

  /** No page below root entry `i` is mapped. */
  ghost predicate NoneMapped(m: Mem, root: nat, i: nat) {
    Wf(m, root) &&
    forall v | v in View(m, root) :: i <= v / 1024
  }

  /** What `free_req` can meet in entry `i` at each level. */
  lemma EntryKinds(m: Mem, frame: nat, i: nat, level: nat)
    requires i < ENTRIES && level <= 1 && frame in m
    requires level == 1 ==> Wf(m, frame) && AllLeaves(m, frame)
    requires level == 0 ==> LeafTable(m[frame])
    ensures var pte := m[frame][i];
      && (PteV(pte) <==> pte != 0)
      && (pte != 0 ==> (level == 1 <==> !PteR(pte) && !PteW(pte) && !PteX(pte)))
      && (pte != 0 && level == 1 ==> PtePpn(pte) in m && LeafTable(m[PtePpn(pte)]))
  {
    var pte := m[frame][i];
    if level == 1 && pte != 0 {
      RootSlot(m, frame, i * 1024);
      assert i * 1024 / 1024 == i;
      PermOfPte(pte);
      assert RootEntryOk(m, frame, pte);
      var t := PtePpn(pte);
      forall j | 0 <= j < ENTRIES && m[t][j] != 0
        ensures PteV(m[t][j]) && (PteR(m[t][j]) || PteW(m[t][j]) || PteX(m[t][j]))
      {
        var v := i * 1024 + j;
        assert v / 1024 == i && v % 1024 == j;
        RootSlot(m, frame, v);
        LeafSlot(m, frame, v);
      }
    }
  }

  /** A nonzero word in the table below entry `i` is a mapped page. */
  lemma StillMapped(m: Mem, root: nat, i: nat)
    requires Wf(m, root) && root in m && i < ENTRIES && m[root][i] != 0
    requires PtePpn(m[root][i]) in m
    requires exists j :: (0 <= j < ENTRIES && m[PtePpn(m[root][i])][j] != 0)
    ensures View(m, root) != map[]
  {
    var j :| 0 <= j < ENTRIES && m[PtePpn(m[root][i])][j] != 0;
    var v := i * 1024 + j;
    assert v / 1024 == i && v % 1024 == j;
    RootSlot(m, root, v);
    LeafSlot(m, root, v);
    assert v in View(m, root);
  }

  lemma NoneMappedSnoc(m: Mem, root: nat, i: nat)
    requires Wf(m, root) && root in m && i < ENTRIES && NoneMapped(m, root, i)
    requires m[root][i] != 0 ==> PtePpn(m[root][i]) in m
    requires m[root][i] != 0 ==> forall j | 0 <= j < ENTRIES :: m[PtePpn(m[root][i])][j] == 0
    ensures NoneMapped(m, root, i + 1)
  {
    forall v | v in View(m, root)
      ensures i + 1 <= v / 1024
    {
      RootSlot(m, root, v);
      LeafSlot(m, root, v);
    }
  }

  lemma InTable(m: Mem, root: nat, v: nat)
    requires Wf(m, root) && v in View(m, root)
    ensures v < PAGES && v / 1024 < ENTRIES
  {
  }

  lemma NothingMapped(m: Mem, root: nat)
    requires Wf(m, root) && NoneMapped(m, root, ENTRIES)
    ensures View(m, root) == map[]
  {
    forall v | v in View(m, root)
      ensures false
    {
      InTable(m, root, v);
    }
  }

  class PageTable {
    const root: nat
    const ram: Memory

    constructor (ram: Memory, root: nat)
      ensures this.ram == ram && this.root == root
    {
      this.ram := ram;
      this.root := root;
    }

    /** `PageTable::new`: `None` is the panic after a failed allocation. */
    static method New(ram: Memory) returns (r: Option<PageTable>)
      requires ram.Valid()
      modifies ram
      ensures ram.Valid()
      ensures r.None? ==> ram.mem == old(ram.mem) && ram.free == old(ram.free)
      ensures r.Some? ==> var root := r.value.root;
        && fresh(r.value) && r.value.ram == ram && root in old(ram.free) && root !in old(ram.mem)
        && ram.mem.Keys == old(ram.mem.Keys) + {root} && SameOutside(old(ram.mem), ram.mem, {})
        && ram.free == old(ram.free) - {root}
        && Wf(ram.mem, root) && View(ram.mem, root) == map[] && Tables(ram.mem, root) == {}
    {
      var f := ram.Alloc();
      if f == 0 {
        return None;
      }
      ram.WritePage(f, ZERO_PAGE);
      var pt := new PageTable(ram, f);
      r := Some(pt);
    }

    /** Where the leaf entry for `va` lives: a frame and an index into it.  With `alloc`,
        a missing level-0 table is added first. */
    method Walk(va: nat, alloc: bool) returns (r: Option<(nat, nat)>)
      requires ram.Valid() && Wf(ram.mem, root) && va <= USIZE_MAX
      modifies ram
      ensures ram.Valid() && Wf(ram.mem, root) && TableGrew(old(ram.mem), old(ram.free), ram.mem, ram.free, root)
      ensures View(ram.mem, root) == old(View(ram.mem, root))
      ensures var v := va / PAGESIZE;
        && (r.None? ==> old(ram.mem)[root][v / 1024] == 0)
        && (r.Some? ==> ram.mem[root][v / 1024] != 0
                        && r.value == (PtePpn(ram.mem[root][v / 1024]), v % 1024))
        && (!alloc || r.None? || old(ram.mem)[root][v / 1024] != 0 ==>
              ram.mem == old(ram.mem) && ram.free == old(ram.free))
        && (!alloc ==> (r.None? <==> ram.mem[root][v / 1024] == 0))
    {
      hide Wf, View, TableGrew, SameOutside, Tables, TableFrames, Range, Pages, PermBits, PtePpn, MakePte, LeafOf,
           LeafEntryOk;
      RootSlot(ram.mem, root, va / PAGESIZE);
      TableGrewReflexive(ram.mem, ram.free, root);
      var slot := va / PAGESIZE / 1024;
      var pte := ram.mem[root][slot];
      var a: nat;
      if PteV(pte) {
        a := PtePpn(pte);
      } else {
        if !alloc {
          return None;
        }
        var page := ram.Alloc();
        if page == 0 {
          return None;
        }
        ghost var m1 := ram.mem;
        PermBitsZero();
        ram.WritePage(page, ZERO_PAGE);
        ram.WriteWord(root, slot, MakePte(page, 0));
        ZeroTableAdded(old(ram.mem), old(ram.free), m1, root, slot, page);
        PteRoundTrip(page, 0);
        a := page;
      }
      r := Some((a, va / PAGESIZE % 1024));
    }

    /** One turn of `map`'s loop: makes one page's entry point to one frame. */
    method MapPage(vaddr: nat, paddr: nat, perm: nat, ghost v: nat, ghost frame: nat) returns (ok: bool)
      requires ram.Valid() && Wf(ram.mem, root)
      requires PermBits(perm) && vaddr <= USIZE_MAX && paddr <= USIZE_MAX
      requires vaddr == v * PAGESIZE && paddr == frame * PAGESIZE
      modifies ram
      ensures ram.Valid() && Wf(ram.mem, root) && TableGrew(old(ram.mem), old(ram.free), ram.mem, ram.free, root)
      ensures View(ram.mem, root) ==
        if ok then old(View(ram.mem, root))[v := Leaf(frame, perm)] else old(View(ram.mem, root))
      ensures !ok ==> ram.mem == old(ram.mem) && ram.free == old(ram.free)
    {
      hide Wf, View, TableGrew, SameOutside, Tables, TableFrames, Range, Pages, PermBits, PtePpn, MakePte, LeafOf,
           LeafEntryOk;
      assert vaddr / PAGESIZE == v && paddr / PAGESIZE == frame;
      var walked := Walk(vaddr, true);
      if walked.None? {
        return false;
      }
      ghost var m1 := ram.mem;
      RootSlot(m1, root, v);
      var (t, j) := walked.value;
      var pte := MakePte(paddr / PAGESIZE, perm);
      PteRoundTrip(frame, perm);
      ram.WriteWord(t, j, pte);
      SetLeaf(m1, ram.mem, ram.free, root, v, pte);
      TableGrewTransitive(old(ram.mem), old(ram.free), m1, ram.free, ram.mem, ram.free, root);
      ok := true;
    }

    method Map(virt: nat, phys: nat, size: nat, perm: nat) returns (r: Outcome)
      requires ram.Valid() && Wf(ram.mem, root) && PermBits(perm)
      requires virt <= USIZE_MAX && phys <= USIZE_MAX && size <= USIZE_MAX
      modifies ram
      ensures ram.Valid() && (r != Panic ==> Wf(ram.mem, root))
      ensures var v, frame, n := virt / PAGESIZE, phys / PAGESIZE, size / PAGESIZE;
        && (r == Ok ==> Mapped(old(ram.mem), old(ram.free), ram.mem, ram.free, root, v, frame, n, perm))
        && (r == Err ==> exists k: nat :: (k < n
              && Mapped(old(ram.mem), old(ram.free), ram.mem, ram.free, root, v, frame, k, perm)
              && (k == 0 ==> ram.mem == old(ram.mem) && ram.free == old(ram.free))))
      ensures virt % PAGESIZE != 0 || phys % PAGESIZE != 0 || size % PAGESIZE != 0 || virt + size > USIZE_MAX ==> r == Panic
      ensures r == Panic && virt % PAGESIZE == phys % PAGESIZE == size % PAGESIZE == 0 ==>
        virt + size > USIZE_MAX || phys + size > USIZE_MAX
    {
      hide Wf, View, TableGrew, PermBits, Mapped;
      if phys % PAGESIZE != 0 || virt % PAGESIZE != 0 || size % PAGESIZE != 0 {
        return Panic;
      }
      if virt + size > USIZE_MAX {
        return Panic;
      }
      var vaddr, paddr := virt, phys;
      var vaddrEnd := virt + size;
      ghost var n, v, frame := 0, virt / PAGESIZE, phys / PAGESIZE;
      MappedNone(ram.mem, ram.free, root, v, frame, perm);
      while vaddr < vaddrEnd
        invariant vaddr == (v + n) * PAGESIZE && paddr == (frame + n) * PAGESIZE && n <= size / PAGESIZE
        invariant paddr <= USIZE_MAX
        invariant ram.Valid() && Wf(ram.mem, root)
        invariant Mapped(old(ram.mem), old(ram.free), ram.mem, ram.free, root, v, frame, n, perm)
        invariant n == 0 ==> ram.mem == old(ram.mem) && ram.free == old(ram.free)
      {
        ghost var m1, free1 := ram.mem, ram.free;
        var ok := MapPage(vaddr, paddr, perm, v + n, frame + n);
        MappedSnoc(old(ram.mem), old(ram.free), m1, free1, ram.mem, ram.free, root, v, frame, n, perm);
        if !ok {
          return Err;
        }
        n := n + 1;
        if paddr + PAGESIZE > USIZE_MAX {
          return Panic;
        }
        vaddr, paddr := vaddr + PAGESIZE, paddr + PAGESIZE;
      }
      return Ok;
    }

    /** `map` for a single page, which can only fail before it has changed anything. */
    method MapOne(virt: nat, phys: nat, perm: nat, ghost v: nat, ghost frame: nat) returns (r: Outcome)
      requires ram.Valid() && Wf(ram.mem, root) && PermBits(perm)
      requires virt == v * PAGESIZE && phys == frame * PAGESIZE && v + 1 < PAGES && frame + 1 < PAGES
      modifies ram
      ensures ram.Valid() && Wf(ram.mem, root) && r != Panic
      ensures r == Ok ==> Mapped(old(ram.mem), old(ram.free), ram.mem, ram.free, root, v, frame, 1, perm)
      ensures r == Err ==> ram.mem == old(ram.mem) && ram.free == old(ram.free)
    {
      hide Wf, PermBits, Mapped;
      assert virt / PAGESIZE == v && phys / PAGESIZE == frame;
      r := Map(virt, phys, PAGESIZE, perm);
    }

    /** One turn of `unmap`'s loop. */
    method UnmapPage(va: nat, free: bool, ghost v: nat)
      requires ram.Valid() && Wf(ram.mem, root) && va <= USIZE_MAX && v == va / PAGESIZE
      requires free ==> OwnsUserFrames(ram.mem, root, v, 1)
      modifies ram
      ensures ram.Valid() && Wf(ram.mem, root)
      ensures Unmapped(old(ram.mem), old(ram.free), ram.mem, ram.free, root, v, 1, free)
    {
      hide View, Wf, Unmapped, OwnsUserFrames, TableGrew, LeafWord, PteV, PteR, PteW, PteX, PteU, PermR, PermW,
           PermX, PermU;
      hide PtePpn, PtePerm, Tables, TableFrames, SameOutside, UserFrames;
      RootSlot(ram.mem, root, v);
      LeafSlot(ram.mem, root, v);
      ghost var view := View(ram.mem, root);
      if v !in view {
        NothingUnmapped(ram.mem, ram.free, root, v, free);
      } else if free && UserLeaf(view[v]) {
        OwnedFrame(ram.mem, root, v);
      }
      var walked := Walk(va, false);
      if walked.Some? {
        var (t, j) := walked.value;
        ghost var m0, free0 := ram.mem, ram.free;
        var pte := ram.mem[t][j];
        if PteV(pte) {
          var isLeaf := PteR(pte) || PteW(pte) || PteX(pte);
          if free && isLeaf && PteU(pte) {
            ram.Dealloc(PtePpn(pte));
          }
          ghost var m1 := ram.mem;
          ram.WriteWord(t, j, 0);
          UnmapOne(m0, free0, m1, ram.mem, root, v, free);
          UnmappedWf(m0, free0, ram.mem, ram.free, root, v, 1, free);
        }
      }
    }

    method Unmap(virt: nat, size: nat, free: bool) returns (r: Outcome)
      requires ram.Valid() && Wf(ram.mem, root) && virt <= USIZE_MAX && size <= USIZE_MAX
      requires free ==> OwnsUserFrames(ram.mem, root, virt / PAGESIZE, size / PAGESIZE)
      modifies ram
      ensures ram.Valid()
      ensures size % PAGESIZE != 0 ==> r == Err && ram.mem == old(ram.mem) && ram.free == old(ram.free)
      ensures size % PAGESIZE == 0 ==> r != Err
      ensures r == Ok ==>
        Unmapped(old(ram.mem), old(ram.free), ram.mem, ram.free, root, virt / PAGESIZE, size / PAGESIZE, free)
      ensures r == Panic ==> virt + size > USIZE_MAX
    {
      hide Wf, View, Unmapped, OwnsUserFrames;
      if size % PAGESIZE != 0 {
        return Err;
      }
      var va := virt;
      ghost var v, count := virt / PAGESIZE, size / PAGESIZE;
      UnmappedNone(ram.mem, ram.free, root, v, free);
      for n := 0 to size / PAGESIZE
        invariant va == virt + n * PAGESIZE && va <= USIZE_MAX
        invariant ram.Valid() && Wf(ram.mem, root)
        invariant Unmapped(old(ram.mem), old(ram.free), ram.mem, ram.free, root, v, n, free)
      {
        ghost var m1, free1 := ram.mem, ram.free;
        assert va / PAGESIZE == v + n;
        if free {
          StillOwns(old(ram.mem), old(ram.free), m1, free1, root, v, n, count, free);
        }
        UnmapPage(va, free, v + n);
        UnmappedSnoc(old(ram.mem), old(ram.free), m1, free1, ram.mem, ram.free, root, v, n, free);
        if va + PAGESIZE > USIZE_MAX {
          return Panic;
        }
        va := va + PAGESIZE;
      }
      return Ok;
    }

    /** `free_req`, started on a root (`level` 1) or on a level-0 table.  It panics exactly when
        some page is still mapped, and it gives back nothing: neither it nor its recursive
        calls deallocate the table they were given. */
    method FreeReq(frame: nat, ghost level: nat) returns (panicked: bool)
      requires ram.Valid() && level <= 1
      requires level == 1 ==> Wf(ram.mem, frame) && AllLeaves(ram.mem, frame)
      requires level == 0 ==> frame in ram.mem && LeafTable(ram.mem[frame])
      modifies ram`mem
      ensures ram.Valid() && ram.mem == old(ram.mem)
      ensures level == 1 ==> (panicked <==> View(ram.mem, frame) != map[])
      ensures level == 0 ==> (panicked <==> exists j :: (0 <= j < ENTRIES && ram.mem[frame][j] != 0))
      decreases level
    {
      if level == 1 {
        RootSlot(ram.mem, frame, 0);
      }
      for i := 0 to ENTRIES
        invariant ram.mem == old(ram.mem)
        invariant level == 1 ==> NoneMapped(ram.mem, frame, i)
        invariant level == 0 ==> forall j :: 0 <= j < i ==> ram.mem[frame][j] == 0
      {
        hide Wf, View, AllLeaves, LeafTable, NoneMapped, PteR, PteW, PteX, PteV, PtePpn, PermLeaf, PermU, PermR,
             PermW, PermX, PtePerm;
        var pte := ram.mem[frame][i];
        EntryKinds(ram.mem, frame, i, level);
        if PteV(pte) {
          if !PteR(pte) && !PteW(pte) && !PteX(pte) {
            var lower := PtePpn(pte);
            panicked := FreeReq(lower, 0);
            if panicked {
              StillMapped(ram.mem, frame, i);
              return;
            }
            assert ram.mem[lower][0 := 0] == ram.mem[lower];
            ram.WriteWord(lower, 0, 0);
            assert ram.mem == old(ram.mem);
            assert forall j | 0 <= j < ENTRIES :: ram.mem[lower][j] == 0;
          } else {
            return true;
          }
        }
        if level == 1 {
          NoneMappedSnoc(ram.mem, frame, i);
        }
      }
      if level == 1 {
        NothingMapped(ram.mem, frame);
      }
      panicked := false;
    }
  }
}
