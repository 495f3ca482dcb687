/** Two-level Sv32 page tables as words in physical memory, and the map from virtual
    pages to frames and permissions that they stand for. */
module TableView {
  import opened Ram

  const PTE_R := 2
  const PTE_W := 4
  const PTE_X := 8
  const PTE_U := 16

  // ----- page-table entries -----

  predicate PteV(w: Word) { w % 2 == 1 }
  predicate PteR(w: Word) { w / 2 % 2 == 1 }
  predicate PteW(w: Word) { w / 4 % 2 == 1 }
  predicate PteX(w: Word) { w / 8 % 2 == 1 }
  predicate PteU(w: Word) { w / 16 % 2 == 1 }
  function PtePpn(w: Word): nat { w / 1024 }
  function PtePerm(w: Word): nat { w % 32 / 2 * 2 }

  /** A combination of the R, W, X and U bits. */
  predicate PermBits(perm: nat) { perm < 32 && perm % 2 == 0 }

  predicate PermR(perm: nat) { perm / 2 % 2 == 1 }
  predicate PermW(perm: nat) { perm / 4 % 2 == 1 }
  predicate PermX(perm: nat) { perm / 8 % 2 == 1 }
  predicate PermU(perm: nat) { perm / 16 % 2 == 1 }

  /** The entry is a leaf for the hardware: some of R, W, X is set. */
  predicate PermLeaf(perm: nat) { PermR(perm) || PermW(perm) || PermX(perm) }

  /** `Pte::from_addr` with `v` set, or-ed with the permissions (see `Bits.LeafWordBits`). */
  function MakePte(frame: nat, perm: nat): Word
    requires frame < PAGES && PermBits(perm)
  {
    frame * 1024 + perm + 1
  }

  /** What `map` encodes, `Pte::from` decodes. */
  lemma PteRoundTrip(frame: nat, perm: nat)
    requires frame < PAGES && PermBits(perm)
    ensures var w := MakePte(frame, perm);
            && PteV(w) && PtePpn(w) == frame && PtePerm(w) == perm && w % 1024 == perm + 1
            && PteR(w) == PermR(perm) && PteW(w) == PermW(perm)
            && PteX(w) == PermX(perm) && PteU(w) == PermU(perm)
            && LeafEntryOk(w) && w != 0 && LeafOf(w) == Leaf(frame, perm)
  {
    hide PermR, PermW, PermX, PermU, PteR, PteW, PteX, PteU, MakePte;
    var w := MakePte(frame, perm);
    PteWord(frame, perm);
    PermOfPte(w);
  }

  lemma PteWord(frame: nat, perm: nat)
    requires frame < PAGES && PermBits(perm)
    ensures var w := MakePte(frame, perm);
      w % 1024 == perm + 1 && w % 32 == perm + 1 && PteV(w) && PtePpn(w) == frame && PtePerm(w) == perm
  {
    var w, h := MakePte(frame, perm), perm / 2;
    DivMod(w, frame, perm + 1, 1024);
    DivMod(w, 32 * frame, perm + 1, 32);
    DivMod(w, 512 * frame + h, 1, 2);
  }

  lemma DivMod(w: nat, q: nat, r: nat, d: nat)
    requires w == q * d + r && r < d
    requires d in {2, 32, 1024}
    ensures w / d == q && w % d == r
  {
  }

  /** The low five bits of a word, one by one. */
  lemma LowBits(w: nat)
    ensures w == 32 * (w / 32) + 16 * (w / 16 % 2) + 8 * (w / 8 % 2) + 4 * (w / 4 % 2) + 2 * (w / 2 % 2) + w % 2
  {
    Halve(w, w / 2);
    Halve(w / 2, w / 4);
    Halve(w / 4, w / 8);
    Halve(w / 8, w / 16);
    Halve(w / 16, w / 32);
  }

  lemma Halve(n: nat, half: nat)
    requires half == n / 2
    ensures n == 2 * half + n % 2
  {
  }

  lemma PermBitsOf(u: nat, x: nat, w: nat, r: nat)
    requires u < 2 && x < 2 && w < 2 && r < 2
    ensures var perm := 16 * u + 8 * x + 4 * w + 2 * r;
      PermBits(perm) && PermR(perm) == (r == 1) && PermW(perm) == (w == 1) && PermX(perm) == (x == 1) && PermU(perm) == (u == 1)
  {
  }

  // ----- what a table in memory means -----

  /** A mapped page: the frame behind it and its R/W/X/U bits. */
  datatype Leaf = Leaf(frame: nat, perm: nat)

  function LeafOf(w: Word): Leaf {
    Leaf(PtePpn(w), PtePerm(w))
  }

  /** An entry of a level-0 table is zero or a valid entry made by `map`. */
  predicate LeafEntryOk(w: Word) {
    w == 0 || (w % 1024 < 32 && PteV(w) && PtePpn(w) < PAGES)
  }

  ghost predicate TableOk(p: Page) {
    forall j | 0 <= j < ENTRIES :: LeafEntryOk(p[j])
  }

  /** An entry of the root is zero or a pointer to a level-0 table, never a leaf. */
  ghost predicate RootEntryOk(mem: Mem, root: nat, w: Word) {
    w == 0 || (w % 1024 == 1 && PtePpn(w) in mem && PtePpn(w) != root && TableOk(mem[PtePpn(w)]))
  }

  /** The memory holds a well-formed table at `root`: pointers only at level 1,
      leaves only at level 0, and no two root entries share a table. */
  ghost predicate Wf(mem: Mem, root: nat) {
    && root in mem
    && (forall i | 0 <= i < ENTRIES :: RootEntryOk(mem, root, mem[root][i]))
    && (forall i, j | 0 <= i < j < ENTRIES && mem[root][i] != 0 && mem[root][j] != 0 ::
          PtePpn(mem[root][i]) != PtePpn(mem[root][j]))
  }

  /** The level-0 tables hanging off the root. */
  ghost function Tables(mem: Mem, root: nat): set<nat>
    requires root in mem
  {
    set i | 0 <= i < ENTRIES && mem[root][i] != 0 :: PtePpn(mem[root][i])
  }

  /** The frames a table is made of. */
  ghost function TableFrames(mem: Mem, root: nat): set<nat>
    requires root in mem
  {
    {root} + Tables(mem, root)
  }

  /** The level-0 word for page `v`, zero when there is no level-0 table. */
  ghost function LeafWord(mem: Mem, root: nat, v: nat): Word
    requires Wf(mem, root) && v < PAGES
  {
    var e := mem[root][v / 1024];
    assert RootEntryOk(mem, root, e);
    if e == 0 then 0 else mem[PtePpn(e)][v % 1024]
  }

  /** The abstract map refined by the table. */
  ghost function View(mem: Mem, root: nat): (m: map<nat, Leaf>)
    requires Wf(mem, root)
  {
    map v: nat | v < PAGES && LeafWord(mem, root, v) != 0 :: LeafOf(LeafWord(mem, root, v))
  }

  lemma LeafWordOk(mem: Mem, root: nat, v: nat)
    requires Wf(mem, root) && v < PAGES
    ensures LeafEntryOk(LeafWord(mem, root, v))
  {
    var e := mem[root][v / 1024];
    assert RootEntryOk(mem, root, e);
  }

  /** Two tables with the same leaf words have the same view. */
  lemma SameWordsSameView(m0: Mem, m1: Mem, root: nat)
    requires Wf(m0, root) && Wf(m1, root)
    requires forall v: nat | v < PAGES :: LeafWord(m0, root, v) == LeafWord(m1, root, v)
    ensures View(m0, root) == View(m1, root)
  {
  }

  /** A table depends on nothing but its own frames. */
  lemma FrameTable(m0: Mem, m1: Mem, root: nat)
    requires Wf(m0, root)
    requires forall f | f in TableFrames(m0, root) :: f in m1 && m1[f] == m0[f]
    ensures Wf(m1, root) && Tables(m1, root) == Tables(m0, root) && View(m1, root) == View(m0, root)
  {
    forall i | 0 <= i < ENTRIES
      ensures RootEntryOk(m1, root, m1[root][i])
    {
      assert RootEntryOk(m0, root, m0[root][i]);
      if m0[root][i] != 0 {
        assert PtePpn(m0[root][i]) in Tables(m0, root);
      }
    }
    forall v: nat | v < PAGES
      ensures LeafWord(m0, root, v) == LeafWord(m1, root, v)
    {
      var e := m0[root][v / 1024];
      if e != 0 {
        assert PtePpn(e) in Tables(m0, root);
      }
    }
    SameWordsSameView(m0, m1, root);
  }

  /** A root entry in use is a pointer: valid, with no permission, to a frame of the memory. */
  lemma PointerEntry(mem: Mem, root: nat, i: nat)
    requires Wf(mem, root) && i < ENTRIES
    ensures root in mem && RootEntryOk(mem, root, mem[root][i])
    ensures mem[root][i] != 0 ==> PtePpn(mem[root][i]) in Tables(mem, root)
  {
    hide RootEntryOk, PtePpn;
  }

  /** A pointer word is valid, the zero word is not. */
  lemma PointerIsValid(w: Word)
    requires w == 0 || w % 1024 == 1
    ensures PteV(w) <==> w != 0
  {
    if w != 0 {
      DivMod(w, 512 * (w / 1024), 1, 2);
    }
  }

  lemma LeafWordAt(mem: Mem, root: nat, v: nat)
    requires Wf(mem, root) && v < PAGES
    ensures root in mem
    ensures mem[root][v / 1024] == 0 ==> LeafWord(mem, root, v) == 0
    ensures var t := PtePpn(mem[root][v / 1024]);
      mem[root][v / 1024] != 0 ==> t in mem && LeafWord(mem, root, v) == mem[t][v % 1024]
  {
    hide View, Tables, PteV, PtePpn;
    PointerEntry(mem, root, v / 1024);
  }

  /** What a walk finds in the root for page `v`. */
  lemma RootSlot(mem: Mem, root: nat, v: nat)
    requires Wf(mem, root) && v < PAGES
    ensures root in mem
    ensures var e := mem[root][v / 1024];
      && (PteV(e) <==> e != 0)
      && (e == 0 ==> v !in View(mem, root) && LeafWord(mem, root, v) == 0)
      && (e != 0 ==> e % 1024 == 1 && PtePpn(e) in mem && PtePpn(e) != root && PtePpn(e) in Tables(mem, root)
                     && LeafWord(mem, root, v) == mem[PtePpn(e)][v % 1024])
  {
    hide Wf, View, LeafWord, Tables, PteV, PtePpn, TableOk;
    PointerEntry(mem, root, v / 1024);
    PointerIsValid(mem[root][v / 1024]);
    LeafWordAt(mem, root, v);
    ViewAt(mem, root, v);
  }

  lemma TableFrameIn(mem: Mem, root: nat, f: nat)
    requires Wf(mem, root) && root in mem && f in TableFrames(mem, root)
    ensures f in mem
  {
    if f != root {
      var i :| 0 <= i < ENTRIES && mem[root][i] != 0 && f == PtePpn(mem[root][i]);
      assert RootEntryOk(mem, root, mem[root][i]);
    }
  }

  /** What a walk finds in the level-0 table for page `v`. */
  lemma LeafSlot(mem: Mem, root: nat, v: nat)
    requires Wf(mem, root) && v < PAGES
    ensures var w := LeafWord(mem, root, v);
      && (PteV(w) <==> w != 0) && (v in View(mem, root) <==> w != 0)
      && (w != 0 ==> View(mem, root)[v] == Leaf(PtePpn(w), PtePerm(w)) && PtePpn(w) < PAGES
                     && PteR(w) == PermR(PtePerm(w)) && PteW(w) == PermW(PtePerm(w))
                     && PteX(w) == PermX(PtePerm(w)) && PteU(w) == PermU(PtePerm(w)))
  {
    hide Wf, LeafWord, View, PermR, PermW, PermX, PermU, PteR, PteW, PteX, PteU;
    LeafWordOk(mem, root, v);
    ViewAt(mem, root, v);
    PermOfPte(LeafWord(mem, root, v));
  }

  lemma ViewAt(mem: Mem, root: nat, v: nat)
    requires Wf(mem, root) && v < PAGES
    ensures v in View(mem, root) <==> LeafWord(mem, root, v) != 0
    ensures v in View(mem, root) ==> View(mem, root)[v] == LeafOf(LeafWord(mem, root, v))
  {
  }

  /** A decoded permission says the same as the entry's bits. */
  lemma PermOfPte(w: Word)
    ensures PermBits(PtePerm(w))
    ensures PteR(w) == PermR(PtePerm(w)) && PteW(w) == PermW(PtePerm(w))
    ensures PteX(w) == PermX(PtePerm(w)) && PteU(w) == PermU(PtePerm(w))
    ensures w % 1024 == 1 ==> PteV(w) && PtePerm(w) == 0 && !PteR(w) && !PteW(w) && !PteX(w)
  {
    hide PermR, PermW, PermX, PermU, PtePerm, PermBits;
    LowBits(w);
    PermBitsOf(w / 16 % 2, w / 8 % 2, w / 4 % 2, w / 2 % 2);
    PermWord(w);
    PermBitsOf(0, 0, 0, 0);
  }

  lemma PermWord(w: Word)
    ensures PtePerm(w) == 16 * (w / 16 % 2) + 8 * (w / 8 % 2) + 4 * (w / 4 % 2) + 2 * (w / 2 % 2)
    ensures w % 1024 == 1 ==> PteV(w) && PtePerm(w) == 0
  {
    LowBits(w);
    var q, low := w / 32, w % 32;
    assert w == 32 * q + low;
    if w % 1024 == 1 {
      DivMod(w, 32 * (w / 1024), 1, 32);
      DivMod(w, 512 * (w / 1024), 1, 2);
    }
  }

  /** The table only grew: its new frames came from the allocator, and outside the table
      nothing changed. */
  ghost predicate TableGrew(m0: Mem, free0: set<nat>, m1: Mem, free1: set<nat>, root: nat) {
    && Wf(m0, root)
    && Wf(m1, root)
    && Tables(m0, root) <= Tables(m1, root)
    && (Tables(m1, root) - Tables(m0, root)) !! m0.Keys
    && m1.Keys == m0.Keys + (Tables(m1, root) - Tables(m0, root))
    && Tables(m1, root) - Tables(m0, root) <= free0
    && free1 == free0 - (Tables(m1, root) - Tables(m0, root))
    && SameOutside(m0, m1, TableFrames(m0, root))
  }

  lemma TableGrewReflexive(m: Mem, free: set<nat>, root: nat)
    requires Wf(m, root)
    ensures TableGrew(m, free, m, free, root)
  {
  }

  lemma TableGrewTransitive(m0: Mem, free0: set<nat>, m1: Mem, free1: set<nat>, m2: Mem, free2: set<nat>, root: nat)
    requires Wf(m0, root) && Wf(m1, root)
    requires TableGrew(m0, free0, m1, free1, root) && TableGrew(m1, free1, m2, free2, root)
    ensures TableGrew(m0, free0, m2, free2, root)
  {
    hide Wf, Tables;
  }

  /** Writing one level-0 entry changes the view at that page only. */
  lemma SetLeaf(m0: Mem, m1: Mem, free: set<nat>, root: nat, v: nat, w: Word)
    requires Wf(m0, root) && v < PAGES && m0[root][v / 1024] != 0
    requires LeafEntryOk(w)
    requires var t := PtePpn(m0[root][v / 1024]); t in m0 && m1 == m0[t := m0[t][v % 1024 := w]]
    ensures Wf(m1, root) && Tables(m1, root) == Tables(m0, root)
    ensures View(m1, root) == if w == 0 then View(m0, root) - {v} else View(m0, root)[v := LeafOf(w)]
    ensures m1.Keys == m0.Keys && TableGrew(m0, free, m1, free, root)
    ensures SameOutside(m0, m1, TableFrames(m0, root))
  {
    hide Wf, LeafWord, LeafEntryOk, PtePpn, PtePerm, TableGrew, Tables;
    SetLeafWords(m0, m1, free, root, v, w);
    var view := if w == 0 then View(m0, root) - {v} else View(m0, root)[v := LeafOf(w)];
    forall u: nat
      ensures u in View(m1, root) <==> u in view
      ensures u in view ==> View(m1, root)[u] == view[u]
    {
      if u < PAGES {
        assert LeafWord(m1, root, u) == if u == v then w else LeafWord(m0, root, u);
      }
    }
  }

  lemma SetLeafWords(m0: Mem, m1: Mem, free: set<nat>, root: nat, v: nat, w: Word)
    requires Wf(m0, root) && v < PAGES && m0[root][v / 1024] != 0
    requires LeafEntryOk(w)
    requires var t := PtePpn(m0[root][v / 1024]); t in m0 && m1 == m0[t := m0[t][v % 1024 := w]]
    ensures Wf(m1, root) && Tables(m1, root) == Tables(m0, root) && TableGrew(m0, free, m1, free, root)
    ensures forall u: nat | u < PAGES :: LeafWord(m1, root, u) == if u == v then w else LeafWord(m0, root, u)
  {
    var t := PtePpn(m0[root][v / 1024]);
    assert RootEntryOk(m0, root, m0[root][v / 1024]);
    assert t in Tables(m0, root);
    assert m1[root] == m0[root];
    forall i | 0 <= i < ENTRIES
      ensures RootEntryOk(m1, root, m1[root][i])
    {
      assert RootEntryOk(m0, root, m0[root][i]);
    }
    assert Wf(m1, root);
    forall u: nat | u < PAGES
      ensures LeafWord(m1, root, u) == if u == v then w else LeafWord(m0, root, u)
    {
      assert RootEntryOk(m0, root, m0[root][u / 1024]);
      if u / 1024 == v / 1024 {
        assert u == 1024 * (u / 1024) + u % 1024;
        assert v == 1024 * (v / 1024) + v % 1024;
      }
    }
  }

  /** Hanging a fresh zeroed table into an empty root slot leaves the view alone. */
  lemma AddTable(m0: Mem, free0: set<nat>, m1: Mem, root: nat, i: nat, f: nat)
    requires Wf(m0, root) && i < ENTRIES && m0[root][i] == 0
    requires f !in m0 && f in free0 && f < PAGES
    requires m1.Keys == m0.Keys + {f} && m1[f] == ZERO_PAGE
    requires m1[root] == m0[root][i := MakePte(f, 0)]
    requires SameOutside(m0, m1, {root})
    ensures Wf(m1, root) && Tables(m1, root) == Tables(m0, root) + {f} && View(m1, root) == View(m0, root)
    ensures TableGrew(m0, free0, m1, free0 - {f}, root)
  {
    hide LeafOf, PtePerm, MakePte, PteR, PteW, PteX, PteU;
    PteRoundTrip(f, 0);
    forall k | 0 <= k < ENTRIES
      ensures RootEntryOk(m1, root, m1[root][k])
    {
      assert RootEntryOk(m0, root, m0[root][k]);
      assert k != i ==> m1[root][k] == m0[root][k];
    }
    assert Wf(m1, root);
    AddTableFrames(m0, m1, root, i, f);
    forall v: nat | v < PAGES
      ensures LeafWord(m1, root, v) == LeafWord(m0, root, v)
    {
      assert RootEntryOk(m0, root, m0[root][v / 1024]);
    }
    SameWordsSameView(m0, m1, root);
  }

  lemma AddTableFrames(m0: Mem, m1: Mem, root: nat, i: nat, f: nat)
    requires root in m0 && root in m1 && i < ENTRIES && m0[root][i] == 0
    requires exists w: Word :: (w != 0 && PtePpn(w) == f && m1[root] == m0[root][i := w])
    ensures Tables(m1, root) == Tables(m0, root) + {f}
  {
    var w: Word :| w != 0 && PtePpn(w) == f && m1[root] == m0[root][i := w];
    assert m1[root][i] == w;
    forall t | t in Tables(m0, root)
      ensures t in Tables(m1, root)
    {
      var k :| 0 <= k < ENTRIES && m0[root][k] != 0 && t == PtePpn(m0[root][k]);
      assert m1[root][k] == m0[root][k];
    }
  }

  lemma PermBitsZero()
    ensures PermBits(0)
  {
  }

  /** `AddTable` for a memory built by two writes after an allocation. */
  lemma ZeroTableAdded(m0: Mem, free0: set<nat>, m1: Mem, root: nat, i: nat, f: nat)
    requires Wf(m0, root) && i < ENTRIES && root in m0 && m0[root][i] == 0
    requires f !in m0 && f in free0 && f < PAGES && PermBits(0)
    requires m1.Keys == m0.Keys + {f} && SameOutside(m0, m1, {})
    ensures var m2 := m1[f := ZERO_PAGE]; var m3 := m2[root := m2[root][i := MakePte(f, 0)]];
      Wf(m3, root) && View(m3, root) == View(m0, root) && TableGrew(m0, free0, m3, free0 - {f}, root)
  {
    var m2 := m1[f := ZERO_PAGE];
    AddTable(m0, free0, m2[root := m2[root][i := MakePte(f, 0)]], root, i, f);
  }
}
