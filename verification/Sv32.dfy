/** The hardware's view: the virtual address translation process of section 4.3.2 of the
    RISC-V Privileged Architecture (version 20211203) for Sv32, and `walkaddr`'s agreement
    with it.  Accessed and dirty bits and the privilege check of step 5 are not modelled. */
module Sv32 {
  import opened Options
  import opened Ram
  import opened TableView
  import opened PageTables

  const LEVELS := 2

  /** Bits 31..22 (`level` 1) or 21..12 (`level` 0) of a virtual address. */
  function Vpn(va: Word, level: nat): (r: nat)
    requires level < LEVELS
    ensures r < ENTRIES
  {
    if level == 1 then va / PAGESIZE / ENTRIES else va / PAGESIZE % ENTRIES
  }

  /** Steps 2 to 8, with the table in frame `a`; `None` is a fault. */
  function Translate(mem: Mem, a: nat, va: Word, level: nat): Option<nat>
    requires level < LEVELS
    decreases level
  {
    if a !in mem then None                                      // 2: access fault
    else
      var pte := mem[a][Vpn(va, level)];
      if !PteV(pte) || (!PteR(pte) && PteW(pte)) then None      // 3: page fault
      else if PteR(pte) || PteX(pte) then                       // 4: a leaf
        if level == 1 && PtePpn(pte) % ENTRIES != 0 then None   // 6: misaligned superpage
        else if level == 1 then                                 // 8: superpage
          Some((PtePpn(pte) / ENTRIES * ENTRIES + Vpn(va, 0)) * PAGESIZE + va % PAGESIZE)
        else
          Some(PtePpn(pte) * PAGESIZE + va % PAGESIZE)
      else if level == 0 then None                              // 4: no level left
      else Translate(mem, PtePpn(pte), va, level - 1)
  }

  /** Looking an address up in the abstract map. */
  function Lookup(view: map<nat, Leaf>, va: Word): Option<nat> {
    var v := va / PAGESIZE;
    if v in view && PermLeaf(view[v].perm) then Some(view[v].frame * PAGESIZE + va % PAGESIZE) else None
  }

  /** `walkaddr`: physical address for a virtual one. */
  method WalkAddr(pt: PageTable, va: Word) returns (r: Option<nat>)
    requires pt.ram.Valid() && Wf(pt.ram.mem, pt.root)
    modifies pt.ram
    ensures pt.ram.Valid() && Wf(pt.ram.mem, pt.root)
    ensures pt.ram.mem == old(pt.ram.mem) && pt.ram.free == old(pt.ram.free)
    ensures r == Lookup(View(pt.ram.mem, pt.root), va)
  {
    hide View, Wf, TableGrew, LeafWord, PteV, PteR, PteW, PteX, PermR, PermW, PermX, PtePpn, PtePerm;
    var walked := pt.Walk(va, false);
    RootSlot(pt.ram.mem, pt.root, va / PAGESIZE);
    LeafSlot(pt.ram.mem, pt.root, va / PAGESIZE);
    if walked.None? {
      return None;
    }
    var (t, j) := walked.value;
    var pte := pt.ram.mem[t][j];
    if !PteV(pte) || !(PteR(pte) || PteW(pte) || PteX(pte)) {
      return None;
    }
    r := Some(PtePpn(pte) * PAGESIZE + va % PAGESIZE);
  }

  /** The hardware's walk through a well-formed table finds the abstract map's leaf: there are
      no superpages, so level 1 only ever descends. */
  lemma TranslateView(mem: Mem, root: nat, va: Word)
    requires Wf(mem, root)
    ensures var view, v := View(mem, root), va / PAGESIZE;
      Translate(mem, root, va, 1) ==
        if v in view && PermLeaf(view[v].perm) && !(PermW(view[v].perm) && !PermR(view[v].perm))
        then Some(view[v].frame * PAGESIZE + va % PAGESIZE)
        else None
  {
    hide Wf, View, PermR, PermW, PermX, PtePpn, PtePerm, LeafWord;
    var v := va / PAGESIZE;
    RootSlot(mem, root, v);
    LeafSlot(mem, root, v);
    var pte := mem[root][Vpn(va, 1)];
    PermOfPte(pte);
    if pte != 0 {
      assert Translate(mem, root, va, 1) == Translate(mem, PtePpn(pte), va, 0);
    }
  }

  /** The kernel's lookup and the hardware agree on an address exactly when its page is not
      mapped writable but unreadable, an encoding the architecture reserves. */
  lemma WalkAddrIsSv32(mem: Mem, root: nat, va: Word)
    requires Wf(mem, root)
    ensures var view, v := View(mem, root), va / PAGESIZE;
      (Translate(mem, root, va, 1) == Lookup(view, va)) <==>
        !(v in view && PermW(view[v].perm) && !PermR(view[v].perm))
  {
    TranslateView(mem, root, va);
  }
}
