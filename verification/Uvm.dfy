/** `Uvm`: user address spaces that are grown, shrunk, loaded, cloned and dropped. */
module AddressSpaces {
  import opened Options
  import opened Ram
  import opened TableView
  import opened PageTables
  import opened Spaces
  import opened DeepCopy

  lemma RamFrames(ram: Memory)
    requires ram.Valid()
    ensures InRam(ram.mem) && ram.mem.Keys !! ram.free
  {
  }

  lemma AfterAllocSpace(m0: Mem, free0: set<nat>, m1: Mem, free1: set<nat>, page: nat, root: nat, n: nat)
    requires Space(m0, root, n) && Taken(m0, free0, m1, free1, page)
    ensures Wf(m0, root) && Wf(m1, root) && page + 1 < PAGES
  {
    AfterAlloc(m0, m1, root);
  }

  lemma KernelPerms()
    ensures PermBits(PTE_R + PTE_X) && PermLeaf(PTE_R + PTE_X) && !PermU(PTE_R + PTE_X)
    ensures PermBits(PTE_R + PTE_W) && PermLeaf(PTE_R + PTE_W) && !PermU(PTE_R + PTE_W)
  {
  }

  lemma TookNone(m: Mem, free: set<nat>, root: nat, n: nat)
    requires Wf(m, root) && root in m
    ensures Took(m, free, m, free, root, n, n)
  {
    hide Wf, Footprint, TableFrames;
  }

  /** The upper part of what an address space owns. */
  lemma OwnsAbove(m: Mem, root: nat, k: nat, n: nat)
    requires OwnsUserFrames(m, root, USER_VPN, n) && k <= n
    ensures OwnsUserFrames(m, root, USER_VPN + k, n - k)
  {
    hide Wf, View, UserLeaf, TableFrames;
  }

  /** The root goes back last. */
  lemma DropRoot(m0: Mem, free0: set<nat>, m1: Mem, free1: set<nat>, root: nat, n: nat, frames: set<nat>)
    requires Gave(m0, free0, m1, free1, root, frames) && frames == UserFrames(View(m0, root), USER_VPN, n)
    ensures var back := {root} + frames;
      && (m1 - {root}).Keys == m0.Keys - back && free1 + {root} == free0 + back
      && Tables(m0, root) <= (m1 - {root}).Keys
      && SameOutside(m0, m1 - {root}, Footprint(m0, root, n))
  {
    hide Wf, View, UserFrames;
    forall t | t in Tables(m0, root)
      ensures t in m0 && t != root
    {
      TableNotRoot(m0, root, t);
    }
  }

  lemma TableNotRoot(m: Mem, root: nat, t: nat)
    requires Wf(m, root) && root in m && t in Tables(m, root)
    ensures t in m && t != root
  {
    var i :| 0 <= i < ENTRIES && m[root][i] != 0 && t == PtePpn(m[root][i]);
    assert RootEntryOk(m, root, m[root][i]);
  }

  /** The byte a user address stands for, if its page is mapped. */
  ghost function ByteAt(m: Mem, view: map<nat, Leaf>, va: nat): Option<Byte> {
    if va / PAGESIZE in view && view[va / PAGESIZE].frame in m
    then Some(GetByte(m[view[va / PAGESIZE].frame], va % PAGESIZE))
    else None
  }

  /** The bytes from `va` on. */
  ghost predicate Holds(m: Mem, view: map<nat, Leaf>, va: nat, bytes: seq<Byte>) {
    forall k: nat | k < |bytes| :: ByteAt(m, view, va + k) == Some(bytes[k])
  }

  /** `count` pages of the user part, from `v` on, are mapped. */
  ghost predicate UserMapped(view: map<nat, Leaf>, n: nat, v: nat, count: nat) {
    forall u: nat | v <= u < v + count :: u in view && InUser(u, n)
  }

  /** Only frames behind user pages have new contents. */
  ghost predicate Rewritten(m0: Mem, m1: Mem, view: map<nat, Leaf>, n: nat) {
    m1.Keys == m0.Keys && SameOutside(m0, m1, UserFrames(view, USER_VPN, n))
  }

  lemma RewrittenNone(m: Mem, view: map<nat, Leaf>, n: nat)
    ensures Rewritten(m, m, view, n)
  {
    hide UserFrames;
  }

  lemma RewrittenSnoc(m0: Mem, m1: Mem, view: map<nat, Leaf>, n: nat, v: nat, p: Page)
    requires Rewritten(m0, m1, view, n) && v in view && view[v].frame in UserFrames(view, USER_VPN, n) && view[v].frame in m1
    ensures Rewritten(m0, m1[view[v].frame := p], view, n)
  {
    hide UserFrames;
  }

  /** The first `i` pages from `v` on hold consecutive pages' worth of `bytes`. */
  ghost predicate Filled(m: Mem, view: map<nat, Leaf>, v: nat, bytes: seq<Byte>, i: nat) {
    && i * PAGESIZE <= |bytes|
    && (forall j: nat | j < i :: FilledPage(m, view, v, bytes, j))
  }

  ghost predicate FilledPage(m: Mem, view: map<nat, Leaf>, v: nat, bytes: seq<Byte>, j: nat)
    requires (j + 1) * PAGESIZE <= |bytes|
  {
    v + j in view && view[v + j].frame in m && m[view[v + j].frame] == PageOf(bytes[j * PAGESIZE..(j + 1) * PAGESIZE])
  }

  lemma FilledNone(m: Mem, view: map<nat, Leaf>, v: nat, bytes: seq<Byte>)
    ensures Filled(m, view, v, bytes, 0)
  {
  }

  lemma FilledSnoc(m: Mem, root: nat, n: nat, v: nat, bytes: seq<Byte>, i: nat)
    requires Space(m, root, n) && UserMapped(View(m, root), n, v, i + 1)
    requires (i + 1) * PAGESIZE <= |bytes| && Filled(m, View(m, root), v, bytes, i)
    ensures var view := View(m, root);
      Filled(m[view[v + i].frame := PageOf(bytes[i * PAGESIZE..(i + 1) * PAGESIZE])], view, v, bytes, i + 1)
  {
    hide Space, View, Wf, PageOf;
    SpaceParts(m, root, n);
    var view := View(m, root);
    var m1 := m[view[v + i].frame := PageOf(bytes[i * PAGESIZE..(i + 1) * PAGESIZE])];
    forall j: nat | j < i + 1
      ensures FilledPage(m1, view, v, bytes, j)
    {
      if j < i {
        assert FilledPage(m, view, v, bytes, j);
        UserPagesDiffer(m, root, n, v + j, v + i);
      }
    }
  }

  lemma FilledHolds(m: Mem, view: map<nat, Leaf>, va: nat, img: seq<Byte>, bytes: seq<Byte>, count: nat)
    requires va % PAGESIZE == 0 && img <= bytes && |img| <= count * PAGESIZE
    requires Filled(m, view, va / PAGESIZE, bytes, count)
    ensures Holds(m, view, va, img)
  {
    hide PageOf, GetByte;
    forall k: nat | k < |img|
      ensures ByteAt(m, view, va + k) == Some(img[k])
    {
      var j := k / PAGESIZE;
      assert (va + k) / PAGESIZE == va / PAGESIZE + j && (va + k) % PAGESIZE == k % PAGESIZE;
      assert FilledPage(m, view, va / PAGESIZE, bytes, j);
      PageOfByte(bytes[j * PAGESIZE..(j + 1) * PAGESIZE], k % PAGESIZE);
    }
  }

  lemma UserPageBound(m: Mem, root: nat, n: nat, v: nat)
    requires Space(m, root, n) && InRam(m) && InUser(v, n)
    ensures v + 1 < PAGES
  {
    SpaceBound(m, root, n);
  }

  /** There is a level-0 table for page `v`. */
  ghost predicate HasTable(m: Mem, root: nat, v: nat) {
    root in m && v < PAGES && m[root][v / 1024] != 0
  }

  lemma CloningParts(m0: Mem, free0: set<nat>, m: Mem, free: set<nat>, root0: nat, root: nat, n: nat, i: nat)
    requires Cloning(m0, free0, m, free, root0, root, n, i)
    ensures Space(m0, root0, n) && Space(m, root, i) && Wf(m0, root0) && root0 in m0 && Wf(m, root) && root in m
  {
  }

  lemma UserLeafPerm(l: Leaf)
    requires UserLeaf(l)
    ensures l.perm != 0 && WithU(l.perm) == l.perm && PermLeaf(l.perm) && PermU(l.perm)
  {
  }

  class Uvm {
    var begin: nat
    var size: nat
    const pagetable: PageTable

    constructor (pagetable: PageTable)
      ensures begin == USER_START && size == 0 && this.pagetable == pagetable
    {
      begin, size, this.pagetable := USER_START, 0, pagetable;
    }

    ghost predicate Valid()
      reads this, pagetable.ram
    {
      && pagetable.ram.Valid() && begin == USER_START && size % PAGESIZE == 0
      && Space(pagetable.ram.mem, pagetable.root, size / PAGESIZE)
    }

    static method New(ram: Memory) returns (r: Option<Uvm>)
      requires ram.Valid()
      modifies ram
      ensures ram.Valid()
      ensures r.None? ==> ram.mem == old(ram.mem) && ram.free == old(ram.free)
      ensures r.Some? ==> var u, root := r.value, r.value.pagetable.root;
        && fresh(u) && fresh(u.pagetable) && u.pagetable.ram == ram && u.Valid() && u.size == 0
        && root in old(ram.free) && root !in old(ram.mem) && ram.free == old(ram.free) - {root}
        && ram.mem.Keys == old(ram.mem.Keys) + {root} && SameOutside(old(ram.mem), ram.mem, {})
        && View(ram.mem, root) == map[] && Tables(ram.mem, root) == {}
    {
      var pt := PageTable.New(ram);
      if pt.None? {
        return None;
      }
      NewSpace(ram.mem, pt.value.root);
      var u := new Uvm(pt.value);
      r := Some(u);
    }

    function End(): nat
      reads this
    {
      begin + size
    }

    /** One turn of `alloc`'s loop, when it maps a page. */
    method AllocPage(perm: nat, ghost n: nat) returns (ok: bool)
      requires Valid() && size == n * PAGESIZE && PermBits(perm) && PermLeaf(perm)
      modifies this`size, pagetable.ram
      ensures pagetable.ram.Valid() && begin == USER_START && Space(pagetable.ram.mem, pagetable.root, size / PAGESIZE)
      ensures !ok ==> size == old(size) && pagetable.ram.mem == old(pagetable.ram.mem) && pagetable.ram.free == old(pagetable.ram.free)
      ensures ok ==> size == (n + 1) * PAGESIZE
      ensures ok ==> Grown(old(pagetable.ram.mem), old(pagetable.ram.free), pagetable.ram.mem, pagetable.ram.free,
                           pagetable.root, n, n + 1, perm)
    {
      hide PermBits, PermLeaf, PermU, PermR, PermW, PermX, WithU, Space, Grown, Mapped, Wf, View, SameOutside,
           InRam, Memory.Valid, MappedCount, Taken, Range, UserCount, TableGrew;
      var ram, root := pagetable.ram, pagetable.root;
      assert size / PAGESIZE == n;
      ghost var m0, free0 := ram.mem, ram.free;
      RamFrames(ram);
      SpaceBound(m0, root, n);
      WithUFacts(perm);
      var page := ram.Alloc();
      if page == 0 {
        return false;
      }
      ghost var m1, free1 := ram.mem, ram.free;
      AfterAllocSpace(m0, free0, m1, free1, page, root, n);
      var end := End();
      assert end == (USER_VPN + n) * PAGESIZE;
      var mapped := pagetable.MapOne(end, page * PAGESIZE, WithU(perm), USER_VPN + n, page);
      if mapped != Ok {
        ram.Dealloc(page);
        TakenBack(m0, free0, m1, free1, page);
        return false;
      }
      GrowPage(m0, free0, m1, free1, ram.mem, ram.free, root, n, page, perm);
      size := size + PAGESIZE;
      ok := true;
    }

    /** Lengthens the user part to `target` bytes, rounded up to whole pages. */
    method Alloc(target: nat, perm: nat) returns (r: Outcome)
      requires Valid() && target <= USIZE_MAX
      requires perm == 0 || (PermBits(perm) && PermLeaf(perm))
      requires perm == 0 ==>
        (target + PAGESIZE - 1) / PAGESIZE <= MappedCount(pagetable.ram.mem, pagetable.root, size / PAGESIZE) + HOLES_MAX
      modifies this`size, pagetable.ram
      ensures Valid() && r != Panic
      ensures Grown(old(pagetable.ram.mem), old(pagetable.ram.free), pagetable.ram.mem, pagetable.ram.free,
                    pagetable.root, old(size) / PAGESIZE, size / PAGESIZE, perm)
      ensures r == Ok ==> size == if old(size) < target then (target + PAGESIZE - 1) / PAGESIZE * PAGESIZE else old(size)
      ensures r == Err ==> perm != 0 && old(size) <= size < target
    {
      hide Space, Grown, PermBits, PermLeaf, MappedCount;
      ghost var ram, root, n0, n := pagetable.ram, pagetable.root, size / PAGESIZE, size / PAGESIZE;
      GrownNone(ram.mem, ram.free, root, n0, perm);
      while size < target
        invariant size == n * PAGESIZE && n0 <= n && (n == n0 || size < target + PAGESIZE)
        invariant begin == USER_START && ram.Valid()
        invariant Space(ram.mem, root, n)
        invariant Grown(old(ram.mem), old(ram.free), ram.mem, ram.free, root, n0, n, perm)
        invariant perm == 0 ==> MappedCount(ram.mem, root, n) == MappedCount(old(ram.mem), root, n0)
        decreases target - size
      {
        ghost var m1, free1 := ram.mem, ram.free;
        RamFrames(ram);
        if perm == 0 {
          GrowGuard(ram.mem, ram.free, root, n);
          size := size + PAGESIZE;
        } else {
          var ok := AllocPage(perm, n);
          if !ok {
            return Err;
          }
        }
        GrownSnoc(old(ram.mem), old(ram.free), m1, free1, ram.mem, ram.free, root, n0, n, perm);
        n := n + 1;
      }
      r := Ok;
    }

    method Grow(more: nat, perm: nat) returns (r: Outcome)
      requires Valid() && more <= USIZE_MAX
      requires perm == 0 || (PermBits(perm) && PermLeaf(perm))
      requires perm == 0 ==>
        (size + more + PAGESIZE - 1) / PAGESIZE <= MappedCount(pagetable.ram.mem, pagetable.root, size / PAGESIZE) + HOLES_MAX
      modifies this`size, pagetable.ram
      ensures Valid() && (r == Panic <==> old(size) + more > USIZE_MAX)
      ensures Grown(old(pagetable.ram.mem), old(pagetable.ram.free), pagetable.ram.mem, pagetable.ram.free,
                    pagetable.root, old(size) / PAGESIZE, size / PAGESIZE, perm)
      ensures r == Ok ==> size == (old(size) + more + PAGESIZE - 1) / PAGESIZE * PAGESIZE
      ensures r == Err ==> perm != 0 && old(size) <= size < old(size) + more
    {
      hide Space, Grown, PermBits, PermLeaf, MappedCount, Memory.Valid;
      if size + more > USIZE_MAX {
        GrownNone(pagetable.ram.mem, pagetable.ram.free, pagetable.root, size / PAGESIZE, perm);
        return Panic;
      }
      r := Alloc(size + more, perm);
    }

    /** Shortens the user part to `target` bytes. */
    method Dealloc(target: nat) returns (r: Outcome)
      requires Valid() && target <= USIZE_MAX
      modifies this`size, pagetable.ram
      ensures target % PAGESIZE != 0 ==> r == Err
      ensures target % PAGESIZE == 0 ==> r == if old(size) < target then Panic else Ok
      ensures r != Ok ==> size == old(size) && pagetable.ram.mem == old(pagetable.ram.mem) && pagetable.ram.free == old(pagetable.ram.free)
      ensures r == Ok ==> Valid() && size == target
      ensures r == Ok ==> var m0, root, n, k := old(pagetable.ram.mem), pagetable.root, old(size) / PAGESIZE, target / PAGESIZE;
        && View(pagetable.ram.mem, root) == View(m0, root) - Pages(USER_VPN + k, n - k)
        && Gave(m0, old(pagetable.ram.free), pagetable.ram.mem, pagetable.ram.free, root, UserFrames(View(m0, root), USER_VPN + k, n - k))
    {
      hide Space, Unmapped, OwnsUserFrames, View, Gave, Memory.Valid, InRam, Pages, UserFrames;
      if target % PAGESIZE != 0 {
        return Err;
      }
      if size < target {
        return Panic;
      }
      var ram, root := pagetable.ram, pagetable.root;
      ghost var m0, free0, n, k := ram.mem, ram.free, size / PAGESIZE, target / PAGESIZE;
      RamFrames(ram);
      SpaceBound(m0, root, n);
      SpaceParts(m0, root, n);
      OwnsAbove(m0, root, k, n);
      var newEnd := USER_START + target;
      assert newEnd / PAGESIZE == USER_VPN + k && (size - target) / PAGESIZE == n - k;
      var unmapped := pagetable.Unmap(newEnd, size - target, true);
      CutUser(m0, free0, ram.mem, ram.free, root, k, n);
      size := target;
      r := Ok;
    }

    /** Maps the trampoline page and the process's own trapframe page, both for the first time. */
    method InitProc(trampoline: nat, trapframe: nat) returns (r: Outcome)
      requires Valid() && trampoline + 1 < PAGES && trapframe + 1 < PAGES
      requires KernelPagesFree(View(pagetable.ram.mem, pagetable.root))
      modifies pagetable.ram
      ensures Valid() && r != Panic
      ensures Took(old(pagetable.ram.mem), old(pagetable.ram.free), pagetable.ram.mem, pagetable.ram.free,
                   pagetable.root, size / PAGESIZE, size / PAGESIZE)
      ensures var view0, view := View(old(pagetable.ram.mem), pagetable.root), View(pagetable.ram.mem, pagetable.root);
        if r == Ok then
          view == view0[TRAMPOLINE_VPN := Leaf(trampoline, PTE_R + PTE_X)][TRAPFRAME_VPN := Leaf(trapframe, PTE_R + PTE_W)]
        else
          view == view0 || view == view0[TRAMPOLINE_VPN := Leaf(trampoline, PTE_R + PTE_X)]
    {
      hide Space, Mapped, PermBits, PermLeaf, PermU, View, Took, Memory.Valid, InRam, Wf, Footprint;
      var ram, root := pagetable.ram, pagetable.root;
      ghost var m0, free0, n := ram.mem, ram.free, size / PAGESIZE;
      RamFrames(ram);
      SpaceParts(m0, root, n);
      KernelPerms();
      var first := pagetable.MapOne(TRAMPOLINE, trampoline * PAGESIZE, PTE_R + PTE_X, TRAMPOLINE_VPN, trampoline);
      if first != Ok {
        TookNone(m0, free0, root, n);
        return first;
      }
      ghost var m1, free1 := ram.mem, ram.free;
      MapKernelPage(m0, free0, m1, free1, root, n, TRAMPOLINE_VPN, trampoline, 1, PTE_R + PTE_X);
      RamFrames(ram);
      r := pagetable.MapOne(TRAPFRAME, trapframe * PAGESIZE, PTE_R + PTE_W, TRAPFRAME_VPN, trapframe);
      if r == Ok {
        MapKernelPage(m1, free1, ram.mem, ram.free, root, n, TRAPFRAME_VPN, trapframe, 1, PTE_R + PTE_W);
        SpaceParts(m1, root, n);
        SpaceParts(ram.mem, root, n);
        TookTransitive(m0, free0, m1, free1, ram.mem, ram.free, root, n, n, n);
      }
    }

    /** Dropping an address space: `Uvm::free`, then `PageTable::free`.  The panic about a page
        that is still mapped never happens; the frames behind the user pages and the root go
        back, each once, and the level-0 tables stay handed out. */
    method Drop() returns (r: Outcome)
      requires Valid()
      modifies pagetable.ram
      ensures r == Ok && pagetable.ram.Valid()
      ensures var m0, root, n := old(pagetable.ram.mem), pagetable.root, size / PAGESIZE;
        var back := {root} + UserFrames(View(m0, root), USER_VPN, n);
        && pagetable.ram.mem.Keys == m0.Keys - back && pagetable.ram.free == old(pagetable.ram.free) + back
        && Tables(m0, root) <= pagetable.ram.mem.Keys
        && SameOutside(m0, pagetable.ram.mem, Footprint(m0, root, n))
    {
      hide Space, View, Gave, Memory.Valid, InRam, Wf, Footprint, Unmapped, OwnsUserFrames, Pages, UserFrames,
           AllLeaves, SameOutside, Tables;
      var ram, root := pagetable.ram, pagetable.root;
      ghost var m0, free0, n := ram.mem, ram.free, size / PAGESIZE;
      RamFrames(ram);
      SpaceParts(m0, root, n);
      SpaceBound(m0, root, n);
      var u1 := pagetable.Unmap(TRAMPOLINE, PAGESIZE, false);
      ghost var m1, free1 := ram.mem, ram.free;
      UnmapKernelPage(m0, free0, m1, free1, root, n, TRAMPOLINE_VPN);
      RamFrames(ram);
      SpaceParts(m1, root, n);
      var u2 := pagetable.Unmap(TRAPFRAME, PAGESIZE, false);
      ghost var m2, free2 := ram.mem, ram.free;
      UnmapKernelPage(m1, free1, m2, free2, root, n, TRAPFRAME_VPN);
      GaveTransitive(m0, free0, m1, free1, m2, free2, root, {}, {});
      RamFrames(ram);
      SpaceParts(m2, root, n);
      if size > 0 {
        OwnsAbove(m2, root, 0, n);
        var u3 := pagetable.Unmap(begin, size, true);
      } else {
        UnmappedNone(m2, free2, root, USER_VPN, true);
      }
      CutUser(m2, free2, ram.mem, ram.free, root, 0, n);
      GaveTransitive(m0, free0, m2, free2, ram.mem, ram.free, root, {} + {}, UserFrames(View(m2, root), USER_VPN, n));
      ghost var m3, free3 := ram.mem, ram.free;
      SpaceParts(m3, root, 0);
      AllUnmapped(m3, root);
      var panicked := pagetable.FreeReq(root, 1);
      ram.Dealloc(root);
      DropRoot(m0, free0, m3, free3, root, n, {} + {} + UserFrames(View(m2, root), USER_VPN, n));
      r := if panicked then Panic else Ok;
    }

    /** One turn of `load`'s loop: clears a page and copies a whole page of bytes into it. */
    method LoadPage(va: nat, src: seq<Byte>, ghost v: nat) returns (ok: bool)
      requires Valid() && |src| == PAGESIZE && va == v * PAGESIZE
      requires InUser(v, size / PAGESIZE) && v in View(pagetable.ram.mem, pagetable.root)
      modifies pagetable.ram
      ensures Valid() && ok && pagetable.ram.free == old(pagetable.ram.free)
      ensures View(pagetable.ram.mem, pagetable.root) == View(old(pagetable.ram.mem), pagetable.root)
      ensures pagetable.ram.mem
        == old(pagetable.ram.mem)[View(old(pagetable.ram.mem), pagetable.root)[v].frame := PageOf(src)]
    {
      hide Space, View, Wf, Memory.Valid, UserFrames, LeafWord, PteV, PteR, PteW, PteX, PteU, PermR, PermW, PermX,
           PermU, PtePpn, PtePerm, Tables, PageOf, ZERO_PAGE;
      var ram, root := pagetable.ram, pagetable.root;
      ghost var m0: Mem, n := ram.mem, size / PAGESIZE;
      RamFrames(ram);
      SpaceParts(m0, root, n);
      UserPageBound(m0, root, n, v);
      UserPageFrame(m0, root, n, v);
      assert va / PAGESIZE == v;
      RootSlot(m0, root, v);
      LeafSlot(m0, root, v);
      var walked := pagetable.Walk(va, false);
      if walked.None? {
        return false;
      }
      var (t, j) := walked.value;
      var pte := ram.mem[t][j];
      var dst := PtePpn(pte);
      StoreFrame(m0, root, n, dst, PageOf(src));
      ram.WritePage(dst, ZERO_PAGE);
      ram.WritePage(dst, PageOf(src));
      assert m0[dst := ZERO_PAGE][dst := PageOf(src)] == m0[dst := PageOf(src)];
      ok := true;
    }

    /** Copies `img` to the pages from `va` on, which have to be there.  `beyond` is what follows
        the image in the kernel's memory: the last page is always copied whole. */
    method Load(va: nat, img: seq<Byte>, beyond: seq<Byte>) returns (r: Outcome)
      requires Valid() && |beyond| >= PAGESIZE
      requires UserMapped(View(pagetable.ram.mem, pagetable.root), size / PAGESIZE, va / PAGESIZE, (|img| + PAGESIZE - 1) / PAGESIZE)
      modifies pagetable.ram
      ensures Valid() && (r == if va % PAGESIZE == 0 then Ok else Err)
      ensures View(pagetable.ram.mem, pagetable.root) == View(old(pagetable.ram.mem), pagetable.root)
      ensures Rewritten(old(pagetable.ram.mem), pagetable.ram.mem, View(pagetable.ram.mem, pagetable.root), size / PAGESIZE)
      ensures pagetable.ram.free == old(pagetable.ram.free)
      ensures r == Ok ==> Holds(pagetable.ram.mem, View(pagetable.ram.mem, pagetable.root), va, img)
    {
      hide LeafKinds, OwnsUserFrames, UserCount, View, Wf, Memory.Valid, UserFrames, PageOf, Holds, Filled, Rewritten;
      var ram, root := pagetable.ram, pagetable.root;
      ghost var m0, n, v0, view := ram.mem, size / PAGESIZE, va / PAGESIZE, View(ram.mem, root);
      SpaceParts(m0, root, n);
      RewrittenNone(m0, view, n);
      if va % PAGESIZE != 0 {
        return Err;
      }
      var count := (|img| + PAGESIZE - 1) / PAGESIZE;
      ghost var bytes := img + beyond;
      FilledNone(m0, view, v0, bytes);
      for i := 0 to count
        invariant Valid() && View(ram.mem, root) == view && ram.free == old(ram.free)
        invariant Rewritten(m0, ram.mem, view, n)
        invariant Filled(ram.mem, view, v0, bytes, i)
      {
        ghost var m1 := ram.mem;
        var chunk := (img + beyond)[i * PAGESIZE..(i + 1) * PAGESIZE];
        UserPageFrame(m1, root, n, v0 + i);
        var ok := LoadPage(va + i * PAGESIZE, chunk, v0 + i);
        FilledSnoc(m1, root, n, v0, bytes, i);
        RewrittenSnoc(m0, m1, view, n, v0 + i, PageOf(chunk));
      }
      FilledHolds(ram.mem, view, va, img, bytes, count);
      r := Ok;
    }

    /** One turn of `clone`'s loop. */
    method ClonePage(vm: Uvm, addr: nat, ghost i: nat, ghost m0: Mem, ghost free0: set<nat>) returns (r: CloneResult<bool>)
      requires pagetable.ram.Valid() && vm.pagetable.ram == pagetable.ram && i < size / PAGESIZE
      requires addr == (USER_VPN + i) * PAGESIZE
      requires Cloning(m0, free0, pagetable.ram.mem, pagetable.ram.free, pagetable.root, vm.pagetable.root, size / PAGESIZE, i)
      modifies pagetable.ram
      ensures pagetable.ram.Valid()
      ensures r.Cloned? ==>
        Cloning(m0, free0, pagetable.ram.mem, pagetable.ram.free, pagetable.root, vm.pagetable.root, size / PAGESIZE, i + 1)
      ensures r.Cloned? ==> HasTable(m0, pagetable.root, USER_VPN + i)
      ensures r.MissingTable? ==> !HasTable(m0, pagetable.root, USER_VPN + i)
    {
      hide Space, View, Wf, Memory.Valid, UserFrames, LeafWord, PteV, PteR, PteW, PteX, PteU, PermR, PermW, PermX,
           PermU, PtePpn, PtePerm;
      hide Tables, Cloning, Footprint, TableFrames, Grown, Mapped, InRam, MappedCount;
      var ram, root0, root := pagetable.ram, pagetable.root, vm.pagetable.root;
      ghost var m1: Mem, free1, n, v := ram.mem, ram.free, size / PAGESIZE, USER_VPN + i;
      assert addr / PAGESIZE == v;
      RamFrames(ram);
      CloningParts(m0, free0, m1, free1, root0, root, n, i);
      ParentKept(m0, free0, m1, free1, root0, root, n, i);
      SpaceParts(m1, root0, n);
      UserPageBound(m1, root0, n, v);
      RootSlot(m1, root0, v);
      LeafSlot(m1, root0, v);
      var walked := pagetable.Walk(addr, false);
      if walked.None? {
        return MissingTable;
      }
      var (t, j) := walked.value;
      var pte := ram.mem[t][j];
      if !PteV(pte) {
        CloneHole(m0, free0, m1, free1, root0, root, n, i);
        GrowGuard(m1, free1, root, i);
        StepHole(m1, free1, View(m0, root0), root, i);
      } else {
        UserPageFrame(m1, root0, n, v);
        var page := ram.Alloc();
        if page == 0 {
          return OutOfFrames;
        }
        ram.WritePage(page, ram.mem[PtePpn(pte)]);
        ghost var mA: Mem, freeA := ram.mem, ram.free;
        AfterAllocSpace(m1, free1, mA, freeA, page, root, i);
        UserLeafPerm(View(m1, root0)[v]);
        PermOfPte(pte);
        var mapped := vm.pagetable.MapOne(addr, page * PAGESIZE, PtePerm(pte), v, page);
        if mapped != Ok {
          return OutOfFrames;
        }
        GrowPage(m1, free1, mA, freeA, ram.mem, ram.free, root, i, page, PtePerm(pte));
        StepPage(m1, free1, mA, freeA, ram.mem, ram.free, View(m0, root0), root, i, page);
      }
      CloneSnoc(m0, free0, m1, free1, ram.mem, ram.free, root0, root, n, i);
      r := Cloned(true);
    }

    /** A deep copy.  It stops with `MissingTable` exactly when some page of the user part has no
        level-0 table: the walk then has no entry to read. */
    method Clone() returns (r: CloneResult<Uvm>)
      requires Valid()
      modifies pagetable.ram
      ensures pagetable.ram.Valid()
      ensures r.Cloned? ==> var vm := r.value;
        && fresh(vm) && fresh(vm.pagetable) && vm.pagetable.ram == pagetable.ram
        && vm.Valid() && vm.begin == begin && vm.size == size
        && Cloning(old(pagetable.ram.mem), old(pagetable.ram.free), pagetable.ram.mem, pagetable.ram.free,
                   pagetable.root, vm.pagetable.root, size / PAGESIZE, size / PAGESIZE)
      ensures r.Cloned? ==> forall v: nat | InUser(v, size / PAGESIZE) :: HasTable(old(pagetable.ram.mem), pagetable.root, v)
      ensures r.MissingTable? ==> exists v: nat :: InUser(v, size / PAGESIZE) && !HasTable(old(pagetable.ram.mem), pagetable.root, v)
    {
      hide Space, View, Wf, Memory.Valid, Cloning, HasTable, Tables, SameOutside;
      var ram := pagetable.ram;
      ghost var m0, free0, n := ram.mem, ram.free, size / PAGESIZE;
      RamFrames(ram);
      SpaceParts(m0, pagetable.root, n);
      SpaceBound(m0, pagetable.root, n);
      var created := New(ram);
      if created.None? {
        return OutOfFrames;
      }
      var vm := created.value;
      CloneStart(m0, free0, ram.mem, ram.free, pagetable.root, vm.pagetable.root, n);
      vm.begin, vm.size := begin, size;
      var addr := USER_START;
      ghost var i := 0;
      while addr < End()
        invariant i <= n && addr == (USER_VPN + i) * PAGESIZE && ram.Valid()
        invariant fresh(vm) && fresh(vm.pagetable) && vm.pagetable.ram == ram && vm.begin == begin && vm.size == size
        invariant Cloning(m0, free0, ram.mem, ram.free, pagetable.root, vm.pagetable.root, n, i)
        invariant forall v: nat | InUser(v, i) :: HasTable(m0, pagetable.root, v)
      {
        var copied := ClonePage(vm, addr, i, m0, free0);
        if !copied.Cloned? {
          assert copied.MissingTable? ==> InUser(USER_VPN + i, n) && !HasTable(m0, pagetable.root, USER_VPN + i);
          return if copied.MissingTable? then MissingTable else OutOfFrames;
        }
        i := i + 1;
        addr := addr + PAGESIZE;
      }
      CloningParts(m0, free0, ram.mem, ram.free, pagetable.root, vm.pagetable.root, n, n);
      r := Cloned(vm);
    }
  }
}
