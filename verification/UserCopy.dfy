/** Copies between the kernel and one page of a user address space. */
module UserCopy {
  import opened Arithmetic
  import opened Options
  import opened Ram
  import opened TableView
  import opened PageTables
  import opened Spaces
  import opened AddressSpaces
  import opened ArgStack
  import opened Sv32

  /** Where the copies below write: the user part, or a page that is not mapped at all. */
  ghost predicate UserTarget(view: map<nat, Leaf>, n: nat, v: nat) {
    v in view ==> InUser(v, n)
  }

  /** What the kernel's lookup finds for a page of the user part. */
  lemma UserLookup(m: Mem, root: nat, n: nat, va: Word)
    requires Space(m, root, n) && UserTarget(View(m, root), n, va / PAGESIZE)
    ensures Wf(m, root) && root in m
    ensures var view, v := View(m, root), va / PAGESIZE;
      && Lookup(view, va) == (if v in view then Some(view[v].frame * PAGESIZE + va % PAGESIZE) else None)
      && (v in view ==> view[v].frame in m && view[v].frame in UserFrames(view, USER_VPN, n))
  {
    hide View, Wf, Space, UserFrames, PermLeaf, PermU, TableFrames;
    SpaceParts(m, root, n);
    if va / PAGESIZE in View(m, root) {
      UserPageFrame(m, root, n, va / PAGESIZE);
    }
  }

  lemma FrameAndOffset(frame: nat, off: nat)
    requires off < PAGESIZE
    ensures (frame * PAGESIZE + off) / PAGESIZE == frame && (frame * PAGESIZE + off) % PAGESIZE == off
  {
    PageParts(frame * PAGESIZE + off, frame, off);
  }

  /** `copy_out_cont` for bytes that stay within one page. */
  method CopyOutBytes(u: Uvm, va: Word, data: seq<Byte>) returns (r: Outcome)
    requires u.Valid() && va % PAGESIZE + |data| <= PAGESIZE
    requires UserTarget(View(u.pagetable.ram.mem, u.pagetable.root), u.size / PAGESIZE, va / PAGESIZE)
    modifies u.pagetable.ram
    ensures u.Valid() && View(u.pagetable.ram.mem, u.pagetable.root) == View(old(u.pagetable.ram.mem), u.pagetable.root)
    ensures u.pagetable.ram.free == old(u.pagetable.ram.free)
    ensures r == if va / PAGESIZE in View(u.pagetable.ram.mem, u.pagetable.root) then Ok else Err
    ensures r == Err ==> u.pagetable.ram.mem == old(u.pagetable.ram.mem)
    ensures r == Ok ==> var m0, f := old(u.pagetable.ram.mem), View(u.pagetable.ram.mem, u.pagetable.root)[va / PAGESIZE].frame;
      f in m0 && u.pagetable.ram.mem == m0[f := PutBytes(m0[f], va % PAGESIZE, data)]
  {
    hide Space, View, Wf, Memory.Valid, UserFrames, GetByte, PutByte, Tables;
    var ram, root := u.pagetable.ram, u.pagetable.root;
    ghost var m0: Mem, n := ram.mem, u.size / PAGESIZE;
    UserLookup(m0, root, n, va);
    var pa := WalkAddr(u.pagetable, va);
    if pa.None? {
      return Err;
    }
    ghost var frame := View(m0, root)[va / PAGESIZE].frame;
    FrameAndOffset(frame, va % PAGESIZE);
    var f, off := pa.value / PAGESIZE, pa.value % PAGESIZE;
    for i := 0 to |data|
      invariant ram.Valid() && ram.free == old(ram.free) && f in ram.mem
      invariant ram.mem == m0[f := PutBytes(m0[f], off, data[..i])]
    {
      assert data[..i + 1][..i] == data[..i];
      ram.WritePage(f, PutByte(ram.mem[f], off + i, data[i]));
    }
    assert data[..|data|] == data;
    StoreFrame(m0, root, n, f, PutBytes(m0[f], off, data));
    r := Ok;
  }

  /** `copy_out_cont` for aligned words that stay within one page. */
  method CopyOutWords(u: Uvm, va: Word, data: seq<Word>) returns (r: Outcome)
    requires u.Valid() && va % 4 == 0 && va % PAGESIZE + 4 * |data| <= PAGESIZE
    requires UserTarget(View(u.pagetable.ram.mem, u.pagetable.root), u.size / PAGESIZE, va / PAGESIZE)
    modifies u.pagetable.ram
    ensures u.Valid() && View(u.pagetable.ram.mem, u.pagetable.root) == View(old(u.pagetable.ram.mem), u.pagetable.root)
    ensures u.pagetable.ram.free == old(u.pagetable.ram.free)
    ensures r == if va / PAGESIZE in View(u.pagetable.ram.mem, u.pagetable.root) then Ok else Err
    ensures r == Err ==> u.pagetable.ram.mem == old(u.pagetable.ram.mem)
    ensures r == Ok ==> var m0, f := old(u.pagetable.ram.mem), View(u.pagetable.ram.mem, u.pagetable.root)[va / PAGESIZE].frame;
      f in m0 && va % PAGESIZE / 4 + |data| <= ENTRIES
      && u.pagetable.ram.mem == m0[f := PutWords(m0[f], va % PAGESIZE / 4, data)]
  {
    hide Space, View, Wf, Memory.Valid, UserFrames, GetByte, Tables, PutWords;
    var ram, root := u.pagetable.ram, u.pagetable.root;
    ghost var m0: Mem, n := ram.mem, u.size / PAGESIZE;
    UserLookup(m0, root, n, va);
    var pa := WalkAddr(u.pagetable, va);
    if pa.None? {
      return Err;
    }
    ghost var frame := View(m0, root)[va / PAGESIZE].frame;
    FrameAndOffset(frame, va % PAGESIZE);
    var f, first := pa.value / PAGESIZE, pa.value % PAGESIZE / 4;
    PutWordsNone(m0[f], first);
    assert data[..0] == [];
    for i := 0 to |data|
      invariant ram.Valid() && ram.free == old(ram.free) && f in ram.mem && first + |data| <= ENTRIES
      invariant ram.mem == m0[f := PutWords(m0[f], first, data[..i])]
    {
      PutWordsSnoc(m0[f], first, data, i);
      ram.WriteWord(f, first + i, data[i]);
    }
    assert data[..|data|] == data;
    StoreFrame(m0, root, n, f, PutWords(m0[f], first, data));
    r := Ok;
  }

  /** `copy_in_cont` for bytes that stay within one page. */
  method CopyInBytes(u: Uvm, va: Word, len: nat) returns (r: Option<seq<Byte>>)
    requires u.Valid() && va % PAGESIZE + len <= PAGESIZE
    requires UserTarget(View(u.pagetable.ram.mem, u.pagetable.root), u.size / PAGESIZE, va / PAGESIZE)
    modifies u.pagetable.ram
    ensures u.Valid() && u.pagetable.ram.mem == old(u.pagetable.ram.mem) && u.pagetable.ram.free == old(u.pagetable.ram.free)
    ensures r.Some? <==> va / PAGESIZE in View(u.pagetable.ram.mem, u.pagetable.root)
    ensures r.Some? ==> |r.value| == len && Holds(u.pagetable.ram.mem, View(u.pagetable.ram.mem, u.pagetable.root), va, r.value)
  {
    hide Space, View, Wf, Memory.Valid, UserFrames, GetByte, Tables;
    var ram, root := u.pagetable.ram, u.pagetable.root;
    ghost var m0: Mem, n := ram.mem, u.size / PAGESIZE;
    UserLookup(m0, root, n, va);
    ghost var view := View(m0, root);
    var pa := WalkAddr(u.pagetable, va);
    if pa.None? {
      return None;
    }
    FrameAndOffset(view[va / PAGESIZE].frame, va % PAGESIZE);
    var f, off := pa.value / PAGESIZE, pa.value % PAGESIZE;
    var bytes := [];
    for i := 0 to len
      invariant ram.mem == m0 && ram.free == old(ram.free) && ram.Valid()
      invariant |bytes| == i && Holds(m0, view, va, bytes)
    {
      SamePage(va, i);
      assert ByteAt(m0, view, va + i) == Some(GetByte(m0[f], off + i));
      bytes := bytes + [GetByte(ram.mem[f], off + i)];
    }
    r := Some(bytes);
  }

  lemma SamePage(va: nat, i: nat)
    requires va % PAGESIZE + i < PAGESIZE
    ensures (va + i) / PAGESIZE == va / PAGESIZE && (va + i) % PAGESIZE == va % PAGESIZE + i
  {
  }

  /** What was copied out is there to be copied in, and no other byte of the page changed. */
  lemma CopiedOut(m: Mem, view: map<nat, Leaf>, va: nat, data: seq<Byte>, k: nat)
    requires va % PAGESIZE + |data| <= PAGESIZE && va / PAGESIZE in view && view[va / PAGESIZE].frame in m
    ensures var f := view[va / PAGESIZE].frame; var m1 := m[f := PutBytes(m[f], va % PAGESIZE, data)];
      && Holds(m1, view, va, data)
      && (k / PAGESIZE == va / PAGESIZE && !(va <= k < va + |data|) ==> ByteAt(m1, view, k) == ByteAt(m, view, k))
  {
    hide GetByte, PutBytes;
    var f := view[va / PAGESIZE].frame;
    var m1 := m[f := PutBytes(m[f], va % PAGESIZE, data)];
    forall i: nat | i < |data|
      ensures ByteAt(m1, view, va + i) == Some(data[i])
    {
      SamePage(va, i);
      PutBytesAt(m[f], va % PAGESIZE, data, va % PAGESIZE + i);
    }
    if k / PAGESIZE == va / PAGESIZE && !(va <= k < va + |data|) {
      PutBytesAt(m[f], va % PAGESIZE, data, k % PAGESIZE);
    }
  }
}
