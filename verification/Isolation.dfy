/** Address spaces that share no frame do not see each other's stores; a clone shares none. */
module Isolation {
  import opened Options
  import opened Ram
  import opened TableView
  import opened PageTables
  import opened Spaces
  import opened DeepCopy
  import opened AddressSpaces

  /** Memory after a store of one byte through an address space. */
  ghost function StoreByte(m: Mem, view: map<nat, Leaf>, va: nat, b: Byte): Mem
    requires va / PAGESIZE in view && view[va / PAGESIZE].frame in m
  {
    var f := view[va / PAGESIZE].frame;
    m[f := PutByte(m[f], va % PAGESIZE, b)]
  }

  /** A store changes exactly the addressed byte of the space it goes through. */
  lemma StoreHits(m: Mem, root: nat, n: nat, va: nat, b: Byte, w: nat)
    requires Space(m, root, n) && root in m
    requires InUser(va / PAGESIZE, n) && va / PAGESIZE in View(m, root) && InUser(w / PAGESIZE, n)
    ensures View(m, root)[va / PAGESIZE].frame in m
    ensures var m1 := StoreByte(m, View(m, root), va, b);
      && Space(m1, root, n) && root in m1 && View(m1, root) == View(m, root)
      && ByteAt(m1, View(m, root), w) == if w == va then Some(b) else ByteAt(m, View(m, root), w)
  {
    hide Space, View, Wf, Tables, UserFrames, GetByte;
    SpaceParts(m, root, n);
    UserPageFrame(m, root, n, va / PAGESIZE);
    var view := View(m, root);
    var f := view[va / PAGESIZE].frame;
    StoreFrame(m, root, n, f, PutByte(m[f], va % PAGESIZE, b));
    if w / PAGESIZE != va / PAGESIZE && w / PAGESIZE in view {
      UserPagesDiffer(m, root, n, w / PAGESIZE, va / PAGESIZE);
    }
  }

  /** A store through one space is invisible in another that shares no frame with it. */
  lemma StoreIsPrivate(m: Mem, root: nat, n: nat, va: nat, b: Byte, other: nat, k: nat, w: nat)
    requires Space(m, root, n) && root in m && Space(m, other, k) && other in m
    requires Footprint(m, root, n) !! Footprint(m, other, k)
    requires InUser(va / PAGESIZE, n) && va / PAGESIZE in View(m, root) && InUser(w / PAGESIZE, k)
    ensures View(m, root)[va / PAGESIZE].frame in m
    ensures var m1 := StoreByte(m, View(m, root), va, b);
      && Space(m1, other, k) && other in m1 && View(m1, other) == View(m, other)
      && Footprint(m1, other, k) == Footprint(m, other, k)
      && ByteAt(m1, View(m, other), w) == ByteAt(m, View(m, other), w)
  {
    hide Space, View, Wf, Tables, UserFrames, GetByte, TableFrames;
    SpaceParts(m, root, n);
    SpaceParts(m, other, k);
    UserPageFrame(m, root, n, va / PAGESIZE);
    var f := View(m, root)[va / PAGESIZE].frame;
    assert f in Footprint(m, root, n);
    FootprintIn(m, other, k);
    FrameSpace(m, StoreByte(m, View(m, root), va, b), other, k);
    if w / PAGESIZE in View(m, other) {
      UserPageFrame(m, other, k, w / PAGESIZE);
      assert View(m, other)[w / PAGESIZE].frame in Footprint(m, other, k);
    }
  }

  lemma FootprintIn(m: Mem, root: nat, n: nat)
    requires Space(m, root, n) && root in m
    ensures Footprint(m, root, n) <= m.Keys
  {
    hide View, Wf, Tables, UserFrames, LeafKinds, UserCount, Distinct;
    forall f | f in TableFrames(m, root)
      ensures f in m
    {
      TableFrameIn(m, root, f);
    }
  }

  /** A finished clone: the parent is as it was, the clone maps the same user pages with the same
      permissions and bytes, and it is made of frames that nobody held before. */
  lemma CloneIsDeep(m0: Mem, free0: set<nat>, m: Mem, free: set<nat>, root0: nat, root: nat, n: nat)
    requires Cloning(m0, free0, m, free, root0, root, n, n)
    ensures root0 in m0 && root0 in m && root in m && Space(m0, root0, n) && Space(m, root0, n) && Space(m, root, n)
    ensures View(m, root0) == View(m0, root0) && Footprint(m, root0, n) == Footprint(m0, root0, n)
    ensures Footprint(m, root, n) !! m0.Keys && Footprint(m, root, n) !! Footprint(m, root0, n)
    ensures Footprint(m, root, n) <= free0 && free == free0 - Footprint(m, root, n)
    ensures forall f | f in m0 :: f in m && m[f] == m0[f]
    ensures forall v | v in View(m, root) :: v in View(m0, root0) && View(m, root)[v].perm == View(m0, root0)[v].perm
    ensures forall v | v in View(m0, root0) && InUser(v, n) :: v in View(m, root)
    ensures forall va: nat | InUser(va / PAGESIZE, n) ::
      ByteAt(m, View(m, root), va) == ByteAt(m0, View(m0, root0), va)
  {
    hide Space, View, Wf, Tables, UserFrames, TableFrames, Footprint, GetByte, Copied;
    ParentKept(m0, free0, m, free, root0, root, n, n);
    CloningParts(m0, free0, m, free, root0, root, n, n);
    CopiedPages(m0, View(m0, root0), m, View(m, root), n);
  }

  lemma CopiedPages(m0: Mem, view0: map<nat, Leaf>, m: Mem, view: map<nat, Leaf>, n: nat)
    requires Copied(m0, view0, m, view, n)
    ensures forall v | v in view :: v in view0 && view[v].perm == view0[v].perm
    ensures forall v | v in view0 && InUser(v, n) :: v in view
    ensures forall va: nat | InUser(va / PAGESIZE, n) :: ByteAt(m, view, va) == ByteAt(m0, view0, va)
  {
    hide GetByte;
    forall v | v in view
      ensures v in view0 && view[v].perm == view0[v].perm
    {
      assert CopiedPage(m0, view0, m, view, v);
    }
    forall v | v in view0 && InUser(v, n)
      ensures v in view
    {
      assert CopiedPage(m0, view0, m, view, v);
    }
    forall va: nat | InUser(va / PAGESIZE, n)
      ensures ByteAt(m, view, va) == ByteAt(m0, view0, va)
    {
      assert CopiedPage(m0, view0, m, view, va / PAGESIZE);
    }
  }

  /** After a clone, a store on either side is invisible on the other. */
  lemma CloneIsIsolated(m0: Mem, free0: set<nat>, m: Mem, free: set<nat>, root0: nat, root: nat, n: nat,
                        va: nat, b: Byte, w: nat)
    requires Cloning(m0, free0, m, free, root0, root, n, n)
    requires InUser(va / PAGESIZE, n) && InUser(w / PAGESIZE, n)
    ensures root0 in m && root in m && Space(m, root0, n) && Space(m, root, n)
    ensures va / PAGESIZE in View(m, root) <==> va / PAGESIZE in View(m, root0)
    ensures va / PAGESIZE in View(m, root) ==>
      var view0, view := View(m, root0), View(m, root);
      && view[va / PAGESIZE].frame in m && view0[va / PAGESIZE].frame in m
      && ByteAt(StoreByte(m, view, va, b), view0, w) == ByteAt(m, view0, w)
      && ByteAt(StoreByte(m, view0, va, b), view, w) == ByteAt(m, view, w)
  {
    hide Space, View, Wf, Tables, UserFrames, TableFrames, Footprint, GetByte, Cloning;
    CloneIsDeep(m0, free0, m, free, root0, root, n);
    SpaceParts(m, root0, n);
    SpaceParts(m, root, n);
    if va / PAGESIZE in View(m, root) {
      StoreIsPrivate(m, root, n, va, b, root0, n, w);
      StoreIsPrivate(m, root0, n, va, b, root, n, w);
    }
  }
}
