/** Deep copies of address spaces, as facts about memory. */
module DeepCopy {
  import opened Ram
  import opened TableView
  import opened PageTables
  import opened Spaces

  /** Result of `Uvm::clone`; the last two are its panics on `unwrap`. */
  datatype CloneResult<T> = Cloned(value: T) | MissingTable | OutOfFrames

  /** In its first `i` pages, `view` in `m` is a copy of `view0` in `m0`, and it maps nothing else. */
  ghost predicate Copied(m0: Mem, view0: map<nat, Leaf>, m: Mem, view: map<nat, Leaf>, i: nat) {
    && (forall v | v in view :: InUser(v, i))
    && (forall v: nat | InUser(v, i) :: CopiedPage(m0, view0, m, view, v))
  }

  ghost predicate CopiedPage(m0: Mem, view0: map<nat, Leaf>, m: Mem, view: map<nat, Leaf>, v: nat) {
    && (v in view <==> v in view0)
    && (v in view ==>
      && view[v].perm == view0[v].perm
      && view[v].frame in m && view0[v].frame in m0 && m[view[v].frame] == m0[view0[v].frame])
  }

  /** State of a clone in progress: `m0` is memory before the call, and the frames taken since
      are exactly those of the new address space. */
  ghost predicate Cloning(m0: Mem, free0: set<nat>, m: Mem, free: set<nat>, root0: nat, root: nat, n: nat, i: nat) {
    && Space(m0, root0, n) && root0 in m0 && Space(m, root, i) && root in m && i <= n
    && m0.Keys <= m.Keys && m.Keys - m0.Keys <= free0 && free == free0 - (m.Keys - m0.Keys)
    && SameOutside(m0, m, {})
    && Footprint(m, root, i) == m.Keys - m0.Keys
    && Copied(m0, View(m0, root0), m, View(m, root), i)
  }

  /** What copying page `USER_VPN + i` does. */
  ghost predicate Step(m1: Mem, free1: set<nat>, m2: Mem, free2: set<nat>, view0: map<nat, Leaf>, root: nat, i: nat) {
    && Space(m1, root, i) && Space(m2, root, i + 1) && root in m1 && root in m2
    && Took(m1, free1, m2, free2, root, i, i + 1)
    && var v := USER_VPN + i;
      if v in view0 then
        && view0[v].frame in m1
        && v in View(m2, root) && View(m2, root).Keys == View(m1, root).Keys + {v}
        && (forall u | u in View(m1, root) :: View(m2, root)[u] == View(m1, root)[u])
        && View(m2, root)[v].perm == view0[v].perm && View(m2, root)[v].frame in m2
        && m2[View(m2, root)[v].frame] == m1[view0[v].frame]
      else View(m2, root) == View(m1, root)
  }

  /** The parent is untouched while the clone is being made. */
  lemma ParentKept(m0: Mem, free0: set<nat>, m: Mem, free: set<nat>, root0: nat, root: nat, n: nat, i: nat)
    requires Cloning(m0, free0, m, free, root0, root, n, i)
    ensures Space(m, root0, n) && root0 in m && View(m, root0) == View(m0, root0)
    ensures Footprint(m, root0, n) == Footprint(m0, root0, n) && Footprint(m0, root0, n) <= m0.Keys
    ensures m[root0] == m0[root0]
    ensures Footprint(m, root0, n) !! TableFrames(m, root)
  {
    hide View, Wf, LeafKinds, UserCount, Distinct, Tables, Copied;
    SpaceParts(m0, root0, n);
    forall f | f in TableFrames(m0, root0)
      ensures f in m0
    {
      TableFrameIn(m0, root0, f);
    }
    FrameSpace(m0, m, root0, n);
  }

  lemma CloneStart(m0: Mem, free0: set<nat>, m: Mem, free: set<nat>, root0: nat, root: nat, n: nat)
    requires Space(m0, root0, n) && root0 in m0 && Space(m, root, 0)
    requires root in free0 && root !in m0 && free == free0 - {root}
    requires m.Keys == m0.Keys + {root} && SameOutside(m0, m, {})
    requires View(m, root) == map[] && Tables(m, root) == {}
    ensures Cloning(m0, free0, m, free, root0, root, n, 0)
  {
    hide View, Wf, LeafKinds, UserCount, Distinct, Tables, OwnsUserFrames;
    SpaceParts(m, root, 0);
    assert UserFrames(map[], USER_VPN, 0) == {};
    assert m.Keys - m0.Keys == {root};
  }

  lemma CloneSnoc(m0: Mem, free0: set<nat>, m1: Mem, free1: set<nat>, m2: Mem, free2: set<nat>,
                  root0: nat, root: nat, n: nat, i: nat)
    requires Cloning(m0, free0, m1, free1, root0, root, n, i) && i < n
    requires Step(m1, free1, m2, free2, View(m0, root0), root, i)
    ensures Cloning(m0, free0, m2, free2, root0, root, n, i + 1)
  {
    hide View, Wf, LeafKinds, UserCount, Distinct, Tables, OwnsUserFrames, Copied, Footprint, TableFrames, Space;
    SpaceParts(m1, root, i);
    CloneSnocFrames(m0, free0, m1, free1, m2, free2, root, i);
    CloneSnocPages(m0, free0, m1, free1, m2, free2, root0, root, n, i);
  }

  lemma CloneSnocFrames(m0: Mem, free0: set<nat>, m1: Mem, free1: set<nat>, m2: Mem, free2: set<nat>, root: nat, i: nat)
    requires Wf(m1, root) && Wf(m2, root) && root in m1 && root in m2
    requires m0.Keys <= m1.Keys && m1.Keys - m0.Keys <= free0 && free1 == free0 - (m1.Keys - m0.Keys)
    requires SameOutside(m0, m1, {}) && Footprint(m1, root, i) == m1.Keys - m0.Keys
    requires Took(m1, free1, m2, free2, root, i, i + 1)
    ensures m0.Keys <= m2.Keys && m2.Keys - m0.Keys <= free0 && free2 == free0 - (m2.Keys - m0.Keys)
    ensures SameOutside(m0, m2, {}) && Footprint(m2, root, i + 1) == m2.Keys - m0.Keys
  {
    hide View, Wf, UserFrames, TableFrames;
    assert m2.Keys - m0.Keys == (m1.Keys - m0.Keys) + (m2.Keys - m1.Keys);
    assert TableFrames(m1, root) <= Footprint(m1, root, i);
  }

  lemma CloneSnocPages(m0: Mem, free0: set<nat>, m1: Mem, free1: set<nat>, m2: Mem, free2: set<nat>,
                       root0: nat, root: nat, n: nat, i: nat)
    requires Cloning(m0, free0, m1, free1, root0, root, n, i) && i < n
    requires Step(m1, free1, m2, free2, View(m0, root0), root, i)
    ensures Copied(m0, View(m0, root0), m2, View(m2, root), i + 1)
  {
    hide View, Wf, LeafKinds, UserCount, Distinct, Tables, OwnsUserFrames, Footprint, TableFrames, UserFrames, Space;
    SpaceParts(m0, root0, n);
    SpaceParts(m1, root, i);
    SpaceParts(m2, root, i + 1);
    var view0, view1, view2 := View(m0, root0), View(m1, root), View(m2, root);
    forall v: nat | InUser(v, i + 1)
      ensures CopiedPage(m0, view0, m2, view2, v)
    {
      if v == USER_VPN + i {
        if v in view0 {
          UserPageFrame(m0, root0, n, v);
        }
      } else {
        assert CopiedPage(m0, view0, m1, view1, v);
        if v in view1 {
          UserPageFrame(m1, root, i, v);
        }
      }
    }
  }

  /** A hole in the parent is a hole in the clone, and there are not too many of them. */
  lemma CloneHole(m0: Mem, free0: set<nat>, m: Mem, free: set<nat>, root0: nat, root: nat, n: nat, i: nat)
    requires Cloning(m0, free0, m, free, root0, root, n, i) && i < n && USER_VPN + i !in View(m0, root0)
    ensures i + 1 <= MappedCount(m, root, i) + HOLES_MAX
  {
    hide View, Wf, LeafKinds, Distinct, Tables, OwnsUserFrames, Footprint, TableFrames, UserFrames, UserCount;
    SpaceParts(m0, root0, n);
    SpaceParts(m, root, i);
    SameCount(m0, View(m0, root0), m, View(m, root), i);
    CountBelow(View(m0, root0), i, n);
  }

  lemma SameCount(m0: Mem, view0: map<nat, Leaf>, m: Mem, view: map<nat, Leaf>, i: nat)
    requires Copied(m0, view0, m, view, i)
    ensures UserCount(view, i) == UserCount(view0, i)
  {
    forall v | InUser(v, i)
      ensures v in view <==> v in view0
    {
      assert CopiedPage(m0, view0, m, view, v);
    }
    assert UserPages(view, i) == UserPages(view0, i);
  }

  lemma CountBelow(view: map<nat, Leaf>, i: nat, n: nat)
    requires i < n && USER_VPN + i !in view
    ensures UserCount(view, n) <= UserCount(view, i) + (n - i - 1)
  {
    var above := Interval(USER_VPN + i + 1, USER_VPN + n);
    SubsetSize(UserPages(view, n), UserPages(view, i) + above);
  }

  lemma StepHole(m: Mem, free: set<nat>, view0: map<nat, Leaf>, root: nat, i: nat)
    requires Space(m, root, i) && Grown(m, free, m, free, root, i, i + 1, 0) && USER_VPN + i !in view0
    ensures Step(m, free, m, free, view0, root, i)
  {
    hide View, LeafKinds, UserCount, Distinct, Tables, OwnsUserFrames, Footprint, TableFrames;
  }

  lemma StepPage(m1: Mem, free1: set<nat>, mA: Mem, freeA: set<nat>, m2: Mem, free2: set<nat>,
                 view0: map<nat, Leaf>, root: nat, i: nat, page: nat)
    requires Space(m1, root, i) && USER_VPN + i in view0 && PermU(view0[USER_VPN + i].perm)
    requires view0[USER_VPN + i].frame in m1 && view0[USER_VPN + i].perm != 0
    requires Taken(m1, free1, mA, freeA, page) && mA[page] == m1[view0[USER_VPN + i].frame]
    requires Wf(mA, root) && Mapped(mA, freeA, m2, free2, root, USER_VPN + i, page, 1, view0[USER_VPN + i].perm)
    requires Grown(m1, free1, m2, free2, root, i, i + 1, view0[USER_VPN + i].perm)
    ensures Step(m1, free1, m2, free2, view0, root, i)
  {
    hide View, LeafKinds, UserCount, Distinct, Tables, OwnsUserFrames, Footprint, UserFrames, Wf, Range, Pages,
         Mapped, TableGrew, PermU;
    var v := USER_VPN + i;
    SpaceParts(m1, root, i);
    SpaceParts(m2, root, i + 1);
    WithUSame(view0[v].perm);
    PagesOne(v);
    MappedGrew(mA, freeA, m2, free2, root, v, page, 1, view0[v].perm);
    RangeOne(View(mA, root), v, page, view0[v].perm);
    StepContent(m1, free1, mA, freeA, m2, free2, root, i, page);
  }

  lemma WithUSame(perm: nat)
    requires PermU(perm)
    ensures WithU(perm) == perm
  {
  }

  /** The new page still holds what was copied into it after the table has been extended. */
  lemma StepContent(m1: Mem, free1: set<nat>, mA: Mem, freeA: set<nat>, m2: Mem, free2: set<nat>, root: nat, i: nat, page: nat)
    requires Space(m1, root, i) && Taken(m1, free1, mA, freeA, page) && Wf(mA, root)
    requires TableGrew(mA, freeA, m2, free2, root)
    ensures page in m2 && m2[page] == mA[page]
  {
    hide View, LeafKinds, UserCount, Distinct, Tables, OwnsUserFrames, UserFrames, Wf;
    SpaceParts(m1, root, i);
    AfterAlloc(m1, mA, root);
    if page in TableFrames(mA, root) {
      TableFrameIn(m1, root, page);
    }
  }
}
