/** Who owns which frame: operations that touch only their own frames do not disturb anybody
    else, and no frame is ever owned twice. */
module Ownership {
  import opened Ram
  import opened TableView
  import opened PageTables
  import opened Spaces
  import opened AddressSpaces

  /** An operation whose owner had the frames `own0` and now has `own1`: the new ones came from
      the allocator, everything else is as it was, and no frame got lost from sight. */
  ghost predicate Confined(m0: Mem, free0: set<nat>, m1: Mem, free1: set<nat>, own0: set<nat>, own1: set<nat>) {
    && m0.Keys !! free0 && m1.Keys !! free1
    && own0 <= m0.Keys && own1 <= m1.Keys && own1 <= own0 + free0
    && SameOutside(m0, m1, own0)
    && m1.Keys + free1 == m0.Keys + free0
  }

  lemma ConfinedTransitive(m0: Mem, free0: set<nat>, m1: Mem, free1: set<nat>, m2: Mem, free2: set<nat>,
                           own0: set<nat>, own1: set<nat>, own2: set<nat>)
    requires Confined(m0, free0, m1, free1, own0, own1) && Confined(m1, free1, m2, free2, own1, own2)
    ensures Confined(m0, free0, m2, free2, own0, own2)
  {
    assert free1 <= own0 + free0 by {
      assert forall f | f in m0 && f !in own0 :: f in m1;
    }
  }

  /** The frames `own` are there with the same contents. */
  ghost predicate Kept(m0: Mem, m1: Mem, own: set<nat>) {
    forall f | f in own :: f in m0 && f in m1 && m1[f] == m0[f]
  }

  /** The frame rule: what somebody else owns stays with them, unchanged. */
  lemma ConfinedFrame(m0: Mem, free0: set<nat>, m1: Mem, free1: set<nat>, own0: set<nat>, own1: set<nat>, others: set<nat>)
    requires Confined(m0, free0, m1, free1, own0, own1) && others <= m0.Keys && others !! own0
    ensures Confined(m0, free0, m1, free1, own0 + others, own1 + others)
    ensures own1 !! others && others <= m1.Keys && Kept(m0, m1, others)
  {
  }

  /** Rewriting the contents of a frame one owns. */
  lemma ConfinedWrite(m: Mem, free: set<nat>, f: nat, p: Page)
    requires m.Keys !! free && f in m
    ensures Confined(m, free, m[f := p], free, {f}, {f})
  {
  }

  lemma ConfinedTaken(m0: Mem, free0: set<nat>, m1: Mem, free1: set<nat>, f: nat)
    requires Taken(m0, free0, m1, free1, f)
    ensures Confined(m0, free0, m1, free1, {}, {f})
  {
  }

  /** The frames of an address space. */
  ghost function Frames(m: Mem, root: nat, n: nat): set<nat> {
    if Space(m, root, n) && root in m && Wf(m, root) then Footprint(m, root, n) else {}
  }

  lemma FramesIn(m: Mem, root: nat, n: nat)
    requires Space(m, root, n)
    ensures Wf(m, root) && root in m
    ensures Frames(m, root, n) == Footprint(m, root, n) && Frames(m, root, n) <= m.Keys && root in Frames(m, root, n)
  {
    hide View, Tables, UserFrames, LeafKinds, UserCount, Distinct;
    forall f | f in TableFrames(m, root)
      ensures f in m
    {
      TableFrameIn(m, root, f);
    }
  }

  /** Whatever an operation does with its own frames, another address space is still there, with
      the same map, the same frames and the same bytes. */
  lemma OthersKept(m0: Mem, free0: set<nat>, m1: Mem, free1: set<nat>, own0: set<nat>, own1: set<nat>,
                   root: nat, n: nat, va: nat)
    requires Confined(m0, free0, m1, free1, own0, own1)
    requires Space(m0, root, n) && Frames(m0, root, n) !! own0
    ensures Space(m1, root, n) && Wf(m0, root) && Wf(m1, root) && View(m1, root) == View(m0, root)
    ensures Frames(m1, root, n) == Frames(m0, root, n) && Frames(m1, root, n) !! own1
    ensures InUser(va / PAGESIZE, n) ==> ByteAt(m1, View(m1, root), va) == ByteAt(m0, View(m0, root), va)
  {
    hide Space, View, Wf, Tables, UserFrames, TableFrames, GetByte, Footprint, Confined, Frames;
    FramesIn(m0, root, n);
    ConfinedFrame(m0, free0, m1, free1, own0, own1, Frames(m0, root, n));
    FrameSpace(m0, m1, root, n);
    FramesIn(m1, root, n);
    if InUser(va / PAGESIZE, n) && va / PAGESIZE in View(m0, root) {
      UserFrameOwned(m0, root, n, va / PAGESIZE);
    }
  }

  lemma UserFrameOwned(m: Mem, root: nat, n: nat, v: nat)
    requires Space(m, root, n) && Wf(m, root) && v in View(m, root) && InUser(v, n)
    ensures View(m, root)[v].frame in Frames(m, root, n)
  {
    hide View, Tables, UserFrames, LeafKinds, UserCount, Distinct, Wf, OwnsUserFrames;
    UserPageFrame(m, root, n, v);
  }

  /** An address space made from nothing since `m0`. */
  ghost predicate Made(m0: Mem, free0: set<nat>, m: Mem, free: set<nat>, root: nat, n: nat) {
    && Space(m, root, n) && m0.Keys !! free0 && m.Keys !! free
    && Frames(m, root, n) <= free0 && free == free0 - Frames(m, root, n)
    && m.Keys == m0.Keys + Frames(m, root, n) && SameOutside(m0, m, {})
  }

  lemma MadeConfined(m0: Mem, free0: set<nat>, m: Mem, free: set<nat>, root: nat, n: nat)
    requires Made(m0, free0, m, free, root, n)
    ensures Confined(m0, free0, m, free, {}, Frames(m, root, n))
  {
    hide Space, Frames;
  }

  /** Of memory as it is, an address space could just have been made by the owner of its frames,
      whatever others have done since it really was begun. */
  lemma AsIfMade(m: Mem, free: set<nat>, root: nat, n: nat)
    requires Space(m, root, n) && m.Keys !! free
    ensures var own := Frames(m, root, n); Made(m - own, free + own, m, free, root, n)
  {
    hide Space, Frames;
    FramesIn(m, root, n);
  }

  /** So what is made of it from there on is its owner's work alone. */
  lemma MadeFurther(m0: Mem, free0: set<nat>, m1: Mem, free1: set<nat>, own: set<nat>, root: nat, n: nat)
    requires m0.Keys !! free0 && own <= m0.Keys && Made(m0 - own, free0 + own, m1, free1, root, n)
    ensures Confined(m0, free0, m1, free1, own, Frames(m1, root, n))
  {
    hide Space, Frames;
  }

  lemma MadeStart(m0: Mem, free0: set<nat>, m: Mem, free: set<nat>, root: nat)
    requires Space(m, root, 0) && m0.Keys !! free0 && root in free0 && free == free0 - {root} && root in m && Wf(m, root)
    requires m.Keys == m0.Keys + {root} && SameOutside(m0, m, {}) && View(m, root) == map[] && Tables(m, root) == {}
    ensures Made(m0, free0, m, free, root, 0)
  {
    hide View, Wf, LeafKinds, UserCount, Distinct, Tables, OwnsUserFrames;
    assert UserFrames(map[], USER_VPN, 0) == {};
  }

  lemma MadeTook(m0: Mem, free0: set<nat>, m: Mem, free: set<nat>, m2: Mem, free2: set<nat>, root: nat, n: nat, n2: nat)
    requires Made(m0, free0, m, free, root, n) && Space(m2, root, n2)
    requires Took(m, free, m2, free2, root, n, n2)
    ensures Made(m0, free0, m2, free2, root, n2)
  {
    hide View, Wf, TableFrames, Footprint, Space, Frames;
    FramesIn(m, root, n);
    FramesIn(m2, root, n2);
    TableFramesOwned(m, root, n);
  }

  lemma TableFramesOwned(m: Mem, root: nat, n: nat)
    requires Wf(m, root) && root in m
    ensures TableFrames(m, root) <= Footprint(m, root, n)
    ensures UserFrames(View(m, root), USER_VPN, n) <= Footprint(m, root, n)
  {
  }

  lemma MadeRewritten(m0: Mem, free0: set<nat>, m: Mem, free: set<nat>, m2: Mem, root: nat, n: nat)
    requires Made(m0, free0, m, free, root, n) && Wf(m, root) && Space(m2, root, n)
    requires Rewritten(m, m2, View(m, root), n)
    ensures Made(m0, free0, m2, free, root, n)
  {
    hide View, Wf, LeafKinds, UserCount, Distinct, Tables, UserFrames;
    SpaceParts(m, root, n);
    forall f | f in TableFrames(m, root)
      ensures f in m
    {
      TableFrameIn(m, root, f);
    }
    FrameTable(m, m2, root);
  }

  /** An address space dropped: its user frames and its root are free again, its level-0 tables
      belong to nobody, everything else is as it was. */
  ghost predicate Dropped(m: Mem, free: set<nat>, m1: Mem, free1: set<nat>, root: nat, n: nat) {
    && Wf(m, root) && root in m
    && var back := {root} + UserFrames(View(m, root), USER_VPN, n);
    && m1.Keys == m.Keys - back && free1 == free + back
    && Tables(m, root) <= m1.Keys && SameOutside(m, m1, Footprint(m, root, n))
  }

  lemma DroppedConfined(m: Mem, free: set<nat>, m1: Mem, free1: set<nat>, root: nat, n: nat)
    requires Space(m, root, n) && m.Keys !! free && Dropped(m, free, m1, free1, root, n)
    ensures Confined(m, free, m1, free1, Frames(m, root, n), {})
  {
    hide View, Wf, Tables, UserFrames, Space, Frames;
    FramesIn(m, root, n);
  }

  /** Making an address space and dropping it again costs its level-0 tables and nothing else. */
  lemma MadeDropped(m0: Mem, free0: set<nat>, m: Mem, free: set<nat>, m1: Mem, free1: set<nat>, root: nat, n: nat)
    requires Made(m0, free0, m, free, root, n) && Dropped(m, free, m1, free1, root, n)
    ensures Confined(m0, free0, m1, free1, {}, {})
    ensures m1.Keys == m0.Keys + Tables(m, root) && SameOutside(m0, m1, {})
  {
    hide View, Wf, LeafKinds, UserFrames, UserCount, Distinct, Tables;
    hide Confined;
    MadeConfined(m0, free0, m, free, root, n);
    DroppedConfined(m, free, m1, free1, root, n);
    ConfinedTransitive(m0, free0, m, free, m1, free1, {}, Frames(m, root, n), {});
    MadeDroppedKeys(m0, free0, m, free, m1, free1, root, n);
  }

  lemma MadeDroppedKeys(m0: Mem, free0: set<nat>, m: Mem, free: set<nat>, m1: Mem, free1: set<nat>, root: nat, n: nat)
    requires Made(m0, free0, m, free, root, n) && Dropped(m, free, m1, free1, root, n)
    ensures m1.Keys == m0.Keys + Tables(m, root) && SameOutside(m0, m1, {})
  {
    hide View, Wf, UserFrames, Tables, Space, Frames;
    FramesIn(m, root, n);
  }
}
