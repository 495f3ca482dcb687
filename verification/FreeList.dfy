/** The allocator's free list as a fact about memory: a ring of blocks in address order, through
    `base`, no two of which touch. */
module FreeLists {

  /** `union header`, one unit of memory. */
  datatype Header = Header(ptr: nat, size: nat)

  /** Memory, unit by unit; addresses count units. */
  type Heap = seq<Header>

  /** `base` lies below everything `sbrk` returns. */
  const BASE: nat := 0

  predicate InSpan(u: nat, a: nat, n: nat) {
    a <= u < a + n
  }

  function Span(a: nat, n: nat): set<nat> {
    set u: nat | a <= u < a + n && InSpan(u, a, n)
  }

  lemma SpanHas(a: nat, n: nat, u: nat)
    ensures u in Span(a, n) <==> a <= u < a + n
  {
    assert InSpan(u, a, n) <==> a <= u < a + n;
  }

  lemma SpanJoin(a: nat, n: nat, m: nat)
    ensures Span(a, n) + Span(a + n, m) == Span(a, n + m)
    ensures Span(a, n) !! Span(a + n, m)
  {
    assert forall u: nat {:trigger InSpan(u, a, n + m)} :: InSpan(u, a, n + m) <==> InSpan(u, a, n) || InSpan(u, a + n, m);
  }

  ghost function BlockUnits(a: nat, h: Heap): set<nat> {
    if a < |h| then Span(a, h[a].size) else {}
  }

  /** The units of all free blocks. */
  ghost function FreeUnits(ring: seq<nat>, h: Heap): set<nat> {
    if ring == [] then {} else FreeUnits(ring[..|ring| - 1], h) + BlockUnits(ring[|ring| - 1], h)
  }

  lemma {:induction false} FreeUnitsConcat(r: seq<nat>, s: seq<nat>, h: Heap)
    ensures FreeUnits(r + s, h) == FreeUnits(r, h) + FreeUnits(s, h)
  {
    if s == [] {
      assert r + s == r;
    } else {
      var s1, last := s[..|s| - 1], s[|s| - 1];
      assert (r + s)[..|r + s| - 1] == r + s1;
      FreeUnitsConcat(r, s1, h);
    }
  }

  /** Only the sizes of its own blocks matter to a list. */
  lemma {:induction false} FreeUnitsFrame(r: seq<nat>, h: Heap, g: Heap)
    requires |g| == |h| && forall i :: 0 <= i < |r| && r[i] < |h| ==> g[r[i]].size == h[r[i]].size
    ensures FreeUnits(r, g) == FreeUnits(r, h)
  {
    if r != [] {
      FreeUnitsFrame(r[..|r| - 1], h, g);
    }
  }

  lemma {:induction false} FreeUnitsHas(r: seq<nat>, h: Heap, i: nat)
    requires i < |r|
    ensures BlockUnits(r[i], h) <= FreeUnits(r, h)
  {
    if i < |r| - 1 {
      FreeUnitsHas(r[..|r| - 1], h, i);
    }
  }

  lemma {:induction false} FreeUnitsFrom(r: seq<nat>, h: Heap, u: nat)
    requires u in FreeUnits(r, h)
    ensures exists i :: 0 <= i < |r| && u in BlockUnits(r[i], h)
  {
    if u in BlockUnits(r[|r| - 1], h) {
    } else {
      FreeUnitsFrom(r[..|r| - 1], h, u);
    }
  }

  // ----- the invariant -----

  /** Blocks in strictly ascending order from `base`, which is empty, without overlap. */
  ghost predicate Ascending(ring: seq<nat>, h: Heap) {
    && |ring| > 0 && ring[0] == BASE && BASE < |h| && h[BASE].size == 0
    && (forall i :: 0 <= i < |ring| ==> ring[i] < |h|)
    && (forall i :: 0 < i < |ring| ==> h[ring[i]].size >= 1 && ring[i] + h[ring[i]].size <= |h|)
    && (forall i, j :: 0 <= i < j < |ring| ==> ring[i] < ring[j] && ring[i] + h[ring[i]].size <= ring[j])
  }

  function Succ(i: nat, n: nat): nat {
    if i + 1 < n then i + 1 else 0
  }

  predicate LinkAt(ring: seq<nat>, h: Heap, i: nat) {
    i < |ring| ==> ring[i] < |h| && h[ring[i]].ptr == ring[Succ(i, |ring|)]
  }

  /** Every block points to the next one, the last to `base`. */
  ghost predicate Linked(ring: seq<nat>, h: Heap) {
    forall i: nat :: LinkAt(ring, h, i)
  }

  ghost predicate GapAfter(ring: seq<nat>, h: Heap, k: nat) {
    k + 1 < |ring| && ring[k] < |h| ==> ring[k] + h[ring[k]].size != ring[k + 1]
  }

  ghost predicate Coalesced(ring: seq<nat>, h: Heap) {
    forall k: nat :: GapAfter(ring, h, k)
  }

  ghost predicate FreeList(ring: seq<nat>, h: Heap) {
    Ascending(ring, h) && Linked(ring, h) && Coalesced(ring, h)
  }

  // ----- inserting and merging -----

  /** `i` is the last block below address `b`. */
  ghost predicate Place(ring: seq<nat>, b: nat, i: nat) {
    && i < |ring|
    && (forall j :: 0 <= j <= i ==> ring[j] < b)
    && (forall j :: i < j < |ring| ==> b < ring[j])
  }

  lemma {:induction false} FindPlace(ring: seq<nat>, h: Heap, b: nat, n: nat) returns (i: nat)
    requires Ascending(ring, h) && BASE < b && b !in ring && 0 < n <= |ring|
    requires forall j :: n <= j < |ring| ==> b < ring[j]
    ensures Place(ring, b, i)
    decreases n
  {
    if ring[n - 1] < b {
      i := n - 1;
    } else {
      i := FindPlace(ring, h, b, n - 1);
    }
  }

  function Inserted(ring: seq<nat>, b: nat, i: nat): seq<nat>
    requires i < |ring|
  {
    ring[..i + 1] + [b] + ring[i + 1..]
  }

  function Removed(ring: seq<nat>, k: nat): seq<nat>
    requires k < |ring|
  {
    ring[..k] + ring[k + 1..]
  }

  /** Where entry `j` of a list with one entry more, or less, comes from. */
  function Later(j: nat, k: nat): nat {
    if j < k then j else j + 1
  }

  function Earlier(j: nat, k: nat): nat {
    if j <= k then j else j - 1
  }

  lemma InsertedAt(ring: seq<nat>, b: nat, i: nat, j: nat)
    requires i < |ring| && j <= |ring|
    ensures |Inserted(ring, b, i)| == |ring| + 1
    ensures Inserted(ring, b, i)[j] == if j == i + 1 then b else ring[Earlier(j, i)]
  {
  }

  lemma RemovedAt(ring: seq<nat>, k: nat, j: nat)
    requires k < |ring| && j < |ring| - 1
    ensures |Removed(ring, k)| == |ring| - 1 && Removed(ring, k)[j] == ring[Later(j, k)]
  {
  }

  lemma Lengths(ring: seq<nat>, b: nat, k: nat)
    requires k < |ring|
    ensures |Inserted(ring, b, k)| == |ring| + 1 && |Removed(ring, k)| == |ring| - 1
  {
  }

  /** Two blocks of a list, and one of them. */
  lemma Two(ring: seq<nat>, h: Heap, i: nat, j: nat)
    requires Ascending(ring, h) && i < |ring| && j < |ring|
    ensures ring[i] < |h| && ring[j] < |h|
    ensures i > 0 ==> h[ring[i]].size >= 1 && ring[i] + h[ring[i]].size <= |h|
    ensures i < j ==> ring[i] < ring[j] && ring[i] + h[ring[i]].size <= ring[j]
    ensures i == 0 ==> ring[i] == BASE && h[BASE].size == 0
    ensures i != j ==> ring[i] != ring[j]
  {
    if j < i {
      assert ring[j] < ring[i];
    }
  }

  lemma AscendingIs(r: seq<nat>, g: Heap)
    requires |r| > 0 && r[0] == BASE && BASE < |g| && g[BASE].size == 0
    requires forall x: nat, y: nat :: InOrder(r, g, x, y)
    ensures Ascending(r, g)
  {
    forall i: nat | i < |r|
      ensures r[i] < |g| && (i > 0 ==> g[r[i]].size >= 1 && r[i] + g[r[i]].size <= |g|)
    {
      assert InOrder(r, g, i, i);
    }
    forall i: nat, j: nat | i < j < |r|
      ensures r[i] < r[j] && r[i] + g[r[i]].size <= r[j]
    {
      assert InOrder(r, g, i, j);
    }
  }

  predicate InOrder(r: seq<nat>, g: Heap, x: nat, y: nat) {
    x <= y < |r| ==>
      && r[x] < |g| && (x > 0 ==> g[r[x]].size >= 1 && r[x] + g[r[x]].size <= |g|)
      && (x < y ==> r[x] < r[y] && r[x] + g[r[x]].size <= r[y])
  }

  /** A block put into the ring behind block `i`, without looking at its neighbours. */
  lemma InsertAscending(ring: seq<nat>, h: Heap, b: nat, i: nat)
    requires Ascending(ring, h) && Place(ring, b, i) && b < |h| && h[b].size >= 1 && b + h[b].size <= |h|
    requires Span(b, h[b].size) !! FreeUnits(ring, h)
    ensures Ascending(Inserted(ring, b, i), h)
  {
    hide FreeUnits, Inserted, Span, InOrder;
    FreeUnitsHas(ring, h, i);
    BelowBlock(ring, h, b, i);
    if i + 1 < |ring| {
      FreeUnitsHas(ring, h, i + 1);
      AboveBlock(ring, h, b, i);
    }
    forall x: nat, y: nat
      ensures InOrder(Inserted(ring, b, i), h, x, y)
    {
      InsertInOrder(ring, h, b, i, x, y);
    }
    Lengths(ring, b, i);
    InsertedAt(ring, b, i, 0);
    AscendingIs(Inserted(ring, b, i), h);
  }

  lemma InsertInOrder(ring: seq<nat>, h: Heap, b: nat, i: nat, x: nat, y: nat)
    requires Ascending(ring, h) && Place(ring, b, i) && b < |h| && h[b].size >= 1 && b + h[b].size <= |h|
    requires ring[i] + h[ring[i]].size <= b && (i + 1 < |ring| ==> b + h[b].size <= ring[i + 1])
    ensures InOrder(Inserted(ring, b, i), h, x, y)
  {
    hide Inserted, Ascending;
    Lengths(ring, b, i);
    if x <= y <= |ring| {
      InsertedAt(ring, b, i, x);
      InsertedAt(ring, b, i, y);
      Two(ring, h, Earlier(x, i), Earlier(y, i));
      Two(ring, h, Earlier(x, i), i);
      if i + 1 < |ring| {
        Two(ring, h, i + 1, Earlier(y, i));
      }
    }
  }

  lemma InsertedUnits(ring: seq<nat>, h: Heap, b: nat, i: nat)
    requires i < |ring| && b < |h|
    ensures FreeUnits(Inserted(ring, b, i), h) == FreeUnits(ring, h) + Span(b, h[b].size)
  {
    hide FreeUnits, Span;
    ThreeParts(ring[..i + 1], [b], ring[i + 1..], h);
    FreeUnitsConcat(ring[..i + 1], ring[i + 1..], h);
    assert ring == ring[..i + 1] + ring[i + 1..];
    OneBlock(b, h);
  }

  lemma InsertLinked(ring: seq<nat>, h: Heap, b: nat, i: nat)
    requires Ascending(ring, h) && Linked(ring, h) && i < |ring| && b < |h| && b !in ring
    ensures Linked(Inserted(ring, b, i), h[b := h[b].(ptr := h[ring[i]].ptr)][ring[i] := h[ring[i]].(ptr := b)])
  {
    hide Inserted, FreeUnits, Ascending;
    Lengths(ring, b, i);
    Two(ring, h, i, i);
    var r, g := Inserted(ring, b, i), h[b := h[b].(ptr := h[ring[i]].ptr)][ring[i] := h[ring[i]].(ptr := b)];
    forall j: nat
      ensures LinkAt(r, g, j)
    {
      if j < |r| {
        InsertedAt(ring, b, i, j);
        InsertedAt(ring, b, i, Succ(j, |r|));
        assert LinkAt(ring, h, Earlier(j, i)) && LinkAt(ring, h, i);
        Two(ring, h, Earlier(j, i), i);
      }
    }
  }

  /** The block below ends before `b`. */
  lemma BelowBlock(ring: seq<nat>, h: Heap, b: nat, i: nat)
    requires Ascending(ring, h) && Place(ring, b, i) && b < |h| && h[b].size >= 1
    requires Span(b, h[b].size) !! BlockUnits(ring[i], h)
    ensures ring[i] + h[ring[i]].size <= b
  {
    SpanHas(b, h[b].size, b);
    SpanHas(ring[i], h[ring[i]].size, b);
  }

  /** `b` ends before the block above. */
  lemma AboveBlock(ring: seq<nat>, h: Heap, b: nat, i: nat)
    requires Ascending(ring, h) && Place(ring, b, i) && b < |h| && i + 1 < |ring|
    requires Span(b, h[b].size) !! BlockUnits(ring[i + 1], h)
    ensures b + h[b].size <= ring[i + 1]
  {
    SpanHas(b, h[b].size, ring[i + 1]);
    SpanHas(ring[i + 1], h[ring[i + 1]].size, ring[i + 1]);
  }

  /** Memory after the block behind `k` has been merged into block `k`. */
  function MergedHeap(ring: seq<nat>, h: Heap, k: nat): Heap
    requires k + 1 < |ring| && ring[k] < |h| && ring[k + 1] < |h|
  {
    h[ring[k] := Header(h[ring[k + 1]].ptr, h[ring[k]].size + h[ring[k + 1]].size)]
  }

  lemma MergeAscending(ring: seq<nat>, h: Heap, k: nat)
    requires Ascending(ring, h) && k + 1 < |ring| && ring[k] + h[ring[k]].size == ring[k + 1]
    ensures Ascending(Removed(ring, k + 1), MergedHeap(ring, h, k))
    ensures k > 0
  {
    hide Removed, Ascending, InOrder;
    Two(ring, h, 0, k + 1);
    Two(ring, h, k, k + 1);
    var r, g := Removed(ring, k + 1), MergedHeap(ring, h, k);
    forall x: nat, y: nat
      ensures InOrder(r, g, x, y)
    {
      MergeInOrder(ring, h, k, x, y);
    }
    Lengths(ring, 0, k + 1);
    RemovedAt(ring, k + 1, 0);
    Two(ring, h, 0, k);
    AscendingIs(r, g);
  }

  lemma MergeInOrder(ring: seq<nat>, h: Heap, k: nat, x: nat, y: nat)
    requires Ascending(ring, h) && 0 < k && k + 1 < |ring| && ring[k] + h[ring[k]].size == ring[k + 1]
    ensures InOrder(Removed(ring, k + 1), MergedHeap(ring, h, k), x, y)
  {
    hide Removed, Ascending;
    Lengths(ring, 0, k + 1);
    if x <= y < |ring| - 1 {
      RemovedAt(ring, k + 1, x);
      RemovedAt(ring, k + 1, y);
      Two(ring, h, Later(x, k + 1), Later(y, k + 1));
      Two(ring, h, k + 1, Later(y, k + 1));
      Two(ring, h, Later(x, k + 1), k);
      Two(ring, h, k + 1, k + 1);
    }
  }

  lemma MergeLinked(ring: seq<nat>, h: Heap, k: nat)
    requires Ascending(ring, h) && Linked(ring, h) && k + 1 < |ring|
    ensures Linked(Removed(ring, k + 1), MergedHeap(ring, h, k))
  {
    hide Removed, Ascending;
    Two(ring, h, k, k + 1);
    Lengths(ring, 0, k + 1);
    var r, g := Removed(ring, k + 1), MergedHeap(ring, h, k);
    assert LinkAt(ring, h, k + 1);
    forall i: nat
      ensures LinkAt(r, g, i)
    {
      if i < |r| {
        RemovedAt(ring, k + 1, i);
        RemovedAt(ring, k + 1, Succ(i, |r|));
        assert LinkAt(ring, h, Later(i, k + 1));
        Two(ring, h, Later(i, k + 1), k);
      }
    }
  }

  lemma MergeUnits(ring: seq<nat>, h: Heap, k: nat)
    requires Ascending(ring, h) && k + 1 < |ring| && ring[k] + h[ring[k]].size == ring[k + 1]
    ensures FreeUnits(Removed(ring, k + 1), MergedHeap(ring, h, k)) == FreeUnits(ring, h)
  {
    hide FreeUnits, Span;
    var a, b := ring[..k], ring[k + 2..];
    var g := MergedHeap(ring, h, k);
    MergeParts(ring, k);
    ThreeParts(a, [ring[k]] + [ring[k + 1]], b, h);
    FreeUnitsConcat([ring[k]], [ring[k + 1]], h);
    ThreeParts(a, [ring[k]], b, g);
    OneBlock(ring[k], h);
    OneBlock(ring[k + 1], h);
    OneBlock(ring[k], g);
    SpanJoin(ring[k], h[ring[k]].size, h[ring[k + 1]].size);
    FreeUnitsFrame(a, h, g);
    FreeUnitsFrame(b, h, g);
  }

  lemma MergeParts(ring: seq<nat>, k: nat)
    requires k + 1 < |ring|
    ensures ring == ring[..k] + ([ring[k]] + [ring[k + 1]]) + ring[k + 2..]
    ensures Removed(ring, k + 1) == ring[..k] + [ring[k]] + ring[k + 2..]
  {
  }

  lemma OneBlock(a: nat, h: Heap)
    ensures FreeUnits([a], h) == BlockUnits(a, h)
  {
    assert FreeUnits([a], h) == FreeUnits([], h) + BlockUnits(a, h);
  }

  lemma ThreeParts(a: seq<nat>, m: seq<nat>, b: seq<nat>, h: Heap)
    ensures FreeUnits(a + m + b, h) == FreeUnits(a, h) + FreeUnits(m, h) + FreeUnits(b, h)
  {
    hide FreeUnits;
    FreeUnitsConcat(a + m, b, h);
    FreeUnitsConcat(a, m, h);
  }

  lemma MergeGaps(ring: seq<nat>, h: Heap, k: nat, j: nat)
    requires Ascending(ring, h) && k + 1 < |ring| && ring[k] + h[ring[k]].size == ring[k + 1]
    requires j < k ==> GapAfter(ring, h, j)
    requires j >= k ==> GapAfter(ring, h, j + 1)
    ensures GapAfter(Removed(ring, k + 1), MergedHeap(ring, h, k), j)
  {
    hide Removed, Ascending;
    Two(ring, h, k, k + 1);
    Lengths(ring, 0, k + 1);
    if j + 1 < |ring| - 1 {
      RemovedAt(ring, k + 1, j);
      RemovedAt(ring, k + 1, j + 1);
      Two(ring, h, Later(j, k + 1), k);
    }
  }

  // ----- taking blocks out -----

  lemma RemoveBlock(ring: seq<nat>, h: Heap, k: nat)
    requires FreeList(ring, h) && 0 < k < |ring|
    ensures var g := h[ring[k - 1] := h[ring[k - 1]].(ptr := h[ring[k]].ptr)];
      && FreeList(Removed(ring, k), g)
      && FreeUnits(Removed(ring, k), g) == FreeUnits(ring, h) - Span(ring[k], h[ring[k]].size)
  {
    hide FreeUnits, Linked, GapAfter, Removed, Ascending, Span;
    RemoveAscending(ring, h, k);
    var g := h[ring[k - 1] := h[ring[k - 1]].(ptr := h[ring[k]].ptr)];
    var r := Removed(ring, k);
    RemoveLinked(ring, h, k);
    forall j: nat
      ensures GapAfter(r, g, j)
    {
      RemoveGap(ring, h, k, j);
    }
    RemoveUnits(ring, h, k);
    FreeUnitsFrame(r, h, g);
  }

  lemma RemoveAscending(ring: seq<nat>, h: Heap, k: nat)
    requires Ascending(ring, h) && 0 < k < |ring|
    ensures ring[k - 1] < |h| && ring[k] < |h|
    ensures Ascending(Removed(ring, k), h[ring[k - 1] := h[ring[k - 1]].(ptr := h[ring[k]].ptr)])
  {
    hide Removed, Ascending;
    Two(ring, h, k - 1, k);
    Two(ring, h, 0, k);
    Lengths(ring, 0, k);
    RemovedAt(ring, k, 0);
    var r, g := Removed(ring, k), h[ring[k - 1] := h[ring[k - 1]].(ptr := h[ring[k]].ptr)];
    forall x: nat, y: nat
      ensures InOrder(r, g, x, y)
    {
      if x <= y < |r| {
        RemovedAt(ring, k, x);
        RemovedAt(ring, k, y);
        Two(ring, h, Later(x, k), Later(y, k));
      }
    }
    AscendingIs(r, g);
  }

  lemma RemoveLinked(ring: seq<nat>, h: Heap, k: nat)
    requires Ascending(ring, h) && Linked(ring, h) && 0 < k < |ring|
    ensures ring[k - 1] < |h| && ring[k] < |h|
    ensures Linked(Removed(ring, k), h[ring[k - 1] := h[ring[k - 1]].(ptr := h[ring[k]].ptr)])
  {
    hide Removed, Ascending;
    Two(ring, h, k - 1, k);
    Lengths(ring, 0, k);
    var r, g := Removed(ring, k), h[ring[k - 1] := h[ring[k - 1]].(ptr := h[ring[k]].ptr)];
    assert LinkAt(ring, h, k);
    forall i: nat
      ensures LinkAt(r, g, i)
    {
      if i < |r| {
        RemovedAt(ring, k, i);
        RemovedAt(ring, k, Succ(i, |r|));
        assert LinkAt(ring, h, Later(i, k));
        Two(ring, h, Later(i, k), k - 1);
      }
    }
  }

  lemma RemoveGap(ring: seq<nat>, h: Heap, k: nat, j: nat)
    requires Ascending(ring, h) && Coalesced(ring, h) && 0 < k < |ring|
    ensures ring[k - 1] < |h| && ring[k] < |h|
    ensures GapAfter(Removed(ring, k), h[ring[k - 1] := h[ring[k - 1]].(ptr := h[ring[k]].ptr)], j)
  {
    hide Removed, Ascending;
    Two(ring, h, k - 1, k);
    Lengths(ring, 0, k);
    assert GapAfter(ring, h, j) && GapAfter(ring, h, j + 1);
    if j + 1 < |ring| - 1 {
      RemovedAt(ring, k, j);
      RemovedAt(ring, k, j + 1);
      Two(ring, h, Later(j, k), Later(j + 1, k));
      Two(ring, h, k - 1, k);
      if k + 1 < |ring| {
        Two(ring, h, k, k + 1);
      }
    }
  }

  /** What lies in front of block `k` and behind it. */
  lemma UnitsAround(ring: seq<nat>, h: Heap, k: nat, u: nat)
    requires Ascending(ring, h) && k < |ring|
    ensures u in FreeUnits(ring[..k], h) ==> u < ring[k]
    ensures u in FreeUnits(ring[k + 1..], h) ==> u >= ring[k] + h[ring[k]].size
  {
    hide FreeUnits, Span;
    var a, b := ring[..k], ring[k + 1..];
    if u in FreeUnits(a, h) {
      FreeUnitsFrom(a, h, u);
      var i :| 0 <= i < |a| && u in BlockUnits(a[i], h);
      SpanHas(a[i], h[a[i]].size, u);
      assert ring[i] + h[ring[i]].size <= ring[k];
    }
    if u in FreeUnits(b, h) {
      FreeUnitsFrom(b, h, u);
      var i :| 0 <= i < |b| && u in BlockUnits(b[i], h);
      SpanHas(b[i], h[b[i]].size, u);
      assert b[i] == ring[k + 1 + i];
      assert ring[k] + h[ring[k]].size <= ring[k + 1 + i];
    }
  }

  lemma RemoveUnits(ring: seq<nat>, h: Heap, k: nat)
    requires Ascending(ring, h) && k < |ring|
    ensures FreeUnits(Removed(ring, k), h) == FreeUnits(ring, h) - Span(ring[k], h[ring[k]].size)
    ensures FreeUnits(ring, h) == FreeUnits(ring[..k], h) + Span(ring[k], h[ring[k]].size) + FreeUnits(ring[k + 1..], h)
  {
    hide FreeUnits, Span, Ascending;
    var a, b := ring[..k], ring[k + 1..];
    InRange(ring, h, k);
    ThreeParts(a, [ring[k]], b, h);
    FreeUnitsConcat(a, b, h);
    OneBlock(ring[k], h);
    assert ring == a + [ring[k]] + b;
    forall u | u in Span(ring[k], h[ring[k]].size)
      ensures u !in FreeUnits(a, h) && u !in FreeUnits(b, h)
    {
      SpanHas(ring[k], h[ring[k]].size, u);
      UnitsAround(ring, h, k, u);
    }
  }

  lemma InRange(ring: seq<nat>, h: Heap, k: nat)
    requires Ascending(ring, h) && k < |ring|
    ensures ring[k] < |h|
  {
  }

  /** Cutting the tail off a block. */
  lemma ShrinkList(ring: seq<nat>, h: Heap, k: nat, n: nat)
    requires FreeList(ring, h) && k < |ring| && 1 <= n < h[ring[k]].size
    ensures var b := ring[k] + h[ring[k]].size - n;
      && b < |h| && b !in ring
      && var g := h[ring[k] := h[ring[k]].(size := h[ring[k]].size - n)][b := h[b].(size := n)];
      && FreeList(ring, g)
      && FreeUnits(ring, g) == FreeUnits(ring, h) - Span(b, n)
      && Span(b, n) <= FreeUnits(ring, h)
  {
    hide FreeUnits, GapAfter, Coalesced, Linked, Span;
    var b := ring[k] + h[ring[k]].size - n;
    ShrinkApart(ring, h, k, n);
    var g := h[ring[k] := h[ring[k]].(size := h[ring[k]].size - n)][b := h[b].(size := n)];
    assert Ascending(ring, g);
    ShrinkLinked(ring, h, g);
    forall j: nat
      ensures GapAfter(ring, g, j)
    {
      ShrinkGap(ring, h, k, g, j);
    }
    GapsAre(ring, g);
    ShrinkUnits(ring, h, k, n, g);
  }

  lemma GapsAre(ring: seq<nat>, h: Heap)
    requires forall j: nat :: GapAfter(ring, h, j)
    ensures Coalesced(ring, h)
  {
  }

  lemma ShrinkApart(ring: seq<nat>, h: Heap, k: nat, n: nat)
    requires Ascending(ring, h) && k < |ring| && 1 <= n < h[ring[k]].size
    ensures var b := ring[k] + h[ring[k]].size - n;
      k > 0 && b < |h| && ring[k] < b && forall j :: 0 <= j < |ring| ==> ring[j] != b
  {
    var b := ring[k] + h[ring[k]].size - n;
    forall j | 0 <= j < |ring|
      ensures ring[j] != b
    {
      assert j < k || j == k || k < j;
    }
  }

  lemma ShrinkLinked(ring: seq<nat>, h: Heap, g: Heap)
    requires Linked(ring, h) && |g| == |h| && forall i :: 0 <= i < |ring| && ring[i] < |h| ==> g[ring[i]].ptr == h[ring[i]].ptr
    ensures Linked(ring, g)
  {
    forall i: nat
      ensures LinkAt(ring, g, i)
    {
      assert LinkAt(ring, h, i);
    }
  }

  lemma ShrinkGap(ring: seq<nat>, h: Heap, k: nat, g: Heap, j: nat)
    requires Ascending(ring, h) && Coalesced(ring, h) && k < |ring| && |g| == |h|
    requires forall i :: 0 <= i < |ring| ==> g[ring[i]].size <= h[ring[i]].size
    ensures GapAfter(ring, g, j)
  {
    assert GapAfter(ring, h, j);
    if j + 1 < |ring| {
      assert ring[j] + h[ring[j]].size <= ring[j + 1];
    }
  }

  lemma ShrinkUnits(ring: seq<nat>, h: Heap, k: nat, n: nat, g: Heap)
    requires Ascending(ring, h) && Ascending(ring, g) && k < |ring| && 1 <= n < h[ring[k]].size && |g| == |h|
    requires g[ring[k]].size == h[ring[k]].size - n
    requires forall i :: 0 <= i < |ring| && i != k ==> g[ring[i]].size == h[ring[i]].size
    ensures var b := ring[k] + h[ring[k]].size - n;
      FreeUnits(ring, g) == FreeUnits(ring, h) - Span(b, n) && Span(b, n) <= FreeUnits(ring, h)
  {
    hide FreeUnits, Span, Ascending;
    var a, c := ring[..k], ring[k + 1..];
    InRange(ring, h, k);
    var b := ring[k] + h[ring[k]].size - n;
    RemoveUnits(ring, h, k);
    RemoveUnits(ring, g, k);
    SameSizes(ring, h, g, k, a, c);
    FreeUnitsFrame(a, h, g);
    FreeUnitsFrame(c, h, g);
    SpanJoin(ring[k], h[ring[k]].size - n, n);
    TailApart(ring, h, k, n);
    CutOut(FreeUnits(a, h), Span(ring[k], h[ring[k]].size - n), Span(b, n), FreeUnits(c, h));
  }

  lemma SameSizes(ring: seq<nat>, h: Heap, g: Heap, k: nat, a: seq<nat>, c: seq<nat>)
    requires Ascending(ring, h) && k < |ring| && |g| == |h| && a == ring[..k] && c == ring[k + 1..]
    requires forall i :: 0 <= i < |ring| && i != k ==> g[ring[i]].size == h[ring[i]].size
    ensures forall i :: 0 <= i < |a| ==> a[i] < |h| && g[a[i]].size == h[a[i]].size
    ensures forall i :: 0 <= i < |c| ==> c[i] < |h| && g[c[i]].size == h[c[i]].size
  {
  }

  lemma TailApart(ring: seq<nat>, h: Heap, k: nat, n: nat)
    requires Ascending(ring, h) && k < |ring| && 1 <= n < h[ring[k]].size
    ensures var b := ring[k] + h[ring[k]].size - n;
      Span(b, n) !! FreeUnits(ring[..k], h) && Span(b, n) !! FreeUnits(ring[k + 1..], h)
  {
    hide FreeUnits, Span, Ascending;
    InRange(ring, h, k);
    var b := ring[k] + h[ring[k]].size - n;
    forall u | u in Span(b, n)
      ensures u !in FreeUnits(ring[..k], h) && u !in FreeUnits(ring[k + 1..], h)
    {
      SpanHas(b, n, u);
      UnitsAround(ring, h, k, u);
    }
  }

  lemma CutOut(a: set<nat>, s: set<nat>, t: set<nat>, c: set<nat>)
    requires t !! a && t !! s && t !! c
    ensures a + s + c == a + (s + t) + c - t && t <= a + (s + t) + c
  {
  }

  // ----- the list is determined by what is free -----

  /** The last block and the rest. */
  lemma WithoutLast(ring: seq<nat>, h: Heap)
    requires Ascending(ring, h) && Coalesced(ring, h) && |ring| > 1
    ensures var k := |ring| - 1;
      && Ascending(ring[..k], h) && Coalesced(ring[..k], h)
      && FreeUnits(ring[..k], h) == FreeUnits(ring, h) - Span(ring[k], h[ring[k]].size)
  {
    hide FreeUnits, Span;
    var k := |ring| - 1;
    assert ring[..k] == Removed(ring, k);
    RemoveUnits(ring, h, k);
    forall j: nat
      ensures GapAfter(ring[..k], h, j)
    {
      assert GapAfter(ring, h, j);
    }
  }

  /** Where the last block is, said about the set of free units alone. */
  ghost predicate TopBlock(units: set<nat>, a: nat, n: nat) {
    && n >= 1 && a >= 1 && Span(a, n) <= units && a - 1 !in units
    && forall u :: u in units ==> u < a + n
  }

  lemma LastIsTop(ring: seq<nat>, h: Heap)
    requires Ascending(ring, h) && Coalesced(ring, h) && |ring| > 1
    ensures TopBlock(FreeUnits(ring, h), ring[|ring| - 1], h[ring[|ring| - 1]].size)
  {
    hide FreeUnits, Span, Coalesced;
    var k := |ring| - 1;
    FreeUnitsHas(ring, h, k);
    GapIs(ring, h, k - 1);
    assert ring[0] < ring[k];
    forall u | u in FreeUnits(ring, h)
      ensures u < ring[k] + h[ring[k]].size && u != ring[k] - 1
    {
      FreeUnitsFrom(ring, h, u);
      var i :| 0 <= i < |ring| && u in BlockUnits(ring[i], h);
      SpanHas(ring[i], h[ring[i]].size, u);
      assert i < k - 1 ==> ring[i] + h[ring[i]].size <= ring[k - 1] < ring[k];
      assert i < k ==> ring[i] + h[ring[i]].size <= ring[k];
    }
  }

  lemma GapIs(ring: seq<nat>, h: Heap, k: nat)
    requires Coalesced(ring, h)
    ensures GapAfter(ring, h, k)
  {
  }

  lemma TopUnique(units: set<nat>, a: nat, n: nat, b: nat, m: nat)
    requires TopBlock(units, a, n) && TopBlock(units, b, m)
    ensures a == b && n == m
  {
    hide Span;
    SpanHas(a, n, a + n - 1);
    SpanHas(b, m, b + m - 1);
    SpanHas(a, n, b - 1);
    SpanHas(b, m, a - 1);
  }

  lemma SnocSame(ring: seq<nat>, h: Heap, other: seq<nat>, g: Heap, front: seq<nat>)
    requires |ring| > 0 && |other| > 0 && front == ring[..|ring| - 1] == other[..|other| - 1]
    requires ring[|ring| - 1] == other[|other| - 1]
    requires forall i :: 0 <= i < |ring| ==> ring[i] < |h|
    requires forall i :: 0 <= i < |other| ==> other[i] < |g|
    requires g[other[|other| - 1]].size == h[ring[|ring| - 1]].size
    requires forall i :: 0 <= i < |front| ==> front[i] < |g| && front[i] < |h| && g[front[i]].size == h[front[i]].size
    ensures ring == other && forall i :: 0 <= i < |ring| ==> g[ring[i]].size == h[ring[i]].size
  {
    assert ring == front + [ring[|ring| - 1]];
    assert other == front + [other[|other| - 1]];
    forall i | 0 <= i < |ring|
      ensures g[ring[i]].size == h[ring[i]].size
    {
      assert i < |ring| - 1 ==> front[i] == ring[i];
    }
  }

  /** Two coalesced lists with the same free units are the same list, block by block. */
  lemma {:induction false} ListDetermined(ring: seq<nat>, h: Heap, other: seq<nat>, g: Heap)
    requires Ascending(ring, h) && Coalesced(ring, h) && Ascending(other, g) && Coalesced(other, g)
    requires FreeUnits(ring, h) == FreeUnits(other, g)
    ensures ring == other
    ensures forall i :: 0 <= i < |ring| ==> ring[i] < |h| && ring[i] < |g| && g[ring[i]].size == h[ring[i]].size
    decreases |ring| + |other|
  {
    hide FreeUnits, Coalesced, TopBlock, Span, Ascending;
    BaseFirst(ring, h);
    BaseFirst(other, g);
    if |ring| == 1 && |other| == 1 {
    } else if |ring| == 1 || |other| == 1 {
      if |ring| == 1 {
        OnlyBase(ring, h);
        LastIsTop(other, g);
        TopNotEmpty(FreeUnits(other, g), other[|other| - 1], g[other[|other| - 1]].size);
      } else {
        OnlyBase(other, g);
        LastIsTop(ring, h);
        TopNotEmpty(FreeUnits(ring, h), ring[|ring| - 1], h[ring[|ring| - 1]].size);
      }
    } else {
      var k, l := |ring| - 1, |other| - 1;
      LastIsTop(ring, h);
      LastIsTop(other, g);
      TopUnique(FreeUnits(ring, h), ring[k], h[ring[k]].size, other[l], g[other[l]].size);
      WithoutLast(ring, h);
      WithoutLast(other, g);
      ListDetermined(ring[..k], h, other[..l], g);
      SnocSame(ring, h, other, g, ring[..k]);
    }
  }

  lemma BaseFirst(ring: seq<nat>, h: Heap)
    requires Ascending(ring, h)
    ensures |ring| > 0 && ring[0] == BASE && BASE < |h| && h[BASE].size == 0
    ensures forall i :: 0 <= i < |ring| ==> ring[i] < |h|
  {
  }

  lemma OnlyBase(ring: seq<nat>, h: Heap)
    requires Ascending(ring, h) && |ring| == 1
    ensures FreeUnits(ring, h) == {}
  {
    assert ring == [BASE];
    OneBlock(BASE, h);
  }

  lemma TopNotEmpty(units: set<nat>, a: nat, n: nat)
    requires TopBlock(units, a, n)
    ensures units != {}
  {
    SpanHas(a, n, a);
  }
}
