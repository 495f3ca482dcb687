/** `free`, `morecore` and `malloc` of the user library, on headers in memory. */
module Umalloc {
  import opened Options
  import opened FreeLists

  /** Bytes in a unit, and the modulus of unsigned arithmetic. */
  const HEADER: nat := 8
  const MODULUS: nat := 0x1_0000_0000
  const MINIMUM: nat := 4096

  // ----- request sizes -----

  /** `nunits`: payload rounded up, and one unit for the header. */
  function Units(nbytes: nat): (n: nat)
    ensures n >= 1
  {
    (nbytes + HEADER - 1) % MODULUS / HEADER + 1
  }

  function AtLeast(nu: nat): (n: nat)
    ensures n == nu || (n == MINIMUM && nu < MINIMUM)
    ensures n >= nu && n >= MINIMUM
  {
    if nu < MINIMUM then MINIMUM else nu
  }

  /** `nu * sizeof(Header)` as it arrives in `sbrk`'s `int`. */
  function Request(nu: nat): int {
    var bytes := nu * HEADER % MODULUS;
    if bytes < MODULUS / 2 then bytes else bytes - MODULUS
  }

  /** A block of that many units holds the bytes asked for, unless the sum wraps around. */
  lemma PayloadFits(nbytes: nat)
    requires nbytes < MODULUS
    ensures (Units(nbytes) - 1) * HEADER >= nbytes <==> nbytes + HEADER - 1 < MODULUS
    ensures nbytes + HEADER - 1 < MODULUS ==> (Units(nbytes) - 1) * HEADER < nbytes + HEADER
  {
    if nbytes + HEADER - 1 < MODULUS {
      var q, r := (nbytes + 7) / 8, (nbytes + 7) % 8;
      assert nbytes + 7 == 8 * q + r;
    }
  }

  /** `sbrk` is asked for exactly the units needed, unless the product leaves the range of `int`. */
  lemma RequestFits(nbytes: nat)
    requires nbytes < MODULUS
    ensures var nu := AtLeast(Units(nbytes));
      Request(nu) == nu * HEADER <==> nbytes <= 0x7fff_fff0 || nbytes + HEADER - 1 >= MODULUS
  {
    var u := Units(nbytes);
    if nbytes + HEADER - 1 < MODULUS {
      assert u == (nbytes + 7) / 8 + 1;
    } else {
      assert nbytes + 7 - MODULUS < 8;
      assert (nbytes + 7) % MODULUS == nbytes + 7 - MODULUS;
    }
  }

  /** Both together: what `malloc` can be asked for. */
  lemma RequestOk(nbytes: nat)
    requires nbytes < MODULUS
    ensures var nu := AtLeast(Units(nbytes));
      (Request(nu) == nu * HEADER && (Units(nbytes) - 1) * HEADER >= nbytes) <==> nbytes <= 0x7fff_fff0
  {
    hide Units, Request, AtLeast;
    PayloadFits(nbytes);
    RequestFits(nbytes);
  }

  // ----- what is handed out -----

  ghost function LentUnits(lent: map<nat, nat>): set<nat> {
    set a, u | a in lent && u in Span(a, lent[a]) :: u
  }

  ghost predicate BlockOk(a: nat, n: nat, h: Heap) {
    BASE < a && n >= 1 && a + n <= |h| && h[a].size == n
  }

  /** The blocks handed out, with their sizes: in memory, and apart from each other. */
  ghost predicate Blocks(lent: map<nat, nat>, h: Heap) {
    && (forall a :: a in lent ==> BlockOk(a, lent[a], h))
    && forall a, b :: a in lent && b in lent && a != b ==> Span(a, lent[a]) !! Span(b, lent[b])
  }

  /** The allocator's invariant: a coalesced ring, blocks handed out, and every unit `sbrk` has
      given is in exactly one of the two. */
  ghost predicate Sound(h: Heap, ring: seq<nat>, freep: nat, lent: map<nat, nat>, obtained: set<nat>) {
    && FreeList(ring, h) && freep in ring && Blocks(lent, h)
    && FreeUnits(ring, h) !! LentUnits(lent)
    && obtained == FreeUnits(ring, h) + LentUnits(lent)
  }

  /** The memory handed out is as it was. */
  ghost predicate Untouched(lent: map<nat, nat>, h: Heap, g: Heap) {
    |g| == |h| && forall u :: u in LentUnits(lent) ==> u < |h| && g[u] == h[u]
  }

  lemma UntouchedOn(lent: map<nat, nat>, h: Heap, g: Heap, k: Heap)
    requires Untouched(lent, h, g) && Untouched(lent, g, k)
    ensures Untouched(lent, h, k)
  {
    hide LentUnits;
  }

  lemma LentHas(lent: map<nat, nat>, a: nat)
    requires a in lent
    ensures Span(a, lent[a]) <= LentUnits(lent)
  {
  }

  lemma LentRemove(lent: map<nat, nat>, h: Heap, b: nat)
    requires Blocks(lent, h) && b in lent
    ensures LentUnits(lent - {b}) == LentUnits(lent) - Span(b, lent[b])
    ensures Blocks(lent - {b}, h)
  {
    hide Span;
    var rest := lent - {b};
    forall u | u in LentUnits(lent) && u !in Span(b, lent[b])
      ensures u in LentUnits(rest)
    {
      var a :| a in lent && u in Span(a, lent[a]);
      assert a in rest && u in Span(a, rest[a]);
    }
  }

  lemma LentAdd(lent: map<nat, nat>, h: Heap, b: nat, n: nat)
    requires Blocks(lent, h) && b !in lent && BlockOk(b, n, h) && Span(b, n) !! LentUnits(lent)
    ensures LentUnits(lent[b := n]) == LentUnits(lent) + Span(b, n)
    ensures Blocks(lent[b := n], h)
  {
    hide Span;
    var more := lent[b := n];
    forall u | u in LentUnits(lent)
      ensures u in LentUnits(more)
    {
      var a :| a in lent && u in Span(a, lent[a]);
      assert a in more && u in Span(a, more[a]);
    }
    assert b in more;
    forall a, c | a in more && c in more && a != c
      ensures Span(a, more[a]) !! Span(c, more[c])
    {
      if a != b {
        LentHas(lent, a);
      }
      if c != b {
        LentHas(lent, c);
      }
    }
  }

  /** Blocks handed out live in their own headers. */
  lemma BlocksKept(lent: map<nat, nat>, h: Heap, g: Heap)
    requires Blocks(lent, h) && |g| == |h| && forall a :: a in lent ==> a < |g| && g[a] == h[a]
    ensures Blocks(lent, g)
  {
    hide Span;
  }

  lemma OwnHeader(lent: map<nat, nat>, h: Heap, a: nat)
    requires Blocks(lent, h) && a in lent
    ensures a in LentUnits(lent) && a < |h| && a > BASE
  {
    hide LentUnits;
    LentHas(lent, a);
    SpanHas(a, lent[a], a);
  }

  /** A block's header is one of its units; `base` belongs to nobody. */
  lemma RingHeader(ring: seq<nat>, h: Heap, i: nat)
    requires Ascending(ring, h) && i < |ring|
    ensures ring[i] == BASE || ring[i] in FreeUnits(ring, h)
  {
    hide FreeUnits;
    if i > 0 {
      FreeUnitsHas(ring, h, i);
      SpanHas(ring[i], h[ring[i]].size, ring[i]);
    }
  }

  // ----- free -----

  /** How far slot `i` of a ring of `n` is from slot `from`, going forward. */
  function Dist(from: nat, i: nat, n: nat): nat
    requires from < n && i < n
  {
    if from <= i then i - from else i + n - from
  }

  lemma DistSucc(from: nat, i: nat, n: nat)
    requires from < n && i < n
    ensures from != i ==> Dist(Succ(from, n), i, n) == Dist(from, i, n) - 1
    ensures Dist(from, i, n) < n && (Dist(from, i, n) == 0 <==> from == i)
    ensures Dist(Succ(i, n), i, n) == n - 1
  {
  }

  /** `free`'s loop stops exactly at the block below `b`. */
  lemma StopsAtPlace(ring: seq<nat>, h: Heap, b: nat, i: nat, k: nat)
    requires FreeList(ring, h) && Place(ring, b, i) && k < |ring| && BASE < b
    ensures ring[k] < |h|
    ensures var p, next := ring[k], h[ring[k]].ptr;
      ((b > p && b < next) || (p >= next && (b > p || b < next))) <==> k == i
  {
    hide Coalesced, Ascending;
    assert LinkAt(ring, h, k);
    Two(ring, h, k, Succ(k, |ring|));
    Two(ring, h, 0, 0);
    if k < i {
      Two(ring, h, k + 1, i);
    } else if k > i {
      Two(ring, h, i + 1, k);
    }
  }

  /** Memory after `free` has linked `b` in behind `p`, whose successor was `next`. */
  function FreedHeap(h: Heap, p: nat, b: nat): Heap
    requires p < |h| && b < |h| && h[p].ptr < |h|
  {
    var next := h[p].ptr;
    var h1 := if b + h[b].size == next then h[b := Header(h[next].ptr, h[b].size + h[next].size)]
              else h[b := h[b].(ptr := next)];
    if p + h1[p].size == b then h1[p := Header(h1[b].ptr, h1[p].size + h1[b].size)]
    else h1[p := h1[p].(ptr := b)]
  }

  /** The list after it. */
  function FreedRing(ring: seq<nat>, h: Heap, b: nat, i: nat): seq<nat>
    requires i < |ring| && ring[i] < |h| && b < |h|
  {
    var r1 := Inserted(ring, b, i);
    var r2 := if i + 2 < |r1| && b + h[b].size == r1[i + 2] then Removed(r1, i + 2) else r1;
    if ring[i] + h[ring[i]].size == b && i + 1 < |r2| then Removed(r2, i + 1) else r2
  }

  /** Put in, not yet merged. */
  function InsertedHeap(h: Heap, p: nat, b: nat): Heap
    requires p < |h| && b < |h|
  {
    h[b := h[b].(ptr := h[p].ptr)][p := h[p].(ptr := b)]
  }

  lemma InsertStep(ring: seq<nat>, h: Heap, b: nat, i: nat)
    requires FreeList(ring, h) && Place(ring, b, i) && b < |h| && h[b].size >= 1 && b + h[b].size <= |h|
    requires Span(b, h[b].size) !! FreeUnits(ring, h) && b !in ring
    ensures ring[i] < |h|
    ensures var r, g := Inserted(ring, b, i), InsertedHeap(h, ring[i], b);
      && Ascending(r, g) && Linked(r, g) && FreeUnits(r, g) == FreeUnits(ring, h) + Span(b, h[b].size)
      && forall j: nat :: j != i && j != i + 1 ==> GapAfter(r, g, j)
  {
    hide FreeUnits, Ascending, Linked, Inserted, Span, Coalesced;
    Two(ring, h, i, i);
    var r, g := Inserted(ring, b, i), InsertedHeap(h, ring[i], b);
    InsertAscending(ring, h, b, i);
    SizesOnly(r, h, g);
    InsertLinked(ring, h, b, i);
    InsertedUnits(ring, h, b, i);
    FreeUnitsFrame(r, h, g);
    forall j: nat | j != i && j != i + 1
      ensures GapAfter(r, g, j)
    {
      InsertGap(ring, h, b, i, j);
    }
  }

  lemma SizesOnly(r: seq<nat>, h: Heap, g: Heap)
    requires Ascending(r, h) && |g| == |h| && forall x: nat :: x < |h| ==> g[x].size == h[x].size
    ensures Ascending(r, g)
  {
  }

  lemma InsertGap(ring: seq<nat>, h: Heap, b: nat, i: nat, j: nat)
    requires Ascending(ring, h) && Coalesced(ring, h) && i < |ring| && b < |h| && j != i && j != i + 1 && b !in ring
    ensures ring[i] < |h| && GapAfter(Inserted(ring, b, i), InsertedHeap(h, ring[i], b), j)
  {
    hide Inserted, Ascending;
    Two(ring, h, i, i);
    Lengths(ring, b, i);
    if j < |ring| {
      InsertedAt(ring, b, i, j);
      InsertedAt(ring, b, i, j + 1);
      assert GapAfter(ring, h, Earlier(j, i));
      Two(ring, h, Earlier(j, i), i);
    }
  }

  /** One merge, at slot `k`, in a list all of whose other gaps are there. */
  lemma MergeStep(r: seq<nat>, g: Heap, k: nat, other: nat)
    requires Ascending(r, g) && Linked(r, g) && k + 1 < |r| && r[k] + g[r[k]].size == r[k + 1]
    requires forall j: nat :: j != k && j != other ==> GapAfter(r, g, j)
    requires other <= k
    ensures var r2, g2 := Removed(r, k + 1), MergedHeap(r, g, k);
      && Ascending(r2, g2) && Linked(r2, g2) && FreeUnits(r2, g2) == FreeUnits(r, g)
      && (forall j: nat :: j != other ==> GapAfter(r2, g2, j))
      && (other == k ==> GapAfter(r2, g2, k))
  {
    hide FreeUnits, Ascending, Linked, Removed, GapAfter;
    Two(r, g, k, k + 1);
    MergeAscending(r, g, k);
    MergeLinked(r, g, k);
    MergeUnits(r, g, k);
    var r2, g2 := Removed(r, k + 1), MergedHeap(r, g, k);
    forall j: nat | j != other || other == k
      ensures GapAfter(r2, g2, j)
    {
      MergeGaps(r, g, k, j);
    }
  }

  /** The upper neighbour joined, or not. */
  function Joined(h: Heap, p: nat, b: nat): Heap
    requires p < |h| && b < |h| && h[p].ptr < |h|
  {
    var next, g := h[p].ptr, InsertedHeap(h, p, b);
    if b + h[b].size == next then g[b := Header(h[next].ptr, h[b].size + h[next].size)] else g
  }

  lemma JoinStep(ring: seq<nat>, h: Heap, b: nat, i: nat)
    requires FreeList(ring, h) && Place(ring, b, i) && b < |h| && h[b].size >= 1 && b + h[b].size <= |h|
    requires Span(b, h[b].size) !! FreeUnits(ring, h) && b !in ring && BASE < b
    ensures ring[i] < |h| && h[ring[i]].ptr < |h|
    ensures var r1, g := Inserted(ring, b, i), Joined(h, ring[i], b);
      && |r1| == |ring| + 1
      && var r2 := if i + 2 < |r1| && b + h[b].size == r1[i + 2] then Removed(r1, i + 2) else r1;
      && |r2| >= i + 2 && r2[i] == ring[i] && r2[i + 1] == b
      && Ascending(r2, g) && Linked(r2, g) && FreeUnits(r2, g) == FreeUnits(ring, h) + Span(b, h[b].size)
      && forall j: nat :: j != i ==> GapAfter(r2, g, j)
  {
    hide FreeUnits, Ascending, Linked, Inserted, Removed, Span, Coalesced, GapAfter;
    InsertStep(ring, h, b, i);
    Lengths(ring, b, i);
    InsertedAt(ring, b, i, i);
    InsertedAt(ring, b, i, i + 1);
    Two(ring, h, i, i);
    LinkIs(ring, h, i);
    Two(ring, h, i, Succ(i, |ring|));
    var r1, g1 := Inserted(ring, b, i), InsertedHeap(h, ring[i], b);
    if i + 2 < |r1| {
      InsertedAt(ring, b, i, i + 2);
      Two(ring, h, i, i + 1);
      if b + h[b].size == r1[i + 2] {
        MergeStep(r1, g1, i + 1, i);
        Lengths(r1, 0, i + 2);
        RemovedAt(r1, i + 2, i);
        RemovedAt(r1, i + 2, i + 1);
      } else {
        NextGap(r1, g1, i + 1);
      }
    } else {
      NextGap(r1, g1, i + 1);
    }
  }

  lemma LinkIs(ring: seq<nat>, h: Heap, i: nat)
    requires Linked(ring, h) && i < |ring|
    ensures ring[i] < |h| && h[ring[i]].ptr == ring[Succ(i, |ring|)]
  {
    assert LinkAt(ring, h, i);
  }

  lemma NextGap(r: seq<nat>, g: Heap, k: nat)
    requires k + 1 < |r| && r[k] < |g| ==> r[k] + g[r[k]].size != r[k + 1]
    ensures GapAfter(r, g, k)
  {
  }

  /** `free` keeps the invariant of the list, and adds exactly the freed units to it. */
  lemma FreedList(ring: seq<nat>, h: Heap, b: nat, i: nat)
    requires FreeList(ring, h) && Place(ring, b, i) && b < |h| && h[b].size >= 1 && b + h[b].size <= |h|
    requires Span(b, h[b].size) !! FreeUnits(ring, h) && b !in ring && BASE < b
    ensures ring[i] < |h| && h[ring[i]].ptr < |h|
    ensures var r, g := FreedRing(ring, h, b, i), FreedHeap(h, ring[i], b);
      && FreeList(r, g) && ring[i] in r && FreeUnits(r, g) == FreeUnits(ring, h) + Span(b, h[b].size)
  {
    hide FreeUnits, Ascending, Linked, Inserted, Removed, Span, GapAfter, Joined, FreedHeap, Place;
    JoinStep(ring, h, b, i);
    PlaceBelow(ring, b, i);
    ListLink(ring, h, i);
    NotMember(ring, b, Succ(i, |ring|));
    var r1, g := Inserted(ring, b, i), Joined(h, ring[i], b);
    var r2 := if i + 2 < |r1| && b + h[b].size == r1[i + 2] then Removed(r1, i + 2) else r1;
    SameSizeBelow(h, ring[i], b);
    if ring[i] + h[ring[i]].size == b {
      MergeStep(r2, g, i, i);
      Lengths(r2, 0, i + 1);
      RemovedAt(r2, i + 1, i);
      LowerJoined(h, ring[i], b);
    } else {
      NextGap(r2, g, i);
      LowerApart(h, ring[i], b);
    }
  }

  /** Of the blocks in the ring, `p` is the last one below `b`. */
  ghost predicate BlockBelow(ring: seq<nat>, p: nat, b: nat) {
    p in ring && p < b && forall x: nat :: x in ring && x < b ==> x <= p
  }

  lemma PlaceIsBelow(ring: seq<nat>, h: Heap, b: nat, i: nat)
    requires Ascending(ring, h) && Place(ring, b, i)
    ensures i < |ring| && BlockBelow(ring, ring[i], b)
  {
    hide Ascending;
    forall x: nat | x in ring && x < b
      ensures x <= ring[i]
    {
      var j: nat :| j < |ring| && ring[j] == x;
      Two(ring, h, j, i);
    }
  }

  lemma PlaceBelow(ring: seq<nat>, b: nat, i: nat)
    requires Place(ring, b, i)
    ensures i < |ring| && ring[i] < b
  {
  }

  lemma NotMember(ring: seq<nat>, b: nat, i: nat)
    requires b !in ring && i < |ring|
    ensures ring[i] != b
  {
  }

  lemma SameSizeBelow(h: Heap, p: nat, b: nat)
    requires p < |h| && b < |h| && h[p].ptr < |h| && p != b
    ensures Joined(h, p, b)[p].size == h[p].size && |Joined(h, p, b)| == |h|
  {
  }

  lemma LowerJoined(h: Heap, p: nat, b: nat)
    requires p < |h| && b < |h| && h[p].ptr < |h| && p != b && h[p].ptr != b && p + h[p].size == b
    requires h[p].ptr == p ==> b + h[b].size != p
    ensures var g := Joined(h, p, b); FreedHeap(h, p, b) == g[p := Header(g[b].ptr, g[p].size + g[b].size)]
  {
  }

  lemma LowerApart(h: Heap, p: nat, b: nat)
    requires p < |h| && b < |h| && h[p].ptr < |h| && p != b && p + h[p].size != b
    ensures FreedHeap(h, p, b) == Joined(h, p, b)
  {
  }

  /** `free` writes two headers. */
  lemma FreedElsewhere(h: Heap, p: nat, b: nat, u: nat)
    requires p < |h| && b < |h| && h[p].ptr < |h| && u < |h| && u != p && u != b
    ensures |FreedHeap(h, p, b)| == |h| && FreedHeap(h, p, b)[u] == h[u]
  {
  }

  lemma ListLink(ring: seq<nat>, h: Heap, k: nat)
    requires FreeList(ring, h) && k < |ring|
    ensures Succ(k, |ring|) < |ring| && ring[k] < |h| && ring[Succ(k, |ring|)] < |h|
    ensures h[ring[k]].ptr == ring[Succ(k, |ring|)]
    ensures Ascending(ring, h)
  {
    hide Ascending, Coalesced;
    assert LinkAt(ring, h, k);
    Two(ring, h, Succ(k, |ring|), k);
  }

  /** A block handed out is ready to be put into the list. */
  lemma FreeReady(h: Heap, ring: seq<nat>, freep: nat, lent: map<nat, nat>, obtained: set<nat>, b: nat)
    requires Sound(h, ring, freep, lent, obtained) && b in lent
    ensures FreeList(ring, h) && Ascending(ring, h) && freep in ring && |ring| > 0
    ensures BASE < b < |h| && h[b].size == lent[b] && h[b].size >= 1 && b + h[b].size <= |h|
    ensures Span(b, h[b].size) !! FreeUnits(ring, h) && b !in ring
  {
    hide FreeUnits, LentUnits, Span, Linked, Coalesced;
    LentHas(lent, b);
    OwnHeader(lent, h, b);
    assert BlockOk(b, lent[b], h);
    forall i: nat | i < |ring|
      ensures ring[i] != b
    {
      RingHeader(ring, h, i);
    }
  }

  /** Units handed out are in memory, and `base` and free headers are none of them. */
  lemma LentElsewhere(h: Heap, ring: seq<nat>, lent: map<nat, nat>, u: nat)
    requires FreeList(ring, h) && Blocks(lent, h) && FreeUnits(ring, h) !! LentUnits(lent) && u in LentUnits(lent)
    ensures BASE < u < |h| && u !in ring
  {
    hide FreeUnits, Span, Linked, Coalesced;
    var a :| a in lent && u in Span(a, lent[a]);
    SpanHas(a, lent[a], u);
    assert BlockOk(a, lent[a], h);
    forall i: nat | i < |ring|
      ensures ring[i] != u
    {
      RingHeader(ring, h, i);
    }
  }

  /** The invariant after `free`. */
  lemma FreeDone(h: Heap, ring: seq<nat>, freep: nat, lent: map<nat, nat>, obtained: set<nat>, b: nat, i: nat)
    requires Sound(h, ring, freep, lent, obtained) && b in lent && Place(ring, b, i) && b < |h|
    requires ring[i] < |h| && h[ring[i]].ptr < |h|
    requires var r, g := FreedRing(ring, h, b, i), FreedHeap(h, ring[i], b);
      FreeList(r, g) && ring[i] in r && FreeUnits(r, g) == FreeUnits(ring, h) + Span(b, lent[b])
    ensures var r, g := FreedRing(ring, h, b, i), FreedHeap(h, ring[i], b);
      && Sound(g, r, ring[i], lent - {b}, obtained)
      && Untouched(lent - {b}, h, g)
  {
    hide FreeUnits, Span, FreeList, FreedHeap, FreedRing, LentUnits, Blocks;
    var rest, g := lent - {b}, FreedHeap(h, ring[i], b);
    LentRemove(lent, h, b);
    LentHas(lent, b);
    SpanHas(b, lent[b], b);
    BlockSize(lent, h, b);
    forall u | u in LentUnits(rest)
      ensures u < |h| && |g| == |h| && g[u] == h[u]
    {
      LentElsewhere(h, ring, lent, u);
      FreedElsewhere(h, ring[i], b, u);
    }
    forall a | a in rest
      ensures a < |h| && |g| == |h| && g[a] == h[a]
    {
      OwnHeader(rest, h, a);
    }
    FreedLength(h, ring[i], b);
    BlocksKept(rest, h, g);
  }

  lemma FreedLength(h: Heap, p: nat, b: nat)
    requires p < |h| && b < |h| && h[p].ptr < |h|
    ensures |FreedHeap(h, p, b)| == |h|
  {
  }

  lemma BlockSize(lent: map<nat, nat>, h: Heap, b: nat)
    requires Blocks(lent, h) && b in lent
    ensures lent[b] >= 1 && BASE < b
  {
    assert BlockOk(b, lent[b], h);
  }

  // ----- malloc -----

  /** Contiguous free units lie in one block. */
  lemma SpanInBlock(ring: seq<nat>, h: Heap, a: nat, n: nat)
    requires Ascending(ring, h) && Coalesced(ring, h) && n >= 1 && Span(a, n) <= FreeUnits(ring, h)
    ensures exists i: nat :: (i < |ring| && ring[i] < |h| && ring[i] <= a && a + n <= ring[i] + h[ring[i]].size)
  {
    hide FreeUnits, Span, Ascending, Coalesced;
    SpanHas(a, n, a);
    FreeUnitsFrom(ring, h, a);
    var i: nat :| i < |ring| && a in BlockUnits(ring[i], h);
    Two(ring, h, i, i);
    SpanHas(ring[i], h[ring[i]].size, a);
    var end := ring[i] + h[ring[i]].size;
    if end < a + n {
      SpanHas(a, n, end);
      FreeUnitsFrom(ring, h, end);
      var j: nat :| j < |ring| && end in BlockUnits(ring[j], h);
      Two(ring, h, j, j);
      SpanHas(ring[j], h[ring[j]].size, end);
      NoBlockAt(ring, h, i, j);
    }
  }

  /** No block covers the unit just past another one. */
  lemma NoBlockAt(ring: seq<nat>, h: Heap, i: nat, j: nat)
    requires Ascending(ring, h) && Coalesced(ring, h) && i < |ring| && j < |ring| && ring[i] < |h| && ring[j] < |h|
    ensures !(ring[j] <= ring[i] + h[ring[i]].size < ring[j] + h[ring[j]].size)
  {
    hide FreeUnits, Ascending;
    Two(ring, h, i, j);
    Two(ring, h, j, i);
    assert GapAfter(ring, h, i);
    if i + 1 < |ring| {
      Two(ring, h, i, i + 1);
      Two(ring, h, i + 1, j);
    }
  }

  /** The invariant after `n` units from `b` on have left the list. */
  lemma TakeDone(h: Heap, ring: seq<nat>, freep: nat, lent: map<nat, nat>, obtained: set<nat>,
                 g: Heap, r: seq<nat>, prev: nat, b: nat, n: nat)
    requires Sound(h, ring, freep, lent, obtained) && |g| == |h| && FreeList(r, g) && prev in r
    requires Span(b, n) <= FreeUnits(ring, h) && FreeUnits(r, g) == FreeUnits(ring, h) - Span(b, n)
    requires BlockOk(b, n, g)
    requires Untouched(lent, h, g)
    ensures b !in lent && Sound(g, r, prev, lent[b := n], obtained)
  {
    hide FreeUnits, Span, FreeList, LentUnits, Blocks;
    SpanHas(b, n, b);
    assert b in FreeUnits(ring, h);
    forall a | a in lent
      ensures a < |g| && g[a] == h[a] && a != b
    {
      OwnHeader(lent, h, a);
    }
    BlocksKept(lent, h, g);
    LentAdd(lent, g, b, n);
  }

  lemma TakeReady(h: Heap, ring: seq<nat>, freep: nat, lent: map<nat, nat>, obtained: set<nat>, k: nat, n: nat)
    requires Sound(h, ring, freep, lent, obtained) && 0 < k < |ring| && ring[k] < |h| && h[ring[k]].size >= n >= 1
    ensures FreeList(ring, h) && ring[k - 1] < |h| && ring[k - 1] != ring[k] && ring[k] + h[ring[k]].size <= |h|
  {
    hide FreeUnits, LentUnits, Span, Linked, Coalesced, Ascending;
    Two(ring, h, k - 1, k);
    Two(ring, h, k, k);
  }

  lemma TakeWhole(h: Heap, ring: seq<nat>, freep: nat, lent: map<nat, nat>, obtained: set<nat>, k: nat)
    requires Sound(h, ring, freep, lent, obtained) && 0 < k < |ring| && ring[k] < |h| && ring[k - 1] < |h|
    ensures var g, n := h[ring[k - 1] := h[ring[k - 1]].(ptr := h[ring[k]].ptr)], h[ring[k]].size;
      && Span(ring[k], n) <= FreeUnits(ring, h) && FreeUnits(Removed(ring, k), g) == FreeUnits(ring, h) - Span(ring[k], n)
      && ring[k] !in lent && Sound(g, Removed(ring, k), ring[k - 1], lent[ring[k] := n], obtained)
      && Untouched(lent, h, g)
  {
    hide FreeUnits, LentUnits, Span, FreeList, Removed, Ascending;
    var g, n := h[ring[k - 1] := h[ring[k - 1]].(ptr := h[ring[k]].ptr)], h[ring[k]].size;
    ListLink(ring, h, k);
    Two(ring, h, k - 1, k);
    Two(ring, h, 0, k);
    Two(ring, h, k, k);
    RemoveBlock(ring, h, k);
    FreeUnitsHas(ring, h, k);
    forall u | u in LentUnits(lent)
      ensures u < |h| && g[u] == h[u]
    {
      LentElsewhere(h, ring, lent, u);
      NotMember(ring, u, k - 1);
    }
    Lengths(ring, 0, k);
    RemovedAt(ring, k, k - 1);
    TakeDone(h, ring, freep, lent, obtained, g, Removed(ring, k), ring[k - 1], ring[k], n);
  }

  lemma TakeTail(h: Heap, ring: seq<nat>, freep: nat, lent: map<nat, nat>, obtained: set<nat>, k: nat, n: nat)
    requires Sound(h, ring, freep, lent, obtained) && 0 < k < |ring| && ring[k] < |h| && 1 <= n < h[ring[k]].size
    ensures ring[k] + h[ring[k]].size - n < |h|
    ensures var b := ring[k] + h[ring[k]].size - n;
      var g := h[ring[k] := h[ring[k]].(size := h[ring[k]].size - n)][b := h[b].(size := n)];
      && Span(b, n) <= FreeUnits(ring, h) && FreeUnits(ring, g) == FreeUnits(ring, h) - Span(b, n)
      && b !in lent && Sound(g, ring, ring[k - 1], lent[b := n], obtained)
      && Untouched(lent, h, g)
  {
    hide FreeUnits, LentUnits, Span, FreeList, Ascending;
    ListLink(ring, h, k);
    Two(ring, h, 0, k);
    Two(ring, h, k, k);
    ShrinkList(ring, h, k, n);
    var b := ring[k] + h[ring[k]].size - n;
    var g := h[ring[k] := h[ring[k]].(size := h[ring[k]].size - n)][b := h[b].(size := n)];
    SpanHas(b, n, b);
    forall u | u in LentUnits(lent)
      ensures u < |h| && g[u] == h[u]
    {
      LentElsewhere(h, ring, lent, u);
      NotMember(ring, u, k);
    }
    assert ring[k - 1] in ring;
    TakeDone(h, ring, freep, lent, obtained, g, ring, ring[k - 1], b, n);
  }

  /** Memory that `sbrk` has just given out, as a block lent. */
  lemma GrantDone(h: Heap, ring: seq<nat>, freep: nat, lent: map<nat, nat>, obtained: set<nat>, b: nat, n: nat)
    requires Sound(h, ring, freep, lent, obtained) && BASE < b && n >= 1 && b + n <= |h| && Span(b, n) !! obtained
    ensures b !in lent
    ensures var g := h[b := h[b].(size := n)];
      && Sound(g, ring, freep, lent[b := n], obtained + Span(b, n)) && FreeUnits(ring, g) == FreeUnits(ring, h)
    ensures Untouched(lent, h, h[b := h[b].(size := n)])
  {
    hide FreeUnits, Span, FreeList, LentUnits, Blocks;
    var g := h[b := h[b].(size := n)];
    SpanHas(b, n, b);
    OutsideList(h, ring, b, n);
    forall a | a in lent
      ensures a < |g| && g[a] == h[a] && a != b
    {
      OwnHeader(lent, h, a);
    }
    BlocksKept(lent, h, g);
    LentAdd(lent, g, b, n);
    forall u | u in LentUnits(lent)
      ensures u < |h| && u != b
    {
      LentElsewhere(h, ring, lent, u);
    }
  }

  /** A header outside the list does not matter to it. */
  lemma OutsideList(h: Heap, ring: seq<nat>, b: nat, n: nat)
    requires FreeList(ring, h) && BASE < b < |h| && b !in FreeUnits(ring, h)
    ensures var g := h[b := h[b].(size := n)]; FreeList(ring, g) && FreeUnits(ring, g) == FreeUnits(ring, h)
  {
    hide FreeUnits, GapAfter;
    var g := h[b := h[b].(size := n)];
    forall i: nat | i < |ring|
      ensures ring[i] < |h| && ring[i] != b
    {
      Two(ring, h, i, i);
      RingHeader(ring, h, i);
    }
    FreeUnitsFrame(ring, h, g);
    ShrinkLinked(ring, h, g);
    forall j: nat
      ensures GapAfter(ring, g, j)
    {
      GapIs(ring, h, j);
      SameGap(ring, h, g, j);
    }
  }

  lemma SameGap(ring: seq<nat>, h: Heap, g: Heap, j: nat)
    requires GapAfter(ring, h, j) && |g| == |h|
    requires forall i: nat :: i < |ring| ==> ring[i] < |h| && g[ring[i]] == h[ring[i]]
    ensures GapAfter(ring, g, j)
  {
  }

  /** The ring that `malloc` starts with. */
  lemma BaseRing(h: Heap)
    requires |h| > 0 && h[BASE] == Header(BASE, 0)
    ensures Sound(h, [BASE], BASE, map[], {}) && FreeUnits([BASE], h) == {}
  {
    OneBlock(BASE, h);
  }

  /** Some block has the units asked for, no farther ahead than slot `k` on the way to slot `f`. */
  ghost predicate FitAhead(ring: seq<nat>, h: Heap, nunits: nat, k: nat, f: nat) {
    k < |ring| && f < |ring|
    && exists g: nat :: FitsAt(ring, h, nunits, g) && Dist(g, f, |ring|) <= Dist(k, f, |ring|)
  }

  ghost predicate FitsAt(ring: seq<nat>, h: Heap, nunits: nat, g: nat) {
    g < |ring| && ring[g] < |h| && h[ring[g]].size >= nunits
  }

  /** No block passed on the way from behind slot `f` to slot `k` has the units asked for. */
  ghost predicate NoneBehind(ring: seq<nat>, h: Heap, nunits: nat, k: nat, f: nat) {
    && k < |ring| && f < |ring|
    && forall g: nat :: g < |ring| && Dist(g, f, |ring|) > Dist(k, f, |ring|) ==> !FitsAt(ring, h, nunits, g)
  }

  lemma StartScan(ring: seq<nat>, h: Heap, nunits: nat, f: nat)
    requires f < |ring|
    ensures NoneBehind(ring, h, nunits, Succ(f, |ring|), f)
    ensures (exists g: nat :: FitsAt(ring, h, nunits, g)) ==> FitAhead(ring, h, nunits, Succ(f, |ring|), f)
  {
    DistSucc(f, f, |ring|);
    forall g: nat | g < |ring|
      ensures Dist(g, f, |ring|) <= Dist(Succ(f, |ring|), f, |ring|)
    {
      DistSucc(g, f, |ring|);
    }
  }

  lemma NextScan(ring: seq<nat>, h: Heap, nunits: nat, k: nat, f: nat)
    requires k < |ring| && f < |ring| && k != f && !FitsAt(ring, h, nunits, k)
    ensures NoneBehind(ring, h, nunits, k, f) ==> NoneBehind(ring, h, nunits, Succ(k, |ring|), f)
    ensures FitAhead(ring, h, nunits, k, f) ==> FitAhead(ring, h, nunits, Succ(k, |ring|), f)
    ensures Dist(Succ(k, |ring|), f, |ring|) < Dist(k, f, |ring|)
  {
    DistSucc(k, f, |ring|);
    forall g: nat | g < |ring| && g != k
      ensures Dist(g, f, |ring|) != Dist(k, f, |ring|)
    {
    }
    if FitAhead(ring, h, nunits, k, f) {
      var g: nat :| FitsAt(ring, h, nunits, g) && Dist(g, f, |ring|) <= Dist(k, f, |ring|);
      assert FitsAt(ring, h, nunits, g) && Dist(g, f, |ring|) <= Dist(Succ(k, |ring|), f, |ring|);
    }
  }

  lemma EndScan(ring: seq<nat>, h: Heap, nunits: nat, f: nat)
    requires f < |ring| && !FitsAt(ring, h, nunits, f)
    ensures NoneBehind(ring, h, nunits, f, f) ==> forall g: nat :: !FitsAt(ring, h, nunits, g)
    ensures !FitAhead(ring, h, nunits, f, f)
  {
    forall g: nat | g < |ring|
      ensures Dist(g, f, |ring|) == 0 <==> g == f
    {
      DistSucc(g, f, |ring|);
    }
  }

  lemma LentInMemory(h: Heap, ring: seq<nat>, freep: nat, lent: map<nat, nat>, obtained: set<nat>)
    requires Sound(h, ring, freep, lent, obtained)
    ensures Untouched(lent, h, h)
  {
    hide FreeUnits, LentUnits, FreeList, Blocks;
    forall u | u in LentUnits(lent)
      ensures u < |h|
    {
      LentElsewhere(h, ring, lent, u);
    }
  }

  lemma LentNone(h: Heap, g: Heap)
    requires |g| == |h|
    ensures Untouched(map[], h, g)
  {
  }

  /** `freep` points into the ring. */
  lemma RovingSlot(h: Heap, ring: seq<nat>, freep: nat, lent: map<nat, nat>, obtained: set<nat>)
    requires Sound(h, ring, freep, lent, obtained)
    ensures FreeList(ring, h) && Ascending(ring, h) && exists f: nat :: (f < |ring| && ring[f] == freep)
  {
  }

  /** `malloc`'s two pointers, as slots of the ring. */
  ghost predicate Roving(ring: seq<nat>, length: nat, f: nat, freep: nat, q: nat, prevp: nat, k: nat, p: nat) {
    && f < |ring| && ring[f] == freep
    && q < |ring| && k < |ring| && k == Succ(q, |ring|) && prevp == ring[q] && p == ring[k]
    && prevp < length && p < length
  }

  function RoveDist(ring: seq<nat>, k: nat, f: nat): nat {
    if k < |ring| && f < |ring| then Dist(k, f, |ring|) else 0
  }

  lemma RoveStart(ring: seq<nat>, h: Heap, f: nat)
    requires FreeList(ring, h) && f < |ring|
    ensures ring[f] < |h| && Roving(ring, |h|, f, ring[f], f, ring[f], Succ(f, |ring|), h[ring[f]].ptr)
  {
    ListLink(ring, h, f);
  }

  /** One block on. */
  lemma RoveOn(ring: seq<nat>, h: Heap, f: nat, freep: nat, k: nat, p: nat)
    requires FreeList(ring, h) && f < |ring| && ring[f] == freep && k < |ring| && ring[k] == p
    ensures p < |h| && Roving(ring, |h|, f, freep, k, p, Succ(k, |ring|), h[p].ptr)
  {
    hide FreeList;
    ListLink(ring, h, k);
  }

  lemma RovingIs(ring: seq<nat>, h: Heap, f: nat, freep: nat, q: nat, prevp: nat, k: nat, p: nat, nunits: nat)
    requires FreeList(ring, h) && Roving(ring, |h|, f, freep, q, prevp, k, p) && nunits >= 1
    ensures f < |ring| && ring[f] == freep && k < |ring| && ring[k] == p && p < |h| && prevp < |h|
    ensures FitsAt(ring, h, nunits, k) <==> h[p].size >= nunits
    ensures h[p].size >= nunits ==> k > 0 && ring[k - 1] == prevp
  {
    hide FreeList, Ascending;
    ListLink(ring, h, k);
    FitIs(ring, h, nunits, k);
    if h[p].size >= nunits {
      FitSlot(ring, h, nunits, q, k);
    }
  }

  lemma FitIs(ring: seq<nat>, h: Heap, nunits: nat, k: nat)
    requires k < |ring| && ring[k] < |h|
    ensures FitsAt(ring, h, nunits, k) <==> h[ring[k]].size >= nunits
  {
  }

  /** A block with units is not `base`, so its predecessor in the ring is the slot below. */
  lemma FitSlot(ring: seq<nat>, h: Heap, nunits: nat, q: nat, k: nat)
    requires Ascending(ring, h) && nunits >= 1 && q < |ring| && k == Succ(q, |ring|) && k < |ring| && ring[k] < |h|
    requires h[ring[k]].size >= nunits
    ensures k > 0 && q == k - 1
  {
    hide Ascending;
    Two(ring, h, k, k);
  }

  lemma SlotUnique(ring: seq<nat>, h: Heap, k: nat, f: nat)
    requires Ascending(ring, h) && k < |ring| && f < |ring| && ring[k] == ring[f]
    ensures k == f
  {
    hide Ascending;
    Two(ring, h, k, f);
  }

  /** What `morecore` has added is in some block, whether or not it merged with another. */
  lemma GrownFits(ring: seq<nat>, h: Heap, nunits: nat, a: nat, n: nat)
    requires FreeList(ring, h) && n >= nunits && n >= 1 && Span(a, n) <= FreeUnits(ring, h)
    ensures exists g: nat :: FitsAt(ring, h, nunits, g)
  {
    hide FreeUnits, Span, Ascending, Coalesced, Linked;
    SpanInBlock(ring, h, a, n);
    var i: nat :| i < |ring| && ring[i] < |h| && ring[i] <= a && a + n <= ring[i] + h[ring[i]].size;
    assert FitsAt(ring, h, nunits, i);
  }

  /** Of the units `free0`, `n` from `b` on have become a block lent; nothing else changed hands. */
  ghost predicate HandedOut(free0: set<nat>, lent0: map<nat, nat>, free: set<nat>, lent: map<nat, nat>, b: nat, n: nat) {
    && b !in lent0 && lent == lent0[b := n]
    && Span(b, n) <= free0 && free == free0 - Span(b, n)
  }

  /** What `sbrk` has given since, and the free list has got. */
  ghost predicate Gained(free0: set<nat>, obtained0: set<nat>, given: set<nat>, free: set<nat>, obtained: set<nat>) {
    given !! obtained0 && obtained == obtained0 + given && free == free0 + given
  }

  lemma GainedNone(free: set<nat>, obtained: set<nat>)
    ensures Gained(free, obtained, {}, free, obtained)
  {
  }

  lemma GainedMore(free0: set<nat>, obtained0: set<nat>, free1: set<nat>, obtained1: set<nat>, given: set<nat>)
    requires Gained(free0, obtained0, {}, free1, obtained1) && given !! obtained1
    ensures Gained(free0, obtained0, given, free1 + given, obtained1 + given)
  {
  }

  lemma GainedIs(free0: set<nat>, obtained0: set<nat>, free: set<nat>, obtained: set<nat>)
    requires Gained(free0, obtained0, {}, free, obtained)
    ensures free == free0 && obtained == obtained0
  {
  }

  lemma GainedFree(free0: set<nat>, obtained0: set<nat>, given: set<nat>, free: set<nat>, obtained: set<nat>)
    requires Gained(free0, obtained0, given, free, obtained)
    ensures free == free0 + given
  {
  }

  lemma GainedThen(free0: set<nat>, obtained0: set<nat>, given: set<nat>, free1: set<nat>, obtained: set<nat>,
                   lent0: map<nat, nat>, free: set<nat>, lent: map<nat, nat>, b: nat, n: nat)
    requires Gained(free0, obtained0, given, free1, obtained) && HandedOut(free1, lent0, free, lent, b, n)
    ensures given !! obtained0 && obtained == obtained0 + given && HandedOut(free0 + given, lent0, free, lent, b, n)
  {
    hide HandedOut;
  }

  /** The payload at `addr` is cut from the first block behind `freep` that has `nunits` units: from
      its tail, or all of it.  `prev` is the block before that one. */
  ghost predicate FirstFit(ring: seq<nat>, h: Heap, freep: nat, nunits: nat, addr: nat, prev: nat) {
    exists k: nat, f: nat :: FirstFitAt(ring, h, freep, nunits, addr, prev, k, f)
  }

  ghost predicate FirstFitAt(ring: seq<nat>, h: Heap, freep: nat, nunits: nat, addr: nat, prev: nat, k: nat, f: nat) {
    && f < |ring| && ring[f] == freep && NoneBehind(ring, h, nunits, k, f) && FitsAt(ring, h, nunits, k)
    && addr + nunits == ring[k] + h[ring[k]].size + 1
    && k > 0 && prev == ring[k - 1]
  }

  /** The list is the one there was; the first call of all begins with `base` alone. */
  ghost predicate StillSame(freep0: Option<nat>, ring0: seq<nat>, h0: Heap, freep: Option<nat>, ring: seq<nat>, h: Heap) {
    if freep0.Some? then freep == freep0 && ring == ring0 && h == h0 else freep == Some(BASE) && ring == [BASE]
  }

  lemma FirstFitIs(ring: seq<nat>, h: Heap, freep: nat, nunits: nat, addr: nat, prev: nat, k: nat, f: nat)
    requires f < |ring| && ring[f] == freep && NoneBehind(ring, h, nunits, k, f) && FitsAt(ring, h, nunits, k)
    requires 0 < k < |ring| && ring[k] < |h| && addr + nunits == ring[k] + h[ring[k]].size + 1 && prev == ring[k - 1]
    ensures FirstFit(ring, h, freep, nunits, addr, prev)
  {
    hide NoneBehind, FitsAt;
    assert FirstFitAt(ring, h, freep, nunits, addr, prev, k, f);
  }

  /** How a call of `malloc` ends: a block, a null pointer, or a heap it has ruined. */
  datatype Result = Block(addr: nat) | Null | Ruined

  /** The allocator at one moment. */
  datatype Moment = Moment(freep: Option<nat>, ring: seq<nat>, heap: Heap, lent: map<nat, nat>,
                           obtained: set<nat>, free: set<nat>)

  ghost predicate Fits(m: Moment, nunits: nat) {
    m.freep.Some? && exists g: nat :: FitsAt(m.ring, m.heap, nunits, g)
  }

  /** `malloc` in its loop: what has happened since `was`, and how far the search has come. */
  ghost predicate Searching(was: Moment, now: Moment, given: set<nat>, calls: nat, nunits: nat,
                            f: nat, q: nat, prevp: nat, k: nat, p: nat) {
    && now.freep.Some? && Roving(now.ring, |now.heap|, f, now.freep.value, q, prevp, k, p)
    && calls <= 1 && now.lent == was.lent && Gained(was.free, was.obtained, given, now.free, now.obtained)
    && (calls == 0 ==> given == {}) && NoneBehind(now.ring, now.heap, nunits, k, f)
    && (calls == 0 ==> StillSame(was.freep, was.ring, was.heap, now.freep, now.ring, now.heap))
    && (calls == 1 ==> Extended(was, now.freep.value, given, nunits))
    && (Fits(was, nunits) || calls == 1 ==> FitAhead(now.ring, now.heap, nunits, k, f))
    && (Fits(was, nunits) ==> calls == 0)
    && Untouched(was.lent, was.heap, now.heap)
  }

  /** The list `malloc` has begun with. */
  function FirstRing(was: Moment): seq<nat> {
    if was.freep.Some? then was.ring else [BASE]
  }

  /** `morecore` has put memory into that list, and `freep` is at the block below it. */
  ghost predicate Extended(was: Moment, freep: nat, given: set<nat>, nunits: nat) {
    exists b: nat :: given == Span(b, AtLeast(nunits)) && BlockBelow(FirstRing(was), freep, b)
  }

  /** `now` the first block that fits in the list of the moment `at` has been served. */
  ghost predicate Served(was: Moment, at: Moment, now: Moment, nunits: nat, addr: nat, calls: nat, given: set<nat>) {
    && at.freep.Some? && now.freep.Some? && FreeList(at.ring, at.heap) && at.free == was.free + given
    && FirstFit(at.ring, at.heap, at.freep.value, nunits, addr, now.freep.value)
    && (calls == 0 ==> StillSame(was.freep, was.ring, was.heap, at.freep, at.ring, at.heap))
    && (calls == 1 ==> Extended(was, at.freep.value, given, nunits))
  }

  /** `malloc` at its end. */
  ghost predicate Answered(was: Moment, at: Moment, now: Moment, nunits: nat, r: Result, calls: nat, given: set<nat>) {
    && calls <= 1 && (calls == 0 ==> given == {})
    && (Fits(was, nunits) ==> calls == 0 && r.Block?)
    && (r.Block? ==> Served(was, at, now, nunits, r.addr, calls, given))
    && (r == Ruined ==> Request(AtLeast(nunits)) != AtLeast(nunits) * HEADER)
    && (r != Ruined ==> given !! was.obtained && now.obtained == was.obtained + given)
    && (r == Null ==> now.lent == was.lent && given == {} && now.free == was.free)
    && (r == Null ==> StillSame(was.freep, was.ring, was.heap, now.freep, now.ring, now.heap))
    && (r == Null ==> forall g: nat :: !FitsAt(now.ring, now.heap, nunits, g))
    && (r.Block? ==> r.addr > 0 && HandedOut(was.free + given, was.lent, now.free, now.lent, r.addr - 1, nunits))
    && (r != Ruined ==> Untouched(was.lent, was.heap, now.heap))
  }

  lemma SearchStarts(was: Moment, now: Moment, nunits: nat, f: nat)
    requires now.freep.Some? && FreeList(now.ring, now.heap) && f < |now.ring| && now.ring[f] == now.freep.value
    requires now.lent == was.lent && now.obtained == was.obtained && now.free == was.free
    requires StillSame(was.freep, was.ring, was.heap, now.freep, now.ring, now.heap)
    requires Untouched(was.lent, was.heap, now.heap)
    ensures now.freep.value < |now.heap|
    ensures Searching(was, now, {}, 0, nunits, f, f, now.freep.value, Succ(f, |now.ring|), now.heap[now.freep.value].ptr)
  {
    hide FreeList, Untouched, FitAhead, NoneBehind, FitsAt, Dist, Succ, Roving, Gained, Extended;
    GainedNone(was.free, was.obtained);
    RoveStart(now.ring, now.heap, f);
    StartScan(now.ring, now.heap, nunits, f);
  }

  /** The pointers at the head of the loop. */
  lemma SearchAt(was: Moment, now: Moment, given: set<nat>, calls: nat, nunits: nat,
                 f: nat, q: nat, prevp: nat, k: nat, p: nat)
    requires Searching(was, now, given, calls, nunits, f, q, prevp, k, p)
    requires nunits >= 1 && now.freep.Some? && Sound(now.heap, now.ring, now.freep.value, now.lent, now.obtained)
    ensures FreeList(now.ring, now.heap) && calls <= 1
    ensures k < |now.ring| && now.ring[k] == p && p < |now.heap| && prevp < |now.heap|
    ensures FitsAt(now.ring, now.heap, nunits, k) <==> now.heap[p].size >= nunits
    ensures now.heap[p].size >= nunits ==> k > 0 && now.ring[k - 1] == prevp
    ensures f < |now.ring| && now.ring[f] == now.freep.value && (p == now.freep.value ==> k == f)
  {
    hide FreeList, Sound, Ascending, Untouched, FitAhead, NoneBehind, FitsAt, Dist, Succ, Roving, Gained, StillSame, Extended, Fits;
    RovingSlot(now.heap, now.ring, now.freep.value, now.lent, now.obtained);
    RovingIs(now.ring, now.heap, f, now.freep.value, q, prevp, k, p, nunits);
    if p == now.freep.value {
      SlotUnique(now.ring, now.heap, k, f);
    }
  }

  /** A block large enough has been taken. */
  lemma Found(was: Moment, m: Moment, given: set<nat>, calls: nat, nunits: nat,
              f: nat, q: nat, prevp: nat, k: nat, p: nat, now: Moment, addr: nat)
    requires Searching(was, m, given, calls, nunits, f, q, prevp, k, p)
    requires m.freep.Some? && f < |m.ring| && m.ring[f] == m.freep.value
    requires FitsAt(m.ring, m.heap, nunits, k) && 0 < k < |m.ring| && m.ring[k] == p && p < |m.heap|
    requires FreeList(m.ring, m.heap) && m.ring[k - 1] == prevp && now.freep == Some(prevp)
    requires addr > 0 && addr + nunits == p + m.heap[p].size + 1
    requires HandedOut(m.free, m.lent, now.free, now.lent, addr - 1, nunits) && now.obtained == m.obtained
    requires Untouched(m.lent, m.heap, now.heap)
    ensures Answered(was, m, now, nunits, Block(addr), calls, given)
  {
    hide FreeList, Untouched, FitAhead, NoneBehind, FitsAt, Dist, Succ, Roving, Gained, StillSame, Extended, HandedOut, FirstFit, Fits;
    GainedThen(was.free, was.obtained, given, m.free, m.obtained, was.lent, now.free, now.lent, addr - 1, nunits);
    UntouchedOn(was.lent, was.heap, m.heap, now.heap);
    GainedFree(was.free, was.obtained, given, m.free, m.obtained);
    FirstFitIs(m.ring, m.heap, m.freep.value, nunits, addr, prevp, k, f);
  }

  /** The search is back where it began without having asked for more: no block is large enough. */
  lemma Exhausted(was: Moment, m: Moment, given: set<nat>, calls: nat, nunits: nat,
                  f: nat, q: nat, prevp: nat, p: nat)
    requires Searching(was, m, given, calls, nunits, f, q, prevp, f, p)
    requires f < |m.ring| && !FitsAt(m.ring, m.heap, nunits, f)
    ensures calls == 0 && !Fits(was, nunits) && given == {}
    ensures StillSame(was.freep, was.ring, was.heap, m.freep, m.ring, m.heap)
    ensures forall g: nat :: !FitsAt(m.ring, m.heap, nunits, g)
  {
    hide Untouched, FitAhead, NoneBehind, FitsAt, Roving, Gained, StillSame, Extended, Fits;
    EndScan(m.ring, m.heap, nunits, f);
  }

  /** `morecore` has given nothing. */
  lemma Refused(was: Moment, m: Moment, given: set<nat>, calls: nat, nunits: nat,
                f: nat, q: nat, prevp: nat, p: nat, now: Moment, r: Result)
    requires Searching(was, m, given, calls, nunits, f, q, prevp, f, p)
    requires f < |m.ring| && !FitsAt(m.ring, m.heap, nunits, f)
    requires (r == Ruined && Request(AtLeast(nunits)) != AtLeast(nunits) * HEADER) || (r == Null && now == m)
    ensures Answered(was, m, now, nunits, r, 1, {})
  {
    hide Untouched, FitAhead, NoneBehind, FitsAt, Roving, Gained, StillSame, Extended, Fits, HandedOut, FirstFit, Request, AtLeast;
    Exhausted(was, m, given, calls, nunits, f, q, prevp, p);
    GainedIs(was.free, was.obtained, m.free, m.obtained);
  }

  /** `morecore` has given a block of `more`, and the search goes on behind the new `freep`. */
  lemma Refilled(was: Moment, m: Moment, given: set<nat>, calls: nat, nunits: nat,
                 f: nat, q: nat, prevp: nat, p: nat, now: Moment, more: set<nat>, b: nat, g: nat)
    requires Searching(was, m, given, calls, nunits, f, q, prevp, f, p)
    requires f < |m.ring| && !FitsAt(m.ring, m.heap, nunits, f)
    requires now.freep.Some? && FreeList(now.ring, now.heap) && now.lent == m.lent
    requires more == Span(b, AtLeast(nunits)) && BlockBelow(m.ring, now.freep.value, b)
    requires m.freep.Some? && NoneBehind(now.ring, now.heap, nunits, Succ(g, |now.ring|), g)
    requires more !! m.obtained && now.obtained == m.obtained + more && now.free == m.free + more
    requires g < |now.ring| && now.ring[g] == now.freep.value && FitAhead(now.ring, now.heap, nunits, Succ(g, |now.ring|), g)
    requires Untouched(m.lent, m.heap, now.heap)
    ensures now.freep.value < |now.heap|
    ensures Searching(was, now, more, 1, nunits, g, g, now.freep.value, Succ(g, |now.ring|), now.heap[now.freep.value].ptr)
  {
    hide FreeList, Untouched, FitAhead, NoneBehind, FitsAt, Succ, Roving, Gained, StillSame, Fits, AtLeast, BlockBelow, Span;
    Exhausted(was, m, given, calls, nunits, f, q, prevp, p);
    GainedMore(was.free, was.obtained, m.free, m.obtained, more);
    UntouchedOn(was.lent, was.heap, m.heap, now.heap);
    RoveStart(now.ring, now.heap, g);
    SameRing(was, m);
    assert BlockBelow(FirstRing(was), now.freep.value, b);
  }

  lemma SameRing(was: Moment, m: Moment)
    requires StillSame(was.freep, was.ring, was.heap, m.freep, m.ring, m.heap)
    ensures FirstRing(was) == m.ring
  {
  }

  /** The block is too small, and the search goes on behind it. */
  lemma Passed(was: Moment, m: Moment, given: set<nat>, calls: nat, nunits: nat,
               f: nat, q: nat, prevp: nat, k: nat, p: nat)
    requires Searching(was, m, given, calls, nunits, f, q, prevp, k, p) && FreeList(m.ring, m.heap)
    requires m.freep.Some? && f < |m.ring| && m.ring[f] == m.freep.value
    requires k < |m.ring| && m.ring[k] == p && p != m.freep.value && !FitsAt(m.ring, m.heap, nunits, k)
    ensures p < |m.heap| && Searching(was, m, given, calls, nunits, f, k, p, Succ(k, |m.ring|), m.heap[p].ptr)
    ensures RoveDist(m.ring, Succ(k, |m.ring|), f) < RoveDist(m.ring, k, f)
  {
    hide FreeList, Untouched, FitAhead, NoneBehind, FitsAt, Dist, Roving, Gained, StillSame, Extended, Fits;
    NextScan(m.ring, m.heap, nunits, k, f);
    RoveOn(m.ring, m.heap, f, m.freep.value, k, p);
  }

  class Allocator {
    const heap: array<Header>
    var freep: Option<nat>
    /** The units `sbrk` has given out. */
    var obtained: set<nat>
    ghost var ring: seq<nat>
    ghost var lent: map<nat, nat>

    constructor (heap: array<Header>)
      requires heap.Length > 0
      ensures Valid() && this.heap == heap && lent == map[] && obtained == {}
    {
      this.heap, freep, obtained, ring, lent := heap, None, {}, [], map[];
    }

    ghost predicate Valid()
      reads this, heap
    {
      && heap.Length > 0
      && if freep.None? then obtained == {} && lent == map[]
         else Sound(heap[..], ring, freep.value, lent, obtained)
    }

    /** All free units. */
    ghost function Free(): set<nat>
      reads this, heap
    {
      if freep.None? then {} else FreeUnits(ring, heap[..])
    }

    /** The loop of `free`: the block below which the freed one belongs. */
    method FindBelow(bp: nat, ghost i: nat) returns (p: nat)
      requires Valid() && freep.Some? && FreeList(ring, heap[..]) && freep.value in ring
      requires Place(ring, bp, i) && BASE < bp
      ensures i < |ring| && p == ring[i] && p < heap.Length && heap[p].ptr < heap.Length
    {
      hide FreeUnits, FreeList, Blocks, LentUnits, Span, Ascending, Place, Sound;
      ghost var h: Heap := heap[..];
      PlaceBelow(ring, bp, i);
      p := freep.value;
      ghost var k: nat :| k < |ring| && ring[k] == p;
      ListLink(ring, h, k);
      while !(bp > p && bp < heap[p].ptr)
        invariant k < |ring| && p == ring[k] && p < heap.Length && heap[p].ptr < heap.Length
        decreases Dist(k, i, |ring|)
      {
        StopsAtPlace(ring, h, bp, i, k);
        if p >= heap[p].ptr && (bp > p || bp < heap[p].ptr) {
          break;
        }
        DistSucc(k, i, |ring|);
        ListLink(ring, h, k);
        p := heap[p].ptr;
        k := Succ(k, |ring|);
        ListLink(ring, h, k);
      }
      StopsAtPlace(ring, h, bp, i, k);
    }

    /** The writes of `free`: the block goes behind `p`, joined with its neighbours where they touch. */
    method Link(p: nat, bp: nat)
      requires p < heap.Length && bp < heap.Length && heap[p].ptr < heap.Length
      modifies heap
      ensures heap[..] == FreedHeap(old(heap[..]), p, bp)
    {
      var next := heap[p].ptr;
      if bp + heap[bp].size == next {
        heap[bp] := Header(heap[next].ptr, heap[bp].size + heap[next].size);
      } else {
        heap[bp] := heap[bp].(ptr := next);
      }
      if p + heap[p].size == bp {
        heap[p] := Header(heap[bp].ptr, heap[p].size + heap[bp].size);
      } else {
        heap[p] := heap[p].(ptr := bp);
      }
    }

    /** `free(ap)` for a block handed out. */
    method FreeBlock(ap: nat)
      requires Valid() && ap > 0 && ap - 1 in lent
      modifies this`freep, this`ring, this`lent, heap
      ensures Valid() && freep.Some?
      ensures freep.value in old(ring) && freep.value < ap - 1
      ensures forall x: nat :: x in old(ring) && x < ap - 1 ==> x <= freep.value
      ensures lent == old(lent) - {ap - 1}
      ensures Free() == old(Free()) + Span(ap - 1, old(lent)[ap - 1])
      ensures Untouched(lent, old(heap[..]), heap[..])
    {
      hide FreeUnits, FreeList, Blocks, LentUnits, Untouched, Span, FreedRing, FreedHeap, Ascending, Place, Sound;
      var bp := ap - 1;
      ghost var h: Heap := heap[..];
      FreeReady(h, ring, freep.value, lent, obtained, bp);
      ghost var i := FindPlace(ring, h, bp, |ring|);
      var p := FindBelow(bp, i);
      PlaceIsBelow(ring, h, bp, i);
      FreedList(ring, h, bp, i);
      Link(p, bp);
      FreeDone(h, ring, freep.value, lent, obtained, bp, i);
      freep := Some(p);
      ring := FreedRing(ring, h, bp, i);
      lent := lent - {bp};
    }

    /** The system call: a fresh contiguous region of that many bytes, or an error.  What it answers
        to a size that is not positive is of no use to the caller. */
    method Sbrk(bytes: int) returns (r: Option<nat>)
      modifies this`obtained
      ensures r.None? || bytes <= 0 ==> obtained == old(obtained)
      ensures r.Some? && bytes > 0 ==>
        && BASE < r.value && r.value + bytes / HEADER <= heap.Length
        && Span(r.value, bytes / HEADER) !! old(obtained) && obtained == old(obtained) + Span(r.value, bytes / HEADER)
    {
      var at: nat := *;
      var refused: bool := *;
      if refused {
        return None;
      }
      if bytes <= 0 {
        return Some(at);
      }
      var region := Span(at, bytes / HEADER);
      if at <= BASE || at + bytes / HEADER > heap.Length || !(region !! obtained) {
        return None;
      }
      obtained := obtained + region;
      r := Some(at);
    }

    /** `morecore`: `Null` when `sbrk` refuses. */
    method Morecore(nu: nat) returns (r: Result, ghost f: nat)
      requires Valid() && freep.Some? && nu >= 1
      modifies this, heap
      ensures r == Ruined ==> Request(AtLeast(nu)) != AtLeast(nu) * HEADER
      ensures r == Null ==> Valid() && freep == old(freep) && ring == old(ring) && lent == old(lent)
      ensures r == Null ==> obtained == old(obtained) && heap[..] == old(heap[..])
      ensures r.Block? ==> Valid() && freep.Some? && lent == old(lent)
      ensures r.Block? ==> Span(r.addr, AtLeast(nu)) !! old(obtained) && obtained == old(obtained) + Span(r.addr, AtLeast(nu))
      ensures r.Block? ==> Free() == old(Free()) + Span(r.addr, AtLeast(nu))
      ensures r.Block? ==> f < |ring| && ring[f] == freep.value && FitAhead(ring, heap[..], nu, Succ(f, |ring|), f)
      ensures r.Block? ==> NoneBehind(ring, heap[..], nu, Succ(f, |ring|), f)
      ensures r.Block? ==> freep.value in old(ring) && freep.value < r.addr
      ensures r.Block? ==> forall x: nat :: x in old(ring) && x < r.addr ==> x <= freep.value
      ensures r.Block? ==> Untouched(lent, old(heap[..]), heap[..])
    {
      hide FreeUnits, Sound, LentUnits, Untouched, Span, Request, FreeList, FitsAt, FitAhead, NoneBehind;
      var n := AtLeast(nu);
      f := 0;
      var p := Sbrk(Request(n));
      if p.None? {
        return Null, f;
      }
      if Request(n) != n * HEADER {
        return Ruined, f;
      }
      var hp := p.value;
      assert n * HEADER / HEADER == n;
      ghost var h: Heap := heap[..];
      GrantDone(h, ring, freep.value, lent, old(obtained), hp, n);
      heap[hp] := heap[hp].(size := n);
      assert heap[..] == h[hp := h[hp].(size := n)];
      ghost var lent0: map<nat, nat>, g: Heap := lent, heap[..];
      lent := lent[hp := n];
      FreeBlock(hp + 1);
      assert lent == lent0;
      UntouchedOn(lent0, h, g, heap[..]);
      RovingSlot(heap[..], ring, freep.value, lent, obtained);
      GrownFits(ring, heap[..], nu, hp, n);
      f :| f < |ring| && ring[f] == freep.value;
      StartScan(ring, heap[..], nu, f);
      r := Block(hp);
    }

    /** What `malloc` does with a block that is large enough: the whole block, or its tail. */
    method Take(prevp: nat, at: nat, nunits: nat, ghost k: nat) returns (addr: nat)
      requires Valid() && freep.Some? && nunits >= 1 && 0 < k < |ring| && ring[k - 1] == prevp && ring[k] == at
      requires prevp < heap.Length && at < heap.Length && heap[at].size >= nunits
      modifies this`freep, this`ring, this`lent, heap
      ensures Valid() && freep == Some(prevp) && addr > 0 && addr + nunits == at + old(heap[at].size) + 1
      ensures HandedOut(old(Free()), old(lent), Free(), lent, addr - 1, nunits)
      ensures Untouched(old(lent), old(heap[..]), heap[..])
    {
      hide FreeUnits, FreeList, Sound, LentUnits, Untouched, Span, Ascending, Removed, BlockOk;
      ghost var h: Heap, r0, lent0 := heap[..], ring, lent;
      TakeReady(h, ring, freep.value, lent, obtained, k, nunits);
      var p := at;
      if heap[p].size == nunits {
        heap[prevp] := heap[prevp].(ptr := heap[p].ptr);
        assert heap[..] == h[prevp := h[prevp].(ptr := h[p].ptr)];
        TakeWhole(h, ring, freep.value, lent, obtained, k);
        ring := Removed(ring, k);
      } else {
        heap[p] := heap[p].(size := heap[p].size - nunits);
        p := p + heap[p].size;
        heap[p] := heap[p].(size := nunits);
        assert heap[..] == h[at := h[at].(size := h[at].size - nunits)][p := h[p].(size := nunits)];
        TakeTail(h, ring, freep.value, lent, obtained, k, nunits);
      }
      freep := Some(prevp);
      lent := lent[p := nunits];
      addr := p + 1;
    }

    /** The first call makes `base` the only block. */
    method Start()
      requires Valid()
      modifies this`freep, this`ring, heap
      ensures Valid() && freep.Some? && Free() == old(Free())
      ensures old(freep).Some? ==> freep == old(freep) && ring == old(ring) && heap[..] == old(heap[..])
      ensures old(freep).None? ==> freep == Some(BASE) && ring == [BASE]
      ensures Untouched(lent, old(heap[..]), heap[..])
    {
      hide FreeUnits, LentUnits, Untouched, Sound;
      ghost var h: Heap := heap[..];
      if freep.None? {
        heap[BASE] := Header(BASE, 0);
        freep := Some(BASE);
        ring := [BASE];
        BaseRing(heap[..]);
        LentNone(h, heap[..]);
      } else {
        LentInMemory(heap[..], ring, freep.value, lent, obtained);
      }
    }

    ghost function Now(): Moment
      reads this, heap
    {
      Moment(freep, ring, heap[..], lent, obtained, Free())
    }

    /** The end of the search at a block that is large enough. */
    method Serve(prevp: nat, p: nat, nunits: nat, ghost was: Moment, ghost given: set<nat>, ghost calls: nat,
                 ghost f: nat, ghost q: nat, ghost k: nat) returns (r: Result)
      requires Valid() && freep.Some? && nunits >= 1 && Searching(was, Now(), given, calls, nunits, f, q, prevp, k, p)
      requires p < heap.Length && heap[p].size >= nunits
      modifies this`freep, this`ring, this`lent, heap
      ensures Valid() && r.Block? && Answered(was, old(Now()), Now(), nunits, r, calls, given)
    {
      hide FreeUnits, FreeList, Sound, LentUnits, Untouched, Span, Ascending, Request, AtLeast,
           NoneBehind, FitsAt, Dist, Succ, HandedOut, Searching, Answered;
      ghost var m := Now();
      SearchAt(was, m, given, calls, nunits, f, q, prevp, k, p);
      var addr := Take(prevp, p, nunits, k);
      Found(was, m, given, calls, nunits, f, q, prevp, k, p, Now(), addr);
      r := Block(addr);
    }

    /** The search is back where it began: more memory, or the end. */
    method Refill(prevp: nat, p: nat, nunits: nat, ghost was: Moment, ghost given: set<nat>, ghost calls: nat,
                  ghost f: nat, ghost q: nat, ghost k: nat) returns (r: Result, ghost g: nat)
      requires Valid() && freep.Some? && nunits >= 1 && Searching(was, Now(), given, calls, nunits, f, q, prevp, k, p)
      requires p < heap.Length && heap[p].size < nunits && p == freep.value
      modifies this, heap
      ensures calls == 0 && given == {}
      ensures !r.Block? ==> Answered(was, old(Now()), Now(), nunits, r, 1, {})
      ensures r != Ruined ==> Valid()
      ensures r.Block? ==> freep.Some? && freep.value < heap.Length
      ensures r.Block? ==>
        Searching(was, Now(), Span(r.addr, AtLeast(nunits)), 1, nunits, g, g, freep.value, Succ(g, |ring|), heap[freep.value].ptr)
    {
      hide FreeUnits, FreeList, Sound, LentUnits, Untouched, Span, Ascending, Request, AtLeast,
           NoneBehind, FitsAt, Dist, Succ, HandedOut, Searching, Answered;
      ghost var m := Now();
      SearchAt(was, m, given, calls, nunits, f, q, prevp, k, p);
      Exhausted(was, m, given, calls, nunits, f, q, prevp, p);
      r, g := Morecore(nunits);
      if r.Block? {
        RovingSlot(heap[..], ring, freep.value, lent, obtained);
        assert BlockBelow(m.ring, freep.value, r.addr);
        Refilled(was, m, given, 0, nunits, f, q, prevp, p, Now(), Span(r.addr, AtLeast(nunits)), r.addr, g);
      } else {
        Refused(was, m, given, 0, nunits, f, q, prevp, p, Now(), r);
      }
    }

    /** `malloc`: at most one call of `morecore`, and none if a block is large enough.  `given` is
        the memory `sbrk` has given out in it, and `at` the moment the block served is found. */
    method Malloc(nbytes: nat) returns (r: Result, ghost calls: nat, ghost given: set<nat>, ghost at: Moment)
      requires Valid() && nbytes < MODULUS
      modifies this, heap
      ensures calls <= 1 && (calls == 0 ==> given == {})
      ensures old(freep).Some? && old(exists g: nat :: FitsAt(ring, heap[..], Units(nbytes), g)) ==> calls == 0 && r.Block?
      ensures r.Block? ==> at.freep.Some? && freep.Some?
      ensures r.Block? ==> FirstFit(at.ring, at.heap, at.freep.value, Units(nbytes), r.addr, freep.value)
      ensures r.Block? && calls == 0 && old(freep).Some? ==>
        at.freep == old(freep) && at.ring == old(ring) && at.heap == old(heap[..])
      ensures r.Block? ==> FreeList(at.ring, at.heap) && FreeUnits(at.ring, at.heap) == old(Free()) + given
      ensures r.Block? && calls == 1 ==>
        exists b: nat ::
          && given == Span(b, AtLeast(Units(nbytes)))
          && BlockBelow(if old(freep).Some? then old(ring) else [BASE], at.freep.value, b)
      ensures r == Ruined ==> Request(AtLeast(Units(nbytes))) != AtLeast(Units(nbytes)) * HEADER
      ensures r != Ruined ==> Valid() && given !! old(obtained) && obtained == old(obtained) + given
      ensures r == Null ==> lent == old(lent) && given == {} && Free() == old(Free())
      ensures r == Null && old(freep).Some? ==>
        freep == old(freep) && ring == old(ring) && heap[..] == old(heap[..])
      ensures r == Null ==> forall g: nat :: !FitsAt(ring, heap[..], Units(nbytes), g)
      ensures r.Block? ==>
        r.addr > 0 && HandedOut(old(Free()) + given, old(lent), Free(), lent, r.addr - 1, Units(nbytes))
      ensures r != Ruined ==> Untouched(old(lent), old(heap[..]), heap[..])
    {
      hide FreeUnits, FreeList, Sound, LentUnits, Untouched, Span, Ascending, Request, AtLeast, Units, FitAhead,
           NoneBehind, FitsAt, Dist, Succ, HandedOut, FirstFit, Searching, RoveDist;
      var nunits := Units(nbytes);
      calls, given := 0, {};
      ghost var was := Now();
      at := was;
      Start();
      var prevp := freep.value;
      RovingSlot(heap[..], ring, prevp, lent, obtained);
      ghost var f: nat :| f < |ring| && ring[f] == prevp;
      SearchStarts(was, Now(), nunits, f);
      var p := heap[prevp].ptr;
      ghost var q: nat, k: nat := f, Succ(f, |ring|);
      while true
        invariant Valid() && freep.Some? && Searching(was, Now(), given, calls, nunits, f, q, prevp, k, p)
        decreases 1 - calls, RoveDist(ring, k, f)
      {
        SearchAt(was, Now(), given, calls, nunits, f, q, prevp, k, p);
        if heap[p].size >= nunits {
          at := Now();
          r := Serve(prevp, p, nunits, was, given, calls, f, q, k);
          return;
        }
        if p == freep.value {
          r, f := Refill(prevp, p, nunits, was, given, calls, f, q, k);
          calls := calls + 1;
          if !r.Block? {
            return;
          }
          given := Span(r.addr, AtLeast(nunits));
          p, k := freep.value, f;
        } else {
          Passed(was, Now(), given, calls, nunits, f, q, prevp, k, p);
        }
        prevp := p;
        p := heap[p].ptr;
        q, k := k, Succ(k, |ring|);
      }
    }
  }
}
