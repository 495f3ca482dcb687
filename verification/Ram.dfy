/** Physical memory: the frames the heap allocator has handed out, byte by byte. */
module Ram {

  const PAGESIZE: nat := 4096
  const ENTRIES: nat := 1024

  /** The largest value of a 32-bit `usize`. */
  const USIZE_MAX: nat := 0xffff_ffff

  /** Number of virtual pages; no table has an entry for anything else. */
  const PAGES: nat := 0x10_0000

  const RAMSTART: nat := 0x8020_0000
  const RAMEND: nat := RAMSTART + 62 * 1024 * 1024

  /** Frame numbers of the first and one past the last frame of RAM. */
  const RAM_LO: nat := RAMSTART / PAGESIZE
  const RAM_HI: nat := RAMEND / PAGESIZE

  type Byte = x: int | 0 <= x < 256
  type Word = x: int | 0 <= x <= USIZE_MAX
  type Page = p: seq<Word> | |p| == ENTRIES witness seq(ENTRIES, i => 0)

  /** Contents of every frame currently handed out, by frame number. */
  type Mem = map<nat, Page>

  const ZERO_PAGE: Page := seq(ENTRIES, i => 0)

  /** The weight of byte `k` of a word in little-endian byte order. */
  function Weight(k: nat): (w: nat)
    requires k < 4
  {
    if k == 0 then 1 else if k == 1 then 0x100 else if k == 2 then 0x1_0000 else 0x100_0000
  }

  function WordByte(w: Word, k: nat): Byte
    requires k < 4
  {
    w / Weight(k) % 0x100
  }

  /** The word with the given bytes, lowest first. */
  function WordOf(b0: Byte, b1: Byte, b2: Byte, b3: Byte): (w: Word)
    ensures WordByte(w, 0) == b0 && WordByte(w, 1) == b1 && WordByte(w, 2) == b2 && WordByte(w, 3) == b3
  {
    var w: int := (b0 as int) + 0x100 * (b1 as int) + 0x1_0000 * (b2 as int) + 0x100_0000 * (b3 as int);
    WordOfBytes(b0, b1, b2, b3);
    w
  }

  lemma WordOfBytes(b0: nat, b1: nat, b2: nat, b3: nat)
    requires b0 < 0x100 && b1 < 0x100 && b2 < 0x100 && b3 < 0x100
    ensures var w := b0 + 0x100 * b1 + 0x1_0000 * b2 + 0x100_0000 * b3;
      w % 0x100 == b0 && w / 0x100 % 0x100 == b1 && w / 0x1_0000 % 0x100 == b2 && w / 0x100_0000 % 0x100 == b3
  {
    var w := b0 + 0x100 * b1 + 0x1_0000 * b2 + 0x100_0000 * b3;
    Quotient(w, b0, 0x100, b1 + 0x100 * b2 + 0x1_0000 * b3);
    Quotient(b1 + 0x100 * b2 + 0x1_0000 * b3, b1, 0x100, b2 + 0x100 * b3);
    Quotient(w, b0 + 0x100 * b1, 0x1_0000, b2 + 0x100 * b3);
    Quotient(b2 + 0x100 * b3, b2, 0x100, b3);
    Quotient(w, b0 + 0x100 * b1 + 0x1_0000 * b2, 0x100_0000, b3);
    Quotient(b3, b3, 0x100, 0);
  }

  lemma Quotient(w: nat, low: nat, d: nat, high: nat)
    requires d in {0x100, 0x1_0000, 0x100_0000} && w == d * high + low && low < d
    ensures w / d == high && w % d == low
  {
  }

  function PutWordByte(w: Word, k: nat, b: Byte): (r: Word)
    requires k < 4
    ensures forall j: nat | j < 4 :: WordByte(r, j) == if j == k then b else WordByte(w, j)
  {
    WordOf(if k == 0 then b else WordByte(w, 0),
           if k == 1 then b else WordByte(w, 1),
           if k == 2 then b else WordByte(w, 2),
           if k == 3 then b else WordByte(w, 3))
  }

  /** Byte `k` of a page. */
  function GetByte(p: Page, k: nat): Byte
    requires k < PAGESIZE
  {
    WordByte(p[k / 4], k % 4)
  }

  function PutByte(p: Page, k: nat, b: Byte): (q: Page)
    requires k < PAGESIZE
    ensures forall j: nat | j < PAGESIZE :: GetByte(q, j) == if j == k then b else GetByte(p, j)
  {
    PutByteAt(p, k, b);
    p[k / 4 := PutWordByte(p[k / 4], k % 4, b)]
  }

  lemma PutByteAt(p: Page, k: nat, b: Byte)
    requires k < PAGESIZE
    ensures forall j: nat | j < PAGESIZE ::
      GetByte(p[k / 4 := PutWordByte(p[k / 4], k % 4, b)], j) == if j == k then b else GetByte(p, j)
  {
    hide WordByte, PutWordByte;
    forall j: nat | j < PAGESIZE
      ensures GetByte(p[k / 4 := PutWordByte(p[k / 4], k % 4, b)], j) == if j == k then b else GetByte(p, j)
    {
      SameByte(j, k);
    }
  }

  /** A byte's place is its word and its place in the word. */
  lemma SameByte(j: nat, k: nat)
    ensures j == k <==> j / 4 == k / 4 && j % 4 == k % 4
  {
    assert j == 4 * (j / 4) + j % 4 && k == 4 * (k / 4) + k % 4;
  }

  /** The page holding the given bytes. */
  function PageOf(bytes: seq<Byte>): Page
    requires |bytes| == PAGESIZE
  {
    seq(ENTRIES, (i: nat) requires i < ENTRIES =>
      WordOf(bytes[4 * i], bytes[4 * i + 1], bytes[4 * i + 2], bytes[4 * i + 3]))
  }

  lemma PageOfByte(bytes: seq<Byte>, k: nat)
    requires |bytes| == PAGESIZE && k < PAGESIZE
    ensures GetByte(PageOf(bytes), k) == bytes[k]
  {
    hide WordByte;
    var i, j := k / 4, k % 4;
    assert k == 4 * i + j && j < 4;
    assert PageOf(bytes)[i] == WordOf(bytes[4 * i], bytes[4 * i + 1], bytes[4 * i + 2], bytes[4 * i + 3]);
    assert j == 0 || j == 1 || j == 2 || j == 3;
  }

  /** Every frame outside `touched` is still there with the same bytes. */
  ghost predicate SameOutside(before: Mem, after: Mem, touched: set<nat>) {
    forall f :: f in before && f !in touched ==> f in after && after[f] == before[f]
  }

  /** What allocating frame `f` does. */
  ghost predicate Taken(m0: Mem, free0: set<nat>, m1: Mem, free1: set<nat>, f: nat) {
    && m0.Keys !! free0 && f in free0 && free1 == free0 - {f} && RAM_LO <= f < RAM_HI
    && m1.Keys == m0.Keys + {f} && SameOutside(m0, m1, {})
  }

  /** Taking a frame and giving it back restores memory and allocator. */
  lemma TakenBack(m0: Mem, free0: set<nat>, m1: Mem, free1: set<nat>, f: nat)
    requires Taken(m0, free0, m1, free1, f)
    ensures m1 - {f} == m0 && free1 + {f} == free0
  {
  }

  /** The machine's memory together with its frame allocator. */
  class Memory {
    var mem: Mem
    var free: set<nat>

    ghost predicate Valid()
      reads this
    {
      && mem.Keys !! free
      && (forall f :: f in mem ==> RAM_LO <= f < RAM_HI)
      && (forall f :: f in free ==> RAM_LO <= f < RAM_HI)
    }

    /** Takes a frame with unspecified contents, or answers 0 (a null pointer).
        The allocator may refuse although frames are left. */
    method Alloc() returns (f: nat)
      requires Valid()
      modifies this
      ensures Valid()
      ensures f == 0 ==> mem == old(mem) && free == old(free)
      ensures f != 0 ==> Taken(old(mem), old(free), mem, free, f)
    {
      f := 0;
      var refused: bool := *;
      if !refused && free != {} {
        f :| f in free;
        var garbage: Page := *;
        free := free - {f};
        mem := mem[f := garbage];
      }
    }

    /** Gives a frame back.  Giving back a frame twice, or one that was never
        handed out, would violate the precondition. */
    method Dealloc(f: nat)
      requires Valid() && f in mem
      modifies this
      ensures Valid()
      ensures mem == old(mem) - {f} && free == old(free) + {f}
    {
      mem := mem - {f};
      free := free + {f};
    }

    method WriteWord(f: nat, i: nat, w: Word)
      requires Valid() && f in mem && i < ENTRIES
      modifies this`mem
      ensures Valid()
      ensures mem == old(mem)[f := old(mem)[f][i := w]]
    {
      mem := mem[f := mem[f][i := w]];
    }

    method WritePage(f: nat, p: Page)
      requires Valid() && f in mem
      modifies this`mem
      ensures Valid() && mem == old(mem)[f := p]
    {
      mem := mem[f := p];
    }
  }
}
