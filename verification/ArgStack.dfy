/** How `kexec` lays the arguments out in the one page of user stack. */
module ArgStack {
  import opened Arithmetic
  import opened Ram

  /** The room an argument takes: its bytes, rounded up to a multiple of eight. */
  function Slot(arg: seq<Byte>): nat {
    (|arg| + 7) / 8 * 8
  }

  /** The room the first `k` arguments take together. */
  function Padded(args: seq<seq<Byte>>, k: nat): nat
    requires k <= |args|
  {
    if k == 0 then 0 else Padded(args, k - 1) + Slot(args[k - 1])
  }

  /** Where argument `k` starts, below `top`. */
  function ArgAddr(args: seq<seq<Byte>>, top: nat, k: nat): int
    requires k < |args|
  {
    top - Padded(args, k + 1)
  }

  /** The arguments for which the stack page suffices.  A first argument without bytes is
      refused: the pointer for it would be the address just past the stack. */
  predicate ArgsFit(args: seq<seq<Byte>>) {
    && (args != [] ==> args[0] != [])
    && Padded(args, |args|) + 4 * (|args| + 1) <= PAGESIZE
  }

  lemma {:induction false} PaddedMonotone(args: seq<seq<Byte>>, j: nat, k: nat)
    requires j <= k <= |args|
    ensures Padded(args, j) <= Padded(args, k)
    ensures Padded(args, j) % 8 == 0
    decreases k
  {
    hide Slot;
    if j < k {
      PaddedMonotone(args, j, k - 1);
    } else if k > 0 {
      PaddedMonotone(args, k - 1, k - 1);
      SlotAligned(args[k - 1]);
      EightsAdd(Padded(args, k - 1), Slot(args[k - 1]));
    }
    if k > 0 {
      SlotAligned(args[k - 1]);
    }
  }

  lemma SlotAligned(arg: seq<Byte>)
    ensures Slot(arg) % 8 == 0 && Slot(arg) >= |arg|
  {
    var q := (|arg| + 7) / 8;
    EightParts(Slot(arg), q);
  }

  lemma EightsAdd(a: nat, b: nat)
    requires a % 8 == 0 && b % 8 == 0
    ensures (a + b) % 8 == 0
  {
    EightParts(a + b, a / 8 + b / 8);
  }

  /** `sp -= arg.len(); sp &= !7` moves down by the argument's slot. */
  lemma PushedDown(sp: nat, arg: seq<Byte>)
    requires sp % 8 == 0 && |arg| <= sp
    ensures sp - |arg| - (sp - |arg|) % 8 == sp - Slot(arg)
  {
    var q, r := |arg| / 8, |arg| % 8;
    assert |arg| == 8 * q + r;
    if r == 0 {
      assert Slot(arg) == 8 * q;
    } else {
      assert (|arg| + 7) / 8 == q + 1;
    }
  }

  /** Argument regions are aligned, below `top`, and pairwise disjoint; so is the pointer array
      below them. */
  lemma ArgsDisjoint(args: seq<seq<Byte>>, top: nat, j: nat, k: nat)
    requires ArgsFit(args) && top >= PAGESIZE && top % 8 == 0 && j < k < |args|
    ensures top - PAGESIZE <= ArgAddr(args, top, k) && ArgAddr(args, top, k) % 8 == 0
    ensures ArgAddr(args, top, j) % 8 == 0 && ArgAddr(args, top, j) + |args[j]| <= top
    ensures ArgAddr(args, top, k) + |args[k]| <= ArgAddr(args, top, j)
    ensures top - PAGESIZE <= top - Padded(args, |args|) - 4 * (|args| + 1)
    ensures top - Padded(args, |args|) <= ArgAddr(args, top, k)
  {
    hide Slot, Padded;
    PaddedMonotone(args, j + 1, k);
    PaddedMonotone(args, j + 1, j + 1);
    PaddedMonotone(args, k + 1, |args|);
    SlotOfArg(args, j);
    SlotOfArg(args, k);
    AlignedBelow(top, Padded(args, j + 1));
    AlignedBelow(top, Padded(args, k + 1));
  }

  lemma AlignedBelow(top: nat, down: nat)
    requires top % 8 == 0 && down % 8 == 0
    ensures (top - down) % 8 == 0
  {
  }

  lemma SlotOfArg(args: seq<seq<Byte>>, k: nat)
    requires k < |args|
    ensures Padded(args, k + 1) >= Padded(args, k) + |args[k]|
  {
  }

  ghost function PutBytes(p: Page, k: nat, bytes: seq<Byte>): Page
    requires k + |bytes| <= PAGESIZE
  {
    if bytes == [] then p
    else PutByte(PutBytes(p, k, bytes[..|bytes| - 1]), k + |bytes| - 1, bytes[|bytes| - 1])
  }

  lemma {:induction false} PutBytesAt(p: Page, k: nat, bytes: seq<Byte>, j: nat)
    requires k + |bytes| <= PAGESIZE && j < PAGESIZE
    ensures GetByte(PutBytes(p, k, bytes), j) == if k <= j < k + |bytes| then bytes[j - k] else GetByte(p, j)
    decreases |bytes|
  {
    hide GetByte;
    if bytes != [] {
      PutBytesAt(p, k, bytes[..|bytes| - 1], j);
    }
  }

  /** `words` written from word `i` on. */
  ghost function PutWords(p: Page, i: nat, words: seq<Word>): Page
    requires i + |words| <= ENTRIES
  {
    p[..i] + words + p[i + |words|..]
  }

  lemma PutWordsNone(p: Page, i: nat)
    requires i <= ENTRIES
    ensures PutWords(p, i, []) == p
  {
  }

  lemma PutWordsSnoc(p: Page, i: nat, words: seq<Word>, k: nat)
    requires i + |words| <= ENTRIES && k < |words|
    ensures PutWords(p, i, words[..k + 1]) == PutWords(p, i, words[..k])[i + k := words[k]]
  {
  }

  lemma PutWordsByte(p: Page, i: nat, words: seq<Word>, j: nat)
    requires i + |words| <= ENTRIES && j < PAGESIZE && !(4 * i <= j < 4 * (i + |words|))
    ensures GetByte(PutWords(p, i, words), j) == GetByte(p, j)
  {
    var q := j / 4;
    assert PutWords(p, i, words)[q] == p[q];
  }

  /** The page holds argument `j` at its place. */
  ghost predicate ArgHeld(p: Page, args: seq<seq<Byte>>, j: nat) {
    && j < |args| && Padded(args, j + 1) <= PAGESIZE
    && forall i: nat | i < |args[j]| :: ArgByte(p, args, j, i)
  }

  ghost predicate ArgByte(p: Page, args: seq<seq<Byte>>, j: nat, i: nat)
    requires j < |args| && Padded(args, j + 1) <= PAGESIZE && i < |args[j]|
  {
    GetByte(p, PAGESIZE - Padded(args, j + 1) + i) == args[j][i]
  }

  ghost predicate ArgsHeld(p: Page, args: seq<seq<Byte>>, k: nat) {
    forall j: nat | j < k :: ArgHeld(p, args, j)
  }

  lemma ArgsHeldNone(p: Page, args: seq<seq<Byte>>)
    ensures ArgsHeld(p, args, 0)
  {
  }

  /** Writing argument `k` below the earlier ones leaves them alone. */
  lemma ArgsHeldSnoc(p: Page, args: seq<seq<Byte>>, k: nat)
    requires k < |args| && Padded(args, k + 1) <= PAGESIZE && ArgsHeld(p, args, k)
    ensures PAGESIZE - Padded(args, k + 1) + |args[k]| <= PAGESIZE
    ensures ArgsHeld(PutBytes(p, PAGESIZE - Padded(args, k + 1), args[k]), args, k + 1)
  {
    hide GetByte, PutBytes;
    var at := PAGESIZE - Padded(args, k + 1);
    var q := PutBytes(p, at, args[k]);
    forall j: nat, i: nat | j < k + 1 && Padded(args, j + 1) <= PAGESIZE && i < |args[j]|
      ensures ArgByte(q, args, j, i)
    {
      PutBytesAt(p, at, args[k], PAGESIZE - Padded(args, j + 1) + i);
      if j < k {
        assert ArgHeld(p, args, j) && ArgByte(p, args, j, i);
        PaddedMonotone(args, j + 1, k);
      }
    }
    forall j: nat | j < k + 1
      ensures ArgHeld(q, args, j)
    {
      PaddedMonotone(args, j + 1, k + 1);
    }
  }

  lemma ArgByteKept(p: Page, args: seq<seq<Byte>>, i: nat, words: seq<Word>, j: nat, b: nat)
    requires j < |args| && Padded(args, j + 1) <= PAGESIZE && b < |args[j]| && ArgByte(p, args, j, b)
    requires i + |words| <= ENTRIES && 4 * (i + |words|) <= PAGESIZE - Padded(args, j + 1)
    ensures ArgByte(PutWords(p, i, words), args, j, b)
  {
    hide GetByte, PutWords, Padded;
    SlotOfArg(args, j);
    PutWordsByte(p, i, words, PAGESIZE - Padded(args, j + 1) + b);
  }

  /** Writing the pointers below the arguments leaves these alone. */
  lemma ArgsHeldBelow(p: Page, args: seq<seq<Byte>>, i: nat, words: seq<Word>)
    requires ArgsHeld(p, args, |args|) && Padded(args, |args|) <= PAGESIZE
    requires i + |words| <= ENTRIES && 4 * (i + |words|) == PAGESIZE - Padded(args, |args|)
    ensures ArgsHeld(PutWords(p, i, words), args, |args|)
  {
    hide GetByte, PutWords, Padded, Slot, ArgByte;
    var q := PutWords(p, i, words);
    forall j: nat | j < |args|
      ensures ArgHeld(q, args, j)
    {
      assert ArgHeld(p, args, j);
      PaddedMonotone(args, j + 1, |args|);
      forall b: nat | b < |args[j]|
        ensures ArgByte(q, args, j, b)
      {
        assert ArgByte(p, args, j, b);
        ArgByteKept(p, args, i, words, j, b);
      }
    }
  }

  /** The pointer array: the address of every argument, then a zero. */
  ghost predicate Pointers(words: seq<Word>, args: seq<seq<Byte>>, top: nat) {
    && |words| == |args| + 1 && words[|args|] == 0
    && forall j: nat | j < |args| :: words[j] as int == ArgAddr(args, top, j)
  }

  /** What the stack page of a program holds when it starts with stack pointer `sp`. */
  ghost predicate StackHolds(p: Page, args: seq<seq<Byte>>, top: nat, sp: int) {
    && ArgsFit(args) && sp == top - Padded(args, |args|) - 4 * (|args| + 1) && sp % 4 == 0
    && ArgsHeld(p, args, |args|)
    && var i := (PAGESIZE - Padded(args, |args|)) / 4 - (|args| + 1);
      0 <= i && Pointers(p[i..i + |args| + 1], args, top)
  }
}
