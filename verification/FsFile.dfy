/** Files as flat byte strings: how an offset is split into a path of pointers,
    what byte it names, and which steps leave every byte of every file alone. */
module FsFile {
  import opened Bytes
  import opened FsState

  const I_DIR := 1
  const I_FILE := 2

  // ---------- Splitting an offset ----------

  /** The slot that holds the data block of a page of a file. */
  function PageSlot(i: nat, page: nat): Slot
    requires page < PAGE_LIMIT
  {
    if page < DIRECT then Root(i, page)
    else if page < DIRECT + SINGLE * WORDS_PER_BLOCK then
      var q := page - DIRECT;
      Child(Root(i, FIRST_BASE + q / WORDS_PER_BLOCK), q % WORDS_PER_BLOCK)
    else
      var q := page - DIRECT - SINGLE * WORDS_PER_BLOCK;
      Child(Child(Root(i, SECOND_BASE), q / WORDS_PER_BLOCK), q % WORDS_PER_BLOCK)
  }

  /** The pointer of the inode a path starts from. */
  function RootPtr(x: Slot): nat {
    match x
    case Root(_, r) => r
    case Child(p, _) => RootPtr(p)
  }

  /** The split stays within the pointer tables and never needs the second
      double-indirect pointer or the triple-indirect one. */
  lemma PageSlotBounds(i: nat, page: nat)
    requires i < NUM_INODES && page < PAGE_LIMIT
    ensures Wf(PageSlot(i, page)) && Level(PageSlot(i, page)) == 0 && Owner(PageSlot(i, page)) == i
    ensures RootPtr(PageSlot(i, page)) <= SECOND_BASE
  {
    if page >= DIRECT + SINGLE * WORDS_PER_BLOCK {
      var q := page - DIRECT - SINGLE * WORDS_PER_BLOCK;
      assert q / WORDS_PER_BLOCK < WORDS_PER_BLOCK;
      var root := Root(i, SECOND_BASE);
      assert Wf(root) && Level(root) == 2 && RootPtr(root) == SECOND_BASE && Owner(root) == i;
      var mid := Child(root, q / WORDS_PER_BLOCK);
      assert Wf(mid) && Level(mid) == 1 && Owner(mid) == i && RootPtr(mid) == SECOND_BASE;
      assert PageSlot(i, page) == Child(mid, q % WORDS_PER_BLOCK);
    } else if page >= DIRECT {
      var q := page - DIRECT;
      var root := Root(i, FIRST_BASE + q / WORDS_PER_BLOCK);
      assert Wf(root) && Level(root) == 1 && RootPtr(root) < SECOND_BASE;
      assert PageSlot(i, page) == Child(root, q % WORDS_PER_BLOCK);
    }
  }

  /** Which data block of its file a slot holds, counting along the pointers of the
      inode and, under each, along the words of its index blocks. */
  function PageNumber(x: Slot): int {
    match x
    case Root(_, r) => r
    case Child(Root(_, r), w) => 14 + (r - 14) * 1024 + w
    case Child(Child(_, u), w) => 14 + 3 * 1024 + u * 1024 + w
  }

  /** The split is that order: page n of a file is its n-th data block. */
  lemma PageSlotInOrder(i: nat, page: nat)
    requires page < PAGE_LIMIT
    ensures PageNumber(PageSlot(i, page)) == page
  {
  }

  /** Two pages share a slot only if they are the same page of the same file. */
  lemma PageSlotInjective(i: nat, p: nat, j: nat, q: nat)
    requires p < PAGE_LIMIT && q < PAGE_LIMIT
    requires PageSlot(i, p) == PageSlot(j, q)
    ensures i == j && p == q
  {
  }

  // ---------- The bytes of a file ----------

  function PageOf(pos: nat): nat { pos / BLOCK_SIZE }

  /** The byte a file holds at an offset; a hole reads as zero. */
  ghost function ByteAt(s: Fs, i: nat, pos: nat): byte
    requires Shape(s) && i < NUM_INODES && pos < WORD_LIMIT
  {
    PageSlotBounds(i, PageOf(pos));
    var b := Ptr(s, PageSlot(i, PageOf(pos)));
    if b == 0 || b >= NUM_BLOCKS then 0 else s.disk[b][pos % BLOCK_SIZE]
  }

  /** n bytes of a file from an offset on. */
  ghost function Range(s: Fs, i: nat, off: nat, n: nat): (c: seq<byte>)
    requires Shape(s) && i < NUM_INODES && off + n <= WORD_LIMIT
    ensures |c| == n && forall k :: 0 <= k < n ==> c[k] == ByteAt(s, i, off + k)
  {
    seq<byte>(n, k requires 0 <= k < n => ByteAt(s, i, off + k))
  }

  /** The file as its reader sees it: `size` bytes. */
  ghost function Content(s: Fs, i: nat): (c: seq<byte>)
    requires Shape(s) && i < NUM_INODES
    ensures |c| == InodeOf(s, i).size
    ensures forall p :: 0 <= p < |c| && p < WORD_LIMIT ==> c[p] == ByteAt(s, i, p)
  {
    seq<byte>(InodeOf(s, i).size, p requires 0 <= p => if p < WORD_LIMIT then ByteAt(s, i, p) else 0)
  }

  ghost predicate SameBytes(s: Fs, t: Fs, i: nat)
    requires Shape(s) && Shape(t) && i < NUM_INODES
  {
    forall pos {:trigger ByteAt(t, i, pos)} :: 0 <= pos < WORD_LIMIT ==> ByteAt(t, i, pos) == ByteAt(s, i, pos)
  }

  /** Growing a tree fills a hole with zeros, so no file changes its bytes. */
  lemma GrowBytes(s: Fs, x: Slot, b: nat, i: nat)
    requires Shape(s) && Owned(s) && CanGrow(s, x, b) && i < NUM_INODES
    ensures SameBytes(s, Grow(s, x, b), i)
  {
    forall pos | 0 <= pos < WORD_LIMIT ensures ByteAt(Grow(s, x, b), i, pos) == ByteAt(s, i, pos) {
      GrowByte(s, x, b, i, pos);
    }
  }

  lemma GrowByte(s: Fs, x: Slot, b: nat, i: nat, pos: nat)
    requires Shape(s) && Owned(s) && CanGrow(s, x, b) && i < NUM_INODES && pos < WORD_LIMIT
    ensures ByteAt(Grow(s, x, b), i, pos) == ByteAt(s, i, pos)
  {
    var y := PageSlot(i, PageOf(pos));
    PageSlotBounds(i, PageOf(pos));
    GrowPtr(s, x, b, y);
    if y == x {
      assert Grow(s, x, b).disk[b] == ZeroBlock();
    } else if Ptr(s, y) != 0 {
      GrowDataBlock(s, x, b, y);
    }
  }

  /** A data block already in place keeps its bytes while a tree grows. */
  lemma GrowDataBlock(s: Fs, x: Slot, b: nat, y: Slot)
    requires Shape(s) && Owned(s) && CanGrow(s, x, b)
    requires Wf(y) && Level(y) == 0 && Ptr(s, y) != 0
    ensures Ptr(s, y) < NUM_BLOCKS && Grow(s, x, b).disk[Ptr(s, y)] == s.disk[Ptr(s, y)]
  {
    if x.Child? {
      assert Ptr(s, x.parent) != Ptr(s, y);
    }
  }

  // ---------- Overwriting a data block ----------

  /** Slot x holds a data block: its content may change freely. */
  ghost predicate DataBlock(s: Fs, x: Slot)
    requires Shape(s)
  {
    Wf(x) && Level(x) == 0 && 0 < Ptr(s, x) < NUM_BLOCKS
  }

  ghost function PutBlock(s: Fs, b: nat, blk: Block): (r: Fs)
    requires Shape(s) && b < NUM_BLOCKS
    ensures Shape(r)
  {
    s.(disk := s.disk[b := blk])
  }

  /** Block b is not an index block: no pointer is stored in it. */
  ghost predicate NotIndex(s: Fs, b: nat)
    requires Shape(s)
  {
    forall q {:trigger Ptr(s, q)} :: Wf(q) && Level(q) > 0 && b != 0 ==> Ptr(s, q) != b
  }

  lemma DataIsNotIndex(s: Fs, x: Slot)
    requires Shape(s) && Owned(s) && DataBlock(s, x)
    ensures NotIndex(s, Ptr(s, x))
  {
  }

  lemma {:induction false} PutBlockPtr(s: Fs, b: nat, blk: Block, y: Slot)
    requires Shape(s) && b < NUM_BLOCKS && NotIndex(s, b) && Wf(y)
    ensures Ptr(PutBlock(s, b, blk), y) == Ptr(s, y)
  {
    match y
    case Root(i, k) =>
    case Child(q, v) => PutBlockPtr(s, b, blk, q);
  }

  lemma PutBlockOwned(s: Fs, b: nat, blk: Block)
    requires Shape(s) && Owned(s) && b < NUM_BLOCKS && NotIndex(s, b)
    ensures Owned(PutBlock(s, b, blk))
    ensures Leaked(PutBlock(s, b, blk)) == Leaked(s)
  {
    var t := PutBlock(s, b, blk);
    forall y | Wf(y) ensures Ptr(t, y) == Ptr(s, y) {
      PutBlockPtr(s, b, blk, y);
    }
    SamePtrsSameLeaks(s, t);
  }

  /** Rewriting the block of page `page` of file i changes the bytes of that page only. */
  lemma PutBlockBytes(s: Fs, i: nat, page: nat, blk: Block, j: nat, pos: nat)
    requires Shape(s) && Owned(s) && i < NUM_INODES && page < PAGE_LIMIT
    requires j < NUM_INODES && pos < WORD_LIMIT
    requires Wf(PageSlot(i, page)) && DataBlock(s, PageSlot(i, page))
    ensures ByteAt(PutBlock(s, Ptr(s, PageSlot(i, page)), blk), j, pos) ==
            if j == i && PageOf(pos) == page then blk[pos % BLOCK_SIZE] else ByteAt(s, j, pos)
  {
    var x, y := PageSlot(i, page), PageSlot(j, PageOf(pos));
    PageSlotBounds(j, PageOf(pos));
    DataIsNotIndex(s, x);
    PutBlockPtr(s, Ptr(s, x), blk, y);
    if Ptr(s, y) == Ptr(s, x) {
      PageSlotInjective(i, page, j, PageOf(pos));
    }
  }

  // ---------- Changing an inode's other fields ----------

  lemma {:induction false} SetInodePtr(s: Fs, i: nat, n: Inode, y: Slot)
    requires Shape(s) && i < NUM_INODES && n.ptrs == InodeOf(s, i).ptrs && Wf(y)
    ensures Ptr(SetInode(s, i, n), y) == Ptr(s, y)
  {
    match y
    case Root(_, _) =>
    case Child(q, _) => SetInodePtr(s, i, n, q);
  }

  lemma SetInodeOwned(s: Fs, i: nat, n: Inode)
    requires Shape(s) && Owned(s) && i < NUM_INODES && n.ptrs == InodeOf(s, i).ptrs
    ensures Owned(SetInode(s, i, n))
    ensures Leaked(SetInode(s, i, n)) == Leaked(s)
    ensures forall j :: 0 <= j < NUM_INODES ==> SameBytes(s, SetInode(s, i, n), j)
  {
    var t := SetInode(s, i, n);
    forall y | Wf(y) ensures Ptr(t, y) == Ptr(s, y) {
      SetInodePtr(s, i, n, y);
    }
    SamePtrsSameLeaks(s, t);
    forall j | 0 <= j < NUM_INODES ensures SameBytes(s, t, j) {
      forall pos | 0 <= pos < WORD_LIMIT ensures ByteAt(t, j, pos) == ByteAt(s, j, pos) {
        PageSlotBounds(j, PageOf(pos));
      }
    }
  }
}
