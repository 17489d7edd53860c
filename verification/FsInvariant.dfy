/** What every file system operation keeps: block ownership, honest inode
    records and block counts, and zeros past the end of each file. What the
    block map counts beyond the inodes' counts are the leaked blocks. */
module FsInvariant {
  import opened Bytes
  import opened FsState
  import opened FsFile

  /** A free record is all zeros; a live one carries its own number, and a
      directory or file owns no pointer its kind has no use for. */
  ghost predicate Record(s: Fs, i: nat)
    requires Shape(s) && i < NUM_INODES
  {
    var n := InodeOf(s, i);
    && s.inodeMap[i] <= 1 && n.fileNum < WORD_LIMIT && n.links < WORD_LIMIT
    && (s.inodeMap[i] == 0 ==> n == ZeroInode())
    && (s.inodeMap[i] == 1 ==> n.id == i && (n.kind == I_DIR || n.kind == I_FILE) && n.size < WORD_LIMIT)
    && (n.kind == I_DIR ==> forall k :: 1 <= k < NUM_PTRS ==> n.ptrs[k] == 0)
    && (n.kind == I_DIR ==> n.size == BLOCK_SIZE && n.blocks == 1)
    && (n.kind == I_FILE ==> forall k :: SECOND_BASE < k < NUM_PTRS ==> n.ptrs[k] == 0)
    && (s.inodeMap[i] == 1 && i != 0 ==> n.ptrs[0] != 0)
  }

  ghost predicate Records(s: Fs)
    requires Shape(s)
  {
    && (forall i :: 0 <= i < NUM_INODES ==> Record(s, i))
    && s.inodeMap[0] == 1 && InodeOf(s, 0).kind == I_DIR && InodeOf(s, 0).ptrs[0] == 0
  }

  /** Bytes past the end of a file are zero, so extending it appends zeros. */
  ghost predicate ZeroTail(s: Fs, i: nat)
    requires Shape(s) && i < NUM_INODES
  {
    InodeOf(s, i).kind == I_FILE ==>
      forall pos {:trigger ByteAt(s, i, pos)} :: InodeOf(s, i).size <= pos < WORD_LIMIT ==> ByteAt(s, i, pos) == 0
  }

  // ---------- Conservation ----------

  ghost function Used(m: seq<byte>): set<nat> {
    set b: nat | 0 <= b < |m| && m[b] != 0
  }

  ghost function SumBlocks(s: Fs, k: nat): nat
    requires Shape(s) && k <= NUM_INODES
  {
    if k == 0 then 0 else SumBlocks(s, k - 1) + InodeOf(s, k - 1).blocks
  }

  /** The block map has exactly as many used entries as the live inodes claim. */
  ghost predicate Conserved(s: Fs)
    requires Shape(s)
  {
    |Used(s.blockMap)| == SumBlocks(s, NUM_INODES)
  }

  /** The blocks in the tree of inode i. */
  ghost function BlocksOf(s: Fs, i: nat): set<nat>
    requires Shape(s)
  {
    set b: nat | 0 < b < NUM_BLOCKS && HeldBy(s, i, b)
  }

  ghost predicate HeldBy(s: Fs, i: nat, b: nat)
    requires Shape(s)
  {
    exists x :: Wf(x) && Ptr(s, x) == b && Owner(x) == i
  }

  /** The block count of a file is the size of its tree. */
  ghost predicate Counted(s: Fs)
    requires Shape(s)
  {
    forall i :: 0 <= i < NUM_INODES && InodeOf(s, i).kind == I_FILE ==> InodeOf(s, i).blocks == |BlocksOf(s, i)|
  }

  lemma SamePtrsSameBlocks(s: Fs, t: Fs)
    requires Shape(s) && Shape(t)
    requires forall x {:trigger Ptr(t, x)} {:trigger Ptr(s, x)} :: Wf(x) ==> Ptr(t, x) == Ptr(s, x)
    ensures forall i :: BlocksOf(t, i) == BlocksOf(s, i)
  {
    forall i: nat, b: nat ensures HeldBy(t, i, b) == HeldBy(s, i, b) {
      if HeldBy(s, i, b) {
        var x :| Wf(x) && Ptr(s, x) == b && Owner(x) == i;
        assert Ptr(t, x) == b;
      }
      if HeldBy(t, i, b) {
        var x :| Wf(x) && Ptr(t, x) == b && Owner(x) == i;
        assert Ptr(s, x) == b;
      }
    }
    forall i: nat ensures BlocksOf(t, i) == BlocksOf(s, i) {
    }
  }

  /** What holds even halfway through a write. */
  ghost predicate Core(s: Fs)
    ensures Core(s) ==> Shape(s)
  {
    Shape(s) && Owned(s) && Records(s) && Counted(s)
  }

  // ---------- The balance is the leaked blocks ----------

  /** A directory has no pointer but its first, a free inode none. */
  lemma {:induction false} FirstPtrOnly(s: Fs, i: nat, x: Slot)
    requires Core(s) && i < NUM_INODES && InodeOf(s, i).kind != I_FILE && Wf(x) && Owner(x) == i
    ensures Ptr(s, x) != 0 ==> x == Root(i, 0)
  {
    match x
    case Root(_, r) => assert Record(s, i);
    case Child(p, w) => FirstPtrOnly(s, i, p);
  }

  /** An inode's count is the size of its tree, and one more for the root. */
  lemma CountOf(s: Fs, i: nat)
    requires Core(s) && i < NUM_INODES
    ensures InodeOf(s, i).blocks == |BlocksOf(s, i)| + if i == 0 then 1 else 0
    ensures InodeOf(s, i).kind == I_DIR && i != 0 ==> BlocksOf(s, i) == {InodeOf(s, i).ptrs[0]}
  {
    assert Record(s, i) && Ptr(s, Root(i, 0)) == InodeOf(s, i).ptrs[0];
    if InodeOf(s, i).kind != I_FILE {
      var b := InodeOf(s, i).ptrs[0];
      forall c: nat | 0 < c < NUM_BLOCKS ensures HeldBy(s, i, c) <==> c == b {
        if HeldBy(s, i, c) {
          var x :| Wf(x) && Ptr(s, x) == c && Owner(x) == i;
          FirstPtrOnly(s, i, x);
        }
        if c == b { assert Wf(Root(i, 0)) && Owner(Root(i, 0)) == i; }
      }
      assert BlocksOf(s, i) == if b == 0 then {} else {b};
    }
  }

  /** The blocks in the trees of the first k inodes. */
  ghost function Trees(s: Fs, k: nat): set<nat>
    requires Shape(s)
  {
    set b: nat | 0 < b < NUM_BLOCKS && InFirst(s, k, b)
  }

  ghost predicate InFirst(s: Fs, k: nat, b: nat)
    requires Shape(s)
  {
    exists i :: 0 <= i < k && HeldBy(s, i, b)
  }

  lemma OneHolder(s: Fs, i: nat, j: nat, b: nat)
    requires Shape(s) && Owned(s) && b > 0 && HeldBy(s, i, b) && HeldBy(s, j, b)
    ensures i == j
  {
  }

  lemma {:induction false} TreesCount(s: Fs, k: nat)
    requires Core(s) && k <= NUM_INODES
    ensures SumBlocks(s, k) == |Trees(s, k)| + if k > 0 then 1 else 0
  {
    hide Core, HeldBy;
    if k == 0 {
      assert Trees(s, 0) == {};
    } else {
      var n := k - 1;
      TreesCount(s, n);
      CountOf(s, n);
      assert Trees(s, k) == Trees(s, n) + BlocksOf(s, n);
      forall b: nat | b in Trees(s, n) ensures b !in BlocksOf(s, n) {
        var i :| 0 <= i < n && HeldBy(s, i, b);
        if b in BlocksOf(s, n) { CoreOneHolder(s, i, n, b); }
      }
    }
  }

  lemma CoreOneHolder(s: Fs, i: nat, j: nat, b: nat)
    requires Core(s) && b > 0 && HeldBy(s, i, b) && HeldBy(s, j, b)
    ensures i == j
  {
    OneHolder(s, i, j, b);
  }

  lemma HeldInTrees(s: Fs, b: nat)
    requires Core(s) && 0 < b < NUM_BLOCKS
    ensures Held(s, b) <==> b in Trees(s, NUM_INODES)
    ensures Held(s, b) ==> s.blockMap[b] != 0
  {
    if Held(s, b) {
      var x :| Wf(x) && Ptr(s, x) == b;
      OwnerInRange(x);
      assert HeldBy(s, Owner(x), b);
    }
  }

  /** The block map has as many used entries as the inodes count, and one more
      for each leaked block. */
  lemma LeakedCount(s: Fs)
    requires Core(s)
    ensures |Used(s.blockMap)| == SumBlocks(s, NUM_INODES) + |Leaked(s)|
    ensures Conserved(s) <==> Leaked(s) == {}
  {
    hide Core, Trees, SumBlocks, Used, Leaked;
    TreesCount(s, NUM_INODES);
    UsedParts(s);
  }

  lemma UsedParts(s: Fs)
    requires Core(s)
    ensures |Used(s.blockMap)| == 1 + |Trees(s, NUM_INODES)| + |Leaked(s)|
  {
    assert s.blockMap[0] == 1;
    hide Core, Held, Trees;
    forall b: nat | 0 < b < NUM_BLOCKS
      ensures (Held(s, b) <==> b in Trees(s, NUM_INODES)) && (Held(s, b) ==> s.blockMap[b] != 0)
    {
      HeldInTrees(s, b);
    }
    TreesInRange(s);
    assert Used(s.blockMap) == {0} + (Trees(s, NUM_INODES) + Leaked(s));
    hide Leaked, Used;
    ThreeParts(Trees(s, NUM_INODES), Leaked(s));
  }

  lemma ThreeParts(a: set<nat>, b: set<nat>)
    requires a !! b && 0 !in a && 0 !in b
    ensures |{0} + (a + b)| == 1 + |a| + |b|
  {
    assert |a + b| == |a| + |b|;
    assert {0} !! a + b;
  }

  lemma TreesInRange(s: Fs)
    requires Shape(s)
    ensures forall b :: b in Trees(s, NUM_INODES) ==> 0 < b < NUM_BLOCKS
  {
  }

  ghost predicate ZeroTails(s: Fs)
    requires Shape(s)
  {
    forall i :: 0 <= i < NUM_INODES ==> ZeroTail(s, i)
  }

  /** What holds between operations. */
  ghost predicate Inv(s: Fs)
    ensures Inv(s) ==> Core(s)
  {
    Core(s) && ZeroTails(s)
  }

  /** Inode i is a live regular file. */
  ghost predicate FileAt(s: Fs, i: nat)
    requires Shape(s)
  {
    i < NUM_INODES && s.inodeMap[i] == 1 && InodeOf(s, i).kind == I_FILE
  }

  lemma LiveId(s: Fs, i: nat)
    requires Core(s) && FileAt(s, i)
    ensures InodeOf(s, i).id == i && InodeOf(s, i).size < WORD_LIMIT
  {
    assert Record(s, i);
  }

  // ---------- What locating a byte may change ----------

  /** From s to t only file i's tree grew: no pointer was lost, no byte of any
      file or directory changed, no block leaked, and the record of i changed in
      its pointers and block count only. */
  ghost predicate Extends(s: Fs, t: Fs, i: nat)
    requires Shape(s) && Shape(t) && i < NUM_INODES
  {
    && (forall x {:trigger Ptr(t, x)} :: Wf(x) && Ptr(s, x) != 0 ==> Ptr(t, x) == Ptr(s, x))
    && (forall j :: 0 <= j < NUM_INODES ==> SameBytes(s, t, j))
    && (forall j :: 0 <= j < NUM_INODES && j != i ==> InodeOf(t, j) == InodeOf(s, j))
    && InodeOf(t, i) == InodeOf(s, i).(ptrs := InodeOf(t, i).ptrs, blocks := InodeOf(t, i).blocks)
    && t.inodeMap == s.inodeMap && t.disk[0] == s.disk[0] && Leaked(t) == Leaked(s)
  }

  lemma ExtendsTransitive(s: Fs, t: Fs, u: Fs, i: nat)
    requires Shape(s) && Shape(t) && Shape(u) && i < NUM_INODES
    requires Extends(s, t, i) && Extends(t, u, i)
    ensures Extends(s, u, i)
  {
    forall j | 0 <= j < NUM_INODES ensures SameBytes(s, u, j) {
      assert SameBytes(s, t, j) && SameBytes(t, u, j);
      forall pos | 0 <= pos < WORD_LIMIT ensures ByteAt(u, j, pos) == ByteAt(s, j, pos) {
        assert ByteAt(t, j, pos) == ByteAt(s, j, pos);
      }
    }
    forall x | Wf(x) && Ptr(s, x) != 0 ensures Ptr(u, x) == Ptr(s, x) {
      assert Ptr(t, x) == Ptr(s, x);
    }
  }

  /** A growth step of a file's tree keeps the invariant and only extends. */
  lemma GrowCore(s: Fs, x: Slot, b: nat)
    requires Core(s) && CanGrow(s, x, b) && RootPtr(x) <= SECOND_BASE && FileAt(s, Owner(x))
    ensures Core(Grow(s, x, b)) && Extends(s, Grow(s, x, b), Owner(x))
  {
    var t, i := Grow(s, x, b), Owner(x);
    GrowOwned(s, x, b);
    forall y | Wf(y) ensures Ptr(t, y) == if y == x then b else Ptr(s, y) {
      GrowPtr(s, x, b, y);
    }
    forall j | 0 <= j < NUM_INODES ensures SameBytes(s, t, j) {
      GrowBytes(s, x, b, j);
    }
    GrowRecords(s, x, b);
    GrowCounted(s, x, b);
  }

  lemma GrowBlocks(s: Fs, x: Slot, b: nat, i: nat)
    requires Shape(s) && Owned(s) && CanGrow(s, x, b)
    ensures BlocksOf(Grow(s, x, b), i) == BlocksOf(s, i) + if i == Owner(x) then {b} else {}
  {
    var t := Grow(s, x, b);
    forall y | Wf(y) ensures Ptr(t, y) == if y == x then b else Ptr(s, y) {
      GrowPtr(s, x, b, y);
    }
    forall c: nat | 0 < c < NUM_BLOCKS ensures HeldBy(t, i, c) <==> HeldBy(s, i, c) || (i == Owner(x) && c == b) {
      if HeldBy(s, i, c) {
        var y :| Wf(y) && Ptr(s, y) == c && Owner(y) == i;
        assert Ptr(t, y) == c;
      }
      if HeldBy(t, i, c) {
        var y :| Wf(y) && Ptr(t, y) == c && Owner(y) == i;
        assert y == x || Ptr(s, y) == c;
      }
      if i == Owner(x) && c == b {
        assert Ptr(t, x) == b;
      }
    }
  }

  lemma GrowCounted(s: Fs, x: Slot, b: nat)
    requires Core(s) && CanGrow(s, x, b) && Owner(x) < NUM_INODES
    ensures Counted(Grow(s, x, b))
  {
    var t := Grow(s, x, b);
    forall i | 0 <= i < NUM_INODES && InodeOf(t, i).kind == I_FILE ensures InodeOf(t, i).blocks == |BlocksOf(t, i)| {
      GrowBlocks(s, x, b, i);
      assert b !in BlocksOf(s, i);
    }
  }

  lemma GrowRecords(s: Fs, x: Slot, b: nat)
    requires Core(s) && CanGrow(s, x, b) && RootPtr(x) <= SECOND_BASE && FileAt(s, Owner(x))
    ensures Records(Grow(s, x, b))
  {
    var t := Grow(s, x, b);
    forall j | 0 <= j < NUM_INODES ensures Record(t, j) {
      assert Record(s, j);
    }
  }

  lemma ExtendsZeroTails(s: Fs, t: Fs, i: nat)
    requires Shape(s) && Shape(t) && i < NUM_INODES && Extends(s, t, i) && ZeroTails(s)
    ensures ZeroTails(t)
  {
    forall j | 0 <= j < NUM_INODES ensures ZeroTail(t, j) {
      assert ZeroTail(s, j) && SameBytes(s, t, j);
    }
  }

  /** A stretch of a data block is that stretch of the file it belongs to. */
  lemma PageRange(s: Fs, i: nat, pos: nat, n: nat, b: nat)
    requires Shape(s) && i < NUM_INODES && pos + n < WORD_LIMIT && pos % BLOCK_SIZE + n <= BLOCK_SIZE
    requires Wf(PageSlot(i, PageOf(pos))) && Ptr(s, PageSlot(i, PageOf(pos))) == b && 0 < b < NUM_BLOCKS
    ensures s.disk[b][pos % BLOCK_SIZE..pos % BLOCK_SIZE + n] == Range(s, i, pos, n)
  {
    var r := Range(s, i, pos, n);
    forall k | 0 <= k < n ensures r[k] == s.disk[b][pos % BLOCK_SIZE + k] {
      assert PageOf(pos + k) == PageOf(pos);
    }
  }

  lemma ExtendsRange(s: Fs, t: Fs, i: nat, off: nat, n: nat)
    requires Shape(s) && Shape(t) && i < NUM_INODES && Extends(s, t, i) && off + n <= WORD_LIMIT
    ensures Range(t, i, off, n) == Range(s, i, off, n)
  {
    assert SameBytes(s, t, i);
    var u, v := Range(s, i, off, n), Range(t, i, off, n);
    forall k | 0 <= k < n ensures v[k] == u[k] {
      assert ByteAt(t, i, off + k) == ByteAt(s, i, off + k);
    }
  }

  lemma RangeJoin(s: Fs, i: nat, off: nat, k: nat, n: nat)
    requires Shape(s) && i < NUM_INODES && off + k + n <= WORD_LIMIT
    ensures Range(s, i, off, k + n) == Range(s, i, off, k) + Range(s, i, off + k, n)
  {
  }

  /** A further stretch, read through a tree that grew meanwhile. */
  lemma RangeGrows(s: Fs, t: Fs, i: nat, off: nat, k: nat, n: nat)
    requires Shape(s) && Shape(t) && i < NUM_INODES && Extends(s, t, i) && off + k + n <= WORD_LIMIT
    ensures Range(s, i, off, k + n) == Range(s, i, off, k) + Range(t, i, off + k, n)
  {
    hide Extends, Range;
    ExtendsRange(s, t, i, off + k, n);
    RangeJoin(s, i, off, k, n);
  }

  /** A read of bytes that exist, through a tree that only grew meanwhile. */
  ghost predicate ReadOk(s: Fs, t: Fs, i: nat, off: nat, got: seq<byte>)
    requires Shape(s) && Shape(t) && i < NUM_INODES
  {
    && Extends(s, t, i) && Content(t, i) == Content(s, i)
    && off + |got| <= |Content(s, i)| && got == Content(s, i)[off..off + |got|]
  }

  lemma FinishRead(s: Fs, t: Fs, i: nat, off: nat, got: seq<byte>)
    requires Inv(s) && Core(t) && FileAt(s, i) && Extends(s, t, i)
    requires off + |got| <= InodeOf(s, i).size && off + |got| < WORD_LIMIT && got == Range(s, i, off, |got|)
    ensures Inv(t) && ReadOk(s, t, i, off, got)
  {
    ExtendsZeroTails(s, t, i);
    assert SameBytes(s, t, i);
    var c, d := Content(s, i), Content(t, i);
    LiveId(s, i);
    forall p | 0 <= p < |c| ensures d[p] == c[p] {
      assert ByteAt(t, i, p) == ByteAt(s, i, p);
    }
    assert got == c[off..off + |got|];
  }

  // ---------- Overwriting a stretch of bytes ----------

  /** c with its bytes from `off` on replaced by d, grown with zeros if short. */
  ghost function Splice(c: seq<byte>, off: nat, d: seq<byte>): (r: seq<byte>)
    ensures |r| == if |c| < off + |d| then off + |d| else |c|
    ensures forall p :: 0 <= p < |r| ==>
      r[p] == if off <= p < off + |d| then d[p - off] else if p < |c| then c[p] else 0
  {
    var n := if |c| < off + |d| then off + |d| else |c|;
    seq(n, p requires 0 <= p < n => if off <= p < off + |d| then d[p - off] else if p < |c| then c[p] else 0)
  }

  /** No pointer of s was lost in t. */
  ghost predicate Grew(s: Fs, t: Fs)
    requires Shape(s) && Shape(t)
  {
    forall x {:trigger Ptr(t, x)} :: Wf(x) && Ptr(s, x) != 0 ==> Ptr(t, x) == Ptr(s, x)
  }

  /** From s to t the bytes of file i from `off` on became d, and nothing else
      that a reader can see changed. */
  ghost predicate Written(s: Fs, t: Fs, i: nat, off: nat, d: seq<byte>)
    requires Shape(s) && Shape(t) && i < NUM_INODES && off + |d| <= WORD_LIMIT
  {
    && (forall j :: 0 <= j < NUM_INODES && j != i ==> SameBytes(s, t, j) && InodeOf(t, j) == InodeOf(s, j))
    && InodeOf(t, i) == InodeOf(s, i).(ptrs := InodeOf(t, i).ptrs, blocks := InodeOf(t, i).blocks)
    && t.inodeMap == s.inodeMap && t.disk[0] == s.disk[0] && Leaked(t) == Leaked(s) && Grew(s, t)
    && (forall pos {:trigger ByteAt(t, i, pos)} :: 0 <= pos < WORD_LIMIT ==>
          ByteAt(t, i, pos) == if off <= pos < off + |d| then d[pos - off] else ByteAt(s, i, pos))
  }

  /** A data block written back with n new bytes from `at` on. */
  ghost predicate Patched(old_: Block, new_: Block, at: nat, d: seq<byte>)
    requires at + |d| <= BLOCK_SIZE
  {
    forall p :: 0 <= p < BLOCK_SIZE ==> new_[p] == if at <= p < at + |d| then d[p - at] else old_[p]
  }

  lemma PutBlockCore(s: Fs, x: Slot, blk: Block)
    requires Core(s) && DataBlock(s, x)
    ensures Core(PutBlock(s, Ptr(s, x), blk)) && Leaked(PutBlock(s, Ptr(s, x), blk)) == Leaked(s)
  {
    var t := PutBlock(s, Ptr(s, x), blk);
    DataIsNotIndex(s, x);
    PutBlockOwned(s, Ptr(s, x), blk);
    forall y | Wf(y) ensures Ptr(t, y) == Ptr(s, y) {
      PutBlockPtr(s, Ptr(s, x), blk, y);
    }
    SamePtrsSameBlocks(s, t);
    forall j | 0 <= j < NUM_INODES ensures Record(t, j) {
      assert Record(s, j);
    }
  }

  /** The next piece of a write: n bytes of d from k on go into block b, which
      the extended tree holds at the page where they belong. */
  ghost predicate Piece(t: Fs, u: Fs, i: nat, off: nat, d: seq<byte>, k: nat, n: nat, b: nat, blk: Block)
    requires Shape(t) && Shape(u)
  {
    && i < NUM_INODES && k + n <= |d| && off + |d| < WORD_LIMIT && (off + k) % BLOCK_SIZE + n <= BLOCK_SIZE
    && Extends(t, u, i) && Owned(u) && 0 < b < NUM_BLOCKS
    && Wf(PageSlot(i, PageOf(off + k))) && Level(PageSlot(i, PageOf(off + k))) == 0
    && Ptr(u, PageSlot(i, PageOf(off + k))) == b
    && Patched(u.disk[b], blk, (off + k) % BLOCK_SIZE, d[k..k + n])
  }

  lemma PieceByte(s: Fs, t: Fs, u: Fs, i: nat, off: nat, d: seq<byte>, k: nat, n: nat, b: nat, blk: Block, pos: nat)
    requires Shape(s) && Shape(t) && Shape(u) && Piece(t, u, i, off, d, k, n, b, blk) && pos < WORD_LIMIT
    requires Written(s, t, i, off, d[..k])
    ensures ByteAt(PutBlock(u, b, blk), i, pos) ==
            if off <= pos < off + (k + n) then d[..k + n][pos - off] else ByteAt(s, i, pos)
  {
    PutBlockBytes(u, i, PageOf(off + k), blk, i, pos);
    assert ByteAt(u, i, pos) == ByteAt(t, i, pos) by { assert SameBytes(t, u, i); }
    assert ByteAt(t, i, pos) == if off <= pos < off + k then d[..k][pos - off] else ByteAt(s, i, pos);
    assert u.disk[b][pos % BLOCK_SIZE] == ByteAt(u, i, pos) || PageOf(pos) != PageOf(off + k);
  }

  lemma PieceElsewhere(s: Fs, t: Fs, u: Fs, i: nat, off: nat, d: seq<byte>, k: nat, n: nat, b: nat, blk: Block, j: nat)
    requires Shape(s) && Shape(t) && Shape(u) && Piece(t, u, i, off, d, k, n, b, blk) && j < NUM_INODES && j != i
    requires Written(s, t, i, off, d[..k])
    ensures SameBytes(s, PutBlock(u, b, blk), j)
  {
    assert SameBytes(s, t, j) && SameBytes(t, u, j);
    forall pos | 0 <= pos < WORD_LIMIT ensures ByteAt(PutBlock(u, b, blk), j, pos) == ByteAt(s, j, pos) {
      PutBlockBytes(u, i, PageOf(off + k), blk, j, pos);
      assert ByteAt(u, j, pos) == ByteAt(t, j, pos);
      assert ByteAt(t, j, pos) == ByteAt(s, j, pos);
    }
  }

  lemma PieceGrew(s: Fs, t: Fs, u: Fs, i: nat, b: nat, blk: Block)
    requires Shape(s) && Shape(t) && Shape(u) && i < NUM_INODES && b < NUM_BLOCKS && NotIndex(u, b)
    requires Grew(s, t) && Extends(t, u, i)
    ensures Grew(s, PutBlock(u, b, blk))
  {
    forall x | Wf(x) && Ptr(s, x) != 0 ensures Ptr(PutBlock(u, b, blk), x) == Ptr(s, x) {
      PutBlockPtr(u, b, blk, x);
      assert Ptr(t, x) == Ptr(s, x) && Ptr(u, x) == Ptr(t, x);
    }
  }

  /** Writing the next piece extends what has been written. */
  lemma WrittenStep(s: Fs, t: Fs, u: Fs, i: nat, off: nat, d: seq<byte>, k: nat, n: nat, b: nat, blk: Block)
    requires Shape(s) && Shape(t) && Shape(u) && Piece(t, u, i, off, d, k, n, b, blk)
    requires Written(s, t, i, off, d[..k])
    ensures Written(s, PutBlock(u, b, blk), i, off, d[..k + n])
  {
    forall pos | 0 <= pos < WORD_LIMIT
      ensures ByteAt(PutBlock(u, b, blk), i, pos) ==
              if off <= pos < off + (k + n) then d[..k + n][pos - off] else ByteAt(s, i, pos)
    {
      PieceByte(s, t, u, i, off, d, k, n, b, blk, pos);
    }
    DataIsNotIndex(u, PageSlot(i, PageOf(off + k)));
    PutBlockOwned(u, b, blk);
    PieceGrew(s, t, u, i, b, blk);
    forall j | 0 <= j < NUM_INODES && j != i ensures SameBytes(s, PutBlock(u, b, blk), j) {
      PieceElsewhere(s, t, u, i, off, d, k, n, b, blk, j);
    }
  }

  // ---------- The end of a write ----------

  /** What one write, or one seek past the end, does to the file system a
      reader sees: file i becomes its splice with d, all else stays. */
  ghost predicate Spliced(s: Fs, t: Fs, i: nat, off: nat, d: seq<byte>)
    requires Shape(s) && Shape(t) && i < NUM_INODES && off + |d| < WORD_LIMIT
  {
    && Content(t, i) == Splice(Content(s, i), off, d)
    && (forall j :: 0 <= j < NUM_INODES && j != i ==> SameBytes(s, t, j) && InodeOf(t, j) == InodeOf(s, j))
    && InodeOf(t, i) == InodeOf(s, i).(size := InodeOf(t, i).size, ptrs := InodeOf(t, i).ptrs, blocks := InodeOf(t, i).blocks)
    && t.inodeMap == s.inodeMap && t.disk[0] == s.disk[0] && Leaked(t) == Leaked(s)
  }

  ghost function Resized(s: Fs, i: nat, size: nat): (t: Fs)
    requires Shape(s) && i < NUM_INODES
    ensures Shape(t)
  {
    SetInode(s, i, InodeOf(s, i).(size := size))
  }

  lemma ResizedSame(s: Fs, i: nat)
    requires Shape(s) && i < NUM_INODES
    ensures Resized(s, i, InodeOf(s, i).size) == s
  {
    var n := InodeOf(s, i).(size := InodeOf(s, i).size);
    assert n == InodeOf(s, i);
    var k := i / INODES_PER_SECTOR;
    assert s.itab[k][i % INODES_PER_SECTOR := n] == s.itab[k];
    assert s.itab[k := s.itab[k]] == s.itab;
  }

  lemma ResizedCore(s: Fs, i: nat, size: nat)
    requires Core(s) && FileAt(s, i) && size < WORD_LIMIT
    ensures Core(Resized(s, i, size)) && FileAt(Resized(s, i, size), i) && Leaked(Resized(s, i, size)) == Leaked(s)
    ensures forall j :: 0 <= j < NUM_INODES ==> SameBytes(s, Resized(s, i, size), j)
  {
    var n := InodeOf(s, i).(size := size);
    var t := SetInode(s, i, n);
    SetInodeOwned(s, i, n);
    forall y | Wf(y) ensures Ptr(t, y) == Ptr(s, y) {
      SetInodePtr(s, i, n, y);
    }
    SamePtrsSameBlocks(s, t);
    forall j | 0 <= j < NUM_INODES ensures Record(t, j) {
      assert Record(s, j);
    }
  }

  /** Setting the size once all bytes are in place completes the splice, and the
      bytes past the new end are zero again. */
  lemma FinishWrite(s: Fs, t: Fs, i: nat, off: nat, d: seq<byte>, size: nat)
    requires Inv(s) && Core(t) && FileAt(s, i) && off + |d| < WORD_LIMIT
    requires Written(s, t, i, off, d)
    requires size == if InodeOf(s, i).size < off + |d| then off + |d| else InodeOf(s, i).size
    ensures FileAt(t, i) && InodeOf(s, i).size < WORD_LIMIT
    ensures Inv(Resized(t, i, size)) && Spliced(s, Resized(t, i, size), i, off, d)
  {
    LiveId(s, i);
    var u := Resized(t, i, size);
    ResizedCore(t, i, size);
    FinishOthers(s, t, i, off, d, size);
    FinishSelf(s, t, i, off, d, size);
  }

  lemma FinishOthers(s: Fs, t: Fs, i: nat, off: nat, d: seq<byte>, size: nat)
    requires Inv(s) && Core(t) && FileAt(s, i) && FileAt(t, i) && off + |d| < WORD_LIMIT && size < WORD_LIMIT
    requires Written(s, t, i, off, d)
    ensures forall j :: 0 <= j < NUM_INODES && j != i ==>
      SameBytes(s, Resized(t, i, size), j) && InodeOf(Resized(t, i, size), j) == InodeOf(s, j) && ZeroTail(Resized(t, i, size), j)
  {
    var u := Resized(t, i, size);
    ResizedCore(t, i, size);
    forall j | 0 <= j < NUM_INODES && j != i
      ensures SameBytes(s, u, j) && InodeOf(u, j) == InodeOf(s, j) && ZeroTail(u, j)
    {
      assert SameBytes(s, t, j) && SameBytes(t, u, j) && ZeroTail(s, j);
      forall pos | 0 <= pos < WORD_LIMIT ensures ByteAt(u, j, pos) == ByteAt(s, j, pos) {
        assert ByteAt(u, j, pos) == ByteAt(t, j, pos) == ByteAt(s, j, pos);
      }
    }
  }

  lemma FinishSelf(s: Fs, t: Fs, i: nat, off: nat, d: seq<byte>, size: nat)
    requires Inv(s) && Core(t) && FileAt(s, i) && FileAt(t, i) && off + |d| < WORD_LIMIT
    requires Written(s, t, i, off, d) && InodeOf(s, i).size < WORD_LIMIT
    requires size == if InodeOf(s, i).size < off + |d| then off + |d| else InodeOf(s, i).size
    ensures InodeOf(Resized(t, i, size), i).size == size && ZeroTail(Resized(t, i, size), i)
    ensures Content(Resized(t, i, size), i) == Splice(Content(s, i), off, d)
  {
    var u := Resized(t, i, size);
    ResizedCore(t, i, size);
    assert SameBytes(t, u, i) && ZeroTail(s, i);
    forall pos | 0 <= pos < WORD_LIMIT
      ensures ByteAt(u, i, pos) == if off <= pos < off + |d| then d[pos - off] else ByteAt(s, i, pos)
    {
      assert ByteAt(u, i, pos) == ByteAt(t, i, pos);
    }
  }

  /** Growing alone writes nothing, wherever the write offset is. */
  lemma ExtendsWritten(s: Fs, t: Fs, i: nat, off: nat)
    requires Shape(s) && Shape(t) && i < NUM_INODES && off < WORD_LIMIT && Extends(s, t, i)
    ensures Written(s, t, i, off, [])
  {
    assert SameBytes(s, t, i);
  }

  // ---------- What a sequence of calls sees ----------

  /** A read of what was just written returns it, whatever was allocated meanwhile. */
  lemma ReadBack(s: Fs, t: Fs, u: Fs, i: nat, off: nat, d: seq<byte>, got: seq<byte>)
    requires Shape(s) && Shape(t) && Shape(u) && i < NUM_INODES && off + |d| < WORD_LIMIT
    requires Spliced(s, t, i, off, d) && ReadOk(t, u, i, off, got) && |got| == |d|
    ensures got == d
  {
    var c := Content(t, i);
    assert forall k :: 0 <= k < |d| ==> c[off + k] == d[k];
  }

  /** A write leaves the content of every other file and directory as it was. */
  lemma WriteElsewhere(s: Fs, t: Fs, i: nat, off: nat, d: seq<byte>, j: nat)
    requires Shape(s) && Shape(t) && i < NUM_INODES && j < NUM_INODES && j != i && off + |d| < WORD_LIMIT
    requires Spliced(s, t, i, off, d) && InodeOf(s, j).size <= WORD_LIMIT
    ensures Content(t, j) == Content(s, j)
  {
    assert SameBytes(s, t, j);
    forall p | 0 <= p < |Content(s, j)| ensures Content(t, j)[p] == Content(s, j)[p] {
      assert ByteAt(t, j, p) == ByteAt(s, j, p);
    }
  }

  /** Extending past the end appends zeros and nothing else. */
  lemma ExtendAppendsZeros(c: seq<byte>, off: nat)
    requires |c| <= off
    ensures Splice(c, off, []) == c + seq(off - |c|, _ => 0)
  {
  }
}
