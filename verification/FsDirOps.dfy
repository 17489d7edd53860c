/** Adding and removing nodes and entries, as steps on the file system state,
    and what each step keeps. */
module FsDirOps {
  import opened Bytes
  import opened FsState
  import opened FsFile
  import opened FsInvariant
  import opened FsDirectory

  const O_CREATE_MODE := 3

  /** Every regular file of s is in t, byte for byte and with the same record. */
  ghost predicate FilesKept(s: Fs, t: Fs)
    requires Shape(s) && Shape(t)
  {
    forall j {:trigger FileAt(s, j)} :: FileAt(s, j) ==>
      FileAt(t, j) && InodeOf(t, j) == InodeOf(s, j) && SameBytes(s, t, j)
  }

  /** Every inode has the blocks it had, and no further block has leaked. */
  ghost predicate SameTrees(s: Fs, t: Fs)
    requires Shape(s) && Shape(t)
  {
    Leaked(t) == Leaked(s) && forall i :: BlocksOf(t, i) == BlocksOf(s, i)
  }

  // ---------- Rewriting the block of a directory ----------

  ghost function DirBlockId(s: Fs, d: nat): nat
    requires Shape(s) && d < NUM_INODES
  {
    InodeOf(s, d).ptrs[0] % NUM_BLOCKS
  }

  lemma DirBlockFacts(s: Fs, d: nat)
    requires Core(s) && IsDir(s, d)
    ensures InodeOf(s, d).ptrs[0] < NUM_BLOCKS && DirBlockId(s, d) == InodeOf(s, d).ptrs[0] == Ptr(s, Root(d, 0))
    ensures (d == 0) == (DirBlockId(s, d) == 0)
    ensures NotIndex(s, DirBlockId(s, d))
  {
    assert Record(s, d);
    assert Wf(Root(d, 0)) && Ptr(s, Root(d, 0)) == InodeOf(s, d).ptrs[0];
  }

  lemma DirBlocksDistinct(s: Fs, d: nat, e: nat)
    requires Core(s) && IsDir(s, d) && IsDir(s, e) && d != e
    ensures DirBlockId(s, d) != DirBlockId(s, e)
  {
    DirBlockFacts(s, d);
    DirBlockFacts(s, e);
  }

  /** The block of a directory holds no byte of any file. */
  lemma DirBlockNotFile(s: Fs, d: nat, j: nat, blk: Block)
    requires Core(s) && IsDir(s, d) && FileAt(s, j)
    ensures SameBytes(s, PutBlock(s, DirBlockId(s, d), blk), j)
  {
    var b := DirBlockId(s, d);
    DirBlockFacts(s, d);
    forall pos | 0 <= pos < WORD_LIMIT ensures ByteAt(PutBlock(s, b, blk), j, pos) == ByteAt(s, j, pos) {
      var y := PageSlot(j, PageOf(pos));
      PageSlotBounds(j, PageOf(pos));
      PutBlockPtr(s, b, blk, y);
    }
  }

  lemma PutDirBlock(s: Fs, d: nat, blk: Block)
    requires Core(s) && IsDir(s, d)
    ensures Core(PutBlock(s, DirBlockId(s, d), blk))
    ensures FilesKept(s, PutBlock(s, DirBlockId(s, d), blk)) && SameTrees(s, PutBlock(s, DirBlockId(s, d), blk))
    ensures forall e :: IsDir(s, e) ==> Dir(PutBlock(s, DirBlockId(s, d), blk), e) == if e == d then Slots(blk) else Dir(s, e)
  {
    var b := DirBlockId(s, d);
    var t := PutBlock(s, b, blk);
    DirBlockFacts(s, d);
    PutBlockOwned(s, b, blk);
    forall y | Wf(y) ensures Ptr(t, y) == Ptr(s, y) {
      PutBlockPtr(s, b, blk, y);
    }
    SamePtrsSameBlocks(s, t);
    forall j | 0 <= j < NUM_INODES ensures Record(t, j) {
      assert Record(s, j);
    }
    forall j | FileAt(s, j) ensures SameBytes(s, t, j) {
      DirBlockNotFile(s, d, j, blk);
    }
    forall e | IsDir(s, e) ensures Dir(t, e) == if e == d then Slots(blk) else Dir(s, e) {
      if e != d {
        DirBlocksDistinct(s, d, e);
      }
    }
  }

  // ---------- Changing a directory's counters ----------

  ghost function SetCounts(s: Fs, d: nat, fileNum: nat, links: nat): (t: Fs)
    requires Shape(s) && d < NUM_INODES
    ensures Shape(t)
  {
    SetInode(s, d, InodeOf(s, d).(fileNum := fileNum, links := links))
  }

  lemma SetCountsCore(s: Fs, d: nat, fileNum: nat, links: nat)
    requires Core(s) && IsDir(s, d) && fileNum < WORD_LIMIT && links < WORD_LIMIT
    ensures Core(SetCounts(s, d, fileNum, links)) && FilesKept(s, SetCounts(s, d, fileNum, links))
    ensures SameTrees(s, SetCounts(s, d, fileNum, links))
    ensures forall e :: 0 <= e < NUM_INODES ==> Dir(SetCounts(s, d, fileNum, links), e) == Dir(s, e)
  {
    var n := InodeOf(s, d).(fileNum := fileNum, links := links);
    var t := SetInode(s, d, n);
    SetInodeOwned(s, d, n);
    forall y | Wf(y) ensures Ptr(t, y) == Ptr(s, y) {
      SetInodePtr(s, d, n, y);
    }
    SamePtrsSameBlocks(s, t);
    forall j | 0 <= j < NUM_INODES ensures Record(t, j) {
      assert Record(s, j);
    }
  }

  // ---------- Entries ----------

  ghost function PutEntry(s: Fs, d: nat, k: nat, e: Dentry): (t: Fs)
    requires Shape(s) && d < NUM_INODES && k < NUM_DENTRIES && e.kind < WORD_LIMIT && e.ino < WORD_LIMIT
    ensures Shape(t)
  {
    PutBlock(s, DirBlockId(s, d), PutDentry(s.disk[DirBlockId(s, d)], k, e))
  }

  function Increment(x: nat): nat { (x + 1) % WORD_LIMIT }

  function Decrement(x: nat): nat { (x + WORD_LIMIT - 1) % WORD_LIMIT }

  /** The entry is stored and the counters go up; a file does not count as a link. */
  ghost function AddEntry(s: Fs, d: nat, k: nat, e: Dentry): (t: Fs)
    requires Shape(s) && d < NUM_INODES && k < NUM_DENTRIES && e.kind < WORD_LIMIT && e.ino < WORD_LIMIT
    ensures Shape(t)
  {
    var n := InodeOf(s, d);
    SetCounts(PutEntry(s, d, k, e), d, Increment(n.fileNum), if e.kind == I_DIR then Increment(n.links) else n.links)
  }

  /** The entry is marked free, keeping its inode number, and both counters go
      down, whatever kind of entry it was. */
  ghost function DropEntry(s: Fs, d: nat, k: nat): (t: Fs)
    requires Shape(s) && d < NUM_INODES && k < NUM_DENTRIES && Dir(s, d)[k].ino < WORD_LIMIT
    ensures Shape(t)
  {
    var n := InodeOf(s, d);
    SetCounts(PutEntry(s, d, k, Dentry(0, Dir(s, d)[k].ino, NoName())), d, Decrement(n.fileNum), Decrement(n.links))
  }

  /** What changing one entry and the counters of one directory leaves alone. */
  ghost predicate EntryStep(s: Fs, t: Fs, d: nat, k: nat, e: Dentry)
    requires Shape(s) && Shape(t)
  {
    && Core(t) && FilesKept(s, t) && SameTrees(s, t) && d < NUM_INODES && k < NUM_DENTRIES
    && t.inodeMap == s.inodeMap && t.blockMap == s.blockMap
    && (forall j :: 0 <= j < NUM_INODES && j != d ==> InodeOf(t, j) == InodeOf(s, j))
    && InodeOf(t, d) == InodeOf(s, d).(fileNum := InodeOf(t, d).fileNum, links := InodeOf(t, d).links)
    && (forall x :: IsDir(s, x) ==> Dir(t, x) == if x == d then Dir(s, d)[k := e] else Dir(s, x))
  }

  lemma EntryStepHolds(s: Fs, d: nat, k: nat, e: Dentry, fileNum: nat, links: nat)
    requires Core(s) && IsDir(s, d) && k < NUM_DENTRIES && e.kind < WORD_LIMIT && e.ino < WORD_LIMIT
    requires fileNum < WORD_LIMIT && links < WORD_LIMIT
    ensures EntryStep(s, SetCounts(PutEntry(s, d, k, e), d, fileNum, links), d, k, e)
  {
    assert Shape(s);
    hide Core, FilesKept, PutDentry, Slots;
    var u := PutEntry(s, d, k, e);
    PutDirBlock(s, d, PutDentry(s.disk[DirBlockId(s, d)], k, e));
    SlotsOfPut(s.disk[DirBlockId(s, d)], k, e);
    assert forall j :: 0 <= j < NUM_INODES ==> InodeOf(u, j) == InodeOf(s, j);
    SetCountsCore(u, d, fileNum, links);
    FilesKeptTransitive(s, u, SetCounts(u, d, fileNum, links));
  }

  lemma FilesKeptTransitive(s: Fs, t: Fs, u: Fs)
    requires Shape(s) && Shape(t) && Shape(u) && FilesKept(s, t) && FilesKept(t, u)
    ensures FilesKept(s, u)
  {
    forall j | FileAt(s, j) ensures FileAt(u, j) && InodeOf(u, j) == InodeOf(s, j) && SameBytes(s, u, j) {
      assert FileAt(t, j) && SameBytes(s, t, j) && SameBytes(t, u, j);
      forall pos | 0 <= pos < WORD_LIMIT ensures ByteAt(u, j, pos) == ByteAt(s, j, pos) {
        assert ByteAt(t, j, pos) == ByteAt(s, j, pos);
      }
    }
  }

  // ---------- Nodes ----------

  /** The record create_inode leaves for a new node with its first block. */
  function NodeRecord(m: nat, b: nat, kind: nat): Inode {
    Inode(O_CREATE_MODE, kind, -1, m, if kind == I_DIR then 2 else 0, if kind == I_DIR then BLOCK_SIZE else 0,
          1, 1, ZeroInode().ptrs[0 := b])
  }

  /** A new node may be read and written, has one link and one block; a directory
      counts its two dots and a block of bytes, a file nothing. */
  lemma NewRecord(m: nat, b: nat, kind: nat)
    requires kind == I_DIR || kind == I_FILE
    ensures
      var n := NodeRecord(m, b, kind);
      && n.mode % 2 == 1 && n.mode / 2 % 2 == 1 && n.uid == -1 && n.links == 1 && n.blocks == 1 && n.ptrs[0] == b && n.id == m
      && n.kind == kind && (kind == I_DIR ==> n.fileNum == 2 && n.size == 4096) && (kind == I_FILE ==> n.fileNum == 0 && n.size == 0)
      && forall j :: 1 <= j < NUM_PTRS ==> n.ptrs[j] == 0
  {
  }

  ghost function NewNode(s: Fs, m: nat, b: nat, kind: nat, blk: Block): (t: Fs)
    requires Shape(s) && m < NUM_INODES && b < NUM_BLOCKS
    ensures Shape(t)
  {
    SetInode(s, m, NodeRecord(m, b, kind)).(disk := s.disk[b := blk], blockMap := s.blockMap[b := 1], inodeMap := s.inodeMap[m := 1])
  }

  /** Releasing a node: both maps, the record and its first block are cleared. */
  ghost function FreeNode(s: Fs, m: nat): (t: Fs)
    requires Shape(s) && m < NUM_INODES && InodeOf(s, m).ptrs[0] < NUM_BLOCKS
    ensures Shape(t)
  {
    var b := InodeOf(s, m).ptrs[0];
    SetInode(s, m, ZeroInode()).(disk := s.disk[b := ZeroBlock()], blockMap := s.blockMap[b := 0], inodeMap := s.inodeMap[m := 0])
  }

  ghost predicate CanCreate(s: Fs, m: nat, b: nat, kind: nat, blk: Block)
    requires Shape(s)
  {
    && m < NUM_INODES && s.inodeMap[m] == 0 && 0 < b < NUM_BLOCKS && s.blockMap[b] == 0
    && (kind == I_DIR || (kind == I_FILE && blk == ZeroBlock()))
  }

  lemma {:induction false} FreeHasNoPtrs(s: Fs, x: Slot)
    requires Core(s) && Wf(x) && Owner(x) < NUM_INODES && s.inodeMap[Owner(x)] == 0
    ensures Ptr(s, x) == 0
  {
    match x
    case Root(i, r) => assert Record(s, i);
    case Child(p, w) => FreeHasNoPtrs(s, p);
  }

  lemma {:induction false} NewNodePtr(s: Fs, m: nat, b: nat, kind: nat, blk: Block, x: Slot)
    requires Core(s) && CanCreate(s, m, b, kind, blk) && Wf(x)
    ensures Ptr(NewNode(s, m, b, kind, blk), x) == if x == Root(m, 0) then b else Ptr(s, x)
  {
    var t := NewNode(s, m, b, kind, blk);
    match x
    case Root(i, r) =>
      if i == m { assert Record(s, m); }
    case Child(p, w) =>
      NewNodePtr(s, m, b, kind, blk, p);
      assert p != Root(m, 0);
      if Ptr(s, p) != 0 {
        assert s.blockMap[Ptr(s, p)] == 1;
      }
  }

  lemma NewNodeOwned(s: Fs, m: nat, b: nat, kind: nat, blk: Block)
    requires Core(s) && CanCreate(s, m, b, kind, blk)
    ensures Owned(NewNode(s, m, b, kind, blk)) && Leaked(NewNode(s, m, b, kind, blk)) == Leaked(s)
    ensures Counted(NewNode(s, m, b, kind, blk))
  {
    var t := NewNode(s, m, b, kind, blk);
    forall y | Wf(y) ensures Ptr(t, y) == if y == Root(m, 0) then b else Ptr(s, y) {
      NewNodePtr(s, m, b, kind, blk, y);
    }
    forall c: nat | 0 < c < NUM_BLOCKS ensures Held(t, c) <==> Held(s, c) || c == b {
      if Held(s, c) {
        var y :| Wf(y) && Ptr(s, y) == c;
        assert Record(s, m);
        assert Ptr(t, y) == c;
      }
      if c == b {
        assert Ptr(t, Root(m, 0)) == b;
      }
      if Held(t, c) {
        var y :| Wf(y) && Ptr(t, y) == c;
        assert c == b || Ptr(s, y) == c;
      }
    }
    forall i | 0 <= i < NUM_INODES && InodeOf(t, i).kind == I_FILE ensures InodeOf(t, i).blocks == |BlocksOf(t, i)| {
      NewNodeBlocks(s, m, b, kind, blk, i);
    }
  }

  lemma NewNodeBlocks(s: Fs, m: nat, b: nat, kind: nat, blk: Block, i: nat)
    requires Core(s) && CanCreate(s, m, b, kind, blk) && i < NUM_INODES
    ensures BlocksOf(NewNode(s, m, b, kind, blk), i) == if i == m then {b} else BlocksOf(s, i)
  {
    var t := NewNode(s, m, b, kind, blk);
    forall y | Wf(y) ensures Ptr(t, y) == if y == Root(m, 0) then b else Ptr(s, y) {
      NewNodePtr(s, m, b, kind, blk, y);
    }
    forall c: nat | 0 < c < NUM_BLOCKS ensures HeldBy(t, i, c) <==> if i == m then c == b else HeldBy(s, i, c) {
      if HeldBy(t, i, c) {
        var y :| Wf(y) && Ptr(t, y) == c && Owner(y) == i;
        if i == m && y != Root(m, 0) {
          FreeHasNoPtrs(s, y);
        }
        assert i == m || Ptr(s, y) == c;
      }
      if i != m && HeldBy(s, i, c) {
        var y :| Wf(y) && Ptr(s, y) == c && Owner(y) == i;
        assert Ptr(t, y) == c;
      }
      if i == m && c == b {
        assert Ptr(t, Root(m, 0)) == b;
      }
    }
  }

  lemma NewNodeRecords(s: Fs, m: nat, b: nat, kind: nat, blk: Block)
    requires Core(s) && CanCreate(s, m, b, kind, blk)
    ensures Records(NewNode(s, m, b, kind, blk))
  {
    var t := NewNode(s, m, b, kind, blk);
    assert Record(s, m);
    forall j | 0 <= j < NUM_INODES ensures Record(t, j) {
      assert Record(s, j);
    }
  }

  /** The bytes of every file are as before, and a new file is all zeros. */
  lemma NewNodeBytes(s: Fs, m: nat, b: nat, kind: nat, blk: Block, j: nat)
    requires Core(s) && CanCreate(s, m, b, kind, blk) && j < NUM_INODES
    ensures FileAt(s, j) ==> SameBytes(s, NewNode(s, m, b, kind, blk), j)
    ensures j == m && kind == I_FILE ==> ZeroTail(NewNode(s, m, b, kind, blk), j)
  {
    var t := NewNode(s, m, b, kind, blk);
    forall pos | 0 <= pos < WORD_LIMIT
      ensures FileAt(s, j) ==> ByteAt(t, j, pos) == ByteAt(s, j, pos)
      ensures j == m && kind == I_FILE ==> ByteAt(t, j, pos) == 0
    {
      NewNodeByte(s, m, b, kind, blk, j, pos);
    }
  }

  lemma NewNodeByte(s: Fs, m: nat, b: nat, kind: nat, blk: Block, j: nat, pos: nat)
    requires Core(s) && CanCreate(s, m, b, kind, blk) && j < NUM_INODES && pos < WORD_LIMIT
    ensures FileAt(s, j) ==> ByteAt(NewNode(s, m, b, kind, blk), j, pos) == ByteAt(s, j, pos)
    ensures j == m && kind == I_FILE ==> ByteAt(NewNode(s, m, b, kind, blk), j, pos) == 0
  {
    var y := PageSlot(j, PageOf(pos));
    PageSlotBounds(j, PageOf(pos));
    NewNodePtr(s, m, b, kind, blk, y);
    if j == m {
      FreeHasNoPtrs(s, y);
    } else if Ptr(s, y) != 0 {
      assert s.blockMap[Ptr(s, y)] == 1;
    }
  }

  /** What creating a node leaves alone. */
  ghost predicate NodeStep(s: Fs, t: Fs, m: nat, kind: nat, blk: Block)
    requires Shape(s) && Shape(t)
  {
    && Inv(t) && FilesKept(s, t) && Leaked(t) == Leaked(s) && m < NUM_INODES
    && t.inodeMap == s.inodeMap[m := 1]
    && (forall j :: 0 <= j < NUM_INODES && j != m ==> InodeOf(t, j) == InodeOf(s, j))
    && (forall x :: IsDir(s, x) ==> Dir(t, x) == Dir(s, x))
    && (kind == I_DIR ==> Dir(t, m) == Slots(blk))
  }

  lemma NodeStepHolds(s: Fs, m: nat, b: nat, kind: nat, blk: Block)
    requires Inv(s) && CanCreate(s, m, b, kind, blk)
    ensures NodeStep(s, NewNode(s, m, b, kind, blk), m, kind, blk)
  {
    var t := NewNode(s, m, b, kind, blk);
    NewNodeOwned(s, m, b, kind, blk);
    NewNodeRecords(s, m, b, kind, blk);
    NewNodeFiles(s, m, b, kind, blk);
    NewNodeDirs(s, m, b, kind, blk);
  }

  lemma NewNodeFiles(s: Fs, m: nat, b: nat, kind: nat, blk: Block)
    requires Inv(s) && CanCreate(s, m, b, kind, blk)
    ensures FilesKept(s, NewNode(s, m, b, kind, blk)) && ZeroTails(NewNode(s, m, b, kind, blk))
  {
    var t := NewNode(s, m, b, kind, blk);
    forall j | FileAt(s, j) ensures FileAt(t, j) && InodeOf(t, j) == InodeOf(s, j) && SameBytes(s, t, j) {
      NewNodeBytes(s, m, b, kind, blk, j);
    }
    forall j | 0 <= j < NUM_INODES ensures ZeroTail(t, j) {
      assert Record(s, j) && ZeroTail(s, j);
      NewNodeBytes(s, m, b, kind, blk, j);
    }
  }

  lemma NewNodeDirs(s: Fs, m: nat, b: nat, kind: nat, blk: Block)
    requires Core(s) && CanCreate(s, m, b, kind, blk)
    ensures forall x :: IsDir(s, x) ==> Dir(NewNode(s, m, b, kind, blk), x) == Dir(s, x)
    ensures Dir(NewNode(s, m, b, kind, blk), m) == Slots(blk)
  {
    var t := NewNode(s, m, b, kind, blk);
    forall x | IsDir(s, x) ensures Dir(t, x) == Dir(s, x) {
      DirBlockFacts(s, x);
      assert x != 0 ==> s.blockMap[Ptr(s, Root(x, 0))] == 1;
      assert s.blockMap[0] == 1;
    }
  }

  // ---------- Releasing a node ----------

  /** A live node other than the root. */
  ghost predicate CanFree(s: Fs, m: nat)
    requires Shape(s)
  {
    0 < m < NUM_INODES && s.inodeMap[m] == 1 && 0 < InodeOf(s, m).ptrs[0] < NUM_BLOCKS
  }

  lemma {:induction false} FreeNodePtr(s: Fs, m: nat, x: Slot)
    requires Core(s) && CanFree(s, m) && Wf(x)
    ensures Ptr(FreeNode(s, m), x) == if Owner(x) == m then 0 else Ptr(s, x)
  {
    match x
    case Root(i, r) =>
    case Child(p, w) =>
      FreeNodePtr(s, m, p);
      if Owner(x) != m && Ptr(s, p) != 0 {
        assert Ptr(s, Root(m, 0)) == InodeOf(s, m).ptrs[0];
        assert Owner(Root(m, 0)) == m;
        assert Ptr(s, p) != InodeOf(s, m).ptrs[0];
      }
  }

  lemma FreeNodeOwned(s: Fs, m: nat)
    requires Core(s) && CanFree(s, m)
    ensures Owned(FreeNode(s, m)) && Counted(FreeNode(s, m))
  {
    var t := FreeNode(s, m);
    var b := InodeOf(s, m).ptrs[0];
    assert Ptr(s, Root(m, 0)) == b && Owner(Root(m, 0)) == m;
    forall y | Wf(y) ensures Ptr(t, y) == if Owner(y) == m then 0 else Ptr(s, y) {
      FreeNodePtr(s, m, y);
    }
    assert s.blockMap[0] == 1;
    forall i | 0 <= i < NUM_INODES && InodeOf(t, i).kind == I_FILE ensures InodeOf(t, i).blocks == |BlocksOf(t, i)| {
      FreeNodeBlocks(s, m, i);
    }
  }

  /** The blocks of a node that are not handed back when it is released: all but
      its first. */
  ghost function Rest(s: Fs, m: nat): set<nat>
    requires Shape(s) && m < NUM_INODES
  {
    BlocksOf(s, m) - {InodeOf(s, m).ptrs[0]}
  }

  /** Nobody names them any more, and they stay marked used. */
  lemma FreeNodeLeaks(s: Fs, m: nat)
    requires Core(s) && CanFree(s, m)
    ensures Leaked(FreeNode(s, m)) == Leaked(s) + Rest(s, m) && Leaked(s) !! Rest(s, m)
  {
    var t := FreeNode(s, m);
    var b := InodeOf(s, m).ptrs[0];
    assert Ptr(s, Root(m, 0)) == b && Owner(Root(m, 0)) == m;
    forall y | Wf(y) ensures Ptr(t, y) == if Owner(y) == m then 0 else Ptr(s, y) {
      FreeNodePtr(s, m, y);
    }
    forall c: nat | 0 < c < NUM_BLOCKS ensures Held(s, c) <==> Held(t, c) || HeldBy(s, m, c) {
      if Held(t, c) {
        var y :| Wf(y) && Ptr(t, y) == c;
        assert Ptr(s, y) == c;
      }
      if Held(s, c) {
        var y :| Wf(y) && Ptr(s, y) == c;
        assert Owner(y) == m || Ptr(t, y) == c;
      }
    }
    forall c: nat | 0 < c < NUM_BLOCKS && HeldBy(s, m, c) ensures !Held(t, c) && s.blockMap[c] == 1 {
      var x :| Wf(x) && Ptr(s, x) == c && Owner(x) == m;
    }
  }

  /** A directory leaves nothing behind; a file all its blocks but one. */
  lemma RestCount(s: Fs, m: nat)
    requires Core(s) && CanFree(s, m)
    ensures |Rest(s, m)| == InodeOf(s, m).blocks - 1
  {
    CountOf(s, m);
    assert Ptr(s, Root(m, 0)) == InodeOf(s, m).ptrs[0] && Owner(Root(m, 0)) == m;
    assert InodeOf(s, m).ptrs[0] in BlocksOf(s, m);
  }

  lemma FreeNodeBlocks(s: Fs, m: nat, i: nat)
    requires Core(s) && CanFree(s, m) && i < NUM_INODES && i != m
    ensures BlocksOf(FreeNode(s, m), i) == BlocksOf(s, i)
  {
    var t := FreeNode(s, m);
    forall y | Wf(y) ensures Ptr(t, y) == if Owner(y) == m then 0 else Ptr(s, y) {
      FreeNodePtr(s, m, y);
    }
    forall c: nat | 0 < c < NUM_BLOCKS ensures HeldBy(t, i, c) <==> HeldBy(s, i, c) {
      if HeldBy(t, i, c) {
        var y :| Wf(y) && Ptr(t, y) == c && Owner(y) == i;
        assert Ptr(s, y) == c;
      }
      if HeldBy(s, i, c) {
        var y :| Wf(y) && Ptr(s, y) == c && Owner(y) == i;
        assert Ptr(t, y) == c;
      }
    }
  }

  lemma FreeNodeRecords(s: Fs, m: nat)
    requires Core(s) && CanFree(s, m)
    ensures Records(FreeNode(s, m))
  {
    var t := FreeNode(s, m);
    var b := InodeOf(s, m).ptrs[0];
    assert Ptr(s, Root(m, 0)) == b;
    forall j | 0 <= j < NUM_INODES ensures Record(t, j) {
      assert Record(s, j);
    }
  }

  lemma FreeNodeByte(s: Fs, m: nat, j: nat, pos: nat)
    requires Core(s) && CanFree(s, m) && j < NUM_INODES && j != m && pos < WORD_LIMIT
    ensures ByteAt(FreeNode(s, m), j, pos) == ByteAt(s, j, pos)
  {
    var y := PageSlot(j, PageOf(pos));
    PageSlotBounds(j, PageOf(pos));
    FreeNodePtr(s, m, y);
    assert Ptr(s, Root(m, 0)) == InodeOf(s, m).ptrs[0] && Owner(Root(m, 0)) == m;
  }

  /** What releasing a node leaves alone, and what it leaves behind. */
  ghost predicate FreeStep(s: Fs, t: Fs, m: nat)
    requires Shape(s) && Shape(t)
  {
    && Inv(t) && m < NUM_INODES && t.inodeMap == s.inodeMap[m := 0] && InodeOf(t, m) == ZeroInode()
    && Leaked(t) == Leaked(s) + Rest(s, m)
    && InodeOf(s, m).ptrs[0] < NUM_BLOCKS && t.disk[InodeOf(s, m).ptrs[0]] == ZeroBlock()
    && (forall j :: 0 <= j < NUM_INODES && j != m ==> InodeOf(t, j) == InodeOf(s, j) && SameBytes(s, t, j))
    && (forall x :: IsDir(s, x) && x != m ==> Dir(t, x) == Dir(s, x))
  }

  lemma FreeStepHolds(s: Fs, m: nat)
    requires Inv(s) && CanFree(s, m)
    ensures FreeStep(s, FreeNode(s, m), m)
  {
    var t := FreeNode(s, m);
    FreeNodeOwned(s, m);
    FreeNodeLeaks(s, m);
    FreeNodeRecords(s, m);
    forall j | 0 <= j < NUM_INODES && j != m ensures SameBytes(s, t, j) {
      forall pos | 0 <= pos < WORD_LIMIT ensures ByteAt(t, j, pos) == ByteAt(s, j, pos) {
        FreeNodeByte(s, m, j, pos);
      }
    }
    forall j | 0 <= j < NUM_INODES ensures ZeroTail(t, j) {
      if j != m {
        assert ZeroTail(s, j) && SameBytes(s, t, j) && InodeOf(t, j) == InodeOf(s, j);
      }
    }
    FreeNodeDirs(s, m);
  }

  lemma FreeNodeDirs(s: Fs, m: nat)
    requires Core(s) && CanFree(s, m)
    ensures forall x :: IsDir(s, x) && x != m ==> Dir(FreeNode(s, m), x) == Dir(s, x)
  {
    forall x | IsDir(s, x) && x != m ensures Dir(FreeNode(s, m), x) == Dir(s, x) {
      DirBlockFacts(s, x);
      assert Ptr(s, Root(m, 0)) == InodeOf(s, m).ptrs[0];
    }
  }

  // ---------- Conservation under rm ----------

  /** Releasing a node clears its record but hands back only its first block: the
      balance between the map and the block counts survives exactly if there was
      one and the node had no other block. */
  lemma RemoveConserves(s: Fs, m: nat)
    requires Core(s) && CanFree(s, m)
    ensures |Leaked(FreeNode(s, m))| == |Leaked(s)| + InodeOf(s, m).blocks - 1
    ensures Conserved(FreeNode(s, m)) <==> Conserved(s) && InodeOf(s, m).blocks == 1
  {
    hide Core, Conserved, Leaked, FreeNode, BlocksOf;
    FreeNodeLeaks(s, m);
    RestCount(s, m);
    FreeNodeCore(s, m);
    LeakedCount(s);
    LeakedCount(FreeNode(s, m));
  }

  lemma FreeNodeCore(s: Fs, m: nat)
    requires Core(s) && CanFree(s, m)
    ensures Core(FreeNode(s, m))
  {
    FreeNodeOwned(s, m);
    FreeNodeRecords(s, m);
  }
}
