/** The blocks that removals leave behind, over histories: the block map balances
    with the block counts but for them. */
module FsLeaks {
  import opened Bytes
  import opened FsState
  import opened FsFile
  import opened FsInvariant
  import opened FsDirectory
  import opened FsDirOps
  import opened FsTree
  import opened FsHistory
  import opened FileSystems
  import opened DirectoryOps
  import opened FsRuns
  import opened FsLinks

  /** How many blocks a call leaves behind: those of the node it removes beyond the first. */
  ghost function LeftBy(s: Fs, op: Op): int
  {
    if op.Delete? && Shape(s) && op.link.ino < NUM_INODES then InodeOf(s, op.link.ino).blocks - 1 else 0
  }

  /** No call but a removal leaks a block, and none gets one back. */
  lemma CallLeaks(s: Fs, op: Op, t: Fs)
    requires TreeInv(s) && Called(s, op, t)
    ensures Leaked(s) <= Leaked(t) && |Leaked(t)| == |Leaked(s)| + LeftBy(s, op)
    ensures LeftBy(s, op) >= 0
  {
    hide Core, ZeroTails, Tree, Insert, Remove, Dir, CanInsert, Hit, Content, Leaked, Rest, SameBytes, FilesKept;
    match op
    case Read(i, off, data) =>
    case Write(i, off, data) =>
    case Seek(i, to) =>
    case Create(l) =>
      var b: nat, i: nat :| CanInsert(s, l.dir, l.ino, b, i, l.kind, l.name) && t == Insert(s, l.dir, l.ino, b, i, l.kind, l.name);
      InsertIsInserted(s, l.dir, l.ino, b, i, l.kind, l.name);
    case Delete(l) =>
      var k: nat :| CanRemove(s, l.dir, k, l.ino) && Hit(Dir(s, l.dir), l.kind, l.name, k) && t == Remove(s, l.dir, k, l.ino)
        && InodeOf(s, l.ino).kind == l.kind;
      RemoveTree(s, l.dir, k, l.ino);
      RemoveBalance(s, l.dir, k, l.ino);
      BlocksPositive(s, l.dir, k, l.ino);
  }

  lemma BlocksPositive(s: Fs, d: nat, k: nat, m: nat)
    requires TreeInv(s) && CanRemove(s, d, k, m)
    ensures m < NUM_INODES && InodeOf(s, m).blocks >= 1
  {
    hide Core, ZeroTails, Tree, Dir;
    EntryCanBeRemoved(s, d, k);
    RestCount(s, m);
  }

  /** The blocks the removals of a history leave behind: of each removed node all
      but the first. */
  ghost function LeftBehind(ss: seq<Fs>, ops: seq<Op>): int
    requires |ss| == |ops| + 1
    decreases |ops|
  {
    if ops == [] then 0 else
    var n := |ops| - 1;
    LeftBehind(ss[..n + 1], ops[..n]) + LeftBy(ss[n], ops[n])
  }

  /** Over any history the leaked blocks are those there were and all blocks but the
      first of every node removed; a leaked block is never used again. */
  lemma {:induction false} HistoryLeaks(ss: seq<Fs>, ops: seq<Op>)
    requires History(ss, ops) && TreeInv(ss[0])
    ensures TreeInv(ss[|ops|]) && Leaked(ss[0]) <= Leaked(ss[|ops|])
    ensures |Leaked(ss[|ops|])| == |Leaked(ss[0])| + LeftBehind(ss, ops)
    decreases |ops|
  {
    hide Inv, Tree, Called, Leaked, LeftBy;
    if ops != [] {
      var n := |ops| - 1;
      HistoryFront(ss, ops);
      HistoryLeaks(ss[..n + 1], ops[..n]);
      CallLeaks(ss[n], ops[n], ss[n + 1]);
      CallRefines(ss[n], ops[n], ss[n + 1]);
    }
  }

  /** Every node that the history removed had one block when it was removed. */
  ghost predicate OnlyShort(ss: seq<Fs>, ops: seq<Op>)
    requires |ss| == |ops| + 1
  {
    forall k :: 0 <= k < |ops| ==> LeftBy(ss[k], ops[k]) == 0
  }

  lemma {:induction false} NothingLeft(ss: seq<Fs>, ops: seq<Op>)
    requires History(ss, ops) && TreeInv(ss[0])
    ensures LeftBehind(ss, ops) >= 0 && (LeftBehind(ss, ops) == 0 <==> OnlyShort(ss, ops))
    decreases |ops|
  {
    hide Inv, Tree, Called, Leaked, LeftBy;
    if ops != [] {
      var n := |ops| - 1;
      var before, done := ss[..n + 1], ops[..n];
      HistoryFront(ss, ops);
      NothingLeft(before, done);
      HistoryLeaks(before, done);
      CallLeaks(ss[n], ops[n], ss[n + 1]);
      assert forall k :: 0 <= k < n ==> LeftBy(before[k], done[k]) == LeftBy(ss[k], ops[k]);
    }
  }

  /** Over any history from a fresh disk the block map has as many used entries as
      the inodes count, and one more for each block left behind: the two agree
      exactly if every file removed had one block. */
  lemma HistoryConserved(ss: seq<Fs>, ops: seq<Op>)
    requires History(ss, ops) && Fresh(ss[0])
    ensures TreeInv(ss[|ops|])
    ensures |Used(ss[|ops|].blockMap)| == SumBlocks(ss[|ops|], NUM_INODES) + LeftBehind(ss, ops)
    ensures Conserved(ss[|ops|]) <==> OnlyShort(ss, ops)
  {
    hide Core, ZeroTails, Tree, Leaked, Fresh, LeftBehind, OnlyShort, Called, Used, SumBlocks;
    FreshTreeInv(ss[0]);
    FreshInv(ss[0]);
    HistoryLeaks(ss, ops);
    NothingLeft(ss, ops);
    LeakedCount(ss[|ops|]);
  }

  lemma SecondBlock(s: Fs, m: nat, pos: nat)
    requires Core(s) && CanFree(s, m) && BLOCK_SIZE <= pos < WORD_LIMIT && ByteAt(s, m, pos) != 0
    ensures exists b :: b in Rest(s, m)
  {
    var x := PageSlot(m, PageOf(pos));
    PageSlotBounds(m, PageOf(pos));
    var b := Ptr(s, x);
    assert HeldBy(s, m, b);
    assert Ptr(s, Root(m, 0)) == InodeOf(s, m).ptrs[0];
    assert x != Root(m, 0);
    assert b in Rest(s, m);
  }

  /** A file with a byte past its first page that is not zero leaves blocks behind. */
  lemma LongFileLeaks(s: Fs, d: nat, k: nat, m: nat, pos: nat)
    requires TreeInv(s) && CanRemove(s, d, k, m) && BLOCK_SIZE <= pos < WORD_LIMIT && ByteAt(s, m, pos) != 0
    ensures InodeOf(s, m).blocks > 1 && Leaked(s) < Leaked(Remove(s, d, k, m))
  {
    hide Tree, Core, ZeroTails, Remove, Removed, OtherFilesKept, Dir, Leaked, Rest, ByteAt;
    EntryCanBeRemoved(s, d, k);
    RemoveTree(s, d, k, m);
    SecondBlock(s, m, pos);
    RestCount(s, m);
    FreeNodeLeaks(s, m);
  }
}
