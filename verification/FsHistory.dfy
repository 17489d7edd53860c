/** Whole operations on the tree: creating, removing, both in turn, and file
    input and output beside them. */
module FsHistory {
  import opened Bytes
  import opened FsState
  import opened FsFile
  import opened FsInvariant
  import opened FsDirectory
  import opened FsDirOps
  import opened FsTree

  /** The block of a new directory: "." and ".." in a cleared block. */
  function DotBlock(parent: nat, m: nat): Block
    requires parent < NUM_INODES && m < NUM_INODES
  {
    PutDentry(PutDentry(ZeroBlock(), 0, Dentry(I_DIR, m, Padded(DOT))), 1, Dentry(I_DIR, parent, Padded(DOT + DOT)))
  }

  lemma ZeroSlots(k: nat)
    requires k < NUM_DENTRIES
    ensures Slots(ZeroBlock())[k] == Dentry(0, 0, NoName())
  {
    hide Word;
    WordOfZero(8 * k);
    WordOfZero(8 * k + 1);
    assert ZeroBlock()[DENTRY_SIZE * k + 8..DENTRY_SIZE * k + 32] == NoName();
  }

  lemma DotBlockSlots(parent: nat, m: nat)
    requires parent < NUM_INODES && m < NUM_INODES
    ensures Slots(DotBlock(parent, m)) == FreshSlots(parent, m)
  {
    hide PutDentry, Slots, Padded, ZeroBlock;
    var d0, d1 := Dentry(I_DIR, m, Padded(DOT)), Dentry(I_DIR, parent, Padded(DOT + DOT));
    SlotsOfPut(ZeroBlock(), 0, d0);
    SlotsOfPut(PutDentry(ZeroBlock(), 0, d0), 1, d1);
    forall k | 0 <= k < NUM_DENTRIES ensures Slots(ZeroBlock())[k] == Dentry(0, 0, NoName()) {
      ZeroSlots(k);
    }
  }

  function FirstBlock(kind: nat, parent: nat, m: nat): Block
    requires parent < NUM_INODES && m < NUM_INODES
  {
    if kind == I_DIR then DotBlock(parent, m) else ZeroBlock()
  }

  // ---------- Creating ----------

  ghost predicate CanInsert(s: Fs, d: nat, m: nat, b: nat, i: nat, kind: nat, name: seq<byte>)
    requires Shape(s)
  {
    && IsDir(s, d) && 0 < m < NUM_INODES && s.inodeMap[m] == 0 && 0 < b < NUM_BLOCKS && s.blockMap[b] == 0
    && (kind == I_DIR || kind == I_FILE) && GoodName(name)
    && FirstFree(Dir(s, d), i) && Missing(Dir(s, d), kind, name, NUM_DENTRIES)
  }

  /** The state after mkdir or touch. */
  ghost function Insert(s: Fs, d: nat, m: nat, b: nat, i: nat, kind: nat, name: seq<byte>): (t: Fs)
    requires Shape(s) && CanInsert(s, d, m, b, i, kind, name)
    ensures Shape(t)
  {
    AddEntry(NewNode(s, m, b, kind, FirstBlock(kind, d, m)), d, i, Dentry(kind, m, Padded(name)))
  }

  ghost predicate TreeInv(s: Fs) {
    Inv(s) && Tree(s)
  }

  /** An entry step on a sound state keeps it sound. */
  lemma EntryStepInv(s: Fs, t: Fs, d: nat, k: nat, e: Dentry)
    requires Inv(s) && IsDir(s, d) && Shape(t) && EntryStep(s, t, d, k, e)
    ensures Inv(t)
  {
    forall j | 0 <= j < NUM_INODES ensures ZeroTail(t, j) {
      if InodeOf(t, j).kind == I_FILE {
        assert Record(s, j) && Record(t, j);
        assert FileAt(s, j) && ZeroTail(s, j) && SameBytes(s, t, j);
      }
    }
  }

  lemma StepsInserted(s: Fs, u: Fs, t: Fs, d: nat, m: nat, b: nat, i: nat, kind: nat, name: seq<byte>)
    requires Shape(s) && Shape(u) && Shape(t) && CanInsert(s, d, m, b, i, kind, name)
    requires NodeStep(s, u, m, kind, FirstBlock(kind, d, m)) && InodeOf(u, m) == NodeRecord(m, b, kind)
    requires EntryStep(u, t, d, i, Dentry(kind, m, Padded(name)))
    requires InodeOf(t, d).fileNum == Increment(InodeOf(u, d).fileNum)
    ensures Inserted(s, t, d, m, i, Dentry(kind, m, Padded(name)))
  {
    hide Core, Inv, FilesKept, Dir, Missing, Padded, DotBlock, Slots, FreshSlots;
    DotBlockSlots(d, m);
    assert IsDir(u, d);
    if kind == I_DIR {
      assert IsDir(u, m);
    }
  }

  lemma CountsInRange(s: Fs, d: nat)
    requires Core(s) && d < NUM_INODES
    ensures InodeOf(s, d).fileNum < WORD_LIMIT && InodeOf(s, d).links < WORD_LIMIT
  {
    assert Record(s, d);
  }

  lemma NewNodeThenEntry(s: Fs, d: nat, m: nat, b: nat, i: nat, kind: nat, name: seq<byte>)
    requires Inv(s) && CanInsert(s, d, m, b, i, kind, name)
    ensures
      var u := NewNode(s, m, b, kind, FirstBlock(kind, d, m));
      var t := Insert(s, d, m, b, i, kind, name);
      && NodeStep(s, u, m, kind, FirstBlock(kind, d, m)) && InodeOf(u, m) == NodeRecord(m, b, kind)
      && EntryStep(u, t, d, i, Dentry(kind, m, Padded(name)))
      && InodeOf(t, d).fileNum == Increment(InodeOf(u, d).fileNum)
  {
    hide Core, ZeroTails, FilesKept, Dir, Missing, Padded, DotBlock, PutDentry;
    var u := NewNode(s, m, b, kind, FirstBlock(kind, d, m));
    NodeStepHolds(s, m, b, kind, FirstBlock(kind, d, m));
    var n := InodeOf(u, d);
    assert IsDir(u, d);
    CountsInRange(u, d);
    EntryStepHolds(u, d, i, Dentry(kind, m, Padded(name)), Increment(n.fileNum), if kind == I_DIR then Increment(n.links) else n.links);
  }

  lemma InsertIsInserted(s: Fs, d: nat, m: nat, b: nat, i: nat, kind: nat, name: seq<byte>)
    requires Inv(s) && CanInsert(s, d, m, b, i, kind, name)
    ensures Inv(Insert(s, d, m, b, i, kind, name)) && FilesKept(s, Insert(s, d, m, b, i, kind, name))
    ensures Inserted(s, Insert(s, d, m, b, i, kind, name), d, m, i, Dentry(kind, m, Padded(name)))
    ensures Leaked(Insert(s, d, m, b, i, kind, name)) == Leaked(s)
  {
    hide Leaked, Core, ZeroTails, FilesKept, Dir, Missing, Padded, DotBlock, FreshSlots, NewNode, Insert, Inserted;
    var u := NewNode(s, m, b, kind, FirstBlock(kind, d, m));
    var t := Insert(s, d, m, b, i, kind, name);
    NewNodeThenEntry(s, d, m, b, i, kind, name);
    StepsInserted(s, u, t, d, m, b, i, kind, name);
    assert IsDir(u, d);
    EntryStepInv(u, t, d, i, Dentry(kind, m, Padded(name)));
    FilesKeptTransitive(s, u, t);
  }

  /** Creating a directory or file in a sound tree gives a sound tree. */
  lemma InsertTree(s: Fs, d: nat, m: nat, b: nat, i: nat, kind: nat, name: seq<byte>)
    requires TreeInv(s) && CanInsert(s, d, m, b, i, kind, name)
    ensures TreeInv(Insert(s, d, m, b, i, kind, name)) && FilesKept(s, Insert(s, d, m, b, i, kind, name))
  {
    hide Core, ZeroTails, Insert, Inserted, FilesKept, TreeAt, Missing, IsDir, Padded;
    InsertIsInserted(s, d, m, b, i, kind, name);
    var depth :| TreeAt(s, depth);
    InsertKeepsTree(s, Insert(s, d, m, b, i, kind, name), depth, d, m, i, kind, name);
  }

  // ---------- Removing ----------

  ghost predicate CanRemove(s: Fs, d: nat, k: nat, m: nat)
    requires Shape(s)
  {
    && EntryAt(s, d, k) && Target(s, d, k) == m && 0 < m < NUM_INODES && m != d && s.inodeMap[m] == 1
    && InodeOf(s, m).ptrs[0] < NUM_BLOCKS && (IsDir(s, m) ==> InodeOf(s, m).fileNum == 2)
  }

  /** The state after rmdir or rm. */
  ghost function Remove(s: Fs, d: nat, k: nat, m: nat): (t: Fs)
    requires Shape(s) && CanRemove(s, d, k, m)
    ensures Shape(t)
  {
    FreeNode(DropEntry(s, d, k), m)
  }

  /** Entries of a sound tree, of files or of empty directories, can be removed. */
  lemma EntryCanBeRemoved(s: Fs, d: nat, k: nat)
    requires TreeInv(s) && EntryAt(s, d, k)
    requires IsDir(s, Target(s, d, k)) ==> InodeOf(s, Target(s, d, k)).fileNum == 2
    ensures CanRemove(s, d, k, Target(s, d, k))
    ensures CanFree(s, Target(s, d, k))
  {
    hide TreeAt, Dir;
    var depth :| TreeAt(s, depth);
    TreeEntry(s, depth, d, k);
    var m := Target(s, d, k);
    assert Record(s, m);
    assert Wf(Root(m, 0)) && Ptr(s, Root(m, 0)) == InodeOf(s, m).ptrs[0];
  }

  lemma DropStep(s: Fs, d: nat, k: nat, m: nat)
    requires Core(s) && CanRemove(s, d, k, m)
    ensures EntryStep(s, DropEntry(s, d, k), d, k, Dentry(0, m, NoName()))
    ensures InodeOf(DropEntry(s, d, k), d).fileNum == Decrement(InodeOf(s, d).fileNum)
    ensures InodeOf(DropEntry(s, d, k), d).links == Decrement(InodeOf(s, d).links)
  {
    hide Core, FilesKept, Dir, PutDentry;
    var n := InodeOf(s, d);
    EntryStepHolds(s, d, k, Dentry(0, m, NoName()), Decrement(n.fileNum), Decrement(n.links));
  }

  /** Every file other than m is in t, byte for byte. */
  ghost predicate OtherFilesKept(s: Fs, t: Fs, m: nat)
    requires Shape(s) && Shape(t)
  {
    forall j {:trigger FileAt(s, j)} :: FileAt(s, j) && j != m ==>
      FileAt(t, j) && InodeOf(t, j) == InodeOf(s, j) && SameBytes(s, t, j)
  }

  lemma DropThenFree(s: Fs, u: Fs, t: Fs, d: nat, k: nat, m: nat)
    requires Inv(s) && Shape(u) && Shape(t) && CanRemove(s, d, k, m)
    requires EntryStep(s, u, d, k, Dentry(0, m, NoName())) && FreeStep(u, t, m)
    requires InodeOf(u, d).fileNum == Decrement(InodeOf(s, d).fileNum)
    ensures Removed(s, t, d, m, k)
  {
    hide Core, Inv, FilesKept, Dir;
    forall x | IsDir(s, x) && x != m
      ensures Dir(t, x) == if x == d then Dir(s, d)[k := Dentry(0, m, NoName())] else Dir(s, x)
    {
      assert IsDir(u, x);
    }
  }

  lemma DropThenFreeFiles(s: Fs, u: Fs, t: Fs, m: nat)
    requires Shape(s) && Shape(u) && Shape(t) && FilesKept(s, u) && FreeStep(u, t, m)
    ensures OtherFilesKept(s, t, m)
  {
    hide Inv, Core;
    forall j | FileAt(s, j) && j != m ensures FileAt(t, j) && InodeOf(t, j) == InodeOf(s, j) && SameBytes(s, t, j) {
      assert FileAt(u, j) && SameBytes(s, u, j) && SameBytes(u, t, j);
      forall pos | 0 <= pos < WORD_LIMIT ensures ByteAt(t, j, pos) == ByteAt(s, j, pos) {
        assert ByteAt(u, j, pos) == ByteAt(s, j, pos);
      }
    }
  }

  lemma RemoveIsRemoved(s: Fs, d: nat, k: nat, m: nat)
    requires Inv(s) && CanRemove(s, d, k, m) && CanFree(s, m)
    ensures Inv(Remove(s, d, k, m)) && OtherFilesKept(s, Remove(s, d, k, m), m)
    ensures Removed(s, Remove(s, d, k, m), d, m, k)
    ensures Leaked(Remove(s, d, k, m)) == Leaked(s) + Rest(s, m)
  {
    hide Core, ZeroTails, Dir, FilesKept, DropEntry, FreeNode, FreeStep, Removed, OtherFilesKept, Leaked, BlocksOf;
    var u := DropEntry(s, d, k);
    DropStep(s, d, k, m);
    EntryStepInv(s, u, d, k, Dentry(0, m, NoName()));
    FreeStepHolds(u, m);
    var t := FreeNode(u, m);
    DropThenFree(s, u, t, d, k, m);
    DropThenFreeFiles(s, u, t, m);
    FreeStepInv(u, t, m);
    assert Rest(u, m) == Rest(s, m);
  }

  /** Removing a node from a sound tree leaves a sound tree, and all blocks of
      the node but its first marked used for good. */
  lemma RemoveTree(s: Fs, d: nat, k: nat, m: nat)
    requires TreeInv(s) && CanRemove(s, d, k, m)
    ensures TreeInv(Remove(s, d, k, m)) && OtherFilesKept(s, Remove(s, d, k, m), m)
    ensures Removed(s, Remove(s, d, k, m), d, m, k)
    ensures Leaked(Remove(s, d, k, m)) == Leaked(s) + Rest(s, m)
  {
    hide Core, ZeroTails, TreeAt, Dir, Remove, Removed, OtherFilesKept, Leaked, Rest;
    EntryCanBeRemoved(s, d, k);
    RemoveIsRemoved(s, d, k, m);
    var depth :| TreeAt(s, depth);
    RemoveKeepsTree(s, Remove(s, d, k, m), depth, d, m, k);
  }

  lemma FreeStepInv(s: Fs, t: Fs, m: nat)
    requires Shape(s) && Shape(t) && FreeStep(s, t, m)
    ensures Inv(t) && Leaked(t) == Leaked(s) + Rest(s, m)
  {
  }

  /** As many blocks leak as the node had beyond its first, so a removal keeps the
      block map balanced exactly if the node had one block: a directory always. */
  lemma RemoveBalance(s: Fs, d: nat, k: nat, m: nat)
    requires TreeInv(s) && CanRemove(s, d, k, m)
    ensures |Leaked(Remove(s, d, k, m))| == |Leaked(s)| + InodeOf(s, m).blocks - 1
    ensures Conserved(Remove(s, d, k, m)) <==> Conserved(s) && InodeOf(s, m).blocks == 1
    ensures IsDir(s, m) ==> InodeOf(s, m).blocks == 1
  {
    EntryCanBeRemoved(s, d, k);
    DropStep(s, d, k, m);
    hide Core, ZeroTails, Tree, Dir, FilesKept, DropEntry, FreeNode, Leaked, BlocksOf, Conserved;
    var u := DropEntry(s, d, k);
    RemoveConserves(u, m);
    LeakedCount(s);
    LeakedCount(u);
    if IsDir(s, m) { OneBlockDir(s, m); }
  }

  lemma OneBlockDir(s: Fs, m: nat)
    requires Core(s) && IsDir(s, m)
    ensures InodeOf(s, m).blocks == 1
  {
    assert Record(s, m);
  }

  // ---------- There and back ----------

  /** Two directories a search cannot tell apart. */
  ghost predicate SameNames(ds: seq<Dentry>, es: seq<Dentry>) {
    forall mask: nat, name: seq<byte>, n: nat :: Missing(ds, mask, name, n) <==> Missing(es, mask, name, n)
  }

  lemma SameNamesReflexive(ds: seq<Dentry>)
    ensures SameNames(ds, ds)
  {
  }

  /** Free entries are invisible to every search. */
  lemma FreeEntriesUnseen(ds: seq<Dentry>, es: seq<Dentry>, i: nat)
    requires |ds| == |es| && i < |ds| && ds[i].kind == 0 && es[i].kind == 0
    requires forall j :: 0 <= j < |ds| && j != i ==> es[j] == ds[j]
    ensures SameNames(ds, es)
  {
    forall mask: nat, name: seq<byte>, n: nat ensures Missing(ds, mask, name, n) <==> Missing(es, mask, name, n) {
      assert forall j :: 0 <= j < |ds| ==>
        (Matches(ds[j].kind, mask) && CString(ds[j].name) == name <==> Matches(es[j].kind, mask) && CString(es[j].name) == name);
    }
  }

  /** mkdir or touch followed by its removal gives back both maps, every inode
      record, the bytes of every file and the names of every directory, except
      that removing a file leaves its directory one link short. */
  lemma RoundTrip(s: Fs, d: nat, m: nat, b: nat, i: nat, kind: nat, name: seq<byte>)
    requires TreeInv(s) && CanInsert(s, d, m, b, i, kind, name)
    ensures
      var t := Insert(s, d, m, b, i, kind, name);
      && CanRemove(t, d, i, m)
      && var u := Remove(t, d, i, m);
      && u.blockMap == s.blockMap && u.inodeMap == s.inodeMap
      && (forall j :: 0 <= j < NUM_INODES && j != d ==> InodeOf(u, j) == InodeOf(s, j))
      && InodeOf(u, d) == InodeOf(s, d).(links := if kind == I_DIR then InodeOf(s, d).links else Decrement(InodeOf(s, d).links))
  {
    hide Core, ZeroTails, TreeAt, Dir, FilesKept, Missing;
    var t := Insert(s, d, m, b, i, kind, name);
    InsertIsInserted(s, d, m, b, i, kind, name);
    InsertTree(s, d, m, b, i, kind, name);
    RoundTripEntry(s, t, d, m, i, Dentry(kind, m, Padded(name)));
    EntryCanBeRemoved(t, d, i);
    RoundTripState(s, d, m, b, i, kind, name);
  }

  lemma RoundTripEntry(s: Fs, t: Fs, d: nat, m: nat, i: nat, e: Dentry)
    requires Shape(s) && Shape(t) && Inserted(s, t, d, m, i, e) && FirstFree(Dir(s, d), i) && TreeInv(s)
    ensures EntryAt(t, d, i) && Target(t, d, i) == m
    ensures IsDir(t, m) ==> InodeOf(t, m).fileNum == 2
  {
    hide TreeAt, Inv, Dir;
    var depth :| TreeAt(s, depth);
    InsertSlot(s, depth, d, i);
  }

  /** Both maps and all records after an insertion. */
  ghost predicate InsertedRecords(s: Fs, t: Fs, d: nat, m: nat, b: nat, kind: nat)
    requires Shape(s) && Shape(t)
  {
    && d < NUM_INODES && m < NUM_INODES && b < NUM_BLOCKS && d != m
    && t.blockMap == s.blockMap[b := 1] && t.inodeMap == s.inodeMap[m := 1]
    && InodeOf(t, m) == NodeRecord(m, b, kind)
    && InodeOf(t, d) == InodeOf(s, d).(fileNum := Increment(InodeOf(s, d).fileNum),
                                       links := if kind == I_DIR then Increment(InodeOf(s, d).links) else InodeOf(s, d).links)
    && (forall j :: 0 <= j < NUM_INODES && j != d && j != m ==> InodeOf(t, j) == InodeOf(s, j))
  }

  ghost predicate RemovedRecords(s: Fs, t: Fs, d: nat, m: nat)
    requires Shape(s) && Shape(t)
  {
    && d < NUM_INODES && m < NUM_INODES && d != m && InodeOf(s, m).ptrs[0] < NUM_BLOCKS
    && t.blockMap == s.blockMap[InodeOf(s, m).ptrs[0] := 0] && t.inodeMap == s.inodeMap[m := 0]
    && InodeOf(t, m) == ZeroInode()
    && InodeOf(t, d) == InodeOf(s, d).(fileNum := Decrement(InodeOf(s, d).fileNum), links := Decrement(InodeOf(s, d).links))
    && (forall j :: 0 <= j < NUM_INODES && j != d && j != m ==> InodeOf(t, j) == InodeOf(s, j))
  }

  lemma InsertRecords(s: Fs, d: nat, m: nat, b: nat, i: nat, kind: nat, name: seq<byte>)
    requires Shape(s) && CanInsert(s, d, m, b, i, kind, name)
    ensures InsertedRecords(s, Insert(s, d, m, b, i, kind, name), d, m, b, kind)
  {
    hide Dir, Missing, PutDentry, Padded, DotBlock;
  }

  lemma RemoveRecords(s: Fs, d: nat, k: nat, m: nat)
    requires Shape(s) && CanRemove(s, d, k, m)
    ensures RemovedRecords(s, Remove(s, d, k, m), d, m)
  {
    hide Dir, PutDentry;
  }

  lemma RoundTripRecords(s: Fs, t: Fs, u: Fs, d: nat, m: nat, b: nat, kind: nat)
    requires Shape(s) && Shape(t) && Shape(u) && InsertedRecords(s, t, d, m, b, kind) && RemovedRecords(t, u, d, m)
    requires s.blockMap[b] == 0 && s.inodeMap[m] == 0 && InodeOf(s, m) == ZeroInode()
    requires InodeOf(s, d).fileNum < WORD_LIMIT && InodeOf(s, d).links < WORD_LIMIT
    ensures u.blockMap == s.blockMap && u.inodeMap == s.inodeMap
    ensures forall j :: 0 <= j < NUM_INODES && j != d ==> InodeOf(u, j) == InodeOf(s, j)
    ensures InodeOf(u, d) == InodeOf(s, d).(links := if kind == I_DIR then InodeOf(s, d).links else Decrement(InodeOf(s, d).links))
  {
    hide InodeOf;
    assert InodeOf(t, m).ptrs[0] == b;
    assert Decrement(Increment(InodeOf(s, d).fileNum)) == InodeOf(s, d).fileNum;
    assert Decrement(Increment(InodeOf(s, d).links)) == InodeOf(s, d).links;
  }

  lemma RoundTripState(s: Fs, d: nat, m: nat, b: nat, i: nat, kind: nat, name: seq<byte>)
    requires Inv(s) && CanInsert(s, d, m, b, i, kind, name) && CanRemove(Insert(s, d, m, b, i, kind, name), d, i, m)
    ensures
      var u := Remove(Insert(s, d, m, b, i, kind, name), d, i, m);
      && u.blockMap == s.blockMap && u.inodeMap == s.inodeMap
      && (forall j :: 0 <= j < NUM_INODES && j != d ==> InodeOf(u, j) == InodeOf(s, j))
      && InodeOf(u, d) == InodeOf(s, d).(links := if kind == I_DIR then InodeOf(s, d).links else Decrement(InodeOf(s, d).links))
  {
    assert Record(s, m) && Record(s, d);
    hide Core, ZeroTails, Insert, Remove, InodeOf, InsertedRecords, RemovedRecords, Dir, Missing;
    var t := Insert(s, d, m, b, i, kind, name);
    InsertRecords(s, d, m, b, i, kind, name);
    RemoveRecords(t, d, i, m);
    RoundTripRecords(s, t, Remove(t, d, i, m), d, m, b, kind);
  }

  /** After the round trip every directory shows the same names. */
  lemma RoundTripNames(s: Fs, d: nat, m: nat, b: nat, i: nat, kind: nat, name: seq<byte>, x: nat)
    requires TreeInv(s) && CanInsert(s, d, m, b, i, kind, name) && IsDir(s, x)
    ensures
      var t := Insert(s, d, m, b, i, kind, name);
      && CanRemove(t, d, i, m)
      && SameNames(Dir(s, x), Dir(Remove(t, d, i, m), x))
      && OtherFilesKept(s, Remove(t, d, i, m), m)
  {
    hide Core, ZeroTails, TreeAt, Dir, FilesKept, Missing, Insert, Remove, OtherFilesKept, SameNames;
    var t := Insert(s, d, m, b, i, kind, name);
    var e := Dentry(kind, m, Padded(name));
    InsertIsInserted(s, d, m, b, i, kind, name);
    InsertTree(s, d, m, b, i, kind, name);
    RoundTripEntry(s, t, d, m, i, e);
    EntryCanBeRemoved(t, d, i);
    InsertRecords(s, d, m, b, i, kind, name);
    var u := Remove(t, d, i, m);
    RemoveTree(t, d, i, m);
    if x == d {
      FreeEntriesUnseen(Dir(s, d), Dir(u, d), i);
    } else {
      SameNamesReflexive(Dir(s, x));
      assert Dir(u, x) == Dir(s, x);
    }
    FilesKeptThenOthers(s, t, u, m);
  }

  lemma FilesKeptThenOthers(s: Fs, t: Fs, u: Fs, m: nat)
    requires Shape(s) && Shape(t) && Shape(u) && FilesKept(s, t) && OtherFilesKept(t, u, m)
    ensures OtherFilesKept(s, u, m)
  {
    forall j | FileAt(s, j) && j != m ensures FileAt(u, j) && InodeOf(u, j) == InodeOf(s, j) && SameBytes(s, u, j) {
      assert FileAt(t, j) && SameBytes(s, t, j) && SameBytes(t, u, j);
      forall pos | 0 <= pos < WORD_LIMIT ensures ByteAt(u, j, pos) == ByteAt(s, j, pos) {
        assert ByteAt(t, j, pos) == ByteAt(s, j, pos);
      }
    }
  }

  // ---------- Link counts ----------

  ghost function DirCount(ds: seq<Dentry>, k: nat): nat
    requires k <= |ds|
  {
    if k <= 2 then 0 else DirCount(ds, k - 1) + if ds[k - 1].kind == I_DIR then 1 else 0
  }

  /** A directory has one link of its own and one for each directory in it. */
  ghost predicate LinksOk(s: Fs)
    requires Shape(s)
  {
    forall d :: IsDir(s, d) ==> InodeOf(s, d).links == 1 + DirCount(Dir(s, d), NUM_DENTRIES)
  }

  lemma {:induction false} DirCountPut(ds: seq<Dentry>, i: nat, e: Dentry, k: nat)
    requires 2 <= i < |ds| && k <= |ds|
    ensures DirCount(ds[i := e], k) ==
            DirCount(ds, k) + if i < k then (if e.kind == I_DIR then 1 else 0) - (if ds[i].kind == I_DIR then 1 else 0) else 0
  {
    if k > 2 {
      DirCountPut(ds, i, e, k - 1);
    }
  }

  lemma {:induction false} DirCountBound(ds: seq<Dentry>, k: nat)
    requires k <= |ds|
    ensures DirCount(ds, k) <= k
    ensures (forall j :: 2 <= j < k ==> ds[j].kind == 0) ==> DirCount(ds, k) == 0
  {
    if k > 2 {
      DirCountBound(ds, k - 1);
    }
  }

  lemma InsertLinks(s: Fs, d: nat, m: nat, b: nat, i: nat, kind: nat, name: seq<byte>)
    requires TreeInv(s) && CanInsert(s, d, m, b, i, kind, name) && LinksOk(s)
    ensures LinksOk(Insert(s, d, m, b, i, kind, name))
  {
    hide Core, ZeroTails, TreeAt, Dir, FilesKept, Missing, Insert, DirCount;
    var t := Insert(s, d, m, b, i, kind, name);
    InsertIsInserted(s, d, m, b, i, kind, name);
    InsertRecords(s, d, m, b, i, kind, name);
    RoundTripEntry(s, t, d, m, i, Dentry(kind, m, Padded(name)));
    DirCountPut(Dir(s, d), i, Dentry(kind, m, Padded(name)), NUM_DENTRIES);
    DirCountBound(Dir(s, d), NUM_DENTRIES);
    DirCountBound(FreshSlots(d, m), NUM_DENTRIES);
  }

  /** Removing a directory keeps the link counts right; removing a file takes a
      link from its directory that creating the file never gave. */
  lemma RemoveLinks(s: Fs, d: nat, k: nat, m: nat)
    requires TreeInv(s) && CanRemove(s, d, k, m) && LinksOk(s)
    ensures LinksOk(Remove(s, d, k, m)) <==> IsDir(s, m)
  {
    hide Core, ZeroTails, TreeAt, Dir, Remove, OtherFilesKept, DirCount;
    var t := Remove(s, d, k, m);
    RemoveTree(s, d, k, m);
    RemoveRecords(s, d, k, m);
    var depth :| TreeAt(s, depth);
    TreeEntry(s, depth, d, k);
    DirCountPut(Dir(s, d), k, Dentry(0, m, NoName()), NUM_DENTRIES);
    DirCountBound(Dir(s, d), NUM_DENTRIES);
    DirCountBound(Dir(t, d), NUM_DENTRIES);
    assert IsDir(t, d);
    KindOfEntry(s, depth, d, k);
  }

  lemma KindOfEntry(s: Fs, depth: seq<nat>, d: nat, k: nat)
    requires Core(s) && TreeAt(s, depth) && EntryAt(s, d, k)
    ensures Dir(s, d)[k].kind == I_DIR <==> IsDir(s, Target(s, d, k))
  {
    hide TreeAt, Dir;
    TreeEntry(s, depth, d, k);
  }

  /** Directory m has no entry but the dots. */
  ghost predicate Empty(s: Fs, m: nat)
    requires Shape(s)
  {
    forall k: nat :: !EntryAt(s, m, k)
  }

  /** A directory counts two entries exactly if it is empty, whatever its links. */
  lemma EmptyIffTwo(s: Fs, m: nat)
    requires TreeInv(s) && IsDir(s, m)
    ensures InodeOf(s, m).fileNum == 2 <==> Empty(s, m)
    ensures Empty(s, m) ==> DirCount(Dir(s, m), NUM_DENTRIES) == 0
  {
    hide Core, ZeroTails, TreeAt, Dir, DirShape, SlotShape;
    var depth :| TreeAt(s, depth);
    TreeLocal(s, depth, m);
    if InodeOf(s, m).fileNum == 2 {
      forall k: nat ensures !EntryAt(s, m, k) {
        EmptyHasNoEntry(s, m, k);
      }
    }
    if Empty(s, m) {
      forall j | 2 <= j < NUM_DENTRIES ensures Dir(s, m)[j].kind == 0 {
        assert !EntryAt(s, m, j);
      }
      DirCountBound(Dir(s, m), NUM_DENTRIES);
      DotsLive(Dir(s, m), m);
      CountFromTwo(Dir(s, m), NUM_DENTRIES);
    }
  }

  /** rmdir's test, two entries and one link, holds of a directory with right
      link counts exactly when it is empty. */
  lemma RemovableIffEmpty(s: Fs, m: nat)
    requires TreeInv(s) && IsDir(s, m) && LinksOk(s)
    ensures InodeOf(s, m).fileNum == 2 && InodeOf(s, m).links == 1 <==> Empty(s, m)
  {
    hide Tree, Core, ZeroTails, Dir, DirCount, Empty;
    EmptyIffTwo(s, m);
  }

  lemma DotsLive(ds: seq<Dentry>, m: nat)
    requires |ds| == NUM_DENTRIES && DirShape(ds, m)
    ensures ds[0].kind != 0 && ds[1].kind != 0
  {
  }

  // ---------- Directories under file input and output ----------

  /** Nothing a directory operation looks at differs between s and t. */
  ghost predicate SameDirs(s: Fs, t: Fs)
    requires Shape(s) && Shape(t)
  {
    && t.inodeMap == s.inodeMap
    && (forall j :: 0 <= j < NUM_INODES ==>
          InodeOf(t, j).kind == InodeOf(s, j).kind && InodeOf(t, j).links == InodeOf(s, j).links && InodeOf(t, j).fileNum == InodeOf(s, j).fileNum)
    && (forall d :: IsDir(s, d) ==> Dir(t, d) == Dir(s, d))
  }

  lemma SameDirsEntry(s: Fs, t: Fs, depth: seq<nat>, d: nat, k: nat)
    requires Shape(s) && Shape(t) && SameDirs(s, t) && TreeAt(s, depth)
    ensures EntryAt(t, d, k) == EntryAt(s, d, k) && (IsDir(t, d) <==> IsDir(s, d))
    ensures EntryAt(t, d, k) ==> Target(t, d, k) == Target(s, d, k) && EntryOk(t, depth, d, k)
    ensures IsDir(t, d) ==> LocalOk(t, d)
  {
    hide TreeAt, Dir, DirShape, LiveCount;
    if EntryAt(s, d, k) {
      TreeEntry(s, depth, d, k);
    }
    if IsDir(s, d) {
      TreeLocal(s, depth, d);
    }
  }

  lemma SameDirsTree(s: Fs, t: Fs, depth: seq<nat>)
    requires Shape(s) && Shape(t) && SameDirs(s, t) && TreeAt(s, depth)
    ensures TreeAt(t, depth)
  {
    hide Dir, EntryAt, EntryOk, LocalOk, Target;
    forall d: nat, k: nat
      ensures EntryAt(t, d, k) == EntryAt(s, d, k) && (IsDir(t, d) <==> IsDir(s, d))
      ensures EntryAt(t, d, k) ==> Target(t, d, k) == Target(s, d, k) && EntryOk(t, depth, d, k)
      ensures IsDir(t, d) ==> LocalOk(t, d)
    {
      SameDirsEntry(s, t, depth, d, k);
    }
    forall n | 0 < n < NUM_INODES && t.inodeMap[n] == 1 ensures HasEntry(t, n) {
      var d, k := TreeNamed(s, depth, n);
      assert EntryAt(t, d, k) && Target(t, d, k) == n;
    }
    TreeRoot(s, depth);
    assert Dir(t, 0)[1].ino == 0;
    forall d, k, e, j | EntryAt(t, d, k) && EntryAt(t, e, j) && Target(t, d, k) == Target(t, e, j)
      ensures d == e && k == j
    {
      TreeUnique(s, depth, d, k, e, j);
    }
    forall d | IsDir(t, d) ensures LocalOk(t, d) {
      SameDirsEntry(s, t, depth, d, 0);
    }
  }

  /** The block of a directory is determined by the bytes of the directory. */
  lemma SameBytesSameDir(s: Fs, t: Fs, d: nat)
    requires Core(s) && Core(t) && IsDir(s, d) && InodeOf(t, d) == InodeOf(s, d) && t.inodeMap == s.inodeMap
    requires SameBytes(s, t, d) && t.disk[0] == s.disk[0]
    ensures Dir(t, d) == Dir(s, d)
  {
    assert IsDir(t, d);
    DirBlockFacts(s, d);
    DirBlockFacts(t, d);
    var b := DirBlockId(s, d);
    if d != 0 {
      forall p | 0 <= p < BLOCK_SIZE ensures t.disk[b][p] == s.disk[b][p] {
        assert PageSlot(d, PageOf(p)) == Root(d, 0);
        assert ByteAt(t, d, p) == ByteAt(s, d, p);
      }
      assert t.disk[b] == s.disk[b];
    }
  }

  /** A write, or a seek past the end, leaves the whole tree as it was. */
  lemma WriteKeepsTree(s: Fs, t: Fs, i: nat, off: nat, d: seq<byte>)
    requires TreeInv(s) && Inv(t) && FileAt(s, i) && off + |d| < WORD_LIMIT && Spliced(s, t, i, off, d)
    ensures TreeInv(t) && SameDirs(s, t)
  {
    hide TreeAt, Dir, Core, ZeroTails;
    forall x | IsDir(s, x) ensures Dir(t, x) == Dir(s, x) {
      assert x != i && SameBytes(s, t, x);
      SameBytesSameDir(s, t, x);
    }
    var depth :| TreeAt(s, depth);
    SameDirsTree(s, t, depth);
  }

  /** So does a read, whatever blocks it allocates. */
  lemma ReadKeepsTree(s: Fs, t: Fs, i: nat)
    requires TreeInv(s) && Inv(t) && FileAt(s, i) && Extends(s, t, i)
    ensures TreeInv(t) && SameDirs(s, t)
  {
    hide TreeAt, Dir, Core, ZeroTails;
    forall x | IsDir(s, x) ensures Dir(t, x) == Dir(s, x) {
      assert x != i && SameBytes(s, t, x);
      SameBytesSameDir(s, t, x);
    }
    var depth :| TreeAt(s, depth);
    SameDirsTree(s, t, depth);
  }
}
