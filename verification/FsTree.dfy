/** The directory tree: creating and removing entries keeps it a tree, keeps
    the counters honest and keeps freed entries harmless. */
module FsTree {
  import opened Bytes
  import opened FsState
  import opened FsFile
  import opened FsInvariant
  import opened FsDirectory
  import opened FsDirOps

  // ---------- One directory's entries ----------

  ghost predicate FirstFree(ds: seq<Dentry>, i: nat) {
    i < |ds| && ds[i].kind == 0 && forall j :: 0 <= j < i ==> ds[j].kind != 0
  }

  /** The first-fit slot keeps every freed copy of an inode number behind the
      entry that uses it, and keeps names unique within a kind. */
  lemma DirShapeInsert(ds: seq<Dentry>, d: nat, i: nat, m: nat, kind: nat, name: seq<byte>)
    requires |ds| == NUM_DENTRIES && DirShape(ds, d) && FirstFree(ds, i)
    requires m < NUM_INODES && (kind == I_DIR || kind == I_FILE) && GoodName(name)
    requires forall k :: 0 <= k < NUM_DENTRIES && ds[k].kind != 0 ==> ds[k].ino != m
    requires Missing(ds, kind, name, NUM_DENTRIES)
    ensures i >= 2 && DirShape(ds[i := Dentry(kind, m, Padded(name))], d)
  {
    var e := Dentry(kind, m, Padded(name));
    NewName(ds, kind, name);
    hide Missing, Padded, SlotShape;
    assert SlotShape(e) by { NameFits(kind, m, name); }
  }

  lemma NameFits(kind: nat, m: nat, name: seq<byte>)
    requires m < NUM_INODES && (kind == I_DIR || kind == I_FILE) && GoodName(name)
    ensures SlotShape(Dentry(kind, m, Padded(name)))
  {
  }

  lemma NewName(ds: seq<Dentry>, kind: nat, name: seq<byte>)
    requires |ds| == NUM_DENTRIES && (kind == I_DIR || kind == I_FILE) && GoodName(name) && Missing(ds, kind, name, NUM_DENTRIES)
    ensures forall j :: 0 <= j < NUM_DENTRIES && ds[j].kind == kind ==> ds[j].name != Padded(name)
  {
    hide Padded, CString, GoodName;
    CStringOfPadded(name);
    assert Matches(kind, kind);
  }

  lemma DirShapeDrop(ds: seq<Dentry>, d: nat, k: nat)
    requires |ds| == NUM_DENTRIES && DirShape(ds, d) && 2 <= k < NUM_DENTRIES && ds[k].kind != 0
    ensures DirShape(ds[k := Dentry(0, ds[k].ino, NoName())], d)
  {
    assert SlotShape(ds[k]);
    assert GoodName([]) && Padded([]) == NoName();
  }

  /** No entry before k has the inode number of entry k. */
  ghost predicate FirstOf(ds: seq<Dentry>, k: nat) {
    k < |ds| && forall j :: 0 <= j < k ==> ds[j].ino != ds[k].ino
  }

  /** A search by inode number alone, blind to the kind, meets the entry in use first. */
  lemma FirstByInode(ds: seq<Dentry>, d: nat, k: nat)
    requires |ds| == NUM_DENTRIES && DirShape(ds, d) && 2 <= k < NUM_DENTRIES && ds[k].kind != 0
    ensures FirstOf(ds, k)
  {
  }

  ghost function FreshSlots(parent: nat, m: nat): (ds: seq<Dentry>)
    ensures |ds| == NUM_DENTRIES
  {
    [Dentry(I_DIR, m, Padded(DOT)), Dentry(I_DIR, parent, Padded(DOT + DOT))] +
    seq(NUM_DENTRIES - 2, _ => Dentry(0, 0, NoName()))
  }

  lemma {:induction false} CountFromTwo(ds: seq<Dentry>, k: nat)
    requires 2 <= k <= |ds| && ds[0].kind != 0 && ds[1].kind != 0
    requires forall j :: 2 <= j < |ds| ==> ds[j].kind == 0
    ensures LiveCount(ds, k) == 2
  {
    if k > 2 {
      CountFromTwo(ds, k - 1);
    } else {
      assert LiveCount(ds, 1) == 1 by { assert LiveCount(ds, 0) == 0; }
    }
  }

  lemma FreshShape(parent: nat, m: nat)
    requires parent < NUM_INODES && m < NUM_INODES
    ensures DirShape(FreshSlots(parent, m), m) && LiveCount(FreshSlots(parent, m), NUM_DENTRIES) == 2
  {
    var ds := FreshSlots(parent, m);
    assert GoodName([]) && Padded([]) == NoName();
    assert GoodName(DOT) && GoodName(DOT + DOT);
    assert Padded(DOT)[1] != Padded(DOT + DOT)[1];
    CountFromTwo(ds, NUM_DENTRIES);
  }

  // ---------- Creating ----------

  /** From s to t the free inode m came to life as a node of kind e.kind and
      directory d got entry i for it; nothing else any directory shows changed. */
  ghost predicate Inserted(s: Fs, t: Fs, d: nat, m: nat, i: nat, e: Dentry)
    requires Shape(s) && Shape(t)
  {
    && IsDir(s, d) && 0 < m < NUM_INODES && s.inodeMap[m] == 0 && i < NUM_DENTRIES && e.ino == m
    && (e.kind == I_DIR || e.kind == I_FILE)
    && t.inodeMap == s.inodeMap[m := 1]
    && (forall j :: 0 <= j < NUM_INODES && j != d && j != m ==> InodeOf(t, j) == InodeOf(s, j))
    && InodeOf(t, d).kind == I_DIR && InodeOf(t, d).fileNum == Increment(InodeOf(s, d).fileNum)
    && InodeOf(t, m).kind == e.kind && InodeOf(t, m).links == 1
    && (forall x :: IsDir(s, x) ==> Dir(t, x) == if x == d then Dir(s, d)[i := e] else Dir(s, x))
    && (e.kind == I_DIR ==> Dir(t, m) == FreshSlots(d, m) && InodeOf(t, m).fileNum == 2)
  }

  lemma ParentLive(s: Fs, depth: seq<nat>, d: nat)
    requires Shape(s) && TreeAt(s, depth) && IsDir(s, d)
    ensures |depth| == NUM_INODES && Dir(s, d)[1].ino < NUM_INODES && IsDir(s, Dir(s, d)[1].ino)
    ensures d != 0 ==> depth[d] == depth[Dir(s, d)[1].ino] + 1
  {
    hide TreeAt, Dir, LocalOk;
    TreeRoot(s, depth);
    if d != 0 {
      var e, k := TreeNamed(s, depth, d);
      TreeEntry(s, depth, e, k);
    }
  }

  lemma FreshTarget(s: Fs, depth: seq<nat>, d: nat, m: nat, k: nat)
    requires Shape(s) && TreeAt(s, depth) && IsDir(s, d) && m < NUM_INODES && s.inodeMap[m] == 0 && k < NUM_DENTRIES
    ensures Dir(s, d)[k].kind != 0 ==> Dir(s, d)[k].ino != m
  {
    hide TreeAt, Dir;
    TreeLocal(s, depth, d);
    ParentLive(s, depth, d);
    if 2 <= k && Dir(s, d)[k].kind != 0 {
      TreeEntry(s, depth, d, k);
    }
  }

  lemma InsertedLocal(s: Fs, t: Fs, depth: seq<nat>, d: nat, m: nat, i: nat, kind: nat, name: seq<byte>, x: nat)
    requires Shape(s) && Shape(t) && TreeAt(s, depth) && GoodName(name)
    requires Inserted(s, t, d, m, i, Dentry(kind, m, Padded(name)))
    requires FirstFree(Dir(s, d), i) && Missing(Dir(s, d), kind, name, NUM_DENTRIES)
    requires IsDir(t, x)
    ensures LocalOk(t, x)
  {
    hide TreeAt, Dir, DirShape, LiveCount, Missing, Padded;
    if x == m {
      FreshShape(d, m);
    } else {
      TreeLocal(s, depth, x);
      if x == d {
        forall k | 0 <= k < NUM_DENTRIES && Dir(s, d)[k].kind != 0 ensures Dir(s, d)[k].ino != m {
          FreshTarget(s, depth, d, m, k);
        }
        DirShapeInsert(Dir(s, d), d, i, m, kind, name);
        LiveCountPut(Dir(s, d), i, Dentry(kind, m, Padded(name)), NUM_DENTRIES);
      }
    }
  }

  /** The entries after an insertion are the entries before it and the new one. */
  lemma InsertedEntries(s: Fs, t: Fs, d: nat, m: nat, i: nat, e: Dentry, x: nat, k: nat)
    requires Shape(s) && Shape(t) && Inserted(s, t, d, m, i, e) && 2 <= i && Dir(s, d)[i].kind == 0
    ensures EntryAt(t, x, k) <==> EntryAt(s, x, k) || (x == d && k == i)
    ensures EntryAt(s, x, k) ==> Target(t, x, k) == Target(s, x, k)
    ensures EntryAt(t, d, i) && Target(t, d, i) == m
  {
    hide Dir;
    if x == m && IsDir(t, m) {
      assert forall j :: 2 <= j < NUM_DENTRIES ==> FreshSlots(d, m)[j].kind == 0;
    }
  }

  lemma InsertedEntryOk(s: Fs, t: Fs, depth: seq<nat>, d: nat, m: nat, i: nat, e: Dentry, x: nat, k: nat)
    requires Shape(s) && Shape(t) && TreeAt(s, depth)
    requires Inserted(s, t, d, m, i, e) && 2 <= i && Dir(s, d)[i].kind == 0
    requires EntryAt(t, x, k)
    ensures |depth| == NUM_INODES && EntryOk(t, depth[m := depth[d] + 1], x, k)
  {
    hide TreeAt, Dir;
    TreeRoot(s, depth);
    InsertedEntries(s, t, d, m, i, e, x, k);
    if !(x == d && k == i) {
      TreeEntry(s, depth, x, k);
    }
  }

  /** The parts of a tree, put together. */
  lemma TreeOf(s: Fs, depth: seq<nat>)
    requires Shape(s) && |depth| == NUM_INODES && depth[0] == 0 && IsDir(s, 0) && Dir(s, 0)[1].ino == 0
    requires forall d :: IsDir(s, d) ==> LocalOk(s, d)
    requires forall d, k :: EntryAt(s, d, k) ==> EntryOk(s, depth, d, k)
    requires forall d, k, e, j :: EntryAt(s, d, k) && EntryAt(s, e, j) && Target(s, d, k) == Target(s, e, j) ==> d == e && k == j
    requires forall m :: 0 < m < NUM_INODES && s.inodeMap[m] == 1 ==> HasEntry(s, m)
    ensures TreeAt(s, depth)
  {
    hide Dir, LocalOk, EntryAt, EntryOk, Target, IsDir, HasEntry;
  }

  lemma InsertKeepsTree(s: Fs, t: Fs, depth: seq<nat>, d: nat, m: nat, i: nat, kind: nat, name: seq<byte>)
    requires Shape(s) && Shape(t) && TreeAt(s, depth) && GoodName(name)
    requires Inserted(s, t, d, m, i, Dentry(kind, m, Padded(name)))
    requires FirstFree(Dir(s, d), i) && Missing(Dir(s, d), kind, name, NUM_DENTRIES)
    ensures |depth| == NUM_INODES && TreeAt(t, depth[m := depth[d] + 1])
  {
    TreeRoot(s, depth);
    assert 0 < m < NUM_INODES && d < NUM_INODES && Dir(s, d)[i].kind == 0;
    hide TreeAt, Inserted, IsDir, Dir, LocalOk, EntryAt, EntryOk, Target, HasEntry, Missing, FirstFree, Padded;
    var e := Dentry(kind, m, Padded(name));
    var dep := depth[m := depth[d] + 1];
    InsertSlot(s, depth, d, i);
    InsertedRoot(s, t, depth, d, m, i, e);
    forall x | IsDir(t, x) ensures LocalOk(t, x) {
      InsertedLocal(s, t, depth, d, m, i, kind, name, x);
    }
    forall x, k | EntryAt(t, x, k) ensures EntryOk(t, dep, x, k) {
      InsertedEntryOk(s, t, depth, d, m, i, e, x, k);
    }
    forall x, k, y, j | EntryAt(t, x, k) && EntryAt(t, y, j) && Target(t, x, k) == Target(t, y, j)
      ensures x == y && k == j
    {
      InsertedUnique(s, t, depth, d, m, i, e, x, k, y, j);
    }
    forall n | 0 < n < NUM_INODES && t.inodeMap[n] == 1 ensures HasEntry(t, n) {
      InsertedNamed(s, t, depth, d, m, i, e, n);
    }
    TreeOf(t, dep);
  }

  lemma InsertedRoot(s: Fs, t: Fs, depth: seq<nat>, d: nat, m: nat, i: nat, e: Dentry)
    requires Shape(s) && Shape(t) && TreeAt(s, depth) && Inserted(s, t, d, m, i, e) && 2 <= i
    ensures IsDir(t, 0) && Dir(t, 0)[1].ino == 0
  {
    hide TreeAt, Dir;
    TreeRoot(s, depth);
  }

  lemma InsertSlot(s: Fs, depth: seq<nat>, d: nat, i: nat)
    requires Shape(s) && TreeAt(s, depth) && IsDir(s, d) && FirstFree(Dir(s, d), i)
    ensures 2 <= i
  {
    hide TreeAt, Dir;
    TreeLocal(s, depth, d);
  }

  lemma InsertedUnique(s: Fs, t: Fs, depth: seq<nat>, d: nat, m: nat, i: nat, e: Dentry, x: nat, k: nat, y: nat, j: nat)
    requires Shape(s) && Shape(t) && TreeAt(s, depth)
    requires Inserted(s, t, d, m, i, e) && 2 <= i && Dir(s, d)[i].kind == 0
    requires EntryAt(t, x, k) && EntryAt(t, y, j) && Target(t, x, k) == Target(t, y, j)
    ensures x == y && k == j
  {
    hide TreeAt, Dir, EntryAt, Target, Inserted;
    InsertedEntries(s, t, d, m, i, e, x, k);
    InsertedEntries(s, t, d, m, i, e, y, j);
    if EntryAt(s, x, k) { InsertedOther(s, t, depth, d, m, i, e, x, k); }
    if EntryAt(s, y, j) { InsertedOther(s, t, depth, d, m, i, e, y, j); }
    if EntryAt(s, x, k) && EntryAt(s, y, j) { TreeUnique(s, depth, x, k, y, j); }
  }

  lemma InsertedOther(s: Fs, t: Fs, depth: seq<nat>, d: nat, m: nat, i: nat, e: Dentry, x: nat, k: nat)
    requires Shape(s) && Shape(t) && TreeAt(s, depth) && Inserted(s, t, d, m, i, e) && EntryAt(s, x, k)
    ensures Target(s, x, k) != m
  {
    hide TreeAt, Dir;
    TreeEntry(s, depth, x, k);
  }

  lemma InsertedNamed(s: Fs, t: Fs, depth: seq<nat>, d: nat, m: nat, i: nat, e: Dentry, n: nat)
    requires Shape(s) && Shape(t) && TreeAt(s, depth)
    requires Inserted(s, t, d, m, i, e) && 2 <= i && Dir(s, d)[i].kind == 0
    requires 0 < n < NUM_INODES && t.inodeMap[n] == 1
    ensures HasEntry(t, n)
  {
    hide TreeAt, Dir;
    var x, k := d, i;
    if n != m {
      x, k := TreeNamed(s, depth, n);
    }
    InsertedEntries(s, t, d, m, i, e, x, k);
    assert EntryAt(t, x, k) && Target(t, x, k) == n;
  }

  // ---------- Removing ----------

  /** From s to t inode m died and entry k of directory d, which named it, was
      marked free but kept its inode number. */
  ghost predicate Removed(s: Fs, t: Fs, d: nat, m: nat, k: nat)
    requires Shape(s) && Shape(t)
  {
    && EntryAt(s, d, k) && Target(s, d, k) == m && 0 < m < NUM_INODES && m != d && s.inodeMap[m] == 1
    && (IsDir(s, m) ==> InodeOf(s, m).fileNum == 2)
    && t.inodeMap == s.inodeMap[m := 0]
    && (forall j :: 0 <= j < NUM_INODES && j != d && j != m ==> InodeOf(t, j) == InodeOf(s, j))
    && InodeOf(t, d).kind == I_DIR && InodeOf(t, d).fileNum == Decrement(InodeOf(s, d).fileNum)
    && InodeOf(t, m) == ZeroInode()
    && (forall x :: IsDir(s, x) && x != m ==>
          Dir(t, x) == if x == d then Dir(s, d)[k := Dentry(0, m, NoName())] else Dir(s, x))
  }

  /** An empty directory has no entry beyond the dots. */
  lemma EmptyHasNoEntry(s: Fs, m: nat, k: nat)
    requires Shape(s) && IsDir(s, m) && LocalOk(s, m) && InodeOf(s, m).fileNum == 2
    ensures !EntryAt(s, m, k)
  {
    hide Dir;
    var ds := Dir(s, m);
    assert LiveCount(ds, 2) == 2 by {
      assert LiveCount(ds, 0) == 0 && LiveCount(ds, 1) == 1;
    }
    LiveCountMonotone(ds, 2, NUM_DENTRIES);
  }

  lemma RemovedEntries(s: Fs, t: Fs, depth: seq<nat>, d: nat, m: nat, k: nat, x: nat, j: nat)
    requires Shape(s) && Shape(t) && TreeAt(s, depth) && Removed(s, t, d, m, k)
    ensures EntryAt(t, x, j) <==> EntryAt(s, x, j) && !(x == d && j == k)
    ensures EntryAt(t, x, j) ==> Target(t, x, j) == Target(s, x, j) != m
  {
    hide TreeAt, Dir, LocalOk;
    if IsDir(s, m) {
      TreeLocal(s, depth, m);
      EmptyHasNoEntry(s, m, j);
    }
    if EntryAt(s, x, j) {
      TreeUnique(s, depth, x, j, d, k);
    }
  }

  lemma RemovedLocal(s: Fs, t: Fs, depth: seq<nat>, d: nat, m: nat, k: nat, x: nat)
    requires Shape(s) && Shape(t) && TreeAt(s, depth) && Removed(s, t, d, m, k) && IsDir(t, x)
    ensures LocalOk(t, x)
  {
    hide TreeAt, Dir, DirShape, LiveCount;
    TreeLocal(s, depth, x);
    if x == d {
      DirShapeDrop(Dir(s, d), d, k);
      LiveCountPut(Dir(s, d), k, Dentry(0, m, NoName()), NUM_DENTRIES);
    }
  }

  lemma RemovedEntryOk(s: Fs, t: Fs, depth: seq<nat>, d: nat, m: nat, k: nat, x: nat, j: nat)
    requires Shape(s) && Shape(t) && TreeAt(s, depth) && Removed(s, t, d, m, k) && EntryAt(t, x, j)
    ensures |depth| == NUM_INODES && EntryOk(t, depth, x, j)
  {
    hide TreeAt, Dir;
    RemovedEntries(s, t, depth, d, m, k, x, j);
    TreeEntry(s, depth, x, j);
  }

  lemma RemoveKeepsTree(s: Fs, t: Fs, depth: seq<nat>, d: nat, m: nat, k: nat)
    requires Shape(s) && Shape(t) && TreeAt(s, depth) && Removed(s, t, d, m, k)
    ensures TreeAt(t, depth)
  {
    RemovedRoot(s, t, depth, d, m, k);
    forall x | IsDir(t, x) ensures LocalOk(t, x) {
      RemovedLocal(s, t, depth, d, m, k, x);
    }
    forall x, j | EntryAt(t, x, j) ensures EntryOk(t, depth, x, j) {
      RemovedEntryOk(s, t, depth, d, m, k, x, j);
    }
    forall x, i, y, j | EntryAt(t, x, i) && EntryAt(t, y, j) && Target(t, x, i) == Target(t, y, j)
      ensures x == y && i == j
    {
      RemovedEntries(s, t, depth, d, m, k, x, i);
      RemovedEntries(s, t, depth, d, m, k, y, j);
      TreeUnique(s, depth, x, i, y, j);
    }
    forall n | 0 < n < NUM_INODES && t.inodeMap[n] == 1 ensures HasEntry(t, n) {
      RemovedNamed(s, t, depth, d, m, k, n);
    }
  }

  lemma RemovedRoot(s: Fs, t: Fs, depth: seq<nat>, d: nat, m: nat, k: nat)
    requires Shape(s) && Shape(t) && TreeAt(s, depth) && Removed(s, t, d, m, k)
    ensures |depth| == NUM_INODES && depth[0] == 0 && IsDir(t, 0) && Dir(t, 0)[1].ino == 0
  {
    hide TreeAt, Dir;
    TreeRoot(s, depth);
  }

  lemma RemovedNamed(s: Fs, t: Fs, depth: seq<nat>, d: nat, m: nat, k: nat, n: nat)
    requires Shape(s) && Shape(t) && TreeAt(s, depth) && Removed(s, t, d, m, k)
    requires 0 < n < NUM_INODES && t.inodeMap[n] == 1
    ensures HasEntry(t, n)
  {
    hide TreeAt, Dir;
    var x, j := TreeNamed(s, depth, n);
    RemovedEntries(s, t, depth, d, m, k, x, j);
    assert EntryAt(t, x, j) && Target(t, x, j) == n;
  }

  // ---------- A tree rooted at inode 0 ----------

  /** The directory reached from d by n steps through "..". */
  ghost function Up(s: Fs, d: nat, n: nat): nat
    requires Shape(s)
    decreases n
  {
    if n == 0 || d >= NUM_INODES then d else Up(s, Dir(s, d)[1].ino, n - 1)
  }

  /** From every live directory "..", followed often enough, leads to the root. */
  lemma {:induction false} RootReached(s: Fs, depth: seq<nat>, d: nat)
    requires Shape(s) && TreeAt(s, depth) && IsDir(s, d)
    ensures |depth| == NUM_INODES && Up(s, d, depth[d]) == 0
    decreases if |depth| == NUM_INODES then depth[d] else 0
  {
    hide TreeAt, Dir;
    TreeRoot(s, depth);
    ParentLive(s, depth, d);
    if d != 0 {
      RootReached(s, depth, Dir(s, d)[1].ino);
    }
  }
}
