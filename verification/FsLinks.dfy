/** Link counts over histories, and exactly when rmdir accepts a directory. */
module FsLinks {
  import opened Bytes
  import opened FsState
  import opened FsFile
  import opened FsInvariant
  import opened FsDirectory
  import opened FsDirOps
  import opened FsTree
  import opened FsHistory
  import opened FileSystems
  import opened DirectoryOps
  import opened FsRuns

  // ---------- The test of rmdir ----------

  /** An entry that is a directory of this name is the one a search finds. */
  lemma NamedHit(ds: seq<Dentry>, d: nat, k: nat, name: seq<byte>)
    requires |ds| == NUM_DENTRIES && DirShape(ds, d) && k < NUM_DENTRIES && ds[k].kind == I_DIR && CString(ds[k].name) == name
    ensures forall j: nat :: Hit(ds, I_DIR, name, j) <==> j == k
  {
    forall j: nat | j < NUM_DENTRIES && Matches(ds[j].kind, I_DIR) && CString(ds[j].name) == name ensures j == k {
      assert SlotShape(ds[j]);
      NamesDiffer(ds, d, k, j);
    }
  }

  /** rmdir accepts the directory a name leads to exactly if it is empty and has
      one link: link counts may be wrong, and then an empty one is refused. */
  lemma RmdirIff(s: Fs, d: nat, k: nat, name: seq<byte>)
    requires TreeInv(s) && EntryAt(s, d, k) && Dir(s, d)[k].kind == I_DIR && CString(Dir(s, d)[k].name) == name
    ensures Target(s, d, k) < NUM_INODES
    ensures Removable(s, d, name) <==> Empty(s, Target(s, d, k)) && InodeOf(s, Target(s, d, k)).links == 1
  {
    hide Core, ZeroTails, TreeAt, Dir, DirShape, CString, Hit, Empty;
    var depth :| TreeAt(s, depth);
    TreeEntry(s, depth, d, k);
    TreeLocal(s, depth, d);
    KindOfEntry(s, depth, d, k);
    NamedHit(Dir(s, d), d, k, name);
    EmptyIffTwo(s, Target(s, d, k));
    assert Hit(Dir(s, d), I_DIR, name, k);
  }

  // ---------- Link counts over histories ----------

  /** Directory d has a link of its own and one for each directory in it, less n. */
  ghost predicate Owes(s: Fs, d: nat, n: int)
    requires Shape(s)
  {
    d < NUM_INODES && InodeOf(s, d).links == (1 + DirCount(Dir(s, d), NUM_DENTRIES) - n) % WORD_LIMIT
  }

  lemma OwesNothing(s: Fs, d: nat)
    requires Shape(s) && LinksOk(s) && IsDir(s, d)
    ensures Owes(s, d, 0)
  {
    DirCountBound(Dir(s, d), NUM_DENTRIES);
  }

  lemma InsertOwes(s: Fs, d: nat, m: nat, b: nat, i: nat, kind: nat, name: seq<byte>, x: nat, n: int)
    requires TreeInv(s) && CanInsert(s, d, m, b, i, kind, name)
    requires IsDir(Insert(s, d, m, b, i, kind, name), x) && (x != m ==> Owes(s, x, n))
    ensures Owes(Insert(s, d, m, b, i, kind, name), x, if x == m then 0 else n)
    ensures IsDir(s, x) <==> x != m
    ensures x == m ==> kind == I_DIR
  {
    hide Core, ZeroTails, TreeAt, Dir, FilesKept, Missing, Insert, DirCount;
    var t := Insert(s, d, m, b, i, kind, name);
    InsertIsInserted(s, d, m, b, i, kind, name);
    InsertRecords(s, d, m, b, i, kind, name);
    RoundTripEntry(s, t, d, m, i, Dentry(kind, m, Padded(name)));
    DirCountPut(Dir(s, d), i, Dentry(kind, m, Padded(name)), NUM_DENTRIES);
    DirCountBound(FreshSlots(d, m), NUM_DENTRIES);
    UpOne(InodeOf(s, d).links, 1 + DirCount(Dir(s, d), NUM_DENTRIES) - n);
  }

  lemma UpOne(links: nat, x: int)
    ensures links == x % WORD_LIMIT ==> Increment(links) == (x + 1) % WORD_LIMIT && Decrement(links) == (x - 1) % WORD_LIMIT
  {
    if links == x % WORD_LIMIT {
      var q := x / WORD_LIMIT;
      assert x == q * WORD_LIMIT + links;
      if links == WORD_LIMIT - 1 { assert x + 1 == (q + 1) * WORD_LIMIT; }
      if links == 0 { assert x - 1 == (q - 1) * WORD_LIMIT + (WORD_LIMIT - 1); }
    }
  }

  lemma RemoveOwes(s: Fs, d: nat, k: nat, m: nat, x: nat, n: int)
    requires TreeInv(s) && CanRemove(s, d, k, m)
    requires IsDir(Remove(s, d, k, m), x) && Owes(s, x, n)
    ensures x != m && IsDir(s, x) && Owes(Remove(s, d, k, m), x, if x == d && !IsDir(s, m) then n + 1 else n)
  {
    hide Core, ZeroTails, TreeAt, Dir, Remove, OtherFilesKept, DirCount;
    var t := Remove(s, d, k, m);
    RemoveTree(s, d, k, m);
    RemoveRecords(s, d, k, m);
    var depth :| TreeAt(s, depth);
    TreeEntry(s, depth, d, k);
    DirCountPut(Dir(s, d), k, Dentry(0, m, NoName()), NUM_DENTRIES);
    KindOfEntry(s, depth, d, k);
    UpOne(InodeOf(s, d).links, 1 + DirCount(Dir(s, d), NUM_DENTRIES) - n);
  }

  lemma SameOwes(s: Fs, t: Fs, x: nat, n: int)
    requires Shape(s) && Shape(t) && SameDirs(s, t) && IsDir(t, x) && Owes(s, x, n)
    ensures IsDir(s, x) && Owes(t, x, n)
  {
    hide Dir, DirCount;
  }

  /** How many files were removed from directory d since it was made. */
  function Lost(ops: seq<Op>, d: nat): (n: nat)
    ensures n <= |ops|
  {
    if ops == [] then 0 else
    var op := ops[|ops| - 1];
    if op.Create? && op.link.kind == I_DIR && op.link.ino == d then 0
    else Lost(ops[..|ops| - 1], d) + if op.Delete? && op.link.kind == I_FILE && op.link.dir == d then 1 else 0
  }

  /** One call: a directory that is there after it was there before it, or was made by it. */
  lemma CallOwes(s: Fs, op: Op, t: Fs, d: nat, n: int)
    requires TreeInv(s) && Called(s, op, t) && IsDir(t, d) && (IsDir(s, d) ==> Owes(s, d, n))
    ensures
      var made := op.Create? && op.link.kind == I_DIR && op.link.ino == d;
      && (made || IsDir(s, d))
      && Owes(t, d, if made then 0 else n + if op.Delete? && op.link.kind == I_FILE && op.link.dir == d then 1 else 0)
  {
    hide Core, ZeroTails, Tree, Insert, Remove, Dir, Spliced, ReadOk, Owes, CanInsert, Hit, SameDirs, FilesKept;
    match op
    case Read(i, off, data) => ReadCall(s, t, i, off, data); SameDir(s, t, d); SameOwes(s, t, d, n);
    case Write(i, off, data) => WriteKeepsTree(s, t, i, off, data); SameDir(s, t, d); SameOwes(s, t, d, n);
    case Seek(i, to) =>
      if to > InodeOf(s, i).size { WriteKeepsTree(s, t, i, to, []); SameDir(s, t, d); SameOwes(s, t, d, n); }
    case Create(l) =>
      var b: nat, i: nat :| CanInsert(s, l.dir, l.ino, b, i, l.kind, l.name) && t == Insert(s, l.dir, l.ino, b, i, l.kind, l.name);
      NewDir(s, t, l.dir, l.ino, b, i, l.kind, l.name, d);
      InsertOwes(s, l.dir, l.ino, b, i, l.kind, l.name, d, n);
    case Delete(l) =>
      var k: nat :| CanRemove(s, l.dir, k, l.ino) && Hit(Dir(s, l.dir), l.kind, l.name, k) && t == Remove(s, l.dir, k, l.ino)
        && InodeOf(s, l.ino).kind == l.kind;
      OldDir(s, t, l.dir, k, l.ino, d);
      LiveKind(s, l.ino);
      RemoveOwes(s, l.dir, k, l.ino, d, n);
  }

  lemma ReadCall(s: Fs, t: Fs, i: nat, off: nat, data: seq<byte>)
    requires TreeInv(s) && Inv(t) && FileAt(s, i) && ReadOk(s, t, i, off, data)
    ensures TreeInv(t) && SameDirs(s, t)
  {
    hide Core, ZeroTails, Tree, Extends, SameDirs;
    ReadKeepsTree(s, t, i);
  }

  lemma SameDir(s: Fs, t: Fs, d: nat)
    requires Shape(s) && Shape(t) && SameDirs(s, t)
    ensures IsDir(t, d) <==> IsDir(s, d)
  {
    hide Dir;
  }

  lemma NewDir(s: Fs, t: Fs, d: nat, m: nat, b: nat, i: nat, kind: nat, name: seq<byte>, x: nat)
    requires Inv(s) && CanInsert(s, d, m, b, i, kind, name) && Shape(t) && t == Insert(s, d, m, b, i, kind, name) && IsDir(t, x)
    ensures x != m ==> IsDir(s, x)
  {
    hide Core, ZeroTails, Insert, Dir, Missing;
    InsertRecords(s, d, m, b, i, kind, name);
  }

  lemma OldDir(s: Fs, t: Fs, d: nat, k: nat, m: nat, x: nat)
    requires Inv(s) && CanRemove(s, d, k, m) && Shape(t) && t == Remove(s, d, k, m) && IsDir(t, x)
    ensures IsDir(s, x)
  {
    hide Core, ZeroTails, Remove, Dir;
    RemoveRecords(s, d, k, m);
  }

  lemma LiveKind(s: Fs, m: nat)
    requires Core(s) && m < NUM_INODES && s.inodeMap[m] == 1
    ensures InodeOf(s, m).kind == I_DIR || InodeOf(s, m).kind == I_FILE
    ensures IsDir(s, m) <==> InodeOf(s, m).kind == I_DIR
  {
    assert Record(s, m);
  }

  lemma HistoryFront(ss: seq<Fs>, ops: seq<Op>)
    requires History(ss, ops) && ops != []
    ensures History(ss[..|ops|], ops[..|ops| - 1]) && Called(ss[|ops| - 1], ops[|ops| - 1], ss[|ops|])
  {
    hide Called;
    forall k | 0 <= k < |ops| - 1 ensures Called(ss[..|ops|][k], ops[..|ops| - 1][k], ss[..|ops|][k + 1]) {
      assert Called(ss[k], ops[k], ss[k + 1]);
    }
  }

  /** Over any history from right link counts, each directory has one link, and one
      more for each directory in it, less one for each file removed from it. */
  lemma {:induction false} HistoryLinks(ss: seq<Fs>, ops: seq<Op>, d: nat)
    requires History(ss, ops) && TreeInv(ss[0]) && LinksOk(ss[0])
    ensures TreeInv(ss[|ops|]) && (IsDir(ss[|ops|], d) ==> Owes(ss[|ops|], d, Lost(ops, d)))
    decreases |ops|
  {
    hide Tree, Core, ZeroTails, Called, LinksOk, Owes, Dir;
    if ops == [] {
      if IsDir(ss[0], d) { OwesNothing(ss[0], d); }
    } else {
      var n := |ops| - 1;
      HistoryFront(ss, ops);
      HistoryLinks(ss[..n + 1], ops[..n], d);
      CallRefines(ss[n], ops[n], ss[n + 1]);
      if IsDir(ss[n + 1], d) { CallOwes(ss[n], ops[n], ss[n + 1], d, Lost(ops[..n], d)); }
    }
  }

  /** Over any history from right link counts, rmdir accepts an empty directory
      exactly if as many files were removed from it as the count wraps around at. */
  lemma HistoryRmdir(ss: seq<Fs>, ops: seq<Op>, d: nat, k: nat, name: seq<byte>)
    requires History(ss, ops) && TreeInv(ss[0]) && LinksOk(ss[0]) && Shape(ss[|ops|])
    requires EntryAt(ss[|ops|], d, k) && Dir(ss[|ops|], d)[k].kind == I_DIR && CString(Dir(ss[|ops|], d)[k].name) == name
    requires Empty(ss[|ops|], Target(ss[|ops|], d, k))
    ensures Removable(ss[|ops|], d, name) <==> Lost(ops, Target(ss[|ops|], d, k)) % WORD_LIMIT == 0
  {
    hide Core, ZeroTails, Tree, Called, Lost, Removable, CString, LinksOk, Dir;
    var s := ss[|ops|];
    var m := Target(s, d, k);
    HistoryLinks(ss, ops, m);
    RmdirIff(s, d, k, name);
    EntryIsDir(s, d, k);
    EmptyIffTwo(s, m);
    var n := Lost(ops, m);
    assert InodeOf(s, m).links == (1 - n) % WORD_LIMIT;
    WrapsAround(n);
  }

  lemma WrapsAround(n: nat)
    ensures (1 - n) % WORD_LIMIT == 1 <==> n % WORD_LIMIT == 0
  {
    var q := n / WORD_LIMIT;
    assert n == q * WORD_LIMIT + n % WORD_LIMIT;
    if n % WORD_LIMIT == 0 { assert 1 - n == (-q) * WORD_LIMIT + 1; }
    else if n % WORD_LIMIT == 1 { assert 1 - n == (-q) * WORD_LIMIT; }
    else { assert 1 - n == (-q - 1) * WORD_LIMIT + (WORD_LIMIT + 1 - n % WORD_LIMIT); }
  }

  lemma EntryIsDir(s: Fs, d: nat, k: nat)
    requires TreeInv(s) && EntryAt(s, d, k) && Dir(s, d)[k].kind == I_DIR
    ensures IsDir(s, Target(s, d, k))
  {
    hide Core, ZeroTails, TreeAt, Dir;
    var depth :| TreeAt(s, depth);
    KindOfEntry(s, depth, d, k);
  }

  // ---------- An empty directory that rmdir refuses ----------

  /** mkdir of a directory, touch of a file in it, rm of that file: the directory
      is empty, has no link left, and rmdir refuses it. */
  lemma RefusedAfterRm(s: Fs, d: nat, m: nat, b: nat, i: nat, name: seq<byte>, n: nat, c: nat, j: nat, file: seq<byte>)
    requires TreeInv(s) && CanInsert(s, d, m, b, i, I_DIR, name)
    requires CanInsert(Insert(s, d, m, b, i, I_DIR, name), m, n, c, j, I_FILE, file)
    ensures
      var t := Insert(s, d, m, b, i, I_DIR, name);
      CanRemove(Insert(t, m, n, c, j, I_FILE, file), m, j, n) &&
      var u := Remove(Insert(t, m, n, c, j, I_FILE, file), m, j, n);
      TreeInv(u) && IsDir(u, m) && Empty(u, m) && InodeOf(u, m).links == 0 && !Removable(u, d, name)
  {
    hide Core, ZeroTails, Tree, Insert, Remove, Dir, Missing, Inserted, Removed, Removable, CString, Empty, Padded;
    var e := Dentry(I_DIR, m, Padded(name));
    var t := Insert(s, d, m, b, i, I_DIR, name);
    InsertTree(s, d, m, b, i, I_DIR, name);
    InsertRecords(s, d, m, b, i, I_DIR, name);
    InsertIsInserted(s, d, m, b, i, I_DIR, name);
    RoundTripEntry(s, t, d, m, i, e);
    NewEntry(s, t, d, m, i, e);
    RoundTrip(t, m, n, c, j, I_FILE, file);
    var v := Insert(t, m, n, c, j, I_FILE, file);
    InsertTree(t, m, n, c, j, I_FILE, file);
    InsertRecords(t, m, n, c, j, I_FILE, file);
    RemoveTree(v, m, j, n);
    var u := Remove(v, m, j, n);
    SameParent(s, t, v, u, d, m, b, i, name, n, c, j, file);
    CStringOfPadded(name);
    EmptyIffTwo(u, m);
    RmdirIff(u, d, i, name);
  }

  lemma NewEntry(s: Fs, t: Fs, d: nat, m: nat, i: nat, e: Dentry)
    requires Shape(s) && Shape(t) && Inserted(s, t, d, m, i, e)
    ensures Dir(t, d)[i] == e
  {
    hide Dir;
  }

  /** The directory the new one lies in is not touched by what happens in the new one. */
  lemma SameParent(s: Fs, t: Fs, v: Fs, u: Fs, d: nat, m: nat, b: nat, i: nat, name: seq<byte>, n: nat, c: nat, j: nat, file: seq<byte>)
    requires TreeInv(s) && CanInsert(s, d, m, b, i, I_DIR, name) && t == Insert(s, d, m, b, i, I_DIR, name)
    requires TreeInv(t) && CanInsert(t, m, n, c, j, I_FILE, file) && v == Insert(t, m, n, c, j, I_FILE, file)
    requires TreeInv(v) && CanRemove(v, m, j, n) && u == Remove(v, m, j, n) && Shape(u)
    ensures EntryAt(t, d, i) ==> EntryAt(u, d, i) && Dir(u, d)[i] == Dir(t, d)[i]
    ensures IsDir(u, m)
  {
    hide Core, ZeroTails, Tree, Insert, Remove, Dir, Missing, FilesKept, OtherFilesKept;
    InsertRecords(s, d, m, b, i, I_DIR, name);
    InsertIsInserted(t, m, n, c, j, I_FILE, file);
    RemoveTree(v, m, j, n);
    assert d != m && d != n;
  }

  /** Such a run on a freshly made disk: mkdir "d", touch "d/f", rm "d/f", rmdir "d". */
  lemma FreshRefused(s: Fs)
    requires Fresh(s)
    ensures
      var dname, fname := [100], [102];
      CanInsert(s, 0, 1, 1, 2, I_DIR, dname) &&
      var t := Insert(s, 0, 1, 1, 2, I_DIR, dname);
      CanInsert(t, 1, 2, 2, 2, I_FILE, fname) && CanRemove(Insert(t, 1, 2, 2, 2, I_FILE, fname), 1, 2, 2) &&
      var u := Remove(Insert(t, 1, 2, 2, 2, I_FILE, fname), 1, 2, 2);
      TreeInv(u) && Empty(u, 1) && !Removable(u, 0, dname)
  {
    hide Fresh, TreeInv, Inv, Dir, FreshSlots, Missing, FirstFree, Insert, Remove, Inserted, Empty, GoodName, LinksOk, Removable, IsDir;
    var dname: seq<byte>, fname: seq<byte> := [100], [102];
    FreshFree(s);
    OneLetter(100);
    OneLetter(102);
    FreshMissing(0, 0, I_DIR, dname);
    FreshMissing(0, 1, I_FILE, fname);
    TreeShape(s);
    var t := Insert(s, 0, 1, 1, 2, I_DIR, dname);
    FirstInside(s, t, 0, 1, 1, 2, dname);
    RefusedAfterRm(s, 0, 1, 1, 2, dname, 2, 2, 2, fname);
  }

  lemma FreshFree(s: Fs)
    requires Fresh(s)
    ensures TreeInv(s) && IsDir(s, 0) && Dir(s, 0) == FreshSlots(0, 0)
    ensures s.inodeMap[1] == 0 && s.blockMap[1] == 0 && s.inodeMap[2] == 0 && s.blockMap[2] == 0
  {
    FreshTreeInv(s);
    FreshDirs(s, 0, 0);
  }

  lemma OneLetter(x: byte)
    requires x != 0
    ensures GoodName([x])
  {
  }

  lemma TreeShape(s: Fs)
    requires TreeInv(s)
    ensures Shape(s) && Inv(s)
  {
  }

  /** What is free and what a new directory shows after the first mkdir. */
  lemma FirstInside(s: Fs, t: Fs, d: nat, m: nat, b: nat, i: nat, name: seq<byte>)
    requires Inv(s) && CanInsert(s, d, m, b, i, I_DIR, name) && t == Insert(s, d, m, b, i, I_DIR, name)
    ensures Shape(t) && IsDir(t, m) && Dir(t, m) == FreshSlots(d, m)
    ensures t.inodeMap == s.inodeMap[m := 1] && t.blockMap == s.blockMap[b := 1]
  {
    hide Core, ZeroTails, Dir, Insert, Missing, FilesKept, FreshSlots;
    InsertIsInserted(s, d, m, b, i, I_DIR, name);
    InsertRecords(s, d, m, b, i, I_DIR, name);
  }

  /** A new directory has its third entry free and shows no name but the dots. */
  lemma FreshMissing(parent: nat, m: nat, kind: nat, name: seq<byte>)
    requires kind <= 2 && name != DOT && name != DOT + DOT
    ensures FirstFree(FreshSlots(parent, m), 2) && Missing(FreshSlots(parent, m), kind, name, NUM_DENTRIES)
  {
    assert GoodName(DOT) && GoodName(DOT + DOT);
    CStringOfPadded(DOT);
    CStringOfPadded(DOT + DOT);
    hide CString;
  }
}
