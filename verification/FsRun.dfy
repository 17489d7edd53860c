/** Histories of the file system. What its calls show is a flat store: a byte
    string for every live file, and a set of links from names to inodes. */
module FsRuns {
  import opened Bytes
  import opened FsState
  import opened FsFile
  import opened FsInvariant
  import opened FsDirectory
  import opened FsDirOps
  import opened FsTree
  import opened FsHistory
  import opened FileSystems
  import opened DirectoryOps

  /** `name` in directory `dir` leads to inode `ino`, of this kind. */
  datatype Link = Link(dir: nat, kind: nat, name: seq<byte>, ino: nat)

  datatype Flat = Flat(files: map<nat, seq<byte>>, links: set<Link>)

  // ---------- The flat view of a state ----------

  ghost function FilesOf(s: Fs): map<nat, seq<byte>>
    requires Shape(s)
  {
    map i: nat | i < NUM_INODES && FileAt(s, i) :: Content(s, i)
  }

  ghost function LinkOf(s: Fs, d: nat, k: nat): Link
    requires Shape(s) && EntryAt(s, d, k)
  {
    Link(d, Dir(s, d)[k].kind, CString(Dir(s, d)[k].name), Target(s, d, k))
  }

  ghost function LinksOf(s: Fs): set<Link>
    requires Shape(s)
  {
    set d: nat, k: nat | d < NUM_INODES && k < NUM_DENTRIES && EntryAt(s, d, k) :: LinkOf(s, d, k)
  }

  ghost function FlatOf(s: Fs): Flat
    requires Shape(s)
  {
    Flat(FilesOf(s), LinksOf(s))
  }

  /** A name leads to one inode, and an inode has one name. */
  lemma LinksUnique(s: Fs, x: Link, y: Link)
    requires TreeInv(s) && x in LinksOf(s) && y in LinksOf(s)
    ensures x.dir == y.dir && x.kind == y.kind && x.name == y.name ==> x == y
    ensures x.ino == y.ino ==> x == y
  {
    hide TreeAt, Dir, Inv, DirShape;
    var depth :| TreeAt(s, depth);
    var d: nat, k: nat :| EntryAt(s, d, k) && x == LinkOf(s, d, k);
    var e: nat, j: nat :| EntryAt(s, e, j) && y == LinkOf(s, e, j);
    TreeUnique(s, depth, d, k, e, j);
    if d == e && x.kind == y.kind && x.name == y.name {
      TreeLocal(s, depth, d);
      NamesDiffer(Dir(s, d), d, k, j);
    }
  }

  /** Two used entries of one kind with the same C string are one entry. */
  lemma NamesDiffer(ds: seq<Dentry>, d: nat, k: nat, j: nat)
    requires |ds| == NUM_DENTRIES && DirShape(ds, d) && k < NUM_DENTRIES && j < NUM_DENTRIES
    requires ds[k].kind == ds[j].kind != 0 && CString(ds[k].name) == CString(ds[j].name)
    ensures k == j
  {
    assert SlotShape(ds[k]) && SlotShape(ds[j]);
    var n :| GoodName(n) && ds[k].name == Padded(n);
    var m :| GoodName(m) && ds[j].name == Padded(m);
    CStringOfPadded(n);
    CStringOfPadded(m);
  }

  // ---------- The flat store on its own ----------

  datatype Op =
    | Read(ino: nat, off: nat, data: seq<byte>)
    | Write(ino: nat, off: nat, data: seq<byte>)
    | Seek(ino: nat, to: nat)
    | Create(link: Link)
    | Delete(link: Link)

  /** When a call can succeed on a flat store, and what a read then returns. */
  predicate FlatOk(f: Flat, op: Op) {
    match op
    case Read(i, off, data) => i in f.files && off + |data| <= |f.files[i]| && data == f.files[i][off..off + |data|]
    case Write(i, off, data) => i in f.files
    case Seek(i, to) => i in f.files
    case Create(l) =>
      l.ino !in f.files && forall x :: x in f.links ==> x.ino != l.ino && !(x.dir == l.dir && x.kind == l.kind && x.name == l.name)
    case Delete(l) =>
      l in f.links && (l.kind == I_FILE <==> l.ino in f.files) && forall x :: x in f.links ==> x.dir != l.ino
  }

  /** A file that starts empty, when the node is a file. */
  function Born(l: Link): map<nat, seq<byte>> {
    if l.kind == I_FILE then map[l.ino := []] else map[]
  }

  ghost function FlatStep(f: Flat, op: Op): Flat
    requires FlatOk(f, op)
  {
    match op
    case Read(i, off, data) => f
    case Write(i, off, data) => f.(files := f.files[i := Splice(f.files[i], off, data)])
    case Seek(i, to) => if to > |f.files[i]| then f.(files := f.files[i := f.files[i] + seq(to - |f.files[i]|, _ => 0)]) else f
    case Create(l) => Flat(f.files + Born(l), f.links + {l})
    case Delete(l) => Flat(f.files - {l.ino}, f.links - {l})
  }

  // ---------- The calls that succeed ----------

  /** What the successful calls promise: reads, writes and seeks as far as the
      file's tree, mkdir and touch as Insert, rmdir and rm as Remove. */
  ghost predicate Called(s: Fs, op: Op, t: Fs) {
    && Shape(s) && Shape(t) &&
    match op
    case Read(i, off, data) => FileAt(s, i) && Inv(t) && ReadOk(s, t, i, off, data)
    case Write(i, off, data) => FileAt(s, i) && Inv(t) && off + |data| < WORD_LIMIT && Spliced(s, t, i, off, data)
    case Seek(i, to) => FileAt(s, i) && Inv(t) && SeekMoved(s, t, i, to)
    case Create(l) =>
      exists b: nat, i: nat :: CanInsert(s, l.dir, l.ino, b, i, l.kind, l.name) && t == Insert(s, l.dir, l.ino, b, i, l.kind, l.name)
    case Delete(l) =>
      exists k: nat :: CanRemove(s, l.dir, k, l.ino) && Hit(Dir(s, l.dir), l.kind, l.name, k) && t == Remove(s, l.dir, k, l.ino)
        && InodeOf(s, l.ino).kind == l.kind
  }

  // ---------- Each call on the flat view ----------

  lemma SameContent(s: Fs, t: Fs, j: nat)
    requires Core(s) && Shape(t) && FileAt(s, j) && InodeOf(t, j) == InodeOf(s, j) && SameBytes(s, t, j)
    ensures Content(t, j) == Content(s, j)
  {
    hide Core;
    LiveId(s, j);
    forall p | 0 <= p < |Content(s, j)| ensures Content(t, j)[p] == Content(s, j)[p] {
      assert ByteAt(t, j, p) == ByteAt(s, j, p);
    }
  }

  lemma SameLinks(s: Fs, t: Fs)
    requires Shape(s) && Shape(t) && SameDirs(s, t)
    ensures LinksOf(t) == LinksOf(s)
  {
    hide Dir;
    forall d: nat, k: nat ensures EntryAt(t, d, k) == EntryAt(s, d, k) && (EntryAt(s, d, k) ==> LinkOf(t, d, k) == LinkOf(s, d, k)) {
      assert IsDir(t, d) <==> IsDir(s, d);
    }
    assert forall x :: x in LinksOf(t) ==> x in LinksOf(s);
    assert forall x :: x in LinksOf(s) ==> x in LinksOf(t);
  }

  lemma SameFiles(s: Fs, t: Fs, i: nat)
    requires Core(s) && Shape(t) && SameDirs(s, t) && FileAt(s, i)
    requires forall j :: 0 <= j < NUM_INODES && j != i ==> SameBytes(s, t, j) && InodeOf(t, j) == InodeOf(s, j)
    ensures FilesOf(t) == FilesOf(s)[i := Content(t, i)]
  {
    hide Core, Content, SameBytes;
    forall j | 0 <= j < NUM_INODES ensures FileAt(t, j) <==> FileAt(s, j) {}
    forall j | FileAt(s, j) && j != i ensures Content(t, j) == Content(s, j) {
      SameContent(s, t, j);
    }
  }

  lemma ReadRefines(s: Fs, t: Fs, i: nat, off: nat, data: seq<byte>)
    requires TreeInv(s) && Shape(t) && FileAt(s, i) && Inv(t) && ReadOk(s, t, i, off, data)
    ensures TreeInv(t) && FlatOk(FlatOf(s), Read(i, off, data)) && FlatOf(t) == FlatOf(s)
  {
    hide TreeAt, Core, ZeroTails, Content, SameBytes, LinksOf, SameDirs;
    ReadKeepsTree(s, t, i);
    SameLinks(s, t);
    SameFiles(s, t, i);
  }

  lemma SpliceRefines(s: Fs, t: Fs, i: nat, off: nat, data: seq<byte>)
    requires TreeInv(s) && Shape(t) && FileAt(s, i) && Inv(t) && off + |data| < WORD_LIMIT && Spliced(s, t, i, off, data)
    ensures TreeInv(t) && i in FilesOf(s) && FilesOf(s)[i] == Content(s, i) && LinksOf(t) == LinksOf(s)
    ensures FilesOf(t) == FilesOf(s)[i := Splice(Content(s, i), off, data)]
  {
    hide TreeAt, Core, ZeroTails, Content, SameBytes, LinksOf, SameDirs, Splice;
    WriteKeepsTree(s, t, i, off, data);
    SameLinks(s, t);
    SameFiles(s, t, i);
  }

  lemma SeekRefines(s: Fs, t: Fs, i: nat, to: nat)
    requires TreeInv(s) && Shape(t) && FileAt(s, i) && Inv(t) && SeekMoved(s, t, i, to)
    ensures TreeInv(t) && FlatOk(FlatOf(s), Seek(i, to)) && FlatOf(t) == FlatStep(FlatOf(s), Seek(i, to))
  {
    hide Tree, Core, ZeroTails, SameBytes, LinksOf, Spliced, Splice;
    assert Content(s, i) == FilesOf(s)[i];
    if to > InodeOf(s, i).size {
      SpliceRefines(s, t, i, to, []);
      ExtendAppendsZeros(Content(s, i), to);
    }
  }

  /** The new entry, and those that were there. */
  lemma InsertedLinks(s: Fs, t: Fs, d: nat, m: nat, i: nat, kind: nat, name: seq<byte>)
    requires Shape(s) && Shape(t) && GoodName(name) && Inserted(s, t, d, m, i, Dentry(kind, m, Padded(name)))
    requires 2 <= i && Dir(s, d)[i].kind == 0
    ensures LinksOf(t) == LinksOf(s) + {Link(d, kind, name, m)}
  {
    var e := Dentry(kind, m, Padded(name));
    CStringOfPadded(name);
    forall x: nat, k: nat
      ensures EntryAt(t, x, k) <==> EntryAt(s, x, k) || (x == d && k == i)
      ensures EntryAt(s, x, k) ==> LinkOf(t, x, k) == LinkOf(s, x, k)
    {
      hide Dir;
      InsertedEntries(s, t, d, m, i, e, x, k);
    }
    hide Dir, EntryAt, FreshSlots, CString, Padded;
    assert EntryAt(t, d, i) && LinkOf(t, d, i) == Link(d, kind, name, m);
    NewLinks(s, t, d, i);
  }

  lemma NewLinks(s: Fs, t: Fs, d: nat, i: nat)
    requires Shape(s) && Shape(t) && EntryAt(t, d, i)
    requires forall x: nat, k: nat :: EntryAt(t, x, k) <==> EntryAt(s, x, k) || (x == d && k == i)
    requires forall x: nat, k: nat :: EntryAt(s, x, k) ==> LinkOf(t, x, k) == LinkOf(s, x, k)
    ensures LinksOf(t) == LinksOf(s) + {LinkOf(t, d, i)}
  {
    hide LinkOf;
    forall x | x in LinksOf(s) ensures x in LinksOf(t) {
      var e: nat, k: nat :| EntryAt(s, e, k) && x == LinkOf(s, e, k);
      assert EntryAt(t, e, k);
    }
    forall x | x in LinksOf(t) ensures x in LinksOf(s) + {LinkOf(t, d, i)} {
      var e: nat, k: nat :| EntryAt(t, e, k) && x == LinkOf(t, e, k);
      if EntryAt(s, e, k) { assert LinkOf(s, e, k) in LinksOf(s); }
    }
  }

  lemma BornEmpty(s: Fs, d: nat, m: nat, b: nat, i: nat, kind: nat, name: seq<byte>)
    requires Inv(s) && CanInsert(s, d, m, b, i, kind, name) && kind == I_FILE
    ensures InodeOf(Insert(s, d, m, b, i, kind, name), m).size == 0
  {
    hide Core, ZeroTails, FilesKept, Dir, Missing, Padded, NewNode, Insert, Inv;
    NewNodeThenEntry(s, d, m, b, i, kind, name);
  }

  lemma InsertedFiles(s: Fs, t: Fs, d: nat, m: nat, i: nat, e: Dentry)
    requires Core(s) && Shape(t) && Inserted(s, t, d, m, i, e) && FilesKept(s, t)
    requires e.kind == I_FILE ==> InodeOf(t, m).size == 0
    ensures m !in FilesOf(s) && FilesOf(t) == FilesOf(s) + if e.kind == I_FILE then map[m := []] else map[]
  {
    hide Core, SameBytes, Dir, FreshSlots;
    forall j: nat ensures FileAt(t, j) <==> FileAt(s, j) || (j == m && e.kind == I_FILE) {}
    forall j | FileAt(s, j) ensures Content(t, j) == Content(s, j) {
      SameContent(s, t, j);
    }
    if e.kind == I_FILE { assert Content(t, m) == []; }
  }

  /** In a sound tree neither a free inode nor a name that is missing has a link. */
  lemma LinkIsNew(s: Fs, l: Link, x: Link)
    requires TreeInv(s) && IsDir(s, l.dir) && l.ino < NUM_INODES && s.inodeMap[l.ino] == 0
    requires (l.kind == I_DIR || l.kind == I_FILE) && Missing(Dir(s, l.dir), l.kind, l.name, NUM_DENTRIES) && x in LinksOf(s)
    ensures x.ino != l.ino && !(x.dir == l.dir && x.kind == l.kind && x.name == l.name)
  {
    hide TreeAt, Dir, Inv, CString;
    var depth :| TreeAt(s, depth);
    var d: nat, k: nat :| EntryAt(s, d, k) && x == LinkOf(s, d, k);
    TreeEntry(s, depth, d, k);
    assert Matches(l.kind, l.kind);
  }

  lemma CreateRefines(s: Fs, l: Link, b: nat, i: nat)
    requires TreeInv(s) && CanInsert(s, l.dir, l.ino, b, i, l.kind, l.name)
    ensures
      var t := Insert(s, l.dir, l.ino, b, i, l.kind, l.name);
      TreeInv(t) && FlatOk(FlatOf(s), Create(l)) && FlatOf(t) == FlatStep(FlatOf(s), Create(l))
  {
    hide TreeAt, Dir, Core, ZeroTails, Insert, Inserted, FilesKept, FilesOf, LinksOf, Missing, Padded, IsDir;
    var t := Insert(s, l.dir, l.ino, b, i, l.kind, l.name);
    var depth :| TreeAt(s, depth);
    InsertTree(s, l.dir, l.ino, b, i, l.kind, l.name);
    InsertIsInserted(s, l.dir, l.ino, b, i, l.kind, l.name);
    InsertSlot(s, depth, l.dir, i);
    FirstIsFree(Dir(s, l.dir), i);
    InsertedLinks(s, t, l.dir, l.ino, i, l.kind, l.name);
    if l.kind == I_FILE { BornEmpty(s, l.dir, l.ino, b, i, l.kind, l.name); }
    InsertedFiles(s, t, l.dir, l.ino, i, Dentry(l.kind, l.ino, Padded(l.name)));
    forall x | x in LinksOf(s) ensures x.ino != l.ino && !(x.dir == l.dir && x.kind == l.kind && x.name == l.name) {
      LinkIsNew(s, l, x);
    }
  }

  lemma FirstIsFree(ds: seq<Dentry>, i: nat)
    requires FirstFree(ds, i)
    ensures i < |ds| && ds[i].kind == 0
  {
  }

  lemma RemovedLinks(s: Fs, t: Fs, depth: seq<nat>, d: nat, m: nat, k: nat)
    requires Shape(s) && Shape(t) && TreeAt(s, depth) && Removed(s, t, d, m, k)
    ensures EntryAt(s, d, k) && LinksOf(t) == LinksOf(s) - {LinkOf(s, d, k)}
  {
    hide TreeAt, Dir;
    forall x: nat, j: nat
      ensures EntryAt(t, x, j) <==> EntryAt(s, x, j) && !(x == d && j == k)
      ensures EntryAt(t, x, j) ==> LinkOf(t, x, j) == LinkOf(s, x, j) && LinkOf(s, x, j).ino != m
    {
      RemovedEntries(s, t, depth, d, m, k, x, j);
    }
    FewerLinks(s, t, d, k);
  }

  lemma FewerLinks(s: Fs, t: Fs, d: nat, k: nat)
    requires Shape(s) && Shape(t) && EntryAt(s, d, k)
    requires forall x: nat, j: nat :: EntryAt(t, x, j) <==> EntryAt(s, x, j) && !(x == d && j == k)
    requires forall x: nat, j: nat :: EntryAt(t, x, j) ==> LinkOf(t, x, j) == LinkOf(s, x, j) && LinkOf(s, x, j).ino != LinkOf(s, d, k).ino
    ensures LinksOf(t) == LinksOf(s) - {LinkOf(s, d, k)}
  {
    hide LinkOf;
    forall x | x in LinksOf(t) ensures x in LinksOf(s) - {LinkOf(s, d, k)} {
      var e: nat, j: nat :| EntryAt(t, e, j) && x == LinkOf(t, e, j);
      assert LinkOf(s, e, j) in LinksOf(s);
    }
    forall x | x in LinksOf(s) - {LinkOf(s, d, k)} ensures x in LinksOf(t) {
      var e: nat, j: nat :| EntryAt(s, e, j) && x == LinkOf(s, e, j);
      assert EntryAt(t, e, j);
    }
  }

  lemma RemovedFiles(s: Fs, t: Fs, d: nat, m: nat, k: nat)
    requires Core(s) && Shape(t) && Removed(s, t, d, m, k) && OtherFilesKept(s, t, m)
    ensures FilesOf(t) == FilesOf(s) - {m}
  {
    hide Core, SameBytes, Dir;
    forall j: nat ensures FileAt(t, j) <==> FileAt(s, j) && j != m {}
    forall j | FileAt(s, j) && j != m ensures Content(t, j) == Content(s, j) {
      SameContent(s, t, j);
    }
  }

  /** Nothing is in a node about to be removed. */
  lemma NothingUnder(s: Fs, depth: seq<nat>, m: nat, x: Link)
    requires Shape(s) && TreeAt(s, depth) && m < NUM_INODES && (IsDir(s, m) ==> InodeOf(s, m).fileNum == 2) && x in LinksOf(s)
    ensures x.dir != m
  {
    hide TreeAt, Dir, CString;
    var d: nat, k: nat :| EntryAt(s, d, k) && x == LinkOf(s, d, k);
    assert LinkOf(s, d, k).dir == d;
    if d == m {
      assert EntryAt(s, m, k);
      TreeLocal(s, depth, m);
      EmptyHasNoEntry(s, m, k);
    }
  }

  /** A hit under one kind, in a sound tree, is an entry of that kind. */
  lemma HitKind(s: Fs, depth: seq<nat>, l: Link, k: nat)
    requires Shape(s) && TreeAt(s, depth) && EntryAt(s, l.dir, k) && Target(s, l.dir, k) == l.ino < NUM_INODES
    requires Hit(Dir(s, l.dir), l.kind, l.name, k) && InodeOf(s, l.ino).kind == l.kind
    ensures LinkOf(s, l.dir, k) == l && s.inodeMap[l.ino] == 1
  {
    hide TreeAt, Dir, CString, Missing;
    TreeEntry(s, depth, l.dir, k);
  }

  lemma DeleteRefines(s: Fs, l: Link, k: nat)
    requires TreeInv(s) && CanRemove(s, l.dir, k, l.ino) && Hit(Dir(s, l.dir), l.kind, l.name, k)
    requires InodeOf(s, l.ino).kind == l.kind
    ensures
      var t := Remove(s, l.dir, k, l.ino);
      TreeInv(t) && FlatOk(FlatOf(s), Delete(l)) && FlatOf(t) == FlatStep(FlatOf(s), Delete(l))
  {
    hide TreeAt, Dir, Core, ZeroTails, Remove, Removed, OtherFilesKept, Hit;
    var depth :| TreeAt(s, depth);
    var t := Remove(s, l.dir, k, l.ino);
    RemoveTree(s, l.dir, k, l.ino);
    RemovedLinks(s, t, depth, l.dir, l.ino, k);
    RemovedFiles(s, t, l.dir, l.ino, k);
    HitKind(s, depth, l, k);
    assert LinkOf(s, l.dir, k) in LinksOf(s);
    forall x | x in LinksOf(s) ensures x.dir != l.ino {
      NothingUnder(s, depth, l.ino, x);
    }
  }

  // ---------- Histories ----------

  /** Every successful call is, on the flat view, the flat store's step, and
      keeps the file system sound. */
  lemma CallRefines(s: Fs, op: Op, t: Fs)
    requires TreeInv(s) && Called(s, op, t)
    ensures TreeInv(t) && FlatOk(FlatOf(s), op) && FlatOf(t) == FlatStep(FlatOf(s), op)
  {
    hide Tree, Core, ZeroTails, FilesOf, LinksOf, ReadOk, Spliced, SeekMoved, Insert, Remove, Hit, Dir, IsDir;
    match op
    case Read(i, off, data) => ReadRefines(s, t, i, off, data);
    case Write(i, off, data) => SpliceRefines(s, t, i, off, data);
    case Seek(i, to) => SeekRefines(s, t, i, to);
    case Create(l) =>
      var b: nat, i: nat :| CanInsert(s, l.dir, l.ino, b, i, l.kind, l.name) && t == Insert(s, l.dir, l.ino, b, i, l.kind, l.name);
      CreateRefines(s, l, b, i);
    case Delete(l) =>
      var k: nat :| CanRemove(s, l.dir, k, l.ino) && Hit(Dir(s, l.dir), l.kind, l.name, k) && t == Remove(s, l.dir, k, l.ino)
        && InodeOf(s, l.ino).kind == l.kind;
      DeleteRefines(s, l, k);
  }

  /** What mkdir and touch promise is such a call. */
  lemma CreatedIsCall(s: Fs, t: Fs, d: nat, kind: nat, name: seq<byte>)
    requires Created(s, t, d, kind, name)
    ensures exists m: nat :: Called(s, Create(Link(d, kind, name, m)), t)
  {
    hide Tree, Core, ZeroTails, FilesKept, CanInsert, Insert;
    var m: nat, b: nat, i: nat :| CanInsert(s, d, m, b, i, kind, name) && t == Insert(s, d, m, b, i, kind, name);
    assert Called(s, Create(Link(d, kind, name, m)), t);
  }

  /** So is what rmdir and rm promise, whatever the size of the file. */
  lemma DeletedIsCall(s: Fs, t: Fs, d: nat, kind: nat, name: seq<byte>)
    requires Deleted(s, t, d, kind, name)
    ensures exists m: nat :: Called(s, Delete(Link(d, kind, name, m)), t)
  {
    hide Tree, Core, ZeroTails, Remove, Hit, Dir, OtherFilesKept, Leaked, Rest;
    var k: nat, m: nat :| CanRemove(s, d, k, m) && Hit(Dir(s, d), kind, name, k) && t == Remove(s, d, k, m)
      && InodeOf(s, m).kind == kind;
    assert Called(s, Delete(Link(d, kind, name, m)), t);
  }

  /** The states of a history: one more than its calls. */
  ghost predicate History(ss: seq<Fs>, ops: seq<Op>) {
    |ss| == |ops| + 1 && forall k :: 0 <= k < |ops| ==> Called(ss[k], ops[k], ss[k + 1])
  }

  /** The flat store along the same calls: allowed at every one of them, from f to g. */
  ghost predicate FlatHistory(f: Flat, ops: seq<Op>, g: Flat)
    decreases |ops|
  {
    if ops == [] then g == f
    else FlatOk(f, ops[0]) && FlatHistory(FlatStep(f, ops[0]), ops[1..], g)
  }

  /** Over any history of successful calls, in any order on any files and
      directories, the file system stays sound and behaves as the flat store. */
  lemma {:induction false} HistoryRefines(ss: seq<Fs>, ops: seq<Op>)
    requires History(ss, ops) && TreeInv(ss[0])
    ensures TreeInv(ss[|ops|]) && FlatHistory(FlatOf(ss[0]), ops, FlatOf(ss[|ops|]))
    decreases |ops|
  {
    hide TreeInv, Called, FlatOf, FlatOk, FlatStep;
    if ops != [] {
      assert Called(ss[0], ops[0], ss[1]);
      CallRefines(ss[0], ops[0], ss[1]);
      forall k | 0 <= k < |ops[1..]| ensures Called(ss[1..][k], ops[1..][k], ss[1..][k + 1]) {
        assert Called(ss[k + 1], ops[k + 1], ss[k + 2]);
      }
      HistoryRefines(ss[1..], ops[1..]);
    }
  }

  /** mkfs leaves the empty flat store. */
  lemma FreshFlat(s: Fs)
    requires Fresh(s)
    ensures TreeInv(s) && FlatOf(s) == Flat(map[], {})
  {
    hide Inv, Tree;
    FreshTreeInv(s);
    forall x: nat, k: nat ensures !EntryAt(s, x, k) {
      FreshDirs(s, x, k);
    }
    assert forall i: nat :: !FileAt(s, i) by { hide Dir, DotBlock; }
    hide Fresh, EntryAt, FileAt;
    assert FilesOf(s) == map[];
    assert LinksOf(s) == {};
  }
}
