/** The directory operations as they run over the buffers of the file system. */
module DirectoryOps {
  import opened Bytes
  import opened FsState
  import opened FsFile
  import opened FsInvariant
  import opened FsDirectory
  import opened FsDirOps
  import opened FsTree
  import opened FsHistory
  import opened FileSystems

  // ---------- Searching ----------

  /** The answer of a search: the inode number of the first match, or -1. */
  ghost predicate Found(ds: seq<Dentry>, mask: nat, name: seq<byte>, r: int) {
    || (r == -1 && Missing(ds, mask, name, |ds|))
    || (exists k: nat :: Hit(ds, mask, name, k) && ds[k].ino == r)
  }

  lemma FoundHit(ds: seq<Dentry>, mask: nat, name: seq<byte>, k: nat)
    requires Hit(ds, mask, name, k)
    ensures Found(ds, mask, name, ds[k].ino)
  {
  }

  lemma FoundMissing(ds: seq<Dentry>, mask: nat, name: seq<byte>)
    requires Missing(ds, mask, name, |ds|)
    ensures Found(ds, mask, name, -1)
  {
  }

  lemma SlotsAt(b: Block, k: nat)
    requires k < NUM_DENTRIES
    ensures Slots(b)[k] == DentryAt(b, k)
  {
  }

  lemma LiveCountZero(ds: seq<Dentry>)
    ensures LiveCount(ds, 0) == 0
  {
  }

  lemma LiveCountStep(ds: seq<Dentry>, i: nat)
    requires i < |ds|
    ensures LiveCount(ds, i + 1) == LiveCount(ds, i) + if ds[i].kind != 0 then 1 else 0
  {
  }

  /** Scans the buffered entries, stopping early once as many live entries were
      met as the directory counts: no later entry is missed. */
  method ScanEntries(fs: FileSystem, fileNum: nat, name: seq<byte>, mask: nat, ghost ds: seq<Dentry>) returns (r: int)
    requires fs.Wired() && Slots(fs.blkBuffer[..]) == ds && fileNum == LiveCount(ds, NUM_DENTRIES)
    ensures Found(ds, mask, name, r)
  {
    hide Word, Slots, LiveCount, CString, Found;
    var find := 0;
    LiveCountZero(ds);
    var i := 0;
    while i != NUM_DENTRIES
      invariant 0 <= i <= NUM_DENTRIES && find == LiveCount(ds, i)
      invariant Missing(ds, mask, name, i)
    {
      var e := DentryAt(fs.blkBuffer[..], i);
      SlotsAt(fs.blkBuffer[..], i);
      LiveCountStep(ds, i);
      if e.kind != 0 { find := find + 1; }
      if Matches(e.kind, mask) && CString(e.name) == name {
        FoundHit(ds, mask, name, i);
        return e.ino;
      }
      if find == fileNum {
        LiveCountMonotone(ds, i + 1, NUM_DENTRIES);
        FoundMissing(ds, mask, name);
        return -1;
      }
      i := i + 1;
    }
    FoundMissing(ds, mask, name);
    return -1;
  }

  method SearchDentry(fs: FileSystem, d: nat, name: seq<byte>, mask: nat) returns (r: int)
    requires fs.Wired() && fs.Synced() && IsDir(fs.View(), d) && LocalOk(fs.View(), d)
    requires InodeOf(fs.View(), d).ptrs[0] < NUM_BLOCKS
    modifies fs`sector, fs.sctBuffer, fs.blkBuffer
    ensures fs.Wired() && fs.Synced() && fs.View() == old(fs.View())
    ensures Found(Dir(fs.View(), d), mask, name, r)
  {
    hide DirShape, Found, LiveCount, Slots;
    var at := fs.GetInode(d);
    fs.ReadBlock(fs.sctBuffer[at].ptrs[0]);
    r := ScanEntries(fs, fs.sctBuffer[at].fileNum, name, mask, Dir(fs.View(), d));
  }

  // ---------- Entries ----------

  lemma SetTwice(s: Fs, d: nat, n: Inode, n': Inode)
    requires Shape(s) && d < NUM_INODES
    ensures SetInode(SetInode(s, d, n), d, n') == SetInode(s, d, n')
  {
    var k := d / INODES_PER_SECTOR;
    var j := d % INODES_PER_SECTOR;
    assert s.itab[k][j := n][j := n'] == s.itab[k][j := n'];
  }

  /** Counts a new entry in the buffered inode of directory d. */
  method CountEntry(fs: FileSystem, at: nat, d: nat, kind: nat)
    requires fs.Wired() && d < NUM_INODES && at == d % INODES_PER_SECTOR && fs.sector == d / INODES_PER_SECTOR
    modifies fs.sctBuffer
    ensures
      var n := InodeOf(old(fs.View()), d);
      fs.View() == SetCounts(old(fs.View()), d, Increment(n.fileNum), if kind == I_DIR then Increment(n.links) else n.links)
  {
    ghost var s := fs.View();
    ghost var n := InodeOf(s, d);
    fs.StoreInode(at, fs.sctBuffer[at].(fileNum := Increment(fs.sctBuffer[at].fileNum)));
    if kind == I_DIR {
      fs.StoreInode(at, fs.sctBuffer[at].(links := Increment(fs.sctBuffer[at].links)));
    }
    SetTwice(s, d, n.(fileNum := Increment(n.fileNum)), InodeOf(fs.View(), d));
  }

  lemma CountThenStore(s: Fs, d: nat, k: nat, e: Dentry)
    requires Shape(s) && d < NUM_INODES && k < NUM_DENTRIES && e.kind < WORD_LIMIT && e.ino < WORD_LIMIT
    ensures
      var n := InodeOf(s, d);
      var u := SetCounts(s, d, Increment(n.fileNum), if e.kind == I_DIR then Increment(n.links) else n.links);
      u.(disk := u.disk[DirBlockId(s, d) := PutDentry(s.disk[DirBlockId(s, d)], k, e)]) == AddEntry(s, d, k, e)
  {
    hide PutDentry;
  }

  /** Stores a new entry in the first free slot; None is the kernel's stop when
      the directory has none. */
  method CreateDentry(fs: FileSystem, d: nat, m: nat, name: seq<byte>, kind: nat) returns (r: Option<nat>)
    requires fs.Wired() && fs.Synced() && IsDir(fs.View(), d) && LocalOk(fs.View(), d)
    requires InodeOf(fs.View(), d).ptrs[0] < NUM_BLOCKS
    requires GoodName(name) && m < WORD_LIMIT && kind < WORD_LIMIT
    modifies fs`sector, fs.sctBuffer, fs.blkBuffer, fs.itabDisk, fs.disk
    ensures fs.Wired()
    ensures r.None? ==> NoSlot(Dir(old(fs.View()), d))
    ensures r.Some? ==>
      && fs.Synced() && FirstFree(Dir(old(fs.View()), d), r.value)
      && fs.View() == AddEntry(old(fs.View()), d, r.value, Dentry(kind, m, Padded(name)))
  {
    hide PutDentry, Padded, Slots, LiveCount, SetCounts, AddEntry;
    ghost var s := fs.View();
    ghost var ds := Dir(s, d);
    var at := fs.GetInode(d);
    var b := fs.sctBuffer[at].ptrs[0];
    CountEntry(fs, at, d, kind);
    ghost var u := fs.View();
    CountsOnly(s, d, kind);
    fs.ReadBlock(b);
    r := FindFree(fs, ds);
    if r.None? { return; }
    FreeNameClear(ds, d, r.value);
    StoreDentry(fs, r.value, m, name, kind, ds);
    fs.WriteInode(d / INODES_PER_SECTOR);
    fs.WriteBlock(b);
    CountThenStore(s, d, r.value, Dentry(kind, m, Padded(name)));
  }

  ghost predicate NoSlot(ds: seq<Dentry>) {
    forall k :: 0 <= k < |ds| ==> ds[k].kind != 0
  }

  lemma CountsOnly(s: Fs, d: nat, kind: nat)
    requires Shape(s) && d < NUM_INODES
    ensures
      var n := InodeOf(s, d);
      var u := SetCounts(s, d, Increment(n.fileNum), if kind == I_DIR then Increment(n.links) else n.links);
      u.disk == s.disk && InodeOf(u, d).ptrs == n.ptrs
  {
  }

  lemma FreeNameClear(ds: seq<Dentry>, d: nat, i: nat)
    requires |ds| == NUM_DENTRIES && DirShape(ds, d) && FirstFree(ds, i)
    ensures ds[i].name == NoName()
  {
    assert SlotShape(ds[i]);
  }

  /** The first entry of the buffered directory block that is free. */
  method FindFree(fs: FileSystem, ghost ds: seq<Dentry>) returns (r: Option<nat>)
    requires fs.Wired() && Slots(fs.blkBuffer[..]) == ds
    ensures r.None? ==> forall k :: 0 <= k < NUM_DENTRIES ==> ds[k].kind != 0
    ensures r.Some? ==> FirstFree(ds, r.value)
  {
    hide Word;
    var i := 0;
    while i != NUM_DENTRIES
      invariant 0 <= i <= NUM_DENTRIES
      invariant forall k :: 0 <= k < i ==> ds[k].kind != 0
    {
      assert DentryAt(fs.blkBuffer[..], i) == ds[i];
      if Word(fs.blkBuffer[..], 8 * i) == 0 { return Some(i); }
      i := i + 1;
    }
    return None;
  }

  /** memcpy(entry.name, name, strlen(name)) into entry i of the buffered block. */
  method StoreName(fs: FileSystem, i: nat, name: seq<byte>)
    requires fs.Wired() && i < NUM_DENTRIES && |name| < NAME_SIZE
    requires fs.blkBuffer[DENTRY_SIZE * i + 8..DENTRY_SIZE * i + 32] == NoName()
    modifies fs.blkBuffer
    ensures fs.blkBuffer[..] == PutName(old(fs.blkBuffer[..]), i, Padded(name))
  {
    ghost var b := fs.blkBuffer[..];
    var o := DENTRY_SIZE * i + 8;
    forall k | 0 <= k < |name| { fs.blkBuffer[o + k] := name[k]; }
    assert forall p :: o <= p < o + NAME_SIZE ==> b[p] == NoName()[p - o];
  }

  lemma WordsKeepName(b: Block, i: nat, m: nat, kind: nat)
    requires i < NUM_DENTRIES && m < WORD_LIMIT && kind < WORD_LIMIT
    ensures PutWord(PutWord(b, 8 * i + 1, m), 8 * i, kind)[DENTRY_SIZE * i + 8..DENTRY_SIZE * i + 32] == DentryAt(b, i).name
  {
    var c := PutWord(b, 8 * i + 1, m);
    forall p | DENTRY_SIZE * i + 8 <= p < DENTRY_SIZE * i + 32 ensures PutWord(c, 8 * i, kind)[p] == b[p] {
      PutWordElsewhere(b, 8 * i + 1, m, p);
      PutWordElsewhere(c, 8 * i, kind, p);
    }
  }

  /** Fills entry i of the buffered block; the name is copied without its NUL,
      onto a field the entry's last owner left cleared. */
  method StoreDentry(fs: FileSystem, i: nat, m: nat, name: seq<byte>, kind: nat, ghost ds: seq<Dentry>)
    requires fs.Wired() && i < NUM_DENTRIES && m < WORD_LIMIT && kind < WORD_LIMIT && |name| < NAME_SIZE
    requires Slots(fs.blkBuffer[..]) == ds && ds[i].name == NoName()
    modifies fs.blkBuffer
    ensures fs.blkBuffer[..] == PutDentry(old(fs.blkBuffer[..]), i, Dentry(kind, m, Padded(name)))
  {
    hide PutWord, Word, PutName, Padded;
    ghost var b := fs.blkBuffer[..];
    assert DentryAt(b, i) == ds[i];
    fs.StoreWord(8 * i + 1, m);
    fs.StoreWord(8 * i, kind);
    WordsKeepName(b, i, m, kind);
    StoreName(fs, i, name);
  }

  /** Marks free the first entry that carries inode number m, whatever its kind,
      and takes it off the counters. The result is 0 when nothing was removed,
      or when only the entry of a file with further links was. */
  method DeleteDentry(fs: FileSystem, d: nat, m: nat, kind: nat, ghost k: nat) returns (r: int)
    requires fs.Wired() && fs.Synced() && EntryAt(fs.View(), d, k) && LocalOk(fs.View(), d)
    requires InodeOf(fs.View(), d).ptrs[0] < NUM_BLOCKS
    requires Target(fs.View(), d, k) == m < NUM_INODES
    modifies fs`sector, fs.sctBuffer, fs.blkBuffer, fs.itabDisk, fs.disk
    ensures fs.Wired() && fs.Synced()
    ensures
      var s := old(fs.View());
      if kind == I_DIR && !(InodeOf(s, m).fileNum == 2 && InodeOf(s, m).links == 1)
      then r == 0 && fs.View() == s
      else r == (if kind != I_DIR && InodeOf(s, m).links != 1 then 0 else 1) && fs.View() == DropEntry(s, d, k)
  {
    hide Slots, LiveCount, DropEntry, DirShape, FileSystem.View;
    r := 1;
    var sub := fs.GetInode(m);
    if kind == I_DIR {
      if !(fs.sctBuffer[sub].fileNum == 2 && fs.sctBuffer[sub].links == 1) { return 0; }
    } else {
      if fs.sctBuffer[sub].links != 1 { r := 0; }
    }
    UnlinkEntry(fs, d, m, k);
  }

  /** The removal itself, of the entry k that names inode m. */
  method UnlinkEntry(fs: FileSystem, d: nat, m: nat, ghost k: nat)
    requires fs.Wired() && fs.Synced() && EntryAt(fs.View(), d, k) && LocalOk(fs.View(), d)
    requires InodeOf(fs.View(), d).ptrs[0] < NUM_BLOCKS && Target(fs.View(), d, k) == m < NUM_INODES
    modifies fs`sector, fs.sctBuffer, fs.blkBuffer, fs.itabDisk, fs.disk
    ensures fs.Wired() && fs.Synced() && fs.View() == DropEntry(old(fs.View()), d, k)
  {
    hide PutDentry, Slots, LiveCount, SetCounts, DropEntry, DirShape, FirstOf, FileSystem.View;
    ghost var s := fs.View();
    ghost var ds := Dir(s, d);
    var at := fs.GetInode(d);
    var b := fs.sctBuffer[at].ptrs[0];
    UncountEntry(fs, at, d);
    UncountOnly(s, d);
    fs.WriteInode(d / INODES_PER_SECTOR);
    fs.ReadBlock(b);
    FirstByInode(ds, d, k);
    var i := FindByInode(fs, m, ds, k);
    ClearDentry(fs, i, ds);
    fs.WriteBlock(b);
    UncountThenClear(s, d, k);
  }

  /** Takes an entry off the counters of the buffered inode of directory d. */
  method UncountEntry(fs: FileSystem, at: nat, d: nat)
    requires fs.Wired() && d < NUM_INODES && at == d % INODES_PER_SECTOR && fs.sector == d / INODES_PER_SECTOR
    modifies fs.sctBuffer
    ensures
      var n := InodeOf(old(fs.View()), d);
      fs.View() == SetCounts(old(fs.View()), d, Decrement(n.fileNum), Decrement(n.links))
  {
    ghost var s := fs.View();
    ghost var n := InodeOf(s, d);
    fs.StoreInode(at, fs.sctBuffer[at].(fileNum := Decrement(fs.sctBuffer[at].fileNum)));
    fs.StoreInode(at, fs.sctBuffer[at].(links := Decrement(fs.sctBuffer[at].links)));
    SetTwice(s, d, n.(fileNum := Decrement(n.fileNum)), InodeOf(fs.View(), d));
  }

  lemma UncountOnly(s: Fs, d: nat)
    requires Shape(s) && d < NUM_INODES
    ensures
      var u := SetCounts(s, d, Decrement(InodeOf(s, d).fileNum), Decrement(InodeOf(s, d).links));
      u.disk == s.disk && InodeOf(u, d).ptrs == InodeOf(s, d).ptrs
  {
  }

  lemma UncountThenClear(s: Fs, d: nat, k: nat)
    requires Shape(s) && d < NUM_INODES && k < NUM_DENTRIES && Dir(s, d)[k].ino < WORD_LIMIT
    ensures
      var u := SetCounts(s, d, Decrement(InodeOf(s, d).fileNum), Decrement(InodeOf(s, d).links));
      u.(disk := u.disk[DirBlockId(s, d) := PutDentry(s.disk[DirBlockId(s, d)], k, Dentry(0, Dir(s, d)[k].ino, NoName()))])
      == DropEntry(s, d, k)
  {
    hide PutDentry, Dir;
  }

  method FindByInode(fs: FileSystem, m: nat, ghost ds: seq<Dentry>, ghost k: nat) returns (i: nat)
    requires fs.Wired() && Slots(fs.blkBuffer[..]) == ds && k < NUM_DENTRIES && ds[k].ino == m
    requires FirstOf(ds, k)
    ensures i == k
  {
    hide Word;
    i := 0;
    while i != NUM_DENTRIES
      invariant 0 <= i <= k
      invariant forall l :: 0 <= l < i ==> ds[l].ino != m
      decreases NUM_DENTRIES - i
    {
      assert DentryAt(fs.blkBuffer[..], i) == ds[i];
      if Word(fs.blkBuffer[..], 8 * i + 1) == m { return; }
      i := i + 1;
    }
  }

  /** Clears the kind and the name of entry i; its inode number stays behind. */
  method ClearDentry(fs: FileSystem, i: nat, ghost ds: seq<Dentry>)
    requires fs.Wired() && i < NUM_DENTRIES && Slots(fs.blkBuffer[..]) == ds && ds[i].ino < WORD_LIMIT
    modifies fs.blkBuffer
    ensures fs.blkBuffer[..] == PutDentry(old(fs.blkBuffer[..]), i, Dentry(0, ds[i].ino, NoName()))
  {
    ghost var b := fs.blkBuffer[..];
    assert DentryAt(b, i) == ds[i];
    PutSameWord(b, 8 * i + 1);
    hide PutWord, Word, NoName;
    fs.StoreWord(8 * i, 0);
    ClearName(fs, i);
  }

  method ClearName(fs: FileSystem, i: nat)
    requires fs.Wired() && i < NUM_DENTRIES
    modifies fs.blkBuffer
    ensures fs.blkBuffer[..] == PutName(old(fs.blkBuffer[..]), i, NoName())
  {
    var o := DENTRY_SIZE * i + 8;
    forall k | 0 <= k < NAME_SIZE { fs.blkBuffer[o + k] := 0; }
  }

  lemma PutSameWord(b: Block, k: nat)
    requires k < WORDS_PER_BLOCK
    ensures PutWord(b, k, Word(b, k)) == b
  {
    hide Join;
    JoinBytes(b[4 * k], b[4 * k + 1], b[4 * k + 2], b[4 * k + 3]);
  }

  /** The four bytes of a word are those it was joined from. */
  lemma JoinBytes(b0: byte, b1: byte, b2: byte, b3: byte)
    ensures
      var w := Join(b0, b1, b2, b3);
      w % 0x100 == b0 && w / 0x100 % 0x100 == b1 && w / 0x1_0000 % 0x100 == b2 && w / 0x100_0000 == b3
  {
    var w := Join(b0, b1, b2, b3);
    LowByte(b2, b3);
    LowByte(b1, b2 + 0x100 * b3);
    LowByte(b0, b1 + 0x100 * (b2 + 0x100 * b3));
    assert w / 0x1_0000 == w / 0x100 / 0x100;
    assert w / 0x100_0000 == w / 0x1_0000 / 0x100;
  }

  lemma LowByte(b: byte, rest: nat)
    ensures (b + 0x100 * rest) % 0x100 == b && (b + 0x100 * rest) / 0x100 == rest
  {
  }

  // ---------- Inodes and blocks ----------

  method GetInodeMap(fs: FileSystem)
    requires fs.Wired()
    modifies fs.inodeMap
    ensures fs.inodeMap[..] == fs.inodeMapDisk[..]
  {
    forall i | 0 <= i < NUM_INODES { fs.inodeMap[i] := fs.inodeMapDisk[i]; }
  }

  method SyncInodeMap(fs: FileSystem)
    requires fs.Wired()
    modifies fs.inodeMapDisk
    ensures fs.inodeMapDisk[..] == fs.inodeMap[..]
  {
    forall i | 0 <= i < NUM_INODES { fs.inodeMapDisk[i] := fs.inodeMap[i]; }
  }

  /** Takes the first free inode number; None is the kernel's stop. */
  method AllocInode(fs: FileSystem) returns (r: Option<nat>)
    requires fs.Wired()
    modifies fs.inodeMap, fs.inodeMapDisk
    ensures r.None? ==> NoInode(old(fs.View()))
    ensures r.Some? ==>
      && r.value < NUM_INODES && old(fs.View()).inodeMap[r.value] == 0
      && (forall j :: 0 <= j < r.value ==> old(fs.View()).inodeMap[j] != 0)
      && fs.View() == old(fs.View()).(inodeMap := old(fs.View()).inodeMap[r.value := 1])
  {
    GetInodeMap(fs);
    var i := 0;
    while i != NUM_INODES
      invariant 0 <= i <= NUM_INODES
      invariant fs.inodeMap[..] == fs.inodeMapDisk[..] == old(fs.inodeMapDisk[..])
      invariant forall j :: 0 <= j < i ==> fs.inodeMap[j] != 0
    {
      if fs.inodeMap[i] == 0 {
        fs.inodeMap[i] := 1;
        SyncInodeMap(fs);
        return Some(i);
      }
      i := i + 1;
    }
    return None;
  }

  ghost predicate NoInode(s: Fs)
    requires Shape(s)
  {
    forall j :: 0 <= j < NUM_INODES ==> s.inodeMap[j] != 0
  }

  method FreeInodeMap(fs: FileSystem, m: nat)
    requires fs.Wired() && m < NUM_INODES && fs.inodeMapDisk[m] == 1
    modifies fs.inodeMap, fs.inodeMapDisk
    ensures fs.View() == old(fs.View()).(inodeMap := old(fs.View()).inodeMap[m := 0])
  {
    GetInodeMap(fs);
    fs.inodeMap[m] := 0;
    SyncInodeMap(fs);
    assert fs.inodeMapDisk[..] == old(fs.inodeMapDisk[..])[m := 0];
  }

  /** Marks a block free and clears it on disk. */
  method ReleaseBlock(fs: FileSystem, b: nat)
    requires fs.Wired() && b < NUM_BLOCKS && fs.blockMapDisk[b] == 1
    modifies fs.blockMap, fs.blockMapDisk, fs.blkBuffer, fs.disk
    ensures fs.View() == old(fs.View()).(blockMap := old(fs.View()).blockMap[b := 0], disk := old(fs.View()).disk[b := ZeroBlock()])
  {
    fs.GetBlockMap();
    fs.blockMap[b] := 0;
    fs.SyncBlockMap();
    assert fs.blockMapDisk[..] == old(fs.blockMapDisk[..])[b := 0];
    fs.ClearBuffer();
    fs.WriteBlock(b);
  }

  /** Fills the record of a new node and writes it; the fields not named here
      are those of the cleared record it is built on. */
  method CreateInode(fs: FileSystem, m: nat, b: nat, kind: nat, mode: nat)
    requires fs.Wired() && fs.Synced() && m < NUM_INODES && InodeOf(fs.View(), m) == ZeroInode() && mode == O_CREATE_MODE
    modifies fs`sector, fs.sctBuffer, fs.itabDisk
    ensures fs.Wired() && fs.Synced() && fs.View() == SetInode(old(fs.View()), m, NodeRecord(m, b, kind))
    ensures fs.sector == m / INODES_PER_SECTOR
  {
    var at := fs.GetInode(m);
    var n := fs.sctBuffer[at].(mode := mode, kind := kind, uid := -1, id := m, links := 1, blocks := 1);
    n := n.(ptrs := n.ptrs[0 := b]);
    if kind == I_DIR {
      n := n.(size := BLOCK_SIZE, fileNum := 2);
    } else {
      n := n.(size := 0, fileNum := 0);
    }
    fs.StoreInode(at, n);
    fs.WriteInode(m / INODES_PER_SECTOR);
  }

  method CreateDirBlock(fs: FileSystem, b: nat, parent: nat, m: nat)
    requires fs.Wired() && b < NUM_BLOCKS && parent < NUM_INODES && m < NUM_INODES
    modifies fs.blkBuffer, fs.disk
    ensures fs.disk[..] == old(fs.disk[..])[b := DotBlock(parent, m)]
  {
    hide PutDentry, Slots, ZeroBlock, Padded;
    fs.ClearBuffer();
    ZeroSlots(0);
    StoreDentry(fs, 0, m, DOT, I_DIR, Slots(ZeroBlock()));
    ghost var b0 := fs.blkBuffer[..];
    SlotsOfPut(ZeroBlock(), 0, Dentry(I_DIR, m, Padded(DOT)));
    ZeroSlots(1);
    StoreDentry(fs, 1, parent, DOT + DOT, I_DIR, Slots(b0));
    fs.WriteBlock(b);
  }

  // ---------- The operations on a directory already found ----------

  predicate LegalChar(c: byte) {
    c == 45 || c == 46 || c == 95 || 48 <= c <= 57 || 97 <= c <= 122 || 65 <= c <= 90
  }

  const UPPER := "ABCDEFGHIJKLMNOPQRSTUVWXYZ"

  const LOWER := "abcdefghijklmnopqrstuvwxyz"

  const DIGITS := "0123456789"

  /** The characters a name may have, spelled out. */
  lemma LegalAlphabet(c: byte)
    ensures LegalChar(c) <==> c as char in UPPER || c as char in LOWER || c as char in DIGITS || c as char in "-_."
  {
    InUpper(c as char);
    InLower(c as char);
    InDigits(c as char);
    InMarks(c as char);
    hide UPPER, LOWER, DIGITS;
  }

  lemma InMarks(c: char)
    ensures c in "-_." <==> c == '-' || c == '_' || c == '.'
  {
    assert "-_."[0] == '-' && "-_."[1] == '_' && "-_."[2] == '.';
  }

  lemma InUpper(c: char)
    ensures c in UPPER <==> 'A' <= c <= 'Z'
  {
    if 'A' <= c <= 'Z' { assert UPPER[c as int - 65] == c; }
  }

  lemma InLower(c: char)
    ensures c in LOWER <==> 'a' <= c <= 'z'
  {
    if 'a' <= c <= 'z' { assert LOWER[c as int - 97] == c; }
  }

  lemma InDigits(c: char)
    ensures c in DIGITS <==> '0' <= c <= '9'
  {
    if '0' <= c <= '9' { assert DIGITS[c as int - 48] == c; }
  }

  method IsNameIllegal(name: seq<byte>) returns (r: bool)
    ensures r <==> exists k :: 0 <= k < |name| && !LegalChar(name[k])
  {
    var i := 0;
    while i != |name|
      invariant 0 <= i <= |name|
      invariant forall k :: 0 <= k < i ==> LegalChar(name[k])
    {
      if !LegalChar(name[i]) { return true; }
      i := i + 1;
    }
    return false;
  }

  ghost predicate Legal(name: seq<byte>) {
    GoodName(name) && forall k :: 0 <= k < |name| ==> LegalChar(name[k])
  }

  /** The kernel stops a creation when an inode, a block or an entry is lacking. */
  ghost predicate Exhausted(s: Fs, d: nat)
    requires Shape(s) && d < NUM_INODES
  {
    NoInode(s) || NoSlot(Dir(s, d)) || Full(s)
  }

  /** A creation in directory d succeeded from s to t: the first free inode,
      block and entry were taken, in a tree that stays sound. */
  ghost predicate Created(s: Fs, t: Fs, d: nat, kind: nat, name: seq<byte>) {
    TreeInv(s) && TreeInv(t) && FilesKept(s, t)
    && exists m: nat, b: nat, i: nat :: CanInsert(s, d, m, b, i, kind, name) && t == Insert(s, d, m, b, i, kind, name)
  }

  /** The state the steps of a creation pass through, in the order the kernel
      takes them, is the state of the creation. */
  lemma StepsOfInsert(s: Fs, d: nat, m: nat, b: nat, i: nat, kind: nat, name: seq<byte>)
    requires Shape(s) && CanInsert(s, d, m, b, i, kind, name) && DirBlockId(s, d) != b
    ensures
      var s1 := s.(inodeMap := s.inodeMap[m := 1]);
      var s2 := AddEntry(s1, d, i, Dentry(kind, m, Padded(name)));
      var s3 := s2.(blockMap := s2.blockMap[b := 1]);
      var s4 := SetInode(s3, m, NodeRecord(m, b, kind));
      s4.(disk := s4.disk[b := FirstBlock(kind, d, m)]) == Insert(s, d, m, b, i, kind, name)
  {
    hide PutDentry, Padded, DotBlock, Missing;
    assert d != m;
    var s1 := s.(inodeMap := s.inodeMap[m := 1]);
    var e := Dentry(kind, m, Padded(name));
    var s2 := AddEntry(s1, d, i, e);
    var s3 := s2.(blockMap := s2.blockMap[b := 1]);
    var s4 := SetInode(s3, m, NodeRecord(m, b, kind));
    var s5 := s4.(disk := s4.disk[b := FirstBlock(kind, d, m)]);
    var u := NewNode(s, m, b, kind, FirstBlock(kind, d, m));
    var t := Insert(s, d, m, b, i, kind, name);
    SameRecords(s5, t);
    assert s5.disk == t.disk;
  }

  lemma SameRecords(s: Fs, t: Fs)
    requires Shape(s) && Shape(t) && forall j :: 0 <= j < NUM_INODES ==> InodeOf(s, j) == InodeOf(t, j)
    ensures s.itab == t.itab
  {
    forall k | 0 <= k < NUM_SECTORS ensures s.itab[k] == t.itab[k] {
      forall j | 0 <= j < INODES_PER_SECTOR ensures s.itab[k][j] == t.itab[k][j] {
        assert InodeOf(s, INODES_PER_SECTOR * k + j) == InodeOf(t, INODES_PER_SECTOR * k + j);
      }
    }
  }

  /** Between operations: nothing buffered, and a sound tree on disk. */
  ghost predicate Sound(fs: FileSystem)
    reads fs, fs.disk, fs.blockMapDisk, fs.inodeMapDisk, fs.itabDisk, fs.sctBuffer
  {
    fs.Wired() && fs.Synced() && TreeInv(fs.View())
  }

  lemma DirFacts(s: Fs, d: nat)
    requires TreeInv(s) && IsDir(s, d)
    ensures LocalOk(s, d) && InodeOf(s, d).ptrs[0] < NUM_BLOCKS
  {
    DirBlockFacts(s, d);
    var depth :| TreeAt(s, depth);
    TreeLocal(s, depth, d);
  }

  /** Taking a free inode number changes nothing a directory operation reads. */
  lemma AfterAllocInode(s: Fs, d: nat, m: nat)
    requires TreeInv(s) && IsDir(s, d) && m < NUM_INODES && s.inodeMap[m] == 0
    ensures
      var t := s.(inodeMap := s.inodeMap[m := 1]);
      && 0 < m && d != m && IsDir(t, d) && LocalOk(t, d) && InodeOf(t, d).ptrs[0] < NUM_BLOCKS && Dir(t, d) == Dir(s, d)
      && InodeOf(s, m) == ZeroInode()
  {
    hide TreeAt, DirShape, Slots, Owned, LiveCount;
    DirFacts(s, d);
    assert Record(s, m) && s.inodeMap[0] == 1;
  }

  lemma AfterAddEntry(s: Fs, d: nat, i: nat, e: Dentry, m: nat)
    requires Shape(s) && d < NUM_INODES && m < NUM_INODES && d != m && i < NUM_DENTRIES && e.kind < WORD_LIMIT && e.ino < WORD_LIMIT
    ensures InodeOf(AddEntry(s, d, i, e), m) == InodeOf(s, m) && AddEntry(s, d, i, e).blockMap == s.blockMap
    ensures AddEntry(s, d, i, e).inodeMap == s.inodeMap
  {
    hide PutDentry;
  }

  lemma FreshBlock(s: Fs, d: nat, b: nat)
    requires Core(s) && IsDir(s, d) && b < NUM_BLOCKS && s.blockMap[b] == 0
    ensures 0 < b && DirBlockId(s, d) != b
  {
    DirBlockFacts(s, d);
    assert s.blockMap[0] == 1;
  }

  /** Writes the record of a new node and what its block starts out with. */
  method FillNode(fs: FileSystem, m: nat, b: nat, kind: nat, d: nat)
    requires fs.Wired() && fs.Synced() && m < NUM_INODES && d < NUM_INODES && InodeOf(fs.View(), m) == ZeroInode() && b < NUM_BLOCKS
    modifies fs`sector, fs.sctBuffer, fs.itabDisk, fs.blkBuffer, fs.disk
    ensures fs.Wired() && fs.Synced()
    ensures
      var s4 := SetInode(old(fs.View()), m, NodeRecord(m, b, kind));
      fs.View() == s4.(disk := s4.disk[b := FirstBlock(kind, d, m)])
  {
    hide DotBlock, SetInode;
    CreateInode(fs, m, b, kind, O_CREATE_MODE);
    if kind == I_DIR {
      CreateDirBlock(fs, b, d, m);
    } else {
      fs.ClearBuffer();
      fs.WriteBlock(b);
    }
  }

  /** The common part of mkdir and touch: inode, entry, block, record, block contents. */
  method CreateNode(fs: FileSystem, d: nat, name: seq<byte>, kind: nat) returns (r: Option<nat>)
    requires Sound(fs) && IsDir(fs.View(), d) && GoodName(name) && (kind == I_DIR || kind == I_FILE)
    requires Missing(Dir(fs.View(), d), kind, name, NUM_DENTRIES)
    modifies fs.Repr()
    ensures fs.Wired()
    ensures r.None? ==> Exhausted(old(fs.View()), d)
    ensures r.Some? ==> Sound(fs) && Created(old(fs.View()), fs.View(), d, kind, name)
    ensures r.Some? ==> r.value < NUM_INODES && old(fs.View()).inodeMap[r.value] == 0 && fs.View().inodeMap[r.value] == 1
  {
    hide Core, ZeroTails, TreeAt, Dir, DirShape, LiveCount, Missing, AddEntry, FilesKept, DotBlock, Slots, Padded, SetInode, FirstBlock, Created, FileSystem.View;
    ghost var s := fs.View();
    var m := AllocInode(fs);
    if m.None? { return None; }
    AfterAllocInode(s, d, m.value);
    ghost var s1 := fs.View();
    var i := CreateDentry(fs, d, m.value, name, kind);
    if i.None? { return None; }
    AfterAddEntry(s1, d, i.value, Dentry(kind, m.value, Padded(name)), m.value);
    var b := fs.AllocBlock();
    if b.None? { return None; }
    FreshBlock(s, d, b.value);
    FillNode(fs, m.value, b.value, kind, d);
    FinishCreate(s, d, m.value, b.value, i.value, kind, name);
    r := m;
  }

  lemma FinishCreate(s: Fs, d: nat, m: nat, b: nat, i: nat, kind: nat, name: seq<byte>)
    requires TreeInv(s) && CanInsert(s, d, m, b, i, kind, name) && DirBlockId(s, d) != b
    ensures
      var s1 := s.(inodeMap := s.inodeMap[m := 1]);
      var s2 := AddEntry(s1, d, i, Dentry(kind, m, Padded(name)));
      var s3 := s2.(blockMap := s2.blockMap[b := 1]);
      var s4 := SetInode(s3, m, NodeRecord(m, b, kind));
      var s5 := s4.(disk := s4.disk[b := FirstBlock(kind, d, m)]);
      TreeInv(s5) && Created(s, s5, d, kind, name) && s5.inodeMap == s.inodeMap[m := 1]
  {
    hide Core, ZeroTails, TreeAt, Dir, DirShape, LiveCount, Missing, AddEntry, FilesKept, DotBlock, Insert, Padded;
    StepsOfInsert(s, d, m, b, i, kind, name);
    InsertTree(s, d, m, b, i, kind, name);
    InsertRecords(s, d, m, b, i, kind, name);
  }

  /** mkdir of a last path component: -1 when the name has a character outside
      the permitted ones or names a directory already. */
  method DoMkdir(fs: FileSystem, d: nat, name: seq<byte>) returns (r: Option<int>)
    requires Sound(fs) && IsDir(fs.View(), d) && GoodName(name)
    modifies fs.Repr()
    ensures fs.Wired()
    ensures r.None? ==> Exhausted(old(fs.View()), d)
    ensures r.Some? ==> Sound(fs)
    ensures r == Some(-1) ==> fs.View() == old(fs.View())
    ensures r == Some(-1) || r == Some(0) || r.None?
    ensures r == Some(0) ==> Created(old(fs.View()), fs.View(), d, I_DIR, name)
    ensures r == Some(-1) <==> !(Legal(name) && Missing(Dir(old(fs.View()), d), I_DIR, name, NUM_DENTRIES))
  {
    hide Core, ZeroTails, TreeAt, Dir, DirShape, LiveCount, Created;
    var illegal := IsNameIllegal(name);
    if illegal { return Some(-1); }
    DirFacts(fs.View(), d);
    var found := SearchDentry(fs, d, name, I_DIR);
    if found != -1 { return Some(-1); }
    InodesNonNegative(Dir(fs.View(), d), I_DIR, name);
    var m := CreateNode(fs, d, name, I_DIR);
    if m.None? { return None; }
    r := Some(0);
  }

  /** A search that answers -1 has missed; any other answer is a hit. */
  lemma InodesNonNegative(ds: seq<Dentry>, mask: nat, name: seq<byte>)
    ensures Found(ds, mask, name, -1) ==> Missing(ds, mask, name, |ds|)
    ensures forall r: int :: r != -1 && Found(ds, mask, name, r) ==> !Missing(ds, mask, name, |ds|)
  {
  }

  /** touch of a last path component: the new inode number, or -1. */
  method DoTouch(fs: FileSystem, d: nat, name: seq<byte>) returns (r: Option<int>)
    requires Sound(fs) && IsDir(fs.View(), d) && GoodName(name)
    modifies fs.Repr()
    ensures fs.Wired()
    ensures r.None? ==> Exhausted(old(fs.View()), d)
    ensures r.Some? ==> Sound(fs)
    ensures r == Some(-1) ==> fs.View() == old(fs.View())
    ensures r.Some? && r.value != -1 ==>
      && Created(old(fs.View()), fs.View(), d, I_FILE, name)
      && 0 <= r.value < NUM_INODES && old(fs.View()).inodeMap[r.value] == 0 && fs.View().inodeMap[r.value] == 1
    ensures r == Some(-1) <==> !(Legal(name) && Missing(Dir(old(fs.View()), d), I_FILE, name, NUM_DENTRIES))
  {
    hide Core, ZeroTails, TreeAt, Dir, DirShape, LiveCount, Created;
    var illegal := IsNameIllegal(name);
    if illegal { return Some(-1); }
    DirFacts(fs.View(), d);
    var found := SearchDentry(fs, d, name, I_FILE);
    if found != -1 { return Some(-1); }
    InodesNonNegative(Dir(fs.View(), d), I_FILE, name);
    var m := CreateNode(fs, d, name, I_FILE);
    if m.None? { return None; }
    r := Some(m.value);
  }

  // ---------- Removal ----------

  /** The entry a search under a single kind finds, if it is not one of the dots. */
  lemma FoundEntry(s: Fs, d: nat, kind: nat, name: seq<byte>, r: int) returns (k: nat)
    requires TreeInv(s) && IsDir(s, d) && GoodName(name) && (kind == I_DIR ==> name != DOT && name != DOT + DOT)
    requires (kind == I_DIR || kind == I_FILE) && Found(Dir(s, d), kind, name, r) && r != -1
    ensures EntryAt(s, d, k) && Target(s, d, k) == r && Hit(Dir(s, d), kind, name, k)
    ensures 0 < r < NUM_INODES && s.inodeMap[r] == 1 && InodeOf(s, r).kind == kind && InodeOf(s, r).ptrs[0] < NUM_BLOCKS
    ensures s.blockMap[InodeOf(s, r).ptrs[0]] == 1 && InodeOf(s, r).id == r && r != d
    ensures kind == I_FILE ==> InodeOf(s, r).links == 1
  {
    hide TreeAt, Dir, Inv;
    k :| Hit(Dir(s, d), kind, name, k) && Dir(s, d)[k].ino == r;
    var depth :| TreeAt(s, depth);
    NotADot(s, depth, d, kind, name, k);
    TreeEntry(s, depth, d, k);
    LiveNode(s, r);
  }

  lemma NotADot(s: Fs, depth: seq<nat>, d: nat, kind: nat, name: seq<byte>, k: nat)
    requires Shape(s) && TreeAt(s, depth) && IsDir(s, d) && (kind == I_DIR || kind == I_FILE)
    requires Hit(Dir(s, d), kind, name, k) && (kind == I_DIR ==> name != DOT && name != DOT + DOT)
    ensures EntryAt(s, d, k) && Dir(s, d)[k].kind == kind
  {
    hide TreeAt, Dir, Missing, Padded, CString, Shape;
    TreeLocal(s, depth, d);
    CStringOfPadded(DOT);
    CStringOfPadded(DOT + DOT);
    KindMatched(Dir(s, d)[k], kind);
  }

  lemma KindMatched(e: Dentry, kind: nat)
    requires SlotShape(e) && (kind == I_DIR || kind == I_FILE) && Matches(e.kind, kind)
    ensures e.kind == kind
  {
  }

  lemma LiveNode(s: Fs, m: nat)
    requires Inv(s) && 0 < m < NUM_INODES && s.inodeMap[m] == 1
    ensures InodeOf(s, m).ptrs[0] < NUM_BLOCKS && s.blockMap[InodeOf(s, m).ptrs[0]] == 1 && InodeOf(s, m).id == m
  {
    assert Record(s, m);
    assert Wf(Root(m, 0)) && Ptr(s, Root(m, 0)) == InodeOf(s, m).ptrs[0];
  }

  /** Releases the first block of node m, clears its record and frees its number. */
  method FreeInode(fs: FileSystem, m: nat)
    requires fs.Wired() && fs.Synced() && m < NUM_INODES && fs.View().inodeMap[m] == 1
    requires InodeOf(fs.View(), m).ptrs[0] < NUM_BLOCKS && fs.View().blockMap[InodeOf(fs.View(), m).ptrs[0]] == 1
    modifies fs.Repr()
    ensures fs.Wired() && fs.Synced() && fs.View() == FreeNode(old(fs.View()), m)
  {
    hide SetInode;
    var at := fs.GetInode(m);
    ReleaseBlock(fs, fs.sctBuffer[at].ptrs[0]);
    fs.StoreInode(at, ZeroInode());
    fs.WriteInode(m / INODES_PER_SECTOR);
    FreeInodeMap(fs, m);
    SetInodeFrame(old(fs.View()), m, ZeroInode());
  }

  lemma SetInodeFrame(s: Fs, m: nat, n: Inode)
    requires Shape(s) && m < NUM_INODES
    ensures forall disk: seq<Block>, map_: seq<byte> :: |disk| == NUM_BLOCKS && |map_| == NUM_BLOCKS ==>
      SetInode(s.(disk := disk, blockMap := map_), m, n).itab == SetInode(s, m, n).itab
  {
  }

  /** A removal of the entry `name` of directory d succeeded from s to t. */
  ghost predicate Deleted(s: Fs, t: Fs, d: nat, kind: nat, name: seq<byte>) {
    TreeInv(s) && IsDir(s, d) && exists k: nat, m: nat ::
      CanRemove(s, d, k, m) && Hit(Dir(s, d), kind, name, k) && t == Remove(s, d, k, m)
      && InodeOf(s, m).kind == kind && TreeInv(t) && OtherFilesKept(s, t, m)
      && Leaked(t) == Leaked(s) + Rest(s, m) && (kind == I_DIR ==> InodeOf(s, m).links == 1)
  }

  lemma FinishDelete(s: Fs, d: nat, k: nat, m: nat, kind: nat, name: seq<byte>)
    requires TreeInv(s) && EntryAt(s, d, k) && Target(s, d, k) == m && Hit(Dir(s, d), kind, name, k)
    requires m < NUM_INODES && InodeOf(s, m).kind == kind && s.inodeMap[m] == 1
    requires kind == I_DIR ==> InodeOf(s, m).fileNum == 2 && InodeOf(s, m).links == 1
    requires kind == I_DIR || kind == I_FILE
    ensures CanRemove(s, d, k, m) && Deleted(s, Remove(s, d, k, m), d, kind, name)
    ensures TreeInv(Remove(s, d, k, m))
  {
    hide Core, ZeroTails, TreeAt, Dir, Remove, Hit, OtherFilesKept, Leaked, Rest;
    EntryCanBeRemoved(s, d, k);
    RemoveTree(s, d, k, m);
  }

  lemma AfterDrop(s: Fs, d: nat, k: nat, m: nat)
    requires Shape(s) && d < NUM_INODES && m < NUM_INODES && d != m && k < NUM_DENTRIES && Dir(s, d)[k].ino < WORD_LIMIT
    ensures DropEntry(s, d, k).inodeMap == s.inodeMap && DropEntry(s, d, k).blockMap == s.blockMap
    ensures InodeOf(DropEntry(s, d, k), m) == InodeOf(s, m)
  {
    hide PutDentry, Dir;
  }

  /** rmdir of a last path component, never "." or "..": -1 when it names no
      directory, or one that has entries or links of its own. */
  method DoRmdir(fs: FileSystem, d: nat, name: seq<byte>) returns (r: int)
    requires Sound(fs) && IsDir(fs.View(), d) && GoodName(name) && name != DOT && name != DOT + DOT
    modifies fs.Repr()
    ensures Sound(fs) && (r == 0 || r == -1)
    ensures r == -1 ==> fs.View() == old(fs.View())
    ensures r == 0 ==> Deleted(old(fs.View()), fs.View(), d, I_DIR, name)
    ensures r == 0 <==> Removable(old(fs.View()), d, name)
  {
    hide Core, ZeroTails, TreeAt, Dir, DirShape, LiveCount, DropEntry, FreeNode, Found, Hit, Deleted, FileSystem.View;
    ghost var s := fs.View();
    DirFacts(s, d);
    var m := SearchDentry(fs, d, name, I_DIR);
    if m == -1 {
      NotRemovable(s, d, name);
      return -1;
    }
    ghost var k := FoundEntry(s, d, I_DIR, name, m);
    RemovableAt(s, d, name, k);
    var deleted := DeleteDentry(fs, d, m, I_DIR, k);
    if deleted == 0 { return -1; }
    FinishDelete(s, d, k, m, I_DIR, name);
    AfterDrop(s, d, k, m);
    FreeInode(fs, m);
    r := 0;
  }

  /** The name leads to an empty directory with a single link. */
  ghost predicate Removable(s: Fs, d: nat, name: seq<byte>)
    requires Shape(s)
  {
    exists k: nat :: EntryAt(s, d, k) && Hit(Dir(s, d), I_DIR, name, k) && Target(s, d, k) < NUM_INODES
      && InodeOf(s, Target(s, d, k)).fileNum == 2 && InodeOf(s, Target(s, d, k)).links == 1
  }

  lemma NotRemovable(s: Fs, d: nat, name: seq<byte>)
    requires Shape(s) && IsDir(s, d) && Found(Dir(s, d), I_DIR, name, -1)
    ensures !Removable(s, d, name)
  {
    InodesNonNegative(Dir(s, d), I_DIR, name);
  }

  lemma RemovableAt(s: Fs, d: nat, name: seq<byte>, k: nat)
    requires Shape(s) && EntryAt(s, d, k) && Hit(Dir(s, d), I_DIR, name, k) && Target(s, d, k) < NUM_INODES
    ensures Removable(s, d, name) <==>
      InodeOf(s, Target(s, d, k)).fileNum == 2 && InodeOf(s, Target(s, d, k)).links == 1
  {
    hide Dir;
    if j: nat :| EntryAt(s, d, j) && Hit(Dir(s, d), I_DIR, name, j) {
      assert j == k;
    }
  }

  /** rm of a last path component: -1 when it names no file. Only the first
      block of the file is released; its others stay marked used. */
  method DoRm(fs: FileSystem, d: nat, name: seq<byte>) returns (r: int)
    requires Sound(fs) && IsDir(fs.View(), d) && GoodName(name)
    modifies fs.Repr()
    ensures Sound(fs) && (r == 0 || r == -1)
    ensures r == -1 ==> fs.View() == old(fs.View())
    ensures r == 0 ==> Deleted(old(fs.View()), fs.View(), d, I_FILE, name)
    ensures r == -1 <==> Missing(Dir(old(fs.View()), d), I_FILE, name, NUM_DENTRIES)
  {
    hide Core, ZeroTails, TreeAt, Dir, DirShape, LiveCount, DropEntry, FreeNode, Found, Hit, Deleted, Missing, FileSystem.View;
    ghost var s := fs.View();
    DirFacts(s, d);
    var m := SearchDentry(fs, d, name, I_FILE);
    InodesNonNegative(Dir(s, d), I_FILE, name);
    if m == -1 { return -1; }
    ghost var k := FoundEntry(s, d, I_FILE, name, m);
    var deleted := DeleteDentry(fs, d, m, I_FILE, k);
    r := -1;
    if deleted != 0 {
      FinishDelete(s, d, k, m, I_FILE, name);
      AfterDrop(s, d, k, m);
      FreeInode(fs, m);
      r := 0;
    }
  }

  // ---------- A fresh file system ----------

  /** The state mkfs leaves: a root directory in inode 0 and block 0, and nothing else. */
  ghost predicate Fresh(s: Fs) {
    && Shape(s)
    && (forall b :: 0 <= b < NUM_BLOCKS ==> s.blockMap[b] == if b == 0 then 1 else 0)
    && (forall i :: 0 <= i < NUM_INODES ==> s.inodeMap[i] == if i == 0 then 1 else 0)
    && (forall i :: 0 <= i < NUM_INODES ==> InodeOf(s, i) == if i == 0 then NodeRecord(0, 0, I_DIR) else ZeroInode())
    && s.disk[0] == DotBlock(0, 0)
  }

  lemma {:induction false} FreshPtr(s: Fs, x: Slot)
    requires Fresh(s) && Wf(x)
    ensures Ptr(s, x) == 0
  {
    match x
    case Root(i, r) =>
    case Child(p, w) => FreshPtr(s, p);
  }

  lemma FreshInv(s: Fs)
    requires Fresh(s)
    ensures Inv(s) && Conserved(s) && Leaked(s) == {}
  {
    forall x | Wf(x) ensures Ptr(s, x) == 0 {
      FreshPtr(s, x);
    }
    forall i | 0 <= i < NUM_INODES ensures Record(s, i) {
    }
    assert Leaked(s) == {};
    LeakedCount(s);
  }

  lemma FreshDirs(s: Fs, x: nat, k: nat)
    requires Fresh(s)
    ensures IsDir(s, x) <==> x == 0
    ensures Dir(s, 0) == FreshSlots(0, 0) && !EntryAt(s, x, k)
  {
    hide DotBlock, Slots;
    DotBlockSlots(0, 0);
  }

  lemma OnlyRootTree(s: Fs)
    requires Shape(s) && InodeOf(s, 0).fileNum == 2 && Dir(s, 0) == FreshSlots(0, 0)
    requires forall x: nat :: IsDir(s, x) <==> x == 0
    requires forall x: nat, k: nat :: !EntryAt(s, x, k)
    requires forall n :: 0 < n < NUM_INODES ==> s.inodeMap[n] == 0
    ensures TreeAt(s, seq<nat>(NUM_INODES, _ => 0))
  {
    hide Dir, DirShape, LiveCount, EntryAt, IsDir, FreshSlots;
    FreshShape(0, 0);
    FreshDotDot(0, 0);
  }

  lemma FreshDotDot(parent: nat, m: nat)
    ensures FreshSlots(parent, m)[1].ino == parent
  {
  }

  lemma FreshTreeInv(s: Fs)
    requires Fresh(s)
    ensures TreeInv(s) && Dir(s, 0) == FreshSlots(0, 0) && LinksOk(s)
  {
    hide Inv, Dir, DirCount, IsDir, EntryAt, TreeAt, NodeRecord, FreshSlots, DotBlock;
    FreshInv(s);
    forall x: nat ensures IsDir(s, x) <==> x == 0 { FreshDirs(s, x, 0); }
    forall x: nat, k: nat ensures !EntryAt(s, x, k) { FreshDirs(s, x, k); }
    FreshDirs(s, 0, 0);
    FreshCounts();
    OnlyRootTree(s);
  }

  lemma FreshCounts()
    ensures NodeRecord(0, 0, I_DIR).fileNum == 2 && NodeRecord(0, 0, I_DIR).links == 1
    ensures DirCount(FreshSlots(0, 0), NUM_DENTRIES) == 0
  {
    DirCountBound(FreshSlots(0, 0), NUM_DENTRIES);
  }

  lemma ClearedToFresh(s: Fs)
    requires Cleared(s)
    ensures
      var t := SetInode(s.(inodeMap := s.inodeMap[0 := 1], blockMap := s.blockMap[0 := 1]), 0, NodeRecord(0, 0, I_DIR));
      Fresh(t.(disk := t.disk[0 := DotBlock(0, 0)]))
  {
    hide NodeRecord, DotBlock;
    var u := s.(inodeMap := s.inodeMap[0 := 1], blockMap := s.blockMap[0 := 1]);
    var t := SetInode(u, 0, NodeRecord(0, 0, I_DIR));
    var v := t.(disk := t.disk[0 := DotBlock(0, 0)]);
    forall i | 0 <= i < NUM_INODES ensures InodeOf(v, i) == if i == 0 then NodeRecord(0, 0, I_DIR) else ZeroInode() {
      assert InodeOf(v, i) == InodeOf(t, i) && InodeOf(u, i) == InodeOf(s, i);
    }
  }

  method DoMkfs(fs: FileSystem)
    requires fs.Wired()
    modifies fs.Repr()
    ensures Sound(fs) && Fresh(fs.View())
  {
    hide NodeRecord, DotBlock, SetInode, Fresh, TreeInv, LinksOk;
    ClearAreas(fs);
    ghost var s := fs.View();
    assert fs.View().inodeMap[0] == 0 && fs.View().blockMap[0] == 0;
    var i := AllocInode(fs);
    var b := fs.AllocBlock();
    assert i == Some(0) && b == Some(0);
    CreateInode(fs, 0, 0, I_DIR, O_CREATE_MODE);
    CreateDirBlock(fs, 0, 0, 0);
    ClearedToFresh(s);
    FreshTreeInv(fs.View());
  }

  /** A disk set up and formatted. */
  method Format() returns (fs: FileSystem)
    ensures fresh(fs) && Sound(fs) && Fresh(fs.View()) && fs.Valid()
  {
    hide Sound, Fresh;
    fs := new FileSystem();
    DoMkfs(fs);
    SoundValid(fs);
  }

  lemma SoundValid(fs: FileSystem)
    requires Sound(fs)
    ensures fs.Valid()
  {
  }

  /** Both maps and every inode record cleared, sector by sector. */
  ghost predicate Cleared(s: Fs) {
    && Shape(s) && (forall b :: 0 <= b < NUM_BLOCKS ==> s.blockMap[b] == 0)
    && (forall i :: 0 <= i < NUM_INODES ==> s.inodeMap[i] == 0 && InodeOf(s, i) == ZeroInode())
  }

  method ClearAreas(fs: FileSystem)
    requires fs.Wired()
    modifies fs.Repr()
    ensures fs.Wired() && fs.Synced() && Cleared(fs.View())
  {
    forall j | 0 <= j < INODES_PER_SECTOR { fs.sctBuffer[j] := ZeroInode(); }
    forall i | 0 <= i < NUM_INODES { fs.inodeMapDisk[i] := 0; }
    forall i | 0 <= i < NUM_BLOCKS { fs.blockMapDisk[i] := 0; }
    forall k | 0 <= k < NUM_SECTORS { fs.itabDisk[k] := fs.sctBuffer[..]; }
  }
}
