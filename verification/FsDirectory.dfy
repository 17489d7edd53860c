/** Directories: a data block read as 128 entries, and what holds of the
    entries of all directories together. */
module FsDirectory {
  import opened Bytes
  import opened FsState
  import opened FsFile
  import opened FsInvariant

  const NUM_DENTRIES := 128
  const DENTRY_SIZE := 32
  const NAME_SIZE := 24

  type NameField = f: seq<byte> | |f| == NAME_SIZE witness seq(NAME_SIZE, _ => 0)

  datatype Dentry = Dentry(kind: nat, ino: nat, name: NameField)

  // ---------- Entries as bytes ----------

  function DentryAt(b: Block, k: nat): Dentry
    requires k < NUM_DENTRIES
  {
    Dentry(Word(b, 8 * k), Word(b, 8 * k + 1), b[DENTRY_SIZE * k + 8..DENTRY_SIZE * k + 32])
  }

  function PutName(b: Block, k: nat, f: NameField): Block
    requires k < NUM_DENTRIES
  {
    b[..DENTRY_SIZE * k + 8] + f + b[DENTRY_SIZE * k + 32..]
  }

  function PutDentry(b: Block, k: nat, d: Dentry): Block
    requires k < NUM_DENTRIES && d.kind < WORD_LIMIT && d.ino < WORD_LIMIT
  {
    PutName(PutWord(PutWord(b, 8 * k + 1, d.ino), 8 * k, d.kind), k, d.name)
  }

  ghost function Slots(b: Block): (ds: seq<Dentry>)
    ensures |ds| == NUM_DENTRIES
  {
    seq(NUM_DENTRIES, k requires 0 <= k < NUM_DENTRIES => DentryAt(b, k))
  }

  lemma PutWordElsewhere(b: Block, k: nat, w: nat, p: nat)
    requires k < WORDS_PER_BLOCK && w < WORD_LIMIT && p < BLOCK_SIZE && p / 4 != k
    ensures PutWord(b, k, w)[p] == b[p]
  {
  }

  lemma PutNameWord(b: Block, k: nat, f: NameField, w: nat)
    requires k < NUM_DENTRIES && w < WORDS_PER_BLOCK && (w / 8 != k || w % 8 < 2)
    ensures Word(PutName(b, k, f), w) == Word(b, w)
  {
    var r := PutName(b, k, f);
    forall p | 4 * w <= p < 4 * w + 4 ensures r[p] == b[p] {
    }
  }

  /** Storing entry k and reading the entries back: only entry k changes. */
  lemma SlotsOfPut(b: Block, k: nat, d: Dentry)
    requires k < NUM_DENTRIES && d.kind < WORD_LIMIT && d.ino < WORD_LIMIT
    ensures Slots(PutDentry(b, k, d)) == Slots(b)[k := d]
  {
    forall j | 0 <= j < NUM_DENTRIES ensures DentryAt(PutDentry(b, k, d), j) == if j == k then d else DentryAt(b, j) {
      DentryOfPut(b, k, d, j);
    }
  }

  lemma DentryOfPut(b: Block, k: nat, d: Dentry, j: nat)
    requires k < NUM_DENTRIES && j < NUM_DENTRIES && d.kind < WORD_LIMIT && d.ino < WORD_LIMIT
    ensures DentryAt(PutDentry(b, k, d), j) == if j == k then d else DentryAt(b, j)
  {
    hide Word, PutWord;
    var b1 := PutWord(b, 8 * k + 1, d.ino);
    var b2 := PutWord(b1, 8 * k, d.kind);
    PutNameWord(b2, k, d.name, 8 * j);
    PutNameWord(b2, k, d.name, 8 * j + 1);
    WordOfPutWord(b1, 8 * k, d.kind, 8 * j);
    WordOfPutWord(b1, 8 * k, d.kind, 8 * j + 1);
    WordOfPutWord(b, 8 * k + 1, d.ino, 8 * j);
    WordOfPutWord(b, 8 * k + 1, d.ino, 8 * j + 1);
    if j != k {
      NameElsewhere(b, k, d, j);
    }
  }

  lemma NameElsewhere(b: Block, k: nat, d: Dentry, j: nat)
    requires k < NUM_DENTRIES && j < NUM_DENTRIES && j != k && d.kind < WORD_LIMIT && d.ino < WORD_LIMIT
    ensures DentryAt(PutDentry(b, k, d), j).name == DentryAt(b, j).name
  {
    hide PutWord, Word;
    var b1 := PutWord(b, 8 * k + 1, d.ino);
    var b2 := PutWord(b1, 8 * k, d.kind);
    forall p | DENTRY_SIZE * j + 8 <= p < DENTRY_SIZE * j + 32 ensures PutName(b2, k, d.name)[p] == b[p] {
      PutWordElsewhere(b, 8 * k + 1, d.ino, p);
      PutWordElsewhere(b1, 8 * k, d.kind, p);
    }
  }

  /** On disk an entry is its kind and its inode number, four bytes each with the
      lowest first, and then the name. */
  lemma DentryBytes(b: Block, k: nat, d: Dentry)
    requires k < NUM_DENTRIES && d.kind < WORD_LIMIT && d.ino < WORD_LIMIT
    ensures
      var r := PutDentry(b, k, d);
      && r[32 * k] == d.kind % 256 && r[32 * k + 1] == d.kind / 256 % 256
      && r[32 * k + 2] == d.kind / 0x1_0000 % 256 && r[32 * k + 3] == d.kind / 0x100_0000
      && r[32 * k + 4] == d.ino % 256 && r[32 * k + 5] == d.ino / 256 % 256
      && r[32 * k + 6] == d.ino / 0x1_0000 % 256 && r[32 * k + 7] == d.ino / 0x100_0000
      && r[32 * k + 8..32 * k + 32] == d.name
  {
  }

  // ---------- Names ----------

  /** A name as callers give it: up to 23 characters, no NUL. */
  ghost predicate GoodName(n: seq<byte>) {
    |n| < NAME_SIZE && forall k :: 0 <= k < |n| ==> n[k] != 0
  }

  function Padded(n: seq<byte>): (f: NameField)
    requires |n| < NAME_SIZE
  {
    n + seq(NAME_SIZE - |n|, _ => 0)
  }

  function NoName(): NameField {
    seq(NAME_SIZE, _ => 0)
  }

  /** The characters of a C string stored at the start of f. */
  function CString(f: seq<byte>): seq<byte> {
    if |f| == 0 || f[0] == 0 then [] else [f[0]] + CString(f[1..])
  }

  lemma {:induction false} CStringPrefix(n: seq<byte>, rest: seq<byte>)
    requires (forall k :: 0 <= k < |n| ==> n[k] != 0) && (|rest| > 0 ==> rest[0] == 0)
    ensures CString(n + rest) == n
  {
    if |n| > 0 {
      assert (n + rest)[1..] == n[1..] + rest;
      CStringPrefix(n[1..], rest);
    } else {
      assert n + rest == rest;
    }
  }

  /** A zero-padded field holds exactly the name it was made from. */
  lemma CStringOfPadded(n: seq<byte>)
    requires GoodName(n)
    ensures CString(Padded(n)) == n
  {
    CStringPrefix(n, seq(NAME_SIZE - |n|, _ => 0));
  }

  // ---------- Looking up ----------

  /** `type & mask` is nonzero. */
  predicate Matches(kind: nat, mask: nat) {
    (kind % 2 == 1 && mask % 2 == 1) || (kind / 2 % 2 == 1 && mask / 2 % 2 == 1)
  }

  ghost function LiveCount(ds: seq<Dentry>, k: nat): (n: nat)
    requires k <= |ds|
    ensures n <= k
  {
    if k == 0 then 0 else LiveCount(ds, k - 1) + if ds[k - 1].kind != 0 then 1 else 0
  }

  lemma {:induction false} LiveCountMonotone(ds: seq<Dentry>, j: nat, k: nat)
    requires j <= k <= |ds|
    ensures LiveCount(ds, j) <= LiveCount(ds, k)
    ensures LiveCount(ds, j) == LiveCount(ds, k) ==> forall i :: j <= i < k ==> ds[i].kind == 0
  {
    if j < k {
      LiveCountMonotone(ds, j, k - 1);
    }
  }

  lemma {:induction false} LiveCountPut(ds: seq<Dentry>, i: nat, d: Dentry, k: nat)
    requires i < |ds| && k <= |ds|
    ensures LiveCount(ds[i := d], k) ==
            LiveCount(ds, k) + if i < k then (if d.kind != 0 then 1 else 0) - (if ds[i].kind != 0 then 1 else 0) else 0
  {
    if k > 0 {
      LiveCountPut(ds, i, d, k - 1);
    }
  }

  /** Entry k is the one a search for `name` under `mask` finds: it matches and
      nothing before it does. */
  ghost predicate Hit(ds: seq<Dentry>, mask: nat, name: seq<byte>, k: nat) {
    k < |ds| && Matches(ds[k].kind, mask) && CString(ds[k].name) == name && Missing(ds, mask, name, k)
  }

  ghost predicate Missing(ds: seq<Dentry>, mask: nat, name: seq<byte>, n: nat) {
    forall j :: 0 <= j < n && j < |ds| ==> !(Matches(ds[j].kind, mask) && CString(ds[j].name) == name)
  }

  // ---------- The directories of a file system ----------

  ghost predicate IsDir(s: Fs, d: nat)
    requires Shape(s)
    ensures IsDir(s, d) ==> d < NUM_INODES
  {
    d < NUM_INODES && s.inodeMap[d] == 1 && InodeOf(s, d).kind == I_DIR
  }

  /** The entries of a directory; the root's are in block 0. */
  ghost function Dir(s: Fs, d: nat): (ds: seq<Dentry>)
    requires Shape(s) && d < NUM_INODES
    ensures |ds| == NUM_DENTRIES
  {
    Slots(s.disk[InodeOf(s, d).ptrs[0] % NUM_BLOCKS])
  }

  /** One directory's entries on their own. Entries 0 and 1 are "." and "..";
      freed entries keep their inode number, but an inode number in use never
      occurs before the entry that uses it. */
  ghost predicate DirShape(ds: seq<Dentry>, d: nat)
    requires |ds| == NUM_DENTRIES
  {
    && ds[0] == Dentry(I_DIR, d, Padded(DOT)) && ds[1].kind == I_DIR && ds[1].name == Padded(DOT + DOT)
    && (forall k :: 0 <= k < NUM_DENTRIES ==> SlotShape(ds[k]))
    && (forall j, k :: 0 <= j < k < NUM_DENTRIES && ds[j].kind == ds[k].kind != 0 ==> ds[j].name != ds[k].name)
    && (forall j, k :: 0 <= j < k < NUM_DENTRIES && 2 <= k && ds[k].kind != 0 ==> ds[j].ino != ds[k].ino)
  }

  const DOT: seq<byte> := [46]

  ghost predicate SlotShape(e: Dentry) {
    && e.kind <= I_FILE && e.ino < NUM_INODES
    && (e.kind == 0 ==> e.name == NoName())
    && (exists n :: GoodName(n) && e.name == Padded(n))
  }

  /** Entry k of directory d is in use and is not one of the dots. */
  ghost predicate EntryAt(s: Fs, d: nat, k: nat)
    requires Shape(s)
  {
    IsDir(s, d) && 2 <= k < NUM_DENTRIES && Dir(s, d)[k].kind != 0
  }

  ghost function Target(s: Fs, d: nat, k: nat): nat
    requires Shape(s) && EntryAt(s, d, k)
  {
    Dir(s, d)[k].ino
  }

  ghost predicate LocalOk(s: Fs, d: nat)
    requires Shape(s) && d < NUM_INODES
  {
    DirShape(Dir(s, d), d) && InodeOf(s, d).fileNum == LiveCount(Dir(s, d), NUM_DENTRIES)
  }

  /** An entry names a live inode of its kind other than the root; a directory
      so named has this one as its "..", and lies one level deeper. */
  ghost predicate EntryOk(s: Fs, depth: seq<nat>, d: nat, k: nat)
    requires Shape(s) && EntryAt(s, d, k) && |depth| == NUM_INODES
  {
    var m := Target(s, d, k);
    && 0 < m < NUM_INODES && s.inodeMap[m] == 1 && InodeOf(s, m).kind == Dir(s, d)[k].kind
    && (IsDir(s, m) ==> Dir(s, m)[1].ino == d && depth[m] == depth[d] + 1)
    && (InodeOf(s, m).kind == I_FILE ==> InodeOf(s, m).links == 1)
  }

  ghost predicate HasEntry(s: Fs, m: nat)
    requires Shape(s)
  {
    exists d, k :: EntryAt(s, d, k) && Target(s, d, k) == m
  }

  /** All directories together, in histories without hard links: the live inodes
      other than the root and the entries in use name each other one to one. */
  ghost predicate TreeAt(s: Fs, depth: seq<nat>)
    requires Shape(s)
    ensures TreeAt(s, depth) ==> |depth| == NUM_INODES
  {
    && |depth| == NUM_INODES && depth[0] == 0 && IsDir(s, 0) && Dir(s, 0)[1].ino == 0
    && (forall d :: IsDir(s, d) ==> LocalOk(s, d))
    && (forall d, k :: EntryAt(s, d, k) ==> EntryOk(s, depth, d, k))
    && (forall d, k, e, j :: EntryAt(s, d, k) && EntryAt(s, e, j) && Target(s, d, k) == Target(s, e, j) ==> d == e && k == j)
    && (forall m :: 0 < m < NUM_INODES && s.inodeMap[m] == 1 ==> HasEntry(s, m))
  }

  ghost predicate Tree(s: Fs)
    requires Shape(s)
  {
    exists depth :: TreeAt(s, depth)
  }

  // ---------- Reading the invariant off ----------

  lemma TreeLocal(s: Fs, depth: seq<nat>, d: nat)
    requires Shape(s) && TreeAt(s, depth) && IsDir(s, d)
    ensures LocalOk(s, d)
  {
  }

  lemma TreeEntry(s: Fs, depth: seq<nat>, d: nat, k: nat)
    requires Shape(s) && TreeAt(s, depth) && EntryAt(s, d, k)
    ensures |depth| == NUM_INODES && EntryOk(s, depth, d, k)
  {
  }

  lemma TreeUnique(s: Fs, depth: seq<nat>, d: nat, k: nat, e: nat, j: nat)
    requires Shape(s) && TreeAt(s, depth) && EntryAt(s, d, k) && EntryAt(s, e, j)
    ensures Target(s, d, k) == Target(s, e, j) ==> d == e && k == j
  {
  }

  lemma TreeNamed(s: Fs, depth: seq<nat>, m: nat) returns (d: nat, k: nat)
    requires Shape(s) && TreeAt(s, depth) && 0 < m < NUM_INODES && s.inodeMap[m] == 1
    ensures EntryAt(s, d, k) && Target(s, d, k) == m
  {
    assert HasEntry(s, m);
    d, k :| EntryAt(s, d, k) && Target(s, d, k) == m;
  }

  lemma TreeRoot(s: Fs, depth: seq<nat>)
    requires Shape(s) && TreeAt(s, depth)
    ensures |depth| == NUM_INODES && depth[0] == 0 && IsDir(s, 0) && Dir(s, 0)[1].ino == 0
  {
  }
}
