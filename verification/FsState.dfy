/** The file system as a value: data blocks, the two allocation maps and the
    inode table, with the pointer trees that hang off the inodes. */
module FsState {
  import opened Bytes

  const NUM_BLOCKS := 4096      // blocks the allocator's scan can hand out
  const NUM_INODES := 512
  const INODES_PER_SECTOR := 4
  const NUM_SECTORS := 128

  // Layout of the twenty pointers of an inode.
  const DIRECT := 14
  const SINGLE := 3
  const DOUBLE := 2
  const NUM_PTRS := 20
  const FIRST_BASE := 14
  const SECOND_BASE := 17
  const THIRD_BASE := 19
  const PAGE_LIMIT := 0x10_0000 // pages a 32-bit offset can name

  type PtrTable = p: seq<nat> | |p| == NUM_PTRS witness seq(NUM_PTRS, _ => 0)

  datatype Inode = Inode(mode: nat, kind: nat, uid: int, id: nat, fileNum: nat,
                         size: nat, links: nat, blocks: nat, ptrs: PtrTable)

  /** The all-zero record of a free inode. */
  function ZeroInode(): Inode {
    Inode(0, 0, 0, 0, 0, 0, 0, 0, seq(NUM_PTRS, _ => 0))
  }

  /** One disk sector of the inode table. */
  type InodeSector = t: seq<Inode> | |t| == INODES_PER_SECTOR witness seq(INODES_PER_SECTOR, _ => ZeroInode())

  datatype Fs = Fs(disk: seq<Block>, blockMap: seq<byte>, itab: seq<InodeSector>, inodeMap: seq<byte>)

  ghost predicate Shape(s: Fs) {
    && |s.disk| == NUM_BLOCKS && |s.blockMap| == NUM_BLOCKS
    && |s.itab| == NUM_SECTORS && |s.inodeMap| == NUM_INODES
  }

  ghost function InodeOf(s: Fs, i: nat): (n: Inode)
    requires Shape(s) && i < NUM_INODES
  {
    s.itab[i / INODES_PER_SECTOR][i % INODES_PER_SECTOR]
  }

  ghost function SetInode(s: Fs, i: nat, n: Inode): (r: Fs)
    requires Shape(s) && i < NUM_INODES
    ensures Shape(r) && r.disk == s.disk && r.blockMap == s.blockMap && r.inodeMap == s.inodeMap
    ensures forall j :: 0 <= j < NUM_INODES ==> InodeOf(r, j) == if j == i then n else InodeOf(s, j)
  {
    var k := i / INODES_PER_SECTOR;
    s.(itab := s.itab[k := s.itab[k][i % INODES_PER_SECTOR := n]])
  }

  // ---------- Pointer slots ----------

  /** Where a block number is stored: in an inode, or in a word of an index block. */
  datatype Slot = Root(ino: nat, r: nat) | Child(parent: Slot, w: nat)

  /** How many index blocks lie between the slot's block and the data. */
  function Level(x: Slot): int {
    match x
    case Root(_, r) => if r < FIRST_BASE then 0 else if r < SECOND_BASE then 1 else if r < THIRD_BASE then 2 else 3
    case Child(p, _) => Level(p) - 1
  }

  predicate Wf(x: Slot) {
    match x
    case Root(i, r) => i < NUM_INODES && r < NUM_PTRS
    case Child(p, w) => Wf(p) && Level(p) > 0 && w < WORDS_PER_BLOCK
  }

  function Owner(x: Slot): nat {
    match x
    case Root(i, _) => i
    case Child(p, _) => Owner(p)
  }

  lemma {:induction false} OwnerInRange(x: Slot)
    requires Wf(x)
    ensures Owner(x) < NUM_INODES && Level(x) >= 0
  {
    match x
    case Root(i, r) =>
    case Child(p, w) => OwnerInRange(p);
  }

  /** The block number a slot holds; 0 stands for a hole. */
  ghost function Ptr(s: Fs, x: Slot): nat
    requires Shape(s) && Wf(x)
  {
    match x
    case Root(i, r) => InodeOf(s, i).ptrs[r]
    case Child(p, w) => var b := Ptr(s, p); if b == 0 || b >= NUM_BLOCKS then 0 else Word(s.disk[b], w)
  }

  /** Every nonzero pointer names a used block and no block has two owners. */
  ghost predicate Owned(s: Fs)
    requires Shape(s)
  {
    && s.blockMap[0] == 1
    && (forall b :: 0 <= b < NUM_BLOCKS ==> s.blockMap[b] <= 1)
    && (forall x {:trigger Ptr(s, x)} :: Wf(x) && Ptr(s, x) != 0 ==> Ptr(s, x) < NUM_BLOCKS && s.blockMap[Ptr(s, x)] == 1)
    && (forall x, y {:trigger Ptr(s, x), Ptr(s, y)} :: Wf(x) && Wf(y) && Ptr(s, x) == Ptr(s, y) != 0 ==> x == y)
  }

  ghost predicate Held(s: Fs, b: nat)
    requires Shape(s)
  {
    exists x :: Wf(x) && Ptr(s, x) == b
  }

  /** The blocks marked used that no pointer names, other than the root's block 0. */
  ghost function Leaked(s: Fs): set<nat>
    requires Shape(s)
  {
    set b: nat | 0 < b < NUM_BLOCKS && s.blockMap[b] != 0 && !Held(s, b)
  }

  lemma SamePtrsSameLeaks(s: Fs, t: Fs)
    requires Shape(s) && Shape(t) && t.blockMap == s.blockMap
    requires forall x {:trigger Ptr(t, x)} {:trigger Ptr(s, x)} :: Wf(x) ==> Ptr(t, x) == Ptr(s, x)
    ensures Leaked(t) == Leaked(s)
  {
    forall b: nat ensures Held(t, b) == Held(s, b) {
      if Held(s, b) {
        var x :| Wf(x) && Ptr(s, x) == b;
        assert Ptr(t, x) == b;
      }
      if Held(t, b) {
        var x :| Wf(x) && Ptr(t, x) == b;
        assert Ptr(s, x) == b;
      }
    }
  }

  // ---------- Growing a tree by one block ----------

  ghost predicate CanGrow(s: Fs, x: Slot, b: nat)
    requires Shape(s)
  {
    && Wf(x) && Ptr(s, x) == 0
    && 0 < b < NUM_BLOCKS && s.blockMap[b] == 0
    && (x.Child? ==> Ptr(s, x.parent) != 0)
  }

  /** Block b is taken from the map, cleared and stored in slot x. */
  ghost function Grow(s: Fs, x: Slot, b: nat): (r: Fs)
    requires Shape(s) && Owned(s) && CanGrow(s, x, b)
    ensures Shape(r)
  {
    OwnerInRange(x);
    var n := InodeOf(s, Owner(x));
    match x
    case Root(i, k) =>
      SetInode(s, i, n.(ptrs := n.ptrs[k := b], blocks := n.blocks + 1))
        .(disk := s.disk[b := ZeroBlock()], blockMap := s.blockMap[b := 1])
    case Child(p, w) =>
      var c := Ptr(s, p);
      SetInode(s, Owner(x), n.(blocks := n.blocks + 1))
        .(disk := s.disk[c := PutWord(s.disk[c], w, b)][b := ZeroBlock()], blockMap := s.blockMap[b := 1])
  }

  /** The words of a used block after a growth step. */
  lemma GrowWord(s: Fs, x: Slot, b: nat, c: nat, v: nat)
    requires Shape(s) && Owned(s) && CanGrow(s, x, b)
    requires 0 < c < NUM_BLOCKS && v < WORDS_PER_BLOCK
    ensures Word(Grow(s, x, b).disk[c], v) ==
            if c == b then 0
            else if x.Child? && c == Ptr(s, x.parent) && v == x.w then b
            else Word(s.disk[c], v)
  {
    var t := Grow(s, x, b);
    if c == b {
      assert t.disk[c] == ZeroBlock();
      WordOfZero(v);
    } else if x.Child? && c == Ptr(s, x.parent) {
      assert t.disk[c] == PutWord(s.disk[c], x.w, b);
      WordOfPutWord(s.disk[c], x.w, b, v);
    } else {
      assert t.disk[c] == s.disk[c];
    }
  }

  /** Growing changes the one slot it fills and no other pointer of any file. */
  lemma {:induction false} GrowPtr(s: Fs, x: Slot, b: nat, y: Slot)
    requires Shape(s) && Owned(s) && CanGrow(s, x, b) && Wf(y)
    ensures Ptr(Grow(s, x, b), y) == if y == x then b else Ptr(s, y)
  {
    match y
    case Root(i, k) =>
      OwnerInRange(x);
    case Child(q, v) =>
      GrowPtr(s, x, b, q);
      GrowWordAt(s, x, b, q, v);
  }

  lemma GrowWordAt(s: Fs, x: Slot, b: nat, q: Slot, v: nat)
    requires Shape(s) && Owned(s) && CanGrow(s, x, b) && Wf(Child(q, v))
    requires Ptr(Grow(s, x, b), q) == if q == x then b else Ptr(s, q)
    ensures Ptr(Grow(s, x, b), Child(q, v)) == if Child(q, v) == x then b else Ptr(s, Child(q, v))
  {
    var c := Ptr(Grow(s, x, b), q);
    if c != 0 {
      GrowWord(s, x, b, c, v);
    }
  }

  lemma GrowOwned(s: Fs, x: Slot, b: nat)
    requires Shape(s) && Owned(s) && CanGrow(s, x, b)
    ensures Owned(Grow(s, x, b))
    ensures Leaked(Grow(s, x, b)) == Leaked(s)
  {
    var t := Grow(s, x, b);
    forall y | Wf(y) ensures Ptr(t, y) == if y == x then b else Ptr(s, y) {
      GrowPtr(s, x, b, y);
    }
    forall c: nat | 0 < c < NUM_BLOCKS ensures Held(t, c) <==> Held(s, c) || c == b {
      if Held(s, c) {
        var y :| Wf(y) && Ptr(s, y) == c;
        assert Ptr(t, y) == c;
      }
      if c == b {
        assert Ptr(t, x) == b;
      }
      if Held(t, c) {
        var y :| Wf(y) && Ptr(t, y) == c;
        assert y == x || Ptr(s, y) == c;
      }
    }
  }
}
