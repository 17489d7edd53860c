/** The file system as it runs: the disk areas, the static buffers every sector
    passes through, and the operations that rewrite them in place. */
module FileSystems {
  import opened Bytes
  import opened FsState
  import opened FsFile
  import opened FsInvariant

  const NUM_FDESCS := 16

  datatype Fdesc = Fdesc(ino: nat, occupied: bool, mode: nat, rd: nat, wr: nat)

  const O_RDONLY := 1
  const O_WRONLY := 2
  const O_RDWR := 3

  class FileSystem {
    // What the disk holds.
    const disk: array<Block>
    const blockMapDisk: array<byte>
    const inodeMapDisk: array<byte>
    const itabDisk: array<InodeSector>
    // Static buffers of the kernel.
    const blkBuffer: array<byte>
    const sctBuffer: array<Inode>
    const blockMap: array<byte>
    const inodeMap: array<byte>
    const fdesc: array<Fdesc>
    // The inode sector sctBuffer was last filled from.
    ghost var sector: nat

    ghost function Repr(): set<object> {
      {this, disk, blockMapDisk, inodeMapDisk, itabDisk, blkBuffer, sctBuffer, blockMap, inodeMap, fdesc}
    }

    /** An unformatted disk, all zeros, and the buffers. */
    constructor ()
      ensures Wired() && Synced() && fresh(Repr())
    {
      disk := new Block[NUM_BLOCKS](_ => ZeroBlock());
      blockMapDisk := new byte[NUM_BLOCKS](_ => 0);
      inodeMapDisk := new byte[NUM_INODES](_ => 0);
      itabDisk := new InodeSector[NUM_SECTORS](_ => seq(INODES_PER_SECTOR, _ => ZeroInode()));
      blkBuffer := new byte[BLOCK_SIZE](_ => 0);
      sctBuffer := new Inode[INODES_PER_SECTOR](_ => ZeroInode());
      blockMap := new byte[NUM_BLOCKS](_ => 0);
      inodeMap := new byte[NUM_INODES](_ => 0);
      fdesc := new Fdesc[NUM_FDESCS](_ => Fdesc(0, false, 0, 0, 0));
      sector := 0;
    }

    /** The buffers have their sizes and do not overlap. */
    ghost predicate Wired()
      reads this
    {
      && disk.Length == NUM_BLOCKS && blockMapDisk.Length == NUM_BLOCKS
      && inodeMapDisk.Length == NUM_INODES && itabDisk.Length == NUM_SECTORS
      && blkBuffer.Length == BLOCK_SIZE && sctBuffer.Length == INODES_PER_SECTOR
      && blockMap.Length == NUM_BLOCKS && inodeMap.Length == NUM_INODES
      && fdesc.Length == NUM_FDESCS
      && blkBuffer != blockMapDisk && blkBuffer != inodeMapDisk && blkBuffer != blockMap && blkBuffer != inodeMap
      && blockMap != blockMapDisk && blockMap != inodeMapDisk && blockMap != inodeMap
      && inodeMap != blockMapDisk && inodeMap != inodeMapDisk && blockMapDisk != inodeMapDisk
      && sector < NUM_SECTORS
    }

    /** The state the buffers and the disk stand for: the buffered inode sector
        replaces its copy on disk until it is written back. */
    ghost function View(): (s: Fs)
      requires Wired()
      reads this, disk, blockMapDisk, inodeMapDisk, itabDisk, sctBuffer
      ensures Shape(s)
    {
      Fs(disk[..], blockMapDisk[..], itabDisk[..][sector := sctBuffer[..]], inodeMapDisk[..])
    }

    /** Nothing is waiting in the inode buffer. */
    ghost predicate Synced()
      requires Wired()
      reads this, itabDisk, sctBuffer
    {
      itabDisk[sector] == sctBuffer[..]
    }

    ghost predicate Valid()
      reads this, disk, blockMapDisk, inodeMapDisk, itabDisk, sctBuffer
      ensures Valid() ==> Wired()
    {
      Wired() && Synced() && Inv(View())
    }

    // ---------- Sector and block transfers ----------

    method ReadBlock(b: nat)
      requires Wired() && b < NUM_BLOCKS
      modifies blkBuffer
      ensures blkBuffer[..] == disk[b] == View().disk[b]
    {
      forall i | 0 <= i < BLOCK_SIZE { blkBuffer[i] := disk[b][i]; }
    }

    method WriteBlock(b: nat)
      requires Wired() && b < NUM_BLOCKS
      modifies disk
      ensures disk[..] == old(disk[..])[b := blkBuffer[..]]
      ensures View() == old(View()).(disk := old(View()).disk[b := blkBuffer[..]])
    {
      disk[b] := blkBuffer[..];
    }

    method ClearBuffer()
      requires Wired()
      modifies blkBuffer
      ensures blkBuffer[..] == ZeroBlock()
    {
      forall i | 0 <= i < BLOCK_SIZE { blkBuffer[i] := 0; }
    }

    method GetInode(i: nat) returns (at: nat)
      requires Wired() && Synced() && i < NUM_INODES
      modifies this`sector, sctBuffer
      ensures Wired() && Synced() && View() == old(View())
      ensures at == i % INODES_PER_SECTOR && sector == i / INODES_PER_SECTOR
      ensures sctBuffer[at] == InodeOf(View(), i)
    {
      var k := i / INODES_PER_SECTOR;
      forall j | 0 <= j < INODES_PER_SECTOR { sctBuffer[j] := itabDisk[k][j]; }
      sector := k;
      at := i % INODES_PER_SECTOR;
      assert sctBuffer[..] == itabDisk[k];
      assert itabDisk[..][sector := sctBuffer[..]] == itabDisk[..];
      assert old(itabDisk[..][sector := sctBuffer[..]]) == itabDisk[..];
    }

    /** What the inode buffer holds is the inode table. */
    lemma Buffered(at: nat)
      requires Wired() && at < INODES_PER_SECTOR
      ensures sctBuffer[at] == InodeOf(View(), INODES_PER_SECTOR * sector + at)
    {
    }

    method WriteInode(k: nat)
      requires Wired() && k == sector
      modifies itabDisk
      ensures Synced() && View() == old(View())
    {
      itabDisk[k] := sctBuffer[..];
      assert itabDisk[..][sector := sctBuffer[..]] == old(itabDisk[..][sector := sctBuffer[..]]);
    }

    /** Assigns the record in the inode buffer. */
    method StoreInode(at: nat, n: Inode)
      requires Wired() && at < INODES_PER_SECTOR
      modifies sctBuffer
      ensures View() == SetInode(old(View()), INODES_PER_SECTOR * sector + at, n)
      ensures sctBuffer[..] == old(sctBuffer[..])[at := n]
    {
      ghost var s := View();
      sctBuffer[at] := n;
      assert sctBuffer[..] == old(sctBuffer[..])[at := n];
      assert View().itab == SetInode(s, INODES_PER_SECTOR * sector + at, n).itab;
    }

    // ---------- Block allocation ----------

    method GetBlockMap()
      requires Wired()
      modifies blockMap
      ensures blockMap[..] == blockMapDisk[..]
    {
      forall i | 0 <= i < NUM_BLOCKS { blockMap[i] := blockMapDisk[i]; }
    }

    method SyncBlockMap()
      requires Wired()
      modifies blockMapDisk
      ensures blockMapDisk[..] == blockMap[..]
    {
      forall i | 0 <= i < NUM_BLOCKS { blockMapDisk[i] := blockMap[i]; }
    }

    /** Takes the first free block; None is the kernel's stop when there is none. */
    method AllocBlock() returns (r: Option<nat>)
      requires Wired()
      modifies blockMap, blockMapDisk
      ensures r.None? ==> View() == old(View()) && Full(View())
      ensures r.Some? ==>
        && r.value < NUM_BLOCKS && old(View()).blockMap[r.value] == 0
        && (forall b :: 0 <= b < r.value ==> old(View()).blockMap[b] != 0)
        && View() == old(View()).(blockMap := old(View()).blockMap[r.value := 1])
    {
      GetBlockMap();
      var i := 0;
      while i != NUM_BLOCKS
        invariant 0 <= i <= NUM_BLOCKS
        invariant blockMap[..] == blockMapDisk[..] == old(blockMapDisk[..])
        invariant forall b :: 0 <= b < i ==> blockMap[b] != 0
      {
        if blockMap[i] == 0 {
          blockMap[i] := 1;
          SyncBlockMap();
          return Some(i);
        }
        i := i + 1;
      }
      return None;
    }

    // ---------- Walking and growing a file's tree ----------

    /** Allocates a block for pointer r of the buffered inode. */
    method GrowRoot(at: nat, r: nat) returns (a: Option<nat>)
      requires Wired() && Owned(View()) && at < INODES_PER_SECTOR && r < NUM_PTRS
      requires Ptr(View(), Root(INODES_PER_SECTOR * sector + at, r)) == 0
      modifies disk, blkBuffer, sctBuffer, blockMap, blockMapDisk
      ensures a.None? ==> Full(View())
      ensures a.Some? ==>
        && CanGrow(old(View()), Root(INODES_PER_SECTOR * sector + at, r), a.value)
        && View() == Grow(old(View()), Root(INODES_PER_SECTOR * sector + at, r), a.value)
    {
      hide Owned, ZeroBlock, Full, View, SetInode, Grow;
      ghost var s := View();
      ghost var x := Root(INODES_PER_SECTOR * sector + at, r);
      MapOfRoot(s);
      a := AllocBlock();
      if a.None? { return; }
      Buffered(at);
      StoreInode(at, sctBuffer[at].(ptrs := sctBuffer[at].ptrs[r := a.value], blocks := sctBuffer[at].blocks + 1));
      ClearBuffer();
      WriteBlock(a.value);
      GrowRootSteps(s, x, a.value);
    }

    /** The block a pointer of the buffered inode names, allocated on first use. */
    method LocateInInode(at: nat, r: nat) returns (res: Option<nat>)
      requires Wired() && Core(View()) && at < INODES_PER_SECTOR && r <= SECOND_BASE
      requires FileAt(View(), INODES_PER_SECTOR * sector + at)
      modifies disk, blkBuffer, sctBuffer, blockMap, blockMapDisk
      ensures res.None? ==> Full(View()) && Ptr(old(View()), Root(INODES_PER_SECTOR * sector + at, r)) == 0
      ensures res.Some? ==> Located(old(View()), View(), Root(INODES_PER_SECTOR * sector + at, r), res.value)
    {
      hide Owned, Records, Counted, Extends, Grow, Full;
      ghost var s := View();
      ghost var i := INODES_PER_SECTOR * sector + at;
      var id := sctBuffer[at].ptrs[r];
      assert id == Ptr(s, Root(i, r));
      if id == 0 {
        res := GrowRoot(at, r);
        if res.None? { return; }
        GrowLocated(s, Root(i, r), res.value);
      } else {
        UsedPtr(s, Root(i, r));
        ExtendsReflexive(s, i);
        res := Some(id);
      }
    }

    /** Stores block number b in word w of the buffered index block c, counts it
        in the buffered inode and clears the block. */
    method LinkBlock(at: nat, c: nat, w: nat, b: nat)
      requires Wired() && at < INODES_PER_SECTOR && c < NUM_BLOCKS && b < NUM_BLOCKS && w < WORDS_PER_BLOCK
      requires blkBuffer[..] == View().disk[c]
      modifies disk, blkBuffer, sctBuffer
      ensures
        var s, i := old(View()), INODES_PER_SECTOR * sector + at;
        var u := SetInode(s, i, InodeOf(s, i).(blocks := InodeOf(s, i).blocks + 1));
        View() == u.(disk := s.disk[c := PutWord(s.disk[c], w, b)][b := ZeroBlock()])
    {
      hide Word, PutWord, ZeroBlock, View, SetInode, InodeOf;
      StoreWord(w, b);
      Buffered(at);
      StoreInode(at, sctBuffer[at].(blocks := sctBuffer[at].blocks + 1));
      WriteBlock(c);
      ClearBuffer();
      WriteBlock(b);
    }

    /** Allocates a block for word w of the buffered index block c. */
    method GrowIndex(at: nat, c: nat, w: nat, ghost p: Slot) returns (a: Option<nat>)
      requires Wired() && Owned(View()) && at < INODES_PER_SECTOR
      requires Wf(Child(p, w)) && Owner(p) == INODES_PER_SECTOR * sector + at
      requires Ptr(View(), p) == c && 0 < c < NUM_BLOCKS && Ptr(View(), Child(p, w)) == 0
      requires blkBuffer[..] == View().disk[c]
      modifies disk, blkBuffer, sctBuffer, blockMap, blockMapDisk
      ensures a.None? ==> Full(View())
      ensures a.Some? ==> CanGrow(old(View()), Child(p, w), a.value) && View() == Grow(old(View()), Child(p, w), a.value)
    {
      hide Owned, PutWord, ZeroBlock, Full, View, SetInode, InodeOf, Grow, Ptr, Owner;
      ghost var s := View();
      UsedPtr(s, p);
      MapOfRoot(s);
      a := AllocBlock();
      if a.None? { return; }
      LinkBlock(at, c, w, a.value);
      GrowIndexSteps(s, p, w, a.value);
    }

    /** The block word w of index block c names, allocated on first use. */
    method LocateInBlock(at: nat, c: nat, w: nat, ghost p: Slot) returns (res: Option<nat>)
      requires Wired() && Core(View()) && at < INODES_PER_SECTOR && w < WORDS_PER_BLOCK
      requires FileAt(View(), INODES_PER_SECTOR * sector + at)
      requires Wf(Child(p, w)) && Owner(p) == INODES_PER_SECTOR * sector + at && RootPtr(p) <= SECOND_BASE
      requires Ptr(View(), p) == c && 0 < c < NUM_BLOCKS
      modifies disk, blkBuffer, sctBuffer, blockMap, blockMapDisk
      ensures res.None? ==> Full(View()) && Ptr(old(View()), Child(p, w)) == 0
      ensures res.Some? ==> Located(old(View()), View(), Child(p, w), res.value)
    {
      hide Owned, Records, Counted, Extends, Grow, Full;
      ReadBlock(c);
      var id := Word(blkBuffer[..], w);
      assert id == Ptr(View(), Child(p, w));
      if id == 0 {
        res := GrowIndex(at, c, w, p);
        if res.None? { return; }
        GrowLocated(old(View()), Child(p, w), res.value);
      } else {
        UsedPtr(View(), Child(p, w));
        ExtendsReflexive(View(), Owner(p));
        res := Some(id);
      }
    }

    /** `((uint32_t*)blk_buffer)[w] = v`. */
    method StoreWord(w: nat, v: nat)
      requires Wired() && w < WORDS_PER_BLOCK && v < WORD_LIMIT
      modifies blkBuffer
      ensures blkBuffer[..] == PutWord(old(blkBuffer[..]), w, v)
    {
      blkBuffer[4 * w] := v % 0x100;
      blkBuffer[4 * w + 1] := v / 0x100 % 0x100;
      blkBuffer[4 * w + 2] := v / 0x1_0000 % 0x100;
      blkBuffer[4 * w + 3] := v / 0x100_0000;
    }

    /** Level 1: through one of the single-indirect pointers. */
    method LocateSingle(at: nat, q: nat) returns (r: Option<nat>)
      requires Wired() && Core(View()) && at < INODES_PER_SECTOR && q < SINGLE * WORDS_PER_BLOCK
      requires FileAt(View(), INODES_PER_SECTOR * sector + at)
      modifies disk, blkBuffer, sctBuffer, blockMap, blockMapDisk
      ensures r.None? ==> Full(View()) && Absent(old(View()), INODES_PER_SECTOR * sector + at, DIRECT + q)
      ensures r.Some? ==> Located(old(View()), View(), PageSlot(INODES_PER_SECTOR * sector + at, DIRECT + q), r.value)
    {
      hide Core, Owned, Records, Counted, Extends, Ptr, Full;
      ghost var i := INODES_PER_SECTOR * sector + at;
      ghost var p := Root(i, FIRST_BASE + q / WORDS_PER_BLOCK);
      r := LocateInInode(at, FIRST_BASE + q / WORDS_PER_BLOCK);
      if r.None? {
        HoleBelow(old(View()), p, q % WORDS_PER_BLOCK);
        return;
      }
      ghost var t := View();
      r := LocateInBlock(at, r.value, q % WORDS_PER_BLOCK, p);
      if r.None? {
        StillHole(old(View()), t, i, Child(p, q % WORDS_PER_BLOCK));
        return;
      }
      ExtendsTransitive(old(View()), t, View(), i);
    }

    /** Level 2: through the double-indirect pointer and one of its index blocks. */
    method LocateDouble(at: nat, q: nat) returns (r: Option<nat>)
      requires Wired() && Core(View()) && at < INODES_PER_SECTOR && DIRECT + SINGLE * WORDS_PER_BLOCK + q < PAGE_LIMIT
      requires FileAt(View(), INODES_PER_SECTOR * sector + at)
      modifies disk, blkBuffer, sctBuffer, blockMap, blockMapDisk
      ensures r.None? ==>
        Full(View()) && Absent(old(View()), INODES_PER_SECTOR * sector + at, DIRECT + SINGLE * WORDS_PER_BLOCK + q)
      ensures r.Some? ==>
        Located(old(View()), View(),
                PageSlot(INODES_PER_SECTOR * sector + at, DIRECT + SINGLE * WORDS_PER_BLOCK + q), r.value)
    {
      hide Core, Owned, Records, Counted, Extends, Ptr;
      ghost var s := View();
      ghost var i := INODES_PER_SECTOR * sector + at;
      // A 32-bit offset never reaches the second of these pointers: d is zero.
      var d := q / (WORDS_PER_BLOCK * WORDS_PER_BLOCK);
      ghost var p := Root(i, SECOND_BASE);
      ghost var m := Child(p, q / WORDS_PER_BLOCK);
      r := LocateInInode(at, SECOND_BASE + d);
      if r.None? {
        HoleBelow(s, p, q / WORDS_PER_BLOCK);
        HoleBelow(s, m, q % WORDS_PER_BLOCK);
        return;
      }
      ghost var t := View();
      var v := q % (WORDS_PER_BLOCK * WORDS_PER_BLOCK);
      r := LocateInBlock(at, r.value, v / WORDS_PER_BLOCK, p);
      if r.None? {
        StillHole(s, t, i, m);
        HoleBelow(s, m, q % WORDS_PER_BLOCK);
        return;
      }
      ghost var u := View();
      ExtendsTransitive(s, t, u, i);
      v := v % WORDS_PER_BLOCK;
      r := LocateInBlock(at, r.value, v, m);
      if r.None? {
        StillHole(s, u, i, Child(m, v));
        return;
      }
      ExtendsTransitive(s, u, View(), i);
    }

    /** The data block of a page of the buffered inode, growing its tree as far
        as the page needs. */
    method LocatePage(at: nat, page: nat) returns (r: Option<nat>)
      requires Wired() && Core(View()) && at < INODES_PER_SECTOR && page < PAGE_LIMIT
      requires FileAt(View(), INODES_PER_SECTOR * sector + at)
      modifies disk, blkBuffer, sctBuffer, blockMap, blockMapDisk
      ensures r.None? ==> Full(View()) && Absent(old(View()), INODES_PER_SECTOR * sector + at, page)
      ensures r.Some? ==> Located(old(View()), View(), PageSlot(INODES_PER_SECTOR * sector + at, page), r.value)
    {
      hide Core, Ptr, Located, FileAt, Full, View;
      if page < DIRECT {
        r := LocateInInode(at, page);
      } else if page < DIRECT + SINGLE * WORDS_PER_BLOCK {
        r := LocateSingle(at, page - DIRECT);
      } else {
        // The page of a 32-bit offset lies below the end of the double-indirect range.
        r := LocateDouble(at, page - DIRECT - SINGLE * WORDS_PER_BLOCK);
      }
    }

    /** The buffered inode at `at` is the live file i. */
    ghost predicate Loaded(at: nat, i: nat)
      reads this, disk, blockMapDisk, inodeMapDisk, itabDisk, sctBuffer
      ensures Loaded(at, i) ==> Wired() && i < NUM_INODES && at < INODES_PER_SECTOR
    {
      && Wired() && Synced() && Core(View()) && FileAt(View(), i)
      && at == i % INODES_PER_SECTOR && sector == i / INODES_PER_SECTOR
    }

    /** Finds the data block and position of an offset of the buffered inode,
        growing its tree as far as the offset needs, and writes the inode back. */
    method ByteLocate(at: nat, offset: nat, ghost i: nat) returns (res: Option<(nat, nat)>)
      requires Loaded(at, i) && offset < WORD_LIMIT
      modifies disk, blkBuffer, sctBuffer, blockMap, blockMapDisk, itabDisk
      ensures res.None? ==> Full(View()) && Absent(old(View()), i, PageOf(offset))
      ensures res.Some? ==>
        && Loaded(at, i) && Extends(old(View()), View(), i) && res.value.1 == offset % BLOCK_SIZE
        && 0 < res.value.0 < NUM_BLOCKS && Wf(PageSlot(i, PageOf(offset)))
        && Ptr(View(), PageSlot(i, PageOf(offset))) == res.value.0
    {
      hide Core, Extends, Ptr, Located, FileAt, Full, View, PageSlot, Absent;
      ghost var s := View();
      var page := offset / BLOCK_SIZE;
      var r := LocatePage(at, page);
      if r.None? { return None; }
      LocatedFacts(s, View(), i, offset, r.value);
      LiveId(View(), i);
      Buffered(at);
      WriteInode(sctBuffer[at].id / INODES_PER_SECTOR);
      res := Some((r.value, offset % BLOCK_SIZE));
    }

    // ---------- Open files ----------

    /** Descriptor fd, if in use, names a live file, at 32-bit offsets. */
    ghost predicate OpenFile(fd: nat)
      requires Wired()
      reads this, disk, blockMapDisk, inodeMapDisk, itabDisk, sctBuffer, fdesc
    {
      fd < NUM_FDESCS && (fdesc[fd].occupied ==>
        FileAt(View(), fdesc[fd].ino) && fdesc[fd].rd < WORD_LIMIT && fdesc[fd].wr < WORD_LIMIT)
    }

    /** Fills the inode buffer with the inode of an open file. */
    method LoadOpen(fd: nat) returns (at: nat)
      requires Valid() && OpenFile(fd) && fdesc[fd].occupied
      modifies this`sector, sctBuffer
      ensures Valid() && View() == old(View()) && ZeroTails(View())
      ensures sector == fdesc[fd].ino / INODES_PER_SECTOR
      ensures Loaded(at, fdesc[fd].ino) && sctBuffer[at] == InodeOf(View(), fdesc[fd].ino)
    {
      hide Core, ZeroTails, View;
      at := GetInode(fdesc[fd].ino);
    }

    /** memcpy(buff + to, blk_buffer + from, n). */
    method CopyOut(buff: array<byte>, to: nat, from: nat, n: nat)
      requires Wired() && buff !in Repr() && to + n <= buff.Length && from + n <= BLOCK_SIZE
      modifies buff
      ensures buff[..] == old(buff[..to]) + blkBuffer[from..from + n] + old(buff[to + n..])
    {
      forall k | 0 <= k < n { buff[to + k] := blkBuffer[from + k]; }
    }

    /** sd_read of a block into the block buffer, then n bytes of it to buff. */
    method CopyBlock(block: nat, from: nat, buff: array<byte>, to: nat, n: nat)
      requires Wired() && block < NUM_BLOCKS && buff !in Repr() && to + n <= buff.Length && from + n <= BLOCK_SIZE
      modifies blkBuffer, buff
      ensures buff[..] == old(buff[..to]) + View().disk[block][from..from + n] + old(buff[to + n..])
    {
      hide View;
      ReadBlock(block);
      CopyOut(buff, to, from, n);
    }

    /** One round of a read: as much of it as the page at the read offset holds. */
    method ReadPiece(fd: nat, at: nat, buff: array<byte>, bytes: nat, todo: nat, ghost i: nat) returns (r: Option<nat>)
      requires Loaded(at, i) && fd < NUM_FDESCS && buff !in Repr()
      requires 0 < todo && bytes + todo <= buff.Length && fdesc[fd].rd + todo < WORD_LIMIT
      modifies disk, blkBuffer, sctBuffer, blockMap, blockMapDisk, itabDisk, fdesc, buff
      ensures r.None? ==> Full(View()) && Absent(old(View()), i, PageOf(old(fdesc[fd]).rd))
      ensures r.Some? ==>
        && 0 < r.value <= todo && Loaded(at, i) && Extends(old(View()), View(), i)
        && buff[..] == old(buff[..bytes]) + Range(old(View()), i, old(fdesc[fd]).rd, r.value) + old(buff[bytes + r.value..])
        && fdesc[..] == old(fdesc[..])[fd := old(fdesc[fd]).(rd := old(fdesc[fd]).rd + r.value)]
    {
      hide Core, Extends, Ptr, View, Full, Range, Loaded, PageSlot, Wf, Absent;
      ghost var s := View();
      var pos := fdesc[fd].rd;
      var loc := ByteLocate(at, pos, i);
      if loc.None? { return None; }
      var (block, off) := loc.value;
      var n := Min(todo, BLOCK_SIZE - off);
      CopyBlock(block, off, buff, bytes, n);
      fdesc[fd] := fdesc[fd].(rd := fdesc[fd].rd + n);
      PageRange(View(), i, pos, n, block);
      ExtendsRange(s, View(), i, pos, n);
      r := Some(n);
    }

    /** Stores a file size in the buffered inode and writes the inode back. */
    method StoreSize(at: nat, size: nat, ghost i: nat)
      requires Loaded(at, i)
      modifies sctBuffer, itabDisk
      ensures Wired() && Synced() && View() == Resized(old(View()), i, size)
    {
      LiveId(View(), i);
      hide Core, FileAt, View, SetInode;
      Buffered(at);
      StoreInode(at, sctBuffer[at].(size := size));
      WriteInode(sctBuffer[at].id / INODES_PER_SECTOR);
    }

    /** The rounds of a read. */
    method ReadAll(fd: nat, at: nat, buff: array<byte>, length: nat, ghost i: nat) returns (r: Option<nat>)
      requires Loaded(at, i) && fd < NUM_FDESCS && buff !in Repr()
      requires length <= buff.Length && fdesc[fd].rd + length < WORD_LIMIT
      modifies disk, blkBuffer, sctBuffer, blockMap, blockMapDisk, itabDisk, fdesc, buff
      ensures r.None? ==> Full(View()) && Holed(old(View()), i, old(fdesc[fd]).rd, length)
      ensures r.Some? ==>
        && r.value == length && Loaded(at, i) && Extends(old(View()), View(), i)
        && buff[..length] == Range(old(View()), i, old(fdesc[fd]).rd, length) && buff[length..] == old(buff[length..])
        && fdesc[..] == old(fdesc[..])[fd := old(fdesc[fd]).(rd := old(fdesc[fd]).rd + length)]
    {
      hide Loaded, Extends, Range, View, Full, Absent, Holed;
      ghost var s := View();
      ghost var rd := fdesc[fd].rd;
      var todo, bytes := length, 0;
      ExtendsReflexive(s, i);
      while todo != 0
        invariant 0 <= todo <= length && bytes + todo == length
        invariant Loaded(at, i) && Extends(s, View(), i)
        invariant fdesc[..] == old(fdesc[..])[fd := old(fdesc[fd]).(rd := rd + bytes)]
        invariant buff[..bytes] == Range(s, i, rd, bytes) && buff[length..] == old(buff[length..])
      {
        ghost var t, was := View(), buff[..];
        var n := ReadPiece(fd, at, buff, bytes, todo, i);
        if n.None? {
          HoledBefore(s, t, i, rd, bytes, length);
          return None;
        }
        ExtendsTransitive(s, t, View(), i);
        RangeGrows(s, t, i, rd, bytes, n.value);
        PieceInPlace(was, buff[..], Range(t, i, rd + bytes, n.value), bytes, length);
        todo := todo - n.value;
        bytes := bytes + n.value;
      }
      r := Some(bytes);
    }

    /** The whole read of an allowed request. */
    method ReadFile(fd: nat, at: nat, buff: array<byte>, length: nat, ghost i: nat) returns (r: Option<nat>)
      requires Loaded(at, i) && ZeroTails(View()) && fd < NUM_FDESCS && buff !in Repr()
      requires length <= buff.Length && fdesc[fd].rd + length < WORD_LIMIT
      requires fdesc[fd].rd + length <= InodeOf(View(), i).size
      modifies disk, blkBuffer, sctBuffer, blockMap, blockMapDisk, itabDisk, fdesc, buff
      ensures r.None? ==> Full(View()) && Holed(old(View()), i, old(fdesc[fd]).rd, length)
      ensures r.Some? ==>
        && r.value == length && Valid() && buff[length..] == old(buff[length..])
        && ReadOk(old(View()), View(), i, old(fdesc[fd]).rd, buff[..length])
        && fdesc[..] == old(fdesc[..])[fd := old(fdesc[fd]).(rd := old(fdesc[fd]).rd + length)]
    {
      hide Core, Owned, Extends, Ptr, Range, ZeroTails, ReadOk, View, Synced, Holed;
      ghost var s := View();
      r := ReadAll(fd, at, buff, length, i);
      if r.None? { return; }
      FinishRead(s, View(), i, old(fdesc[fd]).rd, buff[..length]);
      ExtendsSize(s, View(), i);
      ResizedSame(View(), i);
      Buffered(at);
      StoreSize(at, Max(sctBuffer[at].size, fdesc[fd].rd), i);
    }

    /** Reads `length` bytes at the read offset into buff. Result None is the
        kernel's stop for lack of blocks: reading a hole allocates one, so it stops
        only if the range has a hole. */
    method DoFread(fd: nat, buff: array<byte>, length: nat) returns (r: Option<nat>)
      requires Valid() && OpenFile(fd) && buff !in Repr()
      requires length <= buff.Length && fdesc[fd].rd + length < WORD_LIMIT
      modifies this`sector, disk, blkBuffer, sctBuffer, blockMap, blockMapDisk, itabDisk, fdesc, buff
      ensures Wired()
      ensures r.None? ==> Full(View()) && Holed(old(View()), old(fdesc[fd]).ino, old(fdesc[fd]).rd, length)
      ensures r.Some? ==> Valid()
      ensures r.Some? && !Readable(old(View()), old(fdesc[fd]), length) ==>
        r.value == 0 && View() == old(View()) && fdesc[..] == old(fdesc[..]) && buff[..] == old(buff[..])
      ensures r.Some? && Readable(old(View()), old(fdesc[fd]), length) ==>
        && r.value == length && buff[length..] == old(buff[length..])
        && ReadOk(old(View()), View(), old(fdesc[fd]).ino, old(fdesc[fd]).rd, buff[..length])
        && fdesc[..] == old(fdesc[..])[fd := old(fdesc[fd]).(rd := old(fdesc[fd]).rd + length)]
    {
      hide Valid, Loaded, ZeroTails, ReadOk, View, Full, Holed;
      if fdesc[fd].mode == O_WRONLY { return Some(0); }
      if !fdesc[fd].occupied { return Some(0); }
      var at := LoadOpen(fd);
      if sctBuffer[at].size < fdesc[fd].rd + length { return Some(0); }
      r := ReadFile(fd, at, buff, length, fdesc[fd].ino);
    }

    /** memcpy(blk_buffer + to, buff + from, n). */
    method CopyIn(buff: array<byte>, to: nat, from: nat, n: nat)
      requires Wired() && buff !in Repr() && to + n <= BLOCK_SIZE && from + n <= buff.Length
      modifies blkBuffer
      ensures Patched(old(blkBuffer[..]), blkBuffer[..], to, buff[from..from + n])
    {
      forall k | 0 <= k < n { blkBuffer[to + k] := buff[from + k]; }
    }

    /** One round of a write: k bytes of the request are in place already. */
    method WritePiece(fd: nat, at: nat, buff: array<byte>, k: nat, todo: nat, ghost s: Fs, ghost i: nat, ghost off: nat)
      returns (r: Option<nat>)
      requires Loaded(at, i) && fd < NUM_FDESCS && buff !in Repr() && Shape(s)
      requires 0 < todo && k + todo <= buff.Length && off + k + todo < WORD_LIMIT && fdesc[fd].wr == off + k
      requires Written(s, View(), i, off, buff[..k])
      modifies disk, blkBuffer, sctBuffer, blockMap, blockMapDisk, itabDisk, fdesc
      ensures r.None? ==> Full(View()) && Absent(old(View()), i, PageOf(old(fdesc[fd]).wr))
      ensures r.Some? ==>
        && 0 < r.value <= todo && Loaded(at, i) && Written(s, View(), i, off, buff[..k + r.value])
        && fdesc[..] == old(fdesc[..])[fd := old(fdesc[fd]).(wr := old(fdesc[fd]).wr + r.value)]
    {
      hide Core, Extends, Ptr, FileAt, Written, Patched, View, Full, PageSlot, Wf, Absent;
      ghost var t := View();
      var loc := ByteLocate(at, fdesc[fd].wr, i);
      if loc.None? { return None; }
      var (block, o) := loc.value;
      ghost var u := View();
      var n := Min(todo, BLOCK_SIZE - o);
      ReadBlock(block);
      CopyIn(buff, o, k, n);
      WriteBlock(block);
      fdesc[fd] := fdesc[fd].(wr := fdesc[fd].wr + n);
      assert buff[..k + n][..k] == buff[..k] && buff[..k + n][k..] == buff[k..k + n];
      PieceDone(s, t, u, i, off, buff[..k + n], k, n, block, blkBuffer[..], View());
      r := Some(n);
    }

    /** The rounds of a write. */
    method WriteAll(fd: nat, at: nat, buff: array<byte>, length: nat, ghost i: nat) returns (r: Option<nat>)
      requires Loaded(at, i) && fd < NUM_FDESCS && buff !in Repr()
      requires length <= buff.Length && fdesc[fd].wr + length < WORD_LIMIT
      modifies disk, blkBuffer, sctBuffer, blockMap, blockMapDisk, itabDisk, fdesc
      ensures r.None? ==> Full(View()) && Holed(old(View()), i, old(fdesc[fd]).wr, length)
      ensures r.Some? ==>
        && r.value == length && Loaded(at, i)
        && Written(old(View()), View(), i, old(fdesc[fd]).wr, buff[..length])
        && fdesc[..] == old(fdesc[..])[fd := old(fdesc[fd]).(wr := old(fdesc[fd]).wr + length)]
    {
      hide Loaded, Written, View, Full, Absent, Holed;
      ghost var s := View();
      ghost var wr := fdesc[fd].wr;
      var todo, bytes := length, 0;
      WrittenNothing(s, i, wr);
      while todo != 0
        invariant 0 <= todo <= length && bytes + todo == length
        invariant Loaded(at, i) && Written(s, View(), i, wr, buff[..bytes])
        invariant fdesc[..] == old(fdesc[..])[fd := old(fdesc[fd]).(wr := wr + bytes)]
      {
        ghost var t := View();
        var n := WritePiece(fd, at, buff, bytes, todo, s, i, wr);
        if n.None? {
          HoledUnwritten(s, t, i, wr, bytes, length, buff[..bytes]);
          return None;
        }
        todo := todo - n.value;
        bytes := bytes + n.value;
      }
      r := Some(bytes);
    }

    /** The whole write of an allowed request, up to the new size. */
    method WriteFile(fd: nat, at: nat, buff: array<byte>, length: nat, ghost i: nat) returns (r: Option<nat>)
      requires Loaded(at, i) && ZeroTails(View()) && fd < NUM_FDESCS && buff !in Repr()
      requires length <= buff.Length && fdesc[fd].wr + length < WORD_LIMIT
      modifies disk, blkBuffer, sctBuffer, blockMap, blockMapDisk, itabDisk, fdesc
      ensures r.None? ==> Full(View()) && Holed(old(View()), i, old(fdesc[fd]).wr, length)
      ensures r.Some? ==>
        && r.value == length && Valid()
        && Spliced(old(View()), View(), i, old(fdesc[fd]).wr, buff[..length])
        && fdesc[..] == old(fdesc[..])[fd := old(fdesc[fd]).(wr := old(fdesc[fd]).wr + length)]
    {
      hide Core, Owned, Written, ZeroTails, Spliced, View, Resized, Synced, Holed;
      ghost var s := View();
      r := WriteAll(fd, at, buff, length, i);
      if r.None? { return; }
      WrittenSize(s, View(), i, old(fdesc[fd]).wr, buff[..length]);
      Buffered(at);
      var size := Max(sctBuffer[at].size, fdesc[fd].wr);
      FinishWrite(s, View(), i, old(fdesc[fd]).wr, buff[..length], size);
      StoreSize(at, size, i);
    }

    /** Writes the first `length` bytes of buff at the write offset. The guard
        against passing 4 GB cannot fire below that offset, so it is not here. */
    method DoFwrite(fd: nat, buff: array<byte>, length: nat) returns (r: Option<nat>)
      requires Valid() && OpenFile(fd) && buff !in Repr()
      requires length <= buff.Length && fdesc[fd].wr + length < WORD_LIMIT
      modifies this`sector, disk, blkBuffer, sctBuffer, blockMap, blockMapDisk, itabDisk, fdesc
      ensures Wired()
      ensures r.None? ==> Full(View()) && Holed(old(View()), old(fdesc[fd]).ino, old(fdesc[fd]).wr, length)
      ensures r.Some? ==> Valid()
      ensures r.Some? && !Writable(old(fdesc[fd])) ==>
        r.value == 0 && View() == old(View()) && fdesc[..] == old(fdesc[..])
      ensures r.Some? && Writable(old(fdesc[fd])) ==>
        && r.value == length
        && Spliced(old(View()), View(), old(fdesc[fd]).ino, old(fdesc[fd]).wr, buff[..length])
        && fdesc[..] == old(fdesc[..])[fd := old(fdesc[fd]).(wr := old(fdesc[fd]).wr + length)]
    {
      hide Valid, Loaded, ZeroTails, Spliced, View, Full, Holed;
      if fdesc[fd].mode == O_RDONLY { return Some(0); }
      if !fdesc[fd].occupied { return Some(0); }
      var at := LoadOpen(fd);
      r := WriteFile(fd, at, buff, length, fdesc[fd].ino);
    }

    /** Allocates the page of an offset past the end and moves the end there. */
    method ExtendTo(at: nat, target: nat, ghost i: nat) returns (r: Option<()>)
      requires Loaded(at, i) && ZeroTails(View()) && InodeOf(View(), i).size < target < WORD_LIMIT
      modifies disk, blkBuffer, sctBuffer, blockMap, blockMapDisk, itabDisk
      ensures r.None? ==> Full(View()) && Absent(old(View()), i, PageOf(target))
      ensures r.Some? ==> Valid() && Spliced(old(View()), View(), i, target, [])
    {
      hide Core, Owned, Extends, Ptr, Written, ZeroTails, Spliced, Resized, Located, Absent;
      ghost var s := View();
      var loc := ByteLocate(at, target, i);
      if loc.None? { return None; }
      ExtendsWritten(s, View(), i, target);
      FinishWrite(s, View(), i, target, [], target);
      StoreSize(at, target, i);
      r := Some(());
    }

    /** The write half of a seek: the offset moves, past the end by extending. */
    method SeekWrite(fd: nat, at: nat, offset: int, whence: Whence, ghost i: nat) returns (r: Option<()>)
      requires Loaded(at, i) && Valid() && fd < NUM_FDESCS
      modifies disk, blkBuffer, sctBuffer, blockMap, blockMapDisk, itabDisk, fdesc
      ensures r.None? ==>
        var size := InodeOf(old(View()), i).size;
        var target := SeekTarget(whence, old(fdesc[fd]).wr, size, offset);
        Full(View()) && target > size && Absent(old(View()), i, PageOf(target))
      ensures r.Some? ==>
        && Valid() && sector == i / INODES_PER_SECTOR
        && SeekMoved(old(View()), View(), i, SeekTarget(whence, old(fdesc[fd]).wr, InodeOf(old(View()), i).size, offset))
        && fdesc[..] == old(fdesc[..])[fd := old(fdesc[fd]).(wr := SeekTarget(whence, old(fdesc[fd]).wr, InodeOf(old(View()), i).size, offset))]
    {
      hide Core, Owned, ZeroTails, Spliced, View, Absent;
      Buffered(at);
      var target := SeekTarget(whence, fdesc[fd].wr, sctBuffer[at].size, offset);
      if target > sctBuffer[at].size {
        var e := ExtendTo(at, target, i);
        if e.None? { return None; }
      }
      fdesc[fd] := fdesc[fd].(wr := target);
      r := Some(());
    }

    /** Moves the offsets of a descriptor. The result is -1 or 0; a descriptor
        that may write moves past the end by extending the file. */
    method DoLseek(fd: nat, offset: int, whence: Whence) returns (r: Option<int>)
      requires Valid() && OpenFile(fd)
      requires -0x8000_0000 <= offset < 0x8000_0000
      modifies this`sector, disk, blkBuffer, sctBuffer, blockMap, blockMapDisk, itabDisk, fdesc
      ensures Wired()
      ensures r.None? ==>
        var f := old(fdesc[fd]);
        && Full(View()) && f.occupied && f.ino < NUM_INODES && CanWrite(f)
        && Sought(old(View()), f, offset, whence).wr > InodeOf(old(View()), f.ino).size
        && Absent(old(View()), f.ino, PageOf(Sought(old(View()), f, offset, whence).wr))
      ensures r.Some? ==> Valid()
      ensures r.Some? && SeekFails(old(View()), old(fdesc[fd]), offset, whence) ==>
        r.value == -1 && View() == old(View()) && fdesc[..] == old(fdesc[..])
      ensures r.Some? && !SeekFails(old(View()), old(fdesc[fd]), offset, whence) ==>
        && r.value == 0 && fdesc[..] == old(fdesc[..])[fd := Sought(old(View()), old(fdesc[fd]), offset, whence)]
        && (if CanWrite(old(fdesc[fd]))
            then SeekMoved(old(View()), View(), old(fdesc[fd]).ino, Sought(old(View()), old(fdesc[fd]), offset, whence).wr)
            else View() == old(View()))
    {
      hide Inv, Core, Loaded, ZeroTails, SeekMoved, View, Full, SeekTarget, Absent;
      if !fdesc[fd].occupied { return Some(-1); }
      var at := LoadOpen(fd);
      if CanRead(fdesc[fd]) {
        var target := SeekTarget(whence, fdesc[fd].rd, sctBuffer[at].size, offset);
        if target > sctBuffer[at].size { return Some(-1); }
        fdesc[fd] := fdesc[fd].(rd := target);
      }
      if CanWrite(fdesc[fd]) {
        var e := SeekWrite(fd, at, offset, whence, fdesc[fd].ino);
        if e.None? { return None; }
      }
      WriteInode(fdesc[fd].ino / INODES_PER_SECTOR);
      r := Some(0);
    }
  }

  datatype Whence = SeekSet | SeekCur | SeekEnd

  predicate CanRead(f: Fdesc) { f.mode % 2 == 1 }

  predicate CanWrite(f: Fdesc) { f.mode / 2 % 2 == 1 }

  /** The new offset, in 32-bit arithmetic. */
  function SeekTarget(whence: Whence, cur: nat, size: nat, offset: int): (t: nat)
    ensures t < WORD_LIMIT
  {
    match whence
    case SeekSet => offset % WORD_LIMIT
    case SeekCur => (cur + offset) % WORD_LIMIT
    case SeekEnd => (size + offset) % WORD_LIMIT
  }

  /** A seek is refused on a free descriptor, and on one that may read when the
      read offset would go past the end of the file. (The write offset of a
      descriptor that may do both can still go past it, and extend the file,
      when the two offsets differ: see ReadWriteSeek.) */
  ghost predicate SeekFails(s: Fs, f: Fdesc, offset: int, whence: Whence)
    requires Shape(s)
  {
    !f.occupied || (f.ino < NUM_INODES && CanRead(f) &&
      SeekTarget(whence, f.rd, InodeOf(s, f.ino).size, offset) > InodeOf(s, f.ino).size)
  }

  /** The descriptor after a seek that is not refused. */
  ghost function Sought(s: Fs, f: Fdesc, offset: int, whence: Whence): Fdesc
    requires Shape(s)
  {
    if f.ino >= NUM_INODES then f else
    var size := InodeOf(s, f.ino).size;
    f.(rd := if CanRead(f) then SeekTarget(whence, f.rd, size, offset) else f.rd,
       wr := if CanWrite(f) then SeekTarget(whence, f.wr, size, offset) else f.wr)
  }

  /** Where a seek counts from. */
  function SeekBase(whence: Whence, cur: nat, size: nat): nat {
    if whence == SeekSet then 0 else if whence == SeekCur then cur else size
  }

  /** A seek adds the offset, in 32 bits, to the start of the file, to where the
      descriptor is, or to the end; it moves the offsets the mode's bits name, and is
      refused exactly if that takes the read offset past the end. */
  lemma SeekNumbers(s: Fs, f: Fdesc, offset: int, whence: Whence)
    requires Shape(s) && f.occupied && f.ino < NUM_INODES
    ensures
      var size := InodeOf(s, f.ino).size;
      var rd, wr := (SeekBase(whence, f.rd, size) + offset) % 0x1_0000_0000, (SeekBase(whence, f.wr, size) + offset) % 0x1_0000_0000;
      && (SeekFails(s, f, offset, whence) <==> f.mode % 2 == 1 && rd > size)
      && Sought(s, f, offset, whence) == f.(rd := if f.mode % 2 == 1 then rd else f.rd, wr := if f.mode / 2 % 2 == 1 then wr else f.wr)
  {
  }

  /** A seek from the start to a place within the file succeeds, and both offsets of
      a read-write descriptor are there. */
  lemma SeekWithin(s: Fs, f: Fdesc, offset: nat)
    requires Shape(s) && f.occupied && f.ino < NUM_INODES && f.mode == 3 && offset <= InodeOf(s, f.ino).size < WORD_LIMIT
    ensures !SeekFails(s, f, offset, SeekSet) && Sought(s, f, offset, SeekSet) == f.(rd := offset, wr := offset)
  {
    SeekNumbers(s, f, offset, SeekSet);
  }

  /** A descriptor that may read and write extends its file by a seek exactly if it
      moves from where it is, to a place that is within the file counted from the
      read offset and past its end counted from the write offset. */
  lemma ReadWriteSeek(s: Fs, f: Fdesc, offset: int, whence: Whence)
    requires Shape(s) && f.occupied && f.ino < NUM_INODES && CanRead(f) && CanWrite(f)
    ensures
      var size := InodeOf(s, f.ino).size;
      !SeekFails(s, f, offset, whence) && Sought(s, f, offset, whence).wr > size <==>
        whence == SeekCur && (f.rd + offset) % WORD_LIMIT <= size < (f.wr + offset) % WORD_LIMIT
  {
  }

  /** One that may only write extends it by every seek past the end. */
  lemma WriteOnlySeek(s: Fs, f: Fdesc, offset: int, whence: Whence)
    requires Shape(s) && f.occupied && f.ino < NUM_INODES && !CanRead(f) && CanWrite(f)
    ensures !SeekFails(s, f, offset, whence)
    ensures Sought(s, f, offset, whence).wr == SeekTarget(whence, f.wr, InodeOf(s, f.ino).size, offset)
  {
  }

  /** A disk with one file of 100 bytes, inode 1. */
  ghost function OneFile(): (s: Fs)
    ensures Shape(s) && InodeOf(s, 1).size == 100
  {
    var zeros := seq<byte>(NUM_INODES, _ => 0);
    SetInode(Fs(seq<Block>(NUM_BLOCKS, _ => ZeroBlock()), seq<byte>(NUM_BLOCKS, _ => 0),
                seq<InodeSector>(NUM_SECTORS, _ => seq<Inode>(INODES_PER_SECTOR, _ => ZeroInode())), zeros[1 := 1]),
             1, ZeroInode().(kind := I_FILE, id := 1, size := 100, links := 1, blocks := 1))
  }

  /** On that file: a read-write descriptor with its write offset at the end moves
      on by 50 and extends the file; counted from the start or the end, the same
      place is refused, and so it is once the read offset is at the end too. */
  lemma ReadWriteSeeks()
    ensures
      var s, f, g := OneFile(), Fdesc(1, true, O_RDWR, 0, 100), Fdesc(1, true, O_RDWR, 100, 100);
      && !SeekFails(s, f, 50, SeekCur) && Sought(s, f, 50, SeekCur) == Fdesc(1, true, O_RDWR, 50, 150)
      && SeekFails(s, f, 150, SeekSet) && SeekFails(s, f, 50, SeekEnd) && SeekFails(s, g, 50, SeekCur)
  {
  }

  /** A buffer in which a further piece was put, up to a place before its end. */
  lemma PieceInPlace(was: seq<byte>, now: seq<byte>, piece: seq<byte>, bytes: nat, length: nat)
    requires bytes + |piece| <= length <= |was| && now == was[..bytes] + piece + was[bytes + |piece|..]
    ensures |now| == |was| && now[..bytes + |piece|] == was[..bytes] + piece && now[length..] == was[length..]
  {
  }

  /** Moving the write offset within file i changes nothing; moving it past the
      end appends zeros to i up to there and changes no other file. */
  ghost predicate SeekMoved(s: Fs, t: Fs, i: nat, target: nat)
    requires Shape(s) && Shape(t)
  {
    i < NUM_INODES && target < WORD_LIMIT &&
    if target > InodeOf(s, i).size then Spliced(s, t, i, target, []) else t == s
  }

  /** The page of file i has no block. */
  ghost predicate Absent(s: Fs, i: nat, page: nat)
    requires Shape(s)
  {
    i < NUM_INODES && page < PAGE_LIMIT && (PageSlotBounds(i, page); Ptr(s, PageSlot(i, page)) == 0)
  }

  /** Some page of a stretch of file i has no block. */
  ghost predicate Holed(s: Fs, i: nat, off: nat, n: nat)
    requires Shape(s)
  {
    exists pos :: off <= pos < off + n && Absent(s, i, PageOf(pos))
  }

  lemma HoleBelow(s: Fs, p: Slot, w: nat)
    requires Shape(s) && Wf(Child(p, w)) && Ptr(s, p) == 0
    ensures Ptr(s, Child(p, w)) == 0
  {
  }

  lemma StillHole(s: Fs, t: Fs, i: nat, x: Slot)
    requires Shape(s) && Shape(t) && i < NUM_INODES && Extends(s, t, i) && Wf(x) && Ptr(t, x) == 0
    ensures Ptr(s, x) == 0
  {
    hide Ptr;
  }

  /** A hole met during a read was there at its start. */
  lemma HoledBefore(s: Fs, t: Fs, i: nat, off: nat, k: nat, n: nat)
    requires Shape(s) && Shape(t) && i < NUM_INODES && Extends(s, t, i) && k < n && Absent(t, i, PageOf(off + k))
    ensures Holed(s, i, off, n)
  {
    PageSlotBounds(i, PageOf(off + k));
    StillHole(s, t, i, PageSlot(i, PageOf(off + k)));
    assert Absent(s, i, PageOf(off + k));
  }

  /** So was one met during a write. */
  lemma HoledUnwritten(s: Fs, t: Fs, i: nat, off: nat, k: nat, n: nat, d: seq<byte>)
    requires Shape(s) && Shape(t) && i < NUM_INODES && off + |d| <= WORD_LIMIT && Written(s, t, i, off, d)
    requires k < n && Absent(t, i, PageOf(off + k))
    ensures Holed(s, i, off, n)
  {
    PageSlotBounds(i, PageOf(off + k));
    hide Ptr;
    assert Absent(s, i, PageOf(off + k));
  }

  ghost predicate Full(s: Fs)
    requires Shape(s)
  {
    forall b :: 0 <= b < NUM_BLOCKS ==> s.blockMap[b] != 0
  }

  /** Slot x holds block b, and reaching it only extended the tree of its file. */
  ghost predicate Located(s: Fs, t: Fs, x: Slot, b: nat)
    requires Shape(s) && Shape(t)
  {
    && Core(t) && Wf(x) && FileAt(t, Owner(x)) && Extends(s, t, Owner(x))
    && 0 < b < NUM_BLOCKS && Ptr(t, x) == b
  }

  lemma UsedPtr(s: Fs, x: Slot)
    requires Shape(s) && Owned(s) && Wf(x) && Ptr(s, x) != 0
    ensures Ptr(s, x) < NUM_BLOCKS && s.blockMap[Ptr(s, x)] == 1
  {
  }

  lemma MapOfRoot(s: Fs)
    requires Shape(s) && Owned(s)
    ensures s.blockMap[0] == 1
  {
  }

  /** The order in which the parts of a growth step are done does not matter. */
  lemma GrowRootSteps(s: Fs, x: Slot, b: nat)
    requires Shape(s) && Owned(s) && x.Root? && CanGrow(s, x, b)
    ensures
      var n := InodeOf(s, x.ino);
      var u := SetInode(s.(blockMap := s.blockMap[b := 1]), x.ino, n.(ptrs := n.ptrs[x.r := b], blocks := n.blocks + 1));
      u.(disk := u.disk[b := ZeroBlock()]) == Grow(s, x, b)
  {
    hide Owned, ZeroBlock;
  }

  lemma GrowIndexSteps(s: Fs, p: Slot, w: nat, b: nat)
    requires Shape(s) && Owned(s) && CanGrow(s, Child(p, w), b)
    requires Owner(p) < NUM_INODES && Ptr(s, p) < NUM_BLOCKS
    ensures
      var t := s.(blockMap := s.blockMap[b := 1]);
      var u := SetInode(t, Owner(p), InodeOf(t, Owner(p)).(blocks := InodeOf(t, Owner(p)).blocks + 1));
      u.(disk := t.disk[Ptr(s, p) := PutWord(t.disk[Ptr(s, p)], w, b)][b := ZeroBlock()]) == Grow(s, Child(p, w), b)
  {
    hide Owned, ZeroBlock, PutWord;
  }

  lemma GrowLocated(s: Fs, x: Slot, b: nat)
    requires Core(s) && CanGrow(s, x, b) && RootPtr(x) <= SECOND_BASE && FileAt(s, Owner(x))
    ensures Located(s, Grow(s, x, b), x, b)
  {
    GrowCore(s, x, b);
    GrowPtr(s, x, b, x);
  }

  /** A read of `length` bytes is allowed and stays within the file. */
  ghost predicate Readable(s: Fs, f: Fdesc, length: nat)
    requires Shape(s)
  {
    f.mode != O_WRONLY && f.occupied && f.ino < NUM_INODES && f.rd + length <= InodeOf(s, f.ino).size
  }

  predicate Writable(f: Fdesc) { f.mode != O_RDONLY && f.occupied }

  /** Of the modes 1, 2 and 3, bit 0 lets a descriptor read and bit 1 lets it write:
      a read of bytes the file has is carried out exactly with the first, a write
      exactly with the second, and these are the offsets a seek moves. */
  lemma ModeBits(s: Fs, f: Fdesc, length: nat)
    requires Shape(s) && f.ino < NUM_INODES && 1 <= f.mode <= 3
    ensures Readable(s, f, length) <==> f.occupied && (f.mode == 1 || f.mode == 3) && f.rd + length <= |Content(s, f.ino)|
    ensures Writable(f) <==> f.occupied && (f.mode == 2 || f.mode == 3)
    ensures (CanRead(f) <==> f.mode == 1 || f.mode == 3) && (CanWrite(f) <==> f.mode == 2 || f.mode == 3)
  {
  }

  /** With any mode at all, the guard of a read agrees with the bit a seek tests
      exactly if the mode is odd or 2, that of a write if it has bit 1 or is 1. */
  lemma ModesAgree(s: Fs, f: Fdesc, length: nat)
    requires Shape(s) && f.ino < NUM_INODES && f.occupied && f.rd + length <= InodeOf(s, f.ino).size
    ensures (Readable(s, f, length) <==> CanRead(f)) <==> f.mode % 2 == 1 || f.mode == 2
    ensures (Writable(f) <==> CanWrite(f)) <==> f.mode / 2 % 2 == 1 || f.mode == 1
  {
  }

  lemma LocatedFacts(s: Fs, t: Fs, i: nat, pos: nat, b: nat)
    requires Shape(s) && Shape(t) && i < NUM_INODES && pos < WORD_LIMIT
    requires Located(s, t, PageSlot(i, PageOf(pos)), b)
    ensures Core(t) && FileAt(t, i) && Extends(s, t, i)
    ensures Wf(PageSlot(i, PageOf(pos))) && Ptr(t, PageSlot(i, PageOf(pos))) == b && 0 < b < NUM_BLOCKS
  {
    PageSlotBounds(i, PageOf(pos));
  }

  lemma ExtendsReflexive(s: Fs, i: nat)
    requires Shape(s) && i < NUM_INODES
    ensures Extends(s, s, i)
  {
  }

  lemma ExtendsSize(s: Fs, t: Fs, i: nat)
    requires Shape(s) && Shape(t) && i < NUM_INODES && Extends(s, t, i)
    ensures InodeOf(t, i).size == InodeOf(s, i).size
  {
  }

  lemma PieceDone(s: Fs, t: Fs, u: Fs, i: nat, off: nat, d: seq<byte>, k: nat, n: nat, b: nat, blk: Block, v: Fs)
    requires Shape(s) && Shape(t) && Core(u) && FileAt(u, i) && 0 < n
    requires |d| == k + n && off + |d| < WORD_LIMIT && (off + k) % BLOCK_SIZE + n <= BLOCK_SIZE
    requires Written(s, t, i, off, d[..k]) && Extends(t, u, i)
    requires Wf(PageSlot(i, PageOf(off + k))) && Ptr(u, PageSlot(i, PageOf(off + k))) == b && 0 < b < NUM_BLOCKS
    requires Patched(u.disk[b], blk, (off + k) % BLOCK_SIZE, d[k..])
    requires v == u.(disk := u.disk[b := blk])
    ensures Core(v) && FileAt(v, i) && Written(s, v, i, off, d)
  {
    hide Written, Patched, Extends;
    PageSlotBounds(i, PageOf(off + k));
    assert d[k..] == d[k..k + n] && d == d[..k + n];
    assert v == PutBlock(u, b, blk);
    PutBlockCore(u, PageSlot(i, PageOf(off + k)), blk);
    WrittenStep(s, t, u, i, off, d, k, n, b, blk);
  }

  lemma WrittenNothing(s: Fs, i: nat, off: nat)
    requires Shape(s) && i < NUM_INODES && off < WORD_LIMIT
    ensures Written(s, s, i, off, [])
  {
  }

  lemma WrittenSize(s: Fs, t: Fs, i: nat, off: nat, d: seq<byte>)
    requires Shape(s) && Shape(t) && i < NUM_INODES && off + |d| <= WORD_LIMIT && Written(s, t, i, off, d)
    ensures InodeOf(t, i).size == InodeOf(s, i).size
  {
  }
}
