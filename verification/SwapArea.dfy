/** Where swapped pages lie on the SD card, and what the frames they leave hold. */
module SwapArea {
  import opened Bytes
  import opened VirtualMemory

  const FS_START := 0x4000 // first sector of the file system

  // ---------- Sectors ----------

  /** The eight sectors of a page in the SD card lie between the kernel's image and
      the file system, and no other page has any of them. */
  lemma Sectors(s: Vm, x: Slot, y: Slot)
    requires VmInv(s) && |s.sd| <= SWAP_SLOTS && User(s, x) && Entry(s, x).sd && User(s, y) && Entry(s, y).sd
    ensures 2048 <= Entry(s, x).pfn && Entry(s, x).pfn + 8 <= FS_START
    ensures x != y ==> Entry(s, x).pfn + 8 <= Entry(s, y).pfn || Entry(s, y).pfn + 8 <= Entry(s, x).pfn
  {
    hide Entry;
    assert EntryShape(s, x) && EntryShape(s, y);
  }

  // ---------- Cleared frames ----------

  lemma SwapOutClears(s: Vm, n: nat)
    requires CanSwapOut(s, n)
    ensures
      var f := s.nodes[n].kva;
      f < |SwapOut(s, n).mem| && SwapOut(s, n).mem[f] == ZeroFrame()
  {
    hide Entry, Vpn0, Vpn1, Vpn2;
    var x := PageOf(s.nodes[n].uva);
    SwapOutMemory(s, n);
    assert NodeOk(s, s.nodes[n]) && EntryShape(s, x) && User(s, Parent(x)) && EntryShape(s, Parent(x));
    assert Entry(s, x).pfn == s.nodes[n].kva;
  }

  /** At its bound a process gets its frames from swapped pages, cleared. */
  lemma TakeClears(s: Vm)
    requires VmInv(s) && s.pagenum == s.upbound && Take(s).Some?
    ensures
      var (h, f) := Take(s).value;
      h.pagenum == h.upbound && f < |h.mem| && h.mem[f] == ZeroFrame()
  {
    hide Entry, Core, SwapOut;
    var n := Victim(s.nodes, 0).value;
    SwapOutClears(s, n);
    SwapOutMemory(s, n);
  }

  lemma NeedTableBound(s: Vm, x: Slot)
    requires VmInv(s) && s.next < |s.mem| && User(s, x) && Reached(s, x) && !x.Leaf? && s.pagenum == s.upbound && NeedTable(s, x).Some?
    ensures NeedTable(s, x).value.pagenum == NeedTable(s, x).value.upbound
  {
    hide Entry, Take, Core, Frames;
    if !Entry(s, x).v { TakeClears(s); }
  }

  /** So at its bound a process that touches a new page finds zeros there. */
  lemma FaultZeros(s: Vm, va: nat, junk: nat)
    requires VmInv(s) && Roomy(s, 3) && User(s, PageOf(va)) && s.pagenum == s.upbound
    requires Entry(s, PageOf(va)) == ZERO && Fault(s, va, junk).Some?
    ensures Content(Fault(s, va, junk).value, PageOf(va)) == Some(ZeroFrame())
  {
    hide Entry, Take, NeedTable, AddPage, Vpn0, Vpn1, Vpn2, Tables, Listed, Content, Frames, StaysOrSwaps;
    var x := PageOf(va);
    NeedTableKeeps(s, Top(x.i));
    NeedTableBound(s, Top(x.i));
    var a := NeedTable(s, Top(x.i)).value;
    NeedTableKeeps(a, Mid(x.i, x.j));
    NeedTableBound(a, Mid(x.i, x.j));
    var b := NeedTable(a, Mid(x.i, x.j)).value;
    if Entry(s, Top(x.i)).v { TableThere(s, Top(x.i)); }
    if Entry(a, Mid(x.i, x.j)).v { TableThere(a, Mid(x.i, x.j)); }
    BothTables(s, a, b, x);
    TakeClears(b);
    TakenSlot(b, x);
    AddPageContent(Take(b).value.0, va, Take(b).value.1, Swapable);
  }
}
