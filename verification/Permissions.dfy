/** The permissions of a page: what every step of a process keeps, wherever swapping
    puts the page. */
module Permissions {
  import opened Bytes
  import opened VirtualMemory
  import opened CowTables

  /** The flags of an entry other than the two that say where the page is. */
  function Flags(e: Pte): Pte { e.(hi := 0, pfn := 0, v := false, sd := false) }

  /** A page has no flags, or those it is mapped with. */
  ghost predicate Standard(e: Pte) {
    e == ZERO || Flags(e) == Flags(PageEntry(0))
  }

  /** Every page there was is there, with the flags it had; a new one has the flags
      pages are mapped with. */
  ghost predicate FlagsKept(s: Vm, t: Vm) {
    t.kernel == s.kernel &&
    forall y {:trigger Entry(t, y)} :: User(s, y) && y.Leaf? ==>
      if Entry(s, y) == ZERO then Standard(Entry(t, y)) else Entry(t, y) != ZERO && Flags(Entry(t, y)) == Flags(Entry(s, y))
  }

  lemma FlagsKeptTransitive(s: Vm, t: Vm, u: Vm)
    requires FlagsKept(s, t) && FlagsKept(t, u)
    ensures FlagsKept(s, u)
  {
    hide Entry;
    forall y | User(s, y) && y.Leaf?
      ensures if Entry(s, y) == ZERO then Standard(Entry(u, y)) else Entry(u, y) != ZERO && Flags(Entry(u, y)) == Flags(Entry(s, y))
    {
      assert User(t, y) && (Entry(t, y) == ZERO || Entry(t, y) != ZERO);
    }
  }

  lemma SameEntriesKept(s: Vm, t: Vm)
    requires t.kernel == s.kernel && forall y {:trigger Entry(t, y)} :: User(s, y) && y.Leaf? ==> Entry(t, y) == Entry(s, y)
    ensures FlagsKept(s, t)
  {
    hide Entry;
  }

  lemma SwapOutFlags(s: Vm, n: nat)
    requires CanSwapOut(s, n)
    ensures FlagsKept(s, SwapOut(s, n))
  {
    hide Entry, SwapOut, Tables, Listed;
    SwapOutMemory(s, n);
    var x := PageOf(s.nodes[n].uva);
    forall y | User(s, y)
      ensures y == x ==> Entry(s, y).v
      ensures Entry(SwapOut(s, n), y) ==
        if y == x then SetPfn(Entry(s, y).(sd := true, v := false), SWAP_BASE + 8 * |s.sd|) else Entry(s, y)
    {
      SwapOutEntry(s, n, y);
    }
  }

  lemma TakeFlags(s: Vm)
    requires VmInv(s) && Take(s).Some?
    ensures FlagsKept(s, Take(s).value.0)
  {
    hide Core, SwapOut, Frames;
    if s.pagenum == s.upbound {
      SwapOutFlags(s, Victim(s.nodes, 0).value);
    }
  }

  lemma AddedKept(h: Vm, t: Vm, x: Slot, e: Pte, m: Node)
    requires Added(h, t, x, e, m) && !x.Leaf?
    ensures FlagsKept(h, t)
  {
    hide Entry;
  }

  lemma NeedTableFlags(s: Vm, x: Slot)
    requires VmInv(s) && s.next < |s.mem| && User(s, x) && Reached(s, x) && !x.Leaf? && NeedTable(s, x).Some?
    ensures FlagsKept(s, NeedTable(s, x).value)
  {
    hide Entry, Take, AddTable, Listed, Budget, Frames, FlagsKept;
    if !Entry(s, x).v {
      TakeFlags(s);
      MissingTable(s, x);
      TakenSlot(s, x);
      var (h, f) := Take(s).value;
      AddTableAdded(h, x, f);
      AddedKept(h, AddTable(h, x, f), x, TableEntry(f), Node(Unswapable, f, 0, None));
      FlagsKeptTransitive(s, h, AddTable(h, x, f));
    } else {
      SameEntriesKept(s, s);
    }
  }

  lemma AllocPageFlags(s: Vm, va: nat, status: Status)
    requires VmInv(s) && Roomy(s, 3) && User(s, PageOf(va)) && status != NotInMem && !Entry(s, PageOf(va)).sd
    requires AllocPage(s, va, status).Some?
    ensures FlagsKept(s, AllocPage(s, va, status).value.0)
  {
    hide Entry, Take, NeedTable, AddPage, Vpn0, Vpn1, Vpn2, Tables, Listed, Content, Frames, StaysOrSwaps, FlagsKept;
    var x := PageOf(va);
    NeedTableKeeps(s, Top(x.i));
    NeedTableFlags(s, Top(x.i));
    var a := NeedTable(s, Top(x.i)).value;
    NeedTableKeeps(a, Mid(x.i, x.j));
    NeedTableFlags(a, Mid(x.i, x.j));
    var b := NeedTable(a, Mid(x.i, x.j)).value;
    FlagsKeptTransitive(s, a, b);
    if Entry(s, Top(x.i)).v { TableThere(s, Top(x.i)); }
    if Entry(a, Mid(x.i, x.j)).v { TableThere(a, Mid(x.i, x.j)); }
    BothTables(s, a, b, x);
    if !Entry(b, x).v {
      TakeFlags(b);
      TakenSlot(b, x);
      var (h, f) := Take(b).value;
      FlagsKeptTransitive(s, b, h);
      PageFlags(h, va, f, status);
      FlagsKeptTransitive(s, h, AddPage(h, va, f, status));
    }
  }

  lemma PageFlags(h: Vm, va: nat, f: nat, status: Status)
    requires CanAdd(h, PageOf(va), f) && status != NotInMem
    ensures TableOf(h, PageOf(va)) < |h.mem| && FlagsKept(h, AddPage(h, va, f, status))
  {
    hide Entry, AddPage, Core, Frames, Vpn0, Vpn1, Vpn2;
    AddPageAdded(h, va, f, status);
  }

  lemma FaultFlags(s: Vm, va: nat, junk: nat)
    requires VmInv(s) && Roomy(s, 3) && User(s, PageOf(va)) && !Entry(s, PageOf(va)).v && Fault(s, va, junk).Some?
    ensures FlagsKept(s, Fault(s, va, junk).value)
  {
    hide Entry, Take, SwapIn, AllocPage, Vpn0, Vpn1, Vpn2, FlagsKept, Core;
    if Entry(s, PageOf(va)).sd {
      SdMeansFull(s, PageOf(va));
      HeldSwapIn(s, va);
      TakeFlags(s);
      var (h, f) := Take(s).value;
      BackFlags(h, va, f);
      FlagsKeptTransitive(s, h, SwapIn(h, va, f));
    } else {
      AllocPageFlags(s, va, Swapable);
    }
  }

  lemma BackFlags(h: Vm, va: nat, f: nat)
    requires CanSwapIn(h, va, f)
    ensures FlagsKept(h, SwapIn(h, va, f))
  {
    hide Entry, SwapIn, Vpn0, Vpn1, Vpn2, Core, Frames, FindNode;
    SwapInChange(h, va, f);
  }

  /** Every step keeps the permissions of every page, and gives a new one those that
      pages are mapped with: readable, writable, executable, for the user. */
  lemma StepFlags(s: Vm, e: Event, t: Vm)
    requires Steps(s, e, t)
    ensures VmInv(t) && FlagsKept(s, t)
  {
    hide Entry, AllocPage, Fault, Vpn0, Vpn1, Vpn2, Listed, Budget, Mapped, FlagsKept;
    match e
    case PageFault(va, junk) => FaultMaps(s, va, junk); MappedInv(s, t, PageOf(va)); FaultFlags(s, va, junk);
    case Map(va, status) =>
      AllocPageMaps(s, va, status);
      MappedAt(s, t, PageOf(va), AllocPage(s, va, status).value.1);
      AllocPageFlags(s, va, status);
    case Store(x, k, w) =>
      StoreKeeps(s, x, k, w);
      PageNotTable(s, x);
      forall y | User(s, y) ensures Entry(t, y) == Entry(s, y) {
        PutDataEntry(s, Entry(s, x).pfn, s.mem[Entry(s, x).pfn][k := w], y);
      }
      SameEntriesKept(s, t);
  }

  lemma MappedInv(s: Vm, t: Vm, x: Slot)
    requires Mapped(s, t, x, Entry(t, x).pfn)
    ensures VmInv(t)
  {
  }

  lemma MappedAt(s: Vm, t: Vm, x: Slot, f: nat)
    requires Mapped(s, t, x, f)
    ensures VmInv(t)
  {
  }

  /** Over any run a page keeps its permissions, in memory and in the SD card. */
  lemma {:induction false} RunFlags(ss: seq<Vm>, es: seq<Event>)
    requires Trace(ss, es) && VmInv(ss[0])
    ensures VmInv(ss[|es|]) && FlagsKept(ss[0], ss[|es|])
    decreases |es|
  {
    hide VmInv, Steps, FlagsKept;
    if es != [] {
      var n := |es| - 1;
      assert Steps(ss[n], es[n], ss[n + 1]);
      RunFlags(ss[..n + 1], es[..n]);
      StepFlags(ss[n], es[n], ss[n + 1]);
      FlagsKeptTransitive(ss[0], ss[n], ss[n + 1]);
    } else {
      SameEntriesKept(ss[0], ss[0]);
    }
  }

  /** So from an address space without pages every page of every run is writable, as
      snapshots need. */
  lemma RunWritable(ss: seq<Vm>, es: seq<Event>)
    requires Trace(ss, es) && VmInv(ss[0]) && forall y :: User(ss[0], y) && y.Leaf? ==> Entry(ss[0], y) == ZERO
    ensures VmInv(ss[|es|]) && Writable(ss[|es|])
  {
    RunFlags(ss, es);
    hide Entry, SlotNoOf, Steps, VmInv;
    var s, t := ss[0], ss[|es|];
    forall v: nat | Present(t, v) || Away(t, v) ensures Entry(t, SlotNoOf(v)).w {
      assert User(s, SlotNoOf(v)) && Entry(s, SlotNoOf(v)) == ZERO;
      assert Standard(Entry(t, SlotNoOf(v)));
    }
  }
}
