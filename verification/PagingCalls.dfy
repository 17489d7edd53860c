/** The paging code as it runs: tables rewritten word by word in memory, page
    nodes updated in the static array, pages copied to and from the SD card. */
module PagingCalls {
  import opened Bytes
  import opened VirtualMemory
  import opened Victims

  /** The nodes of a list of indices into the static array. */
  ghost function NodesAt(pm: seq<Node>, list: seq<nat>): (r: seq<Node>)
    requires forall i :: 0 <= i < |list| ==> list[i] < |pm|
    ensures |r| == |list| && forall i :: 0 <= i < |list| ==> r[i] == pm[list[i]]
  {
    seq(|list|, i requires 0 <= i < |list| => pm[list[i]])
  }

  class AddressSpace {
    // Shared by all processes: memory, the bump allocator, the swap area, the nodes.
    const mem: array<Frame>
    var next: nat
    var sd: seq<Frame>
    const pageManager: array<Node>
    var ids: nat
    // The process's own.
    var root: nat
    ghost var kernel: set<nat>
    var pageList: seq<nat>
    var pagenum: nat
    var upbound: nat

    ghost predicate Wired()
      reads this
    {
      && pageManager.Length == PAGE_NUM && ids <= PAGE_NUM
      && (forall i :: 0 <= i < |pageList| ==> pageList[i] < ids)
      && (forall i, j :: 0 <= i < j < |pageList| ==> pageList[i] != pageList[j])
    }

    ghost function View(): (s: Vm)
      requires Wired()
      reads this, mem, pageManager
      ensures |s.nodes| == |pageList| && |s.mem| == mem.Length
    {
      Vm(mem[..], next, sd, ids, root, kernel, NodesAt(pageManager[..], pageList), pagenum, upbound)
    }

    ghost function Repr(): set<object> { {this, mem, pageManager} }

    /** A process's address space before its first page: a root table that copies
        the kernel's entries, and a kernel stack, in the first two frames free. */
    constructor (memory: seq<Frame>, first: nat, ghost kernel: set<nat>, table: Frame, upbound: nat)
      requires first + 2 <= |memory| && upbound >= 2
      requires forall i :: 0 <= i < ENTRIES && i !in kernel ==> table[i] == ZERO
      ensures Wired() && View() == NewSpace(memory, first, [], 0, kernel, table, upbound) && VmInv(View())
      ensures fresh(mem) && fresh(pageManager)
    {
      mem := new Frame[|memory|](i requires 0 <= i < |memory| => if i == first then table else memory[i]);
      next, sd, ids := first + 2, [], 2;
      pageManager := new Node[PAGE_NUM](i => Node(Unswapable, if i == 0 then first else first + 1, 0, None));
      root, this.kernel, pageList, pagenum, this.upbound := first, kernel, [0, 1], 2, upbound;
      new;
      NewSpaceInv(memory, first, [], 0, kernel, table, upbound);
      hide VmInv;
      assert mem[..] == memory[first := table];
      assert NodesAt(pageManager[..], pageList) == [Node(Unswapable, first, 0, None), Node(Unswapable, first + 1, 0, None)];
    }

    // ---------- Words and frames ----------

    /** One word of a table. */
    method ReadWord(f: nat, k: nat) returns (e: Pte)
      requires Wired() && f < mem.Length && k < ENTRIES
      ensures e == WordAt(View(), f, k)
    {
      e := mem[f][k];
    }

    method WriteWord(f: nat, k: nat, e: Pte)
      requires Wired() && f < mem.Length && k < ENTRIES
      modifies mem
      ensures View() == PutFrame(old(View()), f, old(View()).mem[f][k := e])
    {
      mem[f] := mem[f][k := e];
      assert mem[..] == old(mem[..])[f := old(mem[f])[k := e]];
    }

    /** clear_pgdir: every word of the frame set to zero. */
    method ClearFrame(f: nat)
      requires Wired() && f < mem.Length
      modifies mem
      ensures View() == PutFrame(old(View()), f, ZeroFrame())
    {
      var i := 0;
      while i < ENTRIES
        invariant 0 <= i <= ENTRIES
        invariant forall k :: 0 <= k < i ==> mem[f][k] == ZERO
        invariant forall g :: 0 <= g < mem.Length && g != f ==> mem[g] == old(mem[g])
      {
        mem[f] := mem[f][i := ZERO];
        i := i + 1;
      }
      assert mem[f] == ZeroFrame();
      assert mem[..] == old(mem[..])[f := ZeroFrame()];
    }

    /** Replaces the node at position n of the list. */
    method WriteNode(n: nat, m: Node)
      requires Wired() && n < |pageList|
      modifies pageManager
      ensures View() == old(View()).(nodes := old(View()).nodes[n := m])
    {
      pageManager[pageList[n]] := m;
      assert View().nodes == old(View()).nodes[n := m];
    }

    // ---------- Lookups ----------

    /** pte_checker. */
    method Check(va: nat) returns (r: Option<Loc>)
      requires Wired() && Tables(View()) && User(View(), PageOf(va))
      ensures r == Walk(View(), va)
    {
      hide EntryShape;
      TableInMemory(View(), PageOf(va));
      var e := ReadWord(root, Vpn2(va));
      if !e.v { return None; }
      var second := e.pfn;
      e := ReadWord(second, Vpn1(va));
      if !e.v { return None; }
      var third := e.pfn;
      e := ReadWord(third, Vpn0(va));
      if e.v { return Some(Loc(third, Vpn0(va))); }
      if e.sd { return Some(Loc(third, Vpn0(va))); }
      return None;
    }

    /** get_pte, for a page that is in memory. */
    method PteOf(va: nat) returns (l: Loc)
      requires Wired() && Tables(View()) && User(View(), PageOf(va)) && Entry(View(), PageOf(va)).v
      ensures l == LocOf(View(), PageOf(va)) && l.frame < mem.Length && l.index < ENTRIES
      ensures WordAt(View(), l.frame, l.index) == Entry(View(), PageOf(va))
    {
      hide EntryShape;
      TableInMemory(View(), PageOf(va));
      var e := ReadWord(root, Vpn2(va));
      var second := e.pfn;
      e := ReadWord(second, Vpn1(va));
      l := Loc(e.pfn, Vpn0(va));
    }

    /** get_swap_page: the first node on the list that may be swapped. */
    method FirstSwapable() returns (r: Option<nat>)
      requires Wired()
      ensures r == Victim(View().nodes, 0)
    {
      var i := 0;
      while i != |pageList|
        invariant 0 <= i <= |pageList|
        invariant Victim(View().nodes, 0) == Victim(View().nodes, i)
      {
        if pageManager[pageList[i]].status.Swapable? { return Some(i); }
        i := i + 1;
      }
      return None;
    }

    method FindByPte(l: Loc) returns (r: Option<nat>)
      requires Wired()
      ensures r == FindNode(View().nodes, l, 0)
    {
      var i := 0;
      while i != |pageList|
        invariant 0 <= i <= |pageList|
        invariant FindNode(View().nodes, l, 0) == FindNode(View().nodes, l, i)
      {
        if pageManager[pageList[i]].pte == Some(l) { return Some(i); }
        i := i + 1;
      }
      return None;
    }

    // ---------- Swapping ----------

    /** sd_write of the eight sectors of a page. */
    method SdWrite(f: nat) returns (sector: nat)
      requires Wired() && f < mem.Length
      modifies this`sd
      ensures sector == SWAP_BASE + 8 * |old(View()).sd|
      ensures View() == old(View()).(sd := old(View()).sd + [old(View()).mem[f]])
    {
      sector := SWAP_BASE + 8 * |sd|;
      sd := sd + [mem[f]];
    }

    /** set_attribute of the SD flag, then clean_attribute of the valid one. */
    method MarkSwapped(l: Loc, ghost n: nat)
      requires Wired() && CanSwapOut(View(), n) && l == LocOf(View(), PageOf(View().nodes[n].uva))
      modifies mem
      ensures l.frame < mem.Length && l.index < ENTRIES
      ensures View() == PutFrame(old(View()), l.frame, old(View()).mem[l.frame][l.index := Marked(old(View()), n)])
    {
      hide Core, Entry, Vpn0, Vpn1, Vpn2, WordAt, View, PutFrame, TableOf;
      SwapOutMarked(View(), n);
      EntryIsWord(View(), PageOf(View().nodes[n].uva));
      VictimFacts(View(), n);
      var e := ReadWord(l.frame, l.index);
      WriteWord(l.frame, l.index, e.(sd := true));
      e := ReadWord(l.frame, l.index);
      WriteWord(l.frame, l.index, e.(v := !e.v));
    }

    /** The frame to the SD card and cleared, and the entry at l to the sector. */
    method MoveOut(l: Loc)
      requires Wired() && l.frame < mem.Length && l.index < ENTRIES && View().mem[l.frame][l.index].pfn < mem.Length
      modifies this`sd, mem
      ensures Wired()
      ensures
        var s := old(View());
        var e := s.mem[l.frame][l.index];
        var d := PutFrame(s.(sd := s.sd + [s.mem[e.pfn]]), e.pfn, ZeroFrame());
        View() == PutFrame(d, l.frame, d.mem[l.frame][l.index := SetPfn(WordAt(d, l.frame, l.index), SWAP_BASE + 8 * |s.sd|)])
    {
      hide View;
      var e := ReadWord(l.frame, l.index);
      var sector := SdWrite(e.pfn);
      ClearFrame(e.pfn);
      e := ReadWord(l.frame, l.index);
      WriteWord(l.frame, l.index, SetPfn(e, sector));
    }

    /** swap_to_sd of the node at position n; the result is its frame. */
    method SwapToSd(n: nat) returns (kva: nat)
      requires Wired() && CanSwapOut(View(), n)
      modifies this`sd, mem, pageManager
      ensures Wired() && View() == SwapOut(old(View()), n) && kva == old(View()).nodes[n].kva
    {
      hide Core, SwapOut, Entry, Vpn0, Vpn1, Vpn2, View, SetPfn, TableOf, Marked;
      ghost var s := View();
      VictimFacts(s, n);
      var node := NodeAt(n);
      kva := node.kva;
      var l := PteOf(node.uva);
      SwapOutMarked(s, n);
      MarkSwapped(l, n);
      MarkedFrame(s, n);
      MoveOut(l);
      WriteNode(n, node.(pte := Some(l), status := NotInMem, kva := 0));
      SwapOutSteps(s, n);
    }

    method NodeAt(n: nat) returns (m: Node)
      requires Wired() && n < |pageList|
      ensures m == View().nodes[n]
    {
      m := pageManager[pageList[n]];
    }

    /** do_swap; None is the kernel's stop when nothing may be swapped. */
    method DoSwap() returns (r: Option<nat>)
      requires Wired() && Core(View())
      modifies this`sd, mem, pageManager
      ensures Wired()
      ensures r.None? <==> Victim(old(View()).nodes, 0).None?
      ensures r.Some? ==>
        && View() == SwapOut(old(View()), Victim(old(View()).nodes, 0).value)
        && r.value == old(View()).nodes[Victim(old(View()).nodes, 0).value].kva
    {
      hide Core, SwapOut, View, Victim;
      var n := FirstSwapable();
      if n.None? { return None; }
      var kva := SwapToSd(n.value);
      r := Some(kva);
    }

    // ---------- Taking frames and building tables ----------

    /** allocPage(1). */
    method AllocFrame() returns (f: nat)
      requires Wired()
      modifies this`next
      ensures f == old(View()).next && View() == old(View()).(next := f + 1)
    {
      f := next;
      next := next + 1;
    }

    /** The next unused node of the array, put at the end of the list. */
    method AppendNode(m: Node)
      requires Wired() && ids < PAGE_NUM
      modifies this`ids, this`pageList, pageManager
      ensures Wired() && |pageList| == old(|pageList|) + 1
      ensures View() == old(View()).(nodes := old(View()).nodes + [m], ids := old(View()).ids + 1)
    {
      pageManager[ids] := m;
      pageList := pageList + [ids];
      ids := ids + 1;
      assert View().nodes == old(View()).nodes + [m];
    }

    /** allocPagetable: a frame and a node for it. */
    method AllocPagetable(status: Status) returns (r: Option<nat>)
      requires Wired() && Core(View()) && View().ids < PAGE_NUM
      modifies Repr()
      ensures r.None? <==> Take(old(View())).None?
      ensures r.Some? ==>
        && Wired() && r.value == Take(old(View())).value.1
        && View() == WithNode(Take(old(View())).value.0, Node(status, r.value, 0, None))
    {
      hide Core, SwapOut, View, Victim;
      ghost var s := View();
      Shared();
      var kva;
      if pagenum == upbound {
        var k := DoSwap();
        if k.None? { return None; }
        SwapOutKeeps(s, Victim(s.nodes, 0).value);
        kva := k.value;
        Shared();
        AppendNode(Node(status, kva, 0, None));
      } else {
        kva := AllocFrame();
        Shared();
        AppendNode(Node(status, kva, 0, None));
        CountPage();
      }
      r := Some(kva);
    }

    /** set_pfn of the entry at (g, k), then set_attribute of some flags. */
    method LinkWord(g: nat, k: nat, f: nat, page: bool)
      requires Wired() && g < mem.Length && k < ENTRIES
      modifies mem
      ensures
        var s := old(View());
        View() == PutFrame(s, g, s.mem[g][k := Attributed(SetPfn(WordAt(s, g, k), f), page)])
    {
      hide View, SetPfn, Attributed, PutFrame;
      ghost var s := View();
      var e := ReadWord(g, k);
      WriteWord(g, k, SetPfn(e, f));
      e := ReadWord(g, k);
      Rewritten(s, g, k, SetPfn(WordAt(s, g, k), f), Attributed(SetPfn(WordAt(s, g, k), f), page));
      WriteWord(g, k, Attributed(e, page));
    }

    /** The next-level table of entry k of table g, made if it is missing. */
    method EnsureTable(g: nat, k: nat, ghost x: Slot) returns (r: Option<nat>)
      requires Wired() && VmInv(View()) && View().next < mem.Length && View().ids < PAGE_NUM
      requires User(View(), x) && Reached(View(), x) && !x.Leaf? && g == TableOf(View(), x) && k == Index(x)
      modifies Repr()
      ensures r.None? <==> NeedTable(old(View()), x).None?
      ensures r.Some? ==>
        && Wired() && View() == NeedTable(old(View()), x).value && Entry(View(), x).v && r.value == Entry(View(), x).pfn
    {
      hide Entry, Take, View, AddTable, PutFrame, Tables, Listed, Budget, Attributed, TableOf, WithNode;
      ghost var s := View();
      TableFrame(s, x);
      EntryIsWord(s, x);
      var cur := ReadWord(g, k);
      if cur.v { return Some(cur.pfn); }
      r := AllocPagetable(Unswapable);
      if r.None? { return; }
      MissingTable(s, x);
      TakenSlot(s, x);
      TakenTable(s, x);
      LinkSteps(Take(s).value.0, x, r.value);
      NeedTableKeeps(s, x);
      ClearFrame(r.value);
      LinkWord(g, k, r.value, false);
    }

    /** Fills the node last appended with its page. */
    method NamePage(va: nat, l: Loc)
      requires Wired() && pageList != []
      modifies pageManager
      ensures
        var s := old(View());
        View() == s.(nodes := s.nodes[|s.nodes| - 1 := s.nodes[|s.nodes| - 1].(uva := va, pte := Some(l))])
    {
      hide View;
      var m := NodeAt(|pageList| - 1);
      WriteNode(|pageList| - 1, m.(uva := va, pte := Some(l)));
    }

    /** A frame for a missing page, its node and its entry. */
    method PlacePage(va: nat, g: nat, status: Status) returns (r: Option<nat>)
      requires Wired() && VmInv(View()) && View().next < mem.Length && View().ids < PAGE_NUM
      requires User(View(), PageOf(va)) && Reached(View(), PageOf(va)) && g == TableOf(View(), PageOf(va))
      requires Entry(View(), PageOf(va)) == ZERO
      modifies Repr()
      ensures r.None? <==> Take(old(View())).None?
      ensures r.Some? ==> Wired() && r.value == Take(old(View())).value.1
      ensures r.Some? ==>
        && TableOf(Take(old(View())).value.0, PageOf(va)) < mem.Length == |Take(old(View())).value.0.mem|
        && View() == AddPage(Take(old(View())).value.0, va, r.value, status)
    {
      hide Entry, Take, View, PutFrame, Tables, Listed, Budget, Attributed, TableOf, WithNode, AddPage, Vpn1, Vpn2;
      ghost var s := View();
      ghost var x := PageOf(va);
      r := AllocPagetable(status);
      if r.None? { return; }
      TakenSlot(s, x);
      TakenTable(s, x);
      PlaceSteps(Take(s).value.0, va, r.value, status);
      NamePage(va, Loc(g, Vpn0(va)));
      LinkWord(g, Vpn0(va), r.value, true);
    }

    /** alloc_page_helper: the frame of the page of va, mapped on first use. */
    method AllocPageHelper(va: nat, status: Status) returns (r: Option<nat>)
      requires Wired() && VmInv(View()) && Roomy(View(), 3) && User(View(), PageOf(va))
      requires status != NotInMem && !Entry(View(), PageOf(va)).sd
      modifies Repr()
      ensures r.None? <==> AllocPage(old(View()), va, status).None?
      ensures r.Some? ==> Wired() && AllocPage(old(View()), va, status) == Some((View(), r.value))
    {
      hide Entry, Take, NeedTable, View, Tables, Listed, Budget, TableOf, AddPage, Vpn0, Vpn1, Vpn2, Content, StaysOrSwaps;
      ghost var s := View();
      ghost var x := PageOf(va);
      Shared();
      TopTable(s, x);
      var second := EnsureTable(root, Vpn2(va), Top(x.i));
      if second.None? { return None; }
      NeedTableKeeps(s, Top(x.i));
      ghost var a := View();
      MidTable(a, x);
      var third := EnsureTable(second.value, Vpn1(va), Mid(x.i, x.j));
      if third.None? { return None; }
      NeedTableKeeps(a, Mid(x.i, x.j));
      ghost var b := View();
      if Entry(s, Top(x.i)).v { TableThere(s, Top(x.i)); }
      if Entry(a, Mid(x.i, x.j)).v { TableThere(a, Mid(x.i, x.j)); }
      BothTables(s, a, b, x);
      LeafTable(b, x);
      var cur := ReadWord(third.value, Vpn0(va));
      if cur.v { return Some(cur.pfn); }
      r := PlacePage(va, third.value, status);
    }

    /** sd_read of the eight sectors of a page into frame f. */
    method SdRead(f: nat, sector: nat)
      requires Wired() && f < mem.Length && 0 <= (sector - SWAP_BASE) / 8 < |View().sd|
      modifies mem
      ensures View() == PutFrame(old(View()), f, old(View()).sd[(sector - SWAP_BASE) / 8])
    {
      mem[f] := sd[(sector - SWAP_BASE) / 8];
      assert mem[..] == old(mem[..])[f := old(sd)[(sector - SWAP_BASE) / 8]];
    }

    /** clean_attribute of the SD flag, set_attribute of the valid one. */
    method FlagResident(l: Loc)
      requires Wired() && l.frame < mem.Length && l.index < ENTRIES
      modifies mem
      ensures
        var s := old(View());
        var e := WordAt(s, l.frame, l.index);
        View() == PutFrame(s, l.frame, s.mem[l.frame][l.index := e.(sd := !e.sd, v := true)])
    {
      hide View, PutFrame;
      ghost var s := View();
      var e := ReadWord(l.frame, l.index);
      Rewritten(s, l.frame, l.index, e.(sd := !e.sd), e.(sd := !e.sd, v := true));
      WriteWord(l.frame, l.index, e.(sd := !e.sd));
      e := ReadWord(l.frame, l.index);
      WriteWord(l.frame, l.index, e.(v := true));
    }

    /** The same, then set_pfn. */
    method MarkResident(l: Loc, f: nat)
      requires Wired() && l.frame < mem.Length && l.index < ENTRIES
      modifies mem
      ensures
        var s := old(View());
        var e := WordAt(s, l.frame, l.index);
        View() == PutFrame(s, l.frame, s.mem[l.frame][l.index := SetPfn(e.(sd := !e.sd, v := true), f)])
    {
      hide View, SetPfn, PutFrame;
      ghost var s := View();
      ghost var e0 := WordAt(s, l.frame, l.index);
      FlagResident(l);
      Rewritten(s, l.frame, l.index, e0.(sd := !e0.sd, v := true), SetPfn(e0.(sd := !e0.sd, v := true), f));
      var e := ReadWord(l.frame, l.index);
      WriteWord(l.frame, l.index, SetPfn(e, f));
    }

    /** swap_to_mem of the page of va, whose entry is at l, into frame f. */
    method SwapToMem(l: Loc, va: nat, f: nat)
      requires Wired() && CanSwapIn(View(), va, f) && l == LocOf(View(), PageOf(va))
      modifies mem, pageManager
      ensures View() == SwapIn(old(View()), va, f)
    {
      hide Entry, View, Tables, Listed, TableOf, SwapIn, Vpn0, Vpn1, Vpn2, PutFrame, SetPfn, FindNode;
      ghost var s := View();
      SwapInSteps(s, va, f);
      var e := ReadWord(l.frame, l.index);
      var n := FindByPte(l);
      var m := NodeAt(n.value);
      WriteNode(n.value, m.(status := Swapable, uva := va, kva := f));
      SdRead(f, e.pfn);
      MarkResident(l, f);
    }

    /** The load and store fault handlers, on a page that is not in memory. */
    method HandleFault(va: nat, junk: nat) returns (r: Option<()>)
      requires Wired() && VmInv(View()) && Roomy(View(), 3) && User(View(), PageOf(va)) && !Entry(View(), PageOf(va)).v
      modifies Repr()
      ensures r.None? <==> Fault(old(View()), va, junk).None?
      ensures r.Some? ==> Wired() && Fault(old(View()), va, junk) == Some(View())
      ensures r.None? <==> AbsentTables(old(View()), PageOf(va)) + 1 > Capacity(old(View()))
      ensures r.Some? ==> SwapableNode(View().nodes, va, Entry(View(), PageOf(va)).pfn)
    {
      hide Entry, View, Tables, Listed, Budget, TableOf, SwapIn, SwapOut, AllocPage, Vpn0, Vpn1, Vpn2, Victim, FindNode, Capacity, AbsentTables, SwapableNode, SameKinds;
      ghost var s := View();
      FaultCapacity(s, va, junk);
      if Fault(s, va, junk).Some? { FaultSwapable(s, va, junk); }
      var pte := Check(va);
      WalkFinds(s, va);
      AbsentPage(s, PageOf(va));
      if pte.None? {
        var a := AllocPageHelper(va, Swapable);
        if a.None? { return None; }
        return Some(());
      }
      SdMeansFull(s, PageOf(va));
      Shared();
      var kva := junk;
      if pagenum == upbound {
        var k := DoSwap();
        if k.None? { return None; }
        kva := k.value;
      }
      HeldSwapIn(s, va);
      TakenTable(s, PageOf(va));
      SwapToMem(pte.value, va, kva);
      r := Some(());
    }

    method CountPage()
      requires Wired()
      modifies this`pagenum
      ensures View() == old(View()).(pagenum := old(View()).pagenum + 1)
    {
      pagenum := pagenum + 1;
    }

    lemma Shared()
      requires Wired()
      ensures View().pagenum == pagenum && View().upbound == upbound && View().ids == ids && View().next == next && View().root == root
    {
    }
  }

  /** set_attribute of the flags of a page, or of a table. */
  function Attributed(e: Pte, page: bool): Pte {
    if page then e.(a := true, d := true, v := true, u := true, r := true, w := true, x := true)
    else e.(v := true, u := true)
  }

  /** Taking a frame moves no table. */
  lemma TakenTable(s: Vm, x: Slot)
    requires VmInv(s) && s.next < |s.mem| && Take(s).Some? && User(s, x) && Reached(s, x)
    ensures TableOf(Take(s).value.0, x) == TableOf(s, x) && |Take(s).value.0.mem| == |s.mem|
  {
    hide Entry, Take, Core, Budget;
    TakeHolds(s);
    assert x.Top? || (User(s, Parent(x)) && StaysOrSwaps(s, Take(s).value.0, Parent(x)));
  }

  /** Node, clearing and linking, in the order the kernel does them. */
  lemma LinkSteps(h: Vm, x: Slot, f: nat)
    requires CanAdd(h, x, f) && !x.Leaf?
    ensures f < |h.mem| && TableOf(h, x) < |h.mem| && Index(x) < ENTRIES
    ensures
      var g, k := TableOf(h, x), Index(x);
      var a := WithNode(h, Node(Unswapable, f, 0, None));
      var b := PutFrame(a, f, ZeroFrame());
      && PutFrame(b, g, b.mem[g][k := Attributed(SetPfn(WordAt(b, g, k), f), false)]) == AddTable(h, x, f)
      && Entry(AddTable(h, x, f), x).pfn == f
  {
    hide Entry, Listed;
    TableFrame(h, x);
    EntryIsWord(h, x);
    AddTableAdded(h, x, f);
    OtherThanTable(h, x, f);
  }

  lemma TopTable(s: Vm, x: Slot)
    requires Core(s) && User(s, x) && x.Leaf?
    ensures User(s, Top(x.i)) && Reached(s, Top(x.i)) && TableOf(s, Top(x.i)) == s.root
  {
  }

  lemma MidTable(s: Vm, x: Slot)
    requires Core(s) && User(s, x) && x.Leaf? && Entry(s, Top(x.i)).v
    ensures User(s, Mid(x.i, x.j)) && Reached(s, Mid(x.i, x.j)) && TableOf(s, Mid(x.i, x.j)) == Entry(s, Top(x.i)).pfn
  {
  }

  lemma LeafTable(s: Vm, x: Slot)
    requires Core(s) && User(s, x) && x.Leaf? && Entry(s, Mid(x.i, x.j)).v
    ensures TableOf(s, x) == Entry(s, Mid(x.i, x.j)).pfn < |s.mem| && WordAt(s, TableOf(s, x), x.k) == Entry(s, x)
  {
    TableFrame(s, x);
    EntryIsWord(s, x);
  }

  /** Node, its page and its entry, in the order the kernel fills them. */
  lemma PlaceSteps(h: Vm, va: nat, f: nat, status: Status)
    requires CanAdd(h, PageOf(va), f)
    ensures TableOf(h, PageOf(va)) < |h.mem|
    ensures
      var g, k := TableOf(h, PageOf(va)), Vpn0(va);
      var a := WithNode(h, Node(status, f, 0, None));
      && |a.nodes| == |h.nodes| + 1
      && var b := a.(nodes := a.nodes[|h.nodes| := a.nodes[|h.nodes|].(uva := va, pte := Some(Loc(g, k)))]);
      PutFrame(b, g, b.mem[g][k := Attributed(SetPfn(WordAt(b, g, k), f), true)]) == AddPage(h, va, f, status)
  {
    hide Entry, Listed, Vpn1, Vpn2;
    TableFrame(h, PageOf(va));
    EntryIsWord(h, PageOf(va));
  }

  /** What is not in memory has no content, or is in the SD card. */
  lemma AbsentPage(s: Vm, x: Slot)
    requires Tables(s) && User(s, x) && x.Leaf? && !Entry(s, x).v
    ensures Content(s, x).Some? <==> Entry(s, x).sd
  {
    hide Entry;
    assert EntryShape(s, x);
  }

  /** Node, reading and entry, in the order the kernel does them. */
  lemma SwapInSteps(s: Vm, va: nat, f: nat)
    requires CanSwapIn(s, va, f)
    ensures
      var l, e := LocOf(s, PageOf(va)), Entry(s, PageOf(va));
      var n := FindNode(s.nodes, l, 0);
      && l.frame < |s.mem| && l.index < ENTRIES && f < |s.mem| && n.Some? && 0 <= SlotNo(e) < |s.sd|
      && WordAt(s, l.frame, l.index) == e
      && var a := s.(nodes := s.nodes[n.value := s.nodes[n.value].(status := Swapable, uva := va, kva := f)]);
      var b := PutFrame(a, f, s.sd[SlotNo(e)]);
      && WordAt(b, l.frame, l.index) == e
      && PutFrame(b, l.frame, b.mem[l.frame][l.index := SetPfn(e.(sd := !e.sd, v := true), f)]) == SwapIn(s, va, f)
  {
    hide Entry, Listed, Vpn0, Vpn1, Vpn2;
    var x := PageOf(va);
    TableFrame(s, x);
    EntryIsWord(s, x);
    SwapInMemory(s, va, f);
    assert EntryShape(s, x);
    OtherThanTable(s, x, f);
  }

  lemma OtherThanTable(s: Vm, x: Slot, f: nat)
    requires Core(s) && f !in Frames(s.nodes) && User(s, x) && Reached(s, x)
    ensures TableOf(s, x) != f
  {
    hide Entry, Frames;
    TableFrame(s, x);
  }

  function WithNode(h: Vm, m: Node): Vm {
    h.(nodes := h.nodes + [m], ids := h.ids + 1)
  }

  lemma SwapOutKeeps(s: Vm, n: nat)
    requires CanSwapOut(s, n)
    ensures SwapOut(s, n).ids == s.ids
  {
    hide Entry;
  }

  lemma VictimFacts(s: Vm, n: nat)
    requires CanSwapOut(s, n)
    ensures Tables(s) && User(s, PageOf(s.nodes[n].uva)) && Entry(s, PageOf(s.nodes[n].uva)).v
    ensures Entry(s, PageOf(s.nodes[n].uva)).pfn == s.nodes[n].kva < |s.mem| && s.nodes[n].pte == Some(LocOf(s, PageOf(s.nodes[n].uva)))
  {
    hide Entry, Vpn0, Vpn1, Vpn2;
    assert NodeOk(s, s.nodes[n]);
    assert EntryShape(s, PageOf(s.nodes[n].uva));
  }

  /** A word written twice. */
  lemma Rewritten(s: Vm, f: nat, k: nat, a: Pte, b: Pte)
    requires f < |s.mem| && k < ENTRIES
    ensures
      var u := PutFrame(s, f, s.mem[f][k := a]);
      WordAt(u, f, k) == a && PutFrame(u, f, u.mem[f][k := b]) == PutFrame(s, f, s.mem[f][k := b])
  {
    assert s.mem[f][k := a][k := b] == s.mem[f][k := b];
    assert s.mem[f := s.mem[f][k := a]][f := s.mem[f][k := b]] == s.mem[f := s.mem[f][k := b]];
  }

  /** Writing two frames, then one of them again. */
  lemma WrittenAgain(s: Vm, f: nat, k: nat, a: Pte, b: Pte, g: nat, c: Frame, sd: seq<Frame>)
    requires f < |s.mem| && g < |s.mem| && f != g && k < ENTRIES
    ensures
      var u := PutFrame(PutFrame(s, f, s.mem[f][k := a]).(sd := sd), g, c);
      && WordAt(u, f, k) == a
      && PutFrame(u, f, u.mem[f][k := b]) == PutFrame(PutFrame(s, f, s.mem[f][k := b]), g, c).(sd := sd)
  {
    assert s.mem[f][k := a][k := b] == s.mem[f][k := b];
    assert s.mem[f := s.mem[f][k := a]][g := c][f := s.mem[f][k := b]] == s.mem[f := s.mem[f][k := b]][g := c];
  }

  /** The entry of the victim after its two flags changed. */
  ghost function Marked(s: Vm, n: nat): Pte
    requires n < |s.nodes|
  {
    Entry(s, PageOf(s.nodes[n].uva)).(sd := true, v := false)
  }

  lemma SwapOutMarked(s: Vm, n: nat)
    requires CanSwapOut(s, n)
    ensures
      var x := PageOf(s.nodes[n].uva);
      var l, e := LocOf(s, x), Entry(s, x);
      && l.frame < |s.mem| && l.frame != e.pfn && e.v && l.index < ENTRIES
      && var a := PutFrame(s, l.frame, s.mem[l.frame][l.index := e.(sd := true)]);
      && WordAt(a, l.frame, l.index) == e.(sd := true)
      && var b := PutFrame(a, l.frame, a.mem[l.frame][l.index := Marked(s, n)]);
      && b == PutFrame(s, l.frame, s.mem[l.frame][l.index := Marked(s, n)])
      && WordAt(b, l.frame, l.index) == Marked(s, n) && b.sd == s.sd && b.mem[e.pfn] == s.mem[e.pfn]
  {
    hide Entry, Listed, Vpn1, Vpn2;
    var x := PageOf(s.nodes[n].uva);
    var l := LocOf(s, x);
    VictimFacts(s, n);
    PageNotTable(s, x);
    SwapOutChange(s, n);
    PutBothEntry(s, x, Entry(s, x), Entry(s, x).pfn, ZeroFrame(), x);
    Rewritten(s, l.frame, l.index, Entry(s, x).(sd := true), Marked(s, n));
  }

  lemma MarkedFrame(s: Vm, n: nat)
    requires CanSwapOut(s, n)
    ensures Marked(s, n).pfn == s.nodes[n].kva < |s.mem|
  {
    hide Entry, Core;
    VictimFacts(s, n);
  }

  lemma SwapOutSteps(s: Vm, n: nat)
    requires CanSwapOut(s, n)
    ensures
      var x := PageOf(s.nodes[n].uva);
      var l, e := LocOf(s, x), Entry(s, x);
      && l.frame < |s.mem| && e.pfn < |s.mem| && l.index < ENTRIES
      && var b := PutFrame(s, l.frame, s.mem[l.frame][l.index := Marked(s, n)]);
      var d := PutFrame(b.(sd := s.sd + [s.mem[e.pfn]]), e.pfn, ZeroFrame());
      && WordAt(d, l.frame, l.index) == Marked(s, n)
      && var g := PutFrame(d, l.frame, d.mem[l.frame][l.index := SetPfn(Marked(s, n), SWAP_BASE + 8 * |s.sd|)]);
      g.(nodes := g.nodes[n := s.nodes[n].(pte := Some(l), status := NotInMem, kva := 0)]) == SwapOut(s, n)
  {
    hide Entry, Listed, Vpn1, Vpn2;
    var x := PageOf(s.nodes[n].uva);
    var l, e := LocOf(s, x), Entry(s, x);
    VictimFacts(s, n);
    SwapOutMarked(s, n);
    WrittenAgain(s, l.frame, l.index, Marked(s, n), SetPfn(Marked(s, n), SWAP_BASE + 8 * |s.sd|), e.pfn, ZeroFrame(),
                 s.sd + [s.mem[e.pfn]]);
  }

  /** The tables above a user page lie in memory. */
  lemma TableInMemory(s: Vm, x: Slot)
    requires Tables(s) && User(s, x) && x.Leaf?
    ensures s.root < |s.mem| && x.i < ENTRIES && x.j < ENTRIES && x.k < ENTRIES
    ensures Entry(s, Top(x.i)).v ==> Entry(s, Top(x.i)).pfn < |s.mem|
    ensures Entry(s, Mid(x.i, x.j)).v ==> Entry(s, Mid(x.i, x.j)).pfn < |s.mem|
  {
    hide Entry;
    assert User(s, Top(x.i)) && User(s, Mid(x.i, x.j));
    assert EntryShape(s, Top(x.i)) && EntryShape(s, Mid(x.i, x.j));
  }
}
