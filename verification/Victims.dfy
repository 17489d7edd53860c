/** Which pages may be swapped out, and so when a fault has to stop for want of one. */
module Victims {
  import opened Bytes
  import opened VirtualMemory

  // ---------- How many frames a process can still get ----------

  /** The positions of the nodes that may be swapped out. */
  ghost function Swapables(nodes: seq<Node>): set<nat> {
    set i | 0 <= i < |nodes| && nodes[i].status == Swapable
  }

  /** New frames up to the bound, and frames of pages that may be swapped. */
  ghost function Capacity(s: Vm): int {
    s.upbound - s.pagenum + |Swapables(s.nodes)|
  }

  lemma SwapablesPut(nodes: seq<Node>, n: nat, m: Node)
    requires n < |nodes|
    ensures |Swapables(nodes[n := m])| ==
            |Swapables(nodes)| + (if m.status == Swapable then 1 else 0) - (if nodes[n].status == Swapable then 1 else 0)
  {
    var rest := Swapables(nodes) - {n};
    assert Swapables(nodes[n := m]) == if m.status == Swapable then rest + {n} else rest;
    assert Swapables(nodes) == if nodes[n].status == Swapable then rest + {n} else rest;
  }

  lemma SwapablesAdd(nodes: seq<Node>, m: Node)
    ensures |Swapables(nodes + [m])| == |Swapables(nodes)| + if m.status == Swapable then 1 else 0
  {
    assert Swapables(nodes + [m]) == if m.status == Swapable then Swapables(nodes) + {|nodes|} else Swapables(nodes);
  }

  lemma NoVictim(nodes: seq<Node>)
    ensures Victim(nodes, 0).None? <==> |Swapables(nodes)| == 0
  {
    var v := Victim(nodes, 0);
    if v.Some? {
      assert v.value in Swapables(nodes);
    } else {
      assert Swapables(nodes) == {};
    }
  }

  lemma SwapOutCapacity(s: Vm, n: nat)
    requires CanSwapOut(s, n)
    ensures
      var t := SwapOut(s, n);
      && t.nodes == s.nodes[n := SwappedNode(s, s.nodes[n])] && t.pagenum == s.pagenum && t.upbound == s.upbound
      && Capacity(t) == Capacity(s) - 1
  {
    hide Entry, Tables, Listed, Swapables;
    SwapablesPut(s.nodes, n, SwappedNode(s, s.nodes[n]));
  }

  /** Taking a frame stops exactly if the process can get no more, and uses one up. */
  lemma TakeCapacity(s: Vm)
    requires VmInv(s)
    ensures Capacity(s) >= 0 && (Take(s).None? <==> Capacity(s) == 0)
    ensures Take(s).Some? ==> Capacity(Take(s).value.0) == Capacity(s) - 1
  {
    hide Core, SwapOut, Swapables, Frames;
    NoVictim(s.nodes);
    if s.pagenum == s.upbound && Take(s).Some? {
      SwapOutCapacity(s, Victim(s.nodes, 0).value);
    }
  }

  /** 1 if the table for x is absent, as making it takes a frame that never comes back. */
  ghost function Absent(s: Vm, x: Slot): int {
    if Entry(s, x).v then 0 else 1
  }

  lemma NeedTableCapacity(s: Vm, x: Slot)
    requires VmInv(s) && s.next < |s.mem| && User(s, x) && Reached(s, x) && !x.Leaf?
    ensures NeedTable(s, x).None? <==> Absent(s, x) > Capacity(s)
    ensures NeedTable(s, x).Some? ==> Capacity(NeedTable(s, x).value) == Capacity(s) - Absent(s, x)
  {
    hide Entry, Take, Core, Frames, Swapables;
    TakeCapacity(s);
    if !Entry(s, x).v && Take(s).Some? {
      var (h, f) := Take(s).value;
      SwapablesAdd(h.nodes, Node(Unswapable, f, 0, None));
    }
  }

  /** The tables above page x that are not there. */
  ghost function AbsentTables(s: Vm, x: Slot): int
    requires x.Leaf?
  {
    Absent(s, Top(x.i)) + Absent(s, Mid(x.i, x.j))
  }

  /** From s to t every node stays that of its page, and as to swapping what it was. */
  ghost predicate SameKinds(s: Vm, t: Vm) {
    && |s.nodes| <= |t.nodes|
    && forall i :: 0 <= i < |s.nodes| ==>
         && (t.nodes[i].status == Unswapable <==> s.nodes[i].status == Unswapable)
         && t.nodes[i].pte.Some? == s.nodes[i].pte.Some? && PageOf(t.nodes[i].uva) == PageOf(s.nodes[i].uva)
  }

  lemma SameKindsTransitive(s: Vm, t: Vm, u: Vm)
    requires SameKinds(s, t) && SameKinds(t, u)
    ensures SameKinds(s, u)
  {
    hide PageOf;
  }

  lemma TakeKinds(s: Vm)
    requires VmInv(s) && Take(s).Some?
    ensures SameKinds(s, Take(s).value.0)
  {
    hide Entry, Tables, Listed, Budget, PageOf, SwapOut, Swapables, SwappedNode;
    if s.pagenum == s.upbound {
      var n := Victim(s.nodes, 0).value;
      SwapOutCapacity(s, n);
      VictimNode(s, n);
    }
  }

  lemma VictimNode(s: Vm, n: nat)
    requires CanSwapOut(s, n)
    ensures s.nodes[n].pte.Some? && SwappedNode(s, s.nodes[n]) == s.nodes[n].(status := NotInMem, kva := 0, pte := SwappedNode(s, s.nodes[n]).pte)
    ensures SwappedNode(s, s.nodes[n]).pte.Some?
  {
    hide Entry, Tables, Vpn0, Vpn1, Vpn2;
    assert NodeOk(s, s.nodes[n]);
  }

  lemma NeedTableKinds(s: Vm, x: Slot)
    requires VmInv(s) && s.next < |s.mem| && User(s, x) && Reached(s, x) && !x.Leaf? && NeedTable(s, x).Some?
    ensures SameKinds(s, NeedTable(s, x).value)
  {
    hide Entry, Take, Core, Frames, PageOf;
    if !Entry(s, x).v { TakeKinds(s); }
  }

  /** Making the top table makes no other one. */
  lemma SecondAbsent(s: Vm, x: Slot)
    requires VmInv(s) && s.next < |s.mem| && User(s, x) && x.Leaf? && NeedTable(s, Top(x.i)).Some?
    ensures Absent(NeedTable(s, Top(x.i)).value, Mid(x.i, x.j)) == Absent(s, Mid(x.i, x.j))
  {
    hide Entry, Take, AddTable, Core, Frames, Confined, SameContent;
    var y := Mid(x.i, x.j);
    if !Entry(s, Top(x.i)).v {
      MissingTop(s, Top(x.i));
      TakeHolds(s);
      TakenSlot(s, Top(x.i));
      var (h, f) := Take(s).value;
      AddTableAdded(h, Top(x.i), f);
      assert StaysOrSwaps(s, h, y) && User(h, y);
    }
  }

  lemma MissingTop(s: Vm, x: Slot)
    requires VmInv(s) && User(s, x) && !x.Leaf? && !Entry(s, x).v
    ensures Entry(s, x) == ZERO
  {
    MissingTable(s, x);
  }

  lemma PageCapacity(h: Vm, va: nat, f: nat, status: Status)
    requires CanAdd(h, PageOf(va), f) && status != NotInMem
    ensures TableOf(h, PageOf(va)) < |h.mem|
    ensures
      var t := AddPage(h, va, f, status);
      && t.nodes == h.nodes + [Node(status, f, va, Some(Loc(TableOf(h, PageOf(va)), Vpn0(va))))]
      && Capacity(t) == Capacity(h) + if status == Swapable then 1 else 0
  {
    hide Entry, Frames, Core, Vpn0, Vpn1, Vpn2, Swapables, PutEntry;
    AddPageAdded(h, va, f, status);
    SwapablesAdd(h.nodes, Node(status, f, va, Some(Loc(TableOf(h, PageOf(va)), Vpn0(va)))));
  }

  /** Mapping a missing page takes a frame for each absent table and one for the page:
      it stops exactly if that is more than the process can get. What it uses up are
      the tables, and the page as well unless it may be swapped. */
  lemma AllocPageCapacity(s: Vm, va: nat, status: Status)
    requires VmInv(s) && Roomy(s, 3) && User(s, PageOf(va)) && status != NotInMem && Entry(s, PageOf(va)) == ZERO
    ensures
      var r := AllocPage(s, va, status);
      var k := AbsentTables(s, PageOf(va));
      && (r.None? <==> k + 1 > Capacity(s))
      && (r.Some? ==> Capacity(r.value.0) == Capacity(s) - k - (if status == Swapable then 0 else 1))
  {
    hide Entry, Take, NeedTable, Vpn0, Vpn1, Vpn2, Tables, Listed, Content, Frames, StaysOrSwaps, Swapables, Capacity, PutEntry;
    var x := PageOf(va);
    NeedTableCapacity(s, Top(x.i));
    TakeCapacity(s);
    if NeedTable(s, Top(x.i)).Some? {
      NeedTableKeeps(s, Top(x.i));
      var a := NeedTable(s, Top(x.i)).value;
      NeedTableCapacity(a, Mid(x.i, x.j));
      SecondAbsent(s, x);
      if NeedTable(a, Mid(x.i, x.j)).Some? {
        NeedTableKeeps(a, Mid(x.i, x.j));
        var b := NeedTable(a, Mid(x.i, x.j)).value;
        if Entry(s, Top(x.i)).v { TableThere(s, Top(x.i)); }
        if Entry(a, Mid(x.i, x.j)).v { TableThere(a, Mid(x.i, x.j)); }
        BothTables(s, a, b, x);
        TakeCapacity(b);
        if Take(b).Some? {
          var (h, f) := Take(b).value;
          TakenSlot(b, x);
          PageCapacity(h, va, f, status);
        }
      }
    }
  }

  /** Address va has a node that may be swapped out, with frame f. */
  ghost predicate SwapableNode(nodes: seq<Node>, va: nat, f: nat) {
    exists i :: 0 <= i < |nodes| && nodes[i].status == Swapable && nodes[i].kva == f && nodes[i].pte.Some? && nodes[i].uva == va
  }

  /** Mapping a page keeps the kinds of all nodes, and a missing one mapped as such
      may be swapped. */
  lemma AllocPageKinds(s: Vm, va: nat, status: Status)
    requires VmInv(s) && Roomy(s, 3) && User(s, PageOf(va)) && status != NotInMem && !Entry(s, PageOf(va)).sd
    requires AllocPage(s, va, status).Some?
    ensures
      var (t, f) := AllocPage(s, va, status).value;
      && SameKinds(s, t)
      && (!Entry(s, PageOf(va)).v && status == Swapable ==> SwapableNode(t.nodes, va, f))
  {
    hide Entry, Take, NeedTable, Vpn0, Vpn1, Vpn2, Tables, Listed, Content, Frames, StaysOrSwaps, PutEntry;
    var x := PageOf(va);
    NeedTableKeeps(s, Top(x.i));
    NeedTableKinds(s, Top(x.i));
    var a := NeedTable(s, Top(x.i)).value;
    NeedTableKeeps(a, Mid(x.i, x.j));
    NeedTableKinds(a, Mid(x.i, x.j));
    var b := NeedTable(a, Mid(x.i, x.j)).value;
    SameKindsTransitive(s, a, b);
    if Entry(s, Top(x.i)).v { TableThere(s, Top(x.i)); }
    if Entry(a, Mid(x.i, x.j)).v { TableThere(a, Mid(x.i, x.j)); }
    BothTables(s, a, b, x);
    if !Entry(b, x).v {
      TakeKinds(b);
      TakenSlot(b, x);
      var (h, f) := Take(b).value;
      SameKindsTransitive(s, b, h);
      PageCapacity(h, va, f, status);
      SameKindsAdd(h, AddPage(h, va, f, status));
      assert AddPage(h, va, f, status).nodes[|h.nodes|].kva == f;
      SameKindsTransitive(s, h, AddPage(h, va, f, status));
    }
  }

  lemma SameKindsAdd(s: Vm, t: Vm)
    requires s.nodes <= t.nodes
    ensures SameKinds(s, t)
  {
    hide PageOf;
  }

  // ---------- Faults ----------

  lemma BackKinds(h: Vm, va: nat, f: nat)
    requires CanSwapIn(h, va, f)
    ensures SameKinds(h, SwapIn(h, va, f)) && Capacity(SwapIn(h, va, f)) == Capacity(h) + 1
    ensures SwapableNode(SwapIn(h, va, f).nodes, va, f)
  {
    hide Entry, Vpn0, Vpn1, Vpn2, Tables, Listed, Swapables, FindNode;
    var n := FindNode(h.nodes, LocOf(h, PageOf(va)), 0).value;
    SwappedPageNode(h, PageOf(va));
    var m := h.nodes[n].(status := Swapable, uva := va, kva := f);
    var t := SwapIn(h, va, f);
    assert t.nodes == h.nodes[n := m] && t.nodes[n] == m;
    assert h.nodes[n].pte.Some? by { assert NodeOk(h, h.nodes[n]); }
    SwapablesPut(h.nodes, n, m);
  }

  // ---------- Faults ----------

  /** A fault stops exactly if the process can get fewer frames than the absent tables
      and the page need. It uses up the tables' frames only: the page it maps, new or
      back from the SD card, can be swapped out in its turn. */
  lemma FaultCapacity(s: Vm, va: nat, junk: nat)
    requires VmInv(s) && Roomy(s, 3) && User(s, PageOf(va)) && !Entry(s, PageOf(va)).v
    ensures
      var r := Fault(s, va, junk);
      var k := AbsentTables(s, PageOf(va));
      (r.None? <==> k + 1 > Capacity(s)) && (r.Some? ==> Capacity(r.value) == Capacity(s) - k)
  {
    hide Entry, Take, SwapIn, AllocPage, Vpn0, Vpn1, Vpn2, Core, Capacity;
    TakeCapacity(s);
    if Entry(s, PageOf(va)).sd {
      SdMeansFull(s, PageOf(va));
      UpValid(s, PageOf(va));
      if Take(s).Some? {
        HeldSwapIn(s, va);
        BackKinds(Take(s).value.0, va, Take(s).value.1);
      }
    } else {
      MissingPage(s, PageOf(va));
      AllocPageCapacity(s, va, Swapable);
    }
  }

  lemma MissingPage(s: Vm, x: Slot)
    requires VmInv(s) && User(s, x) && !Entry(s, x).v && !Entry(s, x).sd
    ensures Entry(s, x) == ZERO
  {
    hide Entry;
    assert EntryShape(s, x);
  }

  /** After a fault the page's node records the faulting address, may be swapped out,
      and is the only one in memory with the frame the walk finds for the page. */
  lemma FaultSwapable(s: Vm, va: nat, junk: nat)
    requires VmInv(s) && Roomy(s, 3) && User(s, PageOf(va)) && !Entry(s, PageOf(va)).v && Fault(s, va, junk).Some?
    ensures
      var t := Fault(s, va, junk).value;
      var f := Entry(t, PageOf(va)).pfn;
      && SameKinds(s, t) && SwapableNode(t.nodes, va, f)
      && forall i :: 0 <= i < |t.nodes| && Resident(t.nodes[i]) && t.nodes[i].kva == f ==> t.nodes[i].status == Swapable
  {
    hide Entry, Take, SwapIn, AllocPage, Vpn0, Vpn1, Vpn2, Mapped, SameKinds, SwapableNode;
    var x := PageOf(va);
    if Entry(s, x).sd {
      SdMeansFull(s, x);
      HeldSwapIn(s, va);
      var (h, f) := Take(s).value;
      TakeKinds(s);
      BackKinds(h, va, f);
      SameKindsTransitive(s, h, SwapIn(h, va, f));
      BackMapped(s, h, f, va);
    } else {
      AllocPageMaps(s, va, Swapable);
      AllocPageKinds(s, va, Swapable);
      var (t, f) := AllocPage(s, va, Swapable).value;
      MappedFrame(s, t, x, f);
    }
    FaultMaps(s, va, junk);
    SoleNode(s, Fault(s, va, junk).value, va);
  }

  lemma SoleNode(s: Vm, t: Vm, va: nat)
    requires Mapped(s, t, PageOf(va), Entry(t, PageOf(va)).pfn) && SwapableNode(t.nodes, va, Entry(t, PageOf(va)).pfn)
    ensures forall i :: 0 <= i < |t.nodes| && Resident(t.nodes[i]) && t.nodes[i].kva == Entry(t, PageOf(va)).pfn ==> t.nodes[i].status == Swapable
  {
    hide Entry, PageOf;
  }

  // ---------- Runs ----------

  /** The frames an event uses up for good. */
  ghost function Cost(s: Vm, e: Event): int {
    match e
    case PageFault(va, _) => AbsentTables(s, PageOf(va))
    case Map(va, status) =>
      if Entry(s, PageOf(va)).v then 0 else AbsentTables(s, PageOf(va)) + if status == Swapable then 0 else 1
    case Store(_, _, _) => 0
  }

  lemma StepCapacity(s: Vm, e: Event, t: Vm)
    requires Steps(s, e, t)
    ensures VmInv(t) && Capacity(t) == Capacity(s) - Cost(s, e) && SameKinds(s, t)
  {
    hide Entry, AllocPage, Fault, Vpn0, Vpn1, Vpn2, Core, Capacity, SameKinds, Mapped;
    match e
    case PageFault(va, junk) =>
      FaultCapacity(s, va, junk);
      FaultSwapable(s, va, junk);
      StepKeeps(s, e, t);
    case Map(va, status) =>
      AllocPageMaps(s, va, status);
      AllocPageKinds(s, va, status);
      StepKeeps(s, e, t);
      if !Entry(s, PageOf(va)).v {
        MissingPage(s, PageOf(va));
        AllocPageCapacity(s, va, status);
      }
    case Store(x, k, w) =>
      StoreKeeps(s, x, k, w);
      SameNodes(s, t);
  }

  lemma SameNodes(s: Vm, t: Vm)
    requires t == s.(mem := t.mem)
    ensures Capacity(t) == Capacity(s) && SameKinds(s, t)
  {
    hide PageOf;
  }

  lemma StepKeeps(s: Vm, e: Event, t: Vm)
    requires Steps(s, e, t) && !e.Store?
    ensures VmInv(t)
  {
    hide Entry, AllocPage, Fault, Vpn0, Vpn1, Vpn2, Core, Confined;
    match e
    case PageFault(va, junk) => FaultMaps(s, va, junk);
    case Map(va, status) => AllocPageMaps(s, va, status);
  }

  ghost function Spent(ss: seq<Vm>, es: seq<Event>): int
    requires |ss| == |es| + 1
    decreases |es|
  {
    if es == [] then 0 else
    var n := |es| - 1;
    Spent(ss[..n + 1], es[..n]) + Cost(ss[n], es[n])
  }

  /** Over any run a process can get as many frames as at first, less those of tables
      made and of pages mapped so that they stay: faults cost it nothing else. */
  lemma {:induction false} RunCapacity(ss: seq<Vm>, es: seq<Event>)
    requires Trace(ss, es) && VmInv(ss[0])
    ensures VmInv(ss[|es|]) && Capacity(ss[|es|]) == Capacity(ss[0]) - Spent(ss, es)
    decreases |es|
  {
    hide VmInv, Steps, Capacity, Cost;
    if es != [] {
      var n := |es| - 1;
      assert Steps(ss[n], es[n], ss[n + 1]);
      RunCapacity(ss[..n + 1], es[..n]);
      StepCapacity(ss[n], es[n], ss[n + 1]);
    }
  }

  /** A page has a node, and may be swapped out whenever it is in memory. */
  ghost predicate Brought(s: Vm, x: Slot) {
    exists i :: 0 <= i < |s.nodes| && s.nodes[i].pte.Some? && PageOf(s.nodes[i].uva) == x && s.nodes[i].status != Unswapable
  }

  lemma KindsBrought(s: Vm, t: Vm, x: Slot)
    requires Brought(s, x) && SameKinds(s, t)
    ensures Brought(t, x)
  {
    hide PageOf;
    var i :| 0 <= i < |s.nodes| && s.nodes[i].pte.Some? && PageOf(s.nodes[i].uva) == x && s.nodes[i].status != Unswapable;
    assert PageOf(t.nodes[i].uva) == x;
  }

  lemma FaultBrings(s: Vm, va: nat, junk: nat)
    requires VmInv(s) && Roomy(s, 3) && User(s, PageOf(va)) && !Entry(s, PageOf(va)).v && Fault(s, va, junk).Some?
    ensures Brought(Fault(s, va, junk).value, PageOf(va))
  {
    hide Entry, Fault, PageOf, VmInv;
    FaultSwapable(s, va, junk);
  }

  /** Every page that a fault of the run brought in may be swapped out while it is in memory. */
  lemma {:induction false} RunBrought(ss: seq<Vm>, es: seq<Event>, k: nat)
    requires Trace(ss, es) && VmInv(ss[0]) && k < |es| && es[k].PageFault?
    ensures Brought(ss[|es|], PageOf(es[k].va))
    decreases |es|
  {
    hide VmInv, Capacity, Cost, PageOf, Brought, Fault, Entry, AllocPage, StoreWord;
    var n := |es| - 1;
    assert Steps(ss[n], es[n], ss[n + 1]);
    StepCapacity(ss[n], es[n], ss[n + 1]);
    if k == n {
      FaultBrings(ss[n], es[n].va, es[n].junk);
    } else {
      RunBrought(ss[..n + 1], es[..n], k);
      KindsBrought(ss[n], ss[n + 1], PageOf(es[k].va));
    }
  }

  lemma BroughtSwapable(s: Vm, x: Slot)
    requires VmInv(s) && Brought(s, x) && User(s, x) && Entry(s, x).v
    ensures Capacity(s) > 0
  {
    hide Entry, Tables, Vpn0, Vpn1, Vpn2, Frames;
    var i :| 0 <= i < |s.nodes| && s.nodes[i].pte.Some? && PageOf(s.nodes[i].uva) == x && s.nodes[i].status != Unswapable;
    InMemoryShape(s, x);
    assert NodeOk(s, s.nodes[i]) && i in Swapables(s.nodes);
  }

  lemma InMemoryShape(s: Vm, x: Slot)
    requires VmInv(s) && User(s, x) && Entry(s, x).v
    ensures !Entry(s, x).sd
  {
    hide Entry;
    assert EntryShape(s, x);
  }

  /** So over any run a fault on a page in the SD card goes through as long as some page
      that a fault brought in is in memory. */
  lemma RunFaultGoes(ss: seq<Vm>, es: seq<Event>, k: nat, va: nat, junk: nat)
    requires Trace(ss, es) && VmInv(ss[0]) && k < |es| && es[k].PageFault?
    requires VmInv(ss[|es|]) && Roomy(ss[|es|], 3) && User(ss[|es|], PageOf(va)) && Entry(ss[|es|], PageOf(va)).sd
    requires !Entry(ss[|es|], PageOf(va)).v && User(ss[|es|], PageOf(es[k].va)) && Entry(ss[|es|], PageOf(es[k].va)).v
    ensures Fault(ss[|es|], va, junk).Some?
  {
    hide VmInv, Capacity, Vpn0, Vpn1, Vpn2, Brought, Fault, Steps, Entry;
    RunBrought(ss, es, k);
    BroughtSwapable(ss[|es|], PageOf(es[k].va));
    FaultCapacity(ss[|es|], va, junk);
    UpValid(ss[|es|], PageOf(va));
  }

  /** A new process can get as many frames as its bound allows beyond its root table
      and its kernel stack. */
  lemma NewCapacity(mem: seq<Frame>, next: nat, sd: seq<Frame>, ids: nat, kernel: set<nat>, table: Frame, upbound: nat)
    requires next + 2 <= |mem|
    ensures Capacity(NewSpace(mem, next, sd, ids, kernel, table, upbound)) == upbound - 2
  {
    assert Swapables(NewSpace(mem, next, sd, ids, kernel, table, upbound).nodes) == {};
  }
}
