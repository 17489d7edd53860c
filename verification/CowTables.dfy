/** The copy-on-write model's page map is what the three-level tables implement: a
    process before its first snapshot is a state of that model, in which every page
    shows what the walk finds. */
module CowTables {
  import opened Bytes
  import opened VirtualMemory
  import C = CopyOnWrite

  const PAGES := 0x800_0000

  /** The entry of page number v. */
  function SlotNoOf(v: nat): (x: Slot)
    ensures x.Leaf?
  {
    PageOf(v * 0x1000)
  }

  function NumberOf(va: nat): (v: nat)
    ensures v < PAGES
  {
    va / 0x1000 % PAGES
  }

  /** A page's number names its entry, and no other number below PAGES does. */
  lemma NumberNames(va: nat)
    ensures SlotNoOf(NumberOf(va)) == PageOf(va)
  {
    var v := NumberOf(va);
    assert va / 0x1000 == (va / 0x1000 / PAGES) * PAGES + v;
    DividedTwice(va);
    DividedTwice(v * 0x1000);
    assert v * 0x1000 / 0x1000 == v;
    Folded(va / 0x1000, v, va / 0x1000 / PAGES);
  }

  lemma DividedTwice(va: nat)
    ensures Vpn2(va) == va / 0x1000 / 0x4_0000 % ENTRIES && Vpn1(va) == va / 0x1000 / 0x200 % ENTRIES && Vpn0(va) == va / 0x1000 % ENTRIES
  {
  }

  lemma Folded(n: nat, v: nat, q: nat)
    requires n == q * PAGES + v
    ensures n / 0x4_0000 % ENTRIES == v / 0x4_0000 % ENTRIES && n / 0x200 % ENTRIES == v / 0x200 % ENTRIES && n % ENTRIES == v % ENTRIES
  {
    Upper(q * 0x200 + v / 0x4_0000, v % 0x4_0000);
    Middle(q * 0x4_0000 + v / 0x200, v % 0x200);
    ModAdd(v / 0x4_0000, q);
    ModAdd(v / 0x200, q * 0x200);
    ModAdd(v, q * 0x4_0000);
  }

  lemma Upper(a: nat, r: nat)
    requires r < 0x4_0000
    ensures (a * 0x4_0000 + r) / 0x4_0000 == a
  {
  }

  lemma Middle(a: nat, r: nat)
    requires r < 0x200
    ensures (a * 0x200 + r) / 0x200 == a
  {
  }

  lemma ModAdd(x: nat, q: nat)
    ensures (q * ENTRIES + x) % ENTRIES == x % ENTRIES
  {
  }

  lemma NumberUnique(v: nat, w: nat)
    requires v < PAGES && w < PAGES && SlotNoOf(v) == SlotNoOf(w)
    ensures v == w
  {
    SamePage(v * 0x1000, w * 0x1000);
  }

  // ---------- The state ----------

  function CowStatusOf(status: Status): C.CowStatus {
    match status
    case Swapable => C.Plain
    case Unswapable => C.Pinned
    case NotInMem => C.Evicted
  }

  function CowNodeOf(n: Node): C.CowNode {
    C.CowNode(CowStatusOf(n.status), n.kva, 0, NumberOf(n.uva))
  }

  ghost predicate Present(s: Vm, v: nat) {
    v < PAGES && User(s, SlotNoOf(v)) && Entry(s, SlotNoOf(v)).v
  }

  ghost predicate Away(s: Vm, v: nat) {
    v < PAGES && User(s, SlotNoOf(v)) && !Entry(s, SlotNoOf(v)).v && Content(s, SlotNoOf(v)).Some?
  }

  /** The pages in memory, as their entries show them. */
  ghost function PtesOf(s: Vm): map<nat, C.Mapping> {
    map v: nat | v < PAGES && Present(s, v) :: C.Mapping(Entry(s, SlotNoOf(v)).pfn, Entry(s, SlotNoOf(v)).w)
  }

  /** The pages in the SD card. */
  ghost function SdOf(s: Vm): map<nat, Frame> {
    map v: nat | v < PAGES && Away(s, v) :: Content(s, SlotNoOf(v)).value
  }

  /** The frames that are not tables. */
  ghost function MemOf(s: Vm): map<nat, Frame> {
    map f: nat | f < |s.mem| && NotTable(s, f) :: s.mem[f]
  }

  ghost function CowOf(s: Vm): C.Cow {
    C.Cow(PtesOf(s), SdOf(s), seq(|s.nodes|, i requires 0 <= i < |s.nodes| => CowNodeOf(s.nodes[i])), MemOf(s))
  }

  /** The kernel maps every page writable; only snapshots take that away. */
  ghost predicate Writable(s: Vm) {
    forall v: nat :: Present(s, v) || Away(s, v) ==> Entry(s, SlotNoOf(v)).w
  }

  /** Every page shows in the one model what it shows in the other. */
  lemma SameShown(s: Vm, va: nat)
    requires VmInv(s) && User(s, PageOf(va))
    ensures C.Content(CowOf(s), NumberOf(va)) == Content(s, PageOf(va))
  {
    NumberNames(va);
    hide Entry, Listed, Vpn0, Vpn1, Vpn2, SlotNoOf, NumberOf, NotTable;
    assert EntryShape(s, PageOf(va));
    if Entry(s, PageOf(va)).v { PageNotTable(s, PageOf(va)); }
  }

  lemma HasHome(s: Vm, v: nat)
    requires VmInv(s) && v in PtesOf(s)
    ensures
      var c := CowOf(s);
      C.NodeOf(c.nodes, c.ptes[v].frame, 0) < |c.nodes| && c.ptes[v].frame in c.mem && v !in c.sd
  {
    hide Entry, C.NodeOf, Vpn0, Vpn1, Vpn2, SlotNoOf, User, NotTable;
    var x, c := SlotNoOf(v), CowOf(s);
    PageNotTable(s, x);
    assert Entry(s, x).pfn in Frames(s.nodes);
    var i :| 0 <= i < |s.nodes| && Resident(s.nodes[i]) && s.nodes[i].kva == Entry(s, x).pfn;
    C.Found(c.nodes, c.ptes[v].frame, i);
  }

  lemma AllHomed(s: Vm)
    requires VmInv(s)
    ensures C.Homed(CowOf(s)) && C.Distinct(CowOf(s).nodes)
  {
    hide Tables, Budget, NodeOk, PtesOf, SdOf, MemOf, C.NodeOf;
    var c := CowOf(s);
    forall v | v in c.ptes ensures C.NodeOf(c.nodes, c.ptes[v].frame, 0) < |c.nodes| && c.ptes[v].frame in c.mem && v !in c.sd {
      HasHome(s, v);
    }
  }

  lemma OneSharer(s: Vm, i: nat)
    requires VmInv(s) && Writable(s) && i < |s.nodes|
    ensures C.Counted(CowOf(s).ptes, CowOf(s).nodes[i])
  {
    hide Entry, Vpn0, Vpn1, Vpn2, SlotNoOf, NumberOf;
    var c := CowOf(s);
    var f := s.nodes[i].kva;
    forall v, w | v in C.Sharers(c.ptes, f) && w in C.Sharers(c.ptes, f) ensures v == w && c.ptes[v].write {
      assert Present(s, v) && Present(s, w);
      NumberUnique(v, w);
    }
    assert NodeOk(s, s.nodes[i]);
    if s.nodes[i].status == Swapable {
      var v := NumberOf(s.nodes[i].uva);
      NumberNames(s.nodes[i].uva);
      assert Present(s, v) && v in C.Sharers(c.ptes, f);
    }
  }

  /** A process that has taken no snapshot is a state of the copy-on-write model, with
      nothing shared. */
  lemma CowOfInv(s: Vm)
    requires VmInv(s) && Writable(s)
    ensures C.Inv(CowOf(s)) && forall i :: 0 <= i < |CowOf(s).nodes| ==> CowOf(s).nodes[i].status != C.Shared
  {
    AllHomed(s);
    forall i | 0 <= i < |s.nodes| ensures C.Counted(CowOf(s).ptes, CowOf(s).nodes[i]) {
      OneSharer(s, i);
    }
  }
}
