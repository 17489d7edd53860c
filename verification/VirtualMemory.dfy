/** The address space of one process: three-level page tables in memory frames,
    the list of its page nodes, and the pages swapped out to the SD card. */
module VirtualMemory {
  import opened Bytes

  const ENTRIES := 512
  const PAGE_NUM := 300
  const SWAP_BASE := 2048     // first swap sector; a page takes eight
  const SWAP_SLOTS := 1792    // pages that fit below the file system's sectors

  /** One 64-bit word of memory, as the fields of a page table entry. */
  datatype Pte = Pte(hi: nat, pfn: nat, sd: bool, soft: bool, d: bool, a: bool, g: bool, u: bool,
                     x: bool, w: bool, r: bool, v: bool)

  const ZERO: Pte := Pte(0, 0, false, false, false, false, false, false, false, false, false, false)

  type Frame = f: seq<Pte> | |f| == ENTRIES witness seq(ENTRIES, _ => ZERO)

  function ZeroFrame(): (f: Frame)
    ensures forall i :: 0 <= i < ENTRIES ==> f[i] == ZERO
  {
    seq(ENTRIES, _ => ZERO)
  }

  datatype Status = Swapable | Unswapable | NotInMem

  /** The address of a page table entry: its frame and its index there. */
  datatype Loc = Loc(frame: nat, index: nat)

  datatype Node = Node(status: Status, kva: nat, uva: nat, pte: Option<Loc>)

  /** Frames are numbered by page frame number; `next` is the first one never
      handed out; `ids` counts the page nodes taken; slot k of the SD card is
      the eight sectors from SWAP_BASE + 8 k on. */
  datatype Vm = Vm(mem: seq<Frame>, next: nat, sd: seq<Frame>, ids: nat,
                   root: nat, kernel: set<nat>, nodes: seq<Node>, pagenum: nat, upbound: nat)

  // ---------- Splitting an address ----------

  /** Where an entry stands in the tree of tables. */
  datatype Slot = Top(i: nat) | Mid(i: nat, j: nat) | Leaf(i: nat, j: nat, k: nat)

  function Vpn2(va: nat): nat { va / 0x4000_0000 % ENTRIES }

  function Vpn1(va: nat): nat { va / 0x20_0000 % ENTRIES }

  function Vpn0(va: nat): nat { va / 0x1000 % ENTRIES }

  function PageOf(va: nat): Slot {
    Leaf(Vpn2(va), Vpn1(va), Vpn0(va))
  }

  predicate User(s: Vm, x: Slot) {
    && x.i < ENTRIES && x.i !in s.kernel
    && (x.Top? || (x.j < ENTRIES && (x.Mid? || x.k < ENTRIES)))
  }

  function Index(x: Slot): nat {
    match x
    case Top(i) => i
    case Mid(_, j) => j
    case Leaf(_, _, k) => k
  }

  function Parent(x: Slot): Slot
    requires !x.Top?
  {
    if x.Mid? then Top(x.i) else Mid(x.i, x.j)
  }

  // ---------- Walking the tables ----------

  /** A frame read as a table: a word of it, or zero if there is no such frame. */
  function WordAt(s: Vm, f: nat, k: nat): Pte {
    if f < |s.mem| && k < ENTRIES then s.mem[f][k] else ZERO
  }

  function Below(s: Vm, e: Pte, k: nat): Pte {
    if e.v then WordAt(s, e.pfn, k) else ZERO
  }

  /** The entry at a place of the tree; zero below an entry that is not valid. */
  function Entry(s: Vm, x: Slot): Pte {
    match x
    case Top(i) => WordAt(s, s.root, i)
    case Mid(i, j) => Below(s, WordAt(s, s.root, i), j)
    case Leaf(i, j, k) => Below(s, Below(s, WordAt(s, s.root, i), j), k)
  }

  /** The frame that holds an entry. */
  function TableOf(s: Vm, x: Slot): nat {
    if x.Top? then s.root else Entry(s, Parent(x)).pfn
  }

  predicate Reached(s: Vm, x: Slot) {
    x.Top? || Entry(s, Parent(x)).v
  }

  lemma EntryIsWord(s: Vm, x: Slot)
    ensures Entry(s, x) == if Reached(s, x) then WordAt(s, TableOf(s, x), Index(x)) else ZERO
  {
  }

  // ---------- The tables of a process ----------

  function SlotNo(e: Pte): int { (e.pfn - SWAP_BASE) / 8 }

  ghost predicate InSd(s: Vm, e: Pte) {
    e.pfn >= SWAP_BASE && (e.pfn - SWAP_BASE) % 8 == 0 && SlotNo(e) < |s.sd|
  }

  /** An entry is valid, or, for a page only, in the SD card, or all zero. */
  ghost predicate EntryShape(s: Vm, x: Slot) {
    var e := Entry(s, x);
    && (e.v ==> !e.sd && s.root != e.pfn < s.next)
    && (!e.v ==> e == ZERO || (x.Leaf? && e.sd && InSd(s, e)))
  }

  /** Each table lies in a frame of its own, which no page has; swapped pages lie in
      distinct slots. Pages may share frames. */
  ghost predicate Tree(s: Vm) {
    && s.root < s.next <= |s.mem|
    && (forall x {:trigger Entry(s, x)} :: User(s, x) ==> EntryShape(s, x))
    && (forall x, y {:trigger Entry(s, x), Entry(s, y)} ::
          User(s, x) && User(s, y) && Entry(s, x).v && Entry(s, y).v && Entry(s, x).pfn == Entry(s, y).pfn && !x.Leaf? ==> x == y)
    && (forall x, y {:trigger Entry(s, x), Entry(s, y)} ::
          User(s, x) && User(s, y) && Entry(s, x).sd && Entry(s, y).sd && Entry(s, x).pfn == Entry(s, y).pfn ==> x == y)
  }

  /** No two pages share a frame either. */
  ghost predicate Tables(s: Vm) {
    && Tree(s)
    && (forall x, y {:trigger Entry(s, x), Entry(s, y)} ::
          User(s, x) && User(s, y) && Entry(s, x).v && Entry(s, y).v && Entry(s, x).pfn == Entry(s, y).pfn ==> x == y)
  }

  /** What a user page holds, wherever it is. */
  ghost function Content(s: Vm, x: Slot): Option<Frame> {
    var e := Entry(s, x);
    if e.v then (if e.pfn < |s.mem| then Some(s.mem[e.pfn]) else None)
    else if e.sd then (if 0 <= SlotNo(e) < |s.sd| then Some(s.sd[SlotNo(e)]) else None)
    else None
  }

  // ---------- Changing memory ----------

  ghost function PutFrame(s: Vm, f: nat, b: Frame): Vm
    requires f < |s.mem|
  {
    s.(mem := s.mem[f := b])
  }

  ghost function PutEntry(s: Vm, x: Slot, e: Pte): Vm
    requires TableOf(s, x) < |s.mem| && Index(x) < ENTRIES
  {
    PutFrame(s, TableOf(s, x), s.mem[TableOf(s, x)][Index(x) := e])
  }

  /** Frame f is not the root nor a frame any valid entry above the pages names. */
  ghost predicate NotTable(s: Vm, f: nat) {
    f != s.root && forall x {:trigger Entry(s, x)} :: User(s, x) && !x.Leaf? && Entry(s, x).v ==> Entry(s, x).pfn != f
  }

  lemma PutDataEntry(s: Vm, f: nat, b: Frame, y: Slot)
    requires f < |s.mem| && NotTable(s, f) && User(s, y)
    ensures Entry(PutFrame(s, f, b), y) == Entry(s, y)
  {
    if !y.Top? {
      assert Entry(s, Top(y.i)).v ==> Entry(s, Top(y.i)).pfn != f;
      if y.Leaf? {
        assert Entry(s, Mid(y.i, y.j)).v ==> Entry(s, Mid(y.i, y.j)).pfn != f;
      }
    }
  }

  /** Rewriting the entry of a page changes no other entry. */
  lemma PutLeafEntry(s: Vm, x: Slot, e: Pte, y: Slot)
    requires Tree(s) && x.Leaf? && User(s, x) && Reached(s, x) && User(s, y)
    ensures TableOf(s, x) < |s.mem|
    ensures Entry(PutEntry(s, x, e), y) == if y == x then e else Entry(s, y)
  {
    var p := Parent(x);
    assert User(s, p) && EntryShape(s, p);
    var f := TableOf(s, x);
    assert f != s.root;
    var t := PutEntry(s, x, e);
    assert forall i :: Entry(t, Top(i)) == Entry(s, Top(i));
    if !y.Top? {
      assert User(s, Top(y.i)) && (Entry(s, Top(y.i)).v ==> Entry(s, Top(y.i)).pfn != f);
      assert Entry(t, Mid(y.i, y.j)) == Entry(s, Mid(y.i, y.j));
    }
    if y.Leaf? && Mid(y.i, y.j) != p {
      assert User(s, Mid(y.i, y.j));
      assert Entry(s, Mid(y.i, y.j)).v ==> Entry(s, Mid(y.i, y.j)).pfn != f;
    }
  }

  /** The entry of a page and the contents of a frame rewritten together. */
  ghost function PutBoth(s: Vm, x: Slot, e: Pte, f: nat, b: Frame): Vm
    requires TableOf(s, x) < |s.mem| && Index(x) < ENTRIES && f < |s.mem|
  {
    PutFrame(PutEntry(s, x, e), f, b)
  }

  lemma PutBothEntry(s: Vm, x: Slot, e: Pte, f: nat, b: Frame, y: Slot)
    requires Tree(s) && x.Leaf? && User(s, x) && Reached(s, x) && User(s, y)
    requires f < |s.mem| && NotTable(s, f)
    ensures TableOf(s, x) < |s.mem| && TableOf(s, x) != f
    ensures Entry(PutBoth(s, x, e, f, b), y) == if y == x then e else Entry(s, y)
  {
    hide Entry, EntryShape;
    PutLeafEntry(s, x, e, y);
    var u := PutEntry(s, x, e);
    forall z | User(s, z) ensures Entry(u, z) == if z == x then e else Entry(s, z) {
      PutLeafEntry(s, x, e, z);
    }
    assert User(s, Parent(x));
    PutDataEntry(u, f, b, y);
  }

  /** The frame of a page is no table. */
  lemma PageNotTable(s: Vm, x: Slot)
    requires Tree(s) && x.Leaf? && User(s, x) && Entry(s, x).v
    ensures Entry(s, x).pfn < |s.mem| && NotTable(s, Entry(s, x).pfn)
  {
    hide Entry;
    assert EntryShape(s, x);
  }

  /** The entry of a table, or of a page, in frame f. */
  function TableEntry(f: nat): Pte {
    ZERO.(pfn := f, v := true, u := true)
  }

  function PageEntry(f: nat): Pte {
    ZERO.(pfn := f, v := true, u := true, r := true, w := true, x := true, a := true, d := true)
  }

  /** Frame f is named by no entry. */
  ghost predicate Unnamed(s: Vm, f: nat) {
    f != s.root && forall x {:trigger Entry(s, x)} :: User(s, x) && Entry(s, x).v ==> Entry(s, x).pfn != f
  }

  ghost function LinkTable(s: Vm, x: Slot, f: nat): Vm
    requires f < |s.mem| && TableOf(s, x) < |s.mem| && Index(x) < ENTRIES
  {
    var t := PutFrame(s, f, ZeroFrame());
    PutFrame(t, TableOf(s, x), t.mem[TableOf(s, x)][Index(x) := TableEntry(f)])
  }

  /** The table that gets the entry is not the new one, and no other entry leads to it. */
  lemma LinkingTable(s: Vm, x: Slot, f: nat)
    requires Tree(s) && !x.Leaf? && User(s, x) && Reached(s, x) && Unnamed(s, f)
    ensures TableOf(s, x) < |s.mem| && TableOf(s, x) != f && (x.Mid? ==> TableOf(s, x) != s.root)
    ensures forall z {:trigger Entry(s, z)} :: User(s, z) && !z.Leaf? && Entry(s, z).v ==>
      Entry(s, z).pfn != f && Entry(s, z).pfn != s.root && (Entry(s, z).pfn == TableOf(s, x) ==> x.Mid? && z == Parent(x))
  {
    hide Entry;
    if x.Mid? {
      assert User(s, Parent(x)) && EntryShape(s, Parent(x));
    }
    forall z | User(s, z) && !z.Leaf? && Entry(s, z).v ensures Entry(s, z).pfn != s.root {
      assert EntryShape(s, z);
    }
  }

  /** Linking a cleared frame as a table changes the one entry that links it. */
  lemma {:induction false} LinkTableEntry(s: Vm, x: Slot, f: nat, y: Slot)
    requires Tree(s) && !x.Leaf? && User(s, x) && Reached(s, x) && !Entry(s, x).v
    requires f < |s.mem| && Unnamed(s, f) && User(s, y)
    ensures TableOf(s, x) < |s.mem|
    ensures Entry(LinkTable(s, x, f), y) == if y == x then TableEntry(f) else Entry(s, y)
    decreases if y.Top? then 0 else if y.Mid? then 1 else 2
  {
    hide Entry, Tree, Unnamed;
    LinkingTable(s, x, f);
    assert f != s.root by { NotRoot(s, f); }
    EntryIsWord(s, y);
    EntryIsWord(LinkTable(s, x, f), y);
    if !y.Top? {
      LinkTableEntry(s, x, f, Parent(y));
    }
  }

  lemma NotRoot(s: Vm, f: nat)
    requires Unnamed(s, f)
    ensures f != s.root
  {
  }

  // ---------- The page nodes ----------

  predicate Resident(n: Node) { !n.status.NotInMem? }

  /** The frames the process holds. */
  ghost function Frames(nodes: seq<Node>): set<nat> {
    set i | 0 <= i < |nodes| && Resident(nodes[i]) :: nodes[i].kva
  }

  ghost predicate DistinctFrames(nodes: seq<Node>) {
    forall i, j :: 0 <= i < j < |nodes| && Resident(nodes[i]) && Resident(nodes[j]) ==> nodes[i].kva != nodes[j].kva
  }

  ghost predicate DistinctPages(nodes: seq<Node>) {
    forall i, j :: 0 <= i < j < |nodes| && nodes[i].pte.Some? && nodes[j].pte.Some? ==>
      PageOf(nodes[i].uva) != PageOf(nodes[j].uva)
  }

  /** A node with an entry address stands for a page: in its frame, or in the
      SD card; only such a node may be swapped. */
  ghost predicate NodeOk(s: Vm, n: Node) {
    var x := PageOf(n.uva);
    && (n.pte.None? ==> n.status.Unswapable?)
    && (n.pte.Some? ==>
          && User(s, x) && Reached(s, x) && n.pte == Some(Loc(TableOf(s, x), Index(x)))
          && (if n.status.NotInMem? then Entry(s, x).sd && n.kva == 0 else Entry(s, x).v && Entry(s, x).pfn == n.kva))
  }

  ghost predicate HasNode(nodes: seq<Node>, x: Slot) {
    exists i :: 0 <= i < |nodes| && nodes[i].pte.Some? && PageOf(nodes[i].uva) == x
  }

  /** The list of nodes: resident ones hold distinct frames, each page has one
      node at most and, when in the SD card, one at least. */
  ghost predicate Listed(s: Vm) {
    && (forall i :: 0 <= i < |s.nodes| ==> NodeOk(s, s.nodes[i]))
    && (forall i :: 0 <= i < |s.nodes| && Resident(s.nodes[i]) ==> s.nodes[i].kva < s.next)
    && DistinctFrames(s.nodes) && DistinctPages(s.nodes)
    && s.root in Frames(s.nodes)
    && (forall x {:trigger Entry(s, x)} :: User(s, x) && Entry(s, x).v ==> Entry(s, x).pfn in Frames(s.nodes))
    && (forall x {:trigger Entry(s, x)} :: User(s, x) && Entry(s, x).sd ==> HasNode(s.nodes, x))
  }

  ghost predicate Core(s: Vm) {
    Tables(s) && Listed(s)
  }

  /** The resident pages and tables number exactly pagenum, never above the
      bound, and a page is in the SD card only once the bound was reached. */
  ghost predicate Budget(s: Vm) {
    && |Frames(s.nodes)| == s.pagenum <= s.upbound
    && ((exists i :: 0 <= i < |s.nodes| && !Resident(s.nodes[i])) ==> s.pagenum == s.upbound)
  }

  ghost predicate VmInv(s: Vm) {
    Core(s) && Budget(s)
  }

  ghost predicate SameContent(s: Vm, t: Vm) {
    forall x {:trigger Content(t, x)} :: User(s, x) && x.Leaf? ==> Content(t, x) == Content(s, x)
  }

  // ---------- Swapping out ----------

  /** set_pfn: the attribute bits stay. */
  function SetPfn(e: Pte, pfn: nat): Pte {
    e.(pfn := pfn, hi := 0)
  }

  ghost predicate CanSwapOut(s: Vm, n: nat) {
    n < |s.nodes| && s.nodes[n].status.Swapable? && Core(s)
  }

  function SwappedNode(s: Vm, n: Node): Node {
    n.(status := NotInMem, kva := 0, pte := Some(Loc(TableOf(s, PageOf(n.uva)), Vpn0(n.uva))))
  }

  /** The page of node n goes to the next slot of the SD card, its frame is cleared. */
  ghost function SwapOut(s: Vm, n: nat): (t: Vm)
    requires CanSwapOut(s, n)
  {
    var x := PageOf(s.nodes[n].uva);
    assert NodeOk(s, s.nodes[n]) && EntryShape(s, x) && EntryShape(s, Parent(x));
    var e := Entry(s, x);
    PutBoth(s, x, SetPfn(e.(sd := true, v := false), SWAP_BASE + 8 * |s.sd|), e.pfn, ZeroFrame()).(sd := s.sd + [s.mem[e.pfn]], nodes := s.nodes[n := SwappedNode(s, s.nodes[n])])
  }

  /** What swapping out does to the entries: one page leaves its frame. */
  lemma SwapOutEntry(s: Vm, n: nat, y: Slot)
    requires CanSwapOut(s, n) && User(s, y)
    ensures
      var x := PageOf(s.nodes[n].uva);
      && User(s, x) && Reached(s, x) && Entry(s, x).v && Entry(s, x).pfn == s.nodes[n].kva < s.next
      && Entry(SwapOut(s, n), y) ==
         if y == x then SetPfn(Entry(s, x).(sd := true, v := false), SWAP_BASE + 8 * |s.sd|) else Entry(s, y)
  {
    hide Entry, Vpn0, Vpn1, Vpn2;
    var x := PageOf(s.nodes[n].uva);
    assert NodeOk(s, s.nodes[n]) && EntryShape(s, x);
    var e := Entry(s, x);
    var e' := SetPfn(e.(sd := true, v := false), SWAP_BASE + 8 * |s.sd|);
    PageNotTable(s, x);
    PutBothEntry(s, x, e', e.pfn, ZeroFrame(), y);
    SameEntry(PutBoth(s, x, e', e.pfn, ZeroFrame()), SwapOut(s, n), y);
  }

  /** Entries depend on memory and the root only. */
  lemma SameEntry(s: Vm, t: Vm, x: Slot)
    requires t.mem == s.mem && t.root == s.root
    ensures Entry(t, x) == Entry(s, x)
  {
  }

  // ---------- One entry changing ----------

  /** From s to t the entry at x became e and no other entry changed. */
  ghost predicate EntryChange(s: Vm, t: Vm, x: Slot, e: Pte) {
    && t.root == s.root && t.kernel == s.kernel && s.next <= t.next <= |t.mem| == |s.mem| && s.sd <= t.sd
    && User(s, x) && (x.Leaf? || !Entry(s, x).v)
    && forall y {:trigger Entry(t, y)} :: User(s, y) ==> Entry(t, y) == if y == x then e else Entry(s, y)
  }

  lemma ChangeShape(s: Vm, t: Vm, x: Slot, e: Pte, y: Slot)
    requires Tables(s) && EntryChange(s, t, x, e) && User(s, y) && y != x
    ensures EntryShape(t, y)
  {
    hide Entry;
    assert EntryShape(s, y);
  }

  lemma ChangeTables(s: Vm, t: Vm, x: Slot, e: Pte)
    requires Tables(s) && EntryChange(s, t, x, e) && EntryShape(t, x)
    requires e.v ==> Unnamed(s, e.pfn)
    requires e.sd ==> forall y {:trigger Entry(s, y)} :: User(s, y) && Entry(s, y).sd ==> Entry(s, y).pfn != e.pfn
    ensures Tables(t)
  {
    hide Entry, EntryShape;
    assert Entry(t, x) == e;
    forall y | User(t, y) ensures EntryShape(t, y) {
      if y != x { ChangeShape(s, t, x, e, y); }
    }
  }

  /** A node keeps its meaning when another page's entry changes, or a missing
      table is linked. */
  lemma ChangeNode(s: Vm, t: Vm, x: Slot, e: Pte, n: Node)
    requires EntryChange(s, t, x, e) && NodeOk(s, n)
    requires n.pte.Some? ==> PageOf(n.uva) != x
    ensures NodeOk(t, n)
  {
    hide Entry;
    var y := PageOf(n.uva);
    if n.pte.Some? {
      assert User(s, Parent(y)) && Parent(y) != x;
      assert Entry(t, Parent(y)) == Entry(s, Parent(y));
    }
  }

  lemma SwapOutChange(s: Vm, n: nat)
    requires CanSwapOut(s, n)
    ensures
      var x := PageOf(s.nodes[n].uva);
      EntryChange(s, SwapOut(s, n), x, SetPfn(Entry(s, x).(sd := true, v := false), SWAP_BASE + 8 * |s.sd|))
      && Reached(s, x) && Entry(s, x).v && Entry(s, x).pfn == s.nodes[n].kva < s.next && x.Leaf?
  {
    forall y | User(s, y)
      ensures
        var x := PageOf(s.nodes[n].uva);
        && User(s, x) && Reached(s, x) && Entry(s, x).v && Entry(s, x).pfn == s.nodes[n].kva < s.next
        && Entry(SwapOut(s, n), y) ==
           if y == x then SetPfn(Entry(s, x).(sd := true, v := false), SWAP_BASE + 8 * |s.sd|) else Entry(s, y)
    {
      SwapOutEntry(s, n, y);
    }
    hide Entry;
    assert NodeOk(s, s.nodes[n]);
  }

  /** Only the table and the frame of the page are written. */
  lemma SwapOutMemory(s: Vm, n: nat)
    requires CanSwapOut(s, n)
    ensures
      var x := PageOf(s.nodes[n].uva);
      var t := SwapOut(s, n);
      && |t.mem| == |s.mem| && Entry(s, x).pfn < |s.mem| && t.sd == s.sd + [s.mem[Entry(s, x).pfn]]
      && t.next == s.next && t.ids == s.ids && t.pagenum == s.pagenum && t.upbound == s.upbound
      && t.root == s.root && t.kernel == s.kernel && t.nodes == s.nodes[n := SwappedNode(s, s.nodes[n])]
      && (forall f :: 0 <= f < |s.mem| && f != Entry(s, x).pfn && f != TableOf(s, x) ==> t.mem[f] == s.mem[f])
  {
    hide Entry;
  }

  lemma SwapOutTables(s: Vm, n: nat)
    requires CanSwapOut(s, n)
    ensures Tables(SwapOut(s, n))
  {
    var x := PageOf(s.nodes[n].uva);
    hide Entry, SwapOut;
    var t := SwapOut(s, n);
    var e := SetPfn(Entry(s, x).(sd := true, v := false), SWAP_BASE + 8 * |s.sd|);
    SwapOutChange(s, n);
    SwapOutMemory(s, n);
    forall y | User(s, y) && Entry(s, y).sd ensures Entry(s, y).pfn != e.pfn {
      assert EntryShape(s, y);
    }
    ChangeTables(s, t, x, e);
  }

  // ---------- The list after a swap-out ----------

  lemma SwappedNodeOk(s: Vm, n: nat)
    requires CanSwapOut(s, n)
    ensures NodeOk(SwapOut(s, n), SwappedNode(s, s.nodes[n]))
  {
    var x := PageOf(s.nodes[n].uva);
    SwapOutChange(s, n);
    var t := SwapOut(s, n);
    hide Entry, SwapOut;
    assert User(s, Parent(x)) && Entry(t, Parent(x)) == Entry(s, Parent(x)) && Entry(t, x).sd;
  }

  lemma SwapOutNodes(s: Vm, n: nat, i: nat)
    requires CanSwapOut(s, n) && i < |s.nodes|
    ensures |SwapOut(s, n).nodes| == |s.nodes| && NodeOk(SwapOut(s, n), SwapOut(s, n).nodes[i])
  {
    var x := PageOf(s.nodes[n].uva);
    SwapOutChange(s, n);
    SwappedNodeOk(s, n);
    assert NodeOk(s, s.nodes[n]) && NodeOk(s, s.nodes[i]);
    if i != n {
      var t := SwapOut(s, n);
      assert t.nodes[i] == s.nodes[i];
      hide Entry, SwapOut, NodeOk, Tables;
      assert s.nodes[i].pte.Some? ==> PageOf(s.nodes[i].uva) != x by { assert s.nodes[n].pte.Some?; }
      ChangeNode(s, t, x, Entry(t, x), s.nodes[i]);
    }
  }

  /** Marking one resident node as swapped gives up its frame. */
  lemma FramesSwapped(nodes: seq<Node>, n: nat, m: Node)
    requires n < |nodes| && DistinctFrames(nodes) && Resident(nodes[n]) && !Resident(m)
    ensures Frames(nodes[n := m]) == Frames(nodes) - {nodes[n].kva} && nodes[n].kva in Frames(nodes)
  {
    var ms := nodes[n := m];
    forall f | f in Frames(nodes) - {nodes[n].kva} ensures f in Frames(ms) {
      var i :| 0 <= i < |nodes| && Resident(nodes[i]) && nodes[i].kva == f;
      assert ms[i] == nodes[i];
    }
  }

  lemma HasNodeKept(nodes: seq<Node>, n: nat, m: Node, x: Slot)
    requires n < |nodes| && HasNode(nodes, x) && (nodes[n].pte.Some? ==> m.pte.Some? && PageOf(m.uva) == PageOf(nodes[n].uva))
    ensures HasNode(nodes[n := m], x)
  {
    var i :| 0 <= i < |nodes| && nodes[i].pte.Some? && PageOf(nodes[i].uva) == x;
    assert nodes[n := m][i].pte.Some? && PageOf(nodes[n := m][i].uva) == x;
  }

  lemma SwapOutListed(s: Vm, n: nat)
    requires CanSwapOut(s, n)
    ensures Core(SwapOut(s, n))
    ensures Frames(SwapOut(s, n).nodes) == Frames(s.nodes) - {s.nodes[n].kva} && s.nodes[n].kva in Frames(s.nodes)
    ensures s.nodes[n].kva < s.next
  {
    hide Entry, SwapOut, TableOf, Vpn0, Vpn1, Vpn2;
    var x := PageOf(s.nodes[n].uva);
    var t := SwapOut(s, n);
    var m := SwappedNode(s, s.nodes[n]);
    SwapOutMemory(s, n);
    SwapOutChange(s, n);
    SwapOutTables(s, n);
    forall i | 0 <= i < |t.nodes| ensures NodeOk(t, t.nodes[i]) {
      SwapOutNodes(s, n, i);
    }
    assert NodeOk(s, s.nodes[n]);
    hide NodeOk;
    FramesSwapped(s.nodes, n, m);
    forall y | User(s, y) && Entry(t, y).sd ensures HasNode(t.nodes, y) {
      if y == x {
        assert t.nodes[n].pte.Some? && PageOf(t.nodes[n].uva) == x;
      } else {
        HasNodeKept(s.nodes, n, m, y);
      }
    }
    forall y | User(s, y) && Entry(t, y).v ensures Entry(t, y).pfn in Frames(t.nodes) {
      assert y != x && Entry(s, y).v && Entry(s, y).pfn != Entry(s, x).pfn;
    }
    RootFrame(s, x);
  }

  lemma RootFrame(s: Vm, x: Slot)
    requires Tables(s) && User(s, x) && Entry(s, x).v
    ensures Entry(s, x).pfn != s.root
  {
    assert EntryShape(s, x);
  }

  /** Swapping a page out changes the content of no page. */
  lemma SwapOutContent(s: Vm, n: nat)
    requires CanSwapOut(s, n)
    ensures SameContent(s, SwapOut(s, n))
  {
    var x := PageOf(s.nodes[n].uva);
    SwapOutChange(s, n);
    forall y | User(s, y) && y.Leaf? ensures Content(SwapOut(s, n), y) == Content(s, y) {
      SwapOutPage(s, n, y);
    }
  }

  lemma SwapOutPage(s: Vm, n: nat, y: Slot)
    requires CanSwapOut(s, n) && User(s, y) && y.Leaf?
    ensures Content(SwapOut(s, n), y) == Content(s, y)
  {
    hide Entry, SwapOut, Listed, Vpn0, Vpn1, Vpn2;
    var x := PageOf(s.nodes[n].uva);
    SwapOutChange(s, n);
    SwapOutMemory(s, n);
    var t := SwapOut(s, n);
    assert EntryShape(s, y) && EntryShape(s, Parent(x)) && User(s, Parent(x));
    if y != x && Entry(s, y).v {
      assert Entry(s, y).pfn != Entry(s, x).pfn && Entry(s, y).pfn != TableOf(s, x);
    }
  }

  // ---------- Taking a frame ----------

  /** The first node of the list that may be swapped, from position i on. */
  function Victim(nodes: seq<Node>, i: nat): (r: Option<nat>)
    requires i <= |nodes|
    ensures r.Some? ==> i <= r.value < |nodes| && nodes[r.value].status.Swapable?
    ensures r.Some? ==> forall j :: i <= j < r.value ==> !nodes[j].status.Swapable?
    ensures r.None? ==> forall j :: i <= j < |nodes| ==> !nodes[j].status.Swapable?
    decreases |nodes| - i
  {
    if i == |nodes| then None else if nodes[i].status.Swapable? then Some(i) else Victim(nodes, i + 1)
  }

  /** A frame for a new node: a victim's if the bound is reached, else a new
      one. None is the kernel's stop when nothing may be swapped. */
  ghost function Take(s: Vm): Option<(Vm, nat)>
    requires Core(s)
  {
    if s.pagenum == s.upbound then
      var n := Victim(s.nodes, 0);
      if n.None? then None else Some((SwapOut(s, n.value), s.nodes[n.value].kva))
    else Some((s.(next := s.next + 1, pagenum := s.pagenum + 1), s.next))
  }

  /** Nothing but the process's own frames and new ones changed; what the SD
      card held is still there. */
  ghost predicate Confined(s: Vm, t: Vm) {
    && s.next <= t.next && |t.mem| == |s.mem| && s.sd <= t.sd
    && (forall f :: 0 <= f < s.next && f < |s.mem| && f !in Frames(s.nodes) ==> t.mem[f] == s.mem[f])
    && (forall f :: f in Frames(t.nodes) ==> f in Frames(s.nodes) || s.next <= f < t.next)
  }

  /** The entry is as it was, or its page went from its frame to the SD card. */
  ghost predicate StaysOrSwaps(s: Vm, t: Vm, y: Slot) {
    Entry(t, y) == Entry(s, y) || (y.Leaf? && Entry(s, y).v && Entry(t, y).sd && !Entry(t, y).v)
  }

  /** A frame taken and not yet given to a node: everything else is in order. */
  ghost predicate Holding(s: Vm, t: Vm, f: nat) {
    && Core(t) && f !in Frames(t.nodes) && f < t.next && |Frames(t.nodes)| == t.pagenum - 1 && t.pagenum <= t.upbound
    && ((exists i :: 0 <= i < |t.nodes| && !Resident(t.nodes[i])) ==> t.pagenum == t.upbound)
    && t.root == s.root && t.kernel == s.kernel && t.upbound == s.upbound && t.ids == s.ids
    && SameContent(s, t) && Confined(s, t) && (f in Frames(s.nodes) || s.next <= f)
    && (forall y {:trigger Entry(t, y)} :: User(s, y) ==> StaysOrSwaps(s, t, y))
  }

  lemma TakeSwap(s: Vm, n: nat)
    requires VmInv(s) && CanSwapOut(s, n) && s.pagenum == s.upbound
    ensures Holding(s, SwapOut(s, n), s.nodes[n].kva)
  {
    hide Entry, SwapOut, NodeOk, Frames, EntryShape;
    SwapOutListed(s, n);
    SwapOutContent(s, n);
    SwapOutMemory(s, n);
    SwapOutChange(s, n);
    TableFrame(s, PageOf(s.nodes[n].uva));
    forall y | User(s, y) ensures StaysOrSwaps(s, SwapOut(s, n), y) {}
  }

  /** The tables of a process lie in its frames. */
  lemma TableFrame(s: Vm, x: Slot)
    requires Core(s) && User(s, x) && Reached(s, x)
    ensures TableOf(s, x) in Frames(s.nodes) && TableOf(s, x) < s.next <= |s.mem|
  {
    hide Frames, HasNode, NodeOk;
    if !x.Top? {
      assert User(s, Parent(x)) && EntryShape(s, Parent(x));
    }
  }

  lemma TakeNew(s: Vm)
    requires VmInv(s) && s.pagenum != s.upbound && s.next < |s.mem|
    ensures Holding(s, s.(next := s.next + 1, pagenum := s.pagenum + 1), s.next)
  {
    hide Entry, NodeOk, HasNode;
    var t := s.(next := s.next + 1, pagenum := s.pagenum + 1);
    forall y ensures Entry(t, y) == Entry(s, y) {
      SameEntry(s, t, y);
    }
    NewNodes(s, t);
    forall y | User(s, y) ensures StaysOrSwaps(s, t, y) {}
    forall y | User(t, y) ensures EntryShape(t, y) {
      assert EntryShape(s, y);
    }
    assert SameContent(s, t);
  }

  lemma NewNodes(s: Vm, t: Vm)
    requires Listed(s) && t.mem == s.mem && t.root == s.root && t.kernel == s.kernel && t.nodes == s.nodes
    ensures forall i :: 0 <= i < |t.nodes| ==> NodeOk(t, t.nodes[i])
  {
    forall y ensures Entry(t, y) == Entry(s, y) {
      SameEntry(s, t, y);
    }
    hide Entry;
    forall i | 0 <= i < |t.nodes| ensures NodeOk(t, t.nodes[i]) {
      assert NodeOk(s, s.nodes[i]);
    }
  }

  /** Taking a frame, by swapping or not, changes the content of no page. */
  lemma TakeHolds(s: Vm)
    requires VmInv(s) && s.next < |s.mem| && Take(s).Some?
    ensures Holding(s, Take(s).value.0, Take(s).value.1)
  {
    hide Holding, Entry, SwapOut;
    if s.pagenum == s.upbound {
      TakeSwap(s, Victim(s.nodes, 0).value);
    } else {
      TakeNew(s);
    }
  }

  // ---------- A new table or page ----------

  lemma FramesAdded(nodes: seq<Node>, m: Node)
    requires Resident(m)
    ensures Frames(nodes + [m]) == Frames(nodes) + {m.kva}
  {
    var ms := nodes + [m];
    assert ms[|nodes|] == m;
    forall f | f in Frames(nodes) ensures f in Frames(ms) {
      var i :| 0 <= i < |nodes| && Resident(nodes[i]) && nodes[i].kva == f;
      assert ms[i] == nodes[i];
    }
  }

  lemma NotInFrames(nodes: seq<Node>, f: nat, i: nat)
    requires f !in Frames(nodes) && i < |nodes| && Resident(nodes[i])
    ensures nodes[i].kva != f
  {
  }

  lemma HasNodeAdded(nodes: seq<Node>, m: Node, x: Slot)
    requires HasNode(nodes, x)
    ensures HasNode(nodes + [m], x)
  {
    var i :| 0 <= i < |nodes| && nodes[i].pte.Some? && PageOf(nodes[i].uva) == x;
    assert (nodes + [m])[i].pte.Some? && PageOf((nodes + [m])[i].uva) == x;
  }

  /** A missing entry filled with a frame held aside, and a node for it. */
  ghost predicate Added(s: Vm, t: Vm, x: Slot, e: Pte, m: Node) {
    && EntryChange(s, t, x, e) && Entry(s, x) == ZERO && e.v && !e.sd && e.pfn == m.kva < s.next
    && t.nodes == s.nodes + [m] && m.status != NotInMem && NodeOk(t, m)
    && (m.pte.Some? <==> x.Leaf?) && (m.pte.Some? ==> PageOf(m.uva) == x)
  }

  lemma UnnamedFrame(s: Vm, f: nat)
    requires Listed(s) && f !in Frames(s.nodes)
    ensures Unnamed(s, f)
  {
    hide Frames, Entry;
  }

  lemma AddedNodes(s: Vm, t: Vm, x: Slot, e: Pte, m: Node, i: nat)
    requires Core(s) && Added(s, t, x, e, m) && i < |s.nodes|
    ensures NodeOk(t, s.nodes[i]) && (s.nodes[i].pte.Some? ==> PageOf(s.nodes[i].uva) != x)
  {
    hide Entry;
    assert NodeOk(s, s.nodes[i]);
    ChangeNode(s, t, x, e, s.nodes[i]);
  }

  lemma AddedListed(s: Vm, t: Vm, x: Slot, e: Pte, m: Node)
    requires Core(s) && Added(s, t, x, e, m) && m.kva !in Frames(s.nodes)
    ensures Core(t) && Frames(t.nodes) == Frames(s.nodes) + {m.kva}
  {
    hide Entry, NodeOk, Vpn0, Vpn1, Vpn2, HasNode;
    UnnamedFrame(s, m.kva);
    assert Entry(t, x) == e;
    ChangeTables(s, t, x, e);
    FramesAdded(s.nodes, m);
    forall i | 0 <= i < |s.nodes| ensures t.nodes[i] == s.nodes[i] && NodeOk(t, t.nodes[i]) {
      AddedNodes(s, t, x, e, m, i);
    }
    forall i | 0 <= i < |s.nodes| && s.nodes[i].pte.Some? ensures PageOf(s.nodes[i].uva) != x {
      AddedNodes(s, t, x, e, m, i);
    }
    forall i | 0 <= i < |s.nodes| && Resident(s.nodes[i]) ensures s.nodes[i].kva != m.kva {
      NotInFrames(s.nodes, m.kva, i);
    }
    forall y | User(s, y) && Entry(t, y).sd ensures HasNode(t.nodes, y) {
      assert y != x;
      HasNodeAdded(s.nodes, m, y);
    }
    hide Frames;
    forall y | User(s, y) && Entry(t, y).v ensures Entry(t, y).pfn in Frames(t.nodes) {}
  }

  ghost function AddTable(s: Vm, x: Slot, f: nat): Vm
    requires f < |s.mem| && TableOf(s, x) < |s.mem| && Index(x) < ENTRIES
  {
    LinkTable(s, x, f).(nodes := s.nodes + [Node(Unswapable, f, 0, None)], ids := s.ids + 1)
  }

  ghost predicate CanAdd(s: Vm, x: Slot, f: nat) {
    Core(s) && f !in Frames(s.nodes) && f < s.next && User(s, x) && Reached(s, x) && Entry(s, x) == ZERO
  }

  lemma AddTableAdded(s: Vm, x: Slot, f: nat)
    requires CanAdd(s, x, f) && !x.Leaf?
    ensures TableOf(s, x) < |s.mem| && TableOf(s, x) in Frames(s.nodes)
    ensures Added(s, AddTable(s, x, f), x, TableEntry(f), Node(Unswapable, f, 0, None))
    ensures
      var t := AddTable(s, x, f);
      && t.ids == s.ids + 1 && t.next == s.next && t.sd == s.sd && t.pagenum == s.pagenum && t.upbound == s.upbound
      && (forall g :: 0 <= g < |s.mem| && g != f && g != TableOf(s, x) ==> t.mem[g] == s.mem[g])
  {
    hide Entry, Frames, LinkTable;
    TableFrame(s, x);
    UnnamedFrame(s, f);
    forall y | User(s, y) ensures Entry(AddTable(s, x, f), y) == if y == x then TableEntry(f) else Entry(s, y) {
      LinkTableEntry(s, x, f, y);
      SameEntry(LinkTable(s, x, f), AddTable(s, x, f), y);
    }
    LinkTableMemory(s, x, f);
  }

  lemma LinkTableMemory(s: Vm, x: Slot, f: nat)
    requires f < |s.mem| && TableOf(s, x) < |s.mem| && Index(x) < ENTRIES
    ensures
      var t := LinkTable(s, x, f);
      && |t.mem| == |s.mem| && t == s.(mem := t.mem)
      && (forall g :: 0 <= g < |s.mem| && g != f && g != TableOf(s, x) ==> t.mem[g] == s.mem[g])
  {
  }

  lemma DataFrame(s: Vm, x: Slot, y: Slot)
    requires Tables(s) && User(s, x) && Reached(s, x) && User(s, y) && y.Leaf? && Entry(s, y).v
    ensures Entry(s, y).pfn != TableOf(s, x) && Entry(s, y).pfn < |s.mem|
  {
    hide Entry;
    assert EntryShape(s, y);
    if !x.Top? {
      assert User(s, Parent(x));
    }
  }

  /** A new table changes the content of no page. */
  lemma AddTableContent(s: Vm, x: Slot, f: nat)
    requires CanAdd(s, x, f) && !x.Leaf?
    ensures TableOf(s, x) < |s.mem|
    ensures SameContent(s, AddTable(s, x, f))
  {
    hide Entry, AddTable, EntryShape, Frames;
    AddTableAdded(s, x, f);
    UnnamedFrame(s, f);
    var t := AddTable(s, x, f);
    forall y | User(s, y) && y.Leaf? ensures Content(t, y) == Content(s, y) {
      assert Entry(t, y) == Entry(s, y);
      if Entry(s, y).v { DataFrame(s, x, y); }
    }
  }

  ghost function AddPage(s: Vm, va: nat, f: nat, status: Status): Vm
    requires TableOf(s, PageOf(va)) < |s.mem|
  {
    var x := PageOf(va);
    PutEntry(s, x, PageEntry(f))
      .(nodes := s.nodes + [Node(status, f, va, Some(Loc(TableOf(s, x), Vpn0(va))))], ids := s.ids + 1)
  }

  lemma AddPageAdded(s: Vm, va: nat, f: nat, status: Status)
    requires CanAdd(s, PageOf(va), f) && status != NotInMem
    ensures TableOf(s, PageOf(va)) < |s.mem| && TableOf(s, PageOf(va)) in Frames(s.nodes)
    ensures
      var x := PageOf(va);
      var t := AddPage(s, va, f, status);
      && Added(s, t, x, PageEntry(f), Node(status, f, va, Some(Loc(TableOf(s, x), Vpn0(va)))))
      && t.ids == s.ids + 1 && t.next == s.next && t.sd == s.sd && t.pagenum == s.pagenum && t.upbound == s.upbound
      && (forall g :: 0 <= g < |s.mem| && g != TableOf(s, x) ==> t.mem[g] == s.mem[g])
  {
    hide Entry, Frames, Vpn1, Vpn2;
    var x := PageOf(va);
    TableFrame(s, x);
    assert TableOf(s, x) < |s.mem|;
    var t := AddPage(s, va, f, status);
    forall y | User(s, y) ensures Entry(t, y) == if y == x then PageEntry(f) else Entry(s, y) {
      PutLeafEntry(s, x, PageEntry(f), y);
      SameEntry(PutEntry(s, x, PageEntry(f)), t, y);
    }
    assert User(s, Parent(x)) && Entry(t, Parent(x)) == Entry(s, Parent(x));
  }

  /** A new page holds what its frame held; no other page changes. */
  lemma AddPageContent(s: Vm, va: nat, f: nat, status: Status)
    requires CanAdd(s, PageOf(va), f) && status != NotInMem
    ensures TableOf(s, PageOf(va)) < |s.mem| && f < |s.mem|
    ensures Content(s, PageOf(va)) == None && Content(AddPage(s, va, f, status), PageOf(va)) == Some(s.mem[f])
    ensures forall y {:trigger Content(s, y)} :: User(s, y) && y.Leaf? && y != PageOf(va) ==> Content(AddPage(s, va, f, status), y) == Content(s, y)
  {
    hide Entry, AddPage, EntryShape, Frames, Vpn0, Vpn1, Vpn2;
    AddPageAdded(s, va, f, status);
    UnnamedFrame(s, f);
    var x := PageOf(va);
    var t := AddPage(s, va, f, status);
    assert Entry(t, x) == PageEntry(f);
    forall y | User(s, y) && y.Leaf? && y != x ensures Content(t, y) == Content(s, y) {
      assert Entry(t, y) == Entry(s, y);
      if Entry(s, y).v { DataFrame(s, x, y); }
    }
  }

  // ---------- Swapping in ----------

  /** The first node of the list with this entry address, from position i on. */
  function FindNode(nodes: seq<Node>, l: Loc, i: nat): (r: Option<nat>)
    requires i <= |nodes|
    ensures r.Some? ==> i <= r.value < |nodes| && nodes[r.value].pte == Some(l)
    ensures r.None? ==> forall j :: i <= j < |nodes| ==> nodes[j].pte != Some(l)
    decreases |nodes| - i
  {
    if i == |nodes| then None else if nodes[i].pte == Some(l) then Some(i) else FindNode(nodes, l, i + 1)
  }

  function LocOf(s: Vm, x: Slot): Loc {
    Loc(TableOf(s, x), Index(x))
  }

  lemma SameLoc(s: Vm, x: Slot, y: Slot)
    requires Tables(s) && x.Leaf? && y.Leaf? && User(s, x) && User(s, y) && Reached(s, x) && Reached(s, y)
    requires LocOf(s, x) == LocOf(s, y)
    ensures x == y
  {
    hide Entry;
    assert User(s, Parent(x)) && User(s, Parent(y));
  }

  /** A page in the SD card has exactly one node, and that node is not resident. */
  lemma SwappedPageNode(s: Vm, x: Slot)
    requires Core(s) && User(s, x) && x.Leaf? && Reached(s, x) && Entry(s, x).sd
    ensures
      var n := FindNode(s.nodes, LocOf(s, x), 0);
      n.Some? && s.nodes[n.value].status == NotInMem && s.nodes[n.value].kva == 0 && PageOf(s.nodes[n.value].uva) == x
  {
    hide Entry, Vpn0, Vpn1, Vpn2, Frames;
    assert EntryShape(s, x) && HasNode(s.nodes, x);
    var i :| 0 <= i < |s.nodes| && s.nodes[i].pte.Some? && PageOf(s.nodes[i].uva) == x;
    assert NodeOk(s, s.nodes[i]);
    var n := FindNode(s.nodes, LocOf(s, x), 0).value;
    assert NodeOk(s, s.nodes[n]);
    SameLoc(s, x, PageOf(s.nodes[n].uva));
  }

  ghost predicate CanSwapIn(s: Vm, va: nat, f: nat) {
    var x := PageOf(va);
    && Core(s) && f !in Frames(s.nodes) && f < s.next
    && User(s, x) && Reached(s, x) && Entry(s, x).sd && FindNode(s.nodes, LocOf(s, x), 0).Some?
  }

  /** The page of va comes back from its slot into frame f. */
  ghost function SwapIn(s: Vm, va: nat, f: nat): (t: Vm)
    requires CanSwapIn(s, va, f)
  {
    var x := PageOf(va);
    TableFrame(s, x);
    assert EntryShape(s, x);
    var e := Entry(s, x);
    var n := FindNode(s.nodes, LocOf(s, x), 0).value;
    PutBoth(s, x, SetPfn(e.(sd := false, v := true), f), f, s.sd[SlotNo(e)])
      .(nodes := s.nodes[n := s.nodes[n].(status := Swapable, uva := va, kva := f)])
  }

  lemma SwapInMemory(s: Vm, va: nat, f: nat)
    requires CanSwapIn(s, va, f)
    ensures
      var x := PageOf(va);
      var t := SwapIn(s, va, f);
      var n := FindNode(s.nodes, LocOf(s, x), 0).value;
      && TableOf(s, x) in Frames(s.nodes) && f < |s.mem| && 0 <= SlotNo(Entry(s, x)) < |s.sd| && !Entry(s, x).v
      && t == s.(mem := t.mem, nodes := t.nodes) && |t.mem| == |s.mem| && t.mem[f] == s.sd[SlotNo(Entry(s, x))]
      && t.nodes == s.nodes[n := s.nodes[n].(status := Swapable, uva := va, kva := f)]
      && (forall g :: 0 <= g < |s.mem| && g != f && g != TableOf(s, x) ==> t.mem[g] == s.mem[g])
  {
    hide Entry, Frames;
    TableFrame(s, PageOf(va));
    assert EntryShape(s, PageOf(va));
  }

  lemma SwapInEntry(s: Vm, va: nat, f: nat, y: Slot)
    requires CanSwapIn(s, va, f) && User(s, y)
    ensures
      var x := PageOf(va);
      Entry(SwapIn(s, va, f), y) == if y == x then SetPfn(Entry(s, x).(sd := false, v := true), f) else Entry(s, y)
  {
    hide Entry, Frames, Vpn0, Vpn1, Vpn2;
    var x := PageOf(va);
    TableFrame(s, x);
    UnnamedFrame(s, f);
    assert EntryShape(s, x);
    var e' := SetPfn(Entry(s, x).(sd := false, v := true), f);
    var b := s.sd[SlotNo(Entry(s, x))];
    PutBothEntry(s, x, e', f, b, y);
    SameEntry(PutBoth(s, x, e', f, b), SwapIn(s, va, f), y);
  }

  lemma SwapInChange(s: Vm, va: nat, f: nat)
    requires CanSwapIn(s, va, f)
    ensures EntryChange(s, SwapIn(s, va, f), PageOf(va), SetPfn(Entry(s, PageOf(va)).(sd := false, v := true), f))
  {
    hide Entry, Frames, SwapIn, Vpn0, Vpn1, Vpn2;
    SwapInMemory(s, va, f);
    forall y | User(s, y)
      ensures Entry(SwapIn(s, va, f), y) ==
              if y == PageOf(va) then SetPfn(Entry(s, PageOf(va)).(sd := false, v := true), f) else Entry(s, y)
    {
      SwapInEntry(s, va, f, y);
    }
  }

  lemma FramesBack(nodes: seq<Node>, n: nat, m: Node)
    requires n < |nodes| && !Resident(nodes[n]) && Resident(m)
    ensures Frames(nodes[n := m]) == Frames(nodes) + {m.kva}
  {
    var ms := nodes[n := m];
    assert ms[n] == m;
    forall f | f in Frames(nodes) ensures f in Frames(ms) {
      var i :| 0 <= i < |nodes| && Resident(nodes[i]) && nodes[i].kva == f;
      assert ms[i] == nodes[i];
    }
  }

  lemma SwapInNodes(s: Vm, va: nat, f: nat, i: nat)
    requires CanSwapIn(s, va, f) && i < |s.nodes|
    ensures |SwapIn(s, va, f).nodes| == |s.nodes| && NodeOk(SwapIn(s, va, f), SwapIn(s, va, f).nodes[i])
    ensures SwapIn(s, va, f).nodes[i].pte == s.nodes[i].pte
    ensures s.nodes[i].pte.Some? ==> PageOf(SwapIn(s, va, f).nodes[i].uva) == PageOf(s.nodes[i].uva)
  {
    hide Entry, Frames, SwapIn, Vpn0, Vpn1, Vpn2;
    var x := PageOf(va);
    var t := SwapIn(s, va, f);
    SwapInMemory(s, va, f);
    SwapInChange(s, va, f);
    SwappedPageNode(s, x);
    assert NodeOk(s, s.nodes[i]);
    var n := FindNode(s.nodes, LocOf(s, x), 0).value;
    if i == n {
      assert User(s, Parent(x)) && Entry(t, Parent(x)) == Entry(s, Parent(x));
    } else {
      ChangeNode(s, t, x, Entry(t, x), s.nodes[i]);
    }
  }

  lemma SwapInTables(s: Vm, va: nat, f: nat)
    requires CanSwapIn(s, va, f)
    ensures Tables(SwapIn(s, va, f))
  {
    hide Entry, Frames, SwapIn, Vpn0, Vpn1, Vpn2, NodeOk, HasNode;
    SwapInMemory(s, va, f);
    SwapInChange(s, va, f);
    UnnamedFrame(s, f);
    ChangeTables(s, SwapIn(s, va, f), PageOf(va), SetPfn(Entry(s, PageOf(va)).(sd := false, v := true), f));
  }

  lemma SwapInCore(s: Vm, va: nat, f: nat)
    requires CanSwapIn(s, va, f)
    ensures Core(SwapIn(s, va, f)) && Frames(SwapIn(s, va, f).nodes) == Frames(s.nodes) + {f}
  {
    hide Entry, SwapIn, Vpn0, Vpn1, Vpn2, NodeOk, HasNode, Tables;
    var x := PageOf(va);
    var t := SwapIn(s, va, f);
    SwapInMemory(s, va, f);
    SwapInChange(s, va, f);
    SwapInTables(s, va, f);
    SwappedPageNode(s, x);
    var n := FindNode(s.nodes, LocOf(s, x), 0).value;
    FramesBack(s.nodes, n, t.nodes[n]);
    forall i | 0 <= i < |s.nodes|
      ensures NodeOk(t, t.nodes[i]) && t.nodes[i].pte == s.nodes[i].pte
      ensures s.nodes[i].pte.Some? ==> PageOf(t.nodes[i].uva) == PageOf(s.nodes[i].uva)
    {
      SwapInNodes(s, va, f, i);
    }
    forall i | 0 <= i < |s.nodes| && Resident(s.nodes[i]) ensures s.nodes[i].kva != f {
      NotInFrames(s.nodes, f, i);
    }
    hide Frames;
    forall y | User(s, y) && Entry(t, y).sd ensures HasNode(t.nodes, y) {
      assert y != x;
      HasNodeKept(s.nodes, n, t.nodes[n], y);
    }
    forall y | User(s, y) && Entry(t, y).v ensures Entry(t, y).pfn in Frames(t.nodes) {}
  }

  /** Swapping a page in changes the content of no page. */
  lemma SwapInContent(s: Vm, va: nat, f: nat)
    requires CanSwapIn(s, va, f)
    ensures SameContent(s, SwapIn(s, va, f))
  {
    hide Entry, SwapIn, Vpn0, Vpn1, Vpn2, Frames;
    var x := PageOf(va);
    var t := SwapIn(s, va, f);
    SwapInMemory(s, va, f);
    SwapInChange(s, va, f);
    UnnamedFrame(s, f);
    forall y | User(s, y) && y.Leaf? ensures Content(t, y) == Content(s, y) {
      if y != x {
        assert Entry(t, y) == Entry(s, y);
        if Entry(s, y).v { DataFrame(s, x, y); }
      } else {
        assert Entry(t, x).v && Entry(t, x).pfn == f;
      }
    }
  }

  // ---------- What a mapping step keeps ----------

  /** From s to t no page changed its content, no table moved, no page appeared,
      and only the process's own frames and new ones were touched. */
  ghost predicate Kept(s: Vm, t: Vm) {
    && VmInv(t) && t.root == s.root && t.kernel == s.kernel && t.upbound == s.upbound
    && SameContent(s, t) && Confined(s, t)
    && (forall y {:trigger Entry(t, y)} :: User(s, y) && (y.Leaf? || Entry(s, y).v) ==> StaysOrSwaps(s, t, y))
  }

  lemma KeptReflexive(s: Vm)
    requires VmInv(s)
    ensures Kept(s, s)
  {
    hide Entry, Frames;
    forall y | User(s, y) ensures StaysOrSwaps(s, s, y) {}
  }

  lemma KeptTransitive(s: Vm, t: Vm, u: Vm)
    requires Tables(s) && Kept(s, t) && Kept(t, u)
    ensures Kept(s, u)
  {
    hide Entry, Frames, VmInv, Content;
    forall y | User(s, y) && y.Leaf? ensures Content(u, y) == Content(s, y) {
      assert Content(t, y) == Content(s, y);
    }
    forall y | User(s, y) && (y.Leaf? || Entry(s, y).v) ensures StaysOrSwaps(s, u, y) {
      assert StaysOrSwaps(s, t, y) && StaysOrSwaps(t, u, y);
    }
  }

  /** A frame held aside, given to a new node, restores the balance. */
  lemma AddedBudget(s: Vm, h: Vm, f: nat, t: Vm, x: Slot, e: Pte, m: Node)
    requires Holding(s, h, f) && Added(h, t, x, e, m) && m.kva == f
    requires t.pagenum == h.pagenum && t.upbound == h.upbound
    ensures VmInv(t) && Frames(t.nodes) == Frames(h.nodes) + {f}
  {
    hide Entry, Frames, NodeOk, SameContent, Confined, EntryChange;
    AddedListed(h, t, x, e, m);
    if i :| 0 <= i < |t.nodes| && !Resident(t.nodes[i]) {
      assert i < |h.nodes| && !Resident(h.nodes[i]);
    }
  }

  /** What was written between holding a frame and giving it away is the frame
      itself and a table of the process. */
  lemma AddedConfined(s: Vm, h: Vm, f: nat, t: Vm, g: nat)
    requires Confined(s, h) && (f in Frames(s.nodes) || s.next <= f) && f < h.next && g in Frames(h.nodes)
    requires t.next == h.next && |t.mem| == |h.mem| && t.sd == h.sd
    requires forall k :: 0 <= k < |h.mem| && k != f && k != g ==> t.mem[k] == h.mem[k]
    requires Frames(t.nodes) == Frames(h.nodes) + {f}
    ensures Confined(s, t)
  {
    hide Frames;
  }

  /** A missing entry is still missing, and reachable, once a frame is taken. */
  lemma TakenSlot(s: Vm, x: Slot)
    requires VmInv(s) && s.next < |s.mem| && Take(s).Some? && User(s, x) && Reached(s, x) && Entry(s, x) == ZERO
    ensures CanAdd(Take(s).value.0, x, Take(s).value.1)
  {
    hide Entry, Take, Frames, Listed, Confined, SameContent;
    TakeHolds(s);
    if !x.Top? {
      assert User(s, Parent(x));
    }
  }

  lemma TakeCounts(s: Vm)
    requires Core(s) && Take(s).Some?
    ensures var t := Take(s).value.0; t.next <= s.next + 1 && t.ids == s.ids && |t.sd| <= |s.sd| + 1
  {
    hide Entry, SwapOut, Tables;
    if s.pagenum == s.upbound { SwapOutMemory(s, Victim(s.nodes, 0).value); }
  }

  // ---------- Mapping a page ----------

  /** What the caller must leave room for: k nodes, frames and slots. */
  ghost predicate Roomy(s: Vm, k: nat) {
    s.next + k <= |s.mem| && s.ids + k <= PAGE_NUM && |s.sd| + k <= SWAP_SLOTS
  }

  lemma MissingTable(s: Vm, x: Slot)
    requires Tables(s) && User(s, x) && !x.Leaf? && !Entry(s, x).v
    ensures Entry(s, x) == ZERO
  {
    assert EntryShape(s, x);
  }

  /** The state with a table for x; None is the kernel's stop. */
  ghost function NeedTable(s: Vm, x: Slot): Option<Vm>
    requires VmInv(s) && s.next < |s.mem| && User(s, x) && Reached(s, x) && !x.Leaf?
  {
    if Entry(s, x).v then Some(s) else
    var r := Take(s);
    if r.None? then None else
    MissingTable(s, x);
    TakenSlot(s, x);
    AddTableAdded(r.value.0, x, r.value.1);
    Some(AddTable(r.value.0, x, r.value.1))
  }

  lemma NeedTableKeeps(s: Vm, x: Slot)
    requires VmInv(s) && s.next < |s.mem| && User(s, x) && Reached(s, x) && !x.Leaf? && NeedTable(s, x).Some?
    ensures
      var t := NeedTable(s, x).value;
      && Kept(s, t) && Entry(t, x).v && t.next <= s.next + 1 && t.ids <= s.ids + 1 && |t.sd| <= |s.sd| + 1
  {
    hide Entry, Take, AddTable, Frames, Holding, Content;
    var t := NeedTable(s, x).value;
    if Entry(s, x).v {
      KeptReflexive(s);
    } else {
      var (h, f) := Take(s).value;
      MissingTable(s, x);
      TakeHolds(s);
      TakenSlot(s, x);
      TakeCounts(s);
      LinkedKeeps(s, h, f, x);
    }
  }

  lemma LinkedKeeps(s: Vm, h: Vm, f: nat, x: Slot)
    requires VmInv(s) && Holding(s, h, f) && CanAdd(h, x, f) && !x.Leaf? && !Entry(s, x).v && User(s, x)
    ensures TableOf(h, x) < |h.mem|
    ensures Kept(s, AddTable(h, x, f)) && Entry(AddTable(h, x, f), x).v
    ensures AddTable(h, x, f).next == h.next && AddTable(h, x, f).ids == h.ids + 1 && AddTable(h, x, f).sd == h.sd
  {
    hide Entry, AddTable, Frames, Content, Core;
    AddTableAdded(h, x, f);
    var t := AddTable(h, x, f);
    var m := Node(Unswapable, f, 0, None);
    AddedBudget(s, h, f, t, x, TableEntry(f), m);
    AddTableContent(h, x, f);
    AddedConfined(s, h, f, t, TableOf(h, x));
    forall y | User(s, y) && y.Leaf? ensures Content(t, y) == Content(s, y) {
      assert Content(h, y) == Content(s, y);
    }
    assert Entry(t, x) == TableEntry(f);
    forall y | User(s, y) && (y.Leaf? || Entry(s, y).v) ensures StaysOrSwaps(s, t, y) {
      assert StaysOrSwaps(s, h, y);
    }
  }

  /** A page given frame f: its content is what the frame held; every other page
      keeps its content, in memory or in the SD card. */
  ghost predicate Mapped(s: Vm, t: Vm, x: Slot, f: nat) {
    && VmInv(t) && t.root == s.root && t.kernel == s.kernel && t.upbound == s.upbound && Confined(s, t)
    && f < |t.mem| && Entry(t, x).v && Entry(t, x).pfn == f
    && Content(t, x) == Some(t.mem[f]) && (Content(s, x).Some? ==> Content(t, x) == Content(s, x))
    && (forall y {:trigger Content(t, y)} :: User(s, y) && y.Leaf? && y != x ==> Content(t, y) == Content(s, y))
    && (forall y {:trigger Entry(t, y)} :: User(s, y) && y.Leaf? && y != x ==> StaysOrSwaps(s, t, y))
  }

  lemma PlacedMapped(s: Vm, h: Vm, f: nat, va: nat, status: Status)
    requires VmInv(s) && Holding(s, h, f) && CanAdd(h, PageOf(va), f) && status != NotInMem
    requires Entry(s, PageOf(va)) == ZERO && User(s, PageOf(va))
    ensures TableOf(h, PageOf(va)) < |h.mem|
    ensures Mapped(s, AddPage(h, va, f, status), PageOf(va), f)
  {
    hide Entry, AddPage, Frames, Core, Vpn0, Vpn1, Vpn2;
    var x := PageOf(va);
    AddPageAdded(h, va, f, status);
    var t := AddPage(h, va, f, status);
    AddedBudget(s, h, f, t, x, PageEntry(f), Node(status, f, va, Some(Loc(TableOf(h, x), Vpn0(va)))));
    AddPageContent(h, va, f, status);
    AddedConfined(s, h, f, t, TableOf(h, x));
    forall y | User(s, y) && y.Leaf? && y != x ensures Content(t, y) == Content(s, y) {
      assert Content(h, y) == Content(s, y);
    }
    assert Entry(t, x) == PageEntry(f);
    forall y | User(s, y) && y.Leaf? && y != x ensures StaysOrSwaps(s, t, y) {
      assert StaysOrSwaps(s, h, y);
    }
  }

  /** The state and the frame after mapping the page of va, on a page in memory
      or nowhere; None is the kernel's stop when nothing may be swapped. */
  ghost function AllocPage(s: Vm, va: nat, status: Status): Option<(Vm, nat)>
    requires VmInv(s) && Roomy(s, 3) && User(s, PageOf(va)) && status != NotInMem && !Entry(s, PageOf(va)).sd
  {
    var x := PageOf(va);
    var a := NeedTable(s, Top(x.i));
    if a.None? then None else
    NeedTableKeeps(s, Top(x.i));
    var b := NeedTable(a.value, Mid(x.i, x.j));
    if b.None? then None else
    NeedTableKeeps(a.value, Mid(x.i, x.j));
    BothTables(s, a.value, b.value, x);
    if Entry(b.value, x).v then Some((b.value, Entry(b.value, x).pfn)) else
    var h := Take(b.value);
    if h.None? then None else
    TakenSlot(b.value, x);
    TableFrame(h.value.0, x);
    Some((AddPage(h.value.0, va, h.value.1, status), h.value.1))
  }

  /** Above an entry that is not zero every entry is valid. */
  lemma UpValid(s: Vm, x: Slot)
    requires x.Leaf? && Entry(s, x) != ZERO
    ensures Entry(s, Top(x.i)).v && Entry(s, Mid(x.i, x.j)).v && Reached(s, x)
  {
  }

  /** Once both tables are there, a page not in the SD card is in memory, and
      then nothing has changed, or is missing, as it was. */
  lemma BothTables(s: Vm, a: Vm, b: Vm, x: Slot)
    requires VmInv(s) && User(s, x) && x.Leaf? && !Entry(s, x).sd && Kept(s, a) && Kept(a, b)
    requires Entry(a, Top(x.i)).v && Entry(b, Mid(x.i, x.j)).v
    requires (Entry(s, Top(x.i)).v ==> a == s) && (Entry(a, Mid(x.i, x.j)).v ==> b == a)
    ensures Kept(s, b) && Reached(b, x)
    ensures if Entry(b, x).v then b == s else Entry(b, x) == ZERO == Entry(s, x)
  {
    hide Entry, Content, Listed, Budget;
    KeptTransitive(s, a, b);
    assert EntryShape(s, x);
    if Entry(s, x) != ZERO {
      UpValid(s, x);
    } else {
      assert StaysOrSwaps(s, b, x);
    }
  }

  lemma TableThere(s: Vm, x: Slot)
    requires VmInv(s) && s.next < |s.mem| && User(s, x) && Reached(s, x) && !x.Leaf? && Entry(s, x).v
    ensures NeedTable(s, x) == Some(s)
  {
  }

  /** After alloc_page_helper the page is mapped to the returned frame. A page
      that was in memory already keeps its frame and its content. */
  lemma AllocPageMaps(s: Vm, va: nat, status: Status)
    requires VmInv(s) && Roomy(s, 3) && User(s, PageOf(va)) && status != NotInMem && !Entry(s, PageOf(va)).sd
    requires AllocPage(s, va, status).Some?
    ensures
      var (t, f) := AllocPage(s, va, status).value;
      && Mapped(s, t, PageOf(va), f) && t.next <= s.next + 3 && t.ids <= s.ids + 3 && |t.sd| <= |s.sd| + 3
      && (Entry(s, PageOf(va)).v ==> t == s && f == Entry(s, PageOf(va)).pfn)
  {
    hide Entry, Take, NeedTable, AddPage, Vpn0, Vpn1, Vpn2, Tables, Listed, Content, Frames, StaysOrSwaps, Mapped;
    var x := PageOf(va);
    NeedTableKeeps(s, Top(x.i));
    var a := NeedTable(s, Top(x.i)).value;
    NeedTableKeeps(a, Mid(x.i, x.j));
    var b := NeedTable(a, Mid(x.i, x.j)).value;
    if Entry(s, Top(x.i)).v { TableThere(s, Top(x.i)); }
    if Entry(a, Mid(x.i, x.j)).v { TableThere(a, Mid(x.i, x.j)); }
    BothTables(s, a, b, x);
    if Entry(b, x).v {
      AlreadyMapped(s, x);
    } else {
      TakeHolds(b);
      TakeCounts(b);
      TakenSlot(b, x);
      var (h, f) := Take(b).value;
      PlacedMapped(b, h, f, va, status);
      AddPageAdded(h, va, f, status);
      KeptMapped(s, b, AddPage(h, va, f, status), x, f);
    }
  }

  lemma AlreadyMapped(s: Vm, x: Slot)
    requires VmInv(s) && User(s, x) && x.Leaf? && Entry(s, x).v
    ensures Mapped(s, s, x, Entry(s, x).pfn)
  {
    hide Entry, Frames;
    assert EntryShape(s, x);
    forall y | User(s, y) ensures StaysOrSwaps(s, s, y) {}
  }

  lemma KeptMapped(s: Vm, t: Vm, u: Vm, x: Slot, f: nat)
    requires Tables(s) && User(s, x) && Kept(s, t) && Mapped(t, u, x, f) && x.Leaf?
    ensures Mapped(s, u, x, f)
  {
    hide Entry, Frames, VmInv, Content;
    assert Content(t, x) == Content(s, x);
    forall y | User(s, y) && y.Leaf? && y != x ensures Content(u, y) == Content(s, y) {
      assert Content(t, y) == Content(s, y);
    }
    forall y | User(s, y) && y.Leaf? && y != x ensures StaysOrSwaps(s, u, y) {
      assert StaysOrSwaps(s, t, y) && StaysOrSwaps(t, u, y);
    }
  }

  // ---------- Looking an address up ----------

  /** pte_checker: the address of the entry of va, in memory or in the SD card. */
  function Walk(s: Vm, va: nat): Option<Loc> {
    var first := WordAt(s, s.root, Vpn2(va));
    if !first.v then None else
    var second := WordAt(s, first.pfn, Vpn1(va));
    if !second.v then None else
    var third := WordAt(s, second.pfn, Vpn0(va));
    if third.v || third.sd then Some(Loc(second.pfn, Vpn0(va))) else None
  }

  /** The walk answers exactly for the pages that have a content, with the
      address of their entry. */
  lemma WalkFinds(s: Vm, va: nat)
    requires Tables(s) && User(s, PageOf(va))
    ensures Walk(s, va) == if Content(s, PageOf(va)).Some? then Some(LocOf(s, PageOf(va))) else None
  {
    assert EntryShape(s, PageOf(va));
  }

  /** Two addresses have the same entry only if they lie in the same page. */
  lemma SamePage(va: nat, vb: nat)
    requires va < 0x80_0000_0000 && vb < 0x80_0000_0000
    ensures PageOf(va) == PageOf(vb) <==> va / 0x1000 == vb / 0x1000
  {
    SplitAddress(va);
    SplitAddress(vb);
  }

  lemma SplitAddress(va: nat)
    requires va < 0x80_0000_0000
    ensures va / 0x1000 == Vpn2(va) * 0x4_0000 + Vpn1(va) * 0x200 + Vpn0(va)
  {
    var p := va / 0x1000;
    assert va / 0x20_0000 == p / 0x200;
    assert va / 0x4000_0000 == p / 0x4_0000;
    assert p / 0x4_0000 == p / 0x200 / 0x200;
  }

  // ---------- Page faults ----------

  /** A page in the SD card means that the bound was reached, so the fault
      handler always gets its frame from a swap before it uses it. */
  lemma SdMeansFull(s: Vm, x: Slot)
    requires VmInv(s) && User(s, x) && x.Leaf? && Entry(s, x).sd
    ensures s.pagenum == s.upbound && Reached(s, x)
  {
    UpValid(s, x);
    hide Entry, Vpn0, Vpn1, Vpn2, Frames;
    SwappedPageNode(s, x);
  }

  /** A victim's frame is a page's: never the root, a table, or another page. */
  lemma VictimIsPage(s: Vm, n: nat, x: Slot)
    requires VmInv(s) && CanSwapOut(s, n) && User(s, x) && Entry(s, x).v && Entry(s, x).pfn == s.nodes[n].kva
    ensures x == PageOf(s.nodes[n].uva) && s.nodes[n].kva != s.root
  {
    hide Entry, Frames;
    assert NodeOk(s, s.nodes[n]) && EntryShape(s, x);
  }

  /** The load and store fault handlers, on a page that is not in memory. `junk`
      is what the uninitialised frame address of the handlers holds. */
  ghost function Fault(s: Vm, va: nat, junk: nat): Option<Vm>
    requires VmInv(s) && Roomy(s, 3) && User(s, PageOf(va)) && !Entry(s, PageOf(va)).v
  {
    var x := PageOf(va);
    if Entry(s, x).sd then
      SdMeansFull(s, x);
      var r := if s.pagenum == s.upbound then Take(s) else Some((s, junk));
      if r.None? then None else
      HeldSwapIn(s, va);
      Some(SwapIn(r.value.0, va, r.value.1))
    else
      var r := AllocPage(s, va, Swapable);
      if r.None? then None else Some(r.value.0)
  }

  lemma HeldSwapIn(s: Vm, va: nat)
    requires VmInv(s) && s.next < |s.mem| && User(s, PageOf(va)) && Entry(s, PageOf(va)).sd && Take(s).Some?
    ensures CanSwapIn(Take(s).value.0, va, Take(s).value.1)
    ensures Holding(s, Take(s).value.0, Take(s).value.1)
  {
    var x := PageOf(va);
    UpValid(s, x);
    assert EntryShape(s, x) && User(s, Mid(x.i, x.j));
    hide Entry, Vpn0, Vpn1, Vpn2, Frames, Take, Confined, SameContent;
    TakeHolds(s);
    var h := Take(s).value.0;
    assert StaysOrSwaps(s, h, x) && StaysOrSwaps(s, h, Mid(x.i, x.j));
    SwappedPageNode(h, x);
  }

  /** A fault maps the page. One that was swapped out comes back as it was; one
      that was nowhere holds what its new frame held. */
  lemma FaultMaps(s: Vm, va: nat, junk: nat)
    requires VmInv(s) && Roomy(s, 3) && User(s, PageOf(va)) && !Entry(s, PageOf(va)).v && Fault(s, va, junk).Some?
    ensures
      var t := Fault(s, va, junk).value;
      Mapped(s, t, PageOf(va), Entry(t, PageOf(va)).pfn)
  {
    hide Entry, AllocPage, Take, SwapIn, Vpn0, Vpn1, Vpn2, Mapped, Core;
    var x := PageOf(va);
    if Entry(s, x).sd {
      SdMeansFull(s, x);
      HeldSwapIn(s, va);
      var (h, f) := Take(s).value;
      BackMapped(s, h, f, va);
    } else {
      AllocPageMaps(s, va, Swapable);
      var (t, f) := AllocPage(s, va, Swapable).value;
      MappedFrame(s, t, x, f);
    }
  }

  lemma MappedFrame(s: Vm, t: Vm, x: Slot, f: nat)
    requires Mapped(s, t, x, f)
    ensures Entry(t, x).pfn == f
  {
  }

  lemma BackMapped(s: Vm, h: Vm, f: nat, va: nat)
    requires VmInv(s) && Holding(s, h, f) && CanSwapIn(h, va, f) && User(s, PageOf(va)) && Entry(s, PageOf(va)).sd
    ensures Mapped(s, SwapIn(h, va, f), PageOf(va), f) && Entry(SwapIn(h, va, f), PageOf(va)).pfn == f
  {
    hide Entry, SwapIn, Vpn0, Vpn1, Vpn2, Frames, Core, NodeOk;
    var x := PageOf(va);
    var t := SwapIn(h, va, f);
    SwapInMemory(h, va, f);
    SwapInChange(h, va, f);
    SwapInCore(h, va, f);
    SwapInContent(h, va, f);
    AddedConfined(s, h, f, t, TableOf(h, x));
    assert Content(h, x) == Content(s, x) && Content(t, x) == Content(h, x);
    assert Entry(t, x).v && Entry(t, x).pfn == f;
    forall y | User(s, y) && y.Leaf? && y != x ensures Content(t, y) == Content(s, y) {
      assert Content(h, y) == Content(s, y) && Content(t, y) == Content(h, y);
    }
    forall y | User(s, y) && y.Leaf? && y != x ensures StaysOrSwaps(s, t, y) {
      assert StaysOrSwaps(s, h, y);
    }
    if i :| 0 <= i < |t.nodes| && !Resident(t.nodes[i]) {
      assert !Resident(h.nodes[i]);
    }
  }

  // ---------- Runs ----------

  datatype Event = PageFault(va: nat, junk: nat) | Map(va: nat, status: Status) | Store(x: Slot, k: nat, w: Pte)

  /** A store of the user program to a page that is in memory. */
  ghost function StoreWord(s: Vm, x: Slot, k: nat, w: Pte): Vm
    requires Tables(s) && User(s, x) && x.Leaf? && Entry(s, x).v && k < ENTRIES
  {
    assert EntryShape(s, x);
    var f := Entry(s, x).pfn;
    PutFrame(s, f, s.mem[f][k := w])
  }

  ghost predicate Steps(s: Vm, e: Event, t: Vm) {
    && VmInv(s)
    && match e
       case PageFault(va, junk) =>
         Roomy(s, 3) && User(s, PageOf(va)) && !Entry(s, PageOf(va)).v && Fault(s, va, junk) == Some(t)
       case Map(va, status) =>
         && Roomy(s, 3) && User(s, PageOf(va)) && status != NotInMem && !Entry(s, PageOf(va)).sd
         && AllocPage(s, va, status).Some? && AllocPage(s, va, status).value.0 == t
       case Store(x, k, w) =>
         User(s, x) && x.Leaf? && Entry(s, x).v && k < ENTRIES && t == StoreWord(s, x, k, w)
  }

  lemma StoreKeeps(s: Vm, x: Slot, k: nat, w: Pte)
    requires VmInv(s) && User(s, x) && x.Leaf? && Entry(s, x).v && k < ENTRIES
    ensures
      var t := StoreWord(s, x, k, w);
      && VmInv(t) && Confined(s, t) && t.root == s.root && t.kernel == s.kernel
      && Content(s, x).Some? && Content(t, x) == Some(Content(s, x).value[k := w])
      && (forall y {:trigger Content(t, y)} :: User(s, y) && y.Leaf? && y != x ==> Content(t, y) == Content(s, y))
  {
    hide Entry, Frames, HasNode, NodeOk, EntryShape;
    var f := Entry(s, x).pfn;
    var t := StoreWord(s, x, k, w);
    PageNotTable(s, x);
    forall y | User(s, y) ensures Entry(t, y) == Entry(s, y) {
      PutDataEntry(s, f, s.mem[f][k := w], y);
    }
    StoreTables(s, t);
    forall i | 0 <= i < |t.nodes| ensures NodeOk(t, t.nodes[i]) {
      assert NodeOk(s, s.nodes[i]);
      StoreNode(s, t, s.nodes[i]);
    }
  }

  lemma StoreTables(s: Vm, t: Vm)
    requires Tables(s) && t == s.(mem := t.mem) && |t.mem| == |s.mem|
    requires forall y {:trigger Entry(t, y)} :: User(s, y) ==> Entry(t, y) == Entry(s, y)
    ensures Tables(t)
  {
    hide Entry;
    forall y | User(t, y) ensures EntryShape(t, y) {
      assert EntryShape(s, y);
    }
  }

  lemma StoreNode(s: Vm, t: Vm, n: Node)
    requires t == s.(mem := t.mem) && NodeOk(s, n)
    requires forall y {:trigger Entry(t, y)} :: User(s, y) ==> Entry(t, y) == Entry(s, y)
    ensures NodeOk(t, n)
  {
    hide Entry;
    var x := PageOf(n.uva);
    assert User(s, x) ==> User(s, Parent(x));
  }

  /** What a step does to one page: a store to it changes the word stored, and
      nothing else changes a page that is there. */
  function Effect(c: Frame, e: Event, x: Slot): Frame {
    if e.Store? && e.x == x && e.k < ENTRIES then c[e.k := e.w] else c
  }

  lemma StepPage(s: Vm, e: Event, t: Vm, x: Slot)
    requires Steps(s, e, t) && User(s, x) && x.Leaf? && Content(s, x).Some?
    ensures VmInv(t) && t.root == s.root && t.kernel == s.kernel && Confined(s, t)
    ensures Content(t, x) == Some(Effect(Content(s, x).value, e, x))
  {
    hide Entry, AllocPage, Fault, StoreWord, Vpn0, Vpn1, Vpn2, Core, Confined;
    match e
    case PageFault(va, junk) => FaultMaps(s, va, junk);
    case Map(va, status) => AllocPageMaps(s, va, status);
    case Store(y, k, w) => StoreKeeps(s, y, k, w);
  }

  ghost predicate Trace(ss: seq<Vm>, es: seq<Event>) {
    |ss| == |es| + 1 && forall i :: 0 <= i < |es| ==> Steps(ss[i], es[i], ss[i + 1])
  }

  /** The page's own stores, applied in order. */
  function Replay(c: Frame, es: seq<Event>, x: Slot): Frame {
    if es == [] then c else Effect(Replay(c, es[..|es| - 1], x), es[|es| - 1], x)
  }

  /** Swapping is transparent: along any run of faults, mappings and stores, a
      page that is there keeps its content but for the stores to it, wherever
      swapping has put it meanwhile. */
  lemma {:induction false} RunTransparent(ss: seq<Vm>, es: seq<Event>, x: Slot)
    requires Trace(ss, es) && VmInv(ss[0]) && User(ss[0], x) && x.Leaf? && Content(ss[0], x).Some?
    ensures VmInv(ss[|es|]) && User(ss[|es|], x)
    ensures Content(ss[|es|], x) == Some(Replay(Content(ss[0], x).value, es, x))
  {
    if es != [] {
      var n := |es| - 1;
      RunTransparent(ss[..n + 1], es[..n], x);
      StepPage(ss[n], es[n], ss[n + 1], x);
    }
  }

  // ---------- Other processes ----------

  /** Another process's view of the memory after a step of this one. */
  function Elsewhere(o: Vm, t: Vm): Vm {
    o.(mem := t.mem, next := t.next, sd := t.sd, ids := t.ids)
  }

  lemma OtherEntry(s: Vm, t: Vm, o: Vm, x: Slot)
    requires Core(o) && o.mem == s.mem && o.next == s.next && Frames(o.nodes) !! Frames(s.nodes)
    requires Confined(s, t) && User(o, x)
    ensures Entry(Elsewhere(o, t), x) == Entry(o, x)
  {
    hide Frames, HasNode, NodeOk;
    assert o.root in Frames(o.nodes) && o.root !in Frames(s.nodes);
    assert t.mem[o.root] == s.mem[o.root];
    var e := Entry(o, Top(x.i));
    assert User(o, Top(x.i)) && EntryShape(o, Top(x.i));
    if e.v {
      assert e.pfn in Frames(o.nodes) && t.mem[e.pfn] == s.mem[e.pfn];
    }
    if x.Leaf? {
      var m := Mid(x.i, x.j);
      assert User(o, m) && EntryShape(o, m);
      if Entry(o, m).v {
        assert Entry(o, m).pfn in Frames(o.nodes) && t.mem[Entry(o, m).pfn] == s.mem[Entry(o, m).pfn];
      }
    }
  }

  /** A step of one process leaves every other process's tables, nodes and
      contents alone, and their frames apart. */
  lemma OthersKept(s: Vm, t: Vm, o: Vm)
    requires VmInv(o) && o.mem == s.mem && o.next == s.next && o.sd == s.sd && Frames(o.nodes) !! Frames(s.nodes)
    requires Confined(s, t) && t.next <= |t.mem|
    ensures VmInv(Elsewhere(o, t)) && SameContent(o, Elsewhere(o, t)) && Frames(o.nodes) !! Frames(t.nodes)
  {
    hide Entry, HasNode, NodeOk;
    var u := Elsewhere(o, t);
    forall y | User(o, y) ensures Entry(u, y) == Entry(o, y) {
      OtherEntry(s, t, o, y);
    }
    forall f | f in Frames(o.nodes) ensures f < o.next && f !in Frames(t.nodes) {
      OtherFrame(o, f);
    }
    forall y | User(u, y) ensures EntryShape(u, y) {
      assert EntryShape(o, y);
    }
    forall i | 0 <= i < |u.nodes| ensures NodeOk(u, u.nodes[i]) {
      assert NodeOk(o, o.nodes[i]);
      OtherNode(o, u, o.nodes[i]);
    }
    hide Frames;
    forall y | User(o, y) && y.Leaf? ensures Content(u, y) == Content(o, y) {
      assert Entry(u, y) == Entry(o, y) && EntryShape(o, y);
      if Entry(o, y).v {
        assert Entry(o, y).pfn in Frames(o.nodes) && t.mem[Entry(o, y).pfn] == s.mem[Entry(o, y).pfn];
      }
    }
  }

  lemma OtherFrame(o: Vm, f: nat)
    requires Listed(o) && f in Frames(o.nodes)
    ensures f < o.next
  {
    hide Entry, NodeOk;
  }

  lemma OtherNode(o: Vm, u: Vm, n: Node)
    requires u.root == o.root && u.kernel == o.kernel && NodeOk(o, n)
    requires forall y {:trigger Entry(u, y)} :: User(o, y) ==> Entry(u, y) == Entry(o, y)
    ensures NodeOk(u, n)
  {
    hide Entry;
    var x := PageOf(n.uva);
    assert User(o, x) ==> User(o, Parent(x));
  }

  // ---------- A new address space ----------

  /** What do_exec sets up before it maps anything: a root that copies the
      kernel's entries and a kernel stack. */
  function NewSpace(mem: seq<Frame>, next: nat, sd: seq<Frame>, ids: nat, kernel: set<nat>, table: Frame, upbound: nat): Vm
    requires next + 2 <= |mem|
  {
    Vm(mem[next := table], next + 2, sd, ids + 2, next, kernel,
       [Node(Unswapable, next, 0, None), Node(Unswapable, next + 1, 0, None)], 2, upbound)
  }

  lemma NewSpaceInv(mem: seq<Frame>, next: nat, sd: seq<Frame>, ids: nat, kernel: set<nat>, table: Frame, upbound: nat)
    requires next + 2 <= |mem| && upbound >= 2
    requires forall i :: 0 <= i < ENTRIES && i !in kernel ==> table[i] == ZERO
    ensures VmInv(NewSpace(mem, next, sd, ids, kernel, table, upbound))
    ensures forall x :: User(NewSpace(mem, next, sd, ids, kernel, table, upbound), x) && x.Leaf? ==>
      Content(NewSpace(mem, next, sd, ids, kernel, table, upbound), x) == None
  {
    var s := NewSpace(mem, next, sd, ids, kernel, table, upbound);
    forall x | User(s, x) ensures Entry(s, x) == ZERO {}
    hide Entry;
    assert s.nodes[0].kva == next && s.nodes[1].kva == next + 1;
    assert Frames(s.nodes) == {next, next + 1};
    assert forall i :: 0 <= i < |s.nodes| ==> NodeOk(s, s.nodes[i]);
  }
}
