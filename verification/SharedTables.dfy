/** Sharing on the tables: snapshots, store faults, stores, swaps and new tables as
    changes of table entries and frames, each of which is a step of the copy-on-write
    model on the page map the tables implement. */
module SharedTables {
  import opened Bytes
  import opened VirtualMemory
  import opened CowTables
  import C = CopyOnWrite

  // ---------- What the walk finds after a change ----------

  /** The same entries everywhere, and the SD card only longer. */
  ghost predicate SameEntries(s: Vm, t: Vm) {
    && t.root == s.root && t.kernel == s.kernel && s.sd <= t.sd
    && forall y {:trigger Entry(t, y)} :: User(s, y) ==> Entry(t, y) == Entry(s, y)
  }

  lemma SameEntriesView(s: Vm, t: Vm)
    requires Tree(s) && SameEntries(s, t)
    ensures PtesOf(t) == PtesOf(s) && SdOf(t) == SdOf(s) && forall f :: NotTable(t, f) <==> NotTable(s, f)
  {
    hide Entry, SlotNoOf;
    forall y | User(t, y) ensures Entry(t, y) == Entry(s, y) && EntryShape(s, y) { }
    forall v: nat ensures (Present(t, v) <==> Present(s, v)) && (Away(t, v) <==> Away(s, v)) {}
    forall v: nat | Away(s, v) ensures Content(t, SlotNoOf(v)) == Content(s, SlotNoOf(v)) {
      assert EntryShape(s, SlotNoOf(v));
    }
  }

  lemma SameEntriesTree(s: Vm, t: Vm)
    requires Tree(s) && SameEntries(s, t) && s.next <= t.next <= |t.mem|
    ensures Tree(t)
  {
    hide Entry;
    forall y | User(t, y) ensures EntryShape(t, y) { assert EntryShape(s, y); }
  }

  /** The entry of page v became e, and no other changed. */
  ghost predicate PageEntryIs(s: Vm, t: Vm, v: nat, e: Pte) {
    && t == s.(mem := t.mem) && |t.mem| == |s.mem| && v < PAGES && User(s, SlotNoOf(v))
    && forall y {:trigger Entry(t, y)} :: User(s, y) ==> Entry(t, y) == if y == SlotNoOf(v) then e else Entry(s, y)
  }

  /** What an entry of page v may be: of a frame that is no table, or of a slot of
      the SD card that no other page has, or empty. */
  ghost predicate Fits(s: Vm, v: nat, e: Pte) {
    && (e.v ==> !e.sd && e.pfn < s.next && NotTable(s, e.pfn))
    && (!e.v ==> e.sd && InSd(s, e))
    && (!e.v ==> forall y {:trigger Entry(s, y)} :: User(s, y) && y != SlotNoOf(v) && Entry(s, y).sd ==> Entry(s, y).pfn != e.pfn)
  }

  lemma PageEntryTree(s: Vm, t: Vm, v: nat, e: Pte)
    requires Tree(s) && PageEntryIs(s, t, v, e) && Fits(s, v, e)
    ensures Tree(t) && forall f :: NotTable(t, f) <==> NotTable(s, f)
  {
    hide Entry, SlotNoOf;
    forall y | User(t, y) ensures EntryShape(t, y) { assert y != SlotNoOf(v) ==> EntryShape(s, y); }
    forall y | User(s, y) && !y.Leaf? ensures Entry(t, y) == Entry(s, y) {}
  }

  lemma OtherPage(s: Vm, t: Vm, v: nat, e: Pte, u: nat)
    requires Tree(s) && PageEntryIs(s, t, v, e) && u != v
    ensures (Present(t, u) <==> Present(s, u)) && (Away(t, u) <==> Away(s, u))
    ensures Present(s, u) || Away(s, u) ==> Entry(t, SlotNoOf(u)) == Entry(s, SlotNoOf(u))
    ensures Away(s, u) ==> Content(t, SlotNoOf(u)) == Content(s, SlotNoOf(u))
  {
    if u < PAGES && SlotNoOf(u) == SlotNoOf(v) { NumberUnique(u, v); }
    hide Entry, SlotNoOf;
    if u < PAGES && User(s, SlotNoOf(u)) {
      assert Entry(t, SlotNoOf(u)) == Entry(s, SlotNoOf(u));
    }
  }

  lemma ThisPage(s: Vm, t: Vm, v: nat, e: Pte)
    requires Tree(s) && PageEntryIs(s, t, v, e) && Fits(s, v, e)
    ensures (Present(t, v) <==> e.v) && (Away(t, v) <==> !e.v) && Entry(t, SlotNoOf(v)) == e
    ensures !e.v ==> 0 <= SlotNo(e) < |s.sd| && Content(t, SlotNoOf(v)) == Some(s.sd[SlotNo(e)])
  {
    hide Entry, SlotNoOf, NotTable;
    assert Entry(t, SlotNoOf(v)) == e;
  }

  lemma PageEntryView(s: Vm, t: Vm, v: nat, e: Pte)
    requires Tree(s) && PageEntryIs(s, t, v, e) && Fits(s, v, e)
    ensures PtesOf(t) == if e.v then PtesOf(s)[v := C.Mapping(e.pfn, e.w)] else PtesOf(s) - {v}
    ensures e.v ==> SdOf(t) == SdOf(s) - {v}
    ensures !e.v ==> 0 <= SlotNo(e) < |s.sd| && SdOf(t) == SdOf(s)[v := s.sd[SlotNo(e)]]
  {
    hide Entry, SlotNoOf, Present, Away, Content, Tree, Fits;
    forall u: nat | u != v
      ensures (Present(t, u) <==> Present(s, u)) && (Away(t, u) <==> Away(s, u))
      ensures Present(s, u) || Away(s, u) ==> Entry(t, SlotNoOf(u)) == Entry(s, SlotNoOf(u))
      ensures Away(s, u) ==> Content(t, SlotNoOf(u)) == Content(s, SlotNoOf(u))
    {
      OtherPage(s, t, v, e, u);
    }
    ThisPage(s, t, v, e);
  }

  // ---------- Writing entries and frames ----------

  /** The tables down to the entry of page v are there. */
  ghost predicate Ready(s: Vm, v: nat) {
    v < PAGES && User(s, SlotNoOf(v)) && Reached(s, SlotNoOf(v))
  }

  /** The entry of page v rewritten. */
  ghost function Put(s: Vm, v: nat, e: Pte): (t: Vm)
    ensures t == s.(mem := t.mem) && |t.mem| == |s.mem|
  {
    if TableOf(s, SlotNoOf(v)) < |s.mem| && Index(SlotNoOf(v)) < ENTRIES then PutEntry(s, SlotNoOf(v), e) else s
  }

  lemma PutPage(s: Vm, v: nat, e: Pte)
    requires Tree(s) && Ready(s, v) && Fits(s, v, e)
    ensures
      var t := Put(s, v, e);
      && PageEntryIs(s, t, v, e) && Tree(t) && MemOf(t) == MemOf(s) && (forall f :: NotTable(t, f) <==> NotTable(s, f))
      && PtesOf(t) == (if e.v then PtesOf(s)[v := C.Mapping(e.pfn, e.w)] else PtesOf(s) - {v})
      && (e.v ==> SdOf(t) == SdOf(s) - {v})
      && (!e.v ==> 0 <= SlotNo(e) < |s.sd| && SdOf(t) == SdOf(s)[v := s.sd[SlotNo(e)]])
  {
    hide Entry, SlotNoOf, NotTable, PtesOf, SdOf, Fits;
    var x := SlotNoOf(v);
    PutLeafEntry(s, x, e, x);
    var t := Put(s, v, e);
    forall y | User(s, y) ensures Entry(t, y) == if y == x then e else Entry(s, y) { PutLeafEntry(s, x, e, y); }
    PageEntryTree(s, t, v, e);
    PageEntryView(s, t, v, e);
    forall f: nat | f < |s.mem| && NotTable(s, f) ensures t.mem[f] == s.mem[f] { NotItsTable(s, v, f); }
  }

  lemma NotItsTable(s: Vm, v: nat, f: nat)
    requires Ready(s, v) && NotTable(s, f)
    ensures f != TableOf(s, SlotNoOf(v))
  {
    assert User(s, Parent(SlotNoOf(v)));
  }

  /** A frame that is no table rewritten. */
  ghost function Write(s: Vm, f: nat, b: Frame): (t: Vm)
    ensures t == s.(mem := t.mem) && |t.mem| == |s.mem|
  {
    if f < |s.mem| then PutFrame(s, f, b) else s
  }

  lemma WriteFrame(s: Vm, f: nat, b: Frame)
    requires Tree(s) && f < |s.mem| && NotTable(s, f)
    ensures
      var t := Write(s, f, b);
      && t == s.(mem := s.mem[f := b]) && SameEntries(s, t) && Tree(t) && (forall g :: NotTable(t, g) <==> NotTable(s, g))
      && PtesOf(t) == PtesOf(s) && SdOf(t) == SdOf(s) && MemOf(t) == MemOf(s)[f := b]
  {
    hide Entry, PtesOf, SdOf, NotTable;
    var t := Write(s, f, b);
    forall y | User(s, y) ensures Entry(t, y) == Entry(s, y) { PutDataEntry(s, f, b, y); }
    SameEntriesView(s, t);
    SameEntriesTree(s, t);
  }

  /** Frame f counts as handed out. */
  function Bump(s: Vm, f: nat): Vm { s.(next := if f < s.next then s.next else f + 1) }

  /** A further slot of the SD card is written. */
  function Save(s: Vm, b: Frame): Vm { s.(sd := s.sd + [b]) }

  lemma NothingMoved(s: Vm, t: Vm)
    requires Tree(s) && t == s.(next := t.next, sd := t.sd) && s.next <= t.next <= |s.mem| && s.sd <= t.sd
    ensures SameEntries(s, t) && Tree(t) && (forall g :: NotTable(t, g) <==> NotTable(s, g))
    ensures PtesOf(t) == PtesOf(s) && SdOf(t) == SdOf(s) && MemOf(t) == MemOf(s)
  {
    forall y | User(s, y) ensures Entry(t, y) == Entry(s, y) {}
    hide Entry, PtesOf, SdOf, NotTable;
    SameEntriesView(s, t);
    SameEntriesTree(s, t);
  }

  lemma Bumped(s: Vm, f: nat)
    requires Tree(s) && f < |s.mem|
    ensures
      var t := Bump(s, f);
      && SameEntries(s, t) && Tree(t) && (forall g :: NotTable(t, g) <==> NotTable(s, g))
      && PtesOf(t) == PtesOf(s) && SdOf(t) == SdOf(s) && MemOf(t) == MemOf(s)
  {
    hide Entry, PtesOf, SdOf, MemOf, NotTable;
    NothingMoved(s, Bump(s, f));
  }

  /** Frame f cleared and linked as a table at y. */
  ghost function Link(s: Vm, y: Slot, f: nat): (t: Vm)
    ensures t == s.(mem := t.mem) && |t.mem| == |s.mem|
  {
    if f < |s.mem| && TableOf(s, y) < |s.mem| && Index(y) < ENTRIES then LinkTable(s, y, f) else s
  }

  ghost predicate TableEntryIs(s: Vm, t: Vm, y: Slot, f: nat) {
    && t == s.(mem := t.mem) && |t.mem| == |s.mem| && User(s, y) && !y.Leaf? && !Entry(s, y).v
    && forall z {:trigger Entry(t, z)} :: User(s, z) ==> Entry(t, z) == if z == y then TableEntry(f) else Entry(s, z)
  }

  lemma TableEntryTree(s: Vm, t: Vm, y: Slot, f: nat)
    requires Tree(s) && TableEntryIs(s, t, y, f) && f < s.next && Unnamed(s, f)
    ensures Tree(t) && forall g :: NotTable(t, g) <==> NotTable(s, g) && g != f
  {
    hide Entry;
    forall z | User(t, z) ensures EntryShape(t, z) { assert z != y ==> EntryShape(s, z); }
    assert Entry(t, y) == TableEntry(f);
    forall g | NotTable(s, g) && g != f ensures NotTable(t, g) {}
    forall g | NotTable(t, g) ensures NotTable(s, g) && g != f {
      forall z | User(s, z) && !z.Leaf? && Entry(s, z).v ensures Entry(s, z).pfn != g { assert Entry(t, z) == Entry(s, z); }
    }
  }

  lemma TableEntryView(s: Vm, t: Vm, y: Slot, f: nat)
    requires Tree(s) && TableEntryIs(s, t, y, f)
    ensures PtesOf(t) == PtesOf(s) && SdOf(t) == SdOf(s)
  {
    hide Entry, SlotNoOf;
    forall v: nat
      ensures (Present(t, v) <==> Present(s, v)) && (Away(t, v) <==> Away(s, v))
      ensures Present(s, v) || Away(s, v) ==>
        Entry(t, SlotNoOf(v)) == Entry(s, SlotNoOf(v)) && (!Present(s, v) ==> Content(t, SlotNoOf(v)) == Content(s, SlotNoOf(v)))
    {
      if User(s, SlotNoOf(v)) { assert Entry(t, SlotNoOf(v)) == Entry(s, SlotNoOf(v)); }
    }
    hide Present, Away, Content, Tree;
  }

  lemma LinkFrame(s: Vm, y: Slot, f: nat)
    requires Tree(s) && !y.Leaf? && User(s, y) && Reached(s, y) && !Entry(s, y).v && f < s.next && Unnamed(s, f)
    ensures
      var t := Link(s, y, f);
      && TableEntryIs(s, t, y, f) && Tree(t) && (forall g :: NotTable(t, g) <==> NotTable(s, g) && g != f)
      && PtesOf(t) == PtesOf(s) && SdOf(t) == SdOf(s) && MemOf(t) == MemOf(s) - {f}
  {
    hide Entry, NotTable, PtesOf, SdOf;
    LinkTableEntry(s, y, f, y);
    var t := Link(s, y, f);
    forall z | User(s, z) ensures Entry(t, z) == if z == y then TableEntry(f) else Entry(s, z) { LinkTableEntry(s, y, f, z); }
    LinkTableMemory(s, y, f);
    TableEntryTree(s, t, y, f);
    TableEntryView(s, t, y, f);
    forall g: nat | g < |s.mem| && NotTable(s, g) && g != f ensures t.mem[g] == s.mem[g] { NotAbove(s, y, g); }
  }

  lemma NotAbove(s: Vm, y: Slot, g: nat)
    requires User(s, y) && Reached(s, y) && NotTable(s, g)
    ensures g != TableOf(s, y)
  {
    if !y.Top? { assert User(s, Parent(y)); }
  }

  // ---------- Spare frames ----------

  /** Every entry of a page has a page number. */
  lemma LeafNumber(y: Slot) returns (v: nat)
    requires y.Leaf? && y.i < ENTRIES && y.j < ENTRIES && y.k < ENTRIES
    ensures v < PAGES && SlotNoOf(v) == y
  {
    v := y.i * 0x4_0000 + (y.j * 0x200 + y.k);
    DividedTwice(v * 0x1000);
    assert v * 0x1000 / 0x1000 == v;
    Upper(y.i, y.j * 0x200 + y.k);
    Middle(y.i * 0x200 + y.j, y.k);
    ModAdd(y.j, y.i);
    ModAdd(y.k, y.i * 0x200 + y.j);
  }

  lemma SpareUnnamed(s: Vm, nodes: seq<C.CowNode>, f: nat)
    requires Tree(s) && C.Spare(C.Cow(PtesOf(s), SdOf(s), nodes, MemOf(s)), f)
    ensures f < |s.mem| && NotTable(s, f) && Unnamed(s, f)
  {
    hide Entry, SlotNoOf;
    forall y | User(s, y) && y.Leaf? && Entry(s, y).v ensures Entry(s, y).pfn != f {
      var v := LeafNumber(y);
      assert v in PtesOf(s);
    }
  }

  // ---------- Steps on the tables ----------

  /** A process: its memory and tables, and its page list with reader counts (the
      list inside vm is not used). */
  datatype Space = Space(vm: Vm, nodes: seq<C.CowNode>)

  ghost function View(x: Space): C.Cow {
    C.Cow(PtesOf(x.vm), SdOf(x.vm), x.nodes, MemOf(x.vm))
  }

  /** What happens: an event of a page, or frame f becoming the table at y. */
  datatype Event = Page(e: C.Event) | NewTable(y: Slot, f: nat)

  function Abstract(e: Event): C.Event {
    match e
    case Page(c) => c
    case NewTable(_, f) => C.Table(f)
  }

  /** The page an event gives a new entry has the tables above it: making them is an
      event before it. */
  ghost predicate Enabled(x: Space, e: Event) {
    C.Enabled(View(x), Abstract(e)) &&
    match e
    case NewTable(y, f) => !y.Leaf? && User(x.vm, y) && Reached(x.vm, y) && !Entry(x.vm, y).v
    case Page(c) =>
      match c
      case Touch(v, _) => Ready(x.vm, v)
      case Snapshot(v) => Ready(x.vm, C.SnapshotPage(View(x), v))
      case Table(_) => false
      case _ => true
  }

  /** clean_attribute of the write permission. */
  function FlipWrite(e: Pte): Pte { e.(w := !e.w) }

  /** The entry build_page_helper leaves: set_pfn, and seven attributes set. */
  function Built(e: Pte, f: nat): Pte {
    SetPfn(e, f).(v := true, u := true, r := true, w := true, x := true, a := true, d := true)
  }

  function EntryOfPage(s: Vm, v: nat): Pte { Entry(s, SlotNoOf(v)) }

  /** do_snapshot. */
  ghost function Snap(x: Space, v: nat): Space
    requires v in PtesOf(x.vm) && C.Index(View(x), v) < |x.nodes|
  {
    var i, w := C.Index(View(x), v), C.SnapshotPage(View(x), v);
    var n := x.nodes[i];
    var s := if n.status != C.Shared then Put(x.vm, v, FlipWrite(EntryOfPage(x.vm, v))) else x.vm;
    var t := Put(s, w, Built(EntryOfPage(s, w), n.kva));
    Space(Put(t, w, FlipWrite(EntryOfPage(t, w))),
          x.nodes[i := n.(status := C.Shared, readers := if n.status != C.Shared then 2 else n.readers + 1)])
  }

  /** The copy-on-write branch of the store fault: the entry is made invalid, and
      built again on the new frame. */
  ghost function Unshare(x: Space, v: nat, f: nat): Space
    requires v in PtesOf(x.vm) && C.Index(View(x), v) < |x.nodes|
  {
    var i := C.Index(View(x), v);
    var e, n := EntryOfPage(x.vm, v), x.nodes[i];
    if n.readers == 1 then
      Space(Put(x.vm, v, e.(w := true)), x.nodes[i := n.(readers := 0, status := C.Plain)])
    else
      Space(Put(Bump(x.vm, f), v, Built(e.(v := false), f)),
            x.nodes[i := n.(readers := n.readers - 1)] + [C.CowNode(C.Plain, f, 0, 0)])
  }

  /** swap_to_sd. */
  ghost function Leave(x: Space, v: nat): Space
    requires v in PtesOf(x.vm) && C.Index(View(x), v) < |x.nodes| && PtesOf(x.vm)[v].frame in MemOf(x.vm)
  {
    var i := C.Index(View(x), v);
    var e, f := EntryOfPage(x.vm, v), PtesOf(x.vm)[v].frame;
    var s := Write(Save(x.vm, MemOf(x.vm)[f]), f, ZeroFrame());
    Space(Put(s, v, SetPfn(e.(sd := true, v := false), SWAP_BASE + 8 * |x.vm.sd|)),
          x.nodes[i := x.nodes[i].(status := C.Evicted, kva := 0)])
  }

  /** swap_to_mem. */
  ghost function Back(x: Space, v: nat, i: nat, f: nat): Space
    requires v in SdOf(x.vm) && i < |x.nodes|
  {
    var e := EntryOfPage(x.vm, v);
    var s := Write(Bump(x.vm, f), f, SdOf(x.vm)[v]);
    Space(Put(s, v, SetPfn(e.(sd := false, v := true), f)), x.nodes[i := x.nodes[i].(status := C.Plain, kva := f)])
  }

  ghost function Step(x: Space, e: Event): Space
    requires Enabled(x, e)
  {
    match e
    case NewTable(y, f) => Space(Link(Bump(x.vm, f), y, f), x.nodes + [C.CowNode(C.Pinned, f, 0, 0)])
    case Page(c) =>
      match c
      case Touch(v, f) => Space(Put(Bump(x.vm, f), v, Built(EntryOfPage(x.vm, v), f)), x.nodes + [C.CowNode(C.Plain, f, 0, v)])
      case Snapshot(v) => Snap(x, v)
      case StoreFault(v, f) => Unshare(x, v, f)
      case UserStore(v, k, w) =>
        var f := PtesOf(x.vm)[v].frame;
        x.(vm := Write(x.vm, f, MemOf(x.vm)[f][k := w]))
      case Evict(v) => Leave(x, v)
      case Return(v, i, f) => Back(x, v, i, f)
      case Table(_) => x
  }

  // ---------- Every step is a step of the model ----------

  /** Every page in the SD card will come back writable. */
  ghost predicate BackWritable(s: Vm) {
    forall v: nat :: Away(s, v) ==> EntryOfPage(s, v).w
  }

  ghost predicate Inv(x: Space) {
    Tree(x.vm) && C.Inv(View(x)) && BackWritable(x.vm)
  }

  lemma PutWritable(s: Vm, t: Vm, v: nat, e: Pte)
    requires Tree(s) && PageEntryIs(s, t, v, e) && Fits(s, v, e) && BackWritable(s) && (e.v || e.w)
    ensures BackWritable(t)
  {
    hide Entry, SlotNoOf, NotTable, Tree, Content, Present, Away, Fits;
    forall u: nat | Away(t, u) ensures EntryOfPage(t, u).w {
      if u != v { OtherPage(s, t, v, e, u); } else { ThisPage(s, t, v, e); }
    }
  }

  /** A page in memory: what its entry is, and that it may be rewritten. */
  lemma InMemory(x: Space, v: nat)
    requires Inv(x) && v in PtesOf(x.vm)
    ensures
      var e := EntryOfPage(x.vm, v);
      && Ready(x.vm, v) && e.v && !e.sd && e.pfn < x.vm.next <= |x.vm.mem| && NotTable(x.vm, e.pfn)
      && PtesOf(x.vm)[v] == C.Mapping(e.pfn, e.w)
  {
    PageNotTable(x.vm, SlotNoOf(v));
    hide SlotNoOf;
    assert EntryShape(x.vm, SlotNoOf(v));
  }

  /** A page of its own frame, put at v after frame f was taken. */
  lemma PutFresh(s: Vm, v: nat, e: Pte, f: nat)
    requires Tree(s) && BackWritable(s) && Ready(s, v) && f < |s.mem| && NotTable(s, f)
    requires e.v && !e.sd && e.pfn == f
    ensures
      var t := Put(Bump(s, f), v, e);
      && Tree(t) && BackWritable(t) && MemOf(t) == MemOf(s)
      && PtesOf(t) == PtesOf(s)[v := C.Mapping(f, e.w)] && SdOf(t) == SdOf(s) - {v}
  {
    var u := Bump(s, f);
    NothingMoved(s, u);
    assert Ready(u, v) by { assert User(s, Parent(SlotNoOf(v))); }
    SameBack(s, u);
    hide Entry, SlotNoOf, NotTable, PtesOf, SdOf, MemOf, Ready, BackWritable, Tree;
    PutPage(u, v, e);
    PutWritable(u, Put(u, v, e), v, e);
  }

  lemma SameBack(s: Vm, t: Vm)
    requires Tree(s) && SameEntries(s, t) && BackWritable(s)
    ensures BackWritable(t)
  {
    hide Entry, SlotNoOf, Content;
    SameEntriesView(s, t);
    forall v: nat | Away(t, v) ensures EntryOfPage(t, v).w {
      assert v in SdOf(t);
      assert Away(s, v) && Entry(t, SlotNoOf(v)) == Entry(s, SlotNoOf(v));
    }
  }

  /** A page that is nowhere has an empty entry. */
  lemma NotMapped(x: Space, v: nat)
    requires Tree(x.vm) && Ready(x.vm, v) && !C.Known(View(x), v)
    ensures EntryOfPage(x.vm, v) == ZERO
  {
    hide Entry, SlotNoOf;
    assert EntryShape(x.vm, SlotNoOf(v));
  }

  lemma TouchStep(x: Space, v: nat, f: nat)
    requires Inv(x) && Enabled(x, Page(C.Touch(v, f)))
    ensures
      var t := Step(x, Page(C.Touch(v, f)));
      Inv(t) && View(t) == C.Step(View(x), C.Touch(v, f))
  {
    hide C.Inv, Entry, SlotNoOf, NotTable, PtesOf, SdOf, MemOf, Tree, BackWritable, C.Spare, Ready;
    C.StepInv(View(x), C.Touch(v, f));
    SpareUnnamed(x.vm, x.nodes, f);
    NotMapped(x, v);
    PutFresh(x.vm, v, Built(ZERO, f), f);
    assert SdOf(x.vm) - {v} == SdOf(x.vm);
  }

  /** A further change of an entry of page v. */
  lemma PutAgain(s: Vm, v: nat, e: Pte)
    requires Tree(s) && BackWritable(s) && Ready(s, v) && Fits(s, v, e) && e.v
    ensures
      var t := Put(s, v, e);
      && Tree(t) && BackWritable(t) && MemOf(t) == MemOf(s) && PageEntryIs(s, t, v, e) && (forall g :: NotTable(t, g) <==> NotTable(s, g))
      && PtesOf(t) == PtesOf(s)[v := C.Mapping(e.pfn, e.w)] && SdOf(t) == SdOf(s) - {v}
  {
    hide Entry, SlotNoOf, NotTable, PtesOf, SdOf, MemOf, Ready, BackWritable, Tree, Fits;
    PutPage(s, v, e);
    PutWritable(s, Put(s, v, e), v, e);
  }

  lemma ReadyStill(s: Vm, t: Vm, v: nat, e: Pte, u: nat)
    requires Ready(s, u) && PageEntryIs(s, t, v, e)
    ensures Ready(t, u) && (u != v ==> EntryOfPage(t, u) == EntryOfPage(s, u)) && EntryOfPage(t, v) == e
  {
    assert User(s, Parent(SlotNoOf(u)));
    if SlotNoOf(u) == SlotNoOf(v) { NumberUnique(u, v); }
  }

  /** A page that is nowhere becomes a read-only one on frame f. */
  lemma NewReader(s: Vm, w: nat, f: nat)
    requires Tree(s) && BackWritable(s) && Ready(s, w) && EntryOfPage(s, w) == ZERO && f < s.next && NotTable(s, f)
    requires w !in SdOf(s)
    ensures
      var t := Put(s, w, Built(EntryOfPage(s, w), f));
      var u := Put(t, w, FlipWrite(EntryOfPage(t, w)));
      && Tree(u) && BackWritable(u) && MemOf(u) == MemOf(s) && SdOf(u) == SdOf(s)
      && PtesOf(u) == PtesOf(s)[w := C.Mapping(f, false)]
  {
    hide Entry, SlotNoOf, NotTable, PtesOf, SdOf, MemOf, Ready, BackWritable, Tree, EntryOfPage;
    var e := Built(ZERO, f);
    PutAgain(s, w, e);
    var t := Put(s, w, e);
    ReadyStill(s, t, w, e, w);
    PutAgain(t, w, FlipWrite(e));
    assert SdOf(s) - {w} == SdOf(s);
    assert PtesOf(s)[w := C.Mapping(f, true)][w := C.Mapping(f, false)] == PtesOf(s)[w := C.Mapping(f, false)];
  }

  /** The entry of page v flips its write permission; page w is left alone. */
  lemma FlipPage(x: Space, v: nat, w: nat)
    requires Inv(x) && v in PtesOf(x.vm) && w != v && Ready(x.vm, w)
    ensures
      var s := x.vm;
      var t := Put(s, v, FlipWrite(EntryOfPage(s, v)));
      && Tree(t) && BackWritable(t) && MemOf(t) == MemOf(s) && SdOf(t) == SdOf(s) && t.next == s.next
      && PtesOf(t) == PtesOf(s)[v := C.Flip(PtesOf(s)[v])]
      && Ready(t, w) && EntryOfPage(t, w) == EntryOfPage(s, w) && (forall g :: NotTable(t, g) <==> NotTable(s, g))
  {
    hide Entry, SlotNoOf, NotTable, PtesOf, SdOf, MemOf, Ready, BackWritable, Tree, C.Inv, EntryOfPage;
    InMemory(x, v);
    NotAway(x, v);
    var e := FlipWrite(EntryOfPage(x.vm, v));
    PutAgain(x.vm, v, e);
    ReadyStill(x.vm, Put(x.vm, v, e), v, e, w);
    assert SdOf(x.vm) - {v} == SdOf(x.vm);
  }

  lemma NotAway(x: Space, v: nat)
    requires C.Inv(View(x)) && v in PtesOf(x.vm)
    ensures v !in SdOf(x.vm)
  {
    hide PtesOf, SdOf, MemOf, C.NodeOf, C.Counted, C.Distinct;
  }

  /** The two entries a snapshot leaves. */
  lemma SnapEntries(x: Space, v: nat)
    requires Inv(x) && Enabled(x, Page(C.Snapshot(v)))
    ensures
      var t := Snap(x, v).vm;
      var n := x.nodes[C.Index(View(x), v)];
      var ptes := if n.status != C.Shared then PtesOf(x.vm)[v := C.Flip(PtesOf(x.vm)[v])] else PtesOf(x.vm);
      && Tree(t) && BackWritable(t) && MemOf(t) == MemOf(x.vm) && SdOf(t) == SdOf(x.vm)
      && PtesOf(t) == ptes[C.SnapshotPage(View(x), v) := C.Flip(C.Mapping(n.kva, true))]
  {
    hide Entry, SlotNoOf, NotTable, PtesOf, SdOf, MemOf, Ready, BackWritable, Tree, C.Inv, EntryOfPage, C.Probe, C.NodeOf, Put, C.Spare;
    var i, w := C.Index(View(x), v), C.SnapshotPage(View(x), v);
    assert !C.Known(View(x), w) && w != v;
    InMemory(x, v);
    NotMapped(x, w);
    var n := x.nodes[i];
    if n.status != C.Shared {
      FlipPage(x, v, w);
      NewReader(Put(x.vm, v, FlipWrite(EntryOfPage(x.vm, v))), w, n.kva);
    } else {
      NewReader(x.vm, w, n.kva);
    }
  }

  lemma SnapshotStep(x: Space, v: nat)
    requires Inv(x) && Enabled(x, Page(C.Snapshot(v)))
    ensures
      var t := Step(x, Page(C.Snapshot(v)));
      Inv(t) && View(t) == C.Step(View(x), C.Snapshot(v))
  {
    hide Entry, SlotNoOf, NotTable, PtesOf, SdOf, MemOf, Ready, BackWritable, Tree, C.Inv, EntryOfPage, C.SnapshotPage, C.NodeOf, Put, C.Spare;
    C.StepInv(View(x), C.Snapshot(v));
    SnapEntries(x, v);
  }

  lemma StoreFaultStep(x: Space, v: nat, f: nat)
    requires Inv(x) && Enabled(x, Page(C.StoreFault(v, f)))
    ensures
      var t := Step(x, Page(C.StoreFault(v, f)));
      Inv(t) && View(t) == C.Step(View(x), C.StoreFault(v, f))
  {
    hide Entry, SlotNoOf, NotTable, PtesOf, SdOf, MemOf, Ready, BackWritable, Tree, C.Inv, EntryOfPage, C.NodeOf, Put, C.Spare;
    C.StepInv(View(x), C.StoreFault(v, f));
    InMemory(x, v);
    NotAway(x, v);
    SpareUnnamed(x.vm, x.nodes, f);
    assert SdOf(x.vm) - {v} == SdOf(x.vm);
    var e := EntryOfPage(x.vm, v);
    if x.nodes[C.Index(View(x), v)].readers == 1 {
      PutAgain(x.vm, v, e.(w := true));
    } else {
      PutFresh(x.vm, v, Built(e.(v := false), f), f);
    }
  }

  lemma StoreStep(x: Space, v: nat, k: nat, w: Pte)
    requires Inv(x) && Enabled(x, Page(C.UserStore(v, k, w)))
    ensures
      var t := Step(x, Page(C.UserStore(v, k, w)));
      Inv(t) && View(t) == C.Step(View(x), C.UserStore(v, k, w))
  {
    hide Entry, SlotNoOf, NotTable, PtesOf, SdOf, MemOf, Ready, BackWritable, Tree, C.Inv, EntryOfPage;
    C.StepInv(View(x), C.UserStore(v, k, w));
    InMemory(x, v);
    var f := PtesOf(x.vm)[v].frame;
    var b := MemOf(x.vm)[f][k := w];
    WriteFrame(x.vm, f, b);
    SameBack(x.vm, Write(x.vm, f, b));
  }

  /** No page is in the next slot of the SD card. */
  lemma NextSlot(s: Vm, y: Slot)
    requires Tree(s) && User(s, y) && Entry(s, y).sd
    ensures Entry(s, y).pfn != SWAP_BASE + 8 * |s.sd|
  {
    hide Entry;
    assert EntryShape(s, y);
  }

  lemma Saved(s: Vm, b: Frame)
    requires Tree(s)
    ensures
      var t := Save(s, b);
      && SameEntries(s, t) && Tree(t) && (forall g :: NotTable(t, g) <==> NotTable(s, g))
      && PtesOf(t) == PtesOf(s) && SdOf(t) == SdOf(s) && MemOf(t) == MemOf(s)
  {
    hide Entry, PtesOf, SdOf, MemOf, NotTable;
    NothingMoved(s, Save(s, b));
  }

  lemma NotATable(s: Vm, f: nat)
    requires f in MemOf(s)
    ensures f < |s.mem| && NotTable(s, f)
  {
  }

  lemma NextFits(s: Vm, u: Vm, v: nat, e: Pte)
    requires Tree(s) && SameEntries(s, u) && |u.sd| == |s.sd| + 1 && !e.v && e.sd && e.pfn == SWAP_BASE + 8 * |s.sd|
    ensures Fits(u, v, e) && SlotNo(e) == |s.sd|
  {
    hide Entry, SlotNoOf;
    forall y | User(u, y) && Entry(u, y).sd ensures Entry(u, y).pfn != e.pfn {
      assert Entry(u, y) == Entry(s, y);
      NextSlot(s, y);
    }
  }

  /** Nothing that is looked up through the entries differs. */
  lemma SameReady(s: Vm, t: Vm, v: nat)
    requires SameEntries(s, t) && v < PAGES && User(s, SlotNoOf(v))
    ensures (Ready(t, v) <==> Ready(s, v)) && EntryOfPage(t, v) == EntryOfPage(s, v)
  {
    assert User(s, Parent(SlotNoOf(v)));
  }

  lemma ReadyUser(s: Vm, v: nat)
    requires Ready(s, v)
    ensures v < PAGES && User(s, SlotNoOf(v))
  {
  }

  /** A frame is saved in the next slot and cleared. */
  lemma SaveFrame(s: Vm, f: nat)
    requires Tree(s) && BackWritable(s) && f in MemOf(s)
    ensures
      var u := Write(Save(s, MemOf(s)[f]), f, ZeroFrame());
      && SameEntries(s, u) && Tree(u) && BackWritable(u) && PtesOf(u) == PtesOf(s) && SdOf(u) == SdOf(s)
      && MemOf(u) == MemOf(s)[f := ZeroFrame()] && u.sd == s.sd + [MemOf(s)[f]]
  {
    hide Entry, SlotNoOf, NotTable, PtesOf, SdOf, MemOf, BackWritable, Tree;
    Saved(s, MemOf(s)[f]);
    NotATable(s, f);
    WriteFrame(Save(s, MemOf(s)[f]), f, ZeroFrame());
    SameBack(s, Write(Save(s, MemOf(s)[f]), f, ZeroFrame()));
  }

  /** And the entry of page v names the slot. */
  lemma SavePage(s: Vm, v: nat, f: nat)
    requires Tree(s) && BackWritable(s) && Ready(s, v) && f in MemOf(s) && EntryOfPage(s, v).w
    ensures
      var u := Write(Save(s, MemOf(s)[f]), f, ZeroFrame());
      var t := Put(u, v, SetPfn(EntryOfPage(s, v).(sd := true, v := false), SWAP_BASE + 8 * |s.sd|));
      && Tree(t) && BackWritable(t) && MemOf(t) == MemOf(s)[f := ZeroFrame()]
      && PtesOf(t) == PtesOf(s) - {v} && SdOf(t) == SdOf(s)[v := MemOf(s)[f]]
  {
    hide Entry, SlotNoOf, NotTable, PtesOf, SdOf, MemOf, BackWritable, Tree, Ready, EntryOfPage, Fits, SlotNo, SameEntries, Write, Save, Put;
    var u := Write(Save(s, MemOf(s)[f]), f, ZeroFrame());
    var e := SetPfn(EntryOfPage(s, v).(sd := true, v := false), SWAP_BASE + 8 * |s.sd|);
    SaveFrame(s, f);
    ReadyUser(s, v);
    SameReady(s, u, v);
    NextFits(s, u, v, e);
    PutPage(u, v, e);
    PutWritable(u, Put(u, v, e), v, e);
  }

  lemma EvictStep(x: Space, v: nat)
    requires Inv(x) && Enabled(x, Page(C.Evict(v)))
    ensures
      var t := Step(x, Page(C.Evict(v)));
      Inv(t) && View(t) == C.Step(View(x), C.Evict(v))
  {
    hide Entry, SlotNoOf, NotTable, PtesOf, SdOf, MemOf, Ready, BackWritable, Tree, C.Inv, EntryOfPage, C.NodeOf, C.Counted, Put, Write, Save;
    C.StepInv(View(x), C.Evict(v));
    InMemory(x, v);
    var i := C.PageNode(View(x), v);
    SavePage(x.vm, v, PtesOf(x.vm)[v].frame);
  }

  /** A page in the SD card: its entry, and what it names. */
  lemma InCard(x: Space, v: nat)
    requires Inv(x) && v in SdOf(x.vm)
    ensures
      var e := EntryOfPage(x.vm, v);
      Ready(x.vm, v) && !e.v && e.sd && e.w
  {
    hide SlotNoOf;
    assert EntryShape(x.vm, SlotNoOf(v));
  }

  lemma ReturnStep(x: Space, v: nat, i: nat, f: nat)
    requires Inv(x) && Enabled(x, Page(C.Return(v, i, f)))
    ensures
      var t := Step(x, Page(C.Return(v, i, f)));
      Inv(t) && View(t) == C.Step(View(x), C.Return(v, i, f))
  {
    hide Entry, SlotNoOf, NotTable, PtesOf, SdOf, MemOf, Ready, BackWritable, Tree, C.Inv, EntryOfPage, C.Spare, Put, Write;
    C.StepInv(View(x), C.Return(v, i, f));
    InCard(x, v);
    SpareUnnamed(x.vm, x.nodes, f);
    LoadPage(x.vm, v, f, SdOf(x.vm)[v]);
  }

  /** Frame f is filled, and the entry of page v names it. */
  lemma LoadPage(s: Vm, v: nat, f: nat, b: Frame)
    requires Tree(s) && BackWritable(s) && Ready(s, v) && f < |s.mem| && NotTable(s, f) && EntryOfPage(s, v).w
    ensures
      var u := Write(Bump(s, f), f, b);
      var t := Put(u, v, SetPfn(EntryOfPage(s, v).(sd := false, v := true), f));
      && Tree(t) && BackWritable(t) && MemOf(t) == MemOf(s)[f := b]
      && PtesOf(t) == PtesOf(s)[v := C.Mapping(f, true)] && SdOf(t) == SdOf(s) - {v}
  {
    var r := Bump(s, f);
    var u := Write(r, f, b);
    var e := SetPfn(EntryOfPage(s, v).(sd := false, v := true), f);
    hide Entry, SlotNoOf, NotTable, PtesOf, SdOf, MemOf, BackWritable, Tree, Ready, EntryOfPage;
    Bumped(s, f);
    WriteFrame(r, f, b);
    SameBack(s, u);
    ReadyUser(s, v);
    SameReady(s, u, v);
    PutAgain(u, v, e);
  }

  lemma NewTableStep(x: Space, y: Slot, f: nat)
    requires Inv(x) && Enabled(x, NewTable(y, f))
    ensures
      var t := Step(x, NewTable(y, f));
      Inv(t) && View(t) == C.Step(View(x), C.Table(f))
  {
    hide Entry, SlotNoOf, NotTable, PtesOf, SdOf, MemOf, BackWritable, Tree, C.Inv, C.Spare;
    C.StepInv(View(x), C.Table(f));
    SpareUnnamed(x.vm, x.nodes, f);
    var s := Bump(x.vm, f);
    Bumped(x.vm, f);
    SameBack(x.vm, s);
    LinkFrame(s, y, f);
    LinkBack(s, Link(s, y, f), y, f);
  }

  lemma LinkBack(s: Vm, t: Vm, y: Slot, f: nat)
    requires Tree(s) && TableEntryIs(s, t, y, f) && BackWritable(s)
    ensures BackWritable(t)
  {
    hide Entry, SlotNoOf, Content;
    TableEntryView(s, t, y, f);
    forall v: nat | Away(t, v) ensures EntryOfPage(t, v).w {
      assert v in SdOf(t);
      assert Away(s, v) && Entry(t, SlotNoOf(v)) == Entry(s, SlotNoOf(v));
    }
  }

  /** Every event on the tables is the event of the model on the page map. */
  lemma StepTables(x: Space, e: Event)
    requires Inv(x) && Enabled(x, e)
    ensures Inv(Step(x, e)) && C.Enabled(View(x), Abstract(e)) && View(Step(x, e)) == C.Step(View(x), Abstract(e))
  {
    hide Inv, View, Step, C.Step, C.Enabled;
    match e
    case NewTable(y, f) => NewTableStep(x, y, f);
    case Page(c) =>
      match c
      case Touch(v, f) => TouchStep(x, v, f);
      case Snapshot(v) => SnapshotStep(x, v);
      case StoreFault(v, f) => StoreFaultStep(x, v, f);
      case UserStore(v, k, w) => StoreStep(x, v, k, w);
      case Evict(v) => EvictStep(x, v);
      case Return(v, i, f) => ReturnStep(x, v, i, f);
      case Table(_) =>
  }

  // ---------- Runs on the tables ----------

  ghost function Run(x: Space, es: seq<Event>): Option<Space> {
    if es == [] then Some(x) else
    var r := Run(x, es[..|es| - 1]);
    if r.Some? && Enabled(r.value, es[|es| - 1]) then Some(Step(r.value, es[|es| - 1])) else None
  }

  function AbstractAll(es: seq<Event>): (cs: seq<C.Event>)
    ensures |cs| == |es| && forall i :: 0 <= i < |es| ==> cs[i] == Abstract(es[i])
  {
    seq(|es|, i requires 0 <= i < |es| => Abstract(es[i]))
  }

  /** Over any run of snapshots, store faults, stores, swaps and new tables the tables
      stay a tree and the page map runs as the model does. */
  lemma {:induction false} RunTables(x: Space, es: seq<Event>)
    requires Inv(x) && Run(x, es).Some?
    ensures Inv(Run(x, es).value) && C.Run(View(x), AbstractAll(es)) == Some(View(Run(x, es).value))
  {
    hide Inv, View, Step, C.Step, Enabled, C.Enabled;
    if es != [] {
      var n := |es| - 1;
      RunTables(x, es[..n]);
      StepTables(Run(x, es[..n]).value, es[n]);
      assert AbstractAll(es)[..n] == AbstractAll(es[..n]);
    }
  }

  /** What the walk finds for a page is what the model shows for it. */
  lemma WalkShows(x: Space, v: nat)
    requires Inv(x) && v < PAGES && User(x.vm, SlotNoOf(v))
    ensures VirtualMemory.Content(x.vm, SlotNoOf(v)) == C.Content(View(x), v)
  {
    hide Entry, SlotNoOf, NotTable;
    assert EntryShape(x.vm, SlotNoOf(v));
    if Entry(x.vm, SlotNoOf(v)).v { PageNotTable(x.vm, SlotNoOf(v)); }
  }

  /** So an event changes what the walk finds for a page exactly as the model says: by
      the page's own store, and by the fault that takes it off a shared frame. */
  lemma StepWalk(x: Space, e: Event, u: nat)
    requires Inv(x) && Enabled(x, e) && u < PAGES && User(x.vm, SlotNoOf(u)) && C.Known(View(x), u)
    ensures VirtualMemory.Content(Step(x, e).vm, SlotNoOf(u)) == C.Shows(View(x), Abstract(e), u)
    ensures C.Known(View(Step(x, e)), u)
  {
    hide Inv, View, Step, C.Step, C.Enabled, C.Shows, SlotNoOf, C.Known, VirtualMemory.Content, C.Content;
    InvParts(x);
    StepTables(x, e);
    C.StepShows(View(x), Abstract(e), u);
    SameKernel(x, e);
    WalkShows(Step(x, e), u);
  }

  lemma InvParts(x: Space)
    requires Inv(x)
    ensures C.Inv(View(x))
  {
  }

  lemma SameKernel(x: Space, e: Event)
    requires Enabled(x, e)
    ensures Step(x, e).vm.kernel == x.vm.kernel && Step(x, e).vm.root == x.vm.root
  {
    hide C.Spare, Entry, SlotNoOf, PtesOf, SdOf, MemOf, C.NodeOf, C.Probe, Ready, Put, Write, Link;
  }

  /** A process that has taken no snapshot is such a process. */
  lemma StartShared(s: Vm)
    requires VmInv(s) && Writable(s)
    ensures Inv(Space(s, CowOf(s).nodes)) && View(Space(s, CowOf(s).nodes)) == CowOf(s)
  {
    hide Entry, SlotNoOf;
    CowOfInv(s);
  }
}
