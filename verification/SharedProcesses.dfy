/** Several processes that take snapshots, over one memory, one swap area and one
    sector counter: what one of them does, no other can see. */
module SharedProcesses {
  import opened Bytes
  import opened VirtualMemory
  import opened CowTables
  import C = CopyOnWrite
  import T = SharedTables
  import P = Processes

  /** The frames a process holds. */
  ghost function Own(nodes: seq<C.CowNode>): set<nat> {
    set i | 0 <= i < |nodes| && nodes[i].status != C.Evicted :: nodes[i].kva
  }

  /** The process is in order, and its tables lie in frames it holds. */
  ghost predicate Fenced(x: T.Space) {
    && T.Inv(x)
    && (forall g: nat :: g < |x.vm.mem| ==> g in MemOf(x.vm) || g in Own(x.nodes))
    && (forall g :: g in Own(x.nodes) ==> g < x.vm.next)
  }

  /** The frame an event is given. */
  function Given(e: C.Event): set<nat> {
    match e
    case Touch(_, f) => {f}
    case StoreFault(_, f) => {f}
    case Return(_, _, f) => {f}
    case Table(f) => {f}
    case _ => {}
  }

  // ---------- What an event of one process changes ----------

  lemma PageOwned(s: C.Cow, v: nat)
    requires C.Inv(s) && v in s.ptes
    ensures s.ptes[v].frame in Own(s.nodes)
  {
    hide C.Counted, C.Distinct;
    assert s.nodes[C.FoundAt(s, v)].kva == s.ptes[v].frame;
  }

  /** On the model: frames it neither holds nor is given stay as they are, and it
      holds no others afterwards. */
  lemma ModelConfined(s: C.Cow, e: C.Event, g: nat)
    requires C.Inv(s) && C.Enabled(s, e) && g !in Own(s.nodes) && g !in Given(e)
    ensures g !in Own(C.Step(s, e).nodes)
    ensures g in s.mem <==> g in C.Step(s, e).mem
    ensures g in s.mem ==> C.Step(s, e).mem[g] == s.mem[g]
  {
    hide C.Counted, C.Distinct, C.Spare, C.NodeOf, C.Probe;
    match e
    case Touch(v, f) =>
    case Snapshot(v) => PageOwned(s, v); var i := C.PageNode(s, v); assert s.nodes[i].kva in Own(s.nodes);
    case StoreFault(v, f) => PageOwned(s, v); var i := C.PageNode(s, v); assert s.nodes[i].kva in Own(s.nodes);
    case UserStore(v, k, w) => PageOwned(s, v);
    case Evict(v) => PageOwned(s, v);
    case Return(v, i, f) =>
    case Table(f) =>
  }

  lemma OwnAt(nodes: seq<C.CowNode>, i: nat)
    requires i < |nodes| && nodes[i].status != C.Evicted
    ensures nodes[i].kva in Own(nodes)
  {
  }

  /** On the model: what is a table, or becomes one, is held. */
  lemma ModelFenced(s: C.Cow, e: C.Event, g: nat)
    requires C.Inv(s) && C.Enabled(s, e) && (g in s.mem || g in Own(s.nodes))
    ensures g in C.Step(s, e).mem || g in Own(C.Step(s, e).nodes)
  {
    hide C.Counted, C.Distinct, C.Spare, C.NodeOf, C.Probe;
    var t := C.Step(s, e);
    if g !in s.mem {
      var j :| 0 <= j < |s.nodes| && s.nodes[j].status != C.Evicted && s.nodes[j].kva == g;
      if e.Evict? { var i := C.PageNode(s, e.v); }
      OwnAt(t.nodes, j);
    } else if e == C.Table(g) {
      OwnAt(t.nodes, |s.nodes|);
    }
  }

  lemma NextGrows(x: T.Space, e: T.Event)
    requires T.Enabled(x, e)
    ensures
      var t := T.Step(x, e).vm;
      x.vm.next <= t.next && x.vm.sd <= t.sd && |t.mem| == |x.vm.mem| && t.root == x.vm.root && t.kernel == x.vm.kernel
  {
    hide C.Spare, C.NodeOf, C.Probe, PtesOf, SdOf, MemOf, T.Put, T.Write, T.Link, T.Ready, Entry, SlotNoOf, T.EntryOfPage;
  }

  /** The last reader of a frame takes no other. */
  ghost predicate Takes(x: T.Space, e: T.Event) {
    !(e.Page? && e.e.StoreFault? && e.e.v in PtesOf(x.vm) && C.Index(T.View(x), e.e.v) < |x.nodes|
      && x.nodes[C.Index(T.View(x), e.e.v)].readers == 1)
  }

  lemma GivenNext(x: T.Space, e: T.Event, f: nat)
    requires T.Enabled(x, e) && f in Given(T.Abstract(e)) && Takes(x, e)
    ensures f < T.Step(x, e).vm.next
  {
    hide C.Spare, C.NodeOf, C.Probe, PtesOf, SdOf, MemOf, T.Put, T.Write, T.Link, T.Ready, Entry, SlotNoOf, T.EntryOfPage;
  }

  lemma NotTaken(x: T.Space, e: T.Event, g: nat)
    requires T.Enabled(x, e) && !Takes(x, e) && g in Own(T.Step(x, e).nodes)
    ensures g in Own(x.nodes)
  {
    hide C.Spare, C.NodeOf, C.Probe, PtesOf, SdOf, MemOf, T.Put, T.Write, T.Link, T.Ready, Entry, SlotNoOf, T.EntryOfPage;
    var t := T.Step(x, e);
    var j :| 0 <= j < |t.nodes| && t.nodes[j].status != C.Evicted && t.nodes[j].kva == g;
    OwnAt(x.nodes, j);
  }

  /** Frames a process neither holds nor is given are as they were after its step. */
  ghost predicate Confined(x: T.Space, e: T.Event, t: T.Space) {
    && |t.vm.mem| == |x.vm.mem| && x.vm.next <= t.vm.next <= |t.vm.mem| && x.vm.sd <= t.vm.sd
    && (forall g: nat :: g < |x.vm.mem| && g !in Own(x.nodes) && g !in Given(T.Abstract(e)) ==> t.vm.mem[g] == x.vm.mem[g])
    && (forall g :: g in Own(t.nodes) ==> g in Own(x.nodes) || g in Given(T.Abstract(e)))
  }

  lemma FrameSame(x: T.Space, e: T.Event, g: nat)
    requires Fenced(x) && T.Enabled(x, e) && g < |x.vm.mem| && g !in Own(x.nodes) && g !in Given(T.Abstract(e))
    ensures g < |T.Step(x, e).vm.mem| && T.Step(x, e).vm.mem[g] == x.vm.mem[g]
  {
    hide T.Step, T.Enabled, C.Step, C.Enabled, Own, Tree, C.Inv, PtesOf, SdOf, T.BackWritable, NotTable;
    T.StepTables(x, e);
    NextGrows(x, e);
    ModelConfined(T.View(x), T.Abstract(e), g);
    var t := T.Step(x, e);
    assert MemOf(t.vm) == C.Step(T.View(x), T.Abstract(e)).mem;
    assert g in MemOf(x.vm) && g in MemOf(t.vm);
  }

  /** A step keeps the process in order and to its own frames. */
  lemma StepFenced(x: T.Space, e: T.Event)
    requires Fenced(x) && T.Enabled(x, e)
    ensures Fenced(T.Step(x, e)) && Confined(x, e, T.Step(x, e))
  {
    hide T.Step, T.Enabled, C.Step, C.Enabled, Own, C.Inv, PtesOf, SdOf, MemOf, T.BackWritable, Given, Entry, Takes;
    var t := T.Step(x, e);
    T.StepTables(x, e);
    NextGrows(x, e);
    assert t.nodes == C.Step(T.View(x), T.Abstract(e)).nodes && MemOf(t.vm) == C.Step(T.View(x), T.Abstract(e)).mem;
    forall g: nat | g < |t.vm.mem| ensures g in MemOf(t.vm) || g in Own(t.nodes) { ModelFenced(T.View(x), T.Abstract(e), g); }
    forall g: nat | g in Own(t.nodes) ensures g < t.vm.next && (g in Own(x.nodes) || g in Given(T.Abstract(e))) {
      if g !in Own(x.nodes) {
        if g !in Given(T.Abstract(e)) { ModelConfined(T.View(x), T.Abstract(e), g); }
        if !Takes(x, e) { NotTaken(x, e, g); }
        GivenNext(x, e, g);
      }
    }
    forall g: nat | g < |x.vm.mem| && g !in Own(x.nodes) && g !in Given(T.Abstract(e)) ensures t.vm.mem[g] == x.vm.mem[g] {
      FrameSame(x, e, g);
    }
  }

  // ---------- What the others see ----------

  /** Another process after a step that left memory as in t. */
  function Beside(o: T.Space, t: Vm): T.Space {
    o.(vm := Elsewhere(o.vm, t))
  }

  /** The memory outside the frames of o may differ, and the SD card be longer. */
  ghost predicate Around(o: T.Space, t: Vm) {
    && |t.mem| == |o.vm.mem| && o.vm.next <= t.next <= |t.mem| && o.vm.sd <= t.sd
    && forall g :: g in Own(o.nodes) && g < |t.mem| ==> t.mem[g] == o.vm.mem[g]
  }

  lemma OtherEntries(o: T.Space, t: Vm, y: Slot)
    requires Fenced(o) && Around(o, t) && User(o.vm, y)
    ensures Entry(Beside(o, t).vm, y) == Entry(o.vm, y)
  {
    hide Own, T.View, T.BackWritable, PtesOf, SdOf;
    var s := o.vm;
    assert s.root in Own(o.nodes) by { assert s.root !in MemOf(s); }
    if Entry(s, Top(y.i)).v { TableHeld(o, Top(y.i)); }
    if y.Leaf? && Entry(s, Mid(y.i, y.j)).v { TableHeld(o, Mid(y.i, y.j)); }
  }

  lemma TableHeld(o: T.Space, y: Slot)
    requires Fenced(o) && User(o.vm, y) && !y.Leaf? && Entry(o.vm, y).v
    ensures Entry(o.vm, y).pfn in Own(o.nodes) && Entry(o.vm, y).pfn < |o.vm.mem|
  {
    hide Own, Entry, T.View, PtesOf, SdOf;
    assert EntryShape(o.vm, y);
    assert Entry(o.vm, y).pfn !in MemOf(o.vm);
  }

  /** Frames a process holds are the same, so it sees what it saw. */
  lemma OtherSees(o: T.Space, t: Vm)
    requires Fenced(o) && Around(o, t)
    ensures
      var u := Beside(o, t);
      && T.SameEntries(o.vm, u.vm) && Tree(u.vm) && T.BackWritable(u.vm)
      && PtesOf(u.vm) == PtesOf(o.vm) && SdOf(u.vm) == SdOf(o.vm) && MemOf(u.vm).Keys == MemOf(o.vm).Keys
  {
    hide Own, Entry, PtesOf, SdOf, NotTable, T.BackWritable, Tree, C.Inv;
    var u := Beside(o, t);
    forall y | User(o.vm, y) ensures Entry(u.vm, y) == Entry(o.vm, y) { OtherEntries(o, t, y); }
    T.SameEntriesView(o.vm, u.vm);
    T.SameEntriesTree(o.vm, u.vm);
    T.SameBack(o.vm, u.vm);
  }

  /** The sharing is in order whatever the frames hold. */
  lemma SameKeysInv(s: C.Cow, t: C.Cow)
    requires C.Inv(s) && t == s.(mem := t.mem) && t.mem.Keys == s.mem.Keys
    ensures C.Inv(t)
  {
    hide C.Counted, C.Distinct, C.NodeOf;
  }

  /** Every other process stays in order, and every page of it shows what it showed. */
  lemma OtherKept(o: T.Space, t: Vm)
    requires Fenced(o) && Around(o, t)
    ensures Fenced(Beside(o, t))
    ensures forall v :: C.Known(T.View(o), v) ==> C.Known(T.View(Beside(o, t)), v) && C.Content(T.View(Beside(o, t)), v) == C.Content(T.View(o), v)
  {
    hide Own, PtesOf, SdOf, MemOf, Tree, C.Inv, T.BackWritable, T.SameEntries;
    var u := Beside(o, t);
    OtherSees(o, t);
    SameKeysInv(T.View(o), T.View(u));
    forall v | C.Known(T.View(o), v) ensures C.Content(T.View(u), v) == C.Content(T.View(o), v) {
      if v in PtesOf(o.vm) {
        PageOwned(T.View(o), v);
        SameFrame(o, t, PtesOf(o.vm)[v].frame);
      }
    }
  }

  lemma SameFrame(o: T.Space, t: Vm, f: nat)
    requires Around(o, t) && f in Own(o.nodes) && MemOf(Beside(o, t).vm).Keys == MemOf(o.vm).Keys
    ensures f in MemOf(o.vm) ==> MemOf(Beside(o, t).vm)[f] == MemOf(o.vm)[f]
  {
    hide Own, NotTable;
    if f in MemOf(o.vm) { assert f in MemOf(o.vm).Keys; assert f in MemOf(Beside(o, t).vm); }
  }

  // ---------- Moves of the whole system ----------

  datatype Move =
    | Act(who: nat, e: T.Event)                                    // an event of one process
    | Spawn(kernel: set<nat>, table: Frame, upbound: nat)          // a new process, with a root table and a kernel stack

  /** Each process is in order, all see the same memory, and no two hold a frame in common. */
  ghost predicate Together(ps: seq<T.Space>) {
    && (forall i :: 0 <= i < |ps| ==> Fenced(ps[i]))
    && (forall i, j :: 0 <= i < |ps| && 0 <= j < |ps| ==> SameMemory(ps[i].vm, ps[j].vm))
    && (forall i, j :: 0 <= i < |ps| && 0 <= j < |ps| && i != j ==> Own(ps[i].nodes) !! Own(ps[j].nodes))
  }

  ghost predicate SameMemory(o: Vm, s: Vm) {
    o.mem == s.mem && o.next == s.next && o.sd == s.sd && o.ids == s.ids
  }

  /** A new process made beside the others. */
  ghost function NewProcess(s: Vm, kernel: set<nat>, table: Frame, upbound: nat): T.Space
    requires s.next + 2 <= |s.mem|
  {
    var n := NewSpace(s.mem, s.next, s.sd, s.ids, kernel, table, upbound);
    T.Space(n, CowOf(n).nodes)
  }

  ghost predicate Moves(ps: seq<T.Space>, m: Move, qs: seq<T.Space>) {
    match m
    case Act(who, e) =>
      && who < |ps| == |qs| && T.Enabled(ps[who], e) && qs[who] == T.Step(ps[who], e)
      && (forall j :: 0 <= j < |ps| && j != who ==> Given(T.Abstract(e)) !! Own(ps[j].nodes))
      && (forall j :: 0 <= j < |ps| && j != who ==> qs[j] == Beside(ps[j], qs[who].vm))
    case Spawn(kernel, table, upbound) =>
      && |ps| > 0 && |qs| == |ps| + 1 && ps[0].vm.next + 2 <= |ps[0].vm.mem| && upbound >= 2
      && (forall i :: 0 <= i < ENTRIES && i !in kernel ==> table[i] == ZERO)
      && qs[|ps|] == NewProcess(ps[0].vm, kernel, table, upbound)
      && (forall j :: 0 <= j < |ps| ==> qs[j] == Beside(ps[j], qs[|ps|].vm))
  }

  lemma ActAround(ps: seq<T.Space>, who: nat, e: T.Event, qs: seq<T.Space>, j: nat)
    requires Together(ps) && Moves(ps, Act(who, e), qs) && j < |ps| && j != who
    ensures Fenced(qs[who]) && Around(ps[j], qs[who].vm) && Own(ps[j].nodes) !! Own(qs[who].nodes)
  {
    hide Own, Fenced, T.Step, T.Enabled, Given;
    StepFenced(ps[who], e);
    assert SameMemory(ps[j].vm, ps[who].vm);
  }

  lemma SameFrames(s: Vm)
    ensures Own(CowOf(s).nodes) == Frames(s.nodes)
  {
    hide PtesOf, SdOf, MemOf;
    var ns := CowOf(s).nodes;
    forall f | f in Frames(s.nodes) ensures f in Own(ns) {
      var i :| 0 <= i < |s.nodes| && Resident(s.nodes[i]) && s.nodes[i].kva == f;
      OwnAt(ns, i);
    }
    forall f | f in Own(ns) ensures f in Frames(s.nodes) {
      var i :| 0 <= i < |ns| && ns[i].status != C.Evicted && ns[i].kva == f;
      assert Resident(s.nodes[i]);
    }
  }

  /** A process that has taken no snapshot is such a process, with the frames it held. */
  lemma StartFenced(s: Vm)
    requires VmInv(s) && Writable(s)
    ensures Fenced(T.Space(s, CowOf(s).nodes)) && Own(CowOf(s).nodes) == Frames(s.nodes)
  {
    hide Own, Entry, NodeOk, HasNode, Writable, T.Inv;
    T.StartShared(s);
    SameFrames(s);
    forall g: nat | g < |s.mem| && g !in Frames(s.nodes) ensures g in MemOf(s) {}
    forall g | g in Frames(s.nodes) ensures g < s.next { OtherFrame(s, g); }
  }

  lemma NewFenced(s: Vm, kernel: set<nat>, table: Frame, upbound: nat)
    requires s.next + 2 <= |s.mem| && upbound >= 2
    requires forall i :: 0 <= i < ENTRIES && i !in kernel ==> table[i] == ZERO
    ensures Fenced(NewProcess(s, kernel, table, upbound))
    ensures forall f :: f in Own(NewProcess(s, kernel, table, upbound).nodes) ==> f >= s.next
  {
    hide Entry, SlotNoOf, Own, Fenced;
    var n := NewSpace(s.mem, s.next, s.sd, s.ids, kernel, table, upbound);
    NewSpaceInv(s.mem, s.next, s.sd, s.ids, kernel, table, upbound);
    assert Writable(n);
    StartFenced(n);
  }

  lemma SpawnAround(ps: seq<T.Space>, kernel: set<nat>, table: Frame, upbound: nat, qs: seq<T.Space>, j: nat)
    requires Together(ps) && Moves(ps, Spawn(kernel, table, upbound), qs) && j < |ps|
    ensures Fenced(qs[|ps|]) && Around(ps[j], qs[|ps|].vm) && Own(ps[j].nodes) !! Own(qs[|ps|].nodes)
  {
    hide Own, T.Inv, MemOf;
    NewFenced(ps[0].vm, kernel, table, upbound);
    assert SameMemory(ps[j].vm, ps[0].vm) && Fenced(ps[j]);
  }

  /** Any move keeps all processes in order and apart ... */
  lemma MoveTogether(ps: seq<T.Space>, m: Move, qs: seq<T.Space>)
    requires Together(ps) && Moves(ps, m, qs)
    ensures Together(qs)
  {
    hide Own, Fenced, Around, T.Step, T.Enabled, Given, NewProcess;
    match m
    case Act(who, e) =>
      StepFenced(ps[who], e);
      forall j | 0 <= j < |ps| && j != who
        ensures Fenced(qs[j]) && SameMemory(qs[j].vm, qs[who].vm) && Own(qs[j].nodes) !! Own(qs[who].nodes) && qs[j].nodes == ps[j].nodes
      {
        ActAround(ps, who, e, qs, j);
        OtherKept(ps[j], qs[who].vm);
      }
    case Spawn(kernel, table, upbound) =>
      NewFenced(ps[0].vm, kernel, table, upbound);
      forall j | 0 <= j < |ps|
        ensures Fenced(qs[j]) && SameMemory(qs[j].vm, qs[|ps|].vm) && Own(qs[j].nodes) !! Own(qs[|ps|].nodes) && qs[j].nodes == ps[j].nodes
      {
        SpawnAround(ps, kernel, table, upbound, qs, j);
        OtherKept(ps[j], qs[|ps|].vm);
      }
  }

  /** What an event does to page v of its own process: a store changes the word stored. */
  function Effect(c: Frame, e: T.Event, v: nat): Frame {
    if e.Page? && e.e.UserStore? && e.e.v == v && e.e.k < ENTRIES then c[e.e.k := e.e.w] else c
  }

  /** The event gives page v a copy of a frame it shared: the copy that is not made. */
  ghost predicate Loses(x: T.Space, e: T.Event, v: nat) {
    e.Page? && e.e.StoreFault? && e.e.v == v && Takes(x, e)
  }

  ghost predicate Shown(x: T.Space, v: nat, c: Frame) {
    C.Known(T.View(x), v) && C.Content(T.View(x), v) == Some(c)
  }

  lemma OwnEffect(x: T.Space, e: T.Event, v: nat, c: Frame)
    requires Fenced(x) && T.Enabled(x, e) && Shown(x, v, c) && !Loses(x, e, v)
    ensures Shown(T.Step(x, e), v, Effect(c, e, v))
  {
    hide T.Step, C.Step, PtesOf, SdOf, MemOf, Tree, C.Inv, T.BackWritable, C.NodeOf, C.Spare, C.Probe, T.Ready;
    T.StepTables(x, e);
    C.StepShows(T.View(x), T.Abstract(e), v);
  }

  /** ... and changes of a page that is there only what its own process stores, or
      loses when it leaves a shared frame. */
  lemma MovePage(ps: seq<T.Space>, m: Move, qs: seq<T.Space>, j: nat, v: nat, c: Frame)
    requires Together(ps) && Moves(ps, m, qs) && j < |ps| && Shown(ps[j], v, c)
    requires m.Act? && m.who == j ==> !Loses(ps[j], m.e, v)
    ensures j < |qs| && Shown(qs[j], v, if m.Act? && m.who == j then Effect(c, m.e, v) else c)
  {
    hide Own, Fenced, Around, T.Step, T.Enabled, Given, NewProcess, T.View, Loses, Effect, C.Known, C.Content;
    match m
    case Act(who, e) =>
      if j == who { OwnEffect(ps[j], e, v, c); } else {
        ActAround(ps, who, e, qs, j);
        OtherKept(ps[j], qs[who].vm);
      }
    case Spawn(kernel, table, upbound) =>
      SpawnAround(ps, kernel, table, upbound, qs, j);
      OtherKept(ps[j], qs[|ps|].vm);
  }

  /** Processes in order and apart before any of them takes a snapshot. */
  lemma StartTogether(ps: seq<Vm>, qs: seq<T.Space>)
    requires P.Together(ps) && |qs| == |ps| && forall i :: 0 <= i < |ps| ==> Writable(ps[i]) && qs[i] == T.Space(ps[i], CowOf(ps[i]).nodes)
    ensures Together(qs)
  {
    hide VmInv, Own, Fenced, Frames, Writable;
    forall i | 0 <= i < |ps| ensures Fenced(qs[i]) && Own(qs[i].nodes) == Frames(ps[i].nodes) { StartFenced(ps[i]); }
    forall i, j | 0 <= i < |ps| && 0 <= j < |ps| ensures SameMemory(qs[i].vm, qs[j].vm) { assert P.Shared(ps[i], ps[j]); }
  }

  // ---------- Runs ----------

  ghost predicate Life(pss: seq<seq<T.Space>>, ms: seq<Move>) {
    |pss| == |ms| + 1 && forall i :: 0 <= i < |ms| ==> Moves(pss[i], ms[i], pss[i + 1])
  }

  /** The page's own stores among the moves, applied in order. */
  function Replay(c: Frame, ms: seq<Move>, j: nat, v: nat): Frame {
    if ms == [] then c else
    var m := ms[|ms| - 1];
    var d := Replay(c, ms[..|ms| - 1], j, v);
    if m.Act? && m.who == j then Effect(d, m.e, v) else d
  }

  /** Over any run of any number of processes, with snapshots, store faults, swaps and
      new processes, the walk finds for a page what it found with that process's own
      stores applied, as long as it does not leave a frame others still share. */
  lemma {:induction false} RunIsolated(pss: seq<seq<T.Space>>, ms: seq<Move>, j: nat, v: nat, c: Frame)
    requires Life(pss, ms) && Together(pss[0]) && j < |pss[0]| && Shown(pss[0][j], v, c)
    requires forall i :: 0 <= i < |ms| && ms[i].Act? && ms[i].who == j && j < |pss[i]| ==> !Loses(pss[i][j], ms[i].e, v)
    ensures Together(pss[|ms|]) && j < |pss[|ms|]| && Shown(pss[|ms|][j], v, Replay(c, ms, j, v))
    ensures VirtualMemory.Content(pss[|ms|][j].vm, SlotNoOf(v)) == Some(Replay(c, ms, j, v))
  {
    hide Together, Moves, Loses, Effect, Shown, SlotNoOf, VirtualMemory.Content;
    if ms != [] {
      var n := |ms| - 1;
      RunIsolated(pss[..n + 1], ms[..n], j, v, c);
      MoveTogether(pss[n], ms[n], pss[n + 1]);
      MovePage(pss[n], ms[n], pss[n + 1], j, v, Replay(c, ms[..n], j, v));
    }
    Walked(pss[|ms|], j, v, Replay(c, ms, j, v));
  }

  lemma Walked(ps: seq<T.Space>, j: nat, v: nat, c: Frame)
    requires Together(ps) && j < |ps| && Shown(ps[j], v, c)
    ensures VirtualMemory.Content(ps[j].vm, SlotNoOf(v)) == Some(c)
  {
    hide SlotNoOf, Entry, VirtualMemory.Content, T.Inv, C.Content, Own;
    T.WalkShows(ps[j], v);
  }
}
