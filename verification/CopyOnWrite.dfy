/** Snapshots and copy-on-write: pages of one process sharing frames read-only,
    with a reader count on the frame's page node. The page table is taken as the
    finite map its walk implements. */
module CopyOnWrite {
  import opened Bytes
  import opened VirtualMemory

  datatype CowStatus = Plain | Pinned | Shared | Evicted

  /** read_member is `readers`; `page` is the page recorded in the node, uva: the one
      it was made for, or 0 in a node made for a copy, where it is never filled in. */
  datatype CowNode = CowNode(status: CowStatus, kva: nat, readers: int, page: nat)

  /** A present entry: its frame and its write permission. */
  datatype Mapping = Mapping(frame: nat, write: bool)

  datatype Cow = Cow(ptes: map<nat, Mapping>, sd: map<nat, Frame>, nodes: seq<CowNode>, mem: map<nat, Frame>)

  // ---------- Looking things up ----------

  /** The first node of the list whose frame is f, from position i on. */
  function NodeOf(nodes: seq<CowNode>, f: nat, i: nat): (r: nat)
    requires i <= |nodes|
    ensures i <= r <= |nodes|
    ensures r < |nodes| ==> nodes[r].kva == f && nodes[r].status != Evicted
    ensures forall j :: i <= j < r ==> nodes[j].kva != f || nodes[j].status == Evicted
    decreases |nodes| - i
  {
    if i == |nodes| || (nodes[i].kva == f && nodes[i].status != Evicted) then i else NodeOf(nodes, f, i + 1)
  }

  predicate Known(s: Cow, v: nat) { v in s.ptes || v in s.sd }

  ghost function Above(used: set<nat>, v: nat): set<nat> {
    set u | u in used && u >= v
  }

  lemma AboveShrinks(used: set<nat>, v: nat)
    requires v in used
    ensures |Above(used, v + 1)| < |Above(used, v)|
  {
    assert Above(used, v) == Above(used, v + 1) + {v};
  }

  /** The first page from v on that is neither in memory nor in the SD card. */
  function Probe(used: set<nat>, v: nat): (w: nat)
    ensures w >= v && w !in used && forall u :: v <= u < w ==> u in used
    decreases |Above(used, v)|
  {
    if v !in used then v else
    AboveShrinks(used, v);
    Probe(used, v + 1)
  }

  function Used(s: Cow): set<nat> { s.ptes.Keys + s.sd.Keys }

  /** The pages present in memory whose entry names frame f. */
  ghost function Sharers(ptes: map<nat, Mapping>, f: nat): set<nat> {
    set v | v in ptes && ptes[v].frame == f
  }

  function Content(s: Cow, v: nat): Option<Frame> {
    if v in s.ptes && s.ptes[v].frame in s.mem then Some(s.mem[s.ptes[v].frame])
    else if v in s.sd then Some(s.sd[v])
    else None
  }

  // ---------- Steps ----------

  datatype Event =
    | Touch(v: nat, f: nat)                       // a fault on a new page, given frame f
    | Snapshot(v: nat)
    | StoreFault(v: nat, f: nat)                  // on a present page without write permission; f is the frame a copy gets
    | UserStore(v: nat, k: nat, w: Pte)               // a user store to a writable page
    | Evict(v: nat)                               // the page, recorded in its node, is swapped out
    | Return(v: nat, i: nat, f: nat)              // and back in, its node at position i
    | Table(f: nat)                               // a spare frame becomes a page table

  /** Frame f exists and belongs to nobody. */
  predicate Spare(s: Cow, f: nat) {
    && f in s.mem && (forall i :: 0 <= i < |s.nodes| && s.nodes[i].status != Evicted ==> s.nodes[i].kva != f)
    && (forall v :: v in s.ptes ==> s.ptes[v].frame != f)
  }

  function Index(s: Cow, v: nat): nat
    requires v in s.ptes
  {
    NodeOf(s.nodes, s.ptes[v].frame, 0)
  }

  predicate Enabled(s: Cow, e: Event) {
    match e
    case Touch(v, f) => !Known(s, v) && Spare(s, f)
    case Snapshot(v) => v in s.ptes && Index(s, v) < |s.nodes|
    case StoreFault(v, f) => v in s.ptes && !s.ptes[v].write && Index(s, v) < |s.nodes| && Spare(s, f)
    case UserStore(v, k, _) => v in s.ptes && s.ptes[v].write && s.ptes[v].frame in s.mem && k < ENTRIES
    case Evict(v) =>
      && v in s.ptes && Index(s, v) < |s.nodes| && s.nodes[Index(s, v)].status == Plain && s.nodes[Index(s, v)].page == v
      && s.ptes[v].frame in s.mem
    case Return(v, i, f) =>
      v in s.sd && i < |s.nodes| && s.nodes[i].status == Evicted && s.nodes[i].page == v && Spare(s, f)
    case Table(f) => Spare(s, f)
  }

  /** The exclusive or of clean_attribute on the write permission. */
  function Flip(m: Mapping): Mapping { m.(write := !m.write) }

  /** The page a snapshot of v appears at. */
  function SnapshotPage(s: Cow, v: nat): nat {
    Probe(Used(s), v + 1)
  }

  function SnapshotStep(s: Cow, v: nat): Cow
    requires Enabled(s, Snapshot(v))
  {
    var i, w := Index(s, v), SnapshotPage(s, v);
    if s.nodes[i].status != Shared then
      s.(ptes := s.ptes[v := Flip(s.ptes[v])][w := Flip(Mapping(s.nodes[i].kva, true))],
         nodes := s.nodes[i := s.nodes[i].(status := Shared, readers := 2)])
    else
      s.(ptes := s.ptes[w := Flip(Mapping(s.nodes[i].kva, true))],
         nodes := s.nodes[i := s.nodes[i].(readers := s.nodes[i].readers + 1)])
  }

  function StoreFaultStep(s: Cow, v: nat, f: nat): Cow
    requires Enabled(s, StoreFault(v, f))
  {
    var i := Index(s, v);
    if s.nodes[i].readers == 1 then
      s.(ptes := s.ptes[v := s.ptes[v].(write := true)],
         nodes := s.nodes[i := s.nodes[i].(readers := 0, status := Plain)])
    else
      // The copy that follows reads and writes the old frame: the new one keeps its bytes.
      s.(ptes := s.ptes[v := Mapping(f, true)],
         nodes := s.nodes[i := s.nodes[i].(readers := s.nodes[i].readers - 1)] + [CowNode(Plain, f, 0, 0)])
  }

  /** swap_to_sd of node i: the entry of the page recorded in the node is looked up,
      and the kernel stops if that page is not in memory; the frame that entry names
      is saved and cleared, and the node is marked as swapped. */
  function SwapOutNode(s: Cow, i: nat): Option<Cow>
    requires i < |s.nodes|
  {
    var v := s.nodes[i].page;
    if v !in s.ptes || s.ptes[v].frame !in s.mem then None else
    var f := s.ptes[v].frame;
    Some(s.(ptes := s.ptes - {v}, sd := s.sd[v := s.mem[f]], mem := s.mem[f := ZeroFrame()],
            nodes := s.nodes[i := s.nodes[i].(status := Evicted, kva := 0)]))
  }

  function Step(s: Cow, e: Event): Cow
    requires Enabled(s, e)
  {
    match e
    case Touch(v, f) => s.(ptes := s.ptes[v := Mapping(f, true)], nodes := s.nodes + [CowNode(Plain, f, 0, v)])
    case Snapshot(v) => SnapshotStep(s, v)
    case StoreFault(v, f) => StoreFaultStep(s, v, f)
    case UserStore(v, k, w) => s.(mem := s.mem[s.ptes[v].frame := s.mem[s.ptes[v].frame][k := w]])
    case Evict(v) => SwapOutNode(s, Index(s, v)).value
    case Return(v, i, f) =>
      s.(ptes := s.ptes[v := Mapping(f, true)], sd := s.sd - {v}, mem := s.mem[f := s.sd[v]],
         nodes := s.nodes[i := s.nodes[i].(status := Plain, kva := f)])
    case Table(f) => s.(mem := s.mem - {f}, nodes := s.nodes + [CowNode(Pinned, f, 0, 0)])
  }

  // ---------- What every step keeps ----------

  /** A shared frame has as many readers as present entries naming it, none of
      them writable; any other frame has one entry at most, a writable one, and
      exactly one if it may be swapped. */
  ghost predicate Counted(ptes: map<nat, Mapping>, n: CowNode) {
    && (n.status == Shared ==>
          && n.readers == |Sharers(ptes, n.kva)| >= 1
          && forall v :: v in Sharers(ptes, n.kva) ==> !ptes[v].write)
    && (n.status == Plain || n.status == Pinned ==>
          && forall v, w :: v in Sharers(ptes, n.kva) && w in Sharers(ptes, n.kva) ==> v == w && ptes[v].write)
    && (n.status == Plain ==> Sharers(ptes, n.kva) != {})
  }

  ghost predicate Distinct(nodes: seq<CowNode>) {
    forall i, j :: 0 <= i < j < |nodes| && nodes[i].status != Evicted && nodes[j].status != Evicted ==> nodes[i].kva != nodes[j].kva
  }

  /** Every page in memory has a resident node for its frame. */
  ghost predicate Homed(s: Cow) {
    forall v :: v in s.ptes ==> NodeOf(s.nodes, s.ptes[v].frame, 0) < |s.nodes| && s.ptes[v].frame in s.mem && v !in s.sd
  }

  ghost predicate Inv(s: Cow) {
    Distinct(s.nodes) && Homed(s) && forall i :: 0 <= i < |s.nodes| ==> Counted(s.ptes, s.nodes[i])
  }

  /** A resident node with frame f is enough to be found. */
  lemma Found(nodes: seq<CowNode>, f: nat, i: nat)
    requires i < |nodes| && nodes[i].kva == f && nodes[i].status != Evicted
    ensures NodeOf(nodes, f, 0) < |nodes|
  {
  }

  /** A change of one node that keeps its frame, or an added node, loses no frame. */
  lemma FoundStill(nodes: seq<CowNode>, i: nat, n: CowNode, more: seq<CowNode>, f: nat)
    requires i < |nodes| && NodeOf(nodes, f, 0) < |nodes| && n.status != Evicted && (nodes[i].status != Evicted ==> n.kva == nodes[i].kva)
    ensures NodeOf(nodes[i := n] + more, f, 0) < |nodes| + |more|
  {
    Found(nodes[i := n] + more, f, NodeOf(nodes, f, 0));
  }

  lemma SharersPut(ptes: map<nat, Mapping>, v: nat, m: Mapping, f: nat)
    ensures Sharers(ptes[v := m], f) == if m.frame == f then Sharers(ptes, f) + {v} else Sharers(ptes, f) - {v}
  {
  }

  lemma SharersDrop(ptes: map<nat, Mapping>, v: nat, f: nat)
    ensures Sharers(ptes - {v}, f) == Sharers(ptes, f) - {v}
  {
  }

  /** A page present in memory: its node, the frame, and what the count says. */
  lemma PageNode(s: Cow, v: nat) returns (i: nat)
    requires Inv(s) && v in s.ptes
    ensures i == Index(s, v) < |s.nodes| && s.nodes[i].kva == s.ptes[v].frame && s.nodes[i].status != Evicted
    ensures Counted(s.ptes, s.nodes[i]) && v in Sharers(s.ptes, s.nodes[i].kva)
    ensures s.ptes[v].write <==> s.nodes[i].status != Shared
  {
    i := Index(s, v);
    assert Counted(s.ptes, s.nodes[i]);
  }

  /** An entry of another frame, added, changed or dropped, does not count. */
  lemma OtherFrame(ptes: map<nat, Mapping>, v: nat, m: Mapping, n: CowNode)
    requires Counted(ptes, n) && (v in ptes ==> ptes[v].frame != n.kva)
    ensures m.frame != n.kva ==> Counted(ptes[v := m], n)
    ensures Counted(ptes - {v}, n)
  {
    SharersPut(ptes, v, m, n.kva);
    SharersDrop(ptes, v, n.kva);
    assert v !in Sharers(ptes, n.kva);
  }

  lemma SoleSharer(ptes: map<nat, Mapping>, v: nat, n: CowNode)
    requires Counted(ptes, n) && (n.status == Plain || n.status == Pinned) && v in Sharers(ptes, n.kva)
    ensures Sharers(ptes, n.kva) == {v} && ptes[v].write
  {
  }

  /** The first snapshot of a page: two entries, both read-only. */
  lemma FirstShare(ptes: map<nat, Mapping>, v: nat, w: nat, n: CowNode)
    requires Counted(ptes, n) && (n.status == Plain || n.status == Pinned) && v in Sharers(ptes, n.kva) && w !in ptes
    ensures Counted(ptes[v := Flip(ptes[v])][w := Flip(Mapping(n.kva, true))], n.(status := Shared, readers := 2))
  {
    SoleSharer(ptes, v, n);
    var a := ptes[v := Flip(ptes[v])];
    SharersPut(ptes, v, Flip(ptes[v]), n.kva);
    SharersPut(a, w, Flip(Mapping(n.kva, true)), n.kva);
    assert Sharers(a[w := Flip(Mapping(n.kva, true))], n.kva) == {v, w};
  }

  /** A further snapshot: one more read-only entry, one more reader. */
  lemma NextShare(ptes: map<nat, Mapping>, w: nat, n: CowNode)
    requires Counted(ptes, n) && n.status == Shared && w !in ptes
    ensures Counted(ptes[w := Flip(Mapping(n.kva, true))], n.(readers := n.readers + 1))
  {
    SharersPut(ptes, w, Flip(Mapping(n.kva, true)), n.kva);
    assert w !in Sharers(ptes, n.kva);
  }

  /** The last reader takes the frame for itself. */
  lemma LastReader(ptes: map<nat, Mapping>, v: nat, n: CowNode)
    requires Counted(ptes, n) && n.status == Shared && n.readers == 1 && v in Sharers(ptes, n.kva)
    ensures Counted(ptes[v := ptes[v].(write := true)], n.(readers := 0, status := Plain))
  {
    SharersPut(ptes, v, ptes[v].(write := true), n.kva);
    OnlyMember(Sharers(ptes, n.kva), v);
  }

  lemma OnlyMember(a: set<nat>, v: nat)
    requires |a| == 1 && v in a
    ensures a == {v}
  {
    assert |a - {v}| == 0;
    assert a == (a - {v}) + {v};
  }

  /** One of several readers leaves. */
  lemma ReaderLeaves(ptes: map<nat, Mapping>, v: nat, m: Mapping, n: CowNode)
    requires Counted(ptes, n) && n.status == Shared && n.readers != 1 && v in Sharers(ptes, n.kva) && m.frame != n.kva
    ensures Counted(ptes[v := m], n.(readers := n.readers - 1))
  {
    SharersPut(ptes, v, m, n.kva);
  }

  /** A spare frame given to a page has that page as its only, writable, entry. */
  lemma FreshCounted(ptes: map<nat, Mapping>, v: nat, n: CowNode)
    requires n.status == Plain && forall u :: u in ptes ==> ptes[u].frame != n.kva
    ensures Counted(ptes[v := Mapping(n.kva, true)], n)
  {
    SharersPut(ptes, v, Mapping(n.kva, true), n.kva);
    assert Sharers(ptes, n.kva) == {};
  }

  lemma OtherNode(s: Cow, i: nat, j: nat)
    requires Inv(s) && i < |s.nodes| && j < |s.nodes| && i != j && s.nodes[i].status != Evicted && s.nodes[j].status != Evicted
    ensures s.nodes[i].kva != s.nodes[j].kva
  {
  }

  lemma SnapshotCounted(s: Cow, v: nat, j: nat)
    requires Inv(s) && Enabled(s, Snapshot(v)) && j < |s.nodes|
    ensures |SnapshotStep(s, v).nodes| == |s.nodes| && Counted(SnapshotStep(s, v).ptes, SnapshotStep(s, v).nodes[j])
  {
    var i := PageNode(s, v);
    var n := s.nodes[i];
    var w := SnapshotPage(s, v);
    var m := Flip(Mapping(n.kva, true));
    assert w !in s.ptes && w != v && Counted(s.ptes, s.nodes[j]);
    hide Counted, Probe, NodeOf, Sharers;
    if j != i && s.nodes[j].status != Evicted {
      OtherNode(s, i, j);
      OtherFrame(s.ptes, v, Flip(s.ptes[v]), s.nodes[j]);
      OtherFrame(s.ptes, w, m, s.nodes[j]);
      OtherFrame(s.ptes[v := Flip(s.ptes[v])], w, m, s.nodes[j]);
    } else if j == i {
      if n.status != Shared { FirstShare(s.ptes, v, w, n); } else { NextShare(s.ptes, w, n); }
    } else {
      EvictedCounted(SnapshotStep(s, v).ptes, s.nodes[j]);
    }
  }

  lemma EvictedCounted(ptes: map<nat, Mapping>, n: CowNode)
    requires n.status == Evicted
    ensures Counted(ptes, n)
  {
  }

  lemma SnapshotHomed(s: Cow, v: nat)
    requires Inv(s) && Enabled(s, Snapshot(v))
    ensures Homed(SnapshotStep(s, v))
  {
    hide Counted, Probe, NodeOf, Distinct;
    var t := SnapshotStep(s, v);
    var i := PageNode(s, v);
    assert t.nodes == s.nodes[i := t.nodes[i]] + [];
    forall u | u in t.ptes ensures NodeOf(t.nodes, t.ptes[u].frame, 0) < |t.nodes| && t.ptes[u].frame in t.mem && u !in t.sd {
      assert t.ptes[u].frame == s.ptes[if u in s.ptes then u else v].frame;
      FoundStill(s.nodes, i, t.nodes[i], [], t.ptes[u].frame);
    }
  }

  lemma DistinctChange(nodes: seq<CowNode>, i: nat, n: CowNode, more: seq<CowNode>)
    requires Distinct(nodes) && i < |nodes| && nodes[i].status != Evicted && n.kva == nodes[i].kva
    requires |more| <= 1 && (forall j :: 0 <= j < |nodes| && |more| == 1 && nodes[j].status != Evicted ==> nodes[j].kva != more[0].kva)
    ensures Distinct(nodes[i := n] + more)
  {
  }

  lemma SnapshotInv(s: Cow, v: nat)
    requires Inv(s) && Enabled(s, Snapshot(v))
    ensures Inv(SnapshotStep(s, v))
  {
    hide Counted, Probe, NodeOf, Homed, Distinct;
    var t := SnapshotStep(s, v);
    var i := PageNode(s, v);
    forall j | 0 <= j < |t.nodes| ensures Counted(t.ptes, t.nodes[j]) {
      SnapshotCounted(s, v, j);
    }
    SnapshotHomed(s, v);
    DistinctChange(s.nodes, i, t.nodes[i], []);
    assert t.nodes == s.nodes[i := t.nodes[i]] + [];
  }

  lemma StoreFaultCounted(s: Cow, v: nat, f: nat, j: nat)
    requires Inv(s) && Enabled(s, StoreFault(v, f)) && j < |StoreFaultStep(s, v, f).nodes|
    ensures Counted(StoreFaultStep(s, v, f).ptes, StoreFaultStep(s, v, f).nodes[j])
  {
    var i := PageNode(s, v);
    var n := s.nodes[i];
    var t := StoreFaultStep(s, v, f);
    assert forall k :: 0 <= k < |s.nodes| ==> Counted(s.ptes, s.nodes[k]);
    assert n.kva != f && t.nodes[j].status != Evicted ==> j == i || j == |s.nodes| || t.nodes[j] == s.nodes[j];
    hide Counted, NodeOf, Sharers;
    if t.nodes[j].status == Evicted {
      EvictedCounted(t.ptes, t.nodes[j]);
    } else if n.readers == 1 {
      if j == i { LastReader(s.ptes, v, n); } else { OtherNode(s, i, j); OtherFrame(s.ptes, v, s.ptes[v].(write := true), s.nodes[j]); }
    } else if j == |s.nodes| {
      FreshCounted(s.ptes, v, t.nodes[j]);
    } else if j == i {
      ReaderLeaves(s.ptes, v, Mapping(f, true), n);
    } else {
      OtherNode(s, i, j);
      OtherFrame(s.ptes, v, Mapping(f, true), s.nodes[j]);
    }
  }

  lemma StoreFaultHomed(s: Cow, v: nat, f: nat)
    requires Inv(s) && Enabled(s, StoreFault(v, f))
    ensures Homed(StoreFaultStep(s, v, f))
  {
    hide Counted, NodeOf, Distinct;
    var t := StoreFaultStep(s, v, f);
    var i := PageNode(s, v);
    var more := t.nodes[|s.nodes|..];
    assert t.nodes == s.nodes[i := t.nodes[i]] + more;
    forall u | u in t.ptes ensures NodeOf(t.nodes, t.ptes[u].frame, 0) < |t.nodes| && t.ptes[u].frame in t.mem && u !in t.sd {
      if u == v && |more| > 0 {
        Found(t.nodes, f, |s.nodes|);
      } else {
        FoundStill(s.nodes, i, t.nodes[i], more, t.ptes[u].frame);
      }
    }
  }

  lemma StoreFaultInv(s: Cow, v: nat, f: nat)
    requires Inv(s) && Enabled(s, StoreFault(v, f))
    ensures Inv(StoreFaultStep(s, v, f))
  {
    hide Counted, NodeOf, Distinct, Homed;
    var t := StoreFaultStep(s, v, f);
    var i := PageNode(s, v);
    forall j | 0 <= j < |t.nodes| ensures Counted(t.ptes, t.nodes[j]) {
      StoreFaultCounted(s, v, f, j);
    }
    StoreFaultHomed(s, v, f);
    var more := t.nodes[|s.nodes|..];
    assert t.nodes == s.nodes[i := t.nodes[i]] + more;
    DistinctChange(s.nodes, i, t.nodes[i], more);
  }

  lemma TouchInv(s: Cow, v: nat, f: nat)
    requires Inv(s) && Enabled(s, Touch(v, f))
    ensures Inv(Step(s, Touch(v, f)))
  {
    hide Counted, NodeOf;
    var t := Step(s, Touch(v, f));
    forall j | 0 <= j < |t.nodes| ensures Counted(t.ptes, t.nodes[j]) {
      if j == |s.nodes| {
        FreshCounted(s.ptes, v, t.nodes[j]);
      } else if s.nodes[j].status == Evicted {
        EvictedCounted(t.ptes, s.nodes[j]);
      } else {
        OtherFrame(s.ptes, v, Mapping(f, true), s.nodes[j]);
      }
    }
    forall u | u in t.ptes ensures NodeOf(t.nodes, t.ptes[u].frame, 0) < |t.nodes| {
      Found(t.nodes, t.ptes[u].frame, if u == v then |s.nodes| else FoundAt(s, u));
    }
  }

  lemma TableInv(s: Cow, f: nat)
    requires Inv(s) && Enabled(s, Table(f))
    ensures Inv(Step(s, Table(f)))
  {
    hide NodeOf;
    var t := Step(s, Table(f));
    assert Sharers(t.ptes, f) == {};
    assert forall j :: 0 <= j < |s.nodes| ==> Counted(s.ptes, s.nodes[j]);
    forall u | u in t.ptes ensures NodeOf(t.nodes, t.ptes[u].frame, 0) < |t.nodes| {
      Found(t.nodes, t.ptes[u].frame, FoundAt(s, u));
    }
  }

  function FoundAt(s: Cow, u: nat): (i: nat)
    requires u in s.ptes && NodeOf(s.nodes, s.ptes[u].frame, 0) < |s.nodes|
    ensures i < |s.nodes| && s.nodes[i].kva == s.ptes[u].frame && s.nodes[i].status != Evicted
  {
    NodeOf(s.nodes, s.ptes[u].frame, 0)
  }

  lemma DistinctEvicted(nodes: seq<CowNode>, i: nat, n: CowNode)
    requires Distinct(nodes) && i < |nodes| && n.status == Evicted
    ensures Distinct(nodes[i := n])
  {
  }

  /** The frame of a page about to be swapped out is that page's alone. */
  lemma EvictedAlone(s: Cow, v: nat, u: nat)
    requires Inv(s) && Enabled(s, Evict(v)) && u in s.ptes && u != v
    ensures s.ptes[u].frame != s.ptes[v].frame
  {
    hide NodeOf;
    var i := PageNode(s, v);
    SoleSharer(s.ptes, v, s.nodes[i]);
    assert u !in Sharers(s.ptes, s.nodes[i].kva);
  }

  /** The node of a frame is the only resident one with that frame. */
  lemma NodeUnique(s: Cow, i: nat, v: nat)
    requires Inv(s) && i < |s.nodes| && s.nodes[i].status != Evicted && v in s.ptes && s.ptes[v].frame == s.nodes[i].kva
    ensures Index(s, v) == i
  {
  }

  lemma EvictHomed(s: Cow, v: nat)
    requires Inv(s) && Enabled(s, Evict(v))
    ensures Homed(Step(s, Evict(v)))
  {
    hide Counted, NodeOf, Sharers, Distinct;
    var t := Step(s, Evict(v));
    var i := PageNode(s, v);
    forall u | u in t.ptes ensures NodeOf(t.nodes, t.ptes[u].frame, 0) < |t.nodes| && t.ptes[u].frame in t.mem && u !in t.sd {
      EvictedAlone(s, v, u);
      Found(t.nodes, t.ptes[u].frame, FoundAt(s, u));
    }
  }

  lemma EvictInv(s: Cow, v: nat)
    requires Inv(s) && Enabled(s, Evict(v))
    ensures Inv(Step(s, Evict(v)))
  {
    hide Counted, NodeOf, Sharers, Distinct, Homed;
    var t := Step(s, Evict(v));
    var i := PageNode(s, v);
    DistinctEvicted(s.nodes, i, t.nodes[i]);
    EvictHomed(s, v);
    forall j | 0 <= j < |t.nodes| ensures Counted(t.ptes, t.nodes[j]) {
      if t.nodes[j].status == Evicted {
        EvictedCounted(t.ptes, t.nodes[j]);
      } else {
        OtherNode(s, i, j);
        OtherFrame(s.ptes, v, s.ptes[v], s.nodes[j]);
      }
    }
  }

  lemma ReturnInv(s: Cow, v: nat, i: nat, f: nat)
    requires Inv(s) && Enabled(s, Return(v, i, f))
    ensures Inv(Step(s, Return(v, i, f)))
  {
    hide Counted, NodeOf;
    var t := Step(s, Return(v, i, f));
    assert v !in s.ptes;
    forall j | 0 <= j < |t.nodes| ensures Counted(t.ptes, t.nodes[j]) {
      if j == i {
        FreshCounted(s.ptes, v, t.nodes[i]);
      } else if t.nodes[j].status == Evicted {
        EvictedCounted(t.ptes, t.nodes[j]);
      } else {
        OtherFrame(s.ptes, v, Mapping(f, true), s.nodes[j]);
      }
    }
    forall u | u in t.ptes ensures NodeOf(t.nodes, t.ptes[u].frame, 0) < |t.nodes| {
      Found(t.nodes, t.ptes[u].frame, if u == v then i else FoundAt(s, u));
    }
  }

  /** Swapping out a node that may be swapped goes through, and keeps all this,
      exactly if the page recorded in it is the page its frame belongs to. */
  lemma SwapSoundIff(s: Cow, i: nat)
    requires Inv(s) && i < |s.nodes| && s.nodes[i].status == Plain
    ensures
      var t := SwapOutNode(s, i);
      t.Some? && Inv(t.value) <==> s.nodes[i].page in s.ptes && s.ptes[s.nodes[i].page].frame == s.nodes[i].kva
  {
    var v, f := s.nodes[i].page, s.nodes[i].kva;
    assert Counted(s.ptes, s.nodes[i]);
    if v in s.ptes && s.ptes[v].frame == f {
      NodeUnique(s, i, v);
      hide Inv, Counted, NodeOf;
      FrameThere(s, v);
      EvictInv(s, v);
    } else if v in s.ptes {
      var u :| u in Sharers(s.ptes, f);
      FrameThere(s, v);
      var t := SwapOutNode(s, i).value;
      assert u in t.ptes && t.ptes[u].frame == f;
      hide Counted;
      FrameLost(s, t, i, f);
    }
  }

  lemma FrameThere(s: Cow, v: nat)
    requires Inv(s) && v in s.ptes
    ensures s.ptes[v].frame in s.mem
  {
  }

  lemma FrameLost(s: Cow, t: Cow, i: nat, f: nat)
    requires Distinct(s.nodes) && i < |s.nodes| && s.nodes[i].status != Evicted && s.nodes[i].kva == f
    requires |t.nodes| == |s.nodes| && t.nodes == s.nodes[i := t.nodes[i]] && t.nodes[i].status == Evicted
    ensures NodeOf(t.nodes, f, 0) == |t.nodes|
  {
  }

  /** A page that leaves sharing by a store fault can be swapped soundly afterwards
      exactly if, as the last reader, it is the page its frame was made for; or, as
      the owner of a new frame, it is page 0, which the unfilled record names. */
  lemma LeftSharing(s: Cow, v: nat, f: nat)
    requires Inv(s) && Enabled(s, StoreFault(v, f))
    ensures
      var t := Step(s, StoreFault(v, f));
      var n := s.nodes[Index(s, v)];
      && v in t.ptes && Index(t, v) < |t.nodes| && t.nodes[Index(t, v)].status == Plain
      && var u := SwapOutNode(t, Index(t, v));
      u.Some? && Inv(u.value) <==> if n.readers == 1 then n.page == v else v == 0
  {
    StoreFaultInv(s, v, f);
    var t := Step(s, StoreFault(v, f));
    var i := PageNode(s, v);
    var j := PageNode(t, v);
    assert j == if s.nodes[i].readers == 1 then i else |s.nodes| by { AfterFault(s, v, f, i); }
    hide NodeOf, Counted;
    SwapSoundIff(t, j);
    SoleSharer(t.ptes, v, t.nodes[j]);
    if t.nodes[j].page in t.ptes && t.ptes[t.nodes[j].page].frame == t.nodes[j].kva {
      assert t.nodes[j].page in Sharers(t.ptes, t.nodes[j].kva);
    }
  }

  lemma AfterFault(s: Cow, v: nat, f: nat, i: nat)
    requires Inv(s) && Enabled(s, StoreFault(v, f)) && i == Index(s, v)
    ensures
      var t := Step(s, StoreFault(v, f));
      v in t.ptes && Index(t, v) == if s.nodes[i].readers == 1 then i else |s.nodes|
  {
    StoreFaultInv(s, v, f);
    var t := Step(s, StoreFault(v, f));
    NodeUnique(t, if s.nodes[i].readers == 1 then i else |s.nodes|, v);
  }

  lemma StepInv(s: Cow, e: Event)
    requires Inv(s) && Enabled(s, e)
    ensures Inv(Step(s, e))
  {
    hide Counted, NodeOf, Probe, SnapshotStep, StoreFaultStep, Spare;
    match e
    case Touch(v, f) => TouchInv(s, v, f);
    case Snapshot(v) => SnapshotInv(s, v);
    case StoreFault(v, f) => StoreFaultInv(s, v, f);
    case UserStore(v, k, w) =>
    case Evict(v) => EvictInv(s, v);
    case Return(v, i, f) => ReturnInv(s, v, i, f);
    case Table(f) => TableInv(s, f);
  }

  // ---------- Runs ----------

  /** The state after a run, if every event could happen. */
  function Run(s: Cow, es: seq<Event>): Option<Cow> {
    if es == [] then Some(s) else
    var r := Run(s, es[..|es| - 1]);
    if r.Some? && Enabled(r.value, es[|es| - 1]) then Some(Step(r.value, es[|es| - 1])) else None
  }

  /** Over any sequence of snapshots, faults, stores and swaps, every reader count
      is the number of present read-only entries naming the frame, and no entry
      naming a shared frame is writable. */
  lemma {:induction false} RunInv(s: Cow, es: seq<Event>)
    requires Inv(s) && Run(s, es).Some?
    ensures Inv(Run(s, es).value)
  {
    if es != [] {
      RunInv(s, es[..|es| - 1]);
      StepInv(Run(s, es[..|es| - 1]).value, es[|es| - 1]);
    }
  }

  /** In every reachable state a page is writable exactly if its frame is not
      shared, so the exclusive or of a snapshot clears the permission it flips. */
  lemma FlipIsClear(s: Cow, v: nat)
    requires Inv(s) && v in s.ptes
    ensures s.ptes[v].write <==> s.nodes[Index(s, v)].status != Shared
    ensures s.nodes[Index(s, v)].status != Shared ==> Flip(s.ptes[v]) == s.ptes[v].(write := false)
  {
    var i := PageNode(s, v);
  }

  /** A store to a writable page is seen by that page alone. */
  lemma StorePrivate(s: Cow, v: nat, k: nat, w: Pte, u: nat)
    requires Inv(s) && Enabled(s, UserStore(v, k, w)) && Known(s, u)
    ensures Content(s, v).Some?
    ensures Content(Step(s, UserStore(v, k, w)), u) == if u == v then Some(Content(s, v).value[k := w]) else Content(s, u)
  {
    var i := PageNode(s, v);
    SoleSharer(s.ptes, v, s.nodes[i]);
    if u in s.ptes && u != v {
      assert u !in Sharers(s.ptes, s.nodes[i].kva);
    }
  }

  /** Page w is the first after v that is neither in memory nor in the SD card. */
  predicate FirstFree(s: Cow, v: nat, w: nat) {
    v < w && !Known(s, w) && forall u :: v < u < w ==> Known(s, u)
  }

  /** A snapshot appears at the first free page after it, shows what the page shows,
      and changes no page. */
  lemma SnapshotShows(s: Cow, v: nat, u: nat)
    requires Inv(s) && Enabled(s, Snapshot(v)) && Known(s, u)
    ensures FirstFree(s, v, SnapshotPage(s, v))
    ensures Content(Step(s, Snapshot(v)), SnapshotPage(s, v)) == Content(s, v)
    ensures Content(Step(s, Snapshot(v)), u) == Content(s, u)
  {
    hide NodeOf, Counted, Probe;
    var i := PageNode(s, v);
  }

  /** What one page shows after a step: its own store changes it; a store fault
      that leaves a shared frame makes it what the new frame held; nothing else
      changes a page that is there, in memory or in the SD card. */
  function Shows(s: Cow, e: Event, u: nat): Option<Frame>
    requires Enabled(s, e)
  {
    match e
    case UserStore(v, k, w) => if u == v then Some(s.mem[s.ptes[v].frame][k := w]) else Content(s, u)
    case StoreFault(v, f) => if u == v && s.nodes[Index(s, v)].readers != 1 then Some(s.mem[f]) else Content(s, u)
    case _ => Content(s, u)
  }

  lemma StepShows(s: Cow, e: Event, u: nat)
    requires Inv(s) && Enabled(s, e) && Known(s, u)
    ensures Content(Step(s, e), u) == Shows(s, e, u) && Known(Step(s, e), u)
  {
    hide NodeOf, Probe;
    match e
    case Touch(v, f) =>
    case Snapshot(v) => SnapshotShows(s, v, u);
    case StoreFault(v, f) =>
    case UserStore(v, k, w) => StorePrivate(s, v, k, w, u);
    case Evict(v) => EvictShows(s, v, u);
    case Return(v, i, f) =>
    case Table(f) =>
  }

  lemma EvictShows(s: Cow, v: nat, u: nat)
    requires Inv(s) && Enabled(s, Evict(v)) && Known(s, u)
    ensures Content(Step(s, Evict(v)), u) == Content(s, u) && Known(Step(s, Evict(v)), u)
  {
    hide NodeOf, Probe;
  }

  /** A page that a fault brought in, new or back from the SD card, records itself in
      its node, so it can be swapped out in its turn. */
  lemma BroughtEvictable(s: Cow, v: nat, i: nat, f: nat)
    requires Inv(s)
    ensures Enabled(s, Touch(v, f)) ==> Enabled(Step(s, Touch(v, f)), Evict(v))
    ensures Enabled(s, Return(v, i, f)) ==> Enabled(Step(s, Return(v, i, f)), Evict(v))
  {
    if Enabled(s, Touch(v, f)) {
      var t := Step(s, Touch(v, f));
      StepInv(s, Touch(v, f));
      NodeUnique(t, |s.nodes|, v);
    }
    if Enabled(s, Return(v, i, f)) {
      var t := Step(s, Return(v, i, f));
      StepInv(s, Return(v, i, f));
      NodeUnique(t, i, v);
    }
  }

  /** The frame of a page that is swapped out is cleared. */
  lemma EvictClears(s: Cow, v: nat)
    requires Enabled(s, Evict(v))
    ensures
      var f := s.ptes[v].frame;
      f in Step(s, Evict(v)).mem && Step(s, Evict(v)).mem[f] == ZeroFrame()
  {
    hide NodeOf;
  }

  /** The copy of copy-on-write copies the old frame onto itself. The page keeps
      its content exactly if it was the last reader, or if the frame it is given
      happens to hold that content already. */
  lemma CopyKept(s: Cow, v: nat, f: nat)
    requires Inv(s) && Enabled(s, StoreFault(v, f))
    ensures Content(Step(s, StoreFault(v, f)), v) == Content(s, v) <==>
            s.nodes[Index(s, v)].readers == 1 || s.mem[f] == s.mem[s.ptes[v].frame]
  {
    StepShows(s, StoreFault(v, f), v);
  }

  /** One page in memory, and a spare frame of zeros. */
  function OnePage(page: Frame): Cow {
    Cow(map[5 := Mapping(1, true)], map[], [CowNode(Plain, 1, 0, 5)], map[1 := page, 2 := ZeroFrame()])
  }

  lemma OnePageInv(page: Frame)
    ensures Inv(OnePage(page)) && Content(OnePage(page), 5) == Some(page) && Enabled(OnePage(page), Snapshot(5))
  {
    var s := OnePage(page);
    assert NodeOf(s.nodes, 1, 0) == 0;
    assert 5 in Sharers(s.ptes, 1);
  }

  lemma OnePageShared(page: Frame)
    requires Enabled(OnePage(page), Snapshot(5))
    ensures
      var t := SnapshotStep(OnePage(page), 5);
      Enabled(t, StoreFault(5, 2)) && Content(Step(t, StoreFault(5, 2)), 5) == Some(ZeroFrame())
  {
    var s := OnePage(page);
    assert NodeOf(s.nodes, 1, 0) == 0;
    var t := SnapshotStep(s, 5);
    assert t.nodes == [CowNode(Shared, 1, 2, 5)];
    assert SnapshotPage(s, 5) == 6;
    assert t.ptes == map[5 := Mapping(1, false), 6 := Mapping(1, false)];
    assert NodeOf(t.nodes, 1, 0) == 0;
  }

  /** So a snapshot followed by a store fault on it loses the content. */
  lemma CopyLost(page: Frame)
    ensures Inv(OnePage(page)) && Content(OnePage(page), 5) == Some(page)
    ensures
      var r := Run(OnePage(page), [Snapshot(5), StoreFault(5, 2)]);
      r.Some? && Content(r.value, 5) == Some(ZeroFrame())
  {
    OnePageInv(page);
    OnePageShared(page);
    hide Inv, NodeOf, OnePage, Content, SnapshotStep, StoreFaultStep, Enabled;
    var s := OnePage(page);
    var es := [Snapshot(5), StoreFault(5, 2)];
    assert es[..1] == [Snapshot(5)] && es[..1][..0] == [];
    assert Run(s, []) == Some(s);
    assert Run(s, es[..1]) == Some(SnapshotStep(s, 5));
  }

  // ---------- The calls ----------

  /** The process's entries, nodes and memory, as the calls rewrite them. */
  class CowSpace {
    var ptes: map<nat, Mapping>
    var sd: map<nat, Frame>
    var nodes: seq<CowNode>
    var mem: map<nat, Frame>

    function View(): Cow
      reads this
    {
      Cow(ptes, sd, nodes, mem)
    }

    /** The search of the page list by frame. */
    method FindNode(f: nat) returns (i: nat)
      ensures i == NodeOf(nodes, f, 0)
    {
      i := 0;
      while i != |nodes| && !(nodes[i].kva == f && nodes[i].status != Evicted)
        invariant 0 <= i <= |nodes| && NodeOf(nodes, f, 0) == NodeOf(nodes, f, i)
        decreases |nodes| - i
      {
        i := i + 1;
      }
    }

    /** The linear probe for a page that is not mapped. */
    method FindFree(v: nat) returns (w: nat)
      ensures w == Probe(Used(View()), v)
    {
      hide Above;
      w := v;
      while w in ptes || w in sd
        invariant Probe(Used(View()), v) == Probe(Used(View()), w)
        decreases |Above(Used(View()), w)|
      {
        AboveShrinks(Used(View()), w);
        w := w + 1;
      }
    }

    /** clean_attribute of the write permission. */
    method CleanWrite(v: nat)
      requires v in ptes
      modifies this`ptes
      ensures ptes == old(ptes)[v := Flip(old(ptes)[v])]
    {
      ptes := ptes[v := ptes[v].(write := !ptes[v].write)];
    }

    method DoSnapshot(v: nat) returns (w: nat)
      requires Enabled(View(), Snapshot(v))
      modifies this`ptes, this`nodes
      ensures FirstFree(old(View()), v, w)
      ensures w == SnapshotPage(old(View()), v) && View() == SnapshotStep(old(View()), v)
    {
      hide Probe, NodeOf;
      var f := ptes[v].frame;
      var i := FindNode(f);
      w := FindFree(v + 1);
      assert w !in Used(View());
      if nodes[i].status != Shared {
        CleanWrite(v);
        nodes := nodes[i := nodes[i].(status := Shared, readers := 1)];
        nodes := nodes[i := nodes[i].(readers := nodes[i].readers + 1)];
      } else {
        nodes := nodes[i := nodes[i].(readers := nodes[i].readers + 1)];
      }
      ptes := ptes[w := Mapping(nodes[i].kva, true)];
      CleanWrite(w);
    }

    /** A store fault on a page without write permission; f is the frame
        allocPagetable hands out. */
    method HandleStoreFault(v: nat, f: nat)
      requires Enabled(View(), StoreFault(v, f))
      modifies this
      ensures View() == StoreFaultStep(old(View()), v, f)
    {
      hide NodeOf, Spare;
      var i := FindNode(ptes[v].frame);
      if nodes[i].readers == 1 {
        nodes := nodes[i := nodes[i].(readers := 0)];
        ptes := ptes[v := ptes[v].(write := true)];
        nodes := nodes[i := nodes[i].(status := Plain)];
      } else {
        nodes := nodes[i := nodes[i].(readers := nodes[i].readers - 1)];
        ptes := ptes - {v};
        nodes := nodes + [CowNode(Plain, f, 0, 0)];
        ptes := ptes[v := Mapping(f, true)];
        // memcpy of the old frame onto itself.
        if nodes[i].kva in mem { mem := mem[nodes[i].kva := mem[nodes[i].kva]]; }
        assert mem == old(mem);
      }
    }
  }
}
