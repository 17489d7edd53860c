/** Several processes over one memory, one swap area and one sector counter: what
    one of them does, faults and swaps included, no other can see. */
module Processes {
  import opened Bytes
  import opened VirtualMemory

  datatype Move =
    | Act(who: nat, e: Event)                                      // a fault, a mapping or a store of one process
    | Spawn(kernel: set<nat>, table: Frame, upbound: nat)          // a new process, with a root table and a kernel stack

  /** Two processes see the same shared state. */
  ghost predicate Shared(o: Vm, s: Vm) {
    o.mem == s.mem && o.next == s.next && o.sd == s.sd && o.ids == s.ids
  }

  /** Each process is in order, all see the same memory, and no two own a frame in common. */
  ghost predicate Together(ps: seq<Vm>) {
    && (forall i :: 0 <= i < |ps| ==> VmInv(ps[i]))
    && (forall i, j :: 0 <= i < |ps| && 0 <= j < |ps| ==> Shared(ps[i], ps[j]))
    && (forall i, j :: 0 <= i < |ps| && 0 <= j < |ps| && i != j ==> Frames(ps[i].nodes) !! Frames(ps[j].nodes))
  }

  /** The state of a new process made beside s. */
  function NewBeside(s: Vm, kernel: set<nat>, table: Frame, upbound: nat): Vm
    requires s.next + 2 <= |s.mem|
  {
    NewSpace(s.mem, s.next, s.sd, s.ids, kernel, table, upbound)
  }

  ghost predicate Moves(ps: seq<Vm>, m: Move, qs: seq<Vm>) {
    match m
    case Act(who, e) =>
      && who < |ps| == |qs| && Steps(ps[who], e, qs[who])
      && forall j :: 0 <= j < |ps| && j != who ==> qs[j] == Elsewhere(ps[j], qs[who])
    case Spawn(kernel, table, upbound) =>
      && |ps| > 0 && |qs| == |ps| + 1 && ps[0].next + 2 <= |ps[0].mem| && ps[0].ids + 2 <= PAGE_NUM && upbound >= 2
      && (forall i :: 0 <= i < ENTRIES && i !in kernel ==> table[i] == ZERO)
      && qs[|ps|] == NewBeside(ps[0], kernel, table, upbound)
      && forall j :: 0 <= j < |ps| ==> qs[j] == Elsewhere(ps[j], qs[|ps|])
  }

  // ---------- One move ----------

  /** What a move does to a page of process j: its own stores, and nothing else. */
  function MoveEffect(c: Frame, m: Move, j: nat, x: Slot): Frame {
    if m.Act? && m.who == j then Effect(c, m.e, x) else c
  }

  ghost predicate IsPage(s: Vm, x: Slot) {
    User(s, x) && x.Leaf? && Content(s, x).Some?
  }

  /** From s to t a process made its step: every step confines itself. */
  lemma StepConfined(s: Vm, e: Event, t: Vm)
    requires Steps(s, e, t)
    ensures VmInv(t) && Confined(s, t) && t.next <= |t.mem| && t.root == s.root && t.kernel == s.kernel
  {
    hide Entry, AllocPage, Fault, StoreWord, Vpn0, Vpn1, Vpn2, Listed, Confined;
    match e
    case PageFault(va, junk) => FaultMaps(s, va, junk);
    case Map(va, status) => AllocPageMaps(s, va, status);
    case Store(y, k, w) => StoreKeeps(s, y, k, w);
  }

  lemma ActKeeps(ps: seq<Vm>, who: nat, e: Event, qs: seq<Vm>, j: nat, x: Slot)
    requires Together(ps) && Moves(ps, Act(who, e), qs) && j < |ps|
    ensures VmInv(qs[j]) && Shared(qs[j], qs[who]) && (j != who ==> Frames(qs[j].nodes) !! Frames(qs[who].nodes))
    ensures j != who ==> qs[j].nodes == ps[j].nodes
    ensures IsPage(ps[j], x) ==> User(qs[j], x) && Content(qs[j], x) == Some(MoveEffect(Content(ps[j], x).value, Act(who, e), j, x))
  {
    hide VmInv, Entry, Confined, Content, Steps, Frames, Effect;
    StepConfined(ps[who], e, qs[who]);
    if j == who {
      if IsPage(ps[j], x) { StepPage(ps[who], e, qs[who], x); }
    } else {
      assert Shared(ps[j], ps[who]);
      OthersKept(ps[who], qs[who], ps[j]);
      SameUser(ps[j], qs[j], x);
    }
  }

  lemma SameUser(s: Vm, t: Vm, x: Slot)
    requires t == Elsewhere(s, t)
    ensures User(t, x) <==> User(s, x)
  {
  }

  lemma SpawnConfined(s: Vm, kernel: set<nat>, table: Frame, upbound: nat)
    requires VmInv(s) && s.next + 2 <= |s.mem| && upbound >= 2
    requires forall i :: 0 <= i < ENTRIES && i !in kernel ==> table[i] == ZERO
    ensures
      var t := NewBeside(s, kernel, table, upbound);
      && VmInv(t) && t.next <= |t.mem| && Confined(s.(nodes := []), t) && Frames([]) == {}
  {
    NewSpaceInv(s.mem, s.next, s.sd, s.ids, kernel, table, upbound);
    hide VmInv, Entry;
    var t := NewBeside(s, kernel, table, upbound);
    assert t.nodes[0].kva == s.next && t.nodes[1].kva == s.next + 1;
  }

  lemma SpawnKeeps(ps: seq<Vm>, kernel: set<nat>, table: Frame, upbound: nat, qs: seq<Vm>, j: nat, x: Slot)
    requires Together(ps) && Moves(ps, Spawn(kernel, table, upbound), qs) && j < |ps|
    ensures VmInv(qs[j]) && Shared(qs[j], qs[|ps|]) && Frames(qs[j].nodes) !! Frames(qs[|ps|].nodes) && qs[j].nodes == ps[j].nodes
    ensures IsPage(ps[j], x) ==> User(qs[j], x) && Content(qs[j], x) == Content(ps[j], x)
  {
    hide VmInv, Entry, Confined, Content, Frames, NewSpace;
    SpawnConfined(ps[0], kernel, table, upbound);
    assert Shared(ps[j], ps[0]);
    OthersKept(ps[0].(nodes := []), qs[|ps|], ps[j]);
    SameUser(ps[j], qs[j], x);
  }

  /** Any move keeps all processes in order and apart ... */
  lemma MoveTogether(ps: seq<Vm>, m: Move, qs: seq<Vm>)
    requires Together(ps) && Moves(ps, m, qs)
    ensures Together(qs)
  {
    hide VmInv, Steps, Frames, NewSpace, IsPage;
    match m
    case Act(who, e) =>
      forall j | 0 <= j < |ps|
        ensures VmInv(qs[j]) && Shared(qs[j], qs[who]) && (j != who ==> Frames(qs[j].nodes) !! Frames(qs[who].nodes) && qs[j].nodes == ps[j].nodes)
      {
        ActKeeps(ps, who, e, qs, j, Top(0));
      }
    case Spawn(kernel, table, upbound) =>
      SpawnConfined(ps[0], kernel, table, upbound);
      forall j | 0 <= j < |ps|
        ensures VmInv(qs[j]) && Shared(qs[j], qs[|ps|]) && Frames(qs[j].nodes) !! Frames(qs[|ps|].nodes) && qs[j].nodes == ps[j].nodes
      {
        SpawnKeeps(ps, kernel, table, upbound, qs, j, Top(0));
      }
  }

  /** ... and changes of a page that is there only what its own process stores. */
  lemma MovePage(ps: seq<Vm>, m: Move, qs: seq<Vm>, j: nat, x: Slot)
    requires Together(ps) && Moves(ps, m, qs) && j < |ps| && IsPage(ps[j], x)
    ensures j < |qs| && User(qs[j], x) && Content(qs[j], x) == Some(MoveEffect(Content(ps[j], x).value, m, j, x))
  {
    hide Together, Content, Steps, NewSpace, User;
    match m
    case Act(who, e) => ActKeeps(ps, who, e, qs, j, x);
    case Spawn(kernel, table, upbound) => SpawnKeeps(ps, kernel, table, upbound, qs, j, x);
  }

  // ---------- Runs ----------

  ghost predicate Life(pss: seq<seq<Vm>>, ms: seq<Move>) {
    |pss| == |ms| + 1 && forall i :: 0 <= i < |ms| ==> Moves(pss[i], ms[i], pss[i + 1])
  }

  /** The events of process j among the moves, in order. */
  function Own(ms: seq<Move>, j: nat): seq<Event> {
    if ms == [] then [] else
    var m := ms[|ms| - 1];
    Own(ms[..|ms| - 1], j) + if m.Act? && m.who == j then [m.e] else []
  }

  /** Over any run of any number of processes, with new ones starting, a page of
      one of them holds what it held with that process's own stores applied, however
      its faults and those of all the others have moved frames and sectors about. */
  lemma {:induction false} RunIsolated(pss: seq<seq<Vm>>, ms: seq<Move>, j: nat, x: Slot)
    requires Life(pss, ms) && Together(pss[0]) && j < |pss[0]| && IsPage(pss[0][j], x)
    ensures Together(pss[|ms|]) && j < |pss[|ms|]| && User(pss[|ms|][j], x)
    ensures Content(pss[|ms|][j], x) == Some(Replay(Content(pss[0][j], x).value, Own(ms, j), x))
  {
    hide Together, Moves, Content, Effect, User;
    if ms != [] {
      var n := |ms| - 1;
      RunIsolated(pss[..n + 1], ms[..n], j, x);
      MoveTogether(pss[n], ms[n], pss[n + 1]);
      MovePage(pss[n], ms[n], pss[n + 1], j, x);
      if ms[n].Act? && ms[n].who == j {
        ReplayLast(Content(pss[0][j], x).value, Own(ms[..n], j), ms[n].e, x);
      } else {
        assert Own(ms[..n], j) + [] == Own(ms[..n], j);
      }
    }
  }

  lemma ReplayLast(c: Frame, es: seq<Event>, e: Event, x: Slot)
    ensures Replay(c, es + [e], x) == Effect(Replay(c, es, x), e, x)
  {
    assert (es + [e])[..|es|] == es;
  }
}
