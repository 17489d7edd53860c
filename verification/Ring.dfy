/** The intrusive circular lists: nodes linked by next and prev, each list closed
    through a head that is a node itself. A list is given by the sequence of its
    nodes, head first; several lists share one pool of nodes. */
module Rings {

  class Node {
    var next: Node?
    var prev: Node?
    // The record the node is embedded in: only its wakeup time matters here.
    var wakeup: nat
    var awake: bool

    constructor (time: nat)
      ensures next == null && prev == null && wakeup == time && !awake
    {
      next, prev, wakeup, awake := null, null, time, false;
    }
  }

  function After(r: seq<Node>, i: nat): Node
    requires i < |r|
  {
    if i + 1 < |r| then r[i + 1] else r[0]
  }

  function Before(r: seq<Node>, i: nat): Node
    requires i < |r|
  {
    if i > 0 then r[i - 1] else r[|r| - 1]
  }

  ghost predicate Distinct(r: seq<Node>) {
    forall i, j :: 0 <= i < j < |r| ==> r[i] != r[j]
  }

  /** The nodes of r, all different, are linked in this order and back to the head. */
  ghost predicate Ring(r: seq<Node>)
    reads r
  {
    && |r| > 0 && Distinct(r)
    && (forall i :: 0 <= i < |r| ==> r[i].next == After(r, i) && r[i].prev == Before(r, i))
  }

  ghost function Pool(rs: seq<seq<Node>>): set<Node> {
    set k, i | 0 <= k < |rs| && 0 <= i < |rs[k]| :: rs[k][i]
  }

  ghost predicate Apart(rs: seq<seq<Node>>) {
    forall k, l, i, j :: 0 <= k < l < |rs| && 0 <= i < |rs[k]| && 0 <= j < |rs[l]| ==> rs[k][i] != rs[l][j]
  }

  /** All the lists at once: rings, no two with a node in common. */
  ghost predicate Lists(rs: seq<seq<Node>>)
    reads Pool(rs)
  {
    Apart(rs) && forall k :: 0 <= k < |rs| ==> Ring(rs[k])
  }

  function Drop(r: seq<Node>, i: nat): seq<Node>
    requires i < |r|
  {
    r[..i] + r[i + 1..]
  }

  /** init_list_head. */
  method InitHead(head: Node)
    modifies head
    ensures Ring([head]) && head.wakeup == old(head.wakeup) && head.awake == old(head.awake)
  {
    head.next, head.prev := head, head;
  }

  /** list_is_empty, for the list that head closes. */
  method IsEmpty(head: Node, ghost r: seq<Node>) returns (empty: bool)
    requires Ring(r) && r[0] == head
    ensures empty <==> r == [head]
  {
    empty := head.next == head;
    assert After(r, 0) == r[0] <==> |r| == 1;
  }

  /** _list_add_tail of a node in no list. */
  method AddTail(node: Node, head: Node, ghost r: seq<Node>)
    requires Ring(r) && r[0] == head && node !in r
    modifies node`next, node`prev, Before(r, 0)`next, head`prev
    ensures Ring(r + [node])
  {
    ghost var n := |r|;
    assert r[0].prev == Before(r, 0) == r[n - 1];
    var prev := head.prev;
    node.next := head;
    node.prev := prev;
    prev.next := node;
    head.prev := node;
    ghost var t := r + [node];
    forall i | 0 <= i < |t| ensures t[i].next == After(t, i) && t[i].prev == Before(t, i) {
      if i < n {
        assert t[i] == r[i];
      }
    }
  }

  /** Where the nodes of a ring stand once node i is out. */
  lemma DropAt(r: seq<Node>, i: nat, j: nat)
    requires 0 < i < |r| && j < |r| - 1 && Distinct(r)
    ensures |Drop(r, i)| == |r| - 1 && Drop(r, i)[j] == r[if j < i then j else j + 1]
    ensures After(Drop(r, i), j) == if j == i - 1 then After(r, i) else After(r, if j < i then j else j + 1)
    ensures Before(Drop(r, i), j) == if r[if j < i then j else j + 1] == After(r, i) then Before(r, i) else Before(r, if j < i then j else j + 1)
  {
  }

  /** __list_del: the neighbours of node i linked to each other. */
  method Close(prev: Node, next: Node, ghost r: seq<Node>, ghost i: nat)
    requires Ring(r) && 0 < i < |r| && prev == Before(r, i) && next == After(r, i)
    modifies prev`next, next`prev
    ensures Ring(Drop(r, i)) && r[i] !in Drop(r, i)
  {
    prev.next := next;
    next.prev := prev;
    ghost var t := Drop(r, i);
    assert Distinct(r);
    forall j | 0 <= j < |t| ensures t[j].next == After(t, j) && t[j].prev == Before(t, j) {
      DropAt(r, i, j);
    }
  }

  /** list_del. A node of a ring, at place i behind the head, leaves it, and no
      other does; a node in no ring (given as the empty one) is left alone. */
  method Delete(node: Node, ghost r: seq<Node>, ghost i: nat)
    requires if r == [] then node.next == null || node.prev == null else Ring(r) && 0 < i < |r| && r[i] == node
    modifies node`next, node`prev, if 0 < i < |r| then {Before(r, i), After(r, i)} else {}
    ensures r == [] ==> node.next == old(node.next) && node.prev == old(node.prev)
    ensures r != [] ==> Ring(Drop(r, i)) && node.next == null && node.prev == null
    ensures node.wakeup == old(node.wakeup) && node.awake == old(node.awake)
    ensures forall x :: x in r ==> x.wakeup == old(x.wakeup) && x.awake == old(x.awake)
  {
    if node.prev != null && node.next != null {
      if r != [] { assert node.next == After(r, i) && node.prev == Before(r, i); }
      Close(node.prev, node.next, r, i);
      node.prev := null;
      node.next := null;
    }
  }

  // ---------- Many lists over one pool ----------

  lemma InPool(rs: seq<seq<Node>>, k: nat, i: nat)
    requires k < |rs| && i < |rs[k]|
    ensures rs[k][i] in Pool(rs)
  {
  }

  /** The nodes of one list. */
  ghost function Members(r: seq<Node>): set<Node> {
    set x | x in r
  }

  lemma OthersApart(rs: seq<seq<Node>>, k: nat, l: nat)
    requires Apart(rs) && k < |rs| && l < |rs| && l != k
    ensures Members(rs[l]) !! Members(rs[k])
  {
  }

  /** Appending to one list changes no other. */
  method Append(node: Node, ghost rs: seq<seq<Node>>, ghost k: nat, head: Node)
    requires Lists(rs) && k < |rs| && |rs[k]| > 0 && rs[k][0] == head && node !in Pool(rs)
    modifies {node} + Members(rs[k])
    ensures Lists(rs[k := rs[k] + [node]])
    ensures forall x :: x in {node} + Members(rs[k]) ==> x.wakeup == old(x.wakeup) && x.awake == old(x.awake)
  {
    forall i | 0 <= i < |rs[k]| ensures rs[k][i] != node { InPool(rs, k, i); }
    AddTail(node, head, rs[k]);
    ghost var ts := rs[k := rs[k] + [node]];
    forall l | 0 <= l < |ts| ensures Ring(ts[l]) {
      if l != k { OthersApart(rs, k, l); ApartFrom(rs, l, node); }
    }
    AppendApart(rs, k, node);
  }

  lemma ApartFrom(rs: seq<seq<Node>>, l: nat, node: Node)
    requires l < |rs| && node !in Pool(rs)
    ensures node !in rs[l]
  {
    forall i | 0 <= i < |rs[l]| ensures rs[l][i] != node { InPool(rs, l, i); }
  }

  lemma AppendApart(rs: seq<seq<Node>>, k: nat, node: Node)
    requires Apart(rs) && k < |rs| && node !in Pool(rs)
    ensures Apart(rs[k := rs[k] + [node]])
  {
    forall l | 0 <= l < |rs| ensures node !in rs[l] { ApartFrom(rs, l, node); }
  }

  /** Deleting from one list changes no other, and frees the node. */
  method Remove(node: Node, ghost rs: seq<seq<Node>>, ghost k: nat, ghost i: nat)
    requires Lists(rs) && k < |rs| && 0 < i < |rs[k]| && rs[k][i] == node
    modifies Members(rs[k])
    ensures Lists(rs[k := Drop(rs[k], i)]) && node.next == null && node.prev == null
    ensures node !in Pool(rs[k := Drop(rs[k], i)])
    ensures forall x :: x in Members(rs[k]) ==> x.wakeup == old(x.wakeup) && x.awake == old(x.awake)
  {
    Delete(node, rs[k], i);
    ghost var ts := rs[k := Drop(rs[k], i)];
    forall l | 0 <= l < |ts| ensures Ring(ts[l]) {
      if l != k { OthersApart(rs, k, l); }
    }
    DropApart(rs, k, i);
  }

  lemma DropApart(rs: seq<seq<Node>>, k: nat, i: nat)
    requires Apart(rs) && k < |rs| && 0 < i < |rs[k]| && Distinct(rs[k])
    ensures Apart(rs[k := Drop(rs[k], i)]) && rs[k][i] !in Pool(rs[k := Drop(rs[k], i)])
  {
    var d := Drop(rs[k], i);
    assert forall j :: 0 <= j < |d| ==> d[j] == rs[k][if j < i then j else j + 1];
  }

  // ---------- Waking sleepers ----------

  ghost function Times(ns: seq<Node>): (times: seq<nat>)
    reads ns
    ensures |times| == |ns| && forall i :: 0 <= i < |ns| ==> times[i] == ns[i].wakeup
  {
    seq(|ns|, i requires 0 <= i < |ns| reads ns => ns[i].wakeup)
  }

  /** Those of the first n whose time has come at `now`, or has not, in order. */
  function Picked(ns: seq<Node>, times: seq<nat>, n: nat, now: nat, due: bool): (r: seq<Node>)
    requires |times| == |ns| && n <= |ns|
    ensures forall x :: x in r ==> x in ns[..n]
  {
    if n == 0 then [] else
    Picked(ns, times, n - 1, now, due) + if (now >= times[n - 1]) == due then [ns[n - 1]] else []
  }

  /** The state of the walk over the sleep list after its first i nodes. */
  ghost function Walked(rs: seq<seq<Node>>, a: nat, b: nat, kept: seq<Node>, rest: seq<Node>, moved: seq<Node>): seq<seq<Node>>
    requires a < |rs| && b < |rs| && |rs[a]| > 0
  {
    rs[a := [rs[a][0]] + kept + rest][b := rs[b] + moved]
  }

  lemma WalkDelete(rs: seq<seq<Node>>, a: nat, b: nat, kept: seq<Node>, rest: seq<Node>, moved: seq<Node>)
    requires a < |rs| && b < |rs| && a != b && |rs[a]| > 0 && rest != []
    ensures
      var ts := Walked(rs, a, b, kept, rest, moved);
      && |ts[a]| > |kept| + 1 && ts[a][|kept| + 1] == rest[0]
      && After(ts[a], |kept| + 1) == (if |rest| > 1 then rest[1] else rs[a][0])
      && ts[a := Drop(ts[a], |kept| + 1)] == Walked(rs, a, b, kept, rest[1..], moved)
      && Walked(rs, a, b, kept + [rest[0]], rest[1..], moved) == ts
      && var us := Walked(rs, a, b, kept, rest[1..], moved);
      us[b := us[b] + [rest[0]]] == Walked(rs, a, b, kept, rest[1..], moved + [rest[0]])
  {
    var ts := Walked(rs, a, b, kept, rest, moved);
    assert ts[a] == [rs[a][0]] + kept + rest;
    assert Drop(ts[a], |kept| + 1) == [rs[a][0]] + kept + rest[1..];
    assert [rs[a][0]] + (kept + [rest[0]]) + rest[1..] == [rs[a][0]] + kept + rest;
    assert rs[b] + moved + [rest[0]] == rs[b] + (moved + [rest[0]]);
    assert ts[a := Drop(ts[a], |kept| + 1)] == Walked(rs, a, b, kept, rest[1..], moved);
    var us := Walked(rs, a, b, kept, rest[1..], moved);
    assert us[b := us[b] + [rest[0]]] == Walked(rs, a, b, kept, rest[1..], moved + [rest[0]]);
  }

  /** A due sleeper woken: marked, deleted, and appended to the ready list. */
  method WakeNode(it: Node, ready: Node, ghost rs: seq<seq<Node>>, ghost a: nat, ghost b: nat,
                  ghost kept: seq<Node>, ghost rest: seq<Node>, ghost moved: seq<Node>)
    requires a < |rs| && b < |rs| && a != b && |rs[a]| > 0 && |rs[b]| > 0 && rs[b][0] == ready && rest != [] && rest[0] == it
    requires Lists(Walked(rs, a, b, kept, rest, moved))
    requires forall x :: x in kept + rest + moved ==> x in Members(rs[a])
    modifies Members(rs[a]) + Members(rs[b])
    ensures Lists(Walked(rs, a, b, kept, rest[1..], moved + [it]))
    ensures it.awake && it.wakeup == old(it.wakeup)
    ensures forall x :: x in Members(rs[a]) ==> x.wakeup == old(x.wakeup) && (x != it ==> x.awake == old(x.awake))
  {
    hide Lists, Pool, Walked, Ring, Apart;
    ghost var ts := Walked(rs, a, b, kept, rest, moved);
    ghost var us := Walked(rs, a, b, kept, rest[1..], moved);
    WalkDelete(rs, a, b, kept, rest, moved);
    WakeFrames(rs, a, b, kept, rest, moved);
    it.awake := true;
    AwakeOnly(ts);
    Remove(it, ts, a, |kept| + 1);
    Append(it, us, b, ready);
  }

  /** The nodes a wakeup may touch. */
  lemma WakeFrames(rs: seq<seq<Node>>, a: nat, b: nat, kept: seq<Node>, rest: seq<Node>, moved: seq<Node>)
    requires a < |rs| && b < |rs| && a != b && |rs[a]| > 0 && |rs[b]| > 0 && rest != []
    requires forall x :: x in kept + rest + moved ==> x in Members(rs[a])
    ensures
      var ts, us := Walked(rs, a, b, kept, rest, moved), Walked(rs, a, b, kept, rest[1..], moved);
      && |ts| == |us| == |rs| && |us[b]| > 0 && us[b][0] == rs[b][0] && rest[0] in Members(rs[a])
      && Members(ts[a]) <= Members(rs[a]) && Members(us[b]) <= Members(rs[a]) + Members(rs[b])
  {
    var ts, us := Walked(rs, a, b, kept, rest, moved), Walked(rs, a, b, kept, rest[1..], moved);
    assert rest[0] in kept + rest + moved;
    assert ts[a] == [rs[a][0]] + kept + rest && us[b] == rs[b] + moved;
  }

  twostate lemma AwakeOnly(rs: seq<seq<Node>>)
    requires old(Lists(rs))
    requires forall x: Node :: x in Pool(rs) ==> x.next == old(x.next) && x.prev == old(x.prev)
    ensures Lists(rs)
  {
    forall k | 0 <= k < |rs| ensures Ring(rs[k]) {
      forall i | 0 <= i < |rs[k]| ensures rs[k][i].next == After(rs[k], i) && rs[k][i].prev == Before(rs[k], i) { InPool(rs, k, i); }
    }
  }

  /** The next node of the walk, read before the current one may leave. */
  lemma NextOf(it: Node, rs: seq<seq<Node>>, a: nat, b: nat, kept: seq<Node>, rest: seq<Node>, moved: seq<Node>)
    requires a < |rs| && b < |rs| && a != b && |rs[a]| > 0 && rest != [] && rest[0] == it
    requires Lists(Walked(rs, a, b, kept, rest, moved))
    ensures it.next == if |rest| > 1 then rest[1] else rs[a][0]
  {
    WalkDelete(rs, a, b, kept, rest, moved);
    var r := Walked(rs, a, b, kept, rest, moved)[a];
    assert Ring(r) && it.next == After(r, |kept| + 1);
  }

  /** One round of the walk: `it`, the i-th sleeper, is woken if its time has come. */
  method WalkStep(it: Node, ready: Node, now: nat, ghost rs: seq<seq<Node>>, ghost a: nat, ghost b: nat,
                  ghost kept: seq<Node>, ghost rest: seq<Node>, ghost moved: seq<Node>) returns (next: Node)
    requires a < |rs| && b < |rs| && a != b && |rs[a]| > 0 && |rs[b]| > 0 && rs[b][0] == ready && rest != [] && rest[0] == it
    requires Lists(Walked(rs, a, b, kept, rest, moved))
    requires forall x :: x in kept + rest + moved ==> x in Members(rs[a])
    modifies Members(rs[a]) + Members(rs[b])
    ensures next == if |rest| > 1 then rest[1] else rs[a][0]
    ensures now >= old(it.wakeup) ==> Lists(Walked(rs, a, b, kept, rest[1..], moved + [it]))
    ensures now < old(it.wakeup) ==> Lists(Walked(rs, a, b, kept + [it], rest[1..], moved))
    ensures it.awake == (old(it.awake) || now >= old(it.wakeup)) && it.wakeup == old(it.wakeup)
    ensures forall x :: x in Members(rs[a]) ==> x.wakeup == old(x.wakeup) && (x != it ==> x.awake == old(x.awake))
  {
    hide Lists, Walked, Pool, Members;
    WalkDelete(rs, a, b, kept, rest, moved);
    NextOf(it, rs, a, b, kept, rest, moved);
    next := it.next;
    if now >= it.wakeup {
      WakeNode(it, ready, rs, a, b, kept, rest, moved);
    }
  }

  ghost function Flags(ns: seq<Node>): (flags: seq<bool>)
    reads ns
    ensures |flags| == |ns| && forall i :: 0 <= i < |ns| ==> flags[i] == ns[i].awake
  {
    seq(|ns|, i requires 0 <= i < |ns| reads ns => ns[i].awake)
  }

  /** The flags once the walk has passed the first i sleepers. */
  function Woken(flags: seq<bool>, times: seq<nat>, now: nat, i: nat): (r: seq<bool>)
    requires |times| == |flags|
    ensures |r| == |flags| && forall j :: 0 <= j < |r| ==> r[j] == (flags[j] || (j < i && now >= times[j]))
  {
    seq(|flags|, j requires 0 <= j < |flags| => flags[j] || (j < i && now >= times[j]))
  }

  /** One round, on the times and flags of all the sleepers. */
  method WalkRound(it: Node, ready: Node, now: nat, ghost rs: seq<seq<Node>>, ghost a: nat, ghost b: nat, ghost ns: seq<Node>, ghost i: nat,
                   ghost kept: seq<Node>, ghost moved: seq<Node>) returns (next: Node)
    requires a < |rs| && b < |rs| && a != b && |rs[a]| > 0 && |rs[b]| > 0 && rs[b][0] == ready && ns == rs[a][1..] && i < |ns| && ns[i] == it
    requires Distinct(ns) && Lists(Walked(rs, a, b, kept, ns[i..], moved))
    requires (forall x :: x in kept ==> x in ns[..i]) && (forall x :: x in moved ==> x in ns[..i])
    modifies Members(rs[a]) + Members(rs[b])
    ensures next == if i + 1 < |ns| then ns[i + 1] else rs[a][0]
    ensures now >= old(it.wakeup) ==> Lists(Walked(rs, a, b, kept, ns[i + 1..], moved + [it]))
    ensures now < old(it.wakeup) ==> Lists(Walked(rs, a, b, kept + [it], ns[i + 1..], moved))
    ensures Times(ns) == old(Times(ns)) && Flags(ns) == old(Flags(ns))[i := old(it.awake) || now >= old(it.wakeup)]
  {
    hide Lists, Walked, Pool, Members;
    WalkIn(rs, a, ns, i, kept, moved);
    assert ns[i..][1..] == ns[i + 1..];
    next := WalkStep(it, ready, now, rs, a, b, kept, ns[i..], moved);
    forall j | 0 <= j < |ns| ensures ns[j].wakeup == old(ns[j].wakeup) && (j != i ==> ns[j].awake == old(ns[j].awake)) {
      assert ns[j] in ns;
    }
  }

  /** The same round, seen from the whole walk: the i sleepers passed so far. */
  method WalkTurn(it: Node, ready: Node, now: nat, ghost rs: seq<seq<Node>>, ghost a: nat, ghost b: nat, ghost ns: seq<Node>, ghost i: nat,
                  ghost times: seq<nat>, ghost flags: seq<bool>) returns (next: Node)
    requires a < |rs| && b < |rs| && a != b && |rs[a]| > 0 && |rs[b]| > 0 && rs[b][0] == ready && ns == rs[a][1..] && i < |ns| && ns[i] == it
    requires Distinct(ns) && Times(ns) == times && |flags| == |ns| && Flags(ns) == Woken(flags, times, now, i)
    requires Lists(Walked(rs, a, b, Picked(ns, times, i, now, false), ns[i..], Picked(ns, times, i, now, true)))
    modifies Members(rs[a]) + Members(rs[b])
    ensures next == if i + 1 < |ns| then ns[i + 1] else rs[a][0]
    ensures Times(ns) == times && Flags(ns) == Woken(flags, times, now, i + 1)
    ensures Lists(Walked(rs, a, b, Picked(ns, times, i + 1, now, false), ns[i + 1..], Picked(ns, times, i + 1, now, true)))
  {
    hide Lists, Walked, Pool, Members, Picked, Woken;
    PickedNext(ns, times, i, now);
    WokenNext(flags, times, now, i);
    assert it.wakeup == Times(ns)[i] && it.awake == Flags(ns)[i];
    ghost var kept, moved := Picked(ns, times, i, now, false), Picked(ns, times, i, now, true);
    assert kept + [] == kept && moved + [] == moved;
    next := WalkRound(it, ready, now, rs, a, b, ns, i, kept, moved);
  }

  lemma WokenNext(flags: seq<bool>, times: seq<nat>, now: nat, i: nat)
    requires |times| == |flags| && i < |flags|
    ensures Woken(flags, times, now, i + 1) == Woken(flags, times, now, i)[i := flags[i] || now >= times[i]]
    ensures Woken(flags, times, now, i)[i] == flags[i]
  {
  }

  /** check_sleeping: one pass over the sleep list, deleting from it on the way.
      The due sleepers go, in order, to the end of the ready list; the others
      stay, in order; no other list changes. */
  method CheckSleeping(sleep: Node, ready: Node, now: nat, ghost rs: seq<seq<Node>>, ghost a: nat, ghost b: nat)
    requires Lists(rs) && a < |rs| && b < |rs| && a != b && |rs[a]| > 0 && |rs[b]| > 0 && rs[a][0] == sleep && rs[b][0] == ready
    modifies Members(rs[a]) + Members(rs[b])
    ensures
      var ns, times := rs[a][1..], old(Times(rs[a][1..]));
      && Lists(Walked(rs, a, b, Picked(ns, times, |ns|, now, false), [], Picked(ns, times, |ns|, now, true)))
      && Flags(ns) == Woken(old(Flags(ns)), times, now, |ns|)
  {
    hide Lists, Walked, Pool, Members, Picked, Woken;
    ghost var ns := rs[a][1..];
    ghost var times, flags, i := Times(ns), Flags(ns), 0;
    WalkStart(rs, a, b);
    PickedNone(ns, times, now);
    assert ns[0..] == ns && Woken(flags, times, now, 0) == flags;
    FirstOf(sleep, rs[a]);
    var it: Node := sleep.next;
    while it != sleep
      invariant 0 <= i <= |ns| && it == (if i < |ns| then ns[i] else sleep)
      invariant Lists(Walked(rs, a, b, Picked(ns, times, i, now, false), ns[i..], Picked(ns, times, i, now, true)))
      invariant Times(ns) == times && Flags(ns) == Woken(flags, times, now, i)
      decreases |ns| - i
    {
      it := WalkTurn(it, ready, now, rs, a, b, ns, i, times, flags);
      i := i + 1;
    }
    assert ns[|ns|..] == [];
  }

  lemma PickedNone(ns: seq<Node>, times: seq<nat>, now: nat)
    requires |times| == |ns|
    ensures Picked(ns, times, 0, now, true) == [] && Picked(ns, times, 0, now, false) == []
  {
  }

  lemma PickedNext(ns: seq<Node>, times: seq<nat>, i: nat, now: nat)
    requires |times| == |ns| && i < |ns|
    ensures Picked(ns, times, i + 1, now, true) == Picked(ns, times, i, now, true) + if now >= times[i] then [ns[i]] else []
    ensures Picked(ns, times, i + 1, now, false) == Picked(ns, times, i, now, false) + if now >= times[i] then [] else [ns[i]]
  {
  }

  lemma FirstOf(head: Node, r: seq<Node>)
    requires Ring(r) && r[0] == head
    ensures head.next == if |r| > 1 then r[1] else head
  {
    assert head.next == After(r, 0);
  }

  lemma WalkStart(rs: seq<seq<Node>>, a: nat, b: nat)
    requires Lists(rs) && a < |rs| && b < |rs| && |rs[a]| > 0
    ensures Walked(rs, a, b, [], rs[a][1..], []) == rs && Ring(rs[a])
    ensures rs[a][0] !in rs[a][1..] && Distinct(rs[a][1..])
  {
    assert [rs[a][0]] + [] + rs[a][1..] == rs[a] && rs[b] + [] == rs[b];
  }

  lemma WalkIn(rs: seq<seq<Node>>, a: nat, ns: seq<Node>, i: nat, kept: seq<Node>, moved: seq<Node>)
    requires a < |rs| && |rs[a]| > 0 && ns == rs[a][1..] && i <= |ns|
    requires (forall x :: x in kept ==> x in ns[..i]) && (forall x :: x in moved ==> x in ns[..i])
    ensures forall x :: x in kept + ns[i..] + moved ==> x in Members(rs[a])
    ensures forall x :: x in ns ==> x in Members(rs[a])
  {
    forall x | x in ns ensures x in rs[a] {}
  }
}
