/** The rings are the queues: what the pointer operations do to the nodes of a
    list is what the scheduler's operations do to the sequence of its processes. */
module RingQueues {
  import opened Rings
  import opened Bytes
  import S = Scheduler

  /** The processes of some nodes; `of` gives the process a node is embedded in. */
  ghost function Pids(ns: seq<Node>, of: map<Node, nat>): (ps: seq<nat>)
    requires forall x :: x in ns ==> x in of
    ensures |ps| == |ns| && forall i :: 0 <= i < |ns| ==> ps[i] == of[ns[i]]
  {
    seq(|ns|, i requires 0 <= i < |ns| => of[ns[i]])
  }

  /** Every node but the head of the ring belongs to one process, and to no other node's. */
  ghost predicate Embedded(r: seq<Node>, of: map<Node, nat>) {
    && |r| > 0 && Distinct(r) && (forall x :: x in r[1..] ==> x in of)
    && forall x, y :: x in r[1..] && y in r[1..] && of[x] == of[y] ==> x == y
  }

  /** The queue a ring stands for. */
  ghost function QueueOf(r: seq<Node>, of: map<Node, nat>): seq<nat>
    requires Embedded(r, of)
  {
    Pids(r[1..], of)
  }

  /** Appending a node that is on no ring appends its process. */
  lemma AppendIsEnqueue(r: seq<Node>, node: Node, of: map<Node, nat>)
    requires Embedded(r, of) && node !in r && node in of && of[node] !in QueueOf(r, of)
    ensures Embedded(r + [node], of) && QueueOf(r + [node], of) == QueueOf(r, of) + [of[node]]
  {
    assert (r + [node])[1..] == r[1..] + [node];
    forall x | x in r[1..] ensures of[x] != of[node] {
      var i :| 0 <= i < |r[1..]| && r[1..][i] == x;
      assert QueueOf(r, of)[i] == of[x];
    }
  }

  lemma QueueDistinct(r: seq<Node>, of: map<Node, nat>)
    requires Embedded(r, of)
    ensures S.Distinct(QueueOf(r, of))
  {
    var q := QueueOf(r, of);
    forall j, l | 0 <= j < l < |q| ensures q[j] != q[l] {
      assert r[1..][j] == r[j + 1] && r[1..][l] == r[l + 1] && r[j + 1] != r[l + 1];
    }
  }

  lemma PidsDrop(ns: seq<Node>, j: nat, of: map<Node, nat>)
    requires j < |ns| && forall x :: x in ns ==> x in of
    ensures forall x :: x in ns[..j] + ns[j + 1..] ==> x in ns
    ensures Pids(ns[..j] + ns[j + 1..], of) == Pids(ns, of)[..j] + Pids(ns, of)[j + 1..]
  {
  }

  /** Deleting a node, wherever it is, takes its process out and no other. */
  lemma DeleteIsWithout(r: seq<Node>, i: nat, of: map<Node, nat>)
    requires Embedded(r, of) && 0 < i < |r|
    ensures r[i] in of && Embedded(Drop(r, i), of)
    ensures QueueOf(Drop(r, i), of) == S.Without(QueueOf(r, of), of[r[i]])
  {
    hide Drop, Pids;
    var ns := r[1..];
    assert ns[i - 1] == r[i];
    DropTail(r, i);
    DropDistinct(r, i);
    PidsDrop(ns, i - 1, of);
    QueueDistinct(r, of);
    S.WithoutAt(Pids(ns, of), i - 1);
  }

  lemma DropTail(r: seq<Node>, i: nat)
    requires 0 < i < |r|
    ensures |Drop(r, i)| > 0 && Drop(r, i)[1..] == r[1..][..i - 1] + r[1..][i..]
  {
  }

  lemma DropDistinct(r: seq<Node>, i: nat)
    requires Distinct(r) && 0 < i < |r|
    ensures Distinct(Drop(r, i))
  {
    var d := Drop(r, i);
    assert forall j :: 0 <= j < |d| ==> d[j] == r[if j < i then j else j + 1];
  }

  /** The nodes the sleep walk picks are the processes the scheduler's walk picks. */
  lemma {:induction false} PickedAreSleepers(ns: seq<Node>, times: seq<nat>, n: nat, s: S.Sched, of: map<Node, nat>, now: nat, due: bool)
    requires |times| == |ns| && n <= |ns| && forall x :: x in ns ==> x in of
    requires forall i :: 0 <= i < |ns| ==> of[ns[i]] < |s.pcbs| && times[i] == s.pcbs[of[ns[i]]].wakeup
    ensures forall x :: x in Picked(ns, times, n, now, due) ==> x in of
    ensures Pids(Picked(ns, times, n, now, due), of) == S.Sleepers(s, Pids(ns[..n], of), now, due)
  {
    hide S.Sleepers;
    if n == 0 {
      assert ns[..0] == [];
      NoSleepers(s, now, due);
    } else {
      PickedAreSleepers(ns, times, n - 1, s, of, now, due);
      assert ns[..n] == ns[..n - 1] + [ns[n - 1]];
      assert Pids(ns[..n], of) == Pids(ns[..n - 1], of) + [of[ns[n - 1]]];
      SleepersAppend(s, Pids(ns[..n - 1], of), of[ns[n - 1]], now, due);
    }
  }

  lemma NoSleepers(s: S.Sched, now: nat, due: bool)
    ensures S.Sleepers(s, [], now, due) == []
  {
  }

  lemma {:induction false} SleepersAppend(s: S.Sched, ps: seq<nat>, p: nat, now: nat, due: bool)
    ensures S.Sleepers(s, ps + [p], now, due) == S.Sleepers(s, ps, now, due) + if S.Due(s, p, now) == due then [p] else []
  {
    hide S.Due, S.Sleepers;
    if ps == [] {
      NoSleepers(s, now, due);
      SleepersHead(s, [p], now, due);
      assert [] + [p] == [p] && [p][1..] == [];
    } else {
      SleepersAppend(s, ps[1..], p, now, due);
      SleepersHead(s, ps, now, due);
      SleepersHead(s, ps + [p], now, due);
      assert (ps + [p])[1..] == ps[1..] + [p] && (ps + [p])[0] == ps[0];
      Regroup(if S.Due(s, ps[0], now) == due then [ps[0]] else [], S.Sleepers(s, ps[1..], now, due),
              if S.Due(s, p, now) == due then [p] else []);
    }
  }

  lemma SleepersHead(s: S.Sched, ps: seq<nat>, now: nat, due: bool)
    requires ps != []
    ensures S.Sleepers(s, ps, now, due) == (if S.Due(s, ps[0], now) == due then [ps[0]] else []) + S.Sleepers(s, ps[1..], now, due)
  {
  }

  lemma Regroup(a: seq<nat>, b: seq<nat>, c: seq<nat>)
    ensures a + (b + c) == (a + b) + c
  {
  }

  /** What the pointer walk leaves in the two rings is what check_sleeping leaves
      in the sleep queue and appends to the ready queue. */
  lemma WalkIsCheckSleeping(sleep: seq<Node>, ready: seq<Node>, times: seq<nat>, s: S.Sched, of: map<Node, nat>, now: nat, mid: Option<nat>)
    requires Embedded(sleep, of) && Embedded(ready, of) && S.Part(s, mid) && |times| == |sleep| - 1
    requires QueueOf(sleep, of) == S.Q(s, S.SleepQ) && QueueOf(ready, of) == S.Q(s, S.ReadyQ)
    requires forall i :: 0 <= i < |times| ==> of[sleep[1..][i]] < |s.pcbs| && times[i] == s.pcbs[of[sleep[1..][i]]].wakeup
    ensures
      var ns, t := sleep[1..], S.CheckSleeping(s, now);
      && (forall x :: x in Picked(ns, times, |ns|, now, true) ==> x in of)
      && (forall x :: x in Picked(ns, times, |ns|, now, false) ==> x in of)
      && Pids(Picked(ns, times, |ns|, now, false), of) == S.Q(t, S.SleepQ)
      && QueueOf(ready, of) + Pids(Picked(ns, times, |ns|, now, true), of) == S.Q(t, S.ReadyQ)
  {
    hide S.Part, S.CheckSleeping;
    var ns := sleep[1..];
    assert ns[..|ns|] == ns;
    PickedAreSleepers(ns, times, |ns|, s, of, now, true);
    PickedAreSleepers(ns, times, |ns|, s, of, now, false);
    S.CheckSleepingMoves(s, now, mid);
  }
}
