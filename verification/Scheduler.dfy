/** Processes, the queues that link them, and the cores that run them. A queue is
    the sequence its ring stands for; `linked` says which ring a node is in. */
module Scheduler {
  import opened Bytes

  datatype Status = Blocked | Running | Ready | Exited | Available

  datatype QueueId = ReadyQ | SleepQ | WaitQ(target: nat) | LockQ(l: nat) | CondQ(k: nat) | BarrierQ(b: nat)

  datatype Pcb = Pcb(status: Status, pid: nat, mask: set<nat>, wakeup: nat, linked: Option<QueueId>)

  /** A core runs a process, given by its slot, or its idle process. */
  datatype Sched = Sched(pcbs: seq<Pcb>, queues: map<QueueId, seq<nat>>, cores: seq<Option<nat>>, nextPid: nat)

  function Q(s: Sched, q: QueueId): seq<nat> {
    if q in s.queues then s.queues[q] else []
  }

  predicate Live(p: Pcb) { p.status == Blocked || p.status == Running || p.status == Ready }

  // ---------- Primitives ----------

  function Enqueue(s: Sched, p: nat, q: QueueId): Sched
    requires p < |s.pcbs|
  {
    s.(pcbs := s.pcbs[p := s.pcbs[p].(linked := Some(q))], queues := s.queues[q := Q(s, q) + [p]])
  }

  function Without(q: seq<nat>, p: nat): (r: seq<nat>)
    ensures forall x :: x in r <==> x in q && x != p
    ensures p !in q ==> r == q
  {
    if q == [] then [] else (if q[0] == p then [] else [q[0]]) + Without(q[1..], p)
  }

  /** list_del of the node of p: out of the ring it is in, if any. */
  function Detach(s: Sched, p: nat): Sched
    requires p < |s.pcbs|
  {
    match s.pcbs[p].linked
    case None => s
    case Some(q) =>
      s.(pcbs := s.pcbs[p := s.pcbs[p].(linked := None)], queues := s.queues[q := Without(Q(s, q), p)])
  }

  function SetStatus(s: Sched, p: nat, status: Status): Sched
    requires p < |s.pcbs|
  {
    s.(pcbs := s.pcbs[p := s.pcbs[p].(status := status)])
  }

  /** Marks p blocked and puts it at the end of a queue. */
  function Suspend(s: Sched, p: nat, q: QueueId): Sched
    requires p < |s.pcbs|
  {
    Enqueue(SetStatus(s, p, Blocked), p, q)
  }

  /** Takes p out of its queue and makes it ready. */
  function Wake(s: Sched, p: nat): Sched
    requires p < |s.pcbs|
  {
    Enqueue(SetStatus(Detach(s, p), p, Ready), p, ReadyQ)
  }

  predicate CanUnblock(s: Sched, q: QueueId) {
    Q(s, q) != [] && Q(s, q)[0] < |s.pcbs|
  }

  /** do_unblock. */
  function Unblock(s: Sched, q: QueueId): Sched
    requires CanUnblock(s, q)
  {
    Wake(s, Q(s, q)[0])
  }

  // ---------- Sleeping ----------

  predicate Due(s: Sched, p: nat, now: nat) {
    p < |s.pcbs| && now >= s.pcbs[p].wakeup
  }

  /** The walk over what was the sleep queue, waking whoever is due. */
  function WakeDue(s: Sched, ps: seq<nat>, now: nat): (t: Sched)
    ensures |t.pcbs| == |s.pcbs| && t.cores == s.cores && t.nextPid == s.nextPid
    decreases |ps|
  {
    if ps == [] then s
    else WakeDue(if Due(s, ps[0], now) then Wake(s, ps[0]) else s, ps[1..], now)
  }

  function CheckSleeping(s: Sched, now: nat): Sched {
    WakeDue(s, Q(s, SleepQ), now)
  }

  // ---------- Choosing ----------

  /** The first process of a queue whose mask admits core c, from position i on. */
  function Pick(s: Sched, c: nat, ps: seq<nat>, i: nat): (r: nat)
    requires i <= |ps|
    ensures i <= r <= |ps|
    ensures r < |ps| ==> ps[r] < |s.pcbs| && c in s.pcbs[ps[r]].mask
    ensures forall j :: i <= j < r ==> ps[j] < |s.pcbs| ==> c !in s.pcbs[ps[j]].mask
    decreases |ps| - i
  {
    if i == |ps| then i
    else if ps[i] < |s.pcbs| && c in s.pcbs[ps[i]].mask then i
    else Pick(s, c, ps, i + 1)
  }

  /** The process that was running, if it still may, goes to the end of the ready queue. */
  function Requeue(s: Sched, c: nat): Sched
    requires c < |s.cores|
  {
    match s.cores[c]
    case None => s
    case Some(p) =>
      if p < |s.pcbs| && s.pcbs[p].status == Running && s.pcbs[p].pid != 0
      then Enqueue(SetStatus(s, p, Ready), p, ReadyQ) else s
  }

  function RunOn(s: Sched, c: nat, p: nat): Sched
    requires c < |s.cores| && p < |s.pcbs|
  {
    SetStatus(Detach(s, p), p, Running).(cores := s.cores[c := Some(p)])
  }

  /** The first ready process that core c may run, or the idle process. */
  function Dispatch(s: Sched, c: nat): Sched
    requires c < |s.cores|
  {
    var i := Pick(s, c, Q(s, ReadyQ), 0);
    if i == |Q(s, ReadyQ)| then s.(cores := s.cores[c := None])
    else
      RunOn(s, c, Q(s, ReadyQ)[i])
  }

  /** do_scheduler on core c. */
  function Schedule(s: Sched, c: nat, now: nat): Sched
    requires c < |s.cores|
  {
    Dispatch(Requeue(CheckSleeping(s, now), c), c)
  }

  // ---------- The partition ----------

  ghost predicate Distinct(q: seq<nat>) {
    forall i, j :: 0 <= i < j < |q| ==> q[i] != q[j]
  }

  /** A node is in the queue its links say, once, and in no other. */
  ghost predicate Queues(s: Sched) {
    && (forall q {:trigger Q(s, q)} :: Distinct(Q(s, q)))
    && (forall q, p {:trigger p in Q(s, q)} :: p in Q(s, q) ==> p < |s.pcbs| && s.pcbs[p].linked == Some(q))
    && (forall p :: 0 <= p < |s.pcbs| && s.pcbs[p].linked.Some? ==> p in Q(s, s.pcbs[p].linked.value))
  }

  /** Ready processes are in the ready queue, blocked ones in a wait queue, all
      others in none. */
  ghost predicate StatusOk(p: Pcb) {
    && (p.status == Ready <==> p.linked == Some(ReadyQ))
    && (p.status == Blocked <==> p.linked.Some? && p.linked != Some(ReadyQ))
  }

  ghost predicate Statuses(s: Sched) {
    && (forall p :: 0 <= p < |s.pcbs| ==> StatusOk(s.pcbs[p]))
    && (forall p :: 0 <= p < |s.pcbs| && !Live(s.pcbs[p]) ==> Q(s, WaitQ(p)) == [])
  }

  ghost predicate OnCore(s: Sched, p: nat) {
    exists c :: 0 <= c < |s.cores| && s.cores[c] == Some(p)
  }

  /** No process is on two cores, a running one is on one, and a core runs a
      running process, or one killed from elsewhere that has yet to notice; the
      process of core `mid` may have changed status since it entered the kernel. */
  ghost predicate Cores(s: Sched, mid: Option<nat>) {
    && (forall c, d :: 0 <= c < d < |s.cores| && s.cores[c].Some? ==> s.cores[c] != s.cores[d])
    && (forall p :: 0 <= p < |s.pcbs| && s.pcbs[p].status == Running ==> OnCore(s, p))
    && (forall c :: 0 <= c < |s.cores| && s.cores[c].Some? ==>
          s.cores[c].value < |s.pcbs| &&
          (mid != Some(c) ==> s.pcbs[s.cores[c].value].status == Running || s.pcbs[s.cores[c].value].status == Exited))
  }

  /** Process numbers: nonzero for the living, and no two the same but for zero. */
  ghost predicate Names(s: Sched) {
    && (forall p :: 0 <= p < |s.pcbs| ==> s.pcbs[p].pid < s.nextPid && (Live(s.pcbs[p]) ==> s.pcbs[p].pid > 0))
    && (forall p, r :: 0 <= p < r < |s.pcbs| && s.pcbs[p].pid != 0 ==> s.pcbs[p].pid != s.pcbs[r].pid)
  }

  ghost predicate Part(s: Sched, mid: Option<nat>) {
    Queues(s) && Statuses(s) && Cores(s, mid)
  }

  // ---------- Primitives keep the queues ----------

  lemma {:induction false} WithoutDistinct(q: seq<nat>, p: nat)
    requires Distinct(q)
    ensures Distinct(Without(q, p))
  {
    if q != [] {
      assert q[0] !in q[1..];
      WithoutDistinct(q[1..], p);
    }
  }

  lemma EnqueueQueues(s: Sched, p: nat, q: QueueId)
    requires Queues(s) && p < |s.pcbs| && s.pcbs[p].linked == None
    ensures Queues(Enqueue(s, p, q))
  {
    var t := Enqueue(s, p, q);
    assert p !in Q(s, q);
    forall r ensures Distinct(Q(t, r)) && (r != q ==> Q(t, r) == Q(s, r)) {
      assert Distinct(Q(s, r));
    }
    assert Q(t, q) == Q(s, q) + [p];
    hide Distinct;
    forall r, x | x in Q(t, r) ensures x < |t.pcbs| && t.pcbs[x].linked == Some(r) {
      assert (r == q && x == p) || x in Q(s, r);
    }
  }

  lemma DetachQueues(s: Sched, p: nat)
    requires Queues(s) && p < |s.pcbs|
    ensures Queues(Detach(s, p)) && Detach(s, p).pcbs[p] == s.pcbs[p].(linked := None)
    ensures forall r :: Q(Detach(s, p), r) == Without(Q(s, r), p)
  {
    var t := Detach(s, p);
    forall r ensures Q(t, r) == Without(Q(s, r), p) && Distinct(Q(t, r)) {
      assert Distinct(Q(s, r));
      WithoutDistinct(Q(s, r), p);
    }
    hide Distinct;
    forall x | 0 <= x < |t.pcbs| && t.pcbs[x].linked.Some? ensures x in Q(t, t.pcbs[x].linked.value) {
      assert x != p && x in Q(s, s.pcbs[x].linked.value);
    }
  }

  // ---------- Primitives keep the partition ----------

  lemma EnqueueQ(s: Sched, p: nat, q: QueueId, r: QueueId)
    requires p < |s.pcbs|
    ensures Q(Enqueue(s, p, q), r) == if r == q then Q(s, q) + [p] else Q(s, r)
  {
  }

  /** A process whose status and place change, on no queue between. */
  lemma Moved(s: Sched, t: Sched, p: nat, mid: Option<nat>)
    requires Part(s, mid) && p < |s.pcbs| && Queues(t) && |t.pcbs| == |s.pcbs| && t.nextPid == s.nextPid && t.cores == s.cores
    requires forall x :: 0 <= x < |s.pcbs| && x != p ==> t.pcbs[x] == s.pcbs[x]
    requires StatusOk(t.pcbs[p]) && Live(s.pcbs[p])
    requires !Live(t.pcbs[p]) ==> Q(t, WaitQ(p)) == []
    requires forall x {:trigger Q(t, WaitQ(x))} :: 0 <= x < |s.pcbs| && !Live(s.pcbs[x]) && Q(s, WaitQ(x)) == [] ==> Q(t, WaitQ(x)) == []
    requires t.pcbs[p].status == Running ==> OnCore(t, p)
    requires forall c :: 0 <= c < |s.cores| && s.cores[c] == Some(p) && mid != Some(c) ==>
      t.pcbs[p].status == Running || t.pcbs[p].status == Exited
    ensures Part(t, mid)
  {
    hide Queues, StatusOk;
    forall x | 0 <= x < |t.pcbs| && t.pcbs[x].status == Running ensures OnCore(t, x) {
      if x != p {
        assert OnCore(s, x);
      }
    }
  }

  /** From s to t process p was marked blocked and appended to a queue. */
  ghost predicate Suspended(s: Sched, t: Sched, p: nat, q: QueueId) {
    && p < |s.pcbs| && t.pcbs == s.pcbs[p := s.pcbs[p].(status := Blocked, linked := Some(q))]
    && t.cores == s.cores && t.nextPid == s.nextPid
    && forall r :: Q(t, r) == if r == q then Q(s, q) + [p] else Q(s, r)
  }

  lemma SuspendQ(s: Sched, p: nat, q: QueueId)
    requires p < |s.pcbs|
    ensures Suspended(s, Suspend(s, p, q), p, q)
  {
    forall r ensures Q(Suspend(s, p, q), r) == if r == q then Q(s, q) + [p] else Q(s, r) {
      EnqueueQ(SetStatus(s, p, Blocked), p, q, r);
    }
  }

  lemma SuspendPart(s: Sched, c: nat, p: nat, q: QueueId)
    requires Part(s, Some(c)) && c < |s.cores| && s.cores[c] == Some(p) && p < |s.pcbs| && s.pcbs[p].status == Running
    requires q != ReadyQ && (q.WaitQ? && q.target < |s.pcbs| ==> Live(s.pcbs[q.target]))
    ensures Part(Suspend(s, p, q), Some(c)) && Suspended(s, Suspend(s, p, q), p, q)
  {
    hide Queues, Distinct;
    SuspendQ(s, p, q);
    var u := SetStatus(s, p, Blocked);
    assert StatusOk(s.pcbs[p]);
    SetStatusQueues(s, p, Blocked);
    EnqueueQueues(u, p, q);
    Moved(s, Suspend(s, p, q), p, Some(c));
  }

  lemma SetStatusQueues(s: Sched, p: nat, status: Status)
    requires Queues(s) && p < |s.pcbs|
    ensures Queues(SetStatus(s, p, status))
  {
    var t := SetStatus(s, p, status);
    assert forall q :: Q(t, q) == Q(s, q);
  }

  lemma WakeQueues(s: Sched, p: nat)
    requires Queues(s) && p < |s.pcbs| && s.pcbs[p].linked != Some(ReadyQ)
    ensures Queues(Wake(s, p)) && Wake(s, p).pcbs == s.pcbs[p := s.pcbs[p].(status := Ready, linked := Some(ReadyQ))]
    ensures Wake(s, p) == s.(pcbs := Wake(s, p).pcbs, queues := Wake(s, p).queues)
    ensures forall r :: Q(Wake(s, p), r) == if r == ReadyQ then Q(s, ReadyQ) + [p] else Without(Q(s, r), p)
  {
    hide Queues, Distinct;
    NotIn(s, p, ReadyQ);
    DetachQueues(s, p);
    var u := Detach(s, p);
    SetStatusQueues(u, p, Ready);
    var v := SetStatus(u, p, Ready);
    EnqueueQueues(v, p, ReadyQ);
    forall r ensures Q(Wake(s, p), r) == if r == ReadyQ then Q(s, ReadyQ) + [p] else Without(Q(s, r), p) {
      EnqueueQ(v, p, ReadyQ, r);
      assert Q(v, r) == Q(u, r);
    }
  }

  /** Waking a blocked process moves it to the end of the ready queue. */
  lemma WakePart(s: Sched, p: nat, mid: Option<nat>)
    requires Part(s, mid) && p < |s.pcbs| && s.pcbs[p].status == Blocked
    ensures Part(Wake(s, p), mid)
    ensures forall r :: Q(Wake(s, p), r) == if r == ReadyQ then Q(s, ReadyQ) + [p] else Without(Q(s, r), p)
    ensures forall r :: r != ReadyQ && s.pcbs[p].linked != Some(r) ==> Q(Wake(s, p), r) == Q(s, r)
    ensures Wake(s, p).pcbs == s.pcbs[p := s.pcbs[p].(status := Ready, linked := Some(ReadyQ))]
    ensures Wake(s, p) == s.(pcbs := Wake(s, p).pcbs, queues := Wake(s, p).queues)
  {
    hide Queues, Distinct, Wake, Q;
    assert StatusOk(s.pcbs[p]);
    WakeQueues(s, p);
    forall r | r != ReadyQ && s.pcbs[p].linked != Some(r) ensures Q(Wake(s, p), r) == Q(s, r) {
      NotIn(s, p, r);
    }
    Moved(s, Wake(s, p), p, mid);
  }

  lemma NotIn(s: Sched, p: nat, q: QueueId)
    requires Queues(s) && p < |s.pcbs| && s.pcbs[p].linked != Some(q)
    ensures p !in Q(s, q)
  {
  }

  /** The processes of a wait queue are blocked. */
  lemma WaitersBlocked(s: Sched, mid: Option<nat>, q: QueueId, i: nat)
    requires Part(s, mid) && q != ReadyQ && i < |Q(s, q)|
    ensures Q(s, q)[i] < |s.pcbs| && s.pcbs[Q(s, q)[i]].status == Blocked && s.pcbs[Q(s, q)[i]].linked == Some(q)
  {
    hide Distinct;
    assert Q(s, q)[i] in Q(s, q);
    assert StatusOk(s.pcbs[Q(s, q)[i]]);
  }

  lemma {:induction false} WithoutHead(q: seq<nat>)
    requires q != [] && Distinct(q)
    ensures Without(q, q[0]) == q[1..]
  {
    assert q[0] !in q[1..];
  }

  /** From s to t the head of a wait queue became ready. */
  ghost predicate Unblocked(s: Sched, t: Sched, q: QueueId) {
    && Q(s, q) != [] && Q(s, q)[0] < |s.pcbs| && Q(t, q) == Q(s, q)[1..] && Q(t, ReadyQ) == Q(s, ReadyQ) + [Q(s, q)[0]]
    && (forall r :: r != q && r != ReadyQ ==> Q(t, r) == Q(s, r))
    && t.cores == s.cores && t.nextPid == s.nextPid
    && t.pcbs == s.pcbs[Q(s, q)[0] := s.pcbs[Q(s, q)[0]].(status := Ready, linked := Some(ReadyQ))]
  }

  lemma UnblockPart(s: Sched, q: QueueId, mid: Option<nat>)
    requires Part(s, mid) && q != ReadyQ && Q(s, q) != []
    ensures CanUnblock(s, q) && Part(Unblock(s, q), mid) && Unblocked(s, Unblock(s, q), q)
    ensures Q(Unblock(s, q), q) == Q(s, q)[1..] && Q(Unblock(s, q), ReadyQ) == Q(s, ReadyQ) + [Q(s, q)[0]]
  {
    hide Queues;
    WaitersBlocked(s, mid, q, 0);
    WakePart(s, Q(s, q)[0], mid);
    QueueDistinct(s, q);
    WithoutHead(Q(s, q));
  }

  lemma QueueDistinct(s: Sched, q: QueueId)
    requires Queues(s)
    ensures Distinct(Q(s, q))
  {
  }

  // ---------- The scheduler keeps the partition ----------

  /** No process's number, core mask or wakeup time changes, and none begins or ends. */
  ghost predicate SameNames(s: Sched, t: Sched) {
    && |t.pcbs| == |s.pcbs| && t.nextPid == s.nextPid && |t.cores| == |s.cores|
    && forall p :: 0 <= p < |s.pcbs| ==>
         && t.pcbs[p].pid == s.pcbs[p].pid && t.pcbs[p].mask == s.pcbs[p].mask && t.pcbs[p].wakeup == s.pcbs[p].wakeup
         && (if Live(s.pcbs[p]) then Live(t.pcbs[p]) else t.pcbs[p].status == s.pcbs[p].status)
  }

  /** Nor does any start to run. */
  ghost predicate Calm(s: Sched, t: Sched) {
    SameNames(s, t) && t.cores == s.cores
    && forall p :: 0 <= p < |s.pcbs| && t.pcbs[p].status == Running ==> s.pcbs[p].status == Running
  }

  lemma CalmTransitive(s: Sched, t: Sched, u: Sched)
    requires Calm(s, t) && Calm(t, u)
    ensures Calm(s, u)
  {
  }

  lemma CalmReflexive(s: Sched)
    ensures Calm(s, s)
  {
  }

  lemma SameNamesNames(s: Sched, t: Sched)
    requires SameNames(s, t) && Names(s)
    ensures Names(t)
  {
  }

  lemma SameNamesTransitive(s: Sched, t: Sched, u: Sched)
    requires SameNames(s, t) && SameNames(t, u)
    ensures SameNames(s, u)
  {
  }

  /** Those of ps that are due, in order. */
  function Sleepers(s: Sched, ps: seq<nat>, now: nat, due: bool): (r: seq<nat>)
    ensures forall x :: x in r <==> x in ps && Due(s, x, now) == due
  {
    if ps == [] then [] else (if Due(s, ps[0], now) == due then [ps[0]] else []) + Sleepers(s, ps[1..], now, due)
  }

  lemma {:induction false} SameSleepers(s: Sched, t: Sched, ps: seq<nat>, now: nat, due: bool)
    requires forall x :: x in ps ==> Due(t, x, now) == Due(s, x, now)
    ensures Sleepers(t, ps, now, due) == Sleepers(s, ps, now, due)
  {
    if ps != [] {
      assert forall x :: x in ps[1..] ==> x in ps;
      SameSleepers(s, t, ps[1..], now, due);
    }
  }

  /** From s to t the due ones of ps went, in order, from behind `done` in the
      sleep queue to the end of the ready queue. */
  ghost predicate Woken(s: Sched, t: Sched, done: seq<nat>, ps: seq<nat>, now: nat) {
    && Q(t, SleepQ) == done + Sleepers(s, ps, now, false) && Q(t, ReadyQ) == Q(s, ReadyQ) + Sleepers(s, ps, now, true)
    && (forall r :: r != ReadyQ && r != SleepQ ==> Q(t, r) == Q(s, r))
  }

  lemma WokenFirst(s: Sched, u: Sched, t: Sched, done: seq<nat>, ps: seq<nat>, now: nat)
    requires ps != [] && Due(s, ps[0], now) && Woken(u, t, done, ps[1..], now)
    requires Q(u, ReadyQ) == Q(s, ReadyQ) + [ps[0]] && forall r :: r != ReadyQ && r != SleepQ ==> Q(u, r) == Q(s, r)
    requires Sleepers(u, ps[1..], now, true) == Sleepers(s, ps[1..], now, true)
    requires Sleepers(u, ps[1..], now, false) == Sleepers(s, ps[1..], now, false)
    ensures Woken(s, t, done, ps, now)
  {
    hide Q, Sleepers, Due;
    SleepersFirst(s, ps, now, true);
    SleepersFirst(s, ps, now, false);
    Regroup(Q(s, ReadyQ), [ps[0]], Sleepers(s, ps[1..], now, true));
  }

  lemma SleepersFirst(s: Sched, ps: seq<nat>, now: nat, due: bool)
    requires ps != []
    ensures Sleepers(s, ps, now, due) == if Due(s, ps[0], now) == due then [ps[0]] + Sleepers(s, ps[1..], now, due) else Sleepers(s, ps[1..], now, due)
  {
  }

  lemma Regroup(a: seq<nat>, b: seq<nat>, c: seq<nat>)
    ensures a + b + c == a + (b + c)
  {
  }

  lemma WokenSkip(s: Sched, t: Sched, done: seq<nat>, ps: seq<nat>, now: nat)
    requires ps != [] && !Due(s, ps[0], now) && Woken(s, t, done + [ps[0]], ps[1..], now)
    ensures Woken(s, t, done, ps, now)
  {
    hide Q, Sleepers, Due;
    SleepersFirst(s, ps, now, true);
    SleepersFirst(s, ps, now, false);
    Regroup(done, [ps[0]], Sleepers(s, ps[1..], now, false));
  }

  /** Waking the due ones of a part of the sleep queue, in order. */
  lemma {:induction false} WakeDuePart(s: Sched, done: seq<nat>, ps: seq<nat>, now: nat, mid: Option<nat>)
    requires Part(s, mid) && Q(s, SleepQ) == done + ps
    ensures Part(WakeDue(s, ps, now), mid) && Woken(s, WakeDue(s, ps, now), done, ps, now) && Calm(s, WakeDue(s, ps, now))
    decreases |ps|
  {
    hide Part, Wake, Due, Calm, Woken, Q, Sleepers;
    if ps == [] {
      CalmReflexive(s);
      WokenNone(s, done, now);
    } else if Due(s, ps[0], now) {
      WakeFirst(s, done, ps, now, mid);
      var u := Wake(s, ps[0]);
      WakeDuePart(u, done, ps[1..], now, mid);
      CalmTransitive(s, u, WakeDue(u, ps[1..], now));
      WokenFirst(s, u, WakeDue(u, ps[1..], now), done, ps, now);
    } else {
      assert done + ps == (done + [ps[0]]) + ps[1..];
      WakeDuePart(s, done + [ps[0]], ps[1..], now, mid);
      WokenSkip(s, WakeDue(s, ps[1..], now), done, ps, now);
    }
  }

  lemma WokenNone(s: Sched, done: seq<nat>, now: nat)
    requires Q(s, SleepQ) == done
    ensures Woken(s, s, done, [], now)
  {
    assert done + [] == done && Q(s, ReadyQ) + [] == Q(s, ReadyQ);
  }

  lemma WakeFirst(s: Sched, done: seq<nat>, ps: seq<nat>, now: nat, mid: Option<nat>)
    requires Part(s, mid) && ps != [] && Q(s, SleepQ) == done + ps
    ensures ps[0] < |s.pcbs| && Part(Wake(s, ps[0]), mid) && Calm(s, Wake(s, ps[0]))
    ensures Q(Wake(s, ps[0]), SleepQ) == done + ps[1..] && Q(Wake(s, ps[0]), ReadyQ) == Q(s, ReadyQ) + [ps[0]]
    ensures forall r :: r != ReadyQ && r != SleepQ ==> Q(Wake(s, ps[0]), r) == Q(s, r)
    ensures Sleepers(Wake(s, ps[0]), ps[1..], now, true) == Sleepers(s, ps[1..], now, true)
    ensures Sleepers(Wake(s, ps[0]), ps[1..], now, false) == Sleepers(s, ps[1..], now, false)
  {
    hide Queues, Statuses, Cores, Wake, Without, Due, Q;
    WaitersBlocked(s, mid, SleepQ, |done|);
    WakePart(s, ps[0], mid);
    WithoutMiddle(s, done, ps);
    forall i | 0 <= i < |ps| ensures ps[i] in Q(s, SleepQ) { assert Q(s, SleepQ)[|done| + i] == ps[i]; }
    WakeDueStep(s, Wake(s, ps[0]), ps, now);
  }

  lemma WithoutMiddle(s: Sched, done: seq<nat>, ps: seq<nat>)
    requires Queues(s) && ps != [] && Q(s, SleepQ) == done + ps
    ensures Without(Q(s, SleepQ), ps[0]) == done + ps[1..]
  {
    QueueDistinct(s, SleepQ);
    WithoutAt(done + ps, |done|);
    assert (done + ps)[..|done|] == done && (done + ps)[|done| + 1..] == ps[1..];
  }

  lemma {:induction false} WithoutAt(q: seq<nat>, i: nat)
    requires i < |q| && Distinct(q)
    ensures Without(q, q[i]) == q[..i] + q[i + 1..]
  {
    if i == 0 {
      WithoutHead(q);
    } else {
      WithoutSkip(q, q[i]);
      WithoutAt(q[1..], i - 1);
      AroundIndex(q, i);
    }
  }

  lemma AroundIndex(q: seq<nat>, i: nat)
    requires 0 < i < |q|
    ensures q[1..][i - 1] == q[i] && q[..i] + q[i + 1..] == [q[0]] + (q[1..][..i - 1] + q[1..][i..])
  {
  }

  lemma WakeDueStep(s: Sched, t: Sched, ps: seq<nat>, now: nat)
    requires Queues(s) && ps != [] && (forall i :: 0 <= i < |ps| ==> ps[i] in Q(s, SleepQ)) && ps[0] < |s.pcbs| && t == Wake(s, ps[0])
    ensures Sleepers(t, ps[1..], now, true) == Sleepers(s, ps[1..], now, true)
    ensures Sleepers(t, ps[1..], now, false) == Sleepers(s, ps[1..], now, false)
  {
    hide Queues;
    SameSleepers(s, t, ps[1..], now, true);
    SameSleepers(s, t, ps[1..], now, false);
  }

  /** The process core c has been running, if it still is, has a number. */
  ghost predicate Numbered(s: Sched, c: nat) {
    c < |s.cores| && (s.cores[c].Some? && s.cores[c].value < |s.pcbs| && s.pcbs[s.cores[c].value].status == Running ==>
      s.pcbs[s.cores[c].value].pid != 0)
  }

  lemma RequeuePart(s: Sched, c: nat)
    requires Part(s, Some(c)) && c < |s.cores| && Numbered(s, c)
    ensures Part(Requeue(s, c), Some(c)) && SameNames(s, Requeue(s, c)) && Requeue(s, c).cores == s.cores
    ensures s.cores[c].Some? ==> s.cores[c].value < |s.pcbs| && Requeue(s, c).pcbs[s.cores[c].value].status != Running
    ensures forall r :: r != ReadyQ ==> Q(Requeue(s, c), r) == Q(s, r)
    ensures Q(s, ReadyQ) <= Q(Requeue(s, c), ReadyQ)
    ensures forall x :: 0 <= x < |s.pcbs| && s.pcbs[x].status == Ready ==> Requeue(s, c).pcbs[x] == s.pcbs[x]
  {
    hide Queues, Distinct;
    if s.cores[c].Some? {
      var p := s.cores[c].value;
      assert StatusOk(s.pcbs[p]);
      if s.pcbs[p].status == Running {
        var u := SetStatus(s, p, Ready);
        SetStatusQueues(s, p, Ready);
        EnqueueQueues(u, p, ReadyQ);
        forall r ensures Q(Requeue(s, c), r) == if r == ReadyQ then Q(s, r) + [p] else Q(s, r) {
          EnqueueQ(u, p, ReadyQ, r);
        }
        Moved(s, Requeue(s, c), p, Some(c));
      }
    }
  }

  /** The process at a place of the ready queue is ready, and on no core unless
      it is the one that entered the kernel. */
  lemma ReadyIs(s: Sched, mid: Option<nat>, i: nat)
    requires Part(s, mid) && i < |Q(s, ReadyQ)|
    ensures Q(s, ReadyQ)[i] < |s.pcbs| && s.pcbs[Q(s, ReadyQ)[i]].status == Ready && s.pcbs[Q(s, ReadyQ)[i]].linked == Some(ReadyQ)
    ensures forall c :: 0 <= c < |s.cores| && s.cores[c] == Some(Q(s, ReadyQ)[i]) ==> mid == Some(c)
  {
    hide Distinct;
    assert Q(s, ReadyQ)[i] in Q(s, ReadyQ);
    assert StatusOk(s.pcbs[Q(s, ReadyQ)[i]]);
  }

  lemma DispatchIdle(s: Sched, c: nat)
    requires Part(s, Some(c)) && c < |s.cores|
    requires s.cores[c].Some? ==> s.cores[c].value < |s.pcbs| && s.pcbs[s.cores[c].value].status != Running
    ensures Part(s.(cores := s.cores[c := None]), None)
  {
    var t := s.(cores := s.cores[c := None]);
    assert forall q :: Q(t, q) == Q(s, q);
    hide Queues, StatusOk, Q;
    forall x | 0 <= x < |t.pcbs| && t.pcbs[x].status == Running ensures OnCore(t, x) {
      assert OnCore(s, x);
      var d :| 0 <= d < |s.cores| && s.cores[d] == Some(x);
      assert d != c && t.cores[d] == Some(x);
    }
    SameQueues(s, t);
  }

  lemma SameQueues(s: Sched, t: Sched)
    requires Queues(s) && t.pcbs == s.pcbs && t.queues == s.queues
    ensures Queues(t)
  {
    assert forall q :: Q(t, q) == Q(s, q);
  }

  lemma RunOnQueues(s: Sched, c: nat, p: nat)
    requires Queues(s) && c < |s.cores| && p < |s.pcbs|
    ensures Queues(RunOn(s, c, p))
    ensures RunOn(s, c, p) == s.(pcbs := s.pcbs[p := s.pcbs[p].(status := Running, linked := None)],
                                queues := RunOn(s, c, p).queues, cores := s.cores[c := Some(p)])
    ensures forall r :: Q(RunOn(s, c, p), r) == Without(Q(s, r), p)
  {
    hide Queues, Distinct;
    DetachQueues(s, p);
    var u := Detach(s, p);
    SetStatusQueues(u, p, Running);
    SameQueues(SetStatus(u, p, Running), RunOn(s, c, p));
    forall r ensures Q(RunOn(s, c, p), r) == Without(Q(s, r), p) {
      assert Q(RunOn(s, c, p), r) == Q(u, r);
    }
  }

  lemma RunOnCores(s: Sched, t: Sched, c: nat, p: nat)
    requires Cores(s, Some(c)) && c < |s.cores| && p < |s.pcbs|
    requires t.pcbs == s.pcbs[p := s.pcbs[p].(status := Running, linked := None)] && t.cores == s.cores[c := Some(p)]
    requires s.cores[c].Some? ==> s.cores[c].value < |s.pcbs| && s.pcbs[s.cores[c].value].status != Running
    requires forall d :: 0 <= d < |s.cores| && s.cores[d] == Some(p) ==> d == c
    ensures Cores(t, None)
  {
    assert t.cores[c] == Some(p);
    forall x | 0 <= x < |t.pcbs| && t.pcbs[x].status == Running ensures OnCore(t, x) {
      if x != p {
        assert OnCore(s, x);
        var d :| 0 <= d < |s.cores| && s.cores[d] == Some(x);
        assert d != c && t.cores[d] == Some(x);
      }
    }
  }

  lemma DispatchTo(s: Sched, c: nat, i: nat)
    requires Part(s, Some(c)) && c < |s.cores| && i < |Q(s, ReadyQ)|
    requires s.cores[c].Some? ==> s.cores[c].value < |s.pcbs| && s.pcbs[s.cores[c].value].status != Running
    ensures Q(s, ReadyQ)[i] < |s.pcbs|
    ensures Part(RunOn(s, c, Q(s, ReadyQ)[i]), None) && SameNames(s, RunOn(s, c, Q(s, ReadyQ)[i]))
    ensures forall r :: r != ReadyQ ==> Q(RunOn(s, c, Q(s, ReadyQ)[i]), r) == Q(s, r)
  {
    hide Queues, Distinct, RunOn, OnCore, Cores;
    var p := Q(s, ReadyQ)[i];
    ReadyIs(s, Some(c), i);
    RunOnQueues(s, c, p);
    var t := RunOn(s, c, p);
    RunOnCores(s, t, c, p);
    forall r ensures r != ReadyQ ==> Q(t, r) == Q(s, r) {
      if r != ReadyQ { NotIn(s, p, r); }
    }
    assert StatusOk(s.pcbs[p]);
    hide Q;
  }

  lemma DispatchPart(s: Sched, c: nat)
    requires Part(s, Some(c)) && c < |s.cores|
    requires s.cores[c].Some? ==> s.cores[c].value < |s.pcbs| && s.pcbs[s.cores[c].value].status != Running
    ensures Part(Dispatch(s, c), None) && SameNames(s, Dispatch(s, c))
    ensures forall r :: r != ReadyQ ==> Q(Dispatch(s, c), r) == Q(s, r)
  {
    hide Part, RunOn;
    var i := Pick(s, c, Q(s, ReadyQ), 0);
    if i == |Q(s, ReadyQ)| {
      DispatchIdle(s, c);
    } else {
      DispatchTo(s, c, i);
    }
  }

  /** A whole pass of the scheduler on core c keeps the partition, whatever its
      process had become: running, blocked, exited or woken again. */
  lemma SchedulePart(s: Sched, c: nat, now: nat)
    requires Part(s, Some(c)) && c < |s.cores| && Numbered(s, c)
    ensures Part(Schedule(s, c, now), None) && SameNames(s, Schedule(s, c, now))
    ensures forall r :: r != ReadyQ && r != SleepQ ==> Q(Schedule(s, c, now), r) == Q(s, r)
  {
    hide Queues, Statuses, Cores, WakeDue, Requeue, Dispatch, Q;
    var u := CheckSleeping(s, now);
    assert Q(s, SleepQ) == [] + Q(s, SleepQ);
    WakeDuePart(s, [], Q(s, SleepQ), now, Some(c));
    RequeuePart(u, c);
    DispatchPart(Requeue(u, c), c);
  }

  /** check_sleeping moves exactly those due, in order, and leaves the others in order. */
  lemma CheckSleepingMoves(s: Sched, now: nat, mid: Option<nat>)
    requires Part(s, mid)
    ensures Part(CheckSleeping(s, now), mid)
    ensures Q(CheckSleeping(s, now), SleepQ) == Sleepers(s, Q(s, SleepQ), now, false)
    ensures Q(CheckSleeping(s, now), ReadyQ) == Q(s, ReadyQ) + Sleepers(s, Q(s, SleepQ), now, true)
  {
    hide Part, WakeDue, Q;
    assert Q(s, SleepQ) == [] + Q(s, SleepQ);
    WakeDuePart(s, [], Q(s, SleepQ), now, mid);
  }

  // ---------- Waking all of a queue, and ending a process ----------

  /** The loop that unblocks a whole queue, head first. */
  function WakeAll(s: Sched, ps: seq<nat>): (t: Sched)
    requires forall i :: 0 <= i < |ps| ==> ps[i] < |s.pcbs|
    ensures |t.pcbs| == |s.pcbs| && t.cores == s.cores && t.nextPid == s.nextPid
    decreases |ps|
  {
    if ps == [] then s else WakeAll(Wake(s, ps[0]), ps[1..])
  }

  lemma {:induction false} WakeAllPart(s: Sched, q: QueueId, ps: seq<nat>, mid: Option<nat>)
    requires Part(s, mid) && q != ReadyQ && Q(s, q) == ps
    ensures forall i :: 0 <= i < |ps| ==> ps[i] < |s.pcbs|
    ensures Part(WakeAll(s, ps), mid) && SameNames(s, WakeAll(s, ps))
    ensures Q(WakeAll(s, ps), q) == [] && Q(WakeAll(s, ps), ReadyQ) == Q(s, ReadyQ) + ps
    ensures forall r :: r != ReadyQ && r != q ==> Q(WakeAll(s, ps), r) == Q(s, r)
    ensures forall p :: 0 <= p < |s.pcbs| && p !in ps ==> WakeAll(s, ps).pcbs[p] == s.pcbs[p]
    decreases |ps|
  {
    hide Queues, Statuses, Cores, Wake, Q, Without;
    if ps == [] {
      assert Q(s, ReadyQ) + [] == Q(s, ReadyQ);
    } else {
      forall i | 0 <= i < |ps| ensures ps[i] < |s.pcbs| { WaitersBlocked(s, mid, q, i); }
      WaitersBlocked(s, mid, q, 0);
      WakePart(s, ps[0], mid);
      UnblockPart(s, q, mid);
      var t := Wake(s, ps[0]);
      WakeAllPart(t, q, ps[1..], mid);
      assert Q(s, ReadyQ) + [ps[0]] + ps[1..] == Q(s, ReadyQ) + ps;
    }
  }

  /** The process leaves whatever queue it is in and is marked exited. */
  function Leave(s: Sched, p: nat): Sched
    requires p < |s.pcbs|
  {
    SetStatus(Detach(s, p), p, Exited)
  }

  lemma LeavePart(s: Sched, p: nat, mid: Option<nat>)
    requires Part(s, mid) && p < |s.pcbs| && Live(s.pcbs[p]) && Q(s, WaitQ(p)) == []
    ensures Part(Leave(s, p), mid) && Leave(s, p).cores == s.cores
    ensures Leave(s, p).pcbs == s.pcbs[p := s.pcbs[p].(status := Exited, linked := None)]
    ensures forall r :: Q(Leave(s, p), r) == Without(Q(s, r), p)
  {
    hide Queues, Distinct;
    DetachQueues(s, p);
    SetStatusQueues(Detach(s, p), p, Exited);
    forall r ensures Q(Leave(s, p), r) == Without(Q(s, r), p) {
      assert Q(Leave(s, p), r) == Q(Detach(s, p), r);
    }
    assert Leave(s, p).pcbs == s.pcbs[p := s.pcbs[p].(status := Exited, linked := None)];
    assert StatusOk(s.pcbs[p]);
    Moved(s, Leave(s, p), p, mid);
  }

  // ---------- Waiting one's turn ----------

  /** How many processes are ahead of p in a queue. */
  function Rank(q: seq<nat>, p: nat): (r: nat)
    ensures r <= |q| && (p in q ==> r < |q| && q[r] == p) && (forall i :: 0 <= i < r ==> q[i] != p)
  {
    if q == [] || q[0] == p then 0 else 1 + Rank(q[1..], p)
  }

  lemma RankSkip(x: nat, q: seq<nat>, p: nat)
    requires x != p
    ensures Rank([x] + q, p) == 1 + Rank(q, p)
  {
    assert ([x] + q)[1..] == q;
  }

  lemma InTail(q: seq<nat>, i: nat, p: nat)
    requires Distinct(q) && 0 < i < |q|
    ensures q[1..][i - 1] == q[i] && q[0] != q[i] && Distinct(q[1..]) && (p in q && q[0] != p ==> p in q[1..])
  {
  }

  lemma {:induction false} RankWithout(q: seq<nat>, i: nat, p: nat)
    requires Distinct(q) && i < |q| && p in q && q[i] != p
    ensures Rank(Without(q, q[i]), p) == Rank(q, p) - if i < Rank(q, p) then 1 else 0
  {
    hide Without, Distinct;
    if i == 0 {
      WithoutHead(q);
    } else {
      InTail(q, i, p);
      WithoutSkip(q, q[i]);
      if q[0] != p {
        RankWithout(q[1..], i - 1, p);
        RankSkip(q[0], Without(q[1..], q[i]), p);
      }
    }
  }

  lemma WithoutSkip(q: seq<nat>, x: nat)
    requires q != [] && q[0] != x
    ensures Without(q, x) == [q[0]] + Without(q[1..], x)
  {
  }

  lemma RankAppend(q: seq<nat>, more: seq<nat>, p: nat)
    requires p in q
    ensures Rank(q + more, p) == Rank(q, p)
  {
    assert (q + more)[Rank(q, p)] == p;
  }

  /** Dispatching on a core p's mask admits picks p or moves it up one place; on
      any other core p does not fall back. */
  lemma DispatchRank(s: Sched, c: nat, p: nat)
    requires Part(s, Some(c)) && c < |s.cores| && p in Q(s, ReadyQ) && p < |s.pcbs|
    requires s.cores[c].Some? ==> s.cores[c].value < |s.pcbs| && s.pcbs[s.cores[c].value].status != Running
    ensures
      var t := Dispatch(s, c);
      if t.cores[c] == Some(p) then c in s.pcbs[p].mask
      else && p in Q(t, ReadyQ) && Rank(Q(t, ReadyQ), p) <= Rank(Q(s, ReadyQ), p)
           && (c in s.pcbs[p].mask ==> Rank(Q(t, ReadyQ), p) == Rank(Q(s, ReadyQ), p) - 1)
  {
    var ready := Q(s, ReadyQ);
    var i := Pick(s, c, ready, 0);
    QueueDistinct(s, ReadyQ);
    if i < |ready| {
      ReadyIs(s, Some(c), i);
      hide Queues, Statuses, Cores, RunOn, Distinct, Without, Q;
      DispatchQueue(s, c, i);
      if ready[i] != p {
        RankWithout(ready, i, p);
      }
    }
  }

  lemma DispatchQueue(s: Sched, c: nat, i: nat)
    requires Queues(s) && c < |s.cores| && i == Pick(s, c, Q(s, ReadyQ), 0) < |Q(s, ReadyQ)| && Q(s, ReadyQ)[i] < |s.pcbs|
    ensures Q(Dispatch(s, c), ReadyQ) == Without(Q(s, ReadyQ), Q(s, ReadyQ)[i])
    ensures |Dispatch(s, c).cores| == |s.cores| && Dispatch(s, c).cores[c] == Some(Q(s, ReadyQ)[i])
  {
    hide Queues, Q;
    RunOnQueues(s, c, Q(s, ReadyQ)[i]);
  }

  /** One pass of the scheduler on core c brings a ready process it may run to
      the core, or one place nearer. */
  lemma ScheduleRank(s: Sched, c: nat, now: nat, p: nat)
    requires Part(s, Some(c)) && Numbered(s, c) && p in Q(s, ReadyQ) && p < |s.pcbs|
    ensures
      var t := Schedule(s, c, now);
      if t.cores[c] == Some(p) then c in s.pcbs[p].mask
      else && p in Q(t, ReadyQ) && Rank(Q(t, ReadyQ), p) <= Rank(Q(s, ReadyQ), p)
           && (c in s.pcbs[p].mask ==> Rank(Q(t, ReadyQ), p) == Rank(Q(s, ReadyQ), p) - 1)
  {
    hide Queues, Statuses, Cores, WakeDue, Requeue, Dispatch, Q, Sleepers;
    var u := CheckSleeping(s, now);
    assert Q(s, SleepQ) == [] + Q(s, SleepQ);
    WakeDuePart(s, [], Q(s, SleepQ), now, Some(c));
    RequeuePart(u, c);
    var v := Requeue(u, c);
    var more := Q(v, ReadyQ)[|Q(s, ReadyQ)|..];
    assert Q(v, ReadyQ) == Q(s, ReadyQ) + more;
    RankAppend(Q(s, ReadyQ), more, p);
    DispatchRank(v, c, p);
  }
}
