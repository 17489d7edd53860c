/** The blocking system calls over the scheduler: mutexes handed on in order of
    arrival, conditions, barriers, waiting, exiting and killing. A step runs a
    core's process from kernel entry to its next pass of the scheduler or its
    return; kernel code is not preempted. */
module Syscalls {
  import opened Bytes
  import opened Scheduler

  /** `owner` is a process number, or 0 or -1 for nobody. */
  datatype Lock = Lock(locked: bool, owner: int)

  /** `claims` records who is between starting to acquire a lock and releasing it:
      pairs of a process and a lock. */
  datatype Kernel = Kernel(s: Sched, locks: seq<Lock>, conds: seq<nat>, bars: seq<int>, claims: set<(nat, nat)>)

  /** Core c entered the kernel on behalf of its running process p. */
  predicate Entered(k: Kernel, c: nat, p: nat) {
    c < |k.s.cores| && k.s.cores[c] == Some(p) && p < |k.s.pcbs| && k.s.pcbs[p].status == Running
  }

  function Pid(k: Kernel, p: nat): nat {
    if p < |k.s.pcbs| then k.s.pcbs[p].pid else 0
  }

  // ---------- Mutexes ----------

  /** do_mutex_lock_release: the first waiter becomes the owner, or the lock is free. */
  function Hand(k: Kernel, l: nat): Kernel
    requires l < |k.locks|
  {
    var q := Q(k.s, LockQ(l));
    if CanUnblock(k.s, LockQ(l)) then
      k.(locks := k.locks[l := k.locks[l].(owner := Pid(k, q[0]))], s := Unblock(k.s, LockQ(l)))
    else k.(locks := k.locks[l := Lock(false, -1)])
  }

  function Acquire(k: Kernel, c: nat, p: nat, l: nat, now: nat): Kernel
    requires Entered(k, c, p) && l < |k.locks|
  {
    var u := k.(claims := k.claims + {(p, l)});
    if !k.locks[l].locked then u.(locks := k.locks[l := Lock(true, Pid(k, p))])
    else u.(s := Schedule(Suspend(k.s, p, LockQ(l)), c, now))
  }

  function Release(k: Kernel, p: nat, l: nat): Kernel
    requires l < |k.locks|
  {
    Hand(k.(claims := k.claims - {(p, l)}), l)
  }

  // ---------- Conditions ----------

  function CondWait(k: Kernel, c: nat, p: nat, x: nat, l: nat, now: nat): Kernel
    requires Entered(k, c, p) && x < |k.conds| && l < |k.locks|
  {
    var u := Hand(k.(s := Suspend(k.s, p, CondQ(x)), conds := k.conds[x := l]), l);
    if c < |u.s.cores| then u.(s := Schedule(u.s, c, now)) else u
  }

  /** A waiter taken off its condition: to the lock's queue, or, if the lock is
      free, made its owner and put on no queue at all. */
  function SignalOne(k: Kernel, w: nat, l: nat): Kernel
    requires w < |k.s.pcbs| && l < |k.locks|
  {
    if k.locks[l].locked then k.(s := Suspend(Detach(k.s, w), w, LockQ(l)))
    else k.(s := Detach(k.s, w), locks := k.locks[l := Lock(true, Pid(k, w))])
  }

  predicate CanSignal(k: Kernel, x: nat) {
    && x < |k.conds| && k.conds[x] < |k.locks|
    && forall i :: 0 <= i < |Q(k.s, CondQ(x))| ==> Q(k.s, CondQ(x))[i] < |k.s.pcbs|
  }

  /** do_condition_signal: with the lock free it returns at once. */
  function Signal(k: Kernel, c: nat, x: nat, now: nat): Kernel
    requires CanSignal(k, x) && Q(k.s, CondQ(x)) != [] && c < |k.s.cores|
  {
    var l := k.conds[x];
    var u := SignalOne(k, Q(k.s, CondQ(x))[0], l);
    if k.locks[l].locked && c < |u.s.cores| then u.(s := Schedule(u.s, c, now)) else u
  }

  /** One round of do_condition_broadcast: with the lock free the waiter becomes
      its owner and joins the ready queue, still marked blocked. */
  function BroadcastOne(k: Kernel, w: nat, l: nat): Kernel
    requires w < |k.s.pcbs| && l < |k.locks|
  {
    if k.locks[l].locked then k.(s := Suspend(Detach(k.s, w), w, LockQ(l)))
    else k.(s := Enqueue(Detach(k.s, w), w, ReadyQ), locks := k.locks[l := Lock(true, Pid(k, w))])
  }

  function BroadcastAll(k: Kernel, ws: seq<nat>, l: nat): (t: Kernel)
    requires l < |k.locks| && forall i :: 0 <= i < |ws| ==> ws[i] < |k.s.pcbs|
    ensures t.s.cores == k.s.cores
    decreases |ws|
  {
    if ws == [] then k else BroadcastAll(BroadcastOne(k, ws[0], l), ws[1..], l)
  }

  function Broadcast(k: Kernel, c: nat, x: nat, now: nat): Kernel
    requires x < |k.conds| && (Q(k.s, CondQ(x)) != [] ==> CanSignal(k, x)) && c < |k.s.cores|
  {
    var u := if Q(k.s, CondQ(x)) == [] then k else BroadcastAll(k, Q(k.s, CondQ(x)), k.conds[x]);
    u.(s := Schedule(u.s, c, now))
  }

  // ---------- Barriers ----------

  function BarrierWait(k: Kernel, c: nat, p: nat, b: nat, now: nat): Kernel
    requires Entered(k, c, p) && b < |k.bars| && forall i :: 0 <= i < |Q(k.s, BarrierQ(b))| ==> Q(k.s, BarrierQ(b))[i] < |k.s.pcbs|
  {
    var q := Q(k.s, BarrierQ(b));
    if k.bars[b] == 1 then
      k.(s := Schedule(WakeAll(k.s, q), c, now), bars := k.bars[b := k.bars[b] + |q|])
    else
      k.(s := Schedule(Suspend(k.s, p, BarrierQ(b)), c, now), bars := k.bars[b := k.bars[b] - 1])
  }

  // ---------- Invariants of the locks ----------

  ghost predicate InCond(k: Kernel, p: nat, l: nat) {
    exists x :: 0 <= x < |k.conds| && k.conds[x] == l && p in Q(k.s, CondQ(x))
  }

  ghost predicate Holds(k: Kernel, p: nat, l: nat) {
    l < |k.locks| && k.locks[l].locked && k.locks[l].owner == Pid(k, p)
  }

  /** Waiters imply a held lock; a waiter is not the owner and has a claim. */
  ghost predicate LockOk(k: Kernel, l: nat)
    requires l < |k.locks|
  {
    && (Q(k.s, LockQ(l)) != [] ==> k.locks[l].locked)
    && (if k.locks[l].locked then 0 < k.locks[l].owner < k.s.nextPid else k.locks[l].owner <= 0)
    && forall p :: p in Q(k.s, LockQ(l)) ==> !Holds(k, p, l) && (p, l) in k.claims
  }

  /** A process waiting on a condition has given up its lock, but not its claim;
      the lock `ex` is about to be given up. */
  ghost predicate CondOk(k: Kernel, x: nat, ex: Option<nat>)
    requires x < |k.conds|
  {
    forall p :: p in Q(k.s, CondQ(x)) ==>
      k.conds[x] < |k.locks| && (p, k.conds[x]) in k.claims && (ex != Some(k.conds[x]) ==> !Holds(k, p, k.conds[x]))
  }

  /** A claim is on a lock its process waits for, waits on a condition to get
      back, or holds. */
  ghost predicate ClaimOk(k: Kernel, p: nat, l: nat, ex: Option<nat>) {
    && l < |k.locks| && p < |k.s.pcbs| && Live(k.s.pcbs[p])
    && (p in Q(k.s, LockQ(l)) || InCond(k, p, l) || (ex != Some(l) && Holds(k, p, l)))
  }

  ghost predicate LockInv(k: Kernel, ex: Option<nat>) {
    && (forall l :: 0 <= l < |k.locks| ==> LockOk(k, l))
    && (forall x :: 0 <= x < |k.conds| ==> CondOk(k, x, ex))
    && (forall p, l :: (p, l) in k.claims ==> ClaimOk(k, p, l, ex))
    && (forall p: nat, l: nat :: p < |k.s.pcbs| && Live(k.s.pcbs[p]) && ex != Some(l) && Holds(k, p, l) ==> (p, l) in k.claims)
  }

  ghost predicate KInv(k: Kernel, mid: Option<nat>) {
    Part(k.s, mid) && Names(k.s) && LockInv(k, None)
  }

  /** Mutual exclusion: of the living at most one holds a lock, and whoever has
      claimed it and waits for nothing is that one. */
  lemma MutualExclusion(k: Kernel, mid: Option<nat>, p: nat, r: nat, l: nat)
    requires KInv(k, mid) && p < |k.s.pcbs| && r < |k.s.pcbs| && Live(k.s.pcbs[p]) && Live(k.s.pcbs[r])
    ensures Holds(k, p, l) && Holds(k, r, l) ==> p == r
    ensures (p, l) in k.claims && k.s.pcbs[p].status != Blocked ==> Holds(k, p, l)
    ensures Holds(k, p, l) ==> (p, l) in k.claims && p !in Q(k.s, LockQ(l))
  {
    hide Distinct, StatusOk;
    if (p, l) in k.claims {
      assert ClaimOk(k, p, l, None);
      if k.s.pcbs[p].status != Blocked {
        NotWaiting(k.s, mid, p, LockQ(l));
        if InCond(k, p, l) {
          var x :| 0 <= x < |k.conds| && k.conds[x] == l && p in Q(k.s, CondQ(x));
          NotWaiting(k.s, mid, p, CondQ(x));
        }
      }
    }
    if Holds(k, p, l) {
      assert LockOk(k, l);
    }
  }

  /** Only blocked processes are in wait queues. */
  lemma NotWaiting(s: Sched, mid: Option<nat>, p: nat, q: QueueId)
    requires Part(s, mid) && p < |s.pcbs| && s.pcbs[p].status != Blocked && q != ReadyQ
    ensures p !in Q(s, q)
  {
    hide Distinct;
    assert StatusOk(s.pcbs[p]);
  }

  /** What the locks see is the lock and condition queues, and who lives. */
  ghost predicate LockFrame(k: Kernel, t: Kernel) {
    && t.locks == k.locks && t.conds == k.conds && t.claims == k.claims
    && |t.s.pcbs| == |k.s.pcbs| && t.s.nextPid >= k.s.nextPid
    && (forall l :: Q(t.s, LockQ(l)) == Q(k.s, LockQ(l))) && (forall x :: Q(t.s, CondQ(x)) == Q(k.s, CondQ(x)))
    && (forall p :: 0 <= p < |k.s.pcbs| ==> Pid(t, p) == Pid(k, p) && (Live(t.s.pcbs[p]) <==> Live(k.s.pcbs[p])))
  }

  lemma LockFrameInv(k: Kernel, t: Kernel, ex: Option<nat>)
    requires LockInv(k, ex) && LockFrame(k, t)
    ensures LockInv(t, ex)
  {
    hide Q, Live;
    forall p, l ensures Holds(t, p, l) == Holds(k, p, l) && InCond(t, p, l) == InCond(k, p, l) {
      FrameHolds(k, t, p, l);
    }
    hide Holds, InCond, Pid;
    forall l | 0 <= l < |t.locks| ensures LockOk(t, l) { assert LockOk(k, l); }
    forall x | 0 <= x < |t.conds| ensures CondOk(t, x, ex) { assert CondOk(k, x, ex); }
    forall p, l | (p, l) in t.claims ensures ClaimOk(t, p, l, ex) { assert ClaimOk(k, p, l, ex); }
  }

  lemma FrameHolds(k: Kernel, t: Kernel, p: nat, l: nat)
    requires LockFrame(k, t)
    ensures Holds(t, p, l) == Holds(k, p, l) && InCond(t, p, l) == InCond(k, p, l)
  {
    hide Q, Live;
    if p < |k.s.pcbs| { assert Pid(t, p) == Pid(k, p); }
    if InCond(k, p, l) {
      var x :| 0 <= x < |k.conds| && k.conds[x] == l && p in Q(k.s, CondQ(x));
      assert p in Q(t.s, CondQ(x));
    }
    if InCond(t, p, l) {
      var x :| 0 <= x < |t.conds| && t.conds[x] == l && p in Q(t.s, CondQ(x));
      assert p in Q(k.s, CondQ(x));
    }
  }

  // ---------- Steps that touch no lock ----------

  lemma ScheduleInv(k: Kernel, c: nat, now: nat)
    requires KInv(k, Some(c)) && c < |k.s.cores|
    ensures KInv(k.(s := Schedule(k.s, c, now)), None)
  {
    hide Part, Schedule, LockInv, Q;
    var t := k.(s := Schedule(k.s, c, now));
    NumberedCore(k.s, c);
    SchedulePart(k.s, c, now);
    SameNamesNames(k.s, t.s);
    SchedFrame(k, t);
    LockFrameInv(k, t, None);
  }

  lemma NumberedCore(s: Sched, c: nat)
    requires Names(s) && c < |s.cores|
    ensures Numbered(s, c)
  {
  }

  lemma SchedFrame(k: Kernel, t: Kernel)
    requires t == k.(s := t.s) && SameNames(k.s, t.s) && forall r :: r != ReadyQ && r != SleepQ ==> Q(t.s, r) == Q(k.s, r)
    ensures LockFrame(k, t)
  {
    hide Q;
  }

  /** Waiting on a queue that is no lock's and no condition's. */
  lemma SuspendInv(k: Kernel, c: nat, p: nat, q: QueueId)
    requires KInv(k, Some(c)) && Entered(k, c, p) && q != ReadyQ && !q.LockQ? && !q.CondQ?
    requires q.WaitQ? && q.target < |k.s.pcbs| ==> Live(k.s.pcbs[q.target])
    ensures KInv(k.(s := Suspend(k.s, p, q)), Some(c))
  {
    hide Part, Suspend, LockInv, Q;
    SuspendPart(k.s, c, p, q);
    var t := k.(s := Suspend(k.s, p, q));
    assert Names(t.s);
    assert LockFrame(k, t);
    LockFrameInv(k, t, None);
  }

  /** Waking everyone on a queue that is no lock's and no condition's. */
  lemma WakeAllInv(k: Kernel, c: nat, q: QueueId)
    requires KInv(k, Some(c)) && q != ReadyQ && !q.LockQ? && !q.CondQ?
    ensures forall i :: 0 <= i < |Q(k.s, q)| ==> Q(k.s, q)[i] < |k.s.pcbs|
    ensures KInv(k.(s := WakeAll(k.s, Q(k.s, q))), Some(c))
  {
    hide Part, LockInv, Q, WakeAll;
    WakeAllPart(k.s, q, Q(k.s, q), Some(c));
    var t := k.(s := WakeAll(k.s, Q(k.s, q)));
    SameNamesNames(k.s, t.s);
    assert LockFrame(k, t);
    LockFrameInv(k, t, None);
  }

  // ---------- Acquiring ----------

  lemma AcquireFreeInv(k: Kernel, p: nat, l: nat, mid: Option<nat>)
    requires KInv(k, mid) && p < |k.s.pcbs| && k.s.pcbs[p].status == Running && l < |k.locks| && !k.locks[l].locked
    ensures KInv(k.(claims := k.claims + {(p, l)}, locks := k.locks[l := Lock(true, Pid(k, p))]), mid)
  {
    hide Part, Q, Live;
    var t := k.(claims := k.claims + {(p, l)}, locks := k.locks[l := Lock(true, Pid(k, p))]);
    assert Live(k.s.pcbs[p]) by { RunningLives(k.s.pcbs[p]); }
    assert LockOk(k, l);
    forall i | 0 <= i < |t.locks| ensures LockOk(t, i) { assert LockOk(k, i); }
    forall x | 0 <= x < |t.conds| ensures CondOk(t, x, None) {
      assert CondOk(k, x, None);
      NotWaiting(k.s, mid, p, CondQ(x));
      forall r | r in Q(t.s, CondQ(x)) ensures !Holds(t, r, t.conds[x]) { WaiterNamed(k, mid, r, p, CondQ(x)); }
    }
    forall r: nat, i: nat | (r, i) in t.claims ensures ClaimOk(t, r, i, None) {
      if (r, i) in k.claims { assert ClaimOk(k, r, i, None); FreeClaim(k, t, r, i, l); }
    }
    forall r: nat, i: nat | r < |t.s.pcbs| && Live(t.s.pcbs[r]) && Holds(t, r, i) ensures (r, i) in t.claims {
      if i == l { SamePid(k.s, r, p); } else { assert Holds(k, r, i); }
    }
  }

  lemma RunningLives(p: Pcb)
    requires p.status == Running
    ensures Live(p)
  {
  }

  /** Two live processes with one number are one. */
  lemma SamePid(s: Sched, r: nat, p: nat)
    requires Names(s) && r < |s.pcbs| && p < |s.pcbs| && Live(s.pcbs[r]) && s.pcbs[r].pid == s.pcbs[p].pid
    ensures r == p
  {
  }

  lemma OtherPid(s: Sched, r: nat, p: nat)
    requires Names(s) && r < |s.pcbs| && p < |s.pcbs| && Live(s.pcbs[r]) && r != p
    ensures s.pcbs[r].pid != s.pcbs[p].pid
  {
  }

  /** A waiter other than p has another number. */
  lemma WaiterNamed(k: Kernel, mid: Option<nat>, r: nat, p: nat, q: QueueId)
    requires Part(k.s, mid) && Names(k.s) && q != ReadyQ && r in Q(k.s, q) && p < |k.s.pcbs| && p !in Q(k.s, q)
    ensures r < |k.s.pcbs| && Live(k.s.pcbs[r]) && Pid(k, r) != Pid(k, p)
  {
    hide Distinct;
    var i :| 0 <= i < |Q(k.s, q)| && Q(k.s, q)[i] == r;
    WaitersBlocked(k.s, mid, q, i);
    OtherPid(k.s, r, p);
  }

  lemma FreeClaim(k: Kernel, t: Kernel, r: nat, i: nat, l: nat)
    requires ClaimOk(k, r, i, None) && t.s == k.s && t.conds == k.conds && |t.locks| == |k.locks| && l < |k.locks| && !k.locks[l].locked
    requires forall j :: 0 <= j < |k.locks| && j != l ==> t.locks[j] == k.locks[j]
    ensures ClaimOk(t, r, i, None)
  {
    hide Q, Live;
    if InCond(k, r, i) {
      var x :| 0 <= x < |k.conds| && k.conds[x] == i && r in Q(k.s, CondQ(x));
      assert InCond(t, r, i);
    }
  }

  // ---------- Queueing for a lock ----------

  /** From k to t process p joined the queue of lock l, leaving any condition. */
  ghost predicate Enrolled(k: Kernel, t: Kernel, p: nat, l: nat) {
    && t.locks == k.locks && t.conds == k.conds && t.claims == k.claims + {(p, l)} && l < |k.locks| && k.locks[l].locked
    && |t.s.pcbs| == |k.s.pcbs| && t.s.nextPid == k.s.nextPid && p < |t.s.pcbs| && Live(t.s.pcbs[p])
    && (forall i :: Q(t.s, LockQ(i)) == if i == l then Q(k.s, LockQ(l)) + [p] else Q(k.s, LockQ(i)))
    && (forall x :: Q(t.s, CondQ(x)) == Without(Q(k.s, CondQ(x)), p))
    && (forall r :: 0 <= r < |k.s.pcbs| ==> Pid(t, r) == Pid(k, r) && (Live(t.s.pcbs[r]) <==> Live(k.s.pcbs[r])))
  }

  lemma EnrolledClaim(k: Kernel, t: Kernel, p: nat, l: nat, r: nat, i: nat)
    requires Enrolled(k, t, p, l) && ClaimOk(k, r, i, None) && (InCond(k, p, i) ==> i == l)
    ensures ClaimOk(t, r, i, None)
  {
    hide Q, Live, Without;
    if InCond(k, r, i) && r != p {
      var x :| 0 <= x < |k.conds| && k.conds[x] == i && r in Q(k.s, CondQ(x));
      assert r in Q(t.s, CondQ(x));
      assert InCond(t, r, i);
    }
  }

  lemma EnrollInv(k: Kernel, t: Kernel, p: nat, l: nat)
    requires LockInv(k, None) && Enrolled(k, t, p, l) && !Holds(k, p, l)
    requires forall i :: InCond(k, p, i) ==> i == l
    ensures LockInv(t, None)
  {
    hide Q, Live, Without, InCond, ClaimOk;
    forall r: nat, i: nat ensures Holds(t, r, i) == Holds(k, r, i) {
      if r < |k.s.pcbs| { assert Pid(t, r) == Pid(k, r); }
    }
    hide Holds;
    forall i | 0 <= i < |t.locks| ensures LockOk(t, i) { assert LockOk(k, i); }
    forall x | 0 <= x < |t.conds| ensures CondOk(t, x, None) { assert CondOk(k, x, None); }
    forall r: nat, i: nat | (r, i) in t.claims ensures ClaimOk(t, r, i, None) {
      if (r, i) in k.claims { EnrolledClaim(k, t, p, l, r, i); } else { NewClaim(t, p, l); }
    }
  }

  lemma NewClaim(t: Kernel, p: nat, l: nat)
    requires l < |t.locks| && p < |t.s.pcbs| && Live(t.s.pcbs[p]) && p in Q(t.s, LockQ(l))
    ensures ClaimOk(t, p, l, None)
  {
  }

  lemma AcquireBusyInv(k: Kernel, c: nat, p: nat, l: nat)
    requires KInv(k, Some(c)) && Entered(k, c, p) && l < |k.locks| && k.locks[l].locked && (p, l) !in k.claims
    ensures KInv(k.(claims := k.claims + {(p, l)}, s := Suspend(k.s, p, LockQ(l))), Some(c))
  {
    hide Part, Suspend, LockInv, Q, Without;
    SuspendPart(k.s, c, p, LockQ(l));
    var t := k.(claims := k.claims + {(p, l)}, s := Suspend(k.s, p, LockQ(l)));
    assert Names(t.s);
    NoHold(k, p, l);
    forall x ensures Q(t.s, CondQ(x)) == Without(Q(k.s, CondQ(x)), p) {
      NotWaiting(k.s, Some(c), p, CondQ(x));
      WithoutAbsent(Q(k.s, CondQ(x)), p);
    }
    forall i ensures !InCond(k, p, i) { NotOnCond(k, Some(c), p, i); }
    EnrollInv(k, t, p, l);
  }

  lemma WithoutAbsent(q: seq<nat>, p: nat)
    requires p !in q
    ensures Without(q, p) == q
  {
  }

  lemma NoHold(k: Kernel, p: nat, l: nat)
    requires LockInv(k, None) && p < |k.s.pcbs| && k.s.pcbs[p].status == Running && (p, l) !in k.claims
    ensures !Holds(k, p, l)
  {
  }

  lemma NotOnCond(k: Kernel, mid: Option<nat>, p: nat, i: nat)
    requires Part(k.s, mid) && p < |k.s.pcbs| && k.s.pcbs[p].status != Blocked
    ensures !InCond(k, p, i)
  {
    hide Part;
    forall x ensures p !in Q(k.s, CondQ(x)) { NotWaiting(k.s, mid, p, CondQ(x)); }
  }

  // ---------- Handing a lock on ----------

  /** The lock l, about to be given up, has no holder among the claims. */
  lemma HandInv(k: Kernel, l: nat, mid: Option<nat>)
    requires Part(k.s, mid) && Names(k.s) && LockInv(k, Some(l)) && l < |k.locks| && k.locks[l].locked
    ensures KInv(Hand(k, l), mid) && Hand(k, l).s.cores == k.s.cores && SameNames(k.s, Hand(k, l).s)
    ensures forall p :: 0 <= p < |k.s.pcbs| && p !in Q(k.s, LockQ(l)) ==> Hand(k, l).s.pcbs[p] == k.s.pcbs[p]
    ensures Hand(k, l).claims == k.claims && Hand(k, l).conds == k.conds && Hand(k, l).bars == k.bars && |Hand(k, l).locks| == |k.locks|
    ensures forall r :: r != ReadyQ && r != LockQ(l) ==> Q(Hand(k, l).s, r) == Q(k.s, r)
    ensures forall i :: 0 <= i < |k.locks| && i != l ==> Hand(k, l).locks[i] == k.locks[i]
  {
    hide Part, LockInv, Q, Unblock;
    if Q(k.s, LockQ(l)) == [] {
      FreeInv(k, l);
    } else {
      UnblockPart(k.s, LockQ(l), mid);
      WaitersBlocked(k.s, mid, LockQ(l), 0);
      HandToInv(k, l, mid);
    }
  }

  lemma FreeInv(k: Kernel, l: nat)
    requires LockInv(k, Some(l)) && l < |k.locks| && Q(k.s, LockQ(l)) == []
    ensures LockInv(k.(locks := k.locks[l := Lock(false, -1)]), None)
  {
    hide Q, Live;
    var t := k.(locks := k.locks[l := Lock(false, -1)]);
    forall r: nat, i: nat ensures Holds(t, r, i) == (i != l && Holds(k, r, i)) && InCond(t, r, i) == InCond(k, r, i) {}
    hide Holds, InCond;
    forall i | 0 <= i < |t.locks| ensures LockOk(t, i) { assert LockOk(k, i); }
    forall x | 0 <= x < |t.conds| ensures CondOk(t, x, None) { assert CondOk(k, x, Some(l)); }
    forall r: nat, i: nat | (r, i) in t.claims ensures ClaimOk(t, r, i, None) { assert ClaimOk(k, r, i, Some(l)); }
  }

  /** The lock goes to the head of its queue, whose claim becomes a hold. */
  lemma HandToInv(k: Kernel, l: nat, mid: Option<nat>)
    requires Part(k.s, mid) && Names(k.s) && LockInv(k, Some(l)) && l < |k.locks| && k.locks[l].locked
    requires CanUnblock(k.s, LockQ(l)) && Unblocked(k.s, Unblock(k.s, LockQ(l)), LockQ(l))
    requires Live(k.s.pcbs[Q(k.s, LockQ(l))[0]])
    ensures LockInv(Hand(k, l), None) && Names(Hand(k, l).s)
  {
    hide Part, Q, Unblock;
    var h := Q(k.s, LockQ(l))[0];
    var t := Hand(k, l);
    assert h in Q(k.s, LockQ(l)) && LockOk(k, l);
    assert Names(t.s);
    forall r: nat, i: nat ensures Holds(t, r, i) == if i == l then Pid(k, r) == Pid(k, h) else Holds(k, r, i) {
      if r < |k.s.pcbs| { assert Pid(t, r) == Pid(k, r); }
    }
    forall r: nat, i: nat ensures InCond(t, r, i) == InCond(k, r, i) { CondsSame(k, t, r, i); }
    HandHead(k, l, mid);
    hide Holds, InCond;
    forall i | 0 <= i < |t.locks| ensures LockOk(t, i) {
      assert LockOk(k, i);
      if i == l { HandRest(k, l, mid); }
    }
    forall x | 0 <= x < |t.conds| ensures CondOk(t, x, None) {
      assert CondOk(k, x, Some(l));
      if t.conds[x] == l {
        forall r | r in Q(t.s, CondQ(x)) ensures !Holds(t, r, l) { WaiterNamed(k, mid, r, h, CondQ(x)); }
      }
    }
    forall r: nat, i: nat | (r, i) in t.claims ensures ClaimOk(t, r, i, None) {
      assert ClaimOk(k, r, i, Some(l));
      if i == l && r in Q(k.s, LockQ(l)) && r != h { InRest(Q(k.s, LockQ(l)), r); }
    }
    forall r: nat, i: nat | r < |t.s.pcbs| && Live(t.s.pcbs[r]) && Holds(t, r, i) ensures (r, i) in t.claims {
      if i == l { SamePid(t.s, r, h); }
    }
  }

  lemma CondsSame(k: Kernel, t: Kernel, r: nat, i: nat)
    requires t.conds == k.conds && forall x :: Q(t.s, CondQ(x)) == Q(k.s, CondQ(x))
    ensures InCond(t, r, i) == InCond(k, r, i)
  {
    hide Q;
    if InCond(k, r, i) {
      var x :| 0 <= x < |k.conds| && k.conds[x] == i && r in Q(k.s, CondQ(x));
      assert r in Q(t.s, CondQ(x));
    }
    if InCond(t, r, i) {
      var x :| 0 <= x < |t.conds| && t.conds[x] == i && r in Q(t.s, CondQ(x));
      assert r in Q(k.s, CondQ(x));
    }
  }

  lemma InRest(q: seq<nat>, r: nat)
    requires q != [] && r in q && r != q[0]
    ensures r in q[1..]
  {
  }

  /** The head of a lock's queue is in no condition's queue. */
  lemma HandHead(k: Kernel, l: nat, mid: Option<nat>)
    requires Part(k.s, mid) && Q(k.s, LockQ(l)) != []
    ensures forall x :: Q(k.s, LockQ(l))[0] !in Q(k.s, CondQ(x))
  {
    hide Distinct;
    WaitersBlocked(k.s, mid, LockQ(l), 0);
    forall x ensures Q(k.s, LockQ(l))[0] !in Q(k.s, CondQ(x)) { NotIn(k.s, Q(k.s, LockQ(l))[0], CondQ(x)); }
  }

  /** The others of the queue have other numbers than its head. */
  lemma HandRest(k: Kernel, l: nat, mid: Option<nat>)
    requires Part(k.s, mid) && Names(k.s) && Q(k.s, LockQ(l)) != []
    ensures forall r :: r in Q(k.s, LockQ(l))[1..] ==> r in Q(k.s, LockQ(l)) && Pid(k, r) != Pid(k, Q(k.s, LockQ(l))[0])
  {
    hide Part;
    var q := Q(k.s, LockQ(l));
    QueueDistinctIn(k.s, mid, LockQ(l));
    WaitersBlocked(k.s, mid, LockQ(l), 0);
    forall r | r in q[1..] ensures r in q && Pid(k, r) != Pid(k, q[0]) {
      var i :| 0 <= i < |q[1..]| && q[1..][i] == r;
      WaitersBlocked(k.s, mid, LockQ(l), i + 1);
      assert q[i + 1] != q[0];
      OtherPid(k.s, r, q[0]);
    }
  }

  lemma QueueDistinctIn(s: Sched, mid: Option<nat>, q: QueueId)
    requires Part(s, mid)
    ensures Distinct(Q(s, q))
  {
    QueueDistinct(s, q);
  }

  // ---------- Releasing and waiting ----------

  lemma EnterInv(k: Kernel, c: nat)
    requires KInv(k, None)
    ensures KInv(k, Some(c))
  {
    hide Queues, Statuses, OnCore, LockInv;
  }

  /** Giving up a claim on a lock whose owner number is one's own. */
  lemma UnclaimInv(k: Kernel, p: nat, l: nat)
    requires Names(k.s) && LockInv(k, None) && p < |k.s.pcbs| && Holds(k, p, l)
    requires p !in Q(k.s, LockQ(l))
    requires forall x :: 0 <= x < |k.conds| && k.conds[x] == l ==> p !in Q(k.s, CondQ(x))
    ensures LockInv(k.(claims := k.claims - {(p, l)}), Some(l))
  {
    hide Q;
    var t := k.(claims := k.claims - {(p, l)});
    forall r: nat, i: nat ensures Holds(t, r, i) == Holds(k, r, i) && InCond(t, r, i) == InCond(k, r, i) {}
    forall r: nat | (r, l) in t.claims ensures ClaimOk(t, r, l, Some(l)) {
      assert ClaimOk(k, r, l, None);
      OtherPid(k.s, r, p);
    }
    hide InCond;
    forall i | 0 <= i < |t.locks| ensures LockOk(t, i) { assert LockOk(k, i); }
    forall x | 0 <= x < |t.conds| ensures CondOk(t, x, Some(l)) { assert CondOk(k, x, None); }
    forall r: nat, i: nat | (r, i) in t.claims ensures ClaimOk(t, r, i, Some(l)) { assert ClaimOk(k, r, i, None); }
  }

  lemma ReleaseInv(k: Kernel, p: nat, l: nat, mid: Option<nat>)
    requires KInv(k, mid) && p < |k.s.pcbs| && k.s.pcbs[p].status == Running && (p, l) in k.claims
    ensures l < |k.locks| && KInv(Release(k, p, l), mid)
  {
    MutualExclusion(k, mid, p, p, l);
    hide Part, LockInv, Q, Hand;
    NotWaiting(k.s, mid, p, LockQ(l));
    forall x | 0 <= x < |k.conds| && k.conds[x] == l ensures p !in Q(k.s, CondQ(x)) { NotWaiting(k.s, mid, p, CondQ(x)); }
    UnclaimInv(k, p, l);
    HandInv(k.(claims := k.claims - {(p, l)}), l, mid);
  }

  /** Joining a condition's queue while still holding its lock. */
  lemma JoinCondInv(k: Kernel, t: Kernel, p: nat, x: nat, l: nat)
    requires Names(k.s) && LockInv(k, None) && x < |k.conds| && p < |k.s.pcbs| && Live(k.s.pcbs[p]) && Holds(k, p, l) && (p, l) in k.claims
    requires Q(k.s, CondQ(x)) != [] ==> k.conds[x] == l
    requires t == k.(s := t.s, conds := k.conds[x := l]) && Suspended(k.s, t.s, p, CondQ(x))
    ensures LockInv(t, Some(l))
  {
    hide Q;
    forall r: nat, i: nat ensures Holds(t, r, i) == Holds(k, r, i) {
      if r < |k.s.pcbs| { assert Pid(t, r) == Pid(k, r); }
    }
    forall r: nat, i: nat | InCond(k, r, i) ensures InCond(t, r, i) {
      var y :| 0 <= y < |k.conds| && k.conds[y] == i && r in Q(k.s, CondQ(y));
      assert t.conds[y] == i && r in Q(t.s, CondQ(y));
    }
    assert t.conds[x] == l && p in Q(t.s, CondQ(x));
    assert InCond(t, p, l);
    hide InCond;
    forall i | 0 <= i < |t.locks| ensures LockOk(t, i) { assert LockOk(k, i); }
    forall y | 0 <= y < |t.conds| ensures CondOk(t, y, Some(l)) { assert CondOk(k, y, None); }
    forall r: nat, i: nat | (r, i) in t.claims ensures ClaimOk(t, r, i, Some(l)) {
      assert ClaimOk(k, r, i, None);
      if i == l && Holds(k, r, l) { SamePid(k.s, r, p); }
    }
  }

  lemma CondJoined(k: Kernel, c: nat, p: nat, x: nat, l: nat)
    requires KInv(k, Some(c)) && Entered(k, c, p) && x < |k.conds| && (p, l) in k.claims
    requires Q(k.s, CondQ(x)) != [] ==> k.conds[x] == l
    ensures l < |k.locks| && k.locks[l].locked
    ensures
      var t := k.(s := Suspend(k.s, p, CondQ(x)), conds := k.conds[x := l]);
      Part(t.s, Some(c)) && Names(t.s) && LockInv(t, Some(l)) && t.s.cores == k.s.cores
  {
    hide Part, LockInv, Q, Suspend;
    MutualExclusion(k, Some(c), p, p, l);
    SuspendPart(k.s, c, p, CondQ(x));
    var t := k.(s := Suspend(k.s, p, CondQ(x)), conds := k.conds[x := l]);
    JoinCondInv(k, t, p, x, l);
    assert Names(t.s);
  }

  lemma CondWaitInv(k: Kernel, c: nat, p: nat, x: nat, l: nat, now: nat)
    requires KInv(k, Some(c)) && Entered(k, c, p) && x < |k.conds| && (p, l) in k.claims
    requires Q(k.s, CondQ(x)) != [] ==> k.conds[x] == l
    ensures l < |k.locks| && KInv(CondWait(k, c, p, x, l, now), None)
  {
    hide Part, Names, LockInv, Q, Hand, Suspend, Schedule, SameNames;
    CondJoined(k, c, p, x, l);
    var t := k.(s := Suspend(k.s, p, CondQ(x)), conds := k.conds[x := l]);
    HandInv(t, l, Some(c));
    ScheduleInv(Hand(t, l), c, now);
  }

  // ---------- Signalling ----------

  lemma TransferPart(s: Sched, w: nat, q: QueueId, mid: Option<nat>)
    requires Part(s, mid) && w < |s.pcbs| && s.pcbs[w].status == Blocked && q.LockQ?
    ensures Part(Suspend(Detach(s, w), w, q), mid)
    ensures Suspend(Detach(s, w), w, q).pcbs == s.pcbs[w := s.pcbs[w].(linked := Some(q))]
    ensures Suspend(Detach(s, w), w, q) == s.(pcbs := Suspend(Detach(s, w), w, q).pcbs, queues := Suspend(Detach(s, w), w, q).queues)
    ensures forall r :: Q(Suspend(Detach(s, w), w, q), r) == if r == q then Without(Q(s, q), w) + [w] else Without(Q(s, r), w)
  {
    hide Queues, Distinct;
    DetachQueues(s, w);
    var u := Detach(s, w);
    SuspendQ(u, w, q);
    SetStatusQueues(u, w, Blocked);
    EnqueueQueues(SetStatus(u, w, Blocked), w, q);
    assert StatusOk(s.pcbs[w]);
    hide Q;
    Moved(s, Suspend(u, w, q), w, mid);
  }

  /** A waiter of a condition, its lock held by another, goes to the lock's queue. */
  lemma SignalOneInv(k: Kernel, x: nat, mid: Option<nat>)
    requires KInv(k, mid) && x < |k.conds| && Q(k.s, CondQ(x)) != [] && k.conds[x] < |k.locks| && k.locks[k.conds[x]].locked
    ensures Q(k.s, CondQ(x))[0] < |k.s.pcbs|
    ensures
      var w := Q(k.s, CondQ(x))[0];
      var t := SignalOne(k, w, k.conds[x]);
      && KInv(t, mid) && t.locks == k.locks && t.conds == k.conds && t.bars == k.bars && t.claims == k.claims
      && t.s.cores == k.s.cores && SameNames(k.s, t.s) && Q(t.s, CondQ(x)) == Q(k.s, CondQ(x))[1..]
      && Q(t.s, LockQ(k.conds[x])) == Q(k.s, LockQ(k.conds[x])) + [w]
      && (forall r :: 0 <= r < |k.s.pcbs| && r != w ==> t.s.pcbs[r] == k.s.pcbs[r])
  {
    hide Part, LockInv, Q, Without, Suspend, Detach;
    var l := k.conds[x];
    WaitersBlocked(k.s, mid, CondQ(x), 0);
    var w := Q(k.s, CondQ(x))[0];
    TransferPart(k.s, w, LockQ(l), mid);
    var t := SignalOne(k, w, l);
    QueueDistinctIn(k.s, mid, CondQ(x));
    WithoutHead(Q(k.s, CondQ(x)));
    forall i ensures w !in Q(k.s, LockQ(i)) && Without(Q(k.s, LockQ(i)), w) == Q(k.s, LockQ(i)) {
      NotInLinked(k.s, mid, w, LockQ(i));
      WithoutAbsent(Q(k.s, LockQ(i)), w);
    }
    assert SameNames(k.s, t.s);
    SameNamesNames(k.s, t.s);
    CondClaim(k, x, w);
    assert t.claims == t.claims + {(w, l)};
    forall i ensures InCond(k, w, i) ==> i == l { OneCond(k, mid, w, x, i); }
    EnrollInv(k, t, w, l);
  }

  lemma NotInLinked(s: Sched, mid: Option<nat>, p: nat, q: QueueId)
    requires Part(s, mid) && p < |s.pcbs| && s.pcbs[p].linked != Some(q)
    ensures p !in Q(s, q)
  {
    NotIn(s, p, q);
  }

  lemma CondClaim(k: Kernel, x: nat, w: nat)
    requires LockInv(k, None) && x < |k.conds| && w in Q(k.s, CondQ(x))
    ensures k.conds[x] < |k.locks| && (w, k.conds[x]) in k.claims && !Holds(k, w, k.conds[x])
  {
    assert CondOk(k, x, None);
  }

  /** A process waits on one condition at most. */
  lemma OneCond(k: Kernel, mid: Option<nat>, w: nat, x: nat, i: nat)
    requires Part(k.s, mid) && x < |k.conds| && w < |k.s.pcbs| && k.s.pcbs[w].linked == Some(CondQ(x))
    ensures InCond(k, w, i) ==> i == k.conds[x]
  {
    hide Part;
    if InCond(k, w, i) {
      var y :| 0 <= y < |k.conds| && k.conds[y] == i && w in Q(k.s, CondQ(y));
      if y != x { NotInLinked(k.s, mid, w, CondQ(y)); }
    }
  }

  /** Broadcasting with the lock held moves every waiter, in order, behind those
      already waiting for the lock. */
  lemma {:induction false} BroadcastAllInv(k: Kernel, x: nat, ws: seq<nat>, mid: Option<nat>)
    requires KInv(k, mid) && x < |k.conds| && Q(k.s, CondQ(x)) == ws && k.conds[x] < |k.locks| && k.locks[k.conds[x]].locked
    ensures forall i :: 0 <= i < |ws| ==> ws[i] < |k.s.pcbs|
    ensures
      var t := BroadcastAll(k, ws, k.conds[x]);
      && KInv(t, mid) && t.s.cores == k.s.cores && t.claims == k.claims && t.locks == k.locks && |t.s.pcbs| == |k.s.pcbs|
      && Q(t.s, CondQ(x)) == [] && Q(t.s, LockQ(k.conds[x])) == Q(k.s, LockQ(k.conds[x])) + ws
    decreases |ws|
  {
    hide KInv, Q, Suspend, Detach, Enqueue, SameNames;
    if ws == [] {
      assert Q(k.s, LockQ(k.conds[x])) + [] == Q(k.s, LockQ(k.conds[x]));
    } else {
      CondWaiters(k, x, mid);
      SignalOneInv(k, x, mid);
      var t := SignalOne(k, ws[0], k.conds[x]);
      NamesSize(k.s, t.s);
      BroadcastAllInv(t, x, ws[1..], mid);
      assert Q(k.s, LockQ(k.conds[x])) + [ws[0]] + ws[1..] == Q(k.s, LockQ(k.conds[x])) + ws;
    }
  }

  lemma CondWaiters(k: Kernel, x: nat, mid: Option<nat>)
    requires KInv(k, mid)
    ensures forall i :: 0 <= i < |Q(k.s, CondQ(x))| ==> Q(k.s, CondQ(x))[i] < |k.s.pcbs|
  {
    forall i | 0 <= i < |Q(k.s, CondQ(x))| ensures Q(k.s, CondQ(x))[i] < |k.s.pcbs| {
      WaitersBlocked(k.s, mid, CondQ(x), i);
    }
  }

  lemma NamesSize(s: Sched, t: Sched)
    requires SameNames(s, t)
    ensures |t.pcbs| == |s.pcbs|
  {
  }

  // ---------- Ending a process ----------

  /** A process, no owner of any lock, leaves its queue with all its claims. */
  function Depart(k: Kernel, i: nat): Kernel
    requires i < |k.s.pcbs|
  {
    k.(s := Leave(k.s, i), claims := set q | q in k.claims && q.0 != i)
  }

  lemma DepartLocks(k: Kernel, i: nat)
    requires Names(k.s) && LockInv(k, None) && i < |k.s.pcbs| && Live(k.s.pcbs[i])
    requires Leave(k.s, i).pcbs == k.s.pcbs[i := k.s.pcbs[i].(status := Exited, linked := None)] && Leave(k.s, i).nextPid == k.s.nextPid
    requires forall r :: Q(Leave(k.s, i), r) == Without(Q(k.s, r), i)
    ensures LockInv(Depart(k, i), None) && Names(Depart(k, i).s)
  {
    hide Q, Leave, Without;
    var t := Depart(k, i);
    forall r: nat, l: nat ensures Holds(t, r, l) == Holds(k, r, l) {
      if r < |k.s.pcbs| { assert Pid(t, r) == Pid(k, r); }
    }
    forall l | 0 <= l < |t.locks| ensures LockOk(t, l) { assert LockOk(k, l); }
    forall x | 0 <= x < |t.conds| ensures CondOk(t, x, None) { assert CondOk(k, x, None); }
    forall r: nat, l: nat | (r, l) in t.claims ensures ClaimOk(t, r, l, None) {
      assert ClaimOk(k, r, l, None);
      if InCond(k, r, l) {
        var y :| 0 <= y < |k.conds| && k.conds[y] == l && r in Q(k.s, CondQ(y));
        assert r in Q(t.s, CondQ(y));
      }
    }
  }

  lemma DepartInv(k: Kernel, i: nat, mid: Option<nat>)
    requires KInv(k, mid) && i < |k.s.pcbs| && Live(k.s.pcbs[i]) && Q(k.s, WaitQ(i)) == []
    ensures KInv(Depart(k, i), mid) && Depart(k, i).s.cores == k.s.cores
    ensures Depart(k, i).s.pcbs == k.s.pcbs[i := k.s.pcbs[i].(status := Exited, linked := None)]
  {
    hide Part, LockInv, Q, Leave, Without;
    LeavePart(k.s, i, mid);
    LeaveNext(k.s, i);
    DepartLocks(k, i);
  }

  lemma LeaveNext(s: Sched, i: nat)
    requires i < |s.pcbs|
    ensures Leave(s, i).nextPid == s.nextPid
  {
  }

  /** do_exit: whoever waits for the process is woken; its locks stay locked. */
  function Exit(k: Kernel, c: nat, p: nat, now: nat): Kernel
    requires Entered(k, c, p) && forall i :: 0 <= i < |Q(k.s, WaitQ(p))| ==> Q(k.s, WaitQ(p))[i] < |k.s.pcbs|
  {
    var u := Depart(k.(s := WakeAll(k.s, Q(k.s, WaitQ(p)))), p);
    if c < |u.s.cores| then u.(s := Schedule(u.s, c, now)) else u
  }

  lemma ExitInv(k: Kernel, c: nat, p: nat, now: nat)
    requires KInv(k, Some(c)) && Entered(k, c, p)
    ensures forall i :: 0 <= i < |Q(k.s, WaitQ(p))| ==> Q(k.s, WaitQ(p))[i] < |k.s.pcbs|
    ensures KInv(Exit(k, c, p, now), None)
  {
    hide Part, Names, LockInv, Q, WakeAll, Depart, Schedule;
    WakeAllInv(k, c, WaitQ(p));
    WaitDrained(k.s, p, Some(c));
    var t := k.(s := WakeAll(k.s, Q(k.s, WaitQ(p))));
    RunningLives(k.s.pcbs[p]);
    DepartInv(t, p, Some(c));
    ScheduleInv(Depart(t, p), c, now);
  }

  lemma WaitDrained(s: Sched, p: nat, mid: Option<nat>)
    requires Part(s, mid) && p < |s.pcbs|
    ensures forall i :: 0 <= i < |Q(s, WaitQ(p))| ==> Q(s, WaitQ(p))[i] < |s.pcbs|
    ensures Q(WakeAll(s, Q(s, WaitQ(p))), WaitQ(p)) == []
    ensures Live(WakeAll(s, Q(s, WaitQ(p))).pcbs[p]) <==> Live(s.pcbs[p])
    ensures Part(WakeAll(s, Q(s, WaitQ(p))), mid) && SameNames(s, WakeAll(s, Q(s, WaitQ(p))))
    ensures forall r :: r != ReadyQ && r != WaitQ(p) ==> Q(WakeAll(s, Q(s, WaitQ(p))), r) == Q(s, r)
  {
    hide Part, Q, WakeAll;
    WakeAllPart(s, WaitQ(p), Q(s, WaitQ(p)), mid);
  }

  // ---------- Killing ----------

  /** The first slot with a process number. */
  function Find(pcbs: seq<Pcb>, pid: nat, i: nat): (r: nat)
    requires i <= |pcbs|
    ensures i <= r <= |pcbs| && (r < |pcbs| ==> pcbs[r].pid == pid) && forall j :: i <= j < r ==> pcbs[j].pid != pid
    decreases |pcbs| - i
  {
    if i == |pcbs| || pcbs[i].pid == pid then i else Find(pcbs, pid, i + 1)
  }

  /** release_pcb_lock: every lock owned by the number is handed on or freed. */
  function ReleaseAll(k: Kernel, i: nat, pid: nat, l: nat): (t: Kernel)
    requires l <= |k.locks|
    decreases |k.locks| - l
  {
    if l == |k.locks| then k
    else
      var u := if k.locks[l].owner == pid then Release(k, i, l) else k;
      if |u.locks| == |k.locks| then ReleaseAll(u, i, pid, l + 1) else u
  }

  /** Handing on a lock owned by the number of process i, alive or not. */
  lemma ReleaseForInv(k: Kernel, i: nat, l: nat, mid: Option<nat>)
    requires KInv(k, mid) && i < |k.s.pcbs| && Pid(k, i) > 0 && l < |k.locks| && k.locks[l].owner == Pid(k, i)
    ensures KInv(Release(k, i, l), mid) && |Release(k, i, l).locks| == |k.locks| && SameNames(k.s, Release(k, i, l).s)
    ensures Release(k, i, l).s.cores == k.s.cores && Release(k, i, l).s.pcbs[i] == k.s.pcbs[i]
    ensures forall x :: Q(Release(k, i, l).s, WaitQ(x)) == Q(k.s, WaitQ(x))
    ensures Release(k, i, l).locks[l].owner != Pid(k, i)
    ensures forall j :: 0 <= j < |k.locks| && j != l ==> Release(k, i, l).locks[j] == k.locks[j]
  {
    OwnerFacts(k, i, l, mid);
    hide Part, LockInv, Q, Hand;
    UnclaimInv(k, i, l);
    var u := k.(claims := k.claims - {(i, l)});
    HandInv(u, l, mid);
    HandOwner(u, i, l, mid);
  }

  lemma OwnerFacts(k: Kernel, i: nat, l: nat, mid: Option<nat>)
    requires KInv(k, mid) && i < |k.s.pcbs| && Pid(k, i) > 0 && l < |k.locks| && k.locks[l].owner == Pid(k, i)
    ensures k.locks[l].locked && Holds(k, i, l) && i !in Q(k.s, LockQ(l))
    ensures forall x :: 0 <= x < |k.conds| && k.conds[x] == l ==> i !in Q(k.s, CondQ(x))
  {
    hide Part;
    assert LockOk(k, l);
    forall x | 0 <= x < |k.conds| && k.conds[x] == l ensures i !in Q(k.s, CondQ(x)) { assert CondOk(k, x, None); }
  }

  lemma HandOwner(k: Kernel, i: nat, l: nat, mid: Option<nat>)
    requires Part(k.s, mid) && Names(k.s) && i < |k.s.pcbs| && Pid(k, i) > 0 && l < |k.locks| && i !in Q(k.s, LockQ(l))
    ensures Hand(k, l).locks[l].owner != Pid(k, i)
  {
    hide Part;
    if Q(k.s, LockQ(l)) != [] {
      WaitersBlocked(k.s, mid, LockQ(l), 0);
      var h := Q(k.s, LockQ(l))[0];
      OtherPid(k.s, h, i);
    }
  }

  lemma {:induction false} ReleaseAllInv(k: Kernel, i: nat, pid: nat, l: nat, mid: Option<nat>)
    requires KInv(k, mid) && i < |k.s.pcbs| && Pid(k, i) == pid > 0 && l <= |k.locks|
    requires forall j :: 0 <= j < l ==> k.locks[j].owner != pid
    ensures
      var t := ReleaseAll(k, i, pid, l);
      && KInv(t, mid) && t.s.cores == k.s.cores && |t.s.pcbs| == |k.s.pcbs| && t.s.pcbs[i] == k.s.pcbs[i]
      && (forall x :: Q(t.s, WaitQ(x)) == Q(k.s, WaitQ(x))) && |t.locks| == |k.locks|
      && (forall j :: 0 <= j < |t.locks| ==> t.locks[j].owner != pid)
    decreases |k.locks| - l
  {
    hide KInv, Q, Release, SameNames;
    if l < |k.locks| {
      var u := k;
      if k.locks[l].owner == pid {
        ReleaseForInv(k, i, l, mid);
        u := Release(k, i, l);
        NamesSize(k.s, u.s);
      }
      ReleaseAllInv(u, i, pid, l + 1, mid);
    }
  }

  /** The process number of a dead slot cleared. */
  function Unname(k: Kernel, i: nat): Kernel
    requires i < |k.s.pcbs|
  {
    k.(s := k.s.(pcbs := k.s.pcbs[i := k.s.pcbs[i].(pid := 0)]))
  }

  lemma UnnameInv(k: Kernel, i: nat, mid: Option<nat>)
    requires KInv(k, mid) && i < |k.s.pcbs| && !Live(k.s.pcbs[i])
    ensures KInv(Unname(k, i), mid)
  {
    hide Distinct;
    var t := Unname(k, i);
    assert forall r :: Q(t.s, r) == Q(k.s, r);
    UnnamePart(k.s, t.s, i, mid);
    hide Q;
    assert Names(t.s);
    hide Part, Names;
    forall r: nat, l: nat ensures (r != i ==> Holds(t, r, l) == Holds(k, r, l)) && InCond(t, r, l) == InCond(k, r, l) { CondsSame(k, t, r, l); }
    UnnameLocks(k, t, i, mid);
  }

  lemma UnnamePart(s: Sched, t: Sched, i: nat, mid: Option<nat>)
    requires Part(s, mid) && i < |s.pcbs| && t == s.(pcbs := s.pcbs[i := s.pcbs[i].(pid := 0)])
    requires forall r :: Q(t, r) == Q(s, r)
    ensures Part(t, mid)
  {
    hide Distinct, Q, OnCore;
    forall x | 0 <= x < |t.pcbs| ensures OnCore(t, x) == OnCore(s, x) { CoresSame(s, t, x); }
    forall x | 0 <= x < |t.pcbs| ensures StatusOk(t.pcbs[x]) { assert StatusOk(s.pcbs[x]); }
    hide StatusOk;
    QueuesSame(s, t);
  }

  lemma CoresSame(s: Sched, t: Sched, x: nat)
    requires t.cores == s.cores
    ensures OnCore(t, x) == OnCore(s, x)
  {
  }

  /** Queues depend on the links of the processes only. */
  lemma QueuesSame(s: Sched, t: Sched)
    requires Queues(s) && |t.pcbs| == |s.pcbs| && (forall r :: Q(t, r) == Q(s, r))
    requires forall x :: 0 <= x < |s.pcbs| ==> t.pcbs[x].linked == s.pcbs[x].linked
    ensures Queues(t)
  {
    hide Distinct, Q;
  }

  lemma UnnameLocks(k: Kernel, t: Kernel, i: nat, mid: Option<nat>)
    requires KInv(k, mid) && i < |k.s.pcbs| && !Live(k.s.pcbs[i]) && t == Unname(k, i)
    requires forall r :: Q(t.s, r) == Q(k.s, r)
    requires forall r: nat, l: nat :: (r != i ==> Holds(t, r, l) == Holds(k, r, l)) && InCond(t, r, l) == InCond(k, r, l)
    ensures LockInv(t, None)
  {
    hide Part, Q, InCond;
    forall q | q != ReadyQ ensures i !in Q(k.s, q) { DeadNotIn(k.s, mid, i, q); }
    hide Holds;
    forall l | 0 <= l < |t.locks| ensures LockOk(t, l) { assert LockOk(k, l); }
    forall x | 0 <= x < |t.conds| ensures CondOk(t, x, None) { assert CondOk(k, x, None); }
    forall r: nat, l: nat | (r, l) in t.claims ensures ClaimOk(t, r, l, None) { assert ClaimOk(k, r, l, None); }
  }

  lemma DeadNotIn(s: Sched, mid: Option<nat>, i: nat, q: QueueId)
    requires Part(s, mid) && i < |s.pcbs| && !Live(s.pcbs[i]) && q != ReadyQ
    ensures i !in Q(s, q)
  {
    NotWaiting(s, mid, i, q);
  }

  /** do_kill of the process in slot i, with a number above zero. Waiters on it
      are woken, its locks handed on, and it leaves its queue; only if it was
      running does the killer pass through the scheduler. (The kernel clears the
      number before it releases the locks, which look at other numbers only.) */
  function KillSlot(k: Kernel, c: nat, i: nat, now: nat): Kernel
    requires i < |k.s.pcbs| && c < |k.s.cores| && forall j :: 0 <= j < |Q(k.s, WaitQ(i))| ==> Q(k.s, WaitQ(i))[j] < |k.s.pcbs|
  {
    var u := ReleaseAll(k.(s := WakeAll(k.s, Q(k.s, WaitQ(i)))), i, k.s.pcbs[i].pid, 0);
    if i >= |u.s.pcbs| then u
    else if !Live(k.s.pcbs[i]) then Unname(u, i)
    else
      var v := Depart(u, i);
      if i >= |v.s.pcbs| then v else
      var w := Unname(v, i);
      if k.s.pcbs[i].status == Running && c < |w.s.cores| then w.(s := Schedule(w.s, c, now)) else w
  }

  lemma KillSlotInv(k: Kernel, c: nat, i: nat, now: nat)
    requires KInv(k, None) && i < |k.s.pcbs| && k.s.pcbs[i].pid > 0 && c < |k.s.cores|
    ensures forall j :: 0 <= j < |Q(k.s, WaitQ(i))| ==> Q(k.s, WaitQ(i))[j] < |k.s.pcbs|
    ensures KInv(KillSlot(k, c, i, now), None)
  {
    hide Part, Names, LockInv, Q, WakeAll, ReleaseAll, Depart, Schedule, Unname;
    WaitDrained(k.s, i, None);
    var t := k.(s := WakeAll(k.s, Q(k.s, WaitQ(i))));
    KillWoken(k, t, i);
    ReleaseAllInv(t, i, k.s.pcbs[i].pid, 0, None);
    var u := ReleaseAll(t, i, k.s.pcbs[i].pid, 0);
    if !Live(k.s.pcbs[i]) {
      UnnameInv(u, i, None);
    } else {
      DepartInv(u, i, None);
      UnnameInv(Depart(u, i), i, None);
      if k.s.pcbs[i].status == Running {
        EnterInv(Unname(Depart(u, i), i), c);
        UnnameCores(Depart(u, i), i);
        ScheduleInv(Unname(Depart(u, i), i), c, now);
      }
    }
  }

  lemma UnnameCores(k: Kernel, i: nat)
    requires i < |k.s.pcbs|
    ensures Unname(k, i).s.cores == k.s.cores
  {
  }

  lemma KillWoken(k: Kernel, t: Kernel, i: nat)
    requires KInv(k, None) && t == k.(s := t.s) && Part(t.s, None) && SameNames(k.s, t.s) && i < |k.s.pcbs|
    requires forall r :: r != ReadyQ && r != WaitQ(i) ==> Q(t.s, r) == Q(k.s, r)
    ensures KInv(t, None) && Pid(t, i) == Pid(k, i) && (Live(t.s.pcbs[i]) <==> Live(k.s.pcbs[i]))
  {
    hide Part, LockInv, Q;
    SameNamesNames(k.s, t.s);
    assert LockFrame(k, t);
    LockFrameInv(k, t, None);
  }

  // ---------- Starting a process ----------

  /** do_exec in a free slot: a new process with the next number, ready. */
  function Exec(k: Kernel, i: nat, mask: set<nat>): Kernel
    requires i < |k.s.pcbs|
  {
    var u := k.s.(pcbs := k.s.pcbs[i := Pcb(Ready, k.s.nextPid, mask, 0, None)],
                  queues := k.s.queues[WaitQ(i) := []], nextPid := k.s.nextPid + 1);
    k.(s := Enqueue(u, i, ReadyQ))
  }

  lemma ExecQueues(s: Sched, i: nat, p: Pcb, t: Sched)
    requires Queues(s) && i < |s.pcbs| && s.pcbs[i].linked == None && Q(s, WaitQ(i)) == []
    requires p.linked == None && t == s.(pcbs := s.pcbs[i := p], queues := s.queues[WaitQ(i) := []], nextPid := t.nextPid)
    ensures Queues(t) && forall r :: Q(t, r) == Q(s, r)
  {
    forall r ensures Q(t, r) == Q(s, r) {}
    hide Distinct, Q;
    assert forall q :: Distinct(Q(s, q));
  }

  lemma ExecPart(k: Kernel, i: nat, mask: set<nat>)
    requires Part(k.s, None) && Names(k.s) && i < |k.s.pcbs| && !Live(k.s.pcbs[i]) && !OnCore(k.s, i)
    ensures Part(Exec(k, i, mask).s, None) && Names(Exec(k, i, mask).s)
    ensures forall r :: Q(Exec(k, i, mask).s, r) == if r == ReadyQ then Q(k.s, ReadyQ) + [i] else Q(k.s, r)
  {
    hide Queues, Distinct;
    var s := k.s;
    var p := Pcb(Ready, s.nextPid, mask, 0, None);
    var u := s.(pcbs := s.pcbs[i := p], queues := s.queues[WaitQ(i) := []], nextPid := s.nextPid + 1);
    assert StatusOk(s.pcbs[i]);
    ExecQueues(s, i, p, u);
    var t := Enqueue(u, i, ReadyQ);
    EnqueueQueues(u, i, ReadyQ);
    forall r ensures Q(t, r) == if r == ReadyQ then Q(s, ReadyQ) + [i] else Q(s, r) { EnqueueQ(u, i, ReadyQ, r); }
    ExecStatuses(s, t, i);
  }

  lemma ExecStatuses(s: Sched, t: Sched, i: nat)
    requires Statuses(s) && Cores(s, None) && Names(s) && i < |s.pcbs| == |t.pcbs| && !OnCore(s, i)
    requires t.pcbs == s.pcbs[i := t.pcbs[i]] && t.cores == s.cores && t.nextPid == s.nextPid + 1
    requires t.pcbs[i].status == Ready && t.pcbs[i].linked == Some(ReadyQ) && t.pcbs[i].pid == s.nextPid > 0
    requires forall x :: Q(t, WaitQ(x)) == Q(s, WaitQ(x))
    ensures Statuses(t) && Cores(t, None) && Names(t)
  {
    hide Q;
    forall x | 0 <= x < |t.pcbs| && t.pcbs[x].status == Running ensures OnCore(t, x) { assert OnCore(s, x); }
    assert forall c :: 0 <= c < |s.cores| ==> s.cores[c] != Some(i);
  }

  lemma ExecInv(k: Kernel, i: nat, mask: set<nat>)
    requires KInv(k, None) && i < |k.s.pcbs| && !Live(k.s.pcbs[i]) && !OnCore(k.s, i)
    ensures KInv(Exec(k, i, mask), None)
  {
    hide Part, Names, Q, Distinct;
    var t := Exec(k, i, mask);
    ExecPart(k, i, mask);
    forall q | q != ReadyQ ensures i !in Q(k.s, q) { DeadNotIn(k.s, None, i, q); }
    forall r: nat, l: nat ensures InCond(t, r, l) == InCond(k, r, l) { CondsSame(k, t, r, l); }
    forall r: nat, l: nat | r != i ensures Holds(t, r, l) == Holds(k, r, l) {}
    forall l: nat | l < |k.locks| ensures !Holds(t, i, l) { assert LockOk(k, l); }
    hide InCond, Holds;
    forall l | 0 <= l < |t.locks| ensures LockOk(t, l) { assert LockOk(k, l); }
    forall x | 0 <= x < |t.conds| ensures CondOk(t, x, None) { assert CondOk(k, x, None); }
    forall r: nat, l: nat | (r, l) in t.claims ensures ClaimOk(t, r, l, None) { assert ClaimOk(k, r, l, None); }
    forall r: nat, l: nat | r < |t.s.pcbs| && Live(t.s.pcbs[r]) && Holds(t, r, l) ensures (r, l) in t.claims {
      InRange(t, r, l);
    }
  }

  lemma InRange(k: Kernel, p: nat, l: nat)
    requires Holds(k, p, l)
    ensures l < |k.locks|
  {
  }

  // ---------- All the calls ----------

  datatype Call =
    | Yield | SleepFor(time: nat) | ExitCall | KillPid(pid: nat) | WaitPid(pid: nat) | Start(slot: nat, mask: set<nat>)
    | MutexAcquire(l: nat) | MutexRelease(l: nat) | CondWaitOn(x: nat, l: nat) | CondSignal(x: nat) | CondBroadcast(x: nat)
    | BarrierCall(b: nat)

  /** What the calls ask of their callers: a running process makes them; no
      recursive acquire; only the owner releases, waits and signals; all waiters
      of a condition use one mutex, and there is one to signal; a slot is not
      reused while a core still runs the process killed in it. */
  ghost predicate Proper(k: Kernel, c: nat, p: nat, call: Call) {
    match call
    case MutexAcquire(l) => l < |k.locks| && (p, l) !in k.claims
    case MutexRelease(l) => (p, l) in k.claims
    case CondWaitOn(x, l) => x < |k.conds| && (p, l) in k.claims && (Q(k.s, CondQ(x)) != [] ==> k.conds[x] == l)
    case CondSignal(x) => x < |k.conds| && Q(k.s, CondQ(x)) != [] && (p, k.conds[x]) in k.claims
    case CondBroadcast(x) => x < |k.conds| && (Q(k.s, CondQ(x)) != [] ==> (p, k.conds[x]) in k.claims)
    case BarrierCall(b) => b < |k.bars|
    case KillPid(pid) => pid > 0
    case Start(i, _) => i < |k.s.pcbs| && !Live(k.s.pcbs[i]) && !OnCore(k.s, i)
    case _ => true
  }

  ghost predicate Enabled(k: Kernel, c: nat, call: Call) {
    c < |k.s.cores| && KInv(k, None) &&
    (call.Yield? || (k.s.cores[c].Some? && Entered(k, c, k.s.cores[c].value) && Proper(k, c, k.s.cores[c].value, call)))
  }

  function Sleepy(k: Kernel, p: nat, wakeup: nat): Kernel
    requires p < |k.s.pcbs|
  {
    k.(s := k.s.(pcbs := k.s.pcbs[p := k.s.pcbs[p].(wakeup := wakeup)]))
  }

  /** do_waitpid: wait for a process that has not ended; in any case reschedule. */
  function AwaitPid(k: Kernel, c: nat, p: nat, pid: nat, now: nat): Kernel
    requires Entered(k, c, p)
  {
    var i := Find(k.s.pcbs, pid, 0);
    if i == |k.s.pcbs| then k
    else if Live(k.s.pcbs[i]) then k.(s := Schedule(Suspend(k.s, p, WaitQ(i)), c, now))
    else k.(s := Schedule(k.s, c, now))
  }

  ghost function Step(k: Kernel, c: nat, call: Call, now: nat): Kernel
    requires Enabled(k, c, call)
  {
    if call.Yield? then k.(s := Schedule(k.s, c, now)) else
    var p := k.s.cores[c].value;
    match call
    case SleepFor(time) =>
      (var u := Sleepy(k, p, time + now); u.(s := Schedule(Suspend(u.s, p, SleepQ), c, now)))
    case ExitCall => (WaitDrained(k.s, p, None); Exit(k, c, p, now))
    case KillPid(pid) =>
      (var i := Find(k.s.pcbs, pid, 0); if i == |k.s.pcbs| then k else (WaitDrained(k.s, i, None); KillSlot(k, c, i, now)))
    case WaitPid(pid) => AwaitPid(k, c, p, pid, now)
    case Start(i, mask) => Exec(k, i, mask)
    case MutexAcquire(l) => Acquire(k, c, p, l, now)
    case MutexRelease(l) => (Claimed(k, p, l); Release(k, p, l))
    case CondWaitOn(x, l) => (Claimed(k, p, l); CondWait(k, c, p, x, l, now))
    case CondSignal(x) => (Claimed(k, p, k.conds[x]); CondWaiters(k, x, None); Signal(k, c, x, now))
    case CondBroadcast(x) => (SignalReady(k, p, x); Broadcast(k, c, x, now))
    case BarrierCall(b) => (BarrierWaiters(k, b); BarrierWait(k, c, p, b, now))
    case Yield => k
  }

  lemma Claimed(k: Kernel, p: nat, l: nat)
    requires KInv(k, None) && (p, l) in k.claims
    ensures l < |k.locks|
  {
    assert ClaimOk(k, p, l, None);
  }

  lemma SignalReady(k: Kernel, p: nat, x: nat)
    requires KInv(k, None) && x < |k.conds| && (Q(k.s, CondQ(x)) != [] ==> (p, k.conds[x]) in k.claims)
    ensures Q(k.s, CondQ(x)) != [] ==> CanSignal(k, x)
  {
    if Q(k.s, CondQ(x)) != [] { Claimed(k, p, k.conds[x]); }
    CondWaiters(k, x, None);
  }

  lemma BarrierWaiters(k: Kernel, b: nat)
    requires KInv(k, None)
    ensures forall i :: 0 <= i < |Q(k.s, BarrierQ(b))| ==> Q(k.s, BarrierQ(b))[i] < |k.s.pcbs|
  {
    forall i | 0 <= i < |Q(k.s, BarrierQ(b))| ensures Q(k.s, BarrierQ(b))[i] < |k.s.pcbs| {
      WaitersBlocked(k.s, None, BarrierQ(b), i);
    }
  }

  // ---------- Every call keeps the invariant ----------

  lemma SleepyInv(k: Kernel, p: nat, wakeup: nat, mid: Option<nat>)
    requires KInv(k, mid) && p < |k.s.pcbs|
    ensures KInv(Sleepy(k, p, wakeup), mid)
  {
    hide Distinct;
    var t := Sleepy(k, p, wakeup);
    assert forall r :: Q(t.s, r) == Q(k.s, r);
    SleepyPart(k.s, t.s, p, mid);
    hide Q, Part;
    assert LockFrame(k, t);
    LockFrameInv(k, t, None);
  }

  lemma SleepyPart(s: Sched, t: Sched, p: nat, mid: Option<nat>)
    requires Part(s, mid) && p < |s.pcbs| == |t.pcbs| && t == s.(pcbs := s.pcbs[p := s.pcbs[p].(wakeup := t.pcbs[p].wakeup)])
    requires forall r :: Q(t, r) == Q(s, r)
    ensures Part(t, mid)
  {
    hide Distinct, Q, OnCore;
    forall x | 0 <= x < |t.pcbs| ensures OnCore(t, x) == OnCore(s, x) { CoresSame(s, t, x); }
    forall x | 0 <= x < |t.pcbs| ensures StatusOk(t.pcbs[x]) { assert StatusOk(s.pcbs[x]); }
    hide StatusOk;
    QueuesSame(s, t);
  }

  lemma SleepInv(k: Kernel, c: nat, p: nat, time: nat, now: nat)
    requires KInv(k, Some(c)) && Entered(k, c, p)
    ensures
      var u := Sleepy(k, p, time);
      KInv(u.(s := Schedule(Suspend(u.s, p, SleepQ), c, now)), None)
  {
    hide KInv, Suspend, Schedule;
    SleepyInv(k, p, time, Some(c));
    var u := Sleepy(k, p, time);
    SuspendInv(u, c, p, SleepQ);
    SuspendCores(u.s, p, SleepQ);
    ScheduleInv(u.(s := Suspend(u.s, p, SleepQ)), c, now);
  }

  lemma SuspendCores(s: Sched, p: nat, q: QueueId)
    requires p < |s.pcbs|
    ensures Suspend(s, p, q).cores == s.cores
  {
  }

  lemma AwaitInv(k: Kernel, c: nat, p: nat, pid: nat, now: nat)
    requires KInv(k, None) && Entered(k, c, p)
    ensures KInv(AwaitPid(k, c, p, pid, now), None)
  {
    hide KInv, Suspend, Schedule;
    EnterInv(k, c);
    var i := Find(k.s.pcbs, pid, 0);
    if i < |k.s.pcbs| && Live(k.s.pcbs[i]) {
      SuspendInv(k, c, p, WaitQ(i));
      SuspendCores(k.s, p, WaitQ(i));
      ScheduleInv(k.(s := Suspend(k.s, p, WaitQ(i))), c, now);
    } else {
      ScheduleInv(k, c, now);
    }
  }

  lemma AcquireInv(k: Kernel, c: nat, p: nat, l: nat, now: nat)
    requires KInv(k, None) && Entered(k, c, p) && l < |k.locks| && (p, l) !in k.claims
    ensures KInv(Acquire(k, c, p, l, now), None)
  {
    hide KInv, Suspend, Schedule, Pid;
    if !k.locks[l].locked {
      AcquireFreeInv(k, p, l, None);
    } else {
      EnterInv(k, c);
      AcquireBusyInv(k, c, p, l);
      SuspendCores(k.s, p, LockQ(l));
      ScheduleInv(k.(claims := k.claims + {(p, l)}, s := Suspend(k.s, p, LockQ(l))), c, now);
    }
  }

  lemma HolderLocks(k: Kernel, c: nat, p: nat, l: nat)
    requires KInv(k, None) && Entered(k, c, p) && (p, l) in k.claims
    ensures l < |k.locks| && k.locks[l].locked && Holds(k, p, l)
  {
    MutualExclusion(k, None, p, p, l);
  }

  lemma SignalInv(k: Kernel, c: nat, p: nat, x: nat, now: nat)
    requires KInv(k, None) && Entered(k, c, p) && x < |k.conds| && Q(k.s, CondQ(x)) != [] && (p, k.conds[x]) in k.claims
    ensures CanSignal(k, x) && KInv(Signal(k, c, x, now), None)
  {
    hide KInv, Q, Schedule, SignalOne, SameNames;
    HolderLocks(k, c, p, k.conds[x]);
    CondWaiters(k, x, None);
    EnterInv(k, c);
    SignalOneInv(k, x, Some(c));
    ScheduleInv(SignalOne(k, Q(k.s, CondQ(x))[0], k.conds[x]), c, now);
  }

  lemma BroadcastInv(k: Kernel, c: nat, p: nat, x: nat, now: nat)
    requires KInv(k, None) && Entered(k, c, p) && x < |k.conds| && (Q(k.s, CondQ(x)) != [] ==> (p, k.conds[x]) in k.claims)
    ensures Q(k.s, CondQ(x)) != [] ==> CanSignal(k, x)
    ensures KInv(Broadcast(k, c, x, now), None)
  {
    hide KInv, Q, Schedule, BroadcastAll;
    SignalReady(k, p, x);
    EnterInv(k, c);
    if Q(k.s, CondQ(x)) != [] {
      HolderLocks(k, c, p, k.conds[x]);
      BroadcastAllInv(k, x, Q(k.s, CondQ(x)), Some(c));
      ScheduleInv(BroadcastAll(k, Q(k.s, CondQ(x)), k.conds[x]), c, now);
    } else {
      ScheduleInv(k, c, now);
    }
  }

  lemma BarsFree(k: Kernel, bars: seq<int>, mid: Option<nat>)
    requires KInv(k, mid)
    ensures KInv(k.(bars := bars), mid)
  {
    hide Part, Names;
    var t := k.(bars := bars);
    assert LockFrame(k, t);
    LockFrameInv(k, t, None);
  }

  lemma BarrierInv(k: Kernel, c: nat, p: nat, b: nat, now: nat)
    requires KInv(k, None) && Entered(k, c, p) && b < |k.bars|
    ensures forall i :: 0 <= i < |Q(k.s, BarrierQ(b))| ==> Q(k.s, BarrierQ(b))[i] < |k.s.pcbs|
    ensures KInv(BarrierWait(k, c, p, b, now), None)
  {
    hide KInv, Q, Schedule, WakeAll, Suspend;
    EnterInv(k, c);
    BarrierWaiters(k, b);
    var t := BarrierWait(k, c, p, b, now);
    if k.bars[b] == 1 {
      WakeAllInv(k, c, BarrierQ(b));
      var u := k.(s := WakeAll(k.s, Q(k.s, BarrierQ(b))));
      ScheduleInv(u, c, now);
      BarsFree(u.(s := Schedule(u.s, c, now)), t.bars, None);
    } else {
      SuspendInv(k, c, p, BarrierQ(b));
      SuspendCores(k.s, p, BarrierQ(b));
      var u := k.(s := Suspend(k.s, p, BarrierQ(b)));
      ScheduleInv(u, c, now);
      BarsFree(u.(s := Schedule(u.s, c, now)), t.bars, None);
    }
  }

  /** Every call, made properly, keeps the queue partition, the process numbers
      and the lock discipline. */
  lemma StepInv(k: Kernel, c: nat, call: Call, now: nat)
    requires Enabled(k, c, call)
    ensures KInv(Step(k, c, call, now), None)
  {
    hide KInv, Schedule, Exit, KillSlot, Acquire, Release, CondWait, Signal, Broadcast, BarrierWait, AwaitPid, Exec, Suspend, Q, Live;
    EnterInv(k, c);
    if call.Yield? {
      ScheduleInv(k, c, now);
    } else {
      var p := k.s.cores[c].value;
      match call
      case SleepFor(time) => SleepInv(k, c, p, time + now, now);
      case ExitCall => ExitInv(k, c, p, now);
      case KillPid(pid) =>
        var i := Find(k.s.pcbs, pid, 0);
        if i < |k.s.pcbs| { KillSlotInv(k, c, i, now); }
      case WaitPid(pid) => AwaitInv(k, c, p, pid, now);
      case Start(i, mask) => ExecInv(k, i, mask);
      case MutexAcquire(l) => AcquireInv(k, c, p, l, now);
      case MutexRelease(l) => ReleaseInv(k, p, l, None);
      case CondWaitOn(x, l) => CondWaitInv(k, c, p, x, l, now);
      case CondSignal(x) => SignalInv(k, c, p, x, now);
      case CondBroadcast(x) => BroadcastInv(k, c, p, x, now);
      case BarrierCall(b) => BarrierInv(k, c, p, b, now);
    }
  }

  // ---------- Runs ----------

  datatype Event = Event(c: nat, call: Call, now: nat)

  /** The state after a run, if every call in it was proper. */
  ghost function Run(k: Kernel, es: seq<Event>): Option<Kernel> {
    if es == [] then Some(k) else
    var r := Run(k, es[..|es| - 1]);
    var e := es[|es| - 1];
    if r.Some? && Enabled(r.value, e.c, e.call) then Some(Step(r.value, e.c, e.call, e.now)) else None
  }

  lemma {:induction false} RunInv(k: Kernel, es: seq<Event>)
    requires KInv(k, None) && Run(k, es).Some?
    ensures KInv(Run(k, es).value, None)
  {
    hide KInv, Step;
    if es != [] {
      RunInv(k, es[..|es| - 1]);
      var e := es[|es| - 1];
      StepInv(Run(k, es[..|es| - 1]).value, e.c, e.call, e.now);
    }
  }

  /** What the invariant says of any process in any run: ready, in the ready
      queue and nowhere else; blocked, in one wait queue and nowhere else;
      running, on exactly one core and in no queue; ended, in none. */
  lemma RunPartition(k: Kernel, es: seq<Event>, p: nat)
    requires KInv(k, None) && Run(k, es).Some? && p < |Run(k, es).value.s.pcbs|
    ensures
      var s := Run(k, es).value.s;
      var pcb := s.pcbs[p];
      && (forall q, r :: p in Q(s, q) && p in Q(s, r) ==> q == r) && (forall q :: Distinct(Q(s, q)))
      && (pcb.status == Ready <==> p in Q(s, ReadyQ))
      && (pcb.status == Blocked <==> exists q :: q != ReadyQ && p in Q(s, q))
      && (pcb.status == Running ==> OnCore(s, p))
      && (forall c, d :: 0 <= c < |s.cores| && 0 <= d < |s.cores| && s.cores[c] == Some(p) && s.cores[d] == Some(p) ==> c == d)
      && (pcb.status != Ready && pcb.status != Blocked ==> forall q :: p !in Q(s, q))
  {
    RunInv(k, es);
    hide Run, LockInv, Names, Distinct;
    var s := Run(k, es).value.s;
    assert StatusOk(s.pcbs[p]);
    if s.pcbs[p].status == Blocked {
      var q := s.pcbs[p].linked.value;
      assert q != ReadyQ && p in Q(s, q);
    }
    PartDistinct(s);
  }

  lemma PartDistinct(s: Sched)
    requires Queues(s)
    ensures forall q :: Distinct(Q(s, q))
  {
  }

  /** In any run a lock's claimants that wait for nothing are at most one, its
      recorded owner: so is whoever returns from acquiring or from a condition. */
  lemma RunExclusion(k: Kernel, es: seq<Event>, p: nat, r: nat, l: nat)
    requires KInv(k, None) && Run(k, es).Some?
    requires (p, l) in Run(k, es).value.claims && (r, l) in Run(k, es).value.claims
    ensures
      var t := Run(k, es).value;
      && p < |t.s.pcbs| && r < |t.s.pcbs|
      && (t.s.pcbs[p].status != Blocked ==> Holds(t, p, l))
      && (t.s.pcbs[p].status != Blocked && t.s.pcbs[r].status != Blocked ==> p == r)
  {
    RunInv(k, es);
    var t := Run(k, es).value;
    hide Run;
    assert ClaimOk(t, p, l, None) && ClaimOk(t, r, l, None);
    MutualExclusion(t, None, p, r, l);
    MutualExclusion(t, None, r, p, l);
  }

  /** A released lock goes to the process that has waited for it longest. */
  lemma HandOffInOrder(k: Kernel, p: nat, l: nat)
    requires KInv(k, None) && p < |k.s.pcbs| && k.s.pcbs[p].status == Running && (p, l) in k.claims
    ensures l < |k.locks|
    ensures
      var q, t := Q(k.s, LockQ(l)), Release(k, p, l);
      if q == [] then !t.locks[l].locked
      else && Holds(t, q[0], l) && t.s.pcbs[q[0]].status == Ready && Q(t.s, LockQ(l)) == q[1..]
           && Q(t.s, ReadyQ) == Q(k.s, ReadyQ) + [q[0]]
  {
    MutualExclusion(k, None, p, p, l);
    hide Part, LockInv, Names;
    if Q(k.s, LockQ(l)) != [] {
      WaitersBlocked(k.s, None, LockQ(l), 0);
      UnblockPart(k.s, LockQ(l), None);
    }
  }

  // ---------- The machine at boot ----------

  /** One process, ready; no locks taken, nobody waiting; barriers with their goals. */
  function Boot(slots: nat, cores: nat, locks: nat, conds: nat, goals: seq<int>, mask: set<nat>): Kernel
    requires slots > 0
  {
    Kernel(Sched(seq(slots, i => if i == 0 then Pcb(Ready, 1, mask, 0, Some(ReadyQ)) else Pcb(Available, 0, {}, 0, None)),
                 map[ReadyQ := [0]], seq(cores, _ => None), 2),
           seq(locks, _ => Lock(false, -1)), seq(conds, _ => 0), goals, {})
  }

  lemma BootInv(slots: nat, cores: nat, locks: nat, conds: nat, goals: seq<int>, mask: set<nat>)
    requires slots > 0
    ensures KInv(Boot(slots, cores, locks, conds, goals, mask), None)
  {
    var k := Boot(slots, cores, locks, conds, goals, mask);
    FirstOnly(k.s);
    hide Part;
    forall p: nat, l: nat ensures !Holds(k, p, l) {}
  }

  lemma FirstOnly(s: Sched)
    requires |s.pcbs| > 0 && s.queues == map[ReadyQ := [0]]
    requires s.pcbs[0].status == Ready && s.pcbs[0].linked == Some(ReadyQ) && forall c :: 0 <= c < |s.cores| ==> s.cores[c] == None
    requires forall p :: 0 < p < |s.pcbs| ==> s.pcbs[p].status == Available && s.pcbs[p].linked == None
    ensures Part(s, None)
    ensures forall q :: Q(s, q) == if q == ReadyQ then [0] else []
  {
  }
}
