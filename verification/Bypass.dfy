/** Bounded bypass: in any run, however the other processes block, wake, exit or
    are killed, a ready process never loses its place, and gains one at each pass
    of the scheduler on a core that may run it. */
module Bypass {
  import opened Bytes
  import opened Scheduler
  import opened Syscalls
  import opened Barriers
  import opened Wakeups

  /** From s to t the ready process p kept its mask and came at least n places nearer. */
  ghost predicate Nearer(s: Sched, t: Sched, p: nat, n: nat) {
    && p < |s.pcbs| && p < |t.pcbs| && t.pcbs[p].mask == s.pcbs[p].mask
    && p in Q(t, ReadyQ) && Rank(Q(t, ReadyQ), p) + n <= Rank(Q(s, ReadyQ), p)
  }

  /** What a step on core c, with a pass of the scheduler or without, does for p. */
  ghost predicate Advanced(s: Sched, t: Sched, c: nat, p: nat, pass: bool) {
    p < |s.pcbs| && c < |t.cores| &&
    if pass && t.cores[c] == Some(p) then c in s.pcbs[p].mask
    else Nearer(s, t, p, if pass && c in s.pcbs[p].mask then 1 else 0)
  }

  // ---------- Stages ----------

  lemma AppendNearer(s: Sched, t: Sched, p: nat, more: seq<nat>)
    requires SameNames(s, t) && p < |s.pcbs| && p in Q(s, ReadyQ) && Q(t, ReadyQ) == Q(s, ReadyQ) + more
    ensures Nearer(s, t, p, 0)
  {
    hide Q, Rank;
    RankAppend(Q(s, ReadyQ), more, p);
  }

  lemma NearerTransitive(s: Sched, t: Sched, u: Sched, p: nat)
    requires Nearer(s, t, p, 0) && Nearer(t, u, p, 0)
    ensures Nearer(s, u, p, 0)
  {
    hide Q, Rank;
  }

  /** A pass, whatever harmless stages came before it. */
  lemma PassAdvances(s: Sched, u: Kernel, c: nat, now: nat, p: nat)
    requires KInv(u, Some(c)) && c < |u.s.cores| && Nearer(s, u.s, p, 0)
    ensures Advanced(s, Schedule(u.s, c, now), c, p, true)
  {
    hide Part, LockInv, Schedule, Q, Rank;
    NumberedCore(u.s, c);
    SchedulePart(u.s, c, now);
    ScheduleRank(u.s, c, now, p);
  }

  lemma SuspendNearer(s: Sched, r: nat, w: QueueId, p: nat)
    requires r < |s.pcbs| && p < |s.pcbs| && p in Q(s, ReadyQ) && w != ReadyQ
    ensures Nearer(s, Suspend(s, r, w), p, 0)
  {
    hide Q, Rank, Suspend;
    SuspendQ(s, r, w);
  }

  /** Taking another process out of the ready queue, if it is there. */
  lemma WithoutNearer(s: Sched, t: Sched, r: nat, p: nat)
    requires Queues(s) && p < |s.pcbs| && p < |t.pcbs| && t.pcbs[p].mask == s.pcbs[p].mask && p in Q(s, ReadyQ) && r != p
    requires Q(t, ReadyQ) == Without(Q(s, ReadyQ), r)
    ensures Nearer(s, t, p, 0)
  {
    hide Queues, Q, Rank, Without;
    QueueDistinct(s, ReadyQ);
    var q := Q(s, ReadyQ);
    if r in q {
      var i :| 0 <= i < |q| && q[i] == r;
      RankWithout(q, i, p);
    }
  }

  lemma HandNearer(k: Kernel, l: nat, mid: Option<nat>, p: nat)
    requires Part(k.s, mid) && Names(k.s) && LockInv(k, Some(l)) && l < |k.locks| && k.locks[l].locked
    requires p < |k.s.pcbs| && p in Q(k.s, ReadyQ)
    ensures Nearer(k.s, Hand(k, l).s, p, 0)
  {
    HandInv(k, l, mid);
    hide Part, Names, LockInv, Unblock;
    if Q(k.s, LockQ(l)) != [] {
      UnblockPart(k.s, LockQ(l), mid);
      AppendNearer(k.s, Hand(k, l).s, p, [Q(k.s, LockQ(l))[0]]);
    }
  }

  lemma ReleaseNearer(k: Kernel, i: nat, l: nat, mid: Option<nat>, p: nat)
    requires KInv(k, mid) && i < |k.s.pcbs| && Pid(k, i) > 0 && l < |k.locks| && k.locks[l].owner == Pid(k, i)
    requires p < |k.s.pcbs| && p in Q(k.s, ReadyQ)
    ensures Nearer(k.s, Release(k, i, l).s, p, 0)
  {
    OwnerFacts(k, i, l, mid);
    hide Part, LockInv, Q, Hand, Rank;
    UnclaimInv(k, i, l);
    HandNearer(k.(claims := k.claims - {(i, l)}), l, mid, p);
  }

  lemma {:induction false} ReleaseAllNearer(k: Kernel, i: nat, pid: nat, l: nat, mid: Option<nat>, p: nat)
    requires KInv(k, mid) && i < |k.s.pcbs| && Pid(k, i) == pid > 0 && l <= |k.locks|
    requires p < |k.s.pcbs| && p in Q(k.s, ReadyQ)
    ensures Nearer(k.s, ReleaseAll(k, i, pid, l).s, p, 0)
    decreases |k.locks| - l
  {
    hide KInv, Q, Release, SameNames, Rank;
    if l < |k.locks| {
      var u := k;
      if k.locks[l].owner == pid {
        ReleaseForInv(k, i, l, mid);
        ReleaseNearer(k, i, l, mid, p);
        u := Release(k, i, l);
        NamesSize(k.s, u.s);
      }
      ReleaseAllNearer(u, i, pid, l + 1, mid, p);
      if u != k { NearerTransitive(k.s, u.s, ReleaseAll(u, i, pid, l + 1).s, p); }
    }
  }

  lemma DepartNearer(k: Kernel, i: nat, mid: Option<nat>, p: nat)
    requires KInv(k, mid) && i < |k.s.pcbs| && Live(k.s.pcbs[i]) && Q(k.s, WaitQ(i)) == []
    requires p < |k.s.pcbs| && p in Q(k.s, ReadyQ) && p != i
    ensures Nearer(k.s, Depart(k, i).s, p, 0)
  {
    hide Statuses, Cores, Names, LockInv, Q, Leave, Without, Queues, Rank;
    LeavePart(k.s, i, mid);
    WithoutNearer(k.s, Depart(k, i).s, i, p);
  }

  lemma SignalOneNearer(k: Kernel, x: nat, mid: Option<nat>, p: nat)
    requires KInv(k, mid) && x < |k.conds| && Q(k.s, CondQ(x)) != [] && k.conds[x] < |k.locks| && k.locks[k.conds[x]].locked
    requires p < |k.s.pcbs| && p in Q(k.s, ReadyQ)
    ensures Q(k.s, CondQ(x))[0] < |k.s.pcbs| && Nearer(k.s, SignalOne(k, Q(k.s, CondQ(x))[0], k.conds[x]).s, p, 0)
  {
    hide Queues, Statuses, Cores, LockInv, Names, Without, Suspend, Detach, Rank, Q;
    WaitersBlocked(k.s, mid, CondQ(x), 0);
    var w := Q(k.s, CondQ(x))[0];
    InReady(k.s, mid, p);
    TransferPart(k.s, w, LockQ(k.conds[x]), mid);
    WithoutNearer(k.s, SignalOne(k, w, k.conds[x]).s, w, p);
  }

  /** Who is in the ready queue is ready. */
  lemma InReady(s: Sched, mid: Option<nat>, p: nat)
    requires Part(s, mid) && p in Q(s, ReadyQ)
    ensures p < |s.pcbs| && s.pcbs[p].status == Ready
  {
    hide Distinct, Q;
    assert StatusOk(s.pcbs[p]);
  }

  lemma {:induction false} BroadcastAllNearer(k: Kernel, x: nat, ws: seq<nat>, mid: Option<nat>, p: nat)
    requires KInv(k, mid) && x < |k.conds| && Q(k.s, CondQ(x)) == ws && k.conds[x] < |k.locks| && k.locks[k.conds[x]].locked
    requires p < |k.s.pcbs| && p in Q(k.s, ReadyQ)
    ensures forall i :: 0 <= i < |ws| ==> ws[i] < |k.s.pcbs|
    ensures Nearer(k.s, BroadcastAll(k, ws, k.conds[x]).s, p, 0)
    decreases |ws|
  {
    hide KInv, Q, Suspend, Detach, Enqueue, SameNames, Rank;
    if ws != [] {
      CondWaiters(k, x, mid);
      SignalOneInv(k, x, mid);
      SignalOneNearer(k, x, mid, p);
      var t := SignalOne(k, ws[0], k.conds[x]);
      NamesSize(k.s, t.s);
      BroadcastAllNearer(t, x, ws[1..], mid, p);
      NearerTransitive(k.s, t.s, BroadcastAll(t, ws[1..], k.conds[x]).s, p);
    }
  }

  lemma WakeAllNearer(k: Kernel, mid: Option<nat>, q: QueueId, p: nat)
    requires KInv(k, mid) && q != ReadyQ && p in Q(k.s, ReadyQ)
    ensures forall i :: 0 <= i < |Q(k.s, q)| ==> Q(k.s, q)[i] < |k.s.pcbs|
    ensures SameNames(k.s, WakeAll(k.s, Q(k.s, q))) && Nearer(k.s, WakeAll(k.s, Q(k.s, q)), p, 0)
  {
    InReady(k.s, mid, p);
    hide Part, Q, WakeAll, SameNames, Rank;
    WakeAllPart(k.s, q, Q(k.s, q), mid);
    AppendNearer(k.s, WakeAll(k.s, Q(k.s, q)), p, Q(k.s, q));
  }

  lemma UnnameNearer(k: Kernel, i: nat, p: nat)
    requires i < |k.s.pcbs| && p < |k.s.pcbs| && p != i && p in Q(k.s, ReadyQ)
    ensures Nearer(k.s, Unname(k, i).s, p, 0)
  {
    assert Q(Unname(k, i).s, ReadyQ) == Q(k.s, ReadyQ);
  }

  // ---------- The calls ----------

  lemma YieldAdvances(k: Kernel, c: nat, now: nat, p: nat)
    requires KInv(k, Some(c)) && c < |k.s.cores| && p < |k.s.pcbs| && p in Q(k.s, ReadyQ)
    ensures Advanced(k.s, Schedule(k.s, c, now), c, p, true)
  {
    assert Nearer(k.s, k.s, p, 0);
    hide KInv, Schedule, Nearer, Q;
    PassAdvances(k.s, k, c, now, p);
  }

  /** The caller r blocks in queue w. */
  lemma SuspendAdvances(k: Kernel, u: Kernel, c: nat, r: nat, w: QueueId, now: nat, p: nat)
    requires r < |k.s.pcbs| && u.s == Suspend(k.s, r, w) && KInv(u, Some(c)) && c < |u.s.cores| && w != ReadyQ
    requires p < |k.s.pcbs| && p in Q(k.s, ReadyQ)
    ensures Advanced(k.s, Schedule(u.s, c, now), c, p, true)
  {
    hide KInv, Schedule, Suspend, Nearer, Q;
    SuspendNearer(k.s, r, w, p);
    PassAdvances(k.s, u, c, now, p);
  }

  lemma SleepAdvances(k: Kernel, c: nat, r: nat, wakeup: nat, now: nat, p: nat)
    requires KInv(k, None) && Entered(k, c, r) && p < |k.s.pcbs| && p in Q(k.s, ReadyQ)
    ensures
      var u := Sleepy(k, r, wakeup);
      Suspend(u.s, r, SleepQ).cores == k.s.cores && Advanced(k.s, Schedule(Suspend(u.s, r, SleepQ), c, now), c, p, true)
  {
    SleepyQueue(k, c, r, wakeup, p);
    hide KInv, Suspend, Schedule, Q, Sleepy, Nearer;
    EnterInv(k, c);
    var u := Sleepy(k, r, wakeup);
    SleepyInv(k, r, wakeup, Some(c));
    SuspendInv(u, c, r, SleepQ);
    SuspendCores(u.s, r, SleepQ);
    SuspendNearer(u.s, r, SleepQ, p);
    NearerTransitive(k.s, u.s, Suspend(u.s, r, SleepQ), p);
    PassAdvances(k.s, u.(s := Suspend(u.s, r, SleepQ)), c, now, p);
  }

  lemma SleepyQueue(k: Kernel, c: nat, r: nat, wakeup: nat, p: nat)
    requires Entered(k, c, r) && p < |k.s.pcbs| && p in Q(k.s, ReadyQ)
    ensures
      var u := Sleepy(k, r, wakeup);
      Entered(u, c, r) && u.s.cores == k.s.cores && p < |u.s.pcbs| && p in Q(u.s, ReadyQ) && Nearer(k.s, u.s, p, 0)
  {
    assert Q(Sleepy(k, r, wakeup).s, ReadyQ) == Q(k.s, ReadyQ);
  }

  lemma ExitAdvances(k: Kernel, c: nat, r: nat, now: nat, p: nat)
    requires KInv(k, Some(c)) && Entered(k, c, r) && p in Q(k.s, ReadyQ) && p != r
    ensures forall i :: 0 <= i < |Q(k.s, WaitQ(r))| ==> Q(k.s, WaitQ(r))[i] < |k.s.pcbs|
    ensures Advanced(k.s, Exit(k, c, r, now).s, c, p, true)
  {
    hide Part, Names, LockInv, Q, WakeAll, Depart, Schedule, Nearer, SameNames;
    WakeAllNearer(k, Some(c), WaitQ(r), p);
    WakeAllInv(k, c, WaitQ(r));
    WaitDrained(k.s, r, Some(c));
    var t := k.(s := WakeAll(k.s, Q(k.s, WaitQ(r))));
    RunningLives(k.s.pcbs[r]);
    DepartInv(t, r, Some(c));
    NearerIn(k.s, t.s, p);
    DepartNearer(t, r, Some(c), p);
    NearerTransitive(k.s, t.s, Depart(t, r).s, p);
    PassAdvances(k.s, Depart(t, r), c, now, p);
  }

  lemma NearerIn(s: Sched, t: Sched, p: nat)
    requires Nearer(s, t, p, 0)
    ensures p < |t.pcbs| && p in Q(t, ReadyQ)
  {
  }

  lemma KillAdvances(k: Kernel, c: nat, i: nat, now: nat, p: nat)
    requires KInv(k, None) && i < |k.s.pcbs| && k.s.pcbs[i].pid > 0 && c < |k.s.cores| && p in Q(k.s, ReadyQ) && p != i
    ensures forall j :: 0 <= j < |Q(k.s, WaitQ(i))| ==> Q(k.s, WaitQ(i))[j] < |k.s.pcbs|
    ensures Advanced(k.s, KillSlot(k, c, i, now).s, c, p, k.s.pcbs[i].status == Running)
  {
    hide Part, Names, LockInv, Q, WakeAll, ReleaseAll, Depart, Schedule, Unname, Nearer, SameNames;
    WaitDrained(k.s, i, None);
    WakeAllNearer(k, None, WaitQ(i), p);
    var t := k.(s := WakeAll(k.s, Q(k.s, WaitQ(i))));
    KillWoken(k, t, i);
    NamesSize(k.s, t.s);
    NearerIn(k.s, t.s, p);
    ReleaseAllInv(t, i, k.s.pcbs[i].pid, 0, None);
    ReleaseAllNearer(t, i, k.s.pcbs[i].pid, 0, None, p);
    var u := ReleaseAll(t, i, k.s.pcbs[i].pid, 0);
    NearerTransitive(k.s, t.s, u.s, p);
    NearerIn(k.s, u.s, p);
    if !Live(k.s.pcbs[i]) {
      UnnameNearer(u, i, p);
      NearerTransitive(k.s, u.s, Unname(u, i).s, p);
      UnnameCores(u, i);
    } else {
      DepartInv(u, i, None);
      DepartNearer(u, i, None, p);
      var v := Depart(u, i);
      NearerIn(u.s, v.s, p);
      NearerTransitive(k.s, u.s, v.s, p);
      UnnameNearer(v, i, p);
      NearerTransitive(k.s, v.s, Unname(v, i).s, p);
      UnnameInv(v, i, None);
      UnnameCores(v, i);
      if k.s.pcbs[i].status == Running {
        EnterInv(Unname(v, i), c);
        PassAdvances(k.s, Unname(v, i), c, now, p);
      }
    }
  }

  lemma AwaitAdvances(k: Kernel, c: nat, r: nat, pid: nat, now: nat, p: nat)
    requires KInv(k, None) && Entered(k, c, r) && p < |k.s.pcbs| && p in Q(k.s, ReadyQ)
    ensures Advanced(k.s, AwaitPid(k, c, r, pid, now).s, c, p, Find(k.s.pcbs, pid, 0) < |k.s.pcbs|)
  {
    hide KInv, Schedule, Suspend, Q;
    EnterInv(k, c);
    var i := Find(k.s.pcbs, pid, 0);
    if i == |k.s.pcbs| {
    } else if Live(k.s.pcbs[i]) {
      SuspendInv(k, c, r, WaitQ(i));
      SuspendCores(k.s, r, WaitQ(i));
      SuspendAdvances(k, k.(s := Suspend(k.s, r, WaitQ(i))), c, r, WaitQ(i), now, p);
    } else {
      YieldAdvances(k, c, now, p);
    }
  }

  lemma AcquireAdvances(k: Kernel, c: nat, r: nat, l: nat, now: nat, p: nat)
    requires KInv(k, None) && Entered(k, c, r) && l < |k.locks| && (r, l) !in k.claims && p < |k.s.pcbs| && p in Q(k.s, ReadyQ)
    ensures Advanced(k.s, Acquire(k, c, r, l, now).s, c, p, k.locks[l].locked)
  {
    hide KInv, Schedule, Suspend, Q;
    if k.locks[l].locked {
      EnterInv(k, c);
      AcquireBusyInv(k, c, r, l);
      SuspendCores(k.s, r, LockQ(l));
      SuspendAdvances(k, k.(claims := k.claims + {(r, l)}, s := Suspend(k.s, r, LockQ(l))), c, r, LockQ(l), now, p);
    }
  }

  lemma ReleasedAdvances(k: Kernel, c: nat, r: nat, l: nat, p: nat)
    requires KInv(k, None) && Entered(k, c, r) && (r, l) in k.claims && p < |k.s.pcbs| && p in Q(k.s, ReadyQ)
    ensures l < |k.locks| && Advanced(k.s, Release(k, r, l).s, c, p, false)
  {
    HolderLocks(k, c, r, l);
    NamedAbove(k, r);
    hide KInv, Q, Release, Nearer;
    ReleaseForInv(k, r, l, None);
    ReleaseNearer(k, r, l, None, p);
  }

  lemma CondWaitAdvances(k: Kernel, c: nat, r: nat, x: nat, l: nat, now: nat, p: nat)
    requires KInv(k, Some(c)) && Entered(k, c, r) && x < |k.conds| && (r, l) in k.claims && p < |k.s.pcbs| && p in Q(k.s, ReadyQ)
    requires Q(k.s, CondQ(x)) != [] ==> k.conds[x] == l
    ensures l < |k.locks| && Advanced(k.s, CondWait(k, c, r, x, l, now).s, c, p, true)
  {
    hide Part, Names, LockInv, Q, Hand, Suspend, Schedule, Nearer;
    CondJoined(k, c, r, x, l);
    SuspendNearer(k.s, r, CondQ(x), p);
    var t := k.(s := Suspend(k.s, r, CondQ(x)), conds := k.conds[x := l]);
    NearerIn(k.s, t.s, p);
    HandInv(t, l, Some(c));
    HandNearer(t, l, Some(c), p);
    NearerTransitive(k.s, t.s, Hand(t, l).s, p);
    PassAdvances(k.s, Hand(t, l), c, now, p);
  }

  lemma SignalAdvances(k: Kernel, c: nat, r: nat, x: nat, now: nat, p: nat)
    requires KInv(k, None) && Entered(k, c, r) && x < |k.conds| && Q(k.s, CondQ(x)) != [] && (r, k.conds[x]) in k.claims
    requires p < |k.s.pcbs| && p in Q(k.s, ReadyQ)
    ensures CanSignal(k, x) && Advanced(k.s, Signal(k, c, x, now).s, c, p, true)
    ensures Advanced(k.s, Broadcast(k, c, x, now).s, c, p, true)
  {
    hide KInv, Q, Schedule, SignalOne, BroadcastAll, SameNames, Nearer;
    HolderLocks(k, c, r, k.conds[x]);
    CondWaiters(k, x, None);
    EnterInv(k, c);
    SignalOneInv(k, x, Some(c));
    SignalOneNearer(k, x, Some(c), p);
    PassAdvances(k.s, SignalOne(k, Q(k.s, CondQ(x))[0], k.conds[x]), c, now, p);
    BroadcastAllInv(k, x, Q(k.s, CondQ(x)), Some(c));
    BroadcastAllNearer(k, x, Q(k.s, CondQ(x)), Some(c), p);
    PassAdvances(k.s, BroadcastAll(k, Q(k.s, CondQ(x)), k.conds[x]), c, now, p);
  }

  lemma BarrierAdvances(k: Kernel, c: nat, r: nat, b: nat, now: nat, p: nat)
    requires KInv(k, None) && Entered(k, c, r) && b < |k.bars| && p < |k.s.pcbs| && p in Q(k.s, ReadyQ)
    ensures forall i :: 0 <= i < |Q(k.s, BarrierQ(b))| ==> Q(k.s, BarrierQ(b))[i] < |k.s.pcbs|
    ensures Advanced(k.s, BarrierWait(k, c, r, b, now).s, c, p, true)
  {
    hide KInv, Q, Schedule, WakeAll, Suspend, Nearer;
    EnterInv(k, c);
    BarrierWaiters(k, b);
    if k.bars[b] == 1 {
      WakeAllInv(k, c, BarrierQ(b));
      WakeAllNearer(k, Some(c), BarrierQ(b), p);
      PassAdvances(k.s, k.(s := WakeAll(k.s, Q(k.s, BarrierQ(b)))), c, now, p);
    } else {
      SuspendInv(k, c, r, BarrierQ(b));
      SuspendCores(k.s, r, BarrierQ(b));
      SuspendAdvances(k, k.(s := Suspend(k.s, r, BarrierQ(b))), c, r, BarrierQ(b), now, p);
    }
  }

  lemma StartAdvances(k: Kernel, c: nat, i: nat, mask: set<nat>, p: nat)
    requires KInv(k, None) && i < |k.s.pcbs| && !Live(k.s.pcbs[i]) && !OnCore(k.s, i) && c < |k.s.cores| && p in Q(k.s, ReadyQ)
    ensures p < |k.s.pcbs| && Advanced(k.s, Exec(k, i, mask).s, c, p, false)
  {
    InReady(k.s, None, p);
    hide Part, Names, LockInv, Q, Rank;
    ExecPart(k, i, mask);
    RankAppend(Q(k.s, ReadyQ), [i], p);
  }

  // ---------- Every call, every run ----------

  /** Whether a call ends in a pass of the scheduler on the caller's core. */
  ghost predicate HasPass(k: Kernel, call: Call) {
    match call
    case KillPid(pid) => var i := Find(k.s.pcbs, pid, 0); i < |k.s.pcbs| && k.s.pcbs[i].status == Running
    case WaitPid(pid) => Find(k.s.pcbs, pid, 0) < |k.s.pcbs|
    case Start(_, _) => false
    case MutexAcquire(l) => l < |k.locks| && k.locks[l].locked
    case MutexRelease(_) => false
    case _ => true
  }

  ghost predicate Kills(k: Kernel, call: Call, p: nat) {
    call.KillPid? && Find(k.s.pcbs, call.pid, 0) == p
  }

  /** Whatever call is made, other than one that kills p, the ready process p is
      picked, on a core its mask admits; or it stays ready with its mask, does not
      fall back, and is nearer if the call passed it over on such a core. */
  lemma StepRank(k: Kernel, c: nat, call: Call, now: nat, p: nat)
    requires Enabled(k, c, call) && p in Q(k.s, ReadyQ) && !Kills(k, call, p)
    ensures Advanced(k.s, Step(k, c, call, now).s, c, p, HasPass(k, call))
  {
    hide KInv, Schedule, Exit, KillSlot, Acquire, Release, CondWait, Signal, Broadcast, BarrierWait, AwaitPid, Exec, Suspend, Q, Live, Sleepy, Advanced;
    EnterInv(k, c);
    ReadyInv(k, p);
    if call.Yield? {
      YieldAdvances(k, c, now, p);
    } else {
      var r := k.s.cores[c].value;
      match call
      case SleepFor(time) => SleepAdvances(k, c, r, time + now, now, p);
      case ExitCall => ExitAdvances(k, c, r, now, p);
      case KillPid(pid) =>
        var i := Find(k.s.pcbs, pid, 0);
        if i < |k.s.pcbs| { KillAdvances(k, c, i, now, p); } else { StillAdvances(k, c, p); }
      case WaitPid(pid) => AwaitAdvances(k, c, r, pid, now, p);
      case Start(i, mask) => StartAdvances(k, c, i, mask, p);
      case MutexAcquire(l) => AcquireAdvances(k, c, r, l, now, p);
      case MutexRelease(l) => ReleasedAdvances(k, c, r, l, p);
      case CondWaitOn(x, l) => CondWaitAdvances(k, c, r, x, l, now, p);
      case CondSignal(x) => SignalAdvances(k, c, r, x, now, p);
      case CondBroadcast(x) =>
        if Q(k.s, CondQ(x)) != [] { SignalAdvances(k, c, r, x, now, p); } else { YieldAdvances(k, c, now, p); BroadcastNobody(k, c, x, now); }
      case BarrierCall(b) => BarrierAdvances(k, c, r, b, now, p);
    }
  }

  lemma ReadyInv(k: Kernel, p: nat)
    requires KInv(k, None) && p in Q(k.s, ReadyQ)
    ensures p < |k.s.pcbs| && k.s.pcbs[p].status == Ready
  {
    InReady(k.s, None, p);
  }

  lemma StillAdvances(k: Kernel, c: nat, p: nat)
    requires c < |k.s.cores| && p < |k.s.pcbs| && p in Q(k.s, ReadyQ)
    ensures Advanced(k.s, k.s, c, p, false)
  {
  }

  /** The last event of the run picks p or kills it. */
  ghost predicate Ends(k: Kernel, es: seq<Event>, p: nat) {
    es != [] && Run(k, es).Some? && Run(k, es[..|es| - 1]).Some? &&
    var e, u, t := es[|es| - 1], Run(k, es[..|es| - 1]).value, Run(k, es).value;
    Kills(u, e.call, p) || (HasPass(u, e.call) && e.c < |t.s.cores| && t.s.cores[e.c] == Some(p))
  }

  /** No event of the run picks p or kills it. */
  ghost predicate PassedOver(k: Kernel, es: seq<Event>, p: nat) {
    forall i :: 0 < i <= |es| ==> !Ends(k, es[..i], p)
  }

  /** How many passes of the run were on cores of the mask. */
  ghost function Passes(k: Kernel, es: seq<Event>, mask: set<nat>): (n: nat)
    ensures n <= |es|
  {
    if es == [] then 0 else
    var u, e := Run(k, es[..|es| - 1]), es[|es| - 1];
    Passes(k, es[..|es| - 1], mask) + if u.Some? && HasPass(u.value, e.call) && e.c in mask then 1 else 0
  }

  lemma PassedFront(k: Kernel, es: seq<Event>, p: nat)
    requires es != [] && PassedOver(k, es, p)
    ensures PassedOver(k, es[..|es| - 1], p) && !Ends(k, es, p)
  {
    var fs := es[..|es| - 1];
    forall i | 0 < i <= |fs| ensures !Ends(k, fs[..i], p) { assert fs[..i] == es[..i]; }
    assert es[..|es|] == es;
  }

  /** Over any run that neither picks nor kills it, a ready process stays ready with
      its mask, and every pass on a core it may run on brings it one place nearer. */
  lemma {:induction false} RankFalls(k: Kernel, es: seq<Event>, p: nat)
    requires KInv(k, None) && Run(k, es).Some? && p in Q(k.s, ReadyQ) && p < |k.s.pcbs| && PassedOver(k, es, p)
    ensures Nearer(k.s, Run(k, es).value.s, p, Passes(k, es, k.s.pcbs[p].mask))
  {
    hide KInv, Step, Q, Rank, Kills, HasPass, PassedOver;
    if es != [] {
      var e := es[|es| - 1];
      PassedFront(k, es, p);
      RankFalls(k, es[..|es| - 1], p);
      RunInv(k, es[..|es| - 1]);
      StepRank(Run(k, es[..|es| - 1]).value, e.c, e.call, e.now, p);
    }
  }

  /** Bounded bypass: a ready process with n others ahead of it is passed over at
      most n times by cores that may run it ... */
  lemma BoundedBypass(k: Kernel, es: seq<Event>, p: nat)
    requires KInv(k, None) && Run(k, es).Some? && p in Q(k.s, ReadyQ) && p < |k.s.pcbs| && PassedOver(k, es, p)
    ensures Passes(k, es, k.s.pcbs[p].mask) <= Rank(Q(k.s, ReadyQ), p)
  {
    RankFalls(k, es, p);
  }

  /** ... so in every run with more such passes one event, no later than the one
      that makes them too many, picks it or kills it. */
  lemma {:induction false} PickedInTime(k: Kernel, es: seq<Event>, p: nat) returns (j: nat)
    requires KInv(k, None) && Run(k, es).Some? && p in Q(k.s, ReadyQ) && p < |k.s.pcbs|
    requires Passes(k, es, k.s.pcbs[p].mask) > Rank(Q(k.s, ReadyQ), p)
    ensures 0 < j <= |es| && Ends(k, es[..j], p) && Passes(k, es[..j - 1], k.s.pcbs[p].mask) <= Rank(Q(k.s, ReadyQ), p)
  {
    hide KInv, Q, Rank, Ends, Run;
    assert !PassedOver(k, es, p) by {
      if PassedOver(k, es, p) { BoundedBypass(k, es, p); }
    }
    var last :| 0 < last <= |es| && Ends(k, es[..last], p);
    j := 1;
    while !Ends(k, es[..j], p)
      invariant 0 < j <= last && forall i :: 0 < i < j ==> !Ends(k, es[..i], p)
      decreases last - j
    {
      j := j + 1;
    }
    EarlyRun(k, es, j - 1);
    var fs := es[..j - 1];
    forall i | 0 < i <= |fs| ensures !Ends(k, fs[..i], p) { assert fs[..i] == es[..i]; }
    BoundedBypass(k, fs, p);
  }

  lemma {:induction false} EarlyRun(k: Kernel, es: seq<Event>, j: nat)
    requires Run(k, es).Some? && j <= |es|
    ensures Run(k, es[..j]).Some?
    decreases |es|
  {
    if j == |es| {
      assert es[..j] == es;
    } else {
      EarlyRun(k, es[..|es| - 1], j);
      assert es[..|es| - 1][..j] == es[..j];
    }
  }
}
