/** No wakeup without its reason: what brings a process into a wait queue, and
    the only things that take it out again, over every call and every run. */
module Wakeups {
  import opened Bytes
  import opened Scheduler
  import opened Syscalls
  import opened Barriers

  /** Why a process p that waited in queue q of k may have left it in t: its time
      has come; the process it waited for has ended; it has been handed the lock;
      its condition was signalled, so that it waits for the lock or holds it; or
      the barrier was opened to all. */
  ghost predicate Reason(k: Kernel, t: Kernel, p: nat, q: QueueId, now: nat) {
    match q
    case ReadyQ => true
    case SleepQ => Due(k.s, p, now)
    case WaitQ(i) => i < |t.s.pcbs| ==> !Live(t.s.pcbs[i])
    case LockQ(l) => Holds(t, p, l)
    case CondQ(x) => x < |k.conds| && (p in Q(t.s, LockQ(k.conds[x])) || Holds(t, p, k.conds[x]))
    case BarrierQ(b) => Q(t.s, BarrierQ(b)) == []
  }

  /** p has been killed. */
  ghost predicate Gone(t: Kernel, p: nat) {
    p < |t.s.pcbs| ==> !Live(t.s.pcbs[p])
  }

  // ---------- The scheduler ----------

  lemma ScheduleSleepers(s: Sched, c: nat, now: nat)
    requires Part(s, Some(c)) && c < |s.cores| && Numbered(s, c)
    ensures Q(Schedule(s, c, now), SleepQ) == Sleepers(s, Q(s, SleepQ), now, false)
  {
    hide Queues, Statuses, Cores, WakeDue, Requeue, Dispatch, Q, Sleepers;
    var u := CheckSleeping(s, now);
    assert Q(s, SleepQ) == [] + Q(s, SleepQ);
    WakeDuePart(s, [], Q(s, SleepQ), now, Some(c));
    CheckSleepingMoves(s, now, Some(c));
    RequeuePart(u, c);
    DispatchPart(Requeue(u, c), c);
  }

  /** A pass of the scheduler wakes sleepers whose time has come, and nobody else. */
  lemma ScheduleStays(k: Kernel, c: nat, now: nat, p: nat, q: QueueId)
    requires KInv(k, Some(c)) && c < |k.s.cores| && q != ReadyQ
    ensures SameNames(k.s, Schedule(k.s, c, now))
    ensures p in Q(Schedule(k.s, c, now), q) <==> p in Q(k.s, q) && !(q == SleepQ && Due(k.s, p, now))
  {
    hide Part, Schedule, LockInv, Q, Sleepers;
    NumberedCore(k.s, c);
    SchedulePart(k.s, c, now);
    ScheduleSleepers(k.s, c, now);
  }

  /** Blocking the caller moves no other process. */
  lemma SuspendStays(k: Kernel, u: Kernel, c: nat, r: nat, w: QueueId, now: nat, p: nat, q: QueueId)
    requires r < |k.s.pcbs| && u.s == Suspend(k.s, r, w) && KInv(u, Some(c)) && c < |k.s.cores| && q != ReadyQ
    ensures c < |u.s.cores| && SameNames(u.s, Schedule(u.s, c, now))
    ensures p in Q(Schedule(u.s, c, now), q) <==> (p in Q(k.s, q) || (p == r && q == w)) && !(q == SleepQ && Due(k.s, p, now))
  {
    hide KInv, Schedule, Q, Suspend;
    SuspendQ(k.s, r, w);
    ScheduleStays(u, c, now, p, q);
  }

  // ---------- Locks handed on ----------

  lemma HandStays(k: Kernel, l: nat, mid: Option<nat>, p: nat, q: QueueId)
    requires Part(k.s, mid) && Names(k.s) && LockInv(k, Some(l)) && l < |k.locks| && k.locks[l].locked
    requires p in Q(k.s, q) && q != ReadyQ
    ensures p in Q(Hand(k, l).s, q) || (q == LockQ(l) && Holds(Hand(k, l), p, l))
  {
    hide Part, Names, LockInv, Q, Unblock;
    if q != LockQ(l) {
      HandInv(k, l, mid);
    } else {
      UnblockPart(k.s, q, mid);
      if p != Q(k.s, q)[0] { InRest(Q(k.s, q), p); }
    }
  }

  lemma ReleaseStays(k: Kernel, i: nat, l: nat, mid: Option<nat>, p: nat, q: QueueId)
    requires KInv(k, mid) && i < |k.s.pcbs| && Pid(k, i) > 0 && l < |k.locks| && k.locks[l].owner == Pid(k, i)
    requires p in Q(k.s, q) && q != ReadyQ
    ensures p in Q(Release(k, i, l).s, q) || (q == LockQ(l) && Holds(Release(k, i, l), p, l))
  {
    OwnerFacts(k, i, l, mid);
    hide Part, LockInv, Q, Hand;
    UnclaimInv(k, i, l);
    HandStays(k.(claims := k.claims - {(i, l)}), l, mid, p, q);
  }

  lemma {:induction false} ReleaseAllFrame(k: Kernel, i: nat, pid: nat, l: nat, mid: Option<nat>)
    requires KInv(k, mid) && i < |k.s.pcbs| && Pid(k, i) == pid > 0 && l <= |k.locks|
    ensures
      var t := ReleaseAll(k, i, pid, l);
      SameNames(k.s, t.s) && |t.locks| == |k.locks| && t.conds == k.conds && forall j :: 0 <= j < l ==> t.locks[j] == k.locks[j]
    decreases |k.locks| - l
  {
    hide KInv, Q;
    if l < |k.locks| {
      var u := k;
      if k.locks[l].owner == pid {
        ReleaseForInv(k, i, l, mid);
        u := Release(k, i, l);
      }
      hide Release;
      ReleaseAllFrame(u, i, pid, l + 1, mid);
      SameNamesTransitive(k.s, u.s, ReleaseAll(u, i, pid, l + 1).s);
    }
  }

  /** release_pcb_lock takes processes out of the queues of the locks it hands on,
      and each of them holds the lock it waited for. */
  lemma {:induction false} ReleaseAllStays(k: Kernel, i: nat, pid: nat, l: nat, mid: Option<nat>, p: nat, q: QueueId)
    requires KInv(k, mid) && i < |k.s.pcbs| && Pid(k, i) == pid > 0 && l <= |k.locks|
    requires p in Q(k.s, q) && q != ReadyQ
    ensures
      var t := ReleaseAll(k, i, pid, l);
      p in Q(t.s, q) || (q.LockQ? && Holds(t, p, q.l))
    decreases |k.locks| - l
  {
    hide KInv, Q, Release, SameNames;
    if l < |k.locks| {
      var u := k;
      if k.locks[l].owner == pid {
        ReleaseForInv(k, i, l, mid);
        ReleaseStays(k, i, l, mid, p, q);
        u := Release(k, i, l);
        NamesSize(k.s, u.s);
      }
      ReleaseAllFrame(u, i, pid, l + 1, mid);
      if p in Q(u.s, q) {
        ReleaseAllStays(u, i, pid, l + 1, mid, p, q);
      } else {
        SamePids(u, ReleaseAll(u, i, pid, l + 1), p);
      }
    }
  }

  lemma SamePids(k: Kernel, t: Kernel, p: nat)
    requires SameNames(k.s, t.s)
    ensures Pid(t, p) == Pid(k, p)
  {
  }

  // ---------- Ending ----------

  lemma DepartStays(k: Kernel, i: nat, mid: Option<nat>, p: nat, q: QueueId)
    requires KInv(k, mid) && i < |k.s.pcbs| && Live(k.s.pcbs[i]) && Q(k.s, WaitQ(i)) == [] && p in Q(k.s, q) && p != i
    ensures p in Q(Depart(k, i).s, q)
  {
    hide Part, LockInv, Q, Leave, Without;
    LeavePart(k.s, i, mid);
  }

  lemma ExitStays(k: Kernel, c: nat, r: nat, now: nat, p: nat, q: QueueId)
    requires KInv(k, Some(c)) && Entered(k, c, r) && p in Q(k.s, q) && q != ReadyQ
    ensures forall i :: 0 <= i < |Q(k.s, WaitQ(r))| ==> Q(k.s, WaitQ(r))[i] < |k.s.pcbs|
    ensures p in Q(Exit(k, c, r, now).s, q) || Reason(k, Exit(k, c, r, now), p, q, now)
  {
    hide Part, Names, LockInv, Q, WakeAll, Depart, Schedule;
    NotWaiting(k.s, Some(c), r, q);
    WakeAllInv(k, c, WaitQ(r));
    WaitDrained(k.s, r, Some(c));
    var t := k.(s := WakeAll(k.s, Q(k.s, WaitQ(r))));
    RunningLives(k.s.pcbs[r]);
    DepartInv(t, r, Some(c));
    ScheduleStays(Depart(t, r), c, now, p, q);
    if q != WaitQ(r) {
      DepartStays(t, r, Some(c), p, q);
      DueSame(k.s, t.s, Depart(t, r).s, r, p, now);
    }
  }

  lemma DueSame(s: Sched, t: Sched, u: Sched, r: nat, p: nat, now: nat)
    requires SameNames(s, t) && r < |t.pcbs| && u.pcbs == t.pcbs[r := t.pcbs[r].(status := Exited, linked := None)]
    ensures Due(u, p, now) == Due(s, p, now)
  {
  }

  /** Killing takes the process killed out of its queue, wakes those that waited
      for it, and hands its locks on: no lock has its number afterwards. */
  lemma KillStays(k: Kernel, c: nat, i: nat, now: nat, p: nat, q: QueueId)
    requires KInv(k, None) && i < |k.s.pcbs| && k.s.pcbs[i].pid > 0 && c < |k.s.cores| && p in Q(k.s, q) && q != ReadyQ
    ensures forall j :: 0 <= j < |Q(k.s, WaitQ(i))| ==> Q(k.s, WaitQ(i))[j] < |k.s.pcbs|
    ensures
      var t := KillSlot(k, c, i, now);
      p in Q(t.s, q) || Gone(t, p) || Reason(k, t, p, q, now)
  {
    hide Part, Names, LockInv, Q, WakeAll, ReleaseAll, Depart, Schedule, Unname;
    WaitDrained(k.s, i, None);
    var t := k.(s := WakeAll(k.s, Q(k.s, WaitQ(i))));
    KillWoken(k, t, i);
    KillEnds(k, c, i, now);
    if p != i && q != WaitQ(i) {
      ReleaseAllInv(t, i, k.s.pcbs[i].pid, 0, None);
      ReleaseAllFrame(t, i, k.s.pcbs[i].pid, 0, None);
      ReleaseAllStays(t, i, k.s.pcbs[i].pid, 0, None, p, q);
      KilledStays(k, t, c, i, now, p, q);
    }
  }

  /** What follows the release of the locks moves nobody else but due sleepers. */
  lemma KilledStays(k: Kernel, t: Kernel, c: nat, i: nat, now: nat, p: nat, q: QueueId)
    requires KInv(k, None) && i < |k.s.pcbs| && k.s.pcbs[i].pid > 0 && c < |k.s.cores| && q != ReadyQ && p != i
    requires forall j :: 0 <= j < |Q(k.s, WaitQ(i))| ==> Q(k.s, WaitQ(i))[j] < |k.s.pcbs|
    requires t == k.(s := WakeAll(k.s, Q(k.s, WaitQ(i)))) && SameNames(k.s, t.s) && i < |t.s.pcbs|
    requires
      var u := ReleaseAll(t, i, k.s.pcbs[i].pid, 0);
      && KInv(u, None) && SameNames(t.s, u.s) && u.s.pcbs[i] == t.s.pcbs[i] && Q(u.s, WaitQ(i)) == [] && u.s.cores == t.s.cores == k.s.cores
      && (p in Q(u.s, q) || (q.LockQ? && Holds(u, p, q.l)))
    ensures
      var t := KillSlot(k, c, i, now);
      p in Q(t.s, q) || Reason(k, t, p, q, now)
  {
    hide KInv, Q, WakeAll, ReleaseAll, Depart, Schedule, Unname;
    var u := ReleaseAll(t, i, k.s.pcbs[i].pid, 0);
    if !Live(k.s.pcbs[i]) {
      UnnameStays(u, i, p, q);
    } else {
      DepartInv(u, i, None);
      if p in Q(u.s, q) { DepartStays(u, i, None, p, q); }
      DepartSame(u, i);
      var v := Depart(u, i);
      UnnameStays(v, i, p, q);
      UnnameInv(v, i, None);
      var w := Unname(v, i);
      if k.s.pcbs[i].status == Running {
        EnterInv(w, c);
        UnnameCores(v, i);
        ScheduleStays(w, c, now, p, q);
        assert Due(w.s, p, now) == Due(k.s, p, now);
      }
    }
  }

  lemma DepartSame(k: Kernel, i: nat)
    requires i < |k.s.pcbs|
    ensures Depart(k, i).locks == k.locks && Depart(k, i).conds == k.conds
  {
  }

  lemma UnnameStays(k: Kernel, i: nat, p: nat, q: QueueId)
    requires i < |k.s.pcbs|
    ensures Unname(k, i).locks == k.locks && Q(Unname(k, i).s, q) == Q(k.s, q) && |Unname(k, i).s.pcbs| == |k.s.pcbs|
    ensures p != i && p < |k.s.pcbs| ==> Unname(k, i).s.pcbs[p] == k.s.pcbs[p]
    ensures Unname(k, i).s.pcbs[i] == k.s.pcbs[i].(pid := 0)
  {
  }

  lemma KillEnds(k: Kernel, c: nat, i: nat, now: nat)
    requires KInv(k, None) && i < |k.s.pcbs| && k.s.pcbs[i].pid > 0 && c < |k.s.cores|
    ensures forall j :: 0 <= j < |Q(k.s, WaitQ(i))| ==> Q(k.s, WaitQ(i))[j] < |k.s.pcbs|
    ensures
      var t := KillSlot(k, c, i, now);
      && |t.s.pcbs| == |k.s.pcbs| && !Live(t.s.pcbs[i]) && t.s.pcbs[i].pid == 0 && Q(t.s, WaitQ(i)) == []
      && forall l :: 0 <= l < |t.locks| ==> t.locks[l].owner != k.s.pcbs[i].pid
  {
    hide Part, Names, LockInv, Q, WakeAll, ReleaseAll, Depart, Schedule, Unname;
    WaitDrained(k.s, i, None);
    var t := k.(s := WakeAll(k.s, Q(k.s, WaitQ(i))));
    KillWoken(k, t, i);
    ReleaseAllInv(t, i, k.s.pcbs[i].pid, 0, None);
    var u := ReleaseAll(t, i, k.s.pcbs[i].pid, 0);
    UnnameStays(u, i, i, WaitQ(i));
    if Live(k.s.pcbs[i]) {
      DepartInv(u, i, None);
      DepartSame(u, i);
      DepartDrained(u, i);
      var v := Depart(u, i);
      UnnameStays(v, i, i, WaitQ(i));
      UnnameInv(v, i, None);
      if k.s.pcbs[i].status == Running {
        EnterInv(Unname(v, i), c);
        UnnameCores(v, i);
        NumberedCore(Unname(v, i).s, c);
        SchedulePart(Unname(v, i).s, c, now);
      }
    }
  }

  lemma DepartDrained(k: Kernel, i: nat)
    requires KInv(k, None) && i < |k.s.pcbs| && Live(k.s.pcbs[i]) && Q(k.s, WaitQ(i)) == []
    ensures Q(Depart(k, i).s, WaitQ(i)) == []
  {
    hide Part, LockInv, Q, Leave, Without;
    LeavePart(k.s, i, None);
    WithoutAbsent([], i);
  }

  // ---------- Conditions ----------

  lemma SignalOneStays(k: Kernel, x: nat, mid: Option<nat>, p: nat, q: QueueId)
    requires KInv(k, mid) && x < |k.conds| && Q(k.s, CondQ(x)) != [] && k.conds[x] < |k.locks| && k.locks[k.conds[x]].locked
    requires p in Q(k.s, q)
    ensures Q(k.s, CondQ(x))[0] < |k.s.pcbs|
    ensures
      var t := SignalOne(k, Q(k.s, CondQ(x))[0], k.conds[x]);
      p in Q(t.s, q) || (q == CondQ(x) && p in Q(t.s, LockQ(k.conds[x])))
  {
    hide Part, LockInv, Q, Without, Suspend, Detach;
    WaitersBlocked(k.s, mid, CondQ(x), 0);
    var w := Q(k.s, CondQ(x))[0];
    TransferPart(k.s, w, LockQ(k.conds[x]), mid);
    if p == w && q != CondQ(x) {
      NotInLinked(k.s, mid, w, q);
    }
  }

  lemma {:induction false} BroadcastAllStays(k: Kernel, x: nat, ws: seq<nat>, mid: Option<nat>, p: nat, q: QueueId)
    requires KInv(k, mid) && x < |k.conds| && Q(k.s, CondQ(x)) == ws && k.conds[x] < |k.locks| && k.locks[k.conds[x]].locked
    requires p in Q(k.s, q)
    ensures forall i :: 0 <= i < |ws| ==> ws[i] < |k.s.pcbs|
    ensures
      var t := BroadcastAll(k, ws, k.conds[x]);
      p in Q(t.s, q) || (q == CondQ(x) && p in Q(t.s, LockQ(k.conds[x])))
    decreases |ws|
  {
    hide KInv, Q, Suspend, Detach, Enqueue, SameNames;
    if ws != [] {
      CondWaiters(k, x, mid);
      SignalOneInv(k, x, mid);
      SignalOneStays(k, x, mid, p, q);
      var t := SignalOne(k, ws[0], k.conds[x]);
      NamesSize(k.s, t.s);
      BroadcastAllStays(t, x, ws[1..], mid, p, if p in Q(t.s, q) then q else LockQ(k.conds[x]));
    }
  }

  lemma SignalStays(k: Kernel, c: nat, r: nat, x: nat, now: nat, p: nat, q: QueueId)
    requires KInv(k, None) && Entered(k, c, r) && x < |k.conds| && Q(k.s, CondQ(x)) != [] && (r, k.conds[x]) in k.claims
    requires p in Q(k.s, q) && q != ReadyQ
    ensures CanSignal(k, x)
    ensures p in Q(Signal(k, c, x, now).s, q) || Reason(k, Signal(k, c, x, now), p, q, now)
  {
    hide KInv, Q, Schedule, SignalOne, SameNames;
    HolderLocks(k, c, r, k.conds[x]);
    CondWaiters(k, x, None);
    EnterInv(k, c);
    SignalOneInv(k, x, Some(c));
    SignalOneStays(k, x, Some(c), p, q);
    var u := SignalOne(k, Q(k.s, CondQ(x))[0], k.conds[x]);
    ScheduleStays(u, c, now, p, q);
    ScheduleStays(u, c, now, p, LockQ(k.conds[x]));
    NamesDue(k.s, u.s, p, now);
  }

  lemma BroadcastStays(k: Kernel, c: nat, r: nat, x: nat, now: nat, p: nat, q: QueueId)
    requires KInv(k, None) && Entered(k, c, r) && x < |k.conds| && Q(k.s, CondQ(x)) != [] && (r, k.conds[x]) in k.claims
    requires p in Q(k.s, q) && q != ReadyQ
    ensures CanSignal(k, x)
    ensures p in Q(Broadcast(k, c, x, now).s, q) || Reason(k, Broadcast(k, c, x, now), p, q, now)
  {
    hide KInv, Q, Schedule, BroadcastAll, SameNames;
    HolderLocks(k, c, r, k.conds[x]);
    CondWaiters(k, x, None);
    EnterInv(k, c);
    BroadcastAllInv(k, x, Q(k.s, CondQ(x)), Some(c));
    BroadcastAllStays(k, x, Q(k.s, CondQ(x)), Some(c), p, q);
    BroadcastNames(k, x, Q(k.s, CondQ(x)), Some(c));
    var u := BroadcastAll(k, Q(k.s, CondQ(x)), k.conds[x]);
    ScheduleStays(u, c, now, p, q);
    ScheduleStays(u, c, now, p, LockQ(k.conds[x]));
    NamesDue(k.s, u.s, p, now);
  }

  lemma {:induction false} BroadcastNames(k: Kernel, x: nat, ws: seq<nat>, mid: Option<nat>)
    requires KInv(k, mid) && x < |k.conds| && Q(k.s, CondQ(x)) == ws && k.conds[x] < |k.locks| && k.locks[k.conds[x]].locked
    ensures forall i :: 0 <= i < |ws| ==> ws[i] < |k.s.pcbs|
    ensures SameNames(k.s, BroadcastAll(k, ws, k.conds[x]).s)
    decreases |ws|
  {
    hide KInv, Q, Suspend, Detach, Enqueue;
    if ws != [] {
      CondWaiters(k, x, mid);
      SignalOneInv(k, x, mid);
      var t := SignalOne(k, ws[0], k.conds[x]);
      BroadcastNames(t, x, ws[1..], mid);
      SameNamesTransitive(k.s, t.s, BroadcastAll(t, ws[1..], k.conds[x]).s);
    }
  }

  lemma NamesDue(s: Sched, t: Sched, p: nat, now: nat)
    requires SameNames(s, t)
    ensures Due(t, p, now) == Due(s, p, now)
  {
  }

  lemma CondWaitStays(k: Kernel, c: nat, r: nat, x: nat, l: nat, now: nat, p: nat, q: QueueId)
    requires KInv(k, Some(c)) && Entered(k, c, r) && x < |k.conds| && (r, l) in k.claims
    requires Q(k.s, CondQ(x)) != [] ==> k.conds[x] == l
    requires p in Q(k.s, q) && q != ReadyQ
    ensures l < |k.locks|
    ensures p in Q(CondWait(k, c, r, x, l, now).s, q) || Reason(k, CondWait(k, c, r, x, l, now), p, q, now)
  {
    hide Part, Names, LockInv, Q, Hand, Suspend, Schedule;
    CondJoined(k, c, r, x, l);
    SuspendQ(k.s, r, CondQ(x));
    var t := k.(s := Suspend(k.s, r, CondQ(x)), conds := k.conds[x := l]);
    HandInv(t, l, Some(c));
    HandStays(t, l, Some(c), p, q);
    ScheduleStays(Hand(t, l), c, now, p, q);
    NamesDue(t.s, Hand(t, l).s, p, now);
    assert Due(t.s, p, now) == Due(k.s, p, now);
  }

  // ---------- Callers that block ----------

  /** The process a core runs is in no wait queue. */
  lemma CallerFree(k: Kernel, c: nat, r: nat, q: QueueId)
    requires KInv(k, None) && Entered(k, c, r) && q != ReadyQ
    ensures r !in Q(k.s, q) && KInv(k, Some(c))
  {
    EnterInv(k, c);
    hide Queues, Statuses, Cores, LockInv, Q;
    NotWaiting(k.s, None, r, q);
  }

  /** The caller sleeps exactly if the time is not zero; no other is moved. */
  lemma SleepStays(k: Kernel, c: nat, r: nat, time: nat, now: nat, p: nat, q: QueueId)
    requires KInv(k, None) && Entered(k, c, r) && q != ReadyQ
    ensures
      var u := Sleepy(k, r, time + now);
      var t := u.(s := Schedule(Suspend(u.s, r, SleepQ), c, now));
      && (p in Q(t.s, q) <==> (p in Q(k.s, q) && !(q == SleepQ && Due(k.s, p, now))) || (p == r && q == SleepQ && time > 0))
      && r < |t.s.pcbs| && t.s.pcbs[r].wakeup == time + now
  {
    CallerFree(k, c, r, q);
    CallerFree(k, c, r, SleepQ);
    SleepySame(k, c, r, time + now, now, p, q);
    SleepySame(k, c, r, time + now, now, r, q);
    hide KInv, Suspend, Schedule, Q, Sleepy, Due, SameNames;
    var u := Sleepy(k, r, time + now);
    SleepyInv(k, r, time + now, Some(c));
    SuspendInv(u, c, r, SleepQ);
    SuspendCores(u.s, r, SleepQ);
    SuspendStays(u, u.(s := Suspend(u.s, r, SleepQ)), c, r, SleepQ, now, p, q);
    SleptUntil(u, c, r, now);
  }

  lemma SleepySame(k: Kernel, c: nat, r: nat, wakeup: nat, now: nat, p: nat, q: QueueId)
    requires Entered(k, c, r)
    ensures
      var u := Sleepy(k, r, wakeup);
      && Entered(u, c, r) && Q(u.s, q) == Q(k.s, q) && r < |u.s.pcbs| && u.s.pcbs[r].wakeup == wakeup
      && Due(u.s, p, now) == if p == r then now >= wakeup else Due(k.s, p, now)
  {
  }

  lemma SleptUntil(k: Kernel, c: nat, r: nat, now: nat)
    requires Entered(k, c, r) && KInv(k.(s := Suspend(k.s, r, SleepQ)), Some(c)) && Suspend(k.s, r, SleepQ).cores == k.s.cores
    ensures
      var t := Schedule(Suspend(k.s, r, SleepQ), c, now);
      r < |t.pcbs| && t.pcbs[r].wakeup == k.s.pcbs[r].wakeup
  {
    hide Schedule, KInv;
    ScheduleStays(k.(s := Suspend(k.s, r, SleepQ)), c, now, r, SleepQ);
  }

  /** The caller waits exactly if the process it asks for is there and has not ended. */
  lemma AwaitStays(k: Kernel, c: nat, r: nat, pid: nat, now: nat, p: nat, q: QueueId)
    requires KInv(k, None) && Entered(k, c, r) && q != ReadyQ
    ensures
      var i, t := Find(k.s.pcbs, pid, 0), AwaitPid(k, c, r, pid, now);
      p in Q(t.s, q) <==>
        (p in Q(k.s, q) && (i < |k.s.pcbs| ==> !(q == SleepQ && Due(k.s, p, now))))
        || (p == r && q == WaitQ(i) && i < |k.s.pcbs| && Live(k.s.pcbs[i]))
  {
    CallerFree(k, c, r, q);
    hide KInv, Schedule, Suspend, Q;
    var i := Find(k.s.pcbs, pid, 0);
    if i < |k.s.pcbs| && Live(k.s.pcbs[i]) {
      SuspendInv(k, c, r, WaitQ(i));
      SuspendCores(k.s, r, WaitQ(i));
      SuspendStays(k, k.(s := Suspend(k.s, r, WaitQ(i))), c, r, WaitQ(i), now, p, q);
    } else if i < |k.s.pcbs| {
      ScheduleStays(k, c, now, p, q);
    }
  }

  /** The caller waits exactly if the lock is held, and otherwise holds it. */
  lemma AcquireStays(k: Kernel, c: nat, r: nat, l: nat, now: nat, p: nat, q: QueueId)
    requires KInv(k, None) && Entered(k, c, r) && l < |k.locks| && (r, l) !in k.claims && q != ReadyQ
    ensures
      var t := Acquire(k, c, r, l, now);
      && (!k.locks[l].locked ==> Holds(t, r, l))
      && (p in Q(t.s, q) <==>
            (p in Q(k.s, q) && (k.locks[l].locked ==> !(q == SleepQ && Due(k.s, p, now))))
            || (p == r && q == LockQ(l) && k.locks[l].locked))
  {
    CallerFree(k, c, r, q);
    hide KInv, Schedule, Suspend, Q;
    if k.locks[l].locked {
      AcquireBusyInv(k, c, r, l);
      SuspendCores(k.s, r, LockQ(l));
      SuspendStays(k, k.(claims := k.claims + {(r, l)}, s := Suspend(k.s, r, LockQ(l))), c, r, LockQ(l), now, p, q);
    }
  }

  lemma BarrierStays(k: Kernel, c: nat, r: nat, b: nat, now: nat, p: nat, q: QueueId)
    requires KInv(k, None) && Entered(k, c, r) && b < |k.bars| && p in Q(k.s, q) && q != ReadyQ
    ensures forall i :: 0 <= i < |Q(k.s, BarrierQ(b))| ==> Q(k.s, BarrierQ(b))[i] < |k.s.pcbs|
    ensures p in Q(BarrierWait(k, c, r, b, now).s, q) || Reason(k, BarrierWait(k, c, r, b, now), p, q, now)
  {
    hide KInv, Q, Schedule, WakeAll, Suspend;
    EnterInv(k, c);
    BarrierWaiters(k, b);
    if k.bars[b] == 1 {
      WakeAllInv(k, c, BarrierQ(b));
      WakeAllFrame(k, c, BarrierQ(b));
      WokenNames(k, c, BarrierQ(b));
      var u := k.(s := WakeAll(k.s, Q(k.s, BarrierQ(b))));
      NamesDue(k.s, u.s, p, now);
      ScheduleStays(u, c, now, p, q);
      ScheduleEmpty(u, c, now, BarrierQ(b));
    } else {
      SuspendInv(k, c, r, BarrierQ(b));
      SuspendCores(k.s, r, BarrierQ(b));
      SuspendStays(k, k.(s := Suspend(k.s, r, BarrierQ(b))), c, r, BarrierQ(b), now, p, q);
    }
  }

  lemma WokenNames(k: Kernel, c: nat, q: QueueId)
    requires KInv(k, Some(c)) && q != ReadyQ
    requires forall i :: 0 <= i < |Q(k.s, q)| ==> Q(k.s, q)[i] < |k.s.pcbs|
    ensures SameNames(k.s, WakeAll(k.s, Q(k.s, q)))
  {
    hide Part, Q, WakeAll, SameNames;
    WakeAllPart(k.s, q, Q(k.s, q), Some(c));
  }

  lemma ScheduleEmpty(k: Kernel, c: nat, now: nat, q: QueueId)
    requires KInv(k, Some(c)) && c < |k.s.cores| && q.BarrierQ? && Q(k.s, q) == []
    ensures Q(Schedule(k.s, c, now), q) == []
  {
    hide Part, Schedule, LockInv, Q;
    NumberedCore(k.s, c);
    SchedulePart(k.s, c, now);
  }

  /** The caller waits on the condition. */
  lemma CondWaits(k: Kernel, c: nat, r: nat, x: nat, l: nat, now: nat)
    requires KInv(k, None) && Entered(k, c, r) && x < |k.conds| && (r, l) in k.claims
    requires Q(k.s, CondQ(x)) != [] ==> k.conds[x] == l
    ensures l < |k.locks| && r in Q(CondWait(k, c, r, x, l, now).s, CondQ(x))
  {
    hide Part, Names, LockInv, Q, Hand, Suspend, Schedule;
    EnterInv(k, c);
    CondJoined(k, c, r, x, l);
    SuspendQ(k.s, r, CondQ(x));
    var t := k.(s := Suspend(k.s, r, CondQ(x)), conds := k.conds[x := l]);
    HandInv(t, l, Some(c));
    HandStays(t, l, Some(c), r, CondQ(x));
    ScheduleStays(Hand(t, l), c, now, r, CondQ(x));
  }

  // ---------- Every call, every run ----------

  /** When a call blocks its caller, and where: a sleep of some time, a wait for a
      process that has not ended, a lock that is held, a condition. */
  lemma Blocks(k: Kernel, c: nat, call: Call, now: nat)
    requires Enabled(k, c, call) && !call.Yield?
    ensures
      var r, t := k.s.cores[c].value, Step(k, c, call, now);
      match call
      case SleepFor(time) => (r in Q(t.s, SleepQ) <==> time > 0) && r < |t.s.pcbs| && t.s.pcbs[r].wakeup == time + now
      case WaitPid(pid) =>
        var i := Find(k.s.pcbs, pid, 0);
        r in Q(t.s, WaitQ(i)) <==> i < |k.s.pcbs| && Live(k.s.pcbs[i])
      case MutexAcquire(l) => l < |k.locks| && (r in Q(t.s, LockQ(l)) <==> k.locks[l].locked) && (!k.locks[l].locked ==> Holds(t, r, l))
      case CondWaitOn(x, l) => r in Q(t.s, CondQ(x))
      case _ => true
  {
    hide KInv, Schedule, Exit, KillSlot, Acquire, Release, CondWait, Signal, Broadcast, BarrierWait, AwaitPid, Exec, Suspend, Q, Live, Sleepy;
    var r := k.s.cores[c].value;
    match call
    case SleepFor(time) => SleepStays(k, c, r, time, now, r, SleepQ); CallerFree(k, c, r, SleepQ);
    case WaitPid(pid) =>
      var i := Find(k.s.pcbs, pid, 0);
      AwaitStays(k, c, r, pid, now, r, WaitQ(i));
      CallerFree(k, c, r, WaitQ(i));
    case MutexAcquire(l) => AcquireStays(k, c, r, l, now, r, LockQ(l)); CallerFree(k, c, r, LockQ(l));
    case CondWaitOn(x, l) => CondWaits(k, c, r, x, l, now);
    case _ =>
  }

  /** Whatever call is made, a process in a wait queue stays in it, or is killed,
      or leaves it for its reason. */
  lemma StepWakes(k: Kernel, c: nat, call: Call, now: nat, p: nat, q: QueueId)
    requires Enabled(k, c, call) && p in Q(k.s, q) && q != ReadyQ
    ensures
      var t := Step(k, c, call, now);
      p in Q(t.s, q) || Gone(t, p) || Reason(k, t, p, q, now)
  {
    hide KInv, Schedule, Exit, KillSlot, Acquire, Release, CondWait, Signal, Broadcast, BarrierWait, AwaitPid, Exec, Suspend, Q, Live, Sleepy;
    EnterInv(k, c);
    if call.Yield? {
      ScheduleStays(k, c, now, p, q);
    } else {
      var r := k.s.cores[c].value;
      match call
      case SleepFor(time) => SleepStays(k, c, r, time, now, p, q);
      case ExitCall => ExitStays(k, c, r, now, p, q);
      case KillPid(pid) =>
        var i := Find(k.s.pcbs, pid, 0);
        if i < |k.s.pcbs| { KillStays(k, c, i, now, p, q); }
      case WaitPid(pid) => AwaitStays(k, c, r, pid, now, p, q);
      case Start(i, mask) => StartStays(k, i, mask, p, q);
      case MutexAcquire(l) => AcquireStays(k, c, r, l, now, p, q);
      case MutexRelease(l) => ReleasedStays(k, c, r, l, now, p, q);
      case CondWaitOn(x, l) => CondWaitStays(k, c, r, x, l, now, p, q);
      case CondSignal(x) => SignalStays(k, c, r, x, now, p, q);
      case CondBroadcast(x) =>
        if Q(k.s, CondQ(x)) != [] { BroadcastStays(k, c, r, x, now, p, q); } else { ScheduleStays(k, c, now, p, q); BroadcastNobody(k, c, x, now); }
      case BarrierCall(b) => BarrierStays(k, c, r, b, now, p, q);
    }
  }

  lemma BroadcastNobody(k: Kernel, c: nat, x: nat, now: nat)
    requires x < |k.conds| && c < |k.s.cores| && Q(k.s, CondQ(x)) == []
    ensures Broadcast(k, c, x, now) == k.(s := Schedule(k.s, c, now))
  {
  }

  lemma StartStays(k: Kernel, i: nat, mask: set<nat>, p: nat, q: QueueId)
    requires KInv(k, None) && i < |k.s.pcbs| && !Live(k.s.pcbs[i]) && !OnCore(k.s, i) && p in Q(k.s, q) && q != ReadyQ
    ensures p in Q(Exec(k, i, mask).s, q)
  {
    hide Part, Names, LockInv;
    ExecPart(k, i, mask);
  }

  lemma ReleasedStays(k: Kernel, c: nat, r: nat, l: nat, now: nat, p: nat, q: QueueId)
    requires KInv(k, None) && Entered(k, c, r) && (r, l) in k.claims && p in Q(k.s, q) && q != ReadyQ
    ensures l < |k.locks| && (p in Q(Release(k, r, l).s, q) || Reason(k, Release(k, r, l), p, q, now))
  {
    HolderLocks(k, c, r, l);
    NamedAbove(k, r);
    hide KInv, Q, Release;
    ReleaseStays(k, r, l, None, p, q);
  }

  /** In every run a process that was in a wait queue and no longer is was killed,
      or had its reason, at some call of the run. */
  lemma {:induction false} RunWakes(k: Kernel, es: seq<Event>, p: nat, q: QueueId) returns (j: nat)
    requires KInv(k, None) && Run(k, es).Some? && p in Q(k.s, q) && q != ReadyQ && p !in Q(Run(k, es).value.s, q)
    ensures j < |es| && Run(k, es[..j]).Some? && Run(k, es[..j + 1]).Some? && p in Q(Run(k, es[..j]).value.s, q)
    ensures
      var u, t := Run(k, es[..j]).value, Run(k, es[..j + 1]).value;
      Gone(t, p) || Reason(u, t, p, q, es[j].now)
  {
    hide KInv, Step, Q, Reason, Gone;
    var n := |es| - 1;
    var e := es[n];
    var u := Run(k, es[..n]).value;
    if p in Q(u.s, q) {
      j := n;
      assert es[..n + 1] == es;
      StepWakes(u, e.c, e.call, e.now, p, q);
    } else {
      j := RunWakes(k, es[..n], p, q);
      assert es[..n][..j] == es[..j] && es[..n][..j + 1] == es[..j + 1] && es[..n][j] == es[j];
    }
  }
}
