/** Cyclic barriers over all runs of the system calls, and what the calls do
    when their callers break the rules the kernel relies on. */
module Barriers {
  import opened Bytes
  import opened Scheduler
  import opened Syscalls

  /** Arrivals still awaited and processes waiting make up the goal. */
  ghost predicate BarOk(k: Kernel, b: nat, goal: nat) {
    b < |k.bars| && k.bars[b] >= 1 && k.bars[b] + |Q(k.s, BarrierQ(b))| == goal
  }

  // ---------- Steps that are no barrier's ----------

  ghost predicate SameBarrier(k: Kernel, t: Kernel, b: nat) {
    |t.bars| == |k.bars| && (b < |k.bars| ==> t.bars[b] == k.bars[b]) && Q(t.s, BarrierQ(b)) == Q(k.s, BarrierQ(b))
  }

  lemma ScheduleKeeps(k: Kernel, c: nat, now: nat, b: nat)
    requires KInv(k, Some(c)) && c < |k.s.cores|
    ensures SameBarrier(k, k.(s := Schedule(k.s, c, now)), b)
  {
    hide Part, Schedule, LockInv;
    NumberedCore(k.s, c);
    SchedulePart(k.s, c, now);
  }

  lemma AwaitKeeps(k: Kernel, c: nat, p: nat, pid: nat, now: nat, b: nat)
    requires KInv(k, None) && Entered(k, c, p)
    ensures SameBarrier(k, AwaitPid(k, c, p, pid, now), b)
  {
    hide KInv, Schedule, Suspend;
    EnterInv(k, c);
    var i := Find(k.s.pcbs, pid, 0);
    if i < |k.s.pcbs| && Live(k.s.pcbs[i]) {
      SuspendInv(k, c, p, WaitQ(i));
      SuspendCores(k.s, p, WaitQ(i));
      SuspendQ(k.s, p, WaitQ(i));
      ScheduleKeeps(k.(s := Suspend(k.s, p, WaitQ(i))), c, now, b);
    } else {
      ScheduleKeeps(k, c, now, b);
    }
  }

  lemma AcquireKeeps(k: Kernel, c: nat, p: nat, l: nat, now: nat, b: nat)
    requires KInv(k, None) && Entered(k, c, p) && l < |k.locks| && (p, l) !in k.claims
    ensures SameBarrier(k, Acquire(k, c, p, l, now), b)
  {
    hide KInv, Schedule, Suspend;
    if k.locks[l].locked {
      EnterInv(k, c);
      AcquireBusyInv(k, c, p, l);
      SuspendCores(k.s, p, LockQ(l));
      SuspendQ(k.s, p, LockQ(l));
      ScheduleKeeps(k.(claims := k.claims + {(p, l)}, s := Suspend(k.s, p, LockQ(l))), c, now, b);
    }
  }

  lemma ReleaseKeeps(k: Kernel, i: nat, l: nat, mid: Option<nat>, b: nat)
    requires KInv(k, mid) && i < |k.s.pcbs| && Pid(k, i) > 0 && l < |k.locks| && k.locks[l].owner == Pid(k, i)
    ensures SameBarrier(k, Release(k, i, l), b)
  {
    OwnerFacts(k, i, l, mid);
    hide Part, LockInv, Q, Hand;
    UnclaimInv(k, i, l);
    HandInv(k.(claims := k.claims - {(i, l)}), l, mid);
  }

  lemma {:induction false} ReleaseAllKeeps(k: Kernel, i: nat, pid: nat, l: nat, mid: Option<nat>, b: nat)
    requires KInv(k, mid) && i < |k.s.pcbs| && Pid(k, i) == pid > 0 && l <= |k.locks|
    requires forall j :: 0 <= j < l ==> k.locks[j].owner != pid
    ensures SameBarrier(k, ReleaseAll(k, i, pid, l), b)
    decreases |k.locks| - l
  {
    hide KInv, Q, Release, SameNames;
    if l < |k.locks| {
      var u := k;
      if k.locks[l].owner == pid {
        ReleaseForInv(k, i, l, mid);
        ReleaseKeeps(k, i, l, mid, b);
        u := Release(k, i, l);
        NamesSize(k.s, u.s);
      }
      ReleaseAllKeeps(u, i, pid, l + 1, mid, b);
    }
  }

  lemma DepartKeeps(k: Kernel, i: nat, mid: Option<nat>, b: nat)
    requires KInv(k, mid) && i < |k.s.pcbs| && Live(k.s.pcbs[i]) && Q(k.s, WaitQ(i)) == [] && i !in Q(k.s, BarrierQ(b))
    ensures SameBarrier(k, Depart(k, i), b)
  {
    hide Part, LockInv, Q, Leave, Without;
    LeavePart(k.s, i, mid);
    WithoutAbsent(Q(k.s, BarrierQ(b)), i);
  }

  lemma ExitKeeps(k: Kernel, c: nat, p: nat, now: nat, b: nat)
    requires KInv(k, Some(c)) && Entered(k, c, p)
    ensures forall i :: 0 <= i < |Q(k.s, WaitQ(p))| ==> Q(k.s, WaitQ(p))[i] < |k.s.pcbs|
    ensures SameBarrier(k, Exit(k, c, p, now), b)
  {
    hide Part, Names, LockInv, Q, WakeAll, Depart, Schedule;
    NotWaiting(k.s, Some(c), p, BarrierQ(b));
    WakeAllInv(k, c, WaitQ(p));
    WaitDrained(k.s, p, Some(c));
    var t := k.(s := WakeAll(k.s, Q(k.s, WaitQ(p))));
    RunningLives(k.s.pcbs[p]);
    DepartInv(t, p, Some(c));
    DepartKeeps(t, p, Some(c), b);
    ScheduleKeeps(Depart(t, p), c, now, b);
  }

  lemma KillKeeps(k: Kernel, c: nat, i: nat, now: nat, b: nat)
    requires KInv(k, None) && i < |k.s.pcbs| && k.s.pcbs[i].pid > 0 && c < |k.s.cores| && i !in Q(k.s, BarrierQ(b))
    ensures forall j :: 0 <= j < |Q(k.s, WaitQ(i))| ==> Q(k.s, WaitQ(i))[j] < |k.s.pcbs|
    ensures SameBarrier(k, KillSlot(k, c, i, now), b)
  {
    hide Part, Names, LockInv, Q, WakeAll, ReleaseAll, Depart, Schedule, Unname;
    WaitDrained(k.s, i, None);
    var t := k.(s := WakeAll(k.s, Q(k.s, WaitQ(i))));
    KillWoken(k, t, i);
    ReleaseAllInv(t, i, k.s.pcbs[i].pid, 0, None);
    ReleaseAllKeeps(t, i, k.s.pcbs[i].pid, 0, None, b);
    var u := ReleaseAll(t, i, k.s.pcbs[i].pid, 0);
    UnnameKeeps(u, i, b);
    if Live(k.s.pcbs[i]) {
      DepartInv(u, i, None);
      DepartKeeps(u, i, None, b);
      UnnameKeeps(Depart(u, i), i, b);
      UnnameInv(Depart(u, i), i, None);
      if k.s.pcbs[i].status == Running {
        EnterInv(Unname(Depart(u, i), i), c);
        UnnameCores(Depart(u, i), i);
        ScheduleKeeps(Unname(Depart(u, i), i), c, now, b);
      }
    }
  }

  lemma UnnameKeeps(k: Kernel, i: nat, b: nat)
    requires i < |k.s.pcbs|
    ensures SameBarrier(k, Unname(k, i), b)
  {
  }

  lemma SignalOneKeeps(k: Kernel, x: nat, mid: Option<nat>, b: nat)
    requires KInv(k, mid) && x < |k.conds| && Q(k.s, CondQ(x)) != [] && k.conds[x] < |k.locks| && k.locks[k.conds[x]].locked
    ensures Q(k.s, CondQ(x))[0] < |k.s.pcbs|
    ensures SameBarrier(k, SignalOne(k, Q(k.s, CondQ(x))[0], k.conds[x]), b)
  {
    hide Part, LockInv, Q, Without, Suspend, Detach;
    WaitersBlocked(k.s, mid, CondQ(x), 0);
    var w := Q(k.s, CondQ(x))[0];
    TransferPart(k.s, w, LockQ(k.conds[x]), mid);
    NotInLinked(k.s, mid, w, BarrierQ(b));
    WithoutAbsent(Q(k.s, BarrierQ(b)), w);
  }

  lemma {:induction false} BroadcastAllKeeps(k: Kernel, x: nat, ws: seq<nat>, mid: Option<nat>, b: nat)
    requires KInv(k, mid) && x < |k.conds| && Q(k.s, CondQ(x)) == ws && k.conds[x] < |k.locks| && k.locks[k.conds[x]].locked
    ensures forall i :: 0 <= i < |ws| ==> ws[i] < |k.s.pcbs|
    ensures SameBarrier(k, BroadcastAll(k, ws, k.conds[x]), b)
    decreases |ws|
  {
    hide KInv, Q, Suspend, Detach, Enqueue, SameNames;
    if ws != [] {
      CondWaiters(k, x, mid);
      SignalOneInv(k, x, mid);
      SignalOneKeeps(k, x, mid, b);
      var t := SignalOne(k, ws[0], k.conds[x]);
      NamesSize(k.s, t.s);
      BroadcastAllKeeps(t, x, ws[1..], mid, b);
    }
  }

  lemma SignalsKeep(k: Kernel, c: nat, p: nat, x: nat, now: nat, b: nat)
    requires KInv(k, None) && Entered(k, c, p) && x < |k.conds| && Q(k.s, CondQ(x)) != [] && (p, k.conds[x]) in k.claims
    ensures CanSignal(k, x) && SameBarrier(k, Signal(k, c, x, now), b) && SameBarrier(k, Broadcast(k, c, x, now), b)
  {
    hide KInv, Q, Schedule, SignalOne, BroadcastAll, SameNames;
    HolderLocks(k, c, p, k.conds[x]);
    CondWaiters(k, x, None);
    EnterInv(k, c);
    SignalOneInv(k, x, Some(c));
    SignalOneKeeps(k, x, Some(c), b);
    ScheduleKeeps(SignalOne(k, Q(k.s, CondQ(x))[0], k.conds[x]), c, now, b);
    BroadcastAllInv(k, x, Q(k.s, CondQ(x)), Some(c));
    BroadcastAllKeeps(k, x, Q(k.s, CondQ(x)), Some(c), b);
    ScheduleKeeps(BroadcastAll(k, Q(k.s, CondQ(x)), k.conds[x]), c, now, b);
  }

  lemma CondWaitKeeps(k: Kernel, c: nat, p: nat, x: nat, l: nat, now: nat, b: nat)
    requires KInv(k, Some(c)) && Entered(k, c, p) && x < |k.conds| && (p, l) in k.claims
    requires Q(k.s, CondQ(x)) != [] ==> k.conds[x] == l
    ensures l < |k.locks| && SameBarrier(k, CondWait(k, c, p, x, l, now), b)
  {
    hide Part, Names, LockInv, Q, Hand, Suspend, Schedule, SameNames;
    CondJoined(k, c, p, x, l);
    SuspendQ(k.s, p, CondQ(x));
    var t := k.(s := Suspend(k.s, p, CondQ(x)), conds := k.conds[x := l]);
    HandInv(t, l, Some(c));
    ScheduleKeeps(Hand(t, l), c, now, b);
  }

  lemma SleepKeeps(k: Kernel, c: nat, p: nat, time: nat, now: nat, b: nat)
    requires KInv(k, Some(c)) && Entered(k, c, p)
    ensures
      var u := Sleepy(k, p, time);
      SameBarrier(k, u.(s := Schedule(Suspend(u.s, p, SleepQ), c, now)), b)
  {
    SleepyQueues(k, p, time, b);
    hide KInv, Suspend, Schedule, Q;
    SleepyInv(k, p, time, Some(c));
    var u := Sleepy(k, p, time);
    SuspendInv(u, c, p, SleepQ);
    SuspendCores(u.s, p, SleepQ);
    SuspendQ(u.s, p, SleepQ);
    ScheduleKeeps(u.(s := Suspend(u.s, p, SleepQ)), c, now, b);
  }

  lemma SleepyQueues(k: Kernel, p: nat, time: nat, b: nat)
    requires p < |k.s.pcbs|
    ensures SameBarrier(k, Sleepy(k, p, time), b)
  {
  }

  lemma ReleasedKeeps(k: Kernel, c: nat, p: nat, l: nat, b: nat)
    requires KInv(k, None) && Entered(k, c, p) && (p, l) in k.claims
    ensures l < |k.locks| && SameBarrier(k, Release(k, p, l), b)
  {
    HolderLocks(k, c, p, l);
    NamedAbove(k, p);
    ReleaseKeeps(k, p, l, None, b);
  }

  lemma NamedAbove(k: Kernel, p: nat)
    requires KInv(k, None) && p < |k.s.pcbs| && Live(k.s.pcbs[p])
    ensures Pid(k, p) > 0
  {
  }

  /** Arrivals at another barrier. */
  lemma BarrierElsewhere(k: Kernel, c: nat, p: nat, a: nat, now: nat, b: nat)
    requires KInv(k, None) && Entered(k, c, p) && a < |k.bars| && a != b
    ensures forall i :: 0 <= i < |Q(k.s, BarrierQ(a))| ==> Q(k.s, BarrierQ(a))[i] < |k.s.pcbs|
    ensures SameBarrier(k, BarrierWait(k, c, p, a, now), b)
  {
    hide KInv, Q, Schedule, WakeAll, Suspend;
    EnterInv(k, c);
    BarrierWaiters(k, a);
    if k.bars[a] == 1 {
      WakeAllInv(k, c, BarrierQ(a));
      WakeAllFrame(k, c, BarrierQ(a));
      ScheduleKeeps(k.(s := WakeAll(k.s, Q(k.s, BarrierQ(a)))), c, now, b);
    } else {
      SuspendInv(k, c, p, BarrierQ(a));
      SuspendCores(k.s, p, BarrierQ(a));
      SuspendQ(k.s, p, BarrierQ(a));
      ScheduleKeeps(k.(s := Suspend(k.s, p, BarrierQ(a))), c, now, b);
    }
  }

  lemma WakeAllFrame(k: Kernel, c: nat, q: QueueId)
    requires KInv(k, Some(c)) && q != ReadyQ
    ensures forall i :: 0 <= i < |Q(k.s, q)| ==> Q(k.s, q)[i] < |k.s.pcbs|
    ensures Q(WakeAll(k.s, Q(k.s, q)), q) == [] && Q(WakeAll(k.s, Q(k.s, q)), ReadyQ) == Q(k.s, ReadyQ) + Q(k.s, q)
    ensures forall r :: r != ReadyQ && r != q ==> Q(WakeAll(k.s, Q(k.s, q)), r) == Q(k.s, r)
  {
    hide Part, Q, WakeAll;
    WakeAllPart(k.s, q, Q(k.s, q), Some(c));
  }

  // ---------- Barriers over all runs ----------

  /** Not an arrival at barrier b, and not the kill of a process waiting there. */
  ghost predicate Apart(k: Kernel, call: Call, b: nat) {
    && call != BarrierCall(b)
    && (call.KillPid? ==>
          var i := Find(k.s.pcbs, call.pid, 0); i < |k.s.pcbs| ==> i !in Q(k.s, BarrierQ(b)))
  }

  lemma StepKeeps(k: Kernel, c: nat, call: Call, now: nat, b: nat)
    requires Enabled(k, c, call) && Apart(k, call, b)
    ensures SameBarrier(k, Step(k, c, call, now), b)
  {
    hide KInv, Schedule, Exit, KillSlot, Acquire, Release, CondWait, Signal, Broadcast, BarrierWait, AwaitPid, Exec, Suspend, Q, Live;
    EnterInv(k, c);
    if call.Yield? {
      ScheduleKeeps(k, c, now, b);
    } else {
      var p := k.s.cores[c].value;
      match call
      case SleepFor(time) => SleepKeeps(k, c, p, time + now, now, b);
      case ExitCall => ExitKeeps(k, c, p, now, b);
      case KillPid(pid) =>
        var i := Find(k.s.pcbs, pid, 0);
        if i < |k.s.pcbs| { KillKeeps(k, c, i, now, b); }
      case WaitPid(pid) => AwaitKeeps(k, c, p, pid, now, b);
      case Start(i, mask) => StartKeeps(k, i, mask, b);
      case MutexAcquire(l) => AcquireKeeps(k, c, p, l, now, b);
      case MutexRelease(l) => ReleasedKeeps(k, c, p, l, b);
      case CondWaitOn(x, l) => CondWaitKeeps(k, c, p, x, l, now, b);
      case CondSignal(x) => SignalsKeep(k, c, p, x, now, b);
      case CondBroadcast(x) =>
        if Q(k.s, CondQ(x)) != [] { SignalsKeep(k, c, p, x, now, b); } else { EmptyBroadcast(k, c, x, now, b); }
      case BarrierCall(a) => BarrierElsewhere(k, c, p, a, now, b);
    }
  }

  lemma StartKeeps(k: Kernel, i: nat, mask: set<nat>, b: nat)
    requires KInv(k, None) && i < |k.s.pcbs| && !Live(k.s.pcbs[i]) && !OnCore(k.s, i)
    ensures SameBarrier(k, Exec(k, i, mask), b)
  {
    hide Part, Names, LockInv;
    ExecPart(k, i, mask);
  }

  lemma EmptyBroadcast(k: Kernel, c: nat, x: nat, now: nat, b: nat)
    requires KInv(k, Some(c)) && c < |k.s.cores| && x < |k.conds| && Q(k.s, CondQ(x)) == []
    ensures SameBarrier(k, Broadcast(k, c, x, now), b)
  {
    hide KInv, Schedule, Q;
    ScheduleKeeps(k, c, now, b);
  }

  /** An arrival: before the last, the process waits at the end of the barrier's
      queue; at the last, all those waiting become ready together, in order of
      arrival, and the barrier is as it was before the first. */
  lemma Arrival(k: Kernel, c: nat, p: nat, b: nat, now: nat, goal: nat)
    requires KInv(k, None) && Entered(k, c, p) && BarOk(k, b, goal)
    ensures forall i :: 0 <= i < |Q(k.s, BarrierQ(b))| ==> Q(k.s, BarrierQ(b))[i] < |k.s.pcbs|
    ensures
      var q, t := Q(k.s, BarrierQ(b)), BarrierWait(k, c, p, b, now);
      && BarOk(t, b, goal)
      && (if |q| == goal - 1
          then Q(t.s, BarrierQ(b)) == [] && t.bars[b] == goal && Q(WakeAll(k.s, q), ReadyQ) == Q(k.s, ReadyQ) + q
          else Q(t.s, BarrierQ(b)) == q + [p])
  {
    hide KInv, Q, Schedule, WakeAll, Suspend;
    EnterInv(k, c);
    BarrierWaiters(k, b);
    if k.bars[b] == 1 {
      WakeAllInv(k, c, BarrierQ(b));
      WakeAllFrame(k, c, BarrierQ(b));
      ScheduleKeeps(k.(s := WakeAll(k.s, Q(k.s, BarrierQ(b)))), c, now, b);
    } else {
      SuspendInv(k, c, p, BarrierQ(b));
      SuspendCores(k.s, p, BarrierQ(b));
      SuspendQ(k.s, p, BarrierQ(b));
      ScheduleKeeps(k.(s := Suspend(k.s, p, BarrierQ(b))), c, now, b);
    }
  }

  /** No event of the run kills a process waiting at barrier b. */
  ghost predicate Spared(k: Kernel, es: seq<Event>, b: nat) {
    es == [] ||
    (Spared(k, es[..|es| - 1], b) &&
     var r, call := Run(k, es[..|es| - 1]), es[|es| - 1].call;
     r.Some? ==> call == BarrierCall(b) || Apart(r.value, call, b))
  }

  /** In every run that kills no process waiting at it, a barrier's count and its
      queue together are always the goal: it never releases early or late. */
  lemma {:induction false} RunBarrier(k: Kernel, es: seq<Event>, b: nat, goal: nat)
    requires KInv(k, None) && Run(k, es).Some? && BarOk(k, b, goal) && Spared(k, es, b)
    ensures BarOk(Run(k, es).value, b, goal)
  {
    hide KInv, Step, Apart, BarOk;
    if es != [] {
      RunBarrier(k, es[..|es| - 1], b, goal);
      RunInv(k, es[..|es| - 1]);
      var e := es[|es| - 1];
      StepBar(Run(k, es[..|es| - 1]).value, e, b, goal);
    }
  }

  lemma StepBar(k: Kernel, e: Event, b: nat, goal: nat)
    requires Enabled(k, e.c, e.call) && BarOk(k, b, goal) && (e.call == BarrierCall(b) || Apart(k, e.call, b))
    ensures BarOk(Step(k, e.c, e.call, e.now), b, goal)
  {
    hide KInv, Schedule, Exit, KillSlot, Acquire, Release, CondWait, Signal, Broadcast, BarrierWait, AwaitPid, Exec, Suspend, Q, Apart;
    if e.call == BarrierCall(b) {
      Arrival(k, e.c, k.s.cores[e.c].value, b, e.now, goal);
    } else {
      hide Step;
      StepKeeps(k, e.c, e.call, e.now, b);
    }
  }

  // ---------- When the rules are broken ----------

  /** A signal keeps the partition exactly if the condition's lock is held: with
      the lock free the waiter becomes its owner but is put on no queue. */
  lemma SignalSound(k: Kernel, c: nat, x: nat, now: nat)
    requires KInv(k, None) && c < |k.s.cores| && x < |k.conds| && k.conds[x] < |k.locks| && Q(k.s, CondQ(x)) != []
    ensures CanSignal(k, x)
    ensures KInv(Signal(k, c, x, now), None) <==> k.locks[k.conds[x]].locked
  {
    CondWaiters(k, x, None);
    EnterInv(k, c);
    hide LockInv, Names, Schedule;
    if k.locks[k.conds[x]].locked {
      hide KInv, Q, SignalOne, SameNames;
      SignalOneInv(k, x, Some(c));
      ScheduleInv(SignalOne(k, Q(k.s, CondQ(x))[0], k.conds[x]), c, now);
    } else {
      var w := Q(k.s, CondQ(x))[0];
      WaitersBlocked(k.s, None, CondQ(x), 0);
      DetachQueues(k.s, w);
      var t := Signal(k, c, x, now);
      assert t.s.pcbs[w].status == Blocked && t.s.pcbs[w].linked == None;
      assert !StatusOk(t.s.pcbs[w]);
    }
  }

  /** Exiting keeps one's locks: their owner is then a number nobody alive has. */
  lemma ExitKeepsLocks(k: Kernel, c: nat, p: nat, l: nat, now: nat)
    requires KInv(k, None) && Entered(k, c, p) && (p, l) in k.claims
    ensures forall i :: 0 <= i < |Q(k.s, WaitQ(p))| ==> Q(k.s, WaitQ(p))[i] < |k.s.pcbs|
    ensures
      var t := Exit(k, c, p, now);
      l < |t.locks| && t.locks[l].locked && forall r :: 0 <= r < |t.s.pcbs| && Live(t.s.pcbs[r]) ==> !Holds(t, r, l)
  {
    HolderLocks(k, c, p, l);
    hide LockInv, Names, Part, Q, Schedule, WakeAll, Leave;
    EnterInv(k, c);
    WaitDrained(k.s, p, None);
    ExitInv(k, c, p, now);
    var t := Exit(k, c, p, now);
    ExitNames(k, c, p, now);
    forall r | 0 <= r < |t.s.pcbs| && Live(t.s.pcbs[r]) ensures !Holds(t, r, l) {
      assert r != p;
      OtherPid(t.s, r, p);
    }
  }

  lemma ExitNames(k: Kernel, c: nat, p: nat, now: nat)
    requires KInv(k, Some(c)) && Entered(k, c, p)
    ensures forall i :: 0 <= i < |Q(k.s, WaitQ(p))| ==> Q(k.s, WaitQ(p))[i] < |k.s.pcbs|
    ensures
      var t := Exit(k, c, p, now);
      && t.locks == k.locks && |t.s.pcbs| == |k.s.pcbs| && Pid(t, p) == Pid(k, p) && !Live(t.s.pcbs[p])
      && forall r :: 0 <= r < |k.s.pcbs| && r != p ==> t.s.pcbs[r].pid == k.s.pcbs[r].pid && (Live(t.s.pcbs[r]) <==> Live(k.s.pcbs[r]))
  {
    hide LockInv, Part, Q, Schedule, WakeAll, Leave, Names;
    WaitDrained(k.s, p, Some(c));
    WakeAllInv(k, c, WaitQ(p));
    var t := k.(s := WakeAll(k.s, Q(k.s, WaitQ(p))));
    RunningLives(k.s.pcbs[p]);
    DepartInv(t, p, Some(c));
    NumberedCore(Depart(t, p).s, c);
    SchedulePart(Depart(t, p).s, c, now);
  }

  /** Killing a process that waits at a barrier turns it into a barrier for one
      process fewer: the count stays and the queue is one shorter. */
  lemma KillShrinksBarrier(k: Kernel, c: nat, i: nat, now: nat, b: nat, goal: nat)
    requires KInv(k, None) && i < |k.s.pcbs| && k.s.pcbs[i].pid > 0 && c < |k.s.cores|
    requires BarOk(k, b, goal) && i in Q(k.s, BarrierQ(b))
    ensures forall j :: 0 <= j < |Q(k.s, WaitQ(i))| ==> Q(k.s, WaitQ(i))[j] < |k.s.pcbs|
    ensures BarOk(KillSlot(k, c, i, now), b, goal - 1)
  {
    hide Part, Names, LockInv, Q, WakeAll, ReleaseAll, Depart, Schedule, Unname, Distinct, SameNames;
    QueueDistinctIn(k.s, None, BarrierQ(b));
    BlockedHere(k, i, b);
    WaitDrained(k.s, i, None);
    var t := k.(s := WakeAll(k.s, Q(k.s, WaitQ(i))));
    KillWoken(k, t, i);
    ReleaseAllInv(t, i, k.s.pcbs[i].pid, 0, None);
    ReleaseAllKeeps(t, i, k.s.pcbs[i].pid, 0, None, b);
    var u := ReleaseAll(t, i, k.s.pcbs[i].pid, 0);
    DepartInv(u, i, None);
    DepartShrinks(u, i, b);
    UnnameKeeps(Depart(u, i), i, b);
  }

  lemma BlockedHere(k: Kernel, i: nat, b: nat)
    requires KInv(k, None) && i in Q(k.s, BarrierQ(b))
    ensures i < |k.s.pcbs| && k.s.pcbs[i].status == Blocked
  {
    hide LockInv, Names;
    var j :| 0 <= j < |Q(k.s, BarrierQ(b))| && Q(k.s, BarrierQ(b))[j] == i;
    WaitersBlocked(k.s, None, BarrierQ(b), j);
  }

  lemma DepartShrinks(k: Kernel, i: nat, b: nat)
    requires KInv(k, None) && i < |k.s.pcbs| && Live(k.s.pcbs[i]) && Q(k.s, WaitQ(i)) == []
    requires i in Q(k.s, BarrierQ(b)) && Distinct(Q(k.s, BarrierQ(b)))
    ensures |Q(Depart(k, i).s, BarrierQ(b))| == |Q(k.s, BarrierQ(b))| - 1 && Depart(k, i).bars == k.bars
  {
    hide Part, LockInv, Names, Q, Leave, Distinct;
    LeavePart(k.s, i, None);
    var q := Q(k.s, BarrierQ(b));
    var j :| 0 <= j < |q| && q[j] == i;
    WithoutAt(q, j);
  }

  /** A process killed on another core that, before it is stopped, makes one more
      blocking call: it sleeps, wakes, runs again, and at the next tick is left
      marked running on no core, because its number is gone. */
  function TwoRunning(): Sched {
    Sched([Pcb(Running, 1, {0, 1}, 0, None), Pcb(Running, 2, {0, 1}, 0, None)], map[], [Some(0), Some(1)], 3)
  }

  function ZombieSleeps(s: Sched): Sched
    requires |s.pcbs| == 2 && |s.cores| == 2
  {
    Schedule(Suspend(s, 1, SleepQ), 1, 0)
  }

  lemma EmptyQueues(s: Sched, c: nat)
    requires c < |s.cores| && Q(s, SleepQ) == [] && Q(s, ReadyQ) == []
    ensures CheckSleeping(s, 0) == s && Dispatch(s, c) == s.(cores := s.cores[c := None])
  {
  }

  lemma ZombieLost()
    ensures
      var killed := TwoRunning().(pcbs := [TwoRunning().pcbs[0], Pcb(Exited, 0, {0, 1}, 0, None)]);
      var woken := ZombieSleeps(killed);
      && woken.pcbs[1].status == Running && woken.cores[1] == Some(1)
      && |woken.cores| == 2
      && var ticked := Schedule(woken, 1, 0);
      |ticked.pcbs| == 2 && ticked.pcbs[1].status == Running && !OnCore(ticked, 1)
  {
    var killed := TwoRunning().(pcbs := [TwoRunning().pcbs[0], Pcb(Exited, 0, {0, 1}, 0, None)]);
    var asleep := Suspend(killed, 1, SleepQ);
    assert Q(asleep, SleepQ) == [1];
    var up := Wake(asleep, 1);
    assert Without([1], 1) == [];
    assert Q(up, SleepQ) == [] && Q(up, ReadyQ) == [1];
    assert CheckSleeping(asleep, 0) == WakeDue(asleep, [1], 0) == WakeDue(up, [], 0) == up;
    assert up.pcbs[1] == Pcb(Ready, 0, {0, 1}, 0, Some(ReadyQ));
    assert Pick(up, 1, [1], 0) == 0;
    var woken := RunOn(up, 1, 1);
    assert ZombieSleeps(killed) == woken;
    assert Q(woken, ReadyQ) == [] && Q(woken, SleepQ) == [];
    EmptyQueues(woken, 1);
    assert Schedule(woken, 1, 0) == woken.(cores := woken.cores[1 := None]);
  }

  lemma RevivedPart(s: Sched, c: nat, p: nat)
    requires Part(s, Some(c)) && c < |s.cores| && s.cores[c] == Some(p) && p < |s.pcbs| && s.pcbs[p].status == Exited
    ensures Part(SetStatus(s, p, Running), Some(c))
  {
    hide Queues, Distinct;
    SetStatusQueues(s, p, Running);
    var t := SetStatus(s, p, Running);
    assert StatusOk(s.pcbs[p]);
    forall q ensures Q(t, q) == Q(s, q) {}
    assert t.cores[c] == Some(p);
    forall x | 0 <= x < |t.pcbs| && t.pcbs[x].status == Running ensures OnCore(t, x) {
      if x != p { assert OnCore(s, x); }
    }
  }

  /** A killed process that sleeps is back among the living, without a number. */
  lemma ZombieNamed(s: Sched, c: nat, p: nat, now: nat)
    requires Part(s, Some(c)) && c < |s.cores| && s.cores[c] == Some(p) && p < |s.pcbs| && s.pcbs[p].status == Exited && s.pcbs[p].pid == 0
    ensures Suspend(s, p, SleepQ).cores == s.cores && !Names(Schedule(Suspend(s, p, SleepQ), c, now))
  {
    RevivedPart(s, c, p);
    var r := SetStatus(s, p, Running);
    assert Suspend(r, p, SleepQ) == Suspend(s, p, SleepQ);
    SuspendPart(r, c, p, SleepQ);
    hide Part, Schedule, Suspend;
    var t := Suspend(s, p, SleepQ);
    assert t.pcbs[p].status == Blocked && t.pcbs[p].pid == 0;
    SchedulePart(t, c, now);
  }

  /** The process of a core may sleep, and the invariant hold, exactly if it has
      not been killed meanwhile (a killed one has no number left). */
  lemma SleepSound(k: Kernel, c: nat, p: nat, time: nat, now: nat)
    requires KInv(k, None) && c < |k.s.cores| && k.s.cores[c] == Some(p) && p < |k.s.pcbs|
    requires k.s.pcbs[p].status == Exited ==> k.s.pcbs[p].pid == 0
    ensures Suspend(Sleepy(k, p, time).s, p, SleepQ).cores == k.s.cores
    ensures
      var u := Sleepy(k, p, time);
      KInv(u.(s := Schedule(Suspend(u.s, p, SleepQ), c, now)), None) <==> k.s.pcbs[p].status == Running
  {
    EnterInv(k, c);
    SuspendCores(Sleepy(k, p, time).s, p, SleepQ);
    OnCoreStatus(k.s, c, p);
    if k.s.pcbs[p].status == Running {
      SleepInv(k, c, p, time, now);
    } else {
      hide Part, LockInv, Schedule, Suspend, Names;
      SleepyInv(k, p, time, Some(c));
      ZombieNamed(Sleepy(k, p, time).s, c, p, now);
    }
  }

  lemma OnCoreStatus(s: Sched, c: nat, p: nat)
    requires Part(s, None) && c < |s.cores| && s.cores[c] == Some(p) && p < |s.pcbs|
    ensures s.pcbs[p].status == Running || s.pcbs[p].status == Exited
  {
  }
}
