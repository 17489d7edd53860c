/** What a call does for its caller and its core: which core changes hands, who is
    signalled, and what a new process is. */
module CallEffects {
  import opened Bytes
  import opened Scheduler
  import opened Syscalls
  import opened Barriers
  import opened Wakeups
  import opened Bypass

  // ---------- Cores ----------

  /** Core c runs a process marked running, or is idle; every other core runs what it ran. */
  ghost predicate Redone(s: Sched, t: Sched, c: nat) {
    && c < |s.cores| == |t.cores| && (forall d :: 0 <= d < |s.cores| && d != c ==> t.cores[d] == s.cores[d])
    && (t.cores[c].Some? ==> t.cores[c].value < |t.pcbs| && t.pcbs[t.cores[c].value].status == Running)
  }

  lemma DispatchRuns(s: Sched, c: nat)
    requires c < |s.cores|
    ensures Redone(s, Dispatch(s, c), c)
  {
    hide Without, Q;
  }

  lemma ScheduleRuns(s: Sched, c: nat, now: nat)
    requires c < |s.cores|
    ensures Redone(s, Schedule(s, c, now), c)
  {
    hide Dispatch, WakeDue, Q;
    DispatchRuns(Requeue(CheckSleeping(s, now), c), c);
  }

  /** A change that leaves the cores alone, and then a pass. */
  lemma ThenSchedule(s: Sched, u: Sched, c: nat, now: nat)
    requires c < |s.cores| && u.cores == s.cores
    ensures Redone(s, Schedule(u, c, now), c)
  {
    hide Schedule;
    ScheduleRuns(u, c, now);
  }

  lemma HandCores(k: Kernel, l: nat)
    requires l < |k.locks|
    ensures Hand(k, l).s.cores == k.s.cores && |Hand(k, l).s.pcbs| == |k.s.pcbs|
  {
    hide Without, Q;
  }

  lemma {:induction false} ReleaseAllCores(k: Kernel, i: nat, pid: nat, l: nat)
    requires l <= |k.locks|
    ensures ReleaseAll(k, i, pid, l).s.cores == k.s.cores && |ReleaseAll(k, i, pid, l).s.pcbs| == |k.s.pcbs|
    decreases |k.locks| - l
  {
    hide Hand;
    if l < |k.locks| {
      HandCores(k.(claims := k.claims - {(i, l)}), l);
      var u := if k.locks[l].owner == pid then Release(k, i, l) else k;
      if |u.locks| == |k.locks| { ReleaseAllCores(u, i, pid, l + 1); }
    }
  }

  lemma DepartCores(k: Kernel, i: nat)
    requires i < |k.s.pcbs|
    ensures Depart(k, i).s.cores == k.s.cores && |Depart(k, i).s.pcbs| == |k.s.pcbs|
  {
    hide Without, Q;
  }

  lemma SignalOneCores(k: Kernel, w: nat, l: nat)
    requires w < |k.s.pcbs| && l < |k.locks|
    ensures SignalOne(k, w, l).s.cores == k.s.cores
  {
    hide Without, Q;
  }

  /** A call that does not end in a pass leaves every core alone, so its caller goes on;
      one that does leaves its core with a process marked running, or idle, and every
      other core alone. */
  lemma StepCores(k: Kernel, c: nat, call: Call, now: nat)
    requires Enabled(k, c, call)
    ensures
      var t := Step(k, c, call, now);
      if HasPass(k, call) then Redone(k.s, t.s, c) else t.s.cores == k.s.cores
  {
    hide Part, Names, LockInv, Schedule, Hand, WakeAll, ReleaseAll, Depart, Suspend, BroadcastAll, SignalOne, Q, Redone, Live;
    if call.Yield? { ThenSchedule(k.s, k.s, c, now); } else {
      var r := k.s.cores[c].value;
      match call
      case SleepFor(time) =>
        var u := Sleepy(k, r, time + now);
        SuspendCores(u.s, r, SleepQ);
        ThenSchedule(k.s, Suspend(u.s, r, SleepQ), c, now);
      case ExitCall =>
        WaitDrained(k.s, r, None);
        var u := k.(s := WakeAll(k.s, Q(k.s, WaitQ(r))));
        DepartCores(u, r);
        ThenSchedule(k.s, Depart(u, r).s, c, now);
      case KillPid(pid) => KillCores(k, c, pid, now);
      case WaitPid(pid) =>
        var i := Find(k.s.pcbs, pid, 0);
        SuspendCores(k.s, r, WaitQ(i));
        ThenSchedule(k.s, k.s, c, now);
        ThenSchedule(k.s, Suspend(k.s, r, WaitQ(i)), c, now);
      case Start(i, mask) => hide Enqueue;
      case MutexAcquire(l) =>
        SuspendCores(k.s, r, LockQ(l));
        ThenSchedule(k.s, Suspend(k.s, r, LockQ(l)), c, now);
      case MutexRelease(l) => Claimed(k, r, l); HandCores(k.(claims := k.claims - {(r, l)}), l);
      case CondWaitOn(x, l) =>
        Claimed(k, r, l);
        SuspendCores(k.s, r, CondQ(x));
        var u := k.(s := Suspend(k.s, r, CondQ(x)), conds := k.conds[x := l]);
        HandCores(u, l);
        ThenSchedule(k.s, Hand(u, l).s, c, now);
      case CondSignal(x) =>
        Claimed(k, r, k.conds[x]);
        CondWaiters(k, x, None);
        HolderLocks(k, c, r, k.conds[x]);
        var u := SignalOne(k, Q(k.s, CondQ(x))[0], k.conds[x]);
        SignalOneCores(k, Q(k.s, CondQ(x))[0], k.conds[x]);
        ThenSchedule(k.s, u.s, c, now);
      case CondBroadcast(x) =>
        SignalReady(k, r, x);
        ThenSchedule(k.s, k.s, c, now);
        if Q(k.s, CondQ(x)) != [] {
          ThenSchedule(k.s, BroadcastAll(k, Q(k.s, CondQ(x)), k.conds[x]).s, c, now);
        }
      case BarrierCall(b) =>
        BarrierWaiters(k, b);
        SuspendCores(k.s, r, BarrierQ(b));
        ThenSchedule(k.s, WakeAll(k.s, Q(k.s, BarrierQ(b))), c, now);
        ThenSchedule(k.s, Suspend(k.s, r, BarrierQ(b)), c, now);
    }
  }

  lemma KillCores(k: Kernel, c: nat, pid: nat, now: nat)
    requires KInv(k, None) && c < |k.s.cores| && pid > 0
    ensures
      var i := Find(k.s.pcbs, pid, 0);
      i < |k.s.pcbs| ==>
        && (forall j :: 0 <= j < |Q(k.s, WaitQ(i))| ==> Q(k.s, WaitQ(i))[j] < |k.s.pcbs|)
        && var t := KillSlot(k, c, i, now);
        if k.s.pcbs[i].status == Running then Redone(k.s, t.s, c) else t.s.cores == k.s.cores
  {
    hide Part, Names, LockInv, Schedule, WakeAll, ReleaseAll, Depart, Q, Redone;
    var i := Find(k.s.pcbs, pid, 0);
    if i < |k.s.pcbs| {
      WaitDrained(k.s, i, None);
      var t := k.(s := WakeAll(k.s, Q(k.s, WaitQ(i))));
      ReleaseAllCores(t, i, k.s.pcbs[i].pid, 0);
      var u := ReleaseAll(t, i, k.s.pcbs[i].pid, 0);
      DepartCores(u, i);
      ThenSchedule(k.s, Unname(Depart(u, i), i).s, c, now);
    }
  }

  // ---------- Single calls ----------

  /** A signal moves the longest waiter of the condition to the end of its lock's
      queue, and leaves the others in order. */
  lemma SignalFirst(k: Kernel, c: nat, x: nat, now: nat)
    requires Enabled(k, c, CondSignal(x))
    ensures
      var t := Step(k, c, CondSignal(x), now);
      var q, l := Q(k.s, CondQ(x)), k.conds[x];
      q != [] && Q(t.s, CondQ(x)) == q[1..] && Q(t.s, LockQ(l)) == Q(k.s, LockQ(l)) + [q[0]]
  {
    var r := k.s.cores[c].value;
    hide KInv, Schedule, SignalOne, Q;
    Claimed(k, r, k.conds[x]);
    CondWaiters(k, x, None);
    HolderLocks(k, c, r, k.conds[x]);
    EnterInv(k, c);
    SignalOneInv(k, x, Some(c));
    var u := SignalOne(k, Q(k.s, CondQ(x))[0], k.conds[x]);
    PassQueues(u, c, now);
  }

  lemma PassQueues(k: Kernel, c: nat, now: nat)
    requires KInv(k, Some(c)) && c < |k.s.cores|
    ensures forall r :: r != ReadyQ && r != SleepQ ==> Q(Schedule(k.s, c, now), r) == Q(k.s, r)
  {
    hide Part, Schedule, LockInv, Q;
    NumberedCore(k.s, c);
    SchedulePart(k.s, c, now);
  }

  /** A new process has the next number, its creator's cores and nothing to wait for;
      every other process is as it was. */
  lemma StartMakes(k: Kernel, c: nat, i: nat, mask: set<nat>, now: nat)
    requires Enabled(k, c, Start(i, mask))
    ensures
      var t := Step(k, c, Start(i, mask), now);
      && t.s.pcbs == k.s.pcbs[i := Pcb(Ready, k.s.nextPid, mask, 0, Some(ReadyQ))] && t.s.nextPid == k.s.nextPid + 1
      && t == k.(s := t.s) && t.s.cores == k.s.cores
  {
    hide KInv, Q;
  }

  /** Killing or waiting for a number nobody has changes nothing. */
  lemma NobodyThere(k: Kernel, c: nat, pid: nat, now: nat)
    requires pid > 0 && forall i :: 0 <= i < |k.s.pcbs| ==> k.s.pcbs[i].pid != pid
    ensures Enabled(k, c, KillPid(pid)) ==> Step(k, c, KillPid(pid), now) == k
    ensures Enabled(k, c, WaitPid(pid)) ==> Step(k, c, WaitPid(pid), now) == k
  {
    hide KInv;
  }

  /** A free lock is acquired at once: nothing but the lock and the claim changes. */
  lemma AcquiresAtOnce(k: Kernel, c: nat, l: nat, now: nat)
    requires Enabled(k, c, MutexAcquire(l)) && l < |k.locks| && !k.locks[l].locked
    ensures
      var p := k.s.cores[c].value;
      Step(k, c, MutexAcquire(l), now) == k.(locks := k.locks[l := Lock(true, Pid(k, p))], claims := k.claims + {(p, l)})
  {
    hide KInv;
  }

  /** With the lock free a signal loses the waiter: it owns the lock now, but is still
      marked blocked, in no queue, and no core changes hands. */
  lemma SignalLost(k: Kernel, c: nat, x: nat, now: nat)
    requires KInv(k, None) && c < |k.s.cores| && x < |k.conds| && Q(k.s, CondQ(x)) != []
    requires k.conds[x] < |k.locks| && !k.locks[k.conds[x]].locked
    ensures CanSignal(k, x)
    ensures
      var w, t := Q(k.s, CondQ(x))[0], Signal(k, c, x, now);
      && w < |t.s.pcbs| && t.s.pcbs[w].status == Blocked && (forall q :: w !in Q(t.s, q))
      && Holds(t, w, k.conds[x]) && Q(t.s, CondQ(x)) == Q(k.s, CondQ(x))[1..] && t.s.cores == k.s.cores
  {
    hide LockInv, Statuses, Cores;
    CondWaiters(k, x, None);
    var w := Q(k.s, CondQ(x))[0];
    WaitersBlocked(k.s, None, CondQ(x), 0);
    DetachQueues(k.s, w);
    QueueDistinct(k.s, CondQ(x));
    WithoutHead(Q(k.s, CondQ(x)));
  }

  /** A round of a broadcast with the lock free makes the waiter its owner and puts it
      at the end of the ready queue, still marked blocked. */
  lemma BroadcastFree(k: Kernel, x: nat)
    requires KInv(k, None) && x < |k.conds| && Q(k.s, CondQ(x)) != []
    requires k.conds[x] < |k.locks| && !k.locks[k.conds[x]].locked
    ensures Q(k.s, CondQ(x))[0] < |k.s.pcbs|
    ensures
      var w := Q(k.s, CondQ(x))[0];
      var t := BroadcastOne(k, w, k.conds[x]);
      && w < |t.s.pcbs| && t.s.pcbs[w].status == Blocked && Q(t.s, ReadyQ) == Q(k.s, ReadyQ) + [w] && Holds(t, w, k.conds[x])
      && Q(t.s, CondQ(x)) == Q(k.s, CondQ(x))[1..]
  {
    hide LockInv, Statuses, Cores;
    var w := Q(k.s, CondQ(x))[0];
    WaitersBlocked(k.s, None, CondQ(x), 0);
    DetachQueues(k.s, w);
    QueueDistinct(k.s, CondQ(x));
    WithoutHead(Q(k.s, CondQ(x)));
  }
}
