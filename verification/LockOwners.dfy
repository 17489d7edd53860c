/** Which locks have a live owner: exactly what an exit does to that, and that
    nothing else loses one, over every call and every run. */
module LockOwners {
  import opened Bytes
  import opened Scheduler
  import opened Syscalls
  import opened Barriers
  import opened Wakeups

  ghost predicate HeldBy(k: Kernel, r: nat, l: nat) {
    r < |k.s.pcbs| && Live(k.s.pcbs[r]) && Holds(k, r, l)
  }

  /** Lock l is held by a live process. */
  ghost predicate Held(k: Kernel, l: nat) {
    exists r: nat :: HeldBy(k, r, l)
  }

  /** Every lock that is taken has a live owner. */
  ghost predicate AllHeld(k: Kernel) {
    forall l: nat :: l < |k.locks| && k.locks[l].locked ==> Held(k, l)
  }

  // ---------- Exit ----------

  /** After an exit the holders are those before it, without the process that exits. */
  lemma ExitHolders(k: Kernel, c: nat, p: nat, r: nat, l: nat, now: nat)
    requires KInv(k, None) && Entered(k, c, p)
    ensures forall i :: 0 <= i < |Q(k.s, WaitQ(p))| ==> Q(k.s, WaitQ(p))[i] < |k.s.pcbs|
    ensures HeldBy(Exit(k, c, p, now), r, l) <==> HeldBy(k, r, l) && r != p
  {
    hide KInv, Q, Schedule, WakeAll, Exit, Live;
    EnterInv(k, c);
    ExitNames(k, c, p, now);
  }

  /** A lock is orphaned by an exit exactly if the process that exits claims it,
      or it had no live owner before. */
  lemma ExitOrphans(k: Kernel, c: nat, p: nat, l: nat, now: nat)
    requires KInv(k, None) && Entered(k, c, p) && l < |k.locks|
    ensures forall i :: 0 <= i < |Q(k.s, WaitQ(p))| ==> Q(k.s, WaitQ(p))[i] < |k.s.pcbs|
    ensures Held(Exit(k, c, p, now), l) <==> Held(k, l) && (p, l) !in k.claims
  {
    var t := (ExitHolders(k, c, p, 0, l, now); Exit(k, c, p, now));
    forall r: nat ensures HeldBy(t, r, l) <==> HeldBy(k, r, l) && r != p {
      ExitHolders(k, c, p, r, l, now);
    }
    ClaimIsHold(k, c, p, l);
    hide KInv, Q, Exit, HeldBy;
    if Held(k, l) && (p, l) in k.claims {
      forall r: nat ensures !HeldBy(t, r, l) { OneHolder(k, p, r, l); }
    }
    if Held(k, l) && (p, l) !in k.claims {
      var r: nat :| HeldBy(k, r, l);
      assert HeldBy(t, r, l);
    }
  }

  lemma ClaimIsHold(k: Kernel, c: nat, p: nat, l: nat)
    requires KInv(k, None) && Entered(k, c, p)
    ensures (p, l) in k.claims <==> HeldBy(k, p, l)
  {
    if (p, l) in k.claims { HolderLocks(k, c, p, l); }
  }

  lemma OneHolder(k: Kernel, p: nat, r: nat, l: nat)
    requires KInv(k, None)
    ensures HeldBy(k, p, l) && HeldBy(k, r, l) ==> p == r
  {
    if HeldBy(k, p, l) && HeldBy(k, r, l) { MutualExclusion(k, None, p, r, l); }
  }

  // ---------- Stages that keep every lock held ----------

  /** No process ends, no number changes, no lock changes. */
  lemma NamesHeld(k: Kernel, t: Kernel)
    requires AllHeld(k) && t.locks == k.locks && SameNames(k.s, t.s)
    ensures AllHeld(t)
  {
    forall l: nat | l < |t.locks| && t.locks[l].locked ensures Held(t, l) {
      var r: nat :| HeldBy(k, r, l);
      assert HeldBy(t, r, l);
    }
  }

  lemma ScheduleHeld(k: Kernel, c: nat, now: nat)
    requires AllHeld(k) && KInv(k, Some(c)) && c < |k.s.cores|
    ensures AllHeld(k.(s := Schedule(k.s, c, now)))
  {
    hide KInv, Schedule, AllHeld, SameNames;
    ScheduleStays(k, c, now, 0, SleepQ);
    NamesHeld(k, k.(s := Schedule(k.s, c, now)));
  }

  /** The caller, running, blocks. */
  lemma SuspendHeld(k: Kernel, u: Kernel, c: nat, r: nat, w: QueueId, now: nat)
    requires AllHeld(k) && Entered(k, c, r) && u.s == Suspend(k.s, r, w) && u.locks == k.locks && KInv(u, Some(c))
    ensures c < |u.s.cores| && AllHeld(u.(s := Schedule(u.s, c, now)))
  {
    hide KInv, Schedule, AllHeld;
    SuspendCores(k.s, r, w);
    SuspendNames(k.s, r, w);
    NamesHeld(k, u);
    ScheduleHeld(u, c, now);
  }

  lemma SuspendNames(s: Sched, r: nat, w: QueueId)
    requires r < |s.pcbs| && Live(s.pcbs[r])
    ensures SameNames(s, Suspend(s, r, w))
  {
  }

  /** Handing lock l on frees it or gives it to a waiter, who lives. */
  lemma HandHeld(k: Kernel, l: nat, mid: Option<nat>)
    requires Part(k.s, mid) && Names(k.s) && LockInv(k, Some(l)) && l < |k.locks| && k.locks[l].locked
    requires forall j: nat :: j < |k.locks| && j != l && k.locks[j].locked ==> Held(k, j)
    ensures AllHeld(Hand(k, l)) && SameNames(k.s, Hand(k, l).s)
  {
    hide Part, Names, LockInv, Q, Unblock;
    HandInv(k, l, mid);
    var t := Hand(k, l);
    if Q(k.s, LockQ(l)) != [] {
      UnblockPart(k.s, LockQ(l), mid);
      WaitersBlocked(k.s, mid, LockQ(l), 0);
      assert HeldBy(t, Q(k.s, LockQ(l))[0], l);
    }
    forall j: nat | j < |t.locks| && t.locks[j].locked ensures Held(t, j) {
      if j != l {
        var r: nat :| HeldBy(k, r, j);
        assert HeldBy(t, r, j);
      }
    }
  }

  lemma ReleaseHeld(k: Kernel, i: nat, l: nat, mid: Option<nat>)
    requires AllHeld(k) && KInv(k, mid) && i < |k.s.pcbs| && Pid(k, i) > 0 && l < |k.locks| && k.locks[l].owner == Pid(k, i)
    ensures AllHeld(Release(k, i, l)) && SameNames(k.s, Release(k, i, l).s)
  {
    OwnerFacts(k, i, l, mid);
    hide Part, LockInv, Q, Hand, Held;
    UnclaimInv(k, i, l);
    var u := k.(claims := k.claims - {(i, l)});
    SameHolders(k, u);
    HandHeld(u, l, mid);
  }

  lemma SameHolders(k: Kernel, t: Kernel)
    requires t.s.pcbs == k.s.pcbs && t.locks == k.locks
    ensures forall l: nat :: Held(t, l) == Held(k, l)
  {
    forall l: nat ensures Held(t, l) == Held(k, l) {
      if Held(k, l) { var r: nat :| HeldBy(k, r, l); assert HeldBy(t, r, l); }
      if Held(t, l) { var r: nat :| HeldBy(t, r, l); assert HeldBy(k, r, l); }
    }
  }

  lemma {:induction false} ReleaseAllHeld(k: Kernel, i: nat, pid: nat, l: nat, mid: Option<nat>)
    requires AllHeld(k) && KInv(k, mid) && i < |k.s.pcbs| && Pid(k, i) == pid > 0 && l <= |k.locks|
    ensures AllHeld(ReleaseAll(k, i, pid, l))
    decreases |k.locks| - l
  {
    hide KInv, Q, Release, AllHeld, SameNames;
    if l < |k.locks| {
      var u := k;
      if k.locks[l].owner == pid {
        ReleaseForInv(k, i, l, mid);
        ReleaseHeld(k, i, l, mid);
        u := Release(k, i, l);
        NamesSize(k.s, u.s);
      }
      ReleaseAllHeld(u, i, pid, l + 1, mid);
    }
  }

  // ---------- The calls ----------

  /** The process killed owns no lock once they are released, so all holders live on. */
  lemma KillHeld(k: Kernel, c: nat, i: nat, now: nat)
    requires AllHeld(k) && KInv(k, None) && i < |k.s.pcbs| && k.s.pcbs[i].pid > 0 && c < |k.s.cores|
    ensures forall j :: 0 <= j < |Q(k.s, WaitQ(i))| ==> Q(k.s, WaitQ(i))[j] < |k.s.pcbs|
    ensures AllHeld(KillSlot(k, c, i, now))
  {
    hide Part, Names, LockInv, Q, WakeAll, ReleaseAll, Depart, Schedule, Unname, AllHeld, SameNames;
    WaitDrained(k.s, i, None);
    var t := k.(s := WakeAll(k.s, Q(k.s, WaitQ(i))));
    KillWoken(k, t, i);
    NamesHeld(k, t);
    NamesSize(k.s, t.s);
    ReleaseAllInv(t, i, k.s.pcbs[i].pid, 0, None);
    ReleaseAllHeld(t, i, k.s.pcbs[i].pid, 0, None);
    var u := ReleaseAll(t, i, k.s.pcbs[i].pid, 0);
    if !Live(k.s.pcbs[i]) {
      WithoutOwner(u, Unname(u, i), i) by { UnnameOthers(u, u, i); }
    } else {
      DepartInv(u, i, None);
      DepartSame(u, i);
      var v := Depart(u, i);
      WithoutOwner(u, Unname(v, i), i) by { UnnameOthers(u, v, i); }
      UnnameInv(v, i, None);
      if k.s.pcbs[i].status == Running {
        EnterInv(Unname(v, i), c);
        UnnameCores(v, i);
        ScheduleHeld(Unname(v, i), c, now);
      }
    }
  }

  /** From k to t only process i, who owns no lock, is changed. */
  ghost predicate Others(k: Kernel, t: Kernel, i: nat) {
    && t.locks == k.locks && |t.s.pcbs| == |k.s.pcbs| && i < |k.s.pcbs|
    && forall r :: 0 <= r < |k.s.pcbs| && r != i ==> t.s.pcbs[r] == k.s.pcbs[r]
  }

  lemma UnnameOthers(u: Kernel, v: Kernel, i: nat)
    requires i < |u.s.pcbs| && Others(u, v, i)
    ensures Others(u, Unname(v, i), i)
  {
  }

  lemma WithoutOwner(k: Kernel, t: Kernel, i: nat)
    requires AllHeld(k) && Others(k, t, i) && forall l: nat :: l < |k.locks| && k.locks[l].locked ==> !HeldBy(k, i, l)
    ensures AllHeld(t)
  {
    forall l: nat | l < |t.locks| && t.locks[l].locked ensures Held(t, l) {
      var r: nat :| HeldBy(k, r, l);
      assert HeldBy(t, r, l);
    }
  }

  /** An exit leaves no lock without a live owner exactly if the process claims none. */
  lemma ExitHeld(k: Kernel, c: nat, p: nat, now: nat)
    requires AllHeld(k) && KInv(k, None) && Entered(k, c, p)
    ensures forall i :: 0 <= i < |Q(k.s, WaitQ(p))| ==> Q(k.s, WaitQ(p))[i] < |k.s.pcbs|
    ensures AllHeld(Exit(k, c, p, now)) <==> forall l: nat :: (p, l) !in k.claims
  {
    hide KInv, Q, Schedule, WakeAll, Exit, Held;
    EnterInv(k, c);
    ExitNames(k, c, p, now);
    var t := Exit(k, c, p, now);
    forall l: nat | l < |k.locks| ensures Held(t, l) <==> Held(k, l) && (p, l) !in k.claims {
      ExitOrphans(k, c, p, l, now);
    }
    forall l: nat | (p, l) in k.claims ensures l < |k.locks| && k.locks[l].locked { HolderLocks(k, c, p, l); }
  }

  lemma SleepHeld(k: Kernel, c: nat, r: nat, wakeup: nat, now: nat)
    requires AllHeld(k) && KInv(k, None) && Entered(k, c, r)
    ensures
      var u := Sleepy(k, r, wakeup);
      c < |k.s.cores| && Suspend(u.s, r, SleepQ).cores == k.s.cores && AllHeld(u.(s := Schedule(Suspend(u.s, r, SleepQ), c, now)))
  {
    SleepySame(k, c, r, wakeup, now, r, SleepQ);
    SleepyHeld(k, r, wakeup);
    hide KInv, Suspend, Schedule, Q, AllHeld, Sleepy;
    EnterInv(k, c);
    var u := Sleepy(k, r, wakeup);
    SleepyInv(k, r, wakeup, Some(c));
    SuspendInv(u, c, r, SleepQ);
    SuspendHeld(u, u.(s := Suspend(u.s, r, SleepQ)), c, r, SleepQ, now);
    SuspendCores(u.s, r, SleepQ);
  }

  lemma SleepyHeld(k: Kernel, r: nat, wakeup: nat)
    requires AllHeld(k) && r < |k.s.pcbs|
    ensures AllHeld(Sleepy(k, r, wakeup)) && Sleepy(k, r, wakeup).s.cores == k.s.cores
  {
    var t := Sleepy(k, r, wakeup);
    forall l: nat | l < |t.locks| && t.locks[l].locked ensures Held(t, l) {
      var x: nat :| HeldBy(k, x, l);
      assert HeldBy(t, x, l);
    }
  }

  lemma AwaitHeld(k: Kernel, c: nat, r: nat, pid: nat, now: nat)
    requires AllHeld(k) && KInv(k, None) && Entered(k, c, r)
    ensures AllHeld(AwaitPid(k, c, r, pid, now))
  {
    hide KInv, Schedule, Suspend, Q, AllHeld;
    EnterInv(k, c);
    var i := Find(k.s.pcbs, pid, 0);
    if i < |k.s.pcbs| && Live(k.s.pcbs[i]) {
      SuspendInv(k, c, r, WaitQ(i));
      SuspendHeld(k, k.(s := Suspend(k.s, r, WaitQ(i))), c, r, WaitQ(i), now);
    } else if i < |k.s.pcbs| {
      ScheduleHeld(k, c, now);
    }
  }

  lemma AcquireHeld(k: Kernel, c: nat, r: nat, l: nat, now: nat)
    requires AllHeld(k) && KInv(k, None) && Entered(k, c, r) && l < |k.locks| && (r, l) !in k.claims
    ensures AllHeld(Acquire(k, c, r, l, now))
  {
    if k.locks[l].locked {
      hide KInv, Schedule, Suspend, Q, AllHeld;
      EnterInv(k, c);
      AcquireBusyInv(k, c, r, l);
      SuspendHeld(k, k.(claims := k.claims + {(r, l)}, s := Suspend(k.s, r, LockQ(l))), c, r, LockQ(l), now);
    } else {
      hide KInv;
      var t := Acquire(k, c, r, l, now);
      assert HeldBy(t, r, l);
      forall j: nat | j < |t.locks| && t.locks[j].locked ensures Held(t, j) {
        if j != l {
          var x: nat :| HeldBy(k, x, j);
          assert HeldBy(t, x, j);
        }
      }
    }
  }

  lemma CondWaitHeld(k: Kernel, c: nat, r: nat, x: nat, l: nat, now: nat)
    requires AllHeld(k) && KInv(k, Some(c)) && Entered(k, c, r) && x < |k.conds| && (r, l) in k.claims
    requires Q(k.s, CondQ(x)) != [] ==> k.conds[x] == l
    ensures l < |k.locks| && AllHeld(CondWait(k, c, r, x, l, now))
  {
    hide Part, Names, LockInv, Q, Hand, Suspend, Schedule, Held;
    CondJoined(k, c, r, x, l);
    SuspendNames(k.s, r, CondQ(x)) by { RunningLives(k.s.pcbs[r]); }
    var t := k.(s := Suspend(k.s, r, CondQ(x)), conds := k.conds[x := l]);
    NamesHeld(k, t);
    HandInv(t, l, Some(c));
    HandHeld(t, l, Some(c));
    ScheduleHeld(Hand(t, l), c, now);
  }

  lemma SignalHeld(k: Kernel, c: nat, r: nat, x: nat, now: nat)
    requires AllHeld(k) && KInv(k, None) && Entered(k, c, r) && x < |k.conds| && Q(k.s, CondQ(x)) != [] && (r, k.conds[x]) in k.claims
    ensures CanSignal(k, x) && AllHeld(Signal(k, c, x, now)) && AllHeld(Broadcast(k, c, x, now))
  {
    hide KInv, Q, Schedule, SignalOne, BroadcastAll, SameNames, AllHeld;
    HolderLocks(k, c, r, k.conds[x]);
    CondWaiters(k, x, None);
    EnterInv(k, c);
    SignalOneInv(k, x, Some(c));
    var u := SignalOne(k, Q(k.s, CondQ(x))[0], k.conds[x]);
    NamesHeld(k, u);
    ScheduleHeld(u, c, now);
    BroadcastAllInv(k, x, Q(k.s, CondQ(x)), Some(c));
    BroadcastNames(k, x, Q(k.s, CondQ(x)), Some(c));
    var v := BroadcastAll(k, Q(k.s, CondQ(x)), k.conds[x]);
    NamesHeld(k, v);
    ScheduleHeld(v, c, now);
  }

  lemma BarrierHeld(k: Kernel, c: nat, r: nat, b: nat, now: nat)
    requires AllHeld(k) && KInv(k, None) && Entered(k, c, r) && b < |k.bars|
    ensures forall i :: 0 <= i < |Q(k.s, BarrierQ(b))| ==> Q(k.s, BarrierQ(b))[i] < |k.s.pcbs|
    ensures AllHeld(BarrierWait(k, c, r, b, now))
  {
    hide KInv, Q, Schedule, WakeAll, Suspend, Held;
    EnterInv(k, c);
    BarrierWaiters(k, b);
    var t := BarrierWait(k, c, r, b, now);
    if k.bars[b] == 1 {
      WakeAllInv(k, c, BarrierQ(b));
      WokenNames(k, c, BarrierQ(b));
      var u := k.(s := WakeAll(k.s, Q(k.s, BarrierQ(b))));
      NamesHeld(k, u);
      ScheduleHeld(u, c, now);
      SameHolders(u.(s := t.s), t);
    } else {
      SuspendInv(k, c, r, BarrierQ(b));
      var u := k.(s := Suspend(k.s, r, BarrierQ(b)));
      SuspendHeld(k, u, c, r, BarrierQ(b), now);
      SameHolders(u.(s := t.s), t);
    }
  }

  lemma StartHeld(k: Kernel, i: nat, mask: set<nat>)
    requires AllHeld(k) && i < |k.s.pcbs| && !Live(k.s.pcbs[i])
    ensures AllHeld(Exec(k, i, mask))
  {
    WithoutOwner(k, Exec(k, i, mask), i);
  }

  lemma ReleasedHeld(k: Kernel, c: nat, r: nat, l: nat)
    requires AllHeld(k) && KInv(k, None) && Entered(k, c, r) && (r, l) in k.claims
    ensures l < |k.locks| && AllHeld(Release(k, r, l))
  {
    HolderLocks(k, c, r, l);
    NamedAbove(k, r);
    hide KInv, Release, AllHeld;
    ReleaseHeld(k, r, l, None);
  }

  /** An exit by a process that claims a lock. */
  ghost predicate LeavesLocked(k: Kernel, c: nat, call: Call) {
    call.ExitCall? && c < |k.s.cores| && k.s.cores[c].Some? && exists l: nat :: (k.s.cores[c].value, l) in k.claims
  }

  /** A call leaves every taken lock with a live owner exactly if it is not an exit
      by a process that claims a lock. */
  lemma StepHeld(k: Kernel, c: nat, call: Call, now: nat)
    requires Enabled(k, c, call) && AllHeld(k)
    ensures AllHeld(Step(k, c, call, now)) <==> !LeavesLocked(k, c, call)
  {
    hide KInv, Schedule, Exit, KillSlot, Acquire, Release, CondWait, Signal, Broadcast, BarrierWait, AwaitPid, Exec, Suspend, Q, Live, Sleepy, AllHeld;
    EnterInv(k, c);
    if call.Yield? {
      ScheduleHeld(k, c, now);
    } else {
      var r := k.s.cores[c].value;
      match call
      case SleepFor(time) => SleepHeld(k, c, r, time + now, now);
      case ExitCall => ExitHeld(k, c, r, now);
      case KillPid(pid) =>
        var i := Find(k.s.pcbs, pid, 0);
        if i < |k.s.pcbs| { KillHeld(k, c, i, now); }
      case WaitPid(pid) => AwaitHeld(k, c, r, pid, now);
      case Start(i, mask) => StartHeld(k, i, mask);
      case MutexAcquire(l) => AcquireHeld(k, c, r, l, now);
      case MutexRelease(l) => ReleasedHeld(k, c, r, l);
      case CondWaitOn(x, l) => CondWaitHeld(k, c, r, x, l, now);
      case CondSignal(x) => SignalHeld(k, c, r, x, now);
      case CondBroadcast(x) =>
        if Q(k.s, CondQ(x)) != [] { SignalHeld(k, c, r, x, now); } else { ScheduleHeld(k, c, now); BroadcastNobody(k, c, x, now); }
      case BarrierCall(b) => BarrierHeld(k, c, r, b, now);
    }
  }

  // ---------- Runs ----------

  /** No process exits in the run while it claims a lock. */
  ghost predicate Tidy(k: Kernel, es: seq<Event>) {
    es == [] ||
    (Tidy(k, es[..|es| - 1]) &&
     var u, e := Run(k, es[..|es| - 1]), es[|es| - 1];
     u.Some? ==> !LeavesLocked(u.value, e.c, e.call))
  }

  /** In every run in which no process exits with a claim, whoever is killed, every
      lock that is taken has a live owner. */
  lemma {:induction false} RunHeld(k: Kernel, es: seq<Event>)
    requires KInv(k, None) && AllHeld(k) && Run(k, es).Some? && Tidy(k, es)
    ensures AllHeld(Run(k, es).value)
  {
    hide KInv, Step, AllHeld, LeavesLocked;
    if es != [] {
      var e := es[|es| - 1];
      RunHeld(k, es[..|es| - 1]);
      RunInv(k, es[..|es| - 1]);
      StepHeld(Run(k, es[..|es| - 1]).value, e.c, e.call, e.now);
    }
  }

  lemma BootHeld(slots: nat, cores: nat, locks: nat, conds: nat, goals: seq<int>, mask: set<nat>)
    requires slots > 0
    ensures KInv(Boot(slots, cores, locks, conds, goals, mask), None) && AllHeld(Boot(slots, cores, locks, conds, goals, mask))
  {
    BootInv(slots, cores, locks, conds, goals, mask);
  }
}
