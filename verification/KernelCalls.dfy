/** The scheduler and the blocking calls as they rewrite process records, queues
    and locks in place. */
module KernelCalls {
  import opened Bytes
  import opened Scheduler
  import opened Syscalls
  import opened Barriers

  class Machine {
    const pcbs: array<Pcb>
    var queues: map<QueueId, seq<nat>>
    const cores: array<Option<nat>>
    var nextPid: nat
    const locks: array<Lock>
    const conds: array<nat>
    const bars: array<int>
    ghost var claims: set<(nat, nat)>

    ghost function View(): (k: Kernel)
      reads this, pcbs, cores, locks, conds, bars
      ensures |k.s.pcbs| == pcbs.Length && |k.s.cores| == cores.Length
      ensures |k.locks| == locks.Length && |k.conds| == conds.Length && |k.bars| == bars.Length
    {
      Kernel(Sched(pcbs[..], queues, cores[..], nextPid), locks[..], conds[..], bars[..], claims)
    }

    ghost function Repr(): set<object> { {this, pcbs, cores, locks, conds, bars} }

    /** The machine at boot: the shell ready in slot 0, every core idle. */
    constructor (slots: nat, coreCount: nat, lockCount: nat, condCount: nat, goals: seq<int>, mask: set<nat>)
      requires slots > 0
      ensures View() == Boot(slots, coreCount, lockCount, condCount, goals, mask) && KInv(View(), None)
      ensures fresh(pcbs) && fresh(cores) && fresh(locks) && fresh(conds) && fresh(bars)
    {
      pcbs := new Pcb[slots](i => if i == 0 then Pcb(Ready, 1, mask, 0, Some(ReadyQ)) else Pcb(Available, 0, {}, 0, None));
      queues := map[ReadyQ := [0]];
      cores := new Option<nat>[coreCount](_ => None);
      nextPid := 2;
      locks := new Lock[lockCount](_ => Lock(false, -1));
      conds := new nat[condCount](_ => 0);
      bars := new int[|goals|](i requires 0 <= i < |goals| => goals[i]);
      claims := {};
      new;
      ghost var k := Boot(slots, coreCount, lockCount, condCount, goals, mask);
      BootInv(slots, coreCount, lockCount, condCount, goals, mask);
      assert pcbs[..] == k.s.pcbs && cores[..] == k.s.cores && locks[..] == k.locks && conds[..] == k.conds && bars[..] == k.bars;
      hide KInv, Boot;
    }

    // ---------- Reading ----------

    method Queue(q: QueueId) returns (r: seq<nat>)
      ensures r == Q(View().s, q)
    {
      r := if q in queues then queues[q] else [];
    }

    method Record(p: nat) returns (r: Pcb)
      requires p < pcbs.Length
      ensures r == View().s.pcbs[p]
    {
      r := pcbs[p];
    }

    method CoreOf(c: nat) returns (r: Option<nat>)
      requires c < cores.Length
      ensures r == View().s.cores[c]
    {
      r := cores[c];
    }

    method LockAt(l: nat) returns (r: Lock)
      requires l < locks.Length
      ensures r == View().locks[l]
    {
      r := locks[l];
    }

    // ---------- Writing ----------

    method MarkStatus(p: nat, status: Status)
      requires p < pcbs.Length
      modifies pcbs
      ensures View() == old(View()).(s := SetStatus(old(View()).s, p, status))
    {
      pcbs[p] := pcbs[p].(status := status);
    }

    /** add_queue. */
    method AddQueue(p: nat, q: QueueId)
      requires p < pcbs.Length
      modifies this`queues, pcbs
      ensures View() == old(View()).(s := Enqueue(old(View()).s, p, q))
    {
      var r := Queue(q);
      queues := queues[q := r + [p]];
      pcbs[p] := pcbs[p].(linked := Some(q));
    }

    /** del_queue: out of whatever list the node is in. */
    method DelQueue(p: nat)
      requires p < pcbs.Length
      modifies this`queues, pcbs
      ensures View() == old(View()).(s := Detach(old(View()).s, p))
    {
      hide Without;
      var e := pcbs[p];
      if e.linked.Some? {
        var r := Queue(e.linked.value);
        queues := queues[e.linked.value := Without(r, p)];
        pcbs[p] := e.(linked := None);
      }
    }

    method PutCore(c: nat, r: Option<nat>)
      requires c < cores.Length
      modifies cores
      ensures View() == old(View()).(s := old(View()).s.(cores := old(View()).s.cores[c := r]))
    {
      cores[c] := r;
    }

    method PutLock(l: nat, r: Lock)
      requires l < locks.Length
      modifies locks
      ensures View() == old(View()).(locks := old(View()).locks[l := r])
    {
      locks[l] := r;
    }

    method PutBar(b: nat, n: int)
      requires b < bars.Length
      modifies bars
      ensures View() == old(View()).(bars := old(View()).bars[b := n])
    {
      bars[b] := n;
    }

    ghost method Claim(pair: (nat, nat), on: bool)
      modifies this`claims
      ensures View() == old(View()).(claims := if on then old(View()).claims + {pair} else old(View()).claims - {pair})
    {
      claims := if on then claims + {pair} else claims - {pair};
    }

    // ---------- Queues ----------

    /** Delete, mark ready, append to the ready queue. */
    method MakeReady(p: nat)
      requires p < pcbs.Length
      modifies this`queues, pcbs
      ensures View() == old(View()).(s := Wake(old(View()).s, p))
    {
      hide View, Detach, SetStatus, Enqueue;
      DelQueue(p);
      MarkStatus(p, Ready);
      AddQueue(p, ReadyQ);
    }

    method DoUnblock(q: QueueId)
      requires CanUnblock(View().s, q)
      modifies this`queues, pcbs
      ensures View() == old(View()).(s := Unblock(old(View()).s, q))
    {
      hide View, Wake, Q;
      var r := Queue(q);
      MakeReady(r[0]);
    }

    /** Marks the process blocked and appends it to a queue. */
    method MakeBlocked(p: nat, q: QueueId)
      requires p < pcbs.Length
      modifies this`queues, pcbs
      ensures View() == old(View()).(s := Suspend(old(View()).s, p, q))
    {
      hide View, SetStatus, Enqueue;
      MarkStatus(p, Blocked);
      AddQueue(p, q);
    }

    // ---------- The scheduler ----------

    /** The walk over the sleep queue, waking whoever is due. */
    method WakeSleepers(now: nat)
      requires forall i :: 0 <= i < |Q(View().s, SleepQ)| ==> Q(View().s, SleepQ)[i] < pcbs.Length
      modifies this`queues, pcbs
      ensures View() == old(View()).(s := CheckSleeping(old(View()).s, now))
    {
      hide View, Wake, Q;
      ghost var k := View();
      var ps := Queue(SleepQ);
      var i := 0;
      assert ps[0..] == ps;
      while i != |ps|
        invariant 0 <= i <= |ps| && View() == k.(s := View().s)
        invariant WakeDue(View().s, ps[i..], now) == CheckSleeping(k.s, now)
      {
        var e := Record(ps[i]);
        assert ps[i..][0] == ps[i] && ps[i..][1..] == ps[i + 1..];
        if now >= e.wakeup { MakeReady(ps[i]); }
        i := i + 1;
      }
    }

    /** The scan of the ready queue for a process core c may run. */
    method Choose(c: nat, ready: seq<nat>) returns (i: nat)
      requires forall j :: 0 <= j < |ready| ==> ready[j] < pcbs.Length
      ensures i == Pick(View().s, c, ready, 0)
    {
      i := 0;
      while i != |ready|
        invariant 0 <= i <= |ready| && Pick(View().s, c, ready, 0) == Pick(View().s, c, ready, i)
      {
        if c in pcbs[ready[i]].mask { return; }
        i := i + 1;
      }
    }

    method DoRequeue(c: nat)
      requires c < cores.Length && (View().s.cores[c].Some? ==> View().s.cores[c].value < pcbs.Length)
      modifies this`queues, pcbs
      ensures View() == old(View()).(s := Requeue(old(View()).s, c))
    {
      hide View, SetStatus, Enqueue;
      var last := CoreOf(c);
      if last.Some? {
        var e := Record(last.value);
        if e.status == Running && e.pid != 0 {
          MarkStatus(last.value, Ready);
          AddQueue(last.value, ReadyQ);
        }
      }
    }

    method DoDispatch(c: nat)
      requires c < cores.Length && forall i :: 0 <= i < |Q(View().s, ReadyQ)| ==> Q(View().s, ReadyQ)[i] < pcbs.Length
      modifies this`queues, pcbs, cores
      ensures View() == old(View()).(s := Dispatch(old(View()).s, c))
    {
      hide View, Without, Q;
      var ready := Queue(ReadyQ);
      var i := Choose(c, ready);
      if i == |ready| {
        PutCore(c, None);
      } else {
        DelQueue(ready[i]);
        MarkStatus(ready[i], Running);
        PutCore(c, Some(ready[i]));
      }
    }

    /** do_scheduler. */
    method DoScheduler(c: nat, now: nat)
      requires c < cores.Length && KInv(View(), Some(c))
      modifies this`queues, pcbs, cores
      ensures View() == old(View()).(s := Schedule(old(View()).s, c, now))
    {
      hide View, WakeDue, Requeue, Dispatch, Q, Part, LockInv, Names;
      ghost var s := View().s;
      ScheduleSafe(s, c, now);
      WakeSleepers(now);
      DoRequeue(c);
      DoDispatch(c);
    }

    // ---------- Sleeping, waiting, ending ----------

    method DoYield(c: nat, now: nat)
      requires c < cores.Length && KInv(View(), None)
      modifies this`queues, pcbs, cores
      ensures KInv(View(), None) && View() == old(View()).(s := Schedule(old(View()).s, c, now))
    {
      hide View, Schedule, KInv;
      EnterInv(View(), c);
      ScheduleInv(View(), c, now);
      DoScheduler(c, now);
    }

    method DoSleep(c: nat, p: nat, time: nat, now: nat)
      requires KInv(View(), None) && Entered(View(), c, p)
      modifies this`queues, pcbs, cores
      ensures KInv(View(), None)
      ensures
        var u := Sleepy(old(View()), p, time + now);
        View() == u.(s := Schedule(Suspend(u.s, p, SleepQ), c, now))
    {
      hide View, Schedule, KInv, Enqueue, Sleepy;
      ghost var k := View();
      EnterInv(k, c);
      SleepInv(k, c, p, time + now, now);
      SleepyInv(k, p, time + now, Some(c));
      SleepyEntered(k, c, p, time + now);
      SuspendInv(Sleepy(k, p, time + now), c, p, SleepQ);
      SetWakeup(p, time + now);
      MakeBlocked(p, SleepQ);
      DoScheduler(c, now);
    }

    method SetWakeup(p: nat, time: nat)
      requires p < pcbs.Length
      modifies pcbs
      ensures View() == Sleepy(old(View()), p, time)
    {
      pcbs[p] := pcbs[p].(wakeup := time);
    }

    /** The search of the process table by number. */
    method FindPid(pid: nat) returns (i: nat)
      ensures i == Find(View().s.pcbs, pid, 0)
    {
      i := 0;
      while i != pcbs.Length && pcbs[i].pid != pid
        invariant 0 <= i <= pcbs.Length && Find(View().s.pcbs, pid, 0) == Find(View().s.pcbs, pid, i)
        decreases pcbs.Length - i
      {
        i := i + 1;
      }
    }

    method DoWaitpid(c: nat, p: nat, pid: nat, now: nat) returns (r: nat)
      requires KInv(View(), None) && Entered(View(), c, p)
      modifies this`queues, pcbs, cores
      ensures KInv(View(), None) && View() == AwaitPid(old(View()), c, p, pid, now)
      ensures r == if exists i :: 0 <= i < |old(View()).s.pcbs| && old(View()).s.pcbs[i].pid == pid then pid else 0
    {
      hide View, Schedule, KInv, Suspend, Find;
      ghost var k := View();
      EnterInv(k, c);
      AwaitInv(k, c, p, pid, now);
      var i := FindPid(pid);
      if i == pcbs.Length { return 0; }
      assert k.s.pcbs[i].pid == pid;
      var e := Record(i);
      if e.status != Exited && e.status != Available {
        SuspendInv(k, c, p, WaitQ(i));
        SuspendCores(k.s, p, WaitQ(i));
        MakeBlocked(p, WaitQ(i));
      }
      DoScheduler(c, now);
      r := pid;
    }

    /** The loop that wakes whoever waits for process p: it ends because nobody
        who waits has ended. */
    method DrainWaiters(p: nat)
      requires KInv(View(), None) && p < pcbs.Length
      modifies this`queues, pcbs
      ensures forall i :: 0 <= i < |Q(old(View()).s, WaitQ(p))| ==> Q(old(View()).s, WaitQ(p))[i] < |old(View()).s.pcbs|
      ensures View() == old(View()).(s := WakeAll(old(View()).s, Q(old(View()).s, WaitQ(p))))
    {
      hide View, Part, Names, LockInv, Wake, Q;
      ghost var k := View();
      ghost var all := Q(k.s, WaitQ(p));
      WakeAllPart(k.s, WaitQ(p), all, None);
      var q := Queue(WaitQ(p));
      while q != []
        invariant q == Q(View().s, WaitQ(p)) && View() == k.(s := View().s) && |View().s.pcbs| == |k.s.pcbs|
        invariant Part(View().s, None) && forall i :: 0 <= i < |q| ==> q[i] < |View().s.pcbs|
        invariant WakeAll(View().s, q) == WakeAll(k.s, all)
        decreases |q|
      {
        ghost var s := View().s;
        WaitersBlocked(s, None, WaitQ(p), |q| - 1);
        UnblockPart(s, WaitQ(p), None);
        var e := Record(q[|q| - 1]);
        if e.status != Exited { DoUnblock(WaitQ(p)); }
        q := Queue(WaitQ(p));
        WakeAllPart(View().s, WaitQ(p), q, None);
      }
    }

    method DoExit(c: nat, p: nat, now: nat)
      requires KInv(View(), None) && Entered(View(), c, p)
      modifies this, pcbs, cores
      ensures forall i :: 0 <= i < |Q(old(View()).s, WaitQ(p))| ==> Q(old(View()).s, WaitQ(p))[i] < |old(View()).s.pcbs|
      ensures KInv(View(), None) && View() == Exit(old(View()), c, p, now)
    {
      hide View, Schedule, Part, Names, LockInv, Q, WakeAll, Detach, SetStatus;
      ghost var k := View();
      EnterInv(k, c);
      ExitInv(k, c, p, now);
      WakeAllInv(k, c, WaitQ(p));
      WaitDrained(k.s, p, Some(c));
      RunningLives(k.s.pcbs[p]);
      DepartInv(k.(s := WakeAll(k.s, Q(k.s, WaitQ(p)))), p, Some(c));
      DrainWaiters(p);
      EndProcess(p);
      DoScheduler(c, now);
    }

    /** The process leaves its queue, exited, and with it all its claims. */
    method EndProcess(p: nat)
      requires p < pcbs.Length
      modifies this, pcbs
      ensures View() == Depart(old(View()), p)
    {
      hide View, Detach, SetStatus;
      DelQueue(p);
      MarkStatus(p, Exited);
      DropClaims(p);
    }

    ghost method DropClaims(p: nat)
      modifies this`claims
      ensures View() == old(View()).(claims := set q | q in old(View()).claims && q.0 != p)
    {
      claims := set q | q in claims && q.0 != p;
    }

    // ---------- Mutexes ----------

    /** do_mutex_lock_release. */
    method HandOn(l: nat)
      requires l < locks.Length && (Q(View().s, LockQ(l)) != [] ==> CanUnblock(View().s, LockQ(l)))
      modifies this`queues, pcbs, locks
      ensures View() == Hand(old(View()), l)
    {
      hide View, Q, Wake;
      var q := Queue(LockQ(l));
      if q == [] {
        PutLock(l, Lock(false, -1));
      } else {
        var next := Record(q[0]);
        var lock := LockAt(l);
        PutLock(l, lock.(owner := next.pid));
        DoUnblock(LockQ(l));
      }
    }

    method MutexAcquire(c: nat, p: nat, l: nat, now: nat)
      requires KInv(View(), None) && Entered(View(), c, p) && l < locks.Length && (p, l) !in claims
      modifies this, pcbs, cores, locks
      ensures KInv(View(), None) && View() == Acquire(old(View()), c, p, l, now)
    {
      ClaimsSeen();
      hide View, Q, Schedule, KInv, Suspend;
      ghost var k := View();
      EnterInv(k, c);
      AcquireInv(k, c, p, l, now);
      Claim((p, l), true);
      var lock := LockAt(l);
      if !lock.locked {
        var e := Record(p);
        PutLock(l, Lock(true, e.pid));
      } else {
        AcquireBusyInv(k, c, p, l);
        SuspendCores(k.s, p, LockQ(l));
        MakeBlocked(p, LockQ(l));
        DoScheduler(c, now);
      }
    }

    lemma ClaimsSeen()
      ensures View().claims == claims
    {
    }

    method MutexRelease(c: nat, p: nat, l: nat)
      requires KInv(View(), None) && Entered(View(), c, p) && (p, l) in claims
      modifies this, pcbs, locks
      ensures l < locks.Length && KInv(View(), None) && View() == Release(old(View()), p, l)
    {
      ClaimsSeen();
      hide View, Q, KInv, Hand;
      ghost var k := View();
      ReleaseInv(k, p, l, None);
      QueueHead(k, None, LockQ(l));
      Claim((p, l), false);
      HandOn(l);
    }

    // ---------- Conditions ----------

    method DoCondWait(c: nat, p: nat, x: nat, l: nat, now: nat)
      requires KInv(View(), None) && Entered(View(), c, p) && x < conds.Length && (p, l) in claims
      requires Q(View().s, CondQ(x)) != [] ==> View().conds[x] == l
      modifies Repr()
      ensures l < locks.Length && KInv(View(), None) && View() == CondWait(old(View()), c, p, x, l, now)
    {
      ClaimsSeen();
      hide View, Q, Schedule, Part, Names, LockInv, Hand, Suspend, SameNames;
      ghost var k := View();
      EnterInv(k, c);
      CondWaitInv(k, c, p, x, l, now);
      CondJoined(k, c, p, x, l);
      MakeBlocked(p, CondQ(x));
      PutCond(x, l);
      ghost var t := View();
      SchedHead(t.s, Some(c), LockQ(l));
      HandInv(t, l, Some(c));
      HandOn(l);
      DoScheduler(c, now);
    }

    method PutCond(x: nat, l: nat)
      requires x < conds.Length
      modifies conds
      ensures View() == old(View()).(conds := old(View()).conds[x := l])
    {
      conds[x] := l;
    }

    /** With the lock free the waiter becomes its owner and is put on no queue. */
    method DoSignal(c: nat, p: nat, x: nat, now: nat)
      requires KInv(View(), None) && Entered(View(), c, p) && x < conds.Length && Q(View().s, CondQ(x)) != []
      requires View().conds[x] < locks.Length
      modifies this`queues, pcbs, cores, locks
      ensures CanSignal(old(View()), x) && View() == Signal(old(View()), c, x, now)
      ensures KInv(View(), None) <==> old(View()).locks[old(View()).conds[x]].locked
    {
      hide View, Q, Schedule, KInv, SignalOne, SameNames;
      ghost var k := View();
      EnterInv(k, c);
      CondWaiters(k, x, None);
      SignalSound(k, c, x, now);
      var q := Queue(CondQ(x));
      var l := CondAt(x);
      var lock := LockAt(l);
      MoveWaiter(q[0], l);
      if lock.locked {
        SignalOneInv(k, x, Some(c));
        DoScheduler(c, now);
      }
    }

    /** do_condition_signal for the waiter just taken off its condition, before rescheduling. */
    method MoveWaiter(w: nat, l: nat)
      requires w < pcbs.Length && l < locks.Length
      modifies this`queues, pcbs, locks
      ensures View() == SignalOne(old(View()), w, l)
    {
      hide View, Detach, Suspend;
      var e := Record(w);
      DelQueue(w);
      var lock := LockAt(l);
      if !lock.locked {
        PutLock(l, Lock(true, e.pid));
      } else {
        MakeBlocked(w, LockQ(l));
      }
    }

    method CondAt(x: nat) returns (l: nat)
      requires x < conds.Length
      ensures l == View().conds[x]
    {
      l := conds[x];
    }

    /** One round of the broadcast: the first waiter to the lock's queue, or to own the lock. */
    method MoveFirst(w: nat, l: nat)
      requires w < pcbs.Length && l < locks.Length
      modifies this`queues, pcbs, locks
      ensures View() == BroadcastOne(old(View()), w, l)
    {
      hide View, Detach, SetStatus, Enqueue;
      var e := Record(w);
      DelQueue(w);
      var lock := LockAt(l);
      if !lock.locked {
        PutLock(l, Lock(true, e.pid));
        AddQueue(w, ReadyQ);
      } else {
        MakeBlocked(w, LockQ(l));
      }
    }

    /** The broadcast loop, until nobody waits on condition x. */
    method MoveWaiters(x: nat, l: nat)
      requires l < locks.Length && Queues(View().s)
      modifies this`queues, pcbs, locks
      ensures forall i :: 0 <= i < |Q(old(View()).s, CondQ(x))| ==> Q(old(View()).s, CondQ(x))[i] < |old(View()).s.pcbs|
      ensures View() == BroadcastAll(old(View()), Q(old(View()).s, CondQ(x)), l) && Q(View().s, CondQ(x)) == []
    {
      hide View, Q, BroadcastOne, Queues;
      ghost var k := View();
      ghost var all := Q(k.s, CondQ(x));
      InQueue(k.s, CondQ(x));
      var q := Queue(CondQ(x));
      while q != []
        invariant q == Q(View().s, CondQ(x)) && Queues(View().s) && forall i :: 0 <= i < |q| ==> q[i] < |View().s.pcbs|
        invariant BroadcastAll(View(), q, l) == BroadcastAll(k, all, l)
        decreases |q|
      {
        MovedFirst(View(), x, l);
        MoveFirst(q[0], l);
        q := Queue(CondQ(x));
      }
    }

    method DoBroadcast(c: nat, p: nat, x: nat, now: nat)
      requires KInv(View(), None) && Entered(View(), c, p) && x < conds.Length
      requires Q(View().s, CondQ(x)) != [] ==> (p, View().conds[x]) in View().claims
      modifies this`queues, pcbs, cores, locks
      ensures Q(old(View()).s, CondQ(x)) != [] ==> CanSignal(old(View()), x)
      ensures KInv(View(), None) && View() == Broadcast(old(View()), c, x, now)
    {
      hide View, Q, Schedule, KInv, BroadcastAll;
      ghost var k := View();
      EnterInv(k, c);
      BroadcastInv(k, c, p, x, now);
      SignalReady(k, p, x);
      var q := Queue(CondQ(x));
      if q != [] {
        HolderLocks(k, c, p, k.conds[x]);
        BroadcastAllInv(k, x, q, Some(c));
        var l := CondAt(x);
        InvQueues(k, Some(c));
        MoveWaiters(x, l);
      }
      DoScheduler(c, now);
    }

    // ---------- Killing ----------

    method ClearPid(p: nat)
      requires p < pcbs.Length
      modifies pcbs
      ensures View() == Unname(old(View()), p)
    {
      pcbs[p] := pcbs[p].(pid := 0);
    }

    /** release_pcb_lock, once the number of process i is cleared. */
    method ReleaseOwned(i: nat, pid: nat, ghost k: Kernel)
      requires KInv(k, None) && i < |k.s.pcbs| && Pid(k, i) == pid > 0 && View() == Unname(k, i) && |k.locks| == locks.Length
      modifies this, pcbs, locks
      ensures |ReleaseAll(k, i, pid, 0).s.pcbs| == |k.s.pcbs| && View() == Unname(ReleaseAll(k, i, pid, 0), i)
    {
      hide View, KInv, Q, Unname, Hand, SameNames;
      ghost var u := k;
      ReleaseAllInv(k, i, pid, 0, None);
      var l := 0;
      while l != locks.Length
        invariant 0 <= l <= locks.Length == |u.locks| && KInv(u, None) && i < |u.s.pcbs| == |k.s.pcbs| && Pid(u, i) == pid
        invariant View() == Unname(u, i) && ReleaseAll(u, i, pid, l) == ReleaseAll(k, i, pid, 0)
        decreases locks.Length - l
      {
        UnnameLocksSame(u, i);
        var lock := LockAt(l);
        if lock.owner == pid {
          ReleaseForInv(u, i, l, None);
          ReleaseUnnamed(u, i, l);
          NamesSize(u.s, Release(u, i, l).s);
          ReleaseHead(u, i, l);
          Claim((i, l), false);
          HandOn(l);
          u := Release(u, i, l);
        }
        l := l + 1;
      }
    }

    method DoKill(c: nat, pid: nat, now: nat) returns (res: int)
      requires KInv(View(), None) && c < cores.Length && pid > 0
      modifies this, pcbs, cores, locks
      ensures KInv(View(), None)
      ensures
        var k := old(View());
        var i := Find(k.s.pcbs, pid, 0);
        if i == |k.s.pcbs| then View() == k && res == 0
        else (forall j :: 0 <= j < |Q(k.s, WaitQ(i))| ==> Q(k.s, WaitQ(i))[j] < |k.s.pcbs|)
             && View() == KillSlot(k, c, i, now) && res == if Live(k.s.pcbs[i]) then 1 else 0
    {
      hide View, KInv, Q, Unname, Find, ReleaseAll, WakeAll, Depart, Schedule;
      ghost var k := View();
      var i := FindPid(pid);
      if i == pcbs.Length { return 0; }
      KillSlotInv(k, c, i, now);
      WaitDrainedAt(k, i);
      ghost var t := k.(s := WakeAll(k.s, Q(k.s, WaitQ(i))));
      DrainWaiters(i);
      ClearPid(i);
      ReleaseOwned(i, pid, t);
      ghost var u := ReleaseAll(t, i, pid, 0);
      ReleaseAllInv(t, i, pid, 0, None);
      UnnameStatus(u, i);
      var e := Record(i);
      match e.status
      case Blocked =>
        KillEnds(k, t, u, i, c);
        EndProcess(i);
        res := 1;
      case Running =>
        KillEnds(k, t, u, i, c);
        EndProcess(i);
        DoScheduler(c, now);
        res := 1;
      case Ready =>
        KillEnds(k, t, u, i, c);
        EndProcess(i);
        res := 1;
      case Exited =>
        res := 0;
      case Available =>
        res := 0;
    }

    // ---------- Barriers ----------

    method BarAt(b: nat) returns (n: int)
      requires b < bars.Length
      ensures n == View().bars[b]
    {
      n := bars[b];
    }

    method DoBarrierWait(c: nat, p: nat, b: nat, now: nat)
      requires KInv(View(), None) && Entered(View(), c, p) && b < bars.Length
      modifies this`queues, pcbs, cores, bars
      ensures forall i :: 0 <= i < |Q(old(View()).s, BarrierQ(b))| ==> Q(old(View()).s, BarrierQ(b))[i] < |old(View()).s.pcbs|
      ensures KInv(View(), None) && View() == BarrierWait(old(View()), c, p, b, now)
    {
      hide View, Q, Schedule, KInv, Suspend, WakeAll;
      ghost var k := View();
      EnterInv(k, c);
      BarrierInv(k, c, p, b, now);
      var n := BarAt(b);
      if n == 1 {
        WakeAllInv(k, c, BarrierQ(b));
        DrainBarrier(b, c);
        BarsFree(k.(s := WakeAll(k.s, Q(k.s, BarrierQ(b)))), View().bars, Some(c));
      } else {
        SuspendInv(k, c, p, BarrierQ(b));
        SuspendCores(k.s, p, BarrierQ(b));
        MakeBlocked(p, BarrierQ(b));
        PutBar(b, n - 1);
        BarsFree(k.(s := Suspend(k.s, p, BarrierQ(b))), View().bars, Some(c));
      }
      DoScheduler(c, now);
    }

    /** One waiter made ready and counted back in. */
    method DrainOne(b: nat)
      requires b < bars.Length && CanUnblock(View().s, BarrierQ(b))
      modifies this`queues, pcbs, bars
      ensures View() == old(View()).(s := Unblock(old(View()).s, BarrierQ(b)), bars := old(View()).bars[b := old(View()).bars[b] + 1])
    {
      hide View, Unblock;
      DoUnblock(BarrierQ(b));
      var n := BarAt(b);
      PutBar(b, n + 1);
    }

    /** The last arrival empties the queue, counting each back in. */
    method DrainBarrier(b: nat, ghost c: nat)
      requires KInv(View(), Some(c)) && b < bars.Length
      modifies this`queues, pcbs, bars
      ensures forall i :: 0 <= i < |Q(old(View()).s, BarrierQ(b))| ==> Q(old(View()).s, BarrierQ(b))[i] < |old(View()).s.pcbs|
      ensures
        var k := old(View());
        View() == k.(s := WakeAll(k.s, Q(k.s, BarrierQ(b))), bars := k.bars[b := k.bars[b] + |Q(k.s, BarrierQ(b))|])
    {
      hide View, Part, Names, LockInv, Unblock, Q, WakeAll;
      ghost var k := View();
      ghost var all := Q(k.s, BarrierQ(b));
      WaitersIn(k.s, Some(c), BarrierQ(b));
      assert k.bars[b := k.bars[b]] == k.bars;
      var q := Queue(BarrierQ(b));
      while q != []
        invariant q == Q(View().s, BarrierQ(b)) && |q| <= |all| && |View().s.pcbs| == |k.s.pcbs|
        invariant View() == k.(s := View().s, bars := k.bars[b := k.bars[b] + (|all| - |q|)])
        invariant Part(View().s, Some(c)) && forall i :: 0 <= i < |q| ==> q[i] < |View().s.pcbs|
        invariant WakeAll(View().s, q) == WakeAll(k.s, all)
        decreases |q|
      {
        ghost var s := View().s;
        UnblockPart(s, BarrierQ(b), Some(c));
        WakeAllStep(s, Some(c), BarrierQ(b));
        DrainOne(b);
        q := Queue(BarrierQ(b));
        WaitersIn(View().s, Some(c), BarrierQ(b));
      }
      NoneLeft(View().s);
    }
  }

  // ---------- Clearing the number first ----------

  lemma InQueue(s: Sched, q: QueueId)
    requires Queues(s)
    ensures forall i :: 0 <= i < |Q(s, q)| ==> Q(s, q)[i] < |s.pcbs|
  {
    hide Distinct;
    assert forall i :: 0 <= i < |Q(s, q)| ==> Q(s, q)[i] in Q(s, q);
  }

  lemma InvQueues(k: Kernel, mid: Option<nat>)
    requires KInv(k, mid)
    ensures Queues(k.s)
  {
    hide Queues;
  }

  /** A round of the broadcast takes the first waiter, and only that one, off its queue. */
  lemma MovedFirst(k: Kernel, x: nat, l: nat)
    requires Queues(k.s) && Q(k.s, CondQ(x)) != [] && l < |k.locks|
    ensures Q(k.s, CondQ(x))[0] < |k.s.pcbs|
    ensures
      var t := BroadcastOne(k, Q(k.s, CondQ(x))[0], l);
      && Queues(t.s) && Q(t.s, CondQ(x)) == Q(k.s, CondQ(x))[1..] && |t.s.pcbs| == |k.s.pcbs|
      && forall i :: 0 <= i < |Q(k.s, CondQ(x))[1..]| ==> Q(k.s, CondQ(x))[1..][i] < |t.s.pcbs|
  {
    hide Queues, Q, Without;
    InQueue(k.s, CondQ(x));
    var w := Q(k.s, CondQ(x))[0];
    DetachQueues(k.s, w);
    QueueDistinct(k.s, CondQ(x));
    WithoutHead(Q(k.s, CondQ(x)));
    var u := Detach(k.s, w);
    SetStatusQueues(u, w, Blocked);
    EnqueueQueues(u, w, ReadyQ);
    EnqueueQueues(SetStatus(u, w, Blocked), w, LockQ(l));
    EnqueueQ(u, w, ReadyQ, CondQ(x));
    EnqueueQ(SetStatus(u, w, Blocked), w, LockQ(l), CondQ(x));
    SameQ(u, w, CondQ(x));
    assert |u.pcbs| == |k.s.pcbs|;
  }

  lemma SameQ(s: Sched, w: nat, q: QueueId)
    requires w < |s.pcbs|
    ensures Q(SetStatus(s, w, Blocked), q) == Q(s, q)
  {
  }

  /** The releases look at the numbers of other processes only. */
  lemma ReleaseUnnamed(k: Kernel, i: nat, l: nat)
    requires KInv(k, None) && i < |k.s.pcbs| && Pid(k, i) > 0 && l < |k.locks| && k.locks[l].owner == Pid(k, i)
    ensures i < |Release(k, i, l).s.pcbs| && |Unname(k, i).locks| == |k.locks|
    ensures Release(Unname(k, i), i, l) == Unname(Release(k, i, l), i)
  {
    OwnerFacts(k, i, l, None);
    QueueHead(k, None, LockQ(l));
    hide KInv, Wake;
    assert Q(Unname(k, i).s, LockQ(l)) == Q(k.s, LockQ(l));
    if Q(k.s, LockQ(l)) != [] {
      WakeUnnamed(k.s, i, Q(k.s, LockQ(l))[0]);
    }
  }

  function UnnameSched(s: Sched, i: nat): Sched
    requires i < |s.pcbs|
  {
    s.(pcbs := s.pcbs[i := s.pcbs[i].(pid := 0)])
  }

  lemma WakeUnnamed(s: Sched, i: nat, h: nat)
    requires i < |s.pcbs| && h < |s.pcbs| && h != i
    ensures |Wake(s, h).pcbs| == |s.pcbs| && Wake(UnnameSched(s, i), h) == UnnameSched(Wake(s, h), i)
  {
    hide Without;
    assert Wake(UnnameSched(s, i), h).pcbs == UnnameSched(Wake(s, h), i).pcbs;
  }

  lemma ReleaseHead(k: Kernel, i: nat, l: nat)
    requires KInv(k, None) && i < |k.s.pcbs| && l < |k.locks|
    ensures
      var u := Unname(k, i).(claims := Unname(k, i).claims - {(i, l)});
      Q(u.s, LockQ(l)) != [] ==> CanUnblock(u.s, LockQ(l))
  {
    QueueHead(k, None, LockQ(l));
    hide KInv;
    assert Q(Unname(k, i).s, LockQ(l)) == Q(k.s, LockQ(l));
  }

  lemma UnnameLocksSame(k: Kernel, i: nat)
    requires i < |k.s.pcbs|
    ensures Unname(k, i).locks == k.locks && |Unname(k, i).s.pcbs| == |k.s.pcbs|
  {
  }

  lemma UnnameStatus(k: Kernel, i: nat)
    requires i < |k.s.pcbs|
    ensures |Unname(k, i).s.pcbs| == |k.s.pcbs| && Unname(k, i).s.pcbs[i].status == k.s.pcbs[i].status
    ensures Unname(k, i).s.cores == k.s.cores
  {
  }

  lemma WaitDrainedAt(k: Kernel, i: nat)
    requires KInv(k, None) && i < |k.s.pcbs|
    ensures forall j :: 0 <= j < |Q(k.s, WaitQ(i))| ==> Q(k.s, WaitQ(i))[j] < |k.s.pcbs|
    ensures
      var t := k.(s := WakeAll(k.s, Q(k.s, WaitQ(i))));
      && KInv(t, None) && |t.s.pcbs| == |k.s.pcbs| && Pid(t, i) == Pid(k, i) && (Live(t.s.pcbs[i]) <==> Live(k.s.pcbs[i]))
      && Q(t.s, WaitQ(i)) == [] && t.s.cores == k.s.cores && (k.s.pcbs[i].status == Running <==> t.s.pcbs[i].status == Running)
  {
    hide Part, Names, LockInv, Q, WakeAll;
    WaitDrained(k.s, i, None);
    WakeAllPart(k.s, WaitQ(i), Q(k.s, WaitQ(i)), None);
    var t := k.(s := WakeAll(k.s, Q(k.s, WaitQ(i))));
    KillWoken(k, t, i);
    WokenStatus(k, t, i);
  }

  /** Those woken were blocked and are ready: nobody begins or stops running. */
  lemma WokenStatus(k: Kernel, t: Kernel, i: nat)
    requires KInv(k, None) && KInv(t, None) && |t.s.pcbs| == |k.s.pcbs| && i < |k.s.pcbs|
    requires forall p :: 0 <= p < |k.s.pcbs| && p !in Q(k.s, WaitQ(i)) ==> t.s.pcbs[p] == k.s.pcbs[p]
    requires Q(t.s, ReadyQ) == Q(k.s, ReadyQ) + Q(k.s, WaitQ(i))
    ensures k.s.pcbs[i].status == Running <==> t.s.pcbs[i].status == Running
  {
    hide LockInv, Names;
    if i in Q(k.s, WaitQ(i)) {
      var j :| 0 <= j < |Q(k.s, WaitQ(i))| && Q(k.s, WaitQ(i))[j] == i;
      WaitersBlocked(k.s, None, WaitQ(i), j);
      assert Q(t.s, ReadyQ)[|Q(k.s, ReadyQ)| + j] == i;
      ReadyIs(t.s, None, |Q(k.s, ReadyQ)| + j);
    }
  }

  /** Leaving one's queue and losing one's number, in either order. */
  lemma DepartUnnamed(k: Kernel, i: nat)
    requires i < |k.s.pcbs|
    ensures |Depart(k, i).s.pcbs| == |k.s.pcbs| && |Unname(k, i).s.pcbs| == |k.s.pcbs|
    ensures Depart(Unname(k, i), i) == Unname(Depart(k, i), i)
  {
    hide Without;
    assert Depart(Unname(k, i), i).s.pcbs == Unname(Depart(k, i), i).s.pcbs;
  }

  lemma KillEnds(k: Kernel, t: Kernel, u: Kernel, i: nat, c: nat)
    requires i < |k.s.pcbs| && c < |k.s.cores| && KInv(u, None) && i < |u.s.pcbs| && Live(u.s.pcbs[i]) && Q(u.s, WaitQ(i)) == [] && u.s.cores == k.s.cores
    ensures |Depart(u, i).s.pcbs| == |u.s.pcbs| && |Unname(u, i).s.pcbs| == |u.s.pcbs| && Depart(Unname(u, i), i) == Unname(Depart(u, i), i)
    ensures KInv(Unname(Depart(u, i), i), Some(c)) && Unname(Depart(u, i), i).s.cores == k.s.cores
  {
    hide KInv, Q, Unname, Depart;
    DepartInv(u, i, None);
    UnnameInv(Depart(u, i), i, None);
    UnnameCores(Depart(u, i), i);
    EnterInv(Unname(Depart(u, i), i), c);
    DepartUnnamed(u, i);
  }

  lemma NoneLeft(s: Sched)
    ensures WakeAll(s, []) == s
  {
  }

  lemma WaitersIn(s: Sched, mid: Option<nat>, q: QueueId)
    requires Part(s, mid) && q != ReadyQ
    ensures forall i :: 0 <= i < |Q(s, q)| ==> Q(s, q)[i] < |s.pcbs|
  {
    hide Part, Q;
    forall i | 0 <= i < |Q(s, q)| ensures Q(s, q)[i] < |s.pcbs| { WaitersBlocked(s, mid, q, i); }
  }

  lemma WakeAllStep(s: Sched, mid: Option<nat>, q: QueueId)
    requires Part(s, mid) && q != ReadyQ && Q(s, q) != []
    ensures (forall i :: 0 <= i < |Q(s, q)| ==> Q(s, q)[i] < |s.pcbs|) && CanUnblock(s, q)
    ensures |Unblock(s, q).pcbs| == |s.pcbs| && WakeAll(s, Q(s, q)) == WakeAll(Unblock(s, q), Q(s, q)[1..])
  {
    hide Part, Q, Wake;
    WaitersIn(s, mid, q);
    UnblockPart(s, q, mid);
  }

  lemma SleepyEntered(k: Kernel, c: nat, p: nat, time: nat)
    requires Entered(k, c, p)
    ensures Entered(Sleepy(k, p, time), c, p) && |Sleepy(k, p, time).s.cores| == |k.s.cores| && |Sleepy(k, p, time).s.pcbs| == |k.s.pcbs|
    ensures Suspend(Sleepy(k, p, time).s, p, SleepQ).cores == k.s.cores
  {
  }

  lemma SchedHead(s: Sched, mid: Option<nat>, q: QueueId)
    requires Part(s, mid) && q != ReadyQ
    ensures Q(s, q) != [] ==> CanUnblock(s, q)
  {
    hide Part;
    if Q(s, q) != [] { WaitersBlocked(s, mid, q, 0); }
  }

  lemma QueueHead(k: Kernel, mid: Option<nat>, q: QueueId)
    requires KInv(k, mid) && q != ReadyQ
    ensures Q(k.s, q) != [] ==> CanUnblock(k.s, q)
  {
    SchedHead(k.s, mid, q);
  }

  /** Every index the scheduler follows is in range. */
  lemma ScheduleSafe(s: Sched, c: nat, now: nat)
    requires Part(s, Some(c)) && Names(s) && c < |s.cores|
    ensures forall i :: 0 <= i < |Q(s, SleepQ)| ==> Q(s, SleepQ)[i] < |s.pcbs|
    ensures
      var u := CheckSleeping(s, now);
      && |u.cores| == |s.cores| && |u.pcbs| == |s.pcbs| && (u.cores[c].Some? ==> u.cores[c].value < |s.pcbs|)
      && var v := Requeue(u, c);
      |v.pcbs| == |s.pcbs| && |v.cores| == |s.cores| && forall i :: 0 <= i < |Q(v, ReadyQ)| ==> Q(v, ReadyQ)[i] < |s.pcbs|
  {
    hide Part, WakeDue, Requeue, Q;
    forall i | 0 <= i < |Q(s, SleepQ)| ensures Q(s, SleepQ)[i] < |s.pcbs| { WaitersBlocked(s, Some(c), SleepQ, i); }
    assert Q(s, SleepQ) == [] + Q(s, SleepQ);
    WakeDuePart(s, [], Q(s, SleepQ), now, Some(c));
    var u := CheckSleeping(s, now);
    SameNamesNames(s, u);
    NumberedCore(u, c);
    RequeuePart(u, c);
    var v := Requeue(u, c);
    forall i | 0 <= i < |Q(v, ReadyQ)| ensures Q(v, ReadyQ)[i] < |s.pcbs| { ReadyIs(v, Some(c), i); }
  }
}
