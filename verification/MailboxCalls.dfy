/** The mailbox calls as they rewrite the mailbox in place, each from entry or
    resumption to the next call of the scheduler or the return. */
module MailboxCalls {
  import opened Bytes
  import opened Mailboxes

  datatype Outcome = Invalid | Blocked | Done

  class SharedMailbox {
    var valid: bool
    var head: nat
    var tail: nat
    const content: array<byte>
    var locked: bool
    var users: int
    var lockQ: seq<Pid>
    var fullQ: seq<Pid>
    var emptyQ: seq<Pid>
    var ready: seq<Pid>
    // Where the processes inside calls stopped, and what went through.
    ghost var pcs: map<Pid, Pc>
    ghost var sent: seq<Message>
    ghost var got: seq<Message>

    /** What the copy loops need of the counters. */
    ghost predicate Usable()
      reads this
    {
      content.Length == MAX_MBOX_LENGTH && head <= tail
    }

    ghost function View(): Mailbox
      requires Usable()
      reads this, content
    {
      Mailbox(head, tail, content[..], locked, users, lockQ, fullQ, emptyQ, ready, pcs, sent, got)
    }

    constructor ()
      ensures Usable() && View() == Init() && !valid && fresh(content)
    {
      content := new byte[MAX_MBOX_LENGTH](_ => 0);
      valid, locked := false, false;
      head, tail, users := 0, 0, 0;
      lockQ, fullQ, emptyQ, ready := [], [], [], [];
      pcs, sent, got := map[], [], [];
      new;
      assert content[..] == Init().content;
    }

    method Open()
      modifies this`valid
      ensures valid
    {
      if !valid { valid := true; }
    }

    // ---------- Queues ----------

    method UnblockLock()
      requires lockQ != []
      modifies this`lockQ, this`ready
      ensures ready == old(ready) + [old(lockQ)[0]] && lockQ == old(lockQ)[1..]
    {
      ready, lockQ := ready + [lockQ[0]], lockQ[1..];
    }

    method UnblockFull()
      requires fullQ != []
      modifies this`fullQ, this`ready
      ensures ready == old(ready) + [old(fullQ)[0]] && fullQ == old(fullQ)[1..]
    {
      ready, fullQ := ready + [fullQ[0]], fullQ[1..];
    }

    method UnblockEmpty()
      requires emptyQ != []
      modifies this`emptyQ, this`ready
      ensures ready == old(ready) + [old(emptyQ)[0]] && emptyQ == old(emptyQ)[1..]
    {
      ready, emptyQ := ready + [emptyQ[0]], emptyQ[1..];
    }

    method DrainFull()
      modifies this`fullQ, this`ready
      ensures fullQ == [] && ready == old(ready) + old(fullQ)
    {
      while fullQ != []
        invariant ready + fullQ == old(ready) + old(fullQ)
        decreases |fullQ|
      {
        UnblockFull();
      }
    }

    method DrainEmpty()
      modifies this`emptyQ, this`ready
      ensures emptyQ == [] && ready == old(ready) + old(emptyQ)
    {
      while emptyQ != []
        invariant ready + emptyQ == old(ready) + old(emptyQ)
        decreases |emptyQ|
      {
        UnblockEmpty();
      }
    }

    method Release()
      modifies this`locked, this`lockQ, this`ready
      ensures !locked && lockQ == Rest(old(lockQ)) && ready == old(ready) + First(old(lockQ))
    {
      locked := false;
      if lockQ != [] { UnblockLock(); }
    }

    // ---------- Copying ----------

    method Put(msg: Message)
      requires Usable()
      modifies this`tail, content
      ensures Usable() && tail == old(tail) + |msg| && content[..] == Stored(old(content[..]), old(tail), msg)
    {
      var i := 0;
      while i != |msg|
        invariant 0 <= i <= |msg| && tail == old(tail) + i
        invariant Stored(content[..], tail, msg[i..]) == Stored(old(content[..]), old(tail), msg)
      {
        ghost var c := content[..];
        content[tail % MAX_MBOX_LENGTH] := msg[i];
        assert content[..] == c[tail % MAX_MBOX_LENGTH := msg[i]] && msg[i..][1..] == msg[i + 1..];
        tail := tail + 1;
        i := i + 1;
      }
    }

    method Take(n: nat) returns (msg: Message)
      requires Usable() && head + n <= tail
      modifies this`head
      ensures Usable() && head == old(head) + n && msg == RingBytes(content[..], old(head), old(head) + n)
    {
      msg := [];
      var i := 0;
      while i != n
        invariant 0 <= i <= n && head == old(head) + i
        invariant msg == RingBytes(content[..], old(head), old(head) + i)
      {
        msg := msg + [content[head % MAX_MBOX_LENGTH]];
        head := head + 1;
        i := i + 1;
      }
    }

    // ---------- Calls ----------

    /** The end of a send: the lock is given back, then one receiver woken. */
    method LeaveSend(p: Pid)
      modifies this`locked, this`lockQ, this`ready, this`users, this`pcs, this`fullQ
      ensures !locked && lockQ == Rest(old(lockQ)) && users == old(users) - 1 && pcs == old(pcs) - {p}
      ensures fullQ == Rest(old(fullQ)) && ready == old(ready) + First(old(lockQ)) + First(old(fullQ))
    {
      Release();
      users := users - 1;
      pcs := pcs - {p};
      if fullQ != [] { UnblockFull(); }
    }

    method LeaveRecv(p: Pid)
      modifies this`locked, this`lockQ, this`ready, this`users, this`pcs, this`emptyQ
      ensures !locked && lockQ == Rest(old(lockQ)) && users == old(users) - 1 && pcs == old(pcs) - {p}
      ensures emptyQ == Rest(old(emptyQ)) && ready == old(ready) + First(old(lockQ)) + First(old(emptyQ))
    {
      Release();
      users := users - 1;
      pcs := pcs - {p};
      if emptyQ != [] { UnblockEmpty(); }
    }

    method SleepSend(p: Pid, msg: Message)
      modifies this`locked, this`lockQ, this`ready, this`pcs, this`emptyQ
      ensures !locked && lockQ == Rest(old(lockQ)) && ready == old(ready) + First(old(lockQ))
      ensures emptyQ == old(emptyQ) + [p] && pcs == old(pcs)[p := SendWait(msg)]
    {
      Release();
      emptyQ := emptyQ + [p];
      pcs := pcs[p := SendWait(msg)];
    }

    method SleepRecv(p: Pid, n: nat)
      modifies this`locked, this`lockQ, this`ready, this`pcs, this`fullQ
      ensures !locked && lockQ == Rest(old(lockQ)) && ready == old(ready) + First(old(lockQ))
      ensures fullQ == old(fullQ) + [p] && pcs == old(pcs)[p := RecvWait(n)]
    {
      Release();
      fullQ := fullQ + [p];
      pcs := pcs[p := RecvWait(n)];
    }

    /** A send that fits. */
    method Deliver(p: Pid, msg: Message)
      requires Usable() && Fits(View(), msg)
      modifies this, content
      ensures Usable() && valid == old(valid) && View() == SendMove(old(View()), p, msg)
    {
      hide Stored, Rest, First;
      Put(msg);
      sent := sent + [msg];
      if head + MAX_MBOX_LENGTH == tail { DrainFull(); }
      LeaveSend(p);
    }

    /** A receive that finds enough bytes. */
    method Collect(p: Pid, n: nat) returns (msg: Message)
      requires Usable() && head + n <= tail
      modifies this
      ensures Usable() && valid == old(valid) && View() == RecvMove(old(View()), p, n)
      ensures got == old(got) + [msg]
    {
      hide RingBytes, Rest, First;
      msg := Take(n);
      got := got + [msg];
      if head == tail { DrainEmpty(); }
      LeaveRecv(p);
    }

    /** The part of a send that holds the lock. */
    method SendHeld(p: Pid, msg: Message) returns (r: Outcome)
      requires Usable()
      modifies this, content
      ensures Usable() && valid == old(valid)
      ensures r == (if Fits(old(View()), msg) then Done else Blocked)
      ensures View() == SendOn(old(View()), p, msg)
    {
      hide SendMove, Rest, First;
      if |msg| > MAX_MBOX_LENGTH - (tail - head) {
        SleepSend(p, msg);
        return Blocked;
      }
      Deliver(p, msg);
      r := Done;
    }

    /** The part of a receive that holds the lock. */
    method RecvHeld(p: Pid, n: nat) returns (r: Outcome, msg: Message)
      requires Usable()
      modifies this
      ensures Usable() && valid == old(valid)
      ensures View() == RecvOn(old(View()), p, n)
      ensures r == (if old(head) + n <= old(tail) then Done else Blocked)
      ensures r == Done ==> got == old(got) + [msg]
    {
      hide RecvMove, Rest, First;
      if n > tail - head {
        SleepRecv(p, n);
        return Blocked, [];
      }
      msg := Collect(p, n);
      r := Done;
    }

    /** do_mbox_send, as far as it runs at once; `waits` counts how often it waited. */
    method Send(p: Pid, msg: Message) returns (r: Outcome, waits: nat)
      requires Usable() && Enabled(View(), Event.Send(p, msg))
      modifies this, content
      ensures Usable() && (r == Invalid <==> !old(valid))
      ensures r == Done <==> old(valid) && !old(locked) && Fits(old(View()), msg)
      ensures waits == if r == Blocked then 1 else 0
      ensures View() == if old(valid) then Step(old(View()), Event.Send(p, msg)) else old(View())
    {
      hide SendOn;
      if !valid { return Invalid, 0; }
      users := users + 1;
      if locked {
        lockQ := lockQ + [p];
        pcs := pcs[p := SendLock(msg)];
        return Blocked, 1;
      }
      locked := true;
      r := SendHeld(p, msg);
      waits := if r == Blocked then 1 else 0;
    }

    /** do_mbox_recv, as far as it runs at once. */
    method Recv(p: Pid, n: nat) returns (r: Outcome, msg: Message)
      requires Usable() && Enabled(View(), Event.Recv(p, n))
      modifies this
      ensures Usable() && (r == Invalid <==> !old(valid))
      ensures r == Done <==> old(valid) && !old(locked) && old(head) + n <= old(tail)
      ensures View() == if old(valid) then Step(old(View()), Event.Recv(p, n)) else old(View())
      ensures r == Done ==> got == old(got) + [msg]
    {
      hide RecvOn;
      msg := [];
      if !valid { return Invalid, msg; }
      users := users + 1;
      if locked {
        lockQ := lockQ + [p];
        pcs := pcs[p := RecvLock(n)];
        return Blocked, msg;
      }
      locked := true;
      r, msg := RecvHeld(p, n);
    }

    /** A sender back from the scheduler, still wanting to send msg, after `before`
        waits; `relock` says that it waited for room and not for the lock. */
    method ResumeSend(p: Pid, msg: Message, relock: bool, before: nat) returns (r: Outcome, waits: nat)
      requires Usable() && Enabled(View(), Resume(p))
      requires View().pcs[p] == if relock then SendWait(msg) else SendLock(msg)
      modifies this, content
      ensures Usable() && View() == Step(old(View()), Resume(p)) && r != Invalid
      ensures r == Done <==> !(relock && old(locked)) && Fits(old(View()), msg)
      ensures waits == before + if r == Blocked then 1 else 0
    {
      hide SendOn, Without;
      ready := Without(ready, p);
      if relock {
        if locked {
          lockQ := lockQ + [p];
          pcs := pcs[p := SendLock(msg)];
          return Blocked, before + 1;
        }
        locked := true;
      }
      r := SendHeld(p, msg);
      waits := if r == Blocked then before + 1 else before;
    }

    method ResumeRecv(p: Pid, n: nat, relock: bool) returns (r: Outcome, msg: Message)
      requires Usable() && Enabled(View(), Resume(p))
      requires View().pcs[p] == if relock then RecvWait(n) else RecvLock(n)
      modifies this, content
      ensures Usable() && View() == Step(old(View()), Resume(p)) && r != Invalid
      ensures r == Done <==> !(relock && old(locked)) && old(head) + n <= old(tail)
      ensures r == Done ==> got == old(got) + [msg]
    {
      hide RecvOn, Without;
      msg := [];
      ready := Without(ready, p);
      if relock {
        if locked {
          lockQ := lockQ + [p];
          pcs := pcs[p := RecvLock(n)];
          return Blocked, msg;
        }
        locked := true;
      }
      r, msg := RecvHeld(p, n);
    }
  }
}
