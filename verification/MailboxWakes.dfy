/** Whom the mailbox calls wake, whatever the lengths of the messages. */
module MailboxWakes {
  import opened Bytes
  import opened Mailboxes

  /** A call wakes the first n of a queue, in order, and leaves the others there. */
  ghost predicate WokeFirst(ready: seq<Pid>, q: seq<Pid>, n: nat, ready': seq<Pid>, q': seq<Pid>) {
    n <= |q| && ready' == ready + q[..n] && q' == q[n..]
  }

  /** A send that fills the ring wakes every queued receiver, any other that goes
      through the longest waiting one; one that does not fit queues its sender last
      and wakes nobody. */
  lemma SendWakes(s: Mailbox, p: Pid, msg: Message)
    requires s.head <= s.tail && s.lockQ == []
    ensures
      var t := SendOn(s, p, msg);
      var held := s.tail + |msg| - s.head;
      var n := if held == 64 then |s.fullQ| else if s.fullQ == [] then 0 else 1;
      && (held > 64 ==> t.ready == s.ready && t.fullQ == s.fullQ && t.emptyQ == s.emptyQ + [p])
      && (held <= 64 ==> WokeFirst(s.ready, s.fullQ, n, t.ready, t.fullQ) && t.emptyQ == s.emptyQ)
  {
    hide Stored;
    if s.fullQ != [] { assert s.fullQ[..1] == [s.fullQ[0]]; }
    assert s.fullQ[..|s.fullQ|] == s.fullQ;
  }

  /** A receive that empties the ring wakes every queued sender, any other that goes
      through the longest waiting one; one that finds too few bytes queues its
      receiver last and wakes nobody. */
  lemma RecvWakes(s: Mailbox, p: Pid, n: nat)
    requires s.head <= s.tail && s.lockQ == []
    ensures
      var t := RecvOn(s, p, n);
      var left := s.tail - s.head - n;
      var k := if left == 0 then |s.emptyQ| else if s.emptyQ == [] then 0 else 1;
      && (left < 0 ==> t.ready == s.ready && t.emptyQ == s.emptyQ && t.fullQ == s.fullQ + [p])
      && (left >= 0 ==> WokeFirst(s.ready, s.emptyQ, k, t.ready, t.emptyQ) && t.fullQ == s.fullQ)
  {
    hide RingBytes;
    if s.emptyQ != [] { assert s.emptyQ[..1] == [s.emptyQ[0]]; }
    assert s.emptyQ[..|s.emptyQ|] == s.emptyQ;
  }

  // ---------- A full or an empty ring ----------

  /** With the ring full nobody waits for bytes it could have, and with the ring
      empty nobody waits for room it could have. */
  ghost predicate Flushed(s: Mailbox) {
    && (s.tail - s.head == 64 ==> forall p :: p in s.fullQ ==> p in s.pcs && s.pcs[p].RecvWait? && s.pcs[p].len > 64)
    && (s.tail == s.head ==> forall p :: p in s.emptyQ ==> p in s.pcs && s.pcs[p].SendWait? && |s.pcs[p].msg| > 64)
  }

  lemma SendFlushed(s: Mailbox, p: Pid, msg: Message)
    requires Stream(s) && Running(s, p) && Flushed(s)
    ensures Flushed(SendOn(s, p, msg))
  {
    hide Stored, RingBytes, Flatten, Distinct;
    SendWakes(s, p, msg);
    OnPcs(s, p, msg, 0);
  }

  lemma RecvFlushed(s: Mailbox, p: Pid, n: nat)
    requires Stream(s) && Running(s, p) && Flushed(s)
    ensures Flushed(RecvOn(s, p, n))
  {
    hide Stored, RingBytes, Flatten, Distinct;
    RecvWakes(s, p, n);
    OnPcs(s, p, [], n);
  }

  lemma StepFlushed(s: Mailbox, e: Event)
    requires Safe(s) && Enabled(s, e) && Flushed(s)
    ensures Flushed(Step(s, e))
  {
    hide SendOn, RecvOn, Flatten, RingBytes, Distinct;
    match e
    case Send(p, msg) => SendFlushed(s.(users := s.users + 1, locked := true), p, msg);
    case Recv(p, n) => RecvFlushed(s.(users := s.users + 1, locked := true), p, n);
    case Resume(p) =>
      var u := s.(locked := true, ready := Without(s.ready, p));
      if s.pcs[p].SendWait? { SendFlushed(u, p, s.pcs[p].msg); } else { RecvFlushed(u, p, s.pcs[p].len); }
    case Kill(p) =>
  }

  /** In every run, with messages of any lengths and with kills: while the ring is
      full no queued receiver asks for as many bytes as it holds or fewer, and while it
      is empty no queued sender has a message that fits. */
  lemma {:induction false} RunFlushed(es: seq<Event>)
    requires Run(es).Some?
    ensures Flushed(Run(es).value)
  {
    if es != [] {
      RunFlushed(es[..|es| - 1]);
      RunSafe(es[..|es| - 1]);
      StepFlushed(Run(es[..|es| - 1]).value, es[|es| - 1]);
    }
  }
}
