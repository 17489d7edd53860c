/** A 64-byte mailbox shared by any number of senders and receivers. A step runs
    one process from kernel entry, or from its resumption, to its next call of
    the scheduler or its return. */
module Mailboxes {
  import opened Bytes

  const MAX_MBOX_LENGTH := 64
  const INT_LIMIT := 0x8000_0000

  type Pid = nat
  type Message = seq<byte>
  type Ring = c: seq<byte> | |c| == MAX_MBOX_LENGTH witness seq(MAX_MBOX_LENGTH, _ => 0)

  /** Where a process inside a mailbox call stopped: on the full or empty queue,
      or on the lock queue, with what it wants to move. */
  datatype Pc = SendWait(msg: Message) | SendLock(msg: Message) | RecvWait(len: nat) | RecvLock(len: nat)

  /** The mailbox, the processes inside its calls and where each stopped, and
      the log of the messages that went in and came out. `ready` holds the
      processes put on the ready queue by mailbox calls, in that order. */
  datatype Mailbox = Mailbox(head: nat, tail: nat, content: Ring, locked: bool, users: int,
                             lockQ: seq<Pid>, fullQ: seq<Pid>, emptyQ: seq<Pid>,
                             ready: seq<Pid>, pcs: map<Pid, Pc>, sent: seq<Message>, got: seq<Message>)

  function Init(): Mailbox {
    Mailbox(0, 0, seq(MAX_MBOX_LENGTH, _ => 0), false, 0, [], [], [], [], map[], [], [])
  }

  // ---------- The ring ----------

  /** The bytes from one position to another, each stored modulo the capacity. */
  function RingBytes(c: Ring, head: nat, tail: nat): (r: seq<byte>)
    requires head <= tail
    ensures |r| == tail - head
  {
    seq<byte>(tail - head, k requires 0 <= k < tail - head => c[(head + k) % MAX_MBOX_LENGTH])
  }

  /** The ring after the bytes of m were stored from position `tail` on. */
  function Stored(c: Ring, tail: nat, m: Message): (r: Ring)
    decreases |m|
  {
    if m == [] then c else Stored(c[tail % MAX_MBOX_LENGTH := m[0]], tail + 1, m[1..])
  }

  lemma RingPut(c: Ring, head: nat, tail: nat, v: byte)
    requires head <= tail < head + MAX_MBOX_LENGTH
    ensures RingBytes(c[tail % MAX_MBOX_LENGTH := v], head, tail + 1) == RingBytes(c, head, tail) + [v]
  {
    var r, w := RingBytes(c, head, tail), RingBytes(c[tail % MAX_MBOX_LENGTH := v], head, tail + 1);
    forall k | 0 <= k < tail - head ensures w[k] == r[k] {
      assert (head + k) % MAX_MBOX_LENGTH != tail % MAX_MBOX_LENGTH;
    }
  }

  /** Storing a message that fits appends it to the bytes waiting. */
  lemma {:induction false} RingStored(c: Ring, head: nat, tail: nat, m: Message)
    requires head <= tail && tail + |m| <= head + MAX_MBOX_LENGTH
    ensures RingBytes(Stored(c, tail, m), head, tail + |m|) == RingBytes(c, head, tail) + m
    decreases |m|
  {
    if m != [] {
      RingPut(c, head, tail, m[0]);
      RingStored(c[tail % MAX_MBOX_LENGTH := m[0]], head, tail + 1, m[1..]);
      assert [m[0]] + m[1..] == m;
    } else {
      assert RingBytes(c, head, tail) + m == RingBytes(c, head, tail);
    }
  }

  lemma RingTaken(c: Ring, head: nat, tail: nat, n: nat)
    requires head + n <= tail
    ensures RingBytes(c, head, head + n) + RingBytes(c, head + n, tail) == RingBytes(c, head, tail)
  {
  }

  // ---------- Waking ----------

  /** The queue once its first process, if any, was made ready. */
  function Rest(q: seq<Pid>): seq<Pid> {
    if q == [] then q else q[1..]
  }

  function First(q: seq<Pid>): seq<Pid> {
    if q == [] then q else [q[0]]
  }

  /** A process inside a call that waits in none of the queues. */
  predicate Ready(s: Mailbox, p: Pid) {
    p in s.pcs && p !in s.lockQ && p !in s.fullQ && p !in s.emptyQ
  }

  /** Giving the lock back. */
  function Unlock(s: Mailbox): Mailbox {
    s.(locked := false, lockQ := Rest(s.lockQ), ready := s.ready + First(s.lockQ))
  }

  // ---------- Steps ----------

  predicate Fits(s: Mailbox, msg: Message) {
    s.tail - s.head + |msg| <= MAX_MBOX_LENGTH
  }

  /** A sender past the lock that finds no room: unlock and wait. */
  function SendBlock(s: Mailbox, p: Pid, msg: Message): Mailbox {
    var u := Unlock(s);
    u.(emptyQ := u.emptyQ + [p], pcs := u.pcs[p := SendWait(msg)])
  }

  /** A sender past the lock that finds room: store, wake all receivers if that
      filled the ring, unlock, wake one receiver more, and leave. */
  function SendMove(s: Mailbox, p: Pid, msg: Message): Mailbox {
    var u := s.(content := Stored(s.content, s.tail, msg), tail := s.tail + |msg|, sent := s.sent + [msg]);
    var v := Unlock(if u.head + MAX_MBOX_LENGTH == u.tail then u.(fullQ := [], ready := u.ready + u.fullQ) else u);
    v.(users := v.users - 1, fullQ := Rest(v.fullQ), ready := v.ready + First(v.fullQ), pcs := v.pcs - {p})
  }

  function SendOn(s: Mailbox, p: Pid, msg: Message): Mailbox {
    if Fits(s, msg) then SendMove(s, p, msg) else SendBlock(s, p, msg)
  }

  /** A receiver past the lock that finds too few bytes: unlock and wait. */
  function RecvBlock(s: Mailbox, p: Pid, n: nat): Mailbox {
    var u := Unlock(s);
    u.(fullQ := u.fullQ + [p], pcs := u.pcs[p := RecvWait(n)])
  }

  /** A receiver past the lock that finds enough: take, wake all senders if that
      emptied the ring, unlock, wake one sender more, and leave. */
  function RecvMove(s: Mailbox, p: Pid, n: nat): Mailbox
    requires s.head + n <= s.tail
  {
    var u := s.(head := s.head + n, got := s.got + [RingBytes(s.content, s.head, s.head + n)]);
    var v := Unlock(if u.head == u.tail then u.(emptyQ := [], ready := u.ready + u.emptyQ) else u);
    v.(users := v.users - 1, emptyQ := Rest(v.emptyQ), ready := v.ready + First(v.emptyQ), pcs := v.pcs - {p})
  }

  function RecvOn(s: Mailbox, p: Pid, n: nat): Mailbox {
    if s.head + n <= s.tail then RecvMove(s, p, n) else RecvBlock(s, p, n)
  }

  /** Taking the lock, or queueing for it, before going on. */
  function SendLocking(s: Mailbox, p: Pid, msg: Message): Mailbox {
    if s.locked then s.(lockQ := s.lockQ + [p], pcs := s.pcs[p := SendLock(msg)])
    else SendOn(s.(locked := true), p, msg)
  }

  function RecvLocking(s: Mailbox, p: Pid, n: nat): Mailbox {
    if s.locked then s.(lockQ := s.lockQ + [p], pcs := s.pcs[p := RecvLock(n)])
    else RecvOn(s.(locked := true), p, n)
  }

  datatype Event = Send(p: Pid, msg: Message) | Recv(p: Pid, n: nat) | Resume(p: Pid) | Kill(p: Pid)

  predicate Enabled(s: Mailbox, e: Event) {
    match e
    case Send(p, msg) => p !in s.pcs && s.tail + |msg| < INT_LIMIT
    case Recv(p, _) => p !in s.pcs
    case Resume(p) => Ready(s, p) &&
                      (s.pcs[p].SendWait? || s.pcs[p].SendLock? ==> s.tail + |s.pcs[p].msg| < INT_LIMIT)
    case Kill(p) => p in s.pcs
  }

  function Without(q: seq<Pid>, p: Pid): (r: seq<Pid>)
    ensures |r| <= |q| && p !in r && forall x :: x in q && x != p ==> x in r
    ensures forall x :: x in r ==> x in q
  {
    if q == [] then [] else (if q[0] == p then [] else [q[0]]) + Without(q[1..], p)
  }

  function Step(s: Mailbox, e: Event): Mailbox
    requires Enabled(s, e)
  {
    match e
    case Send(p, msg) => SendLocking(s.(users := s.users + 1), p, msg)
    case Recv(p, n) => RecvLocking(s.(users := s.users + 1), p, n)
    case Resume(p) =>
      (var u := s.(ready := Without(s.ready, p));
       match s.pcs[p]
       case SendWait(msg) => SendLocking(u, p, msg)
       case SendLock(msg) => SendOn(u, p, msg)
       case RecvWait(n) => RecvLocking(u, p, n)
       case RecvLock(n) => RecvOn(u, p, n))
    case Kill(p) =>
      s.(pcs := s.pcs - {p}, ready := Without(s.ready, p), lockQ := Without(s.lockQ, p),
         fullQ := Without(s.fullQ, p), emptyQ := Without(s.emptyQ, p))
  }

  /** The state after a run from the empty mailbox, if every event could happen. */
  function Run(es: seq<Event>): Option<Mailbox>
  {
    if es == [] then Some(Init()) else
    var n := |es| - 1;
    var r := Run(es[..n]);
    if r.Some? && Enabled(r.value, es[n]) then Some(Step(r.value, es[n])) else None
  }

  // ---------- What every run keeps ----------

  function Flatten(ms: seq<Message>): Message {
    if ms == [] then [] else Flatten(ms[..|ms| - 1]) + ms[|ms| - 1]
  }

  lemma FlattenAppend(ms: seq<Message>, m: Message)
    ensures Flatten(ms + [m]) == Flatten(ms) + m
  {
    assert (ms + [m])[..|ms|] == ms;
  }

  ghost predicate Distinct(q: seq<Pid>) {
    forall i, j :: 0 <= i < j < |q| ==> q[i] != q[j]
  }

  /** Each process inside a call is on at most one of the two queues, once, and
      stopped where that queue's processes stop. */
  ghost predicate Placed(fullQ: seq<Pid>, emptyQ: seq<Pid>, pcs: map<Pid, Pc>) {
    && Distinct(fullQ) && Distinct(emptyQ)
    && (forall p :: p in fullQ ==> p in pcs && pcs[p].RecvWait?)
    && (forall p :: p in emptyQ ==> p in pcs && pcs[p].SendWait?)
    && (forall p :: p in pcs ==> pcs[p].SendWait? || pcs[p].RecvWait?)
  }

  /** The mailbox is a byte stream; between steps nobody holds its lock and
      nobody waits for it. */
  ghost predicate Stream(s: Mailbox) {
    && 0 <= s.tail - s.head <= MAX_MBOX_LENGTH
    && Flatten(s.sent) == Flatten(s.got) + RingBytes(s.content, s.head, s.tail)
    && |Flatten(s.got)| == s.head && |Flatten(s.sent)| == s.tail
  }

  ghost predicate Safe(s: Mailbox) {
    Stream(s) && Placed(s.fullQ, s.emptyQ, s.pcs) && !s.locked && s.lockQ == []
  }

  /** A process that runs is on no queue. */
  ghost predicate Running(s: Mailbox, p: Pid) {
    Placed(s.fullQ, s.emptyQ, s.pcs) && p !in s.fullQ && p !in s.emptyQ && s.lockQ == []
  }

  lemma PlacedRest(fullQ: seq<Pid>, emptyQ: seq<Pid>, pcs: map<Pid, Pc>)
    requires Placed(fullQ, emptyQ, pcs)
    ensures Placed([], emptyQ, pcs) && Placed(Rest(fullQ), emptyQ, pcs)
    ensures Placed(fullQ, [], pcs) && Placed(fullQ, Rest(emptyQ), pcs)
  {
  }

  lemma PlacedLeave(fullQ: seq<Pid>, emptyQ: seq<Pid>, pcs: map<Pid, Pc>, p: Pid)
    requires Placed(fullQ, emptyQ, pcs) && p !in fullQ && p !in emptyQ
    ensures Placed(fullQ, emptyQ, pcs - {p})
  {
  }

  lemma PlacedWait(fullQ: seq<Pid>, emptyQ: seq<Pid>, pcs: map<Pid, Pc>, p: Pid, msg: Message, n: nat)
    requires Placed(fullQ, emptyQ, pcs) && p !in fullQ && p !in emptyQ
    ensures Placed(fullQ, emptyQ + [p], pcs[p := SendWait(msg)])
    ensures Placed(fullQ + [p], emptyQ, pcs[p := RecvWait(n)])
  {
  }

  lemma SendMoveSafe(s: Mailbox, p: Pid, msg: Message)
    requires Stream(s) && Running(s, p) && Fits(s, msg)
    ensures Safe(SendMove(s, p, msg))
  {
    hide Placed, RingBytes, Stored, Flatten;
    FlattenAppend(s.sent, msg);
    RingStored(s.content, s.head, s.tail, msg);
    PlacedRest(s.fullQ, s.emptyQ, s.pcs);
    PlacedRest([], s.emptyQ, s.pcs);
    PlacedLeave([], s.emptyQ, s.pcs, p);
    PlacedLeave(Rest(s.fullQ), s.emptyQ, s.pcs, p);
    assert Flatten(s.got) + RingBytes(s.content, s.head, s.tail) + msg == Flatten(s.got) + (RingBytes(s.content, s.head, s.tail) + msg);
  }

  lemma RecvMoveSafe(s: Mailbox, p: Pid, n: nat)
    requires Stream(s) && Running(s, p) && s.head + n <= s.tail
    ensures Safe(RecvMove(s, p, n))
  {
    hide Placed, RingBytes, Stored, Flatten;
    var taken := RingBytes(s.content, s.head, s.head + n);
    FlattenAppend(s.got, taken);
    RingTaken(s.content, s.head, s.tail, n);
    PlacedRest(s.fullQ, s.emptyQ, s.pcs);
    PlacedRest(s.fullQ, [], s.pcs);
    PlacedLeave(s.fullQ, [], s.pcs, p);
    PlacedLeave(s.fullQ, Rest(s.emptyQ), s.pcs, p);
    assert Flatten(s.got) + (taken + RingBytes(s.content, s.head + n, s.tail)) == (Flatten(s.got) + taken) + RingBytes(s.content, s.head + n, s.tail);
  }

  lemma OnSafe(s: Mailbox, p: Pid, msg: Message, n: nat)
    requires Stream(s) && Running(s, p)
    ensures Safe(SendOn(s, p, msg)) && Safe(RecvOn(s, p, n))
  {
    hide Placed, RingBytes, Flatten, SendMove, RecvMove;
    PlacedWait(s.fullQ, s.emptyQ, s.pcs, p, msg, n);
    if Fits(s, msg) { SendMoveSafe(s, p, msg); }
    if s.head + n <= s.tail { RecvMoveSafe(s, p, n); }
  }

  lemma {:induction false} WithoutDistinct(q: seq<Pid>, p: Pid)
    requires Distinct(q)
    ensures Distinct(Without(q, p))
  {
    if q != [] {
      assert q[0] !in q[1..];
      WithoutDistinct(q[1..], p);
    }
  }

  lemma KillSafe(s: Mailbox, p: Pid)
    requires Safe(s) && p in s.pcs
    ensures Safe(Step(s, Kill(p)))
  {
    WithoutDistinct(s.fullQ, p);
    WithoutDistinct(s.emptyQ, p);
  }

  lemma StepSafe(s: Mailbox, e: Event)
    requires Safe(s) && Enabled(s, e)
    ensures Safe(Step(s, e))
  {
    hide SendOn, RecvOn, Flatten, RingBytes, Without, Distinct;
    match e
    case Send(p, msg) => OnSafe(s.(users := s.users + 1, locked := true), p, msg, 0);
    case Recv(p, n) => OnSafe(s.(users := s.users + 1, locked := true), p, [], n);
    case Resume(p) =>
      var pc := s.pcs[p];
      OnSafe(s.(locked := true, ready := Without(s.ready, p)), p, if pc.SendWait? then pc.msg else [], if pc.RecvWait? then pc.len else 0);
    case Kill(p) => KillSafe(s, p);
  }

  /** In every run, kills included, the bytes received followed by the bytes in
      the ring are the bytes sent, message by message, and whenever a process
      enters or resumes the lock is free with nobody queued for it. */
  lemma {:induction false} RunSafe(es: seq<Event>)
    requires Run(es).Some?
    ensures Safe(Run(es).value)
  {
    if es != [] {
      RunSafe(es[..|es| - 1]);
      StepSafe(Run(es[..|es| - 1]).value, es[|es| - 1]);
    } else {
      assert Flatten([]) == [];
    }
  }

  // ---------- The ready queue ----------

  /** Of the processes inside calls, other than the running one, the ready queue
      holds exactly those in no wait queue, once each. */
  ghost predicate Readied(ready: seq<Pid>, fullQ: seq<Pid>, emptyQ: seq<Pid>, pcs: map<Pid, Pc>, running: Option<Pid>) {
    && Distinct(ready)
    && (forall p :: p in ready <==> p in pcs && p !in fullQ && p !in emptyQ && running != Some(p))
  }

  lemma DistinctJoin(a: seq<Pid>, b: seq<Pid>)
    requires Distinct(a) && Distinct(b) && forall p :: p in a ==> p !in b
    ensures Distinct(a + b)
  {
    var c := a + b;
    forall i, j | 0 <= i < j < |c| ensures c[i] != c[j] {
      if i < |a| <= j {
        assert c[i] in a && c[j] in b;
      }
    }
  }

  lemma ReadiedFull(ready: seq<Pid>, fullQ: seq<Pid>, emptyQ: seq<Pid>, pcs: map<Pid, Pc>, running: Option<Pid>)
    requires Readied(ready, fullQ, emptyQ, pcs, running) && Placed(fullQ, emptyQ, pcs)
    requires running.Some? ==> running.value !in fullQ
    ensures Readied(ready + fullQ, [], emptyQ, pcs, running)
    ensures Readied(ready + First(fullQ), Rest(fullQ), emptyQ, pcs, running)
  {
    DistinctJoin(ready, fullQ);
    DistinctJoin(ready, First(fullQ));
  }

  lemma ReadiedEmpty(ready: seq<Pid>, fullQ: seq<Pid>, emptyQ: seq<Pid>, pcs: map<Pid, Pc>, running: Option<Pid>)
    requires Readied(ready, fullQ, emptyQ, pcs, running) && Placed(fullQ, emptyQ, pcs)
    requires running.Some? ==> running.value !in emptyQ
    ensures Readied(ready + emptyQ, fullQ, [], pcs, running)
    ensures Readied(ready + First(emptyQ), fullQ, Rest(emptyQ), pcs, running)
  {
    DistinctJoin(ready, emptyQ);
    DistinctJoin(ready, First(emptyQ));
  }

  lemma ReadiedStop(ready: seq<Pid>, fullQ: seq<Pid>, emptyQ: seq<Pid>, pcs: map<Pid, Pc>, p: Pid, msg: Message, n: nat)
    requires Readied(ready, fullQ, emptyQ, pcs, Some(p))
    ensures Readied(ready, fullQ, emptyQ, pcs - {p}, None)
    ensures Readied(ready, fullQ + [p], emptyQ, pcs[p := RecvWait(n)], None)
    ensures Readied(ready, fullQ, emptyQ + [p], pcs[p := SendWait(msg)], None)
  {
    hide Distinct;
    var f, g := pcs[p := RecvWait(n)], pcs[p := SendWait(msg)];
    assert forall q :: q in fullQ + [p] <==> q in fullQ || q == p;
    assert forall q :: q in emptyQ + [p] <==> q in emptyQ || q == p;
  }

  ghost predicate ReadyExact(s: Mailbox, running: Option<Pid>) {
    Readied(s.ready, s.fullQ, s.emptyQ, s.pcs, running)
  }

  lemma SendOnReady(s: Mailbox, p: Pid, msg: Message)
    requires Running(s, p) && ReadyExact(s, Some(p))
    ensures ReadyExact(SendOn(s, p, msg), None)
  {
    hide Readied, Placed, Stored;
    PlacedRest(s.fullQ, s.emptyQ, s.pcs);
    ReadiedFull(s.ready, s.fullQ, s.emptyQ, s.pcs, Some(p));
    ReadiedFull(s.ready + s.fullQ, [], s.emptyQ, s.pcs, Some(p));
    ReadiedStop(s.ready, s.fullQ, s.emptyQ, s.pcs, p, msg, 0);
    ReadiedStop(s.ready + s.fullQ, [], s.emptyQ, s.pcs, p, msg, 0);
    ReadiedStop(s.ready + First(s.fullQ), Rest(s.fullQ), s.emptyQ, s.pcs, p, msg, 0);
    assert s.ready + [] == s.ready && s.ready + s.fullQ + [] == s.ready + s.fullQ;
  }

  lemma RecvOnReady(s: Mailbox, p: Pid, n: nat)
    requires Running(s, p) && ReadyExact(s, Some(p))
    ensures ReadyExact(RecvOn(s, p, n), None)
  {
    hide Readied, Placed, RingBytes;
    PlacedRest(s.fullQ, s.emptyQ, s.pcs);
    ReadiedEmpty(s.ready, s.fullQ, s.emptyQ, s.pcs, Some(p));
    ReadiedEmpty(s.ready + s.emptyQ, s.fullQ, [], s.pcs, Some(p));
    ReadiedStop(s.ready, s.fullQ, s.emptyQ, s.pcs, p, [], n);
    ReadiedStop(s.ready + s.emptyQ, s.fullQ, [], s.pcs, p, [], n);
    ReadiedStop(s.ready + First(s.emptyQ), s.fullQ, Rest(s.emptyQ), s.pcs, p, [], n);
    assert s.ready + [] == s.ready && s.ready + s.emptyQ + [] == s.ready + s.emptyQ;
  }

  lemma EnterReady(s: Mailbox, p: Pid)
    requires Safe(s) && ReadyExact(s, None) && (p !in s.pcs || Ready(s, p))
    ensures Readied(Without(s.ready, p), s.fullQ, s.emptyQ, s.pcs, Some(p))
    ensures p !in s.pcs ==> Readied(s.ready, s.fullQ, s.emptyQ, s.pcs, Some(p))
  {
    hide Stream;
    WithoutDistinct(s.ready, p);
  }

  lemma KillReady(s: Mailbox, p: Pid)
    requires Safe(s) && ReadyExact(s, None)
    ensures Readied(Without(s.ready, p), Without(s.fullQ, p), Without(s.emptyQ, p), s.pcs - {p}, None)
  {
    hide Stream, Placed;
    WithoutDistinct(s.ready, p);
  }

  lemma StepReady(s: Mailbox, e: Event)
    requires Safe(s) && Enabled(s, e) && ReadyExact(s, None)
    ensures ReadyExact(Step(s, e), None)
  {
    hide SendOn, RecvOn, Stream, Readied, Distinct;
    match e
    case Send(p, msg) =>
      EnterReady(s, p);
      SendOnReady(s.(users := s.users + 1, locked := true), p, msg);
    case Recv(p, n) =>
      EnterReady(s, p);
      RecvOnReady(s.(users := s.users + 1, locked := true), p, n);
    case Resume(p) =>
      EnterReady(s, p);
      var u := s.(locked := true, ready := Without(s.ready, p));
      if s.pcs[p].SendWait? { SendOnReady(u, p, s.pcs[p].msg); } else { RecvOnReady(u, p, s.pcs[p].len); }
    case Kill(p) => KillReady(s, p);
  }

  /** In every run the mailbox calls have put on the ready queue, once each,
      exactly the processes that are inside a call and wait on none of its queues. */
  lemma {:induction false} RunReady(es: seq<Event>)
    requires Run(es).Some?
    ensures ReadyExact(Run(es).value, None)
  {
    if es != [] {
      RunReady(es[..|es| - 1]);
      RunSafe(es[..|es| - 1]);
      StepReady(Run(es[..|es| - 1]).value, es[|es| - 1]);
    }
  }

  /** Without kills the user count is the number of processes inside calls. */
  lemma {:induction false} RunUsers(es: seq<Event>)
    requires Run(es).Some? && forall i :: 0 <= i < |es| ==> !es[i].Kill?
    ensures Run(es).value.users == |Run(es).value.pcs|
  {
    if es != [] {
      RunUsers(es[..|es| - 1]);
      RunSafe(es[..|es| - 1]);
      StepUsers(Run(es[..|es| - 1]).value, es[|es| - 1]);
    }
  }

  lemma PcsSize(pcs: map<Pid, Pc>, p: Pid, pc: Pc)
    ensures |pcs[p := pc]| == |pcs - {p}| + 1
    ensures |pcs| == |pcs - {p}| + if p in pcs then 1 else 0
  {
    assert pcs[p := pc] == (pcs - {p})[p := pc];
    if p in pcs {
      assert pcs == (pcs - {p})[p := pcs[p]];
    } else {
      assert pcs == pcs - {p};
    }
  }

  lemma OnPcs(s: Mailbox, p: Pid, msg: Message, n: nat)
    ensures SendOn(s, p, msg).pcs == (if Fits(s, msg) then s.pcs - {p} else s.pcs[p := SendWait(msg)])
    ensures SendOn(s, p, msg).users == s.users - if Fits(s, msg) then 1 else 0
    ensures RecvOn(s, p, n).pcs == (if s.head + n <= s.tail then s.pcs - {p} else s.pcs[p := RecvWait(n)])
    ensures RecvOn(s, p, n).users == s.users - if s.head + n <= s.tail then 1 else 0
  {
    hide Stored, RingBytes, Rest, First, Fits;
  }

  /** The running process is counted until it leaves. */
  lemma OnUsers(s: Mailbox, p: Pid, msg: Message, n: nat)
    requires s.users == |s.pcs - {p}| + 1
    ensures SendOn(s, p, msg).users == |SendOn(s, p, msg).pcs|
    ensures RecvOn(s, p, n).users == |RecvOn(s, p, n).pcs|
  {
    hide SendOn, RecvOn, Fits;
    OnPcs(s, p, msg, n);
    PcsSize(s.pcs, p, SendWait(msg));
    PcsSize(s.pcs, p, RecvWait(n));
  }

  lemma StepUsers(s: Mailbox, e: Event)
    requires Safe(s) && Enabled(s, e) && !e.Kill? && s.users == |s.pcs|
    ensures Step(s, e).users == |Step(s, e).pcs|
  {
    hide Stream, Distinct, SendOn, RecvOn, Without;
    PcsSize(s.pcs, e.p, RecvWait(0));
    match e
    case Send(p, msg) => OnUsers(s.(users := s.users + 1, locked := true), p, msg, 0);
    case Recv(p, n) => OnUsers(s.(users := s.users + 1, locked := true), p, [], n);
    case Resume(p) =>
      var u := s.(locked := true, ready := Without(s.ready, p));
      var pc := s.pcs[p];
      OnUsers(u, p, if pc.SendWait? then pc.msg else [], if pc.RecvWait? then pc.len else 0);
  }

  // ---------- Messages of one length ----------

  predicate OfLength(e: Event, l: nat) {
    match e
    case Send(_, msg) => |msg| == l
    case Recv(_, n) => n == l
    case Resume(_) => true
    case Kill(_) => true
  }

  ghost predicate AllOfLength(es: seq<Event>, l: nat) {
    forall i :: 0 <= i < |es| ==> OfLength(es[i], l)
  }

  ghost predicate AllLong(ms: seq<Message>, l: nat) {
    forall i :: 0 <= i < |ms| ==> |ms[i]| == l
  }

  ghost predicate PcOfLength(pc: Pc, l: nat) {
    (pc.SendWait? && |pc.msg| == l) || (pc.RecvWait? && pc.len == l)
  }

  /** Every message and every waiting request has length l, and the messages
      that came out are the first that went in. */
  ghost predicate Uniform(s: Mailbox, l: nat)
    ensures Uniform(s, l) ==> l > 0
  {
    && 1 <= l <= MAX_MBOX_LENGTH
    && (forall p :: p in s.pcs ==> PcOfLength(s.pcs[p], l))
    && AllLong(s.sent, l) && AllLong(s.got, l)
    && |s.got| <= |s.sent| && s.got == s.sent[..|s.got|]
  }

  /** The bytes of n messages of length l. */
  function Span(l: nat, n: nat): (r: nat)
    ensures n > 0 ==> r >= l
  {
    if n == 0 then 0 else Span(l, n - 1) + l
  }

  lemma {:induction false} SpanSum(l: nat, m: nat, n: nat)
    ensures Span(l, m + n) == Span(l, m) + Span(l, n)
  {
    if n > 0 {
      SpanSum(l, m, n - 1);
    }
  }

  lemma {:induction false} FlattenLength(ms: seq<Message>, l: nat)
    requires AllLong(ms, l)
    ensures |Flatten(ms)| == Span(l, |ms|)
  {
    if ms != [] {
      FlattenLength(ms[..|ms| - 1], l);
    }
  }

  /** With one length, message k of a stream is the k-th stretch of its bytes. */
  lemma {:induction false} FlattenAt(ms: seq<Message>, l: nat, k: nat)
    requires AllLong(ms, l) && k < |ms|
    ensures Span(l, k) + l <= |Flatten(ms)|
    ensures Flatten(ms)[Span(l, k)..Span(l, k) + l] == ms[k]
  {
    var n := |ms| - 1;
    FlattenLength(ms[..n], l);
    if k < n {
      FlattenAt(ms[..n], l, k);
    }
  }

  /** Processes made ready that have yet to run. */
  ghost function ReadyReceivers(s: Mailbox): set<Pid> {
    Receivers(s.fullQ, s.pcs)
  }

  ghost function ReadySenders(s: Mailbox): set<Pid> {
    Senders(s.emptyQ, s.pcs)
  }

  ghost function Receivers(q: seq<Pid>, pcs: map<Pid, Pc>): set<Pid> {
    set p | p in pcs && pcs[p].RecvWait? && p !in q
  }

  ghost function Senders(q: seq<Pid>, pcs: map<Pid, Pc>): set<Pid> {
    set p | p in pcs && pcs[p].SendWait? && p !in q
  }

  lemma WakeReceiver(q: seq<Pid>, pcs: map<Pid, Pc>)
    requires q != [] && Distinct(q) && q[0] in pcs && pcs[q[0]].RecvWait?
    ensures |Receivers(Rest(q), pcs)| == |Receivers(q, pcs)| + 1
  {
    assert Receivers(Rest(q), pcs) == Receivers(q, pcs) + {q[0]};
  }

  lemma WakeSender(q: seq<Pid>, pcs: map<Pid, Pc>)
    requires q != [] && Distinct(q) && q[0] in pcs && pcs[q[0]].SendWait?
    ensures |Senders(Rest(q), pcs)| == |Senders(q, pcs)| + 1
  {
    assert Senders(Rest(q), pcs) == Senders(q, pcs) + {q[0]};
  }

  lemma LeaveReceivers(q: seq<Pid>, pcs: map<Pid, Pc>, p: Pid)
    ensures |Receivers(q, pcs - {p})| >= |Receivers(q, pcs)| - 1
    ensures (p in pcs ==> !pcs[p].RecvWait?) ==> Receivers(q, pcs - {p}) == Receivers(q, pcs)
  {
    assert Receivers(q, pcs - {p}) == Receivers(q, pcs) - {p};
  }

  lemma LeaveSenders(q: seq<Pid>, pcs: map<Pid, Pc>, p: Pid)
    ensures |Senders(q, pcs - {p})| >= |Senders(q, pcs)| - 1
    ensures (p in pcs ==> !pcs[p].SendWait?) ==> Senders(q, pcs - {p}) == Senders(q, pcs)
  {
    assert Senders(q, pcs - {p}) == Senders(q, pcs) - {p};
  }

  ghost function Available(s: Mailbox): int {
    |s.sent| - |s.got|
  }

  /** How many messages of length l fit into x bytes. */
  function HowMany(x: int, l: nat): nat
    requires l > 0
    decreases x
  {
    if x < l then 0 else HowMany(x - l, l) + 1
  }

  ghost function Room(s: Mailbox, l: nat): nat
    requires l > 0
  {
    HowMany(MAX_MBOX_LENGTH - (s.tail - s.head), l)
  }

  /** No message waits for a queued receiver, and no room for a queued sender,
      unless enough processes that will take it are ready already. */
  ghost predicate Ample(s: Mailbox, l: nat) {
    && Uniform(s, l)
    && (s.fullQ != [] ==> Available(s) <= |ReadyReceivers(s)|)
    && (s.emptyQ != [] ==> Room(s, l) <= |ReadySenders(s)|)
  }

  ghost predicate Live(s: Mailbox, l: nat) {
    Safe(s) && Ample(s, l)
  }

  /** Between steps the bytes in the ring are whole messages. */
  lemma RingHolds(s: Mailbox, l: nat)
    requires Stream(s) && Uniform(s, l)
    ensures s.tail - s.head == Span(l, Available(s))
    ensures Available(s) == 0 <==> s.tail - s.head < l
  {
    hide Flatten, RingBytes;
    FlattenLength(s.sent, l);
    FlattenLength(s.got, l);
    SpanSum(l, |s.got|, Available(s));
  }

  /** What a receiver takes is the oldest message that went in. */
  lemma OldestFirst(s: Mailbox, l: nat)
    requires Stream(s) && Uniform(s, l) && s.head + l <= s.tail
    ensures |s.got| < |s.sent| && RingBytes(s.content, s.head, s.head + l) == s.sent[|s.got|]
  {
    RingHolds(s, l);
    FlattenLength(s.got, l);
    FlattenAt(s.sent, l, |s.got|);
    var r := RingBytes(s.content, s.head, s.tail);
    assert Flatten(s.sent)[s.head..s.head + l] == r[..l];
    RingTaken(s.content, s.head, s.tail, l);
  }

  lemma SendMoveUniform(s: Mailbox, p: Pid, msg: Message, l: nat)
    requires Uniform(s, l) && |msg| == l
    ensures Uniform(SendMove(s, p, msg), l)
  {
    hide Stored, PcOfLength;
  }

  lemma RecvMoveUniform(s: Mailbox, p: Pid, l: nat)
    requires Stream(s) && Uniform(s, l) && s.head + l <= s.tail
    ensures Uniform(RecvMove(s, p, l), l)
  {
    hide Stream, RingBytes, PcOfLength;
    OldestFirst(s, l);
  }

  lemma SendMoveReady(s: Mailbox, p: Pid, msg: Message)
    requires Running(s, p) && (p in s.pcs ==> s.pcs[p].SendWait?)
    ensures
      var t := SendMove(s, p, msg);
      && |ReadySenders(t)| >= |ReadySenders(s)| - 1
      && t.emptyQ == s.emptyQ && (t.fullQ != [] ==> s.fullQ != [] && |ReadyReceivers(t)| == |ReadyReceivers(s)| + 1)
  {
    hide Stored, Receivers, Senders;
    LeaveSenders(s.emptyQ, s.pcs, p);
    if s.fullQ != [] {
      WakeReceiver(s.fullQ, s.pcs);
      LeaveReceivers(Rest(s.fullQ), s.pcs, p);
    }
  }

  lemma RecvMoveReady(s: Mailbox, p: Pid, n: nat)
    requires Running(s, p) && (p in s.pcs ==> s.pcs[p].RecvWait?) && s.head + n <= s.tail
    ensures
      var t := RecvMove(s, p, n);
      && |ReadyReceivers(t)| >= |ReadyReceivers(s)| - 1
      && t.fullQ == s.fullQ && (t.emptyQ != [] ==> s.emptyQ != [] && |ReadySenders(t)| == |ReadySenders(s)| + 1)
  {
    hide RingBytes, Receivers, Senders;
    LeaveReceivers(s.fullQ, s.pcs, p);
    if s.emptyQ != [] {
      WakeSender(s.emptyQ, s.pcs);
      LeaveSenders(Rest(s.emptyQ), s.pcs, p);
    }
  }

  lemma SendMoveAmple(s: Mailbox, p: Pid, msg: Message, l: nat)
    requires Running(s, p) && Ample(s, l) && |msg| == l && Fits(s, msg)
    requires p in s.pcs ==> s.pcs[p].SendWait?
    ensures Ample(SendMove(s, p, msg), l)
  {
    hide Running, Stored, ReadySenders, ReadyReceivers, Uniform;
    SendMoveUniform(s, p, msg, l);
    SendMoveReady(s, p, msg);
  }

  lemma RecvMoveAmple(s: Mailbox, p: Pid, l: nat)
    requires Stream(s) && Running(s, p) && Ample(s, l) && s.head + l <= s.tail
    requires p in s.pcs ==> s.pcs[p].RecvWait?
    ensures Ample(RecvMove(s, p, l), l)
  {
    hide Running, RingBytes, ReadySenders, ReadyReceivers, Uniform, Stream;
    RecvMoveUniform(s, p, l);
    RecvMoveReady(s, p, l);
  }

  lemma SendBlockAmple(s: Mailbox, p: Pid, msg: Message, l: nat)
    requires Running(s, p) && Ample(s, l) && |msg| == l && !Fits(s, msg)
    requires p in s.pcs ==> s.pcs[p].SendWait?
    ensures Ample(SendBlock(s, p, msg), l)
  {
    var t := SendBlock(s, p, msg);
    assert ReadyReceivers(t) == ReadyReceivers(s);
  }

  lemma RecvBlockAmple(s: Mailbox, p: Pid, l: nat)
    requires Stream(s) && Running(s, p) && Ample(s, l) && s.head + l > s.tail
    requires p in s.pcs ==> s.pcs[p].RecvWait?
    ensures Ample(RecvBlock(s, p, l), l)
  {
    RingHolds(s, l);
    hide Stream, Flatten, RingBytes;
    var t := RecvBlock(s, p, l);
    assert ReadySenders(t) == ReadySenders(s);
  }

  lemma SendOnLive(s: Mailbox, p: Pid, msg: Message, l: nat)
    requires Stream(s) && Running(s, p) && Ample(s, l) && |msg| == l
    requires p in s.pcs ==> s.pcs[p].SendWait?
    ensures Live(SendOn(s, p, msg), l)
  {
    hide Stream, Ample, Running, Safe, SendMove, SendBlock, RecvOn;
    OnSafe(s, p, msg, 0);
    if Fits(s, msg) { SendMoveAmple(s, p, msg, l); } else { SendBlockAmple(s, p, msg, l); }
  }

  lemma RecvOnLive(s: Mailbox, p: Pid, l: nat)
    requires Stream(s) && Running(s, p) && Ample(s, l)
    requires p in s.pcs ==> s.pcs[p].RecvWait?
    ensures Live(RecvOn(s, p, l), l)
  {
    hide Stream, Ample, Running, Safe, RecvMove, RecvBlock, SendOn;
    OnSafe(s, p, [], l);
    if s.head + l <= s.tail { RecvMoveAmple(s, p, l); } else { RecvBlockAmple(s, p, l); }
  }

  /** Entering a call changes none of the counts. */
  lemma EnterAmple(s: Mailbox, users: int, ready: seq<Pid>, l: nat)
    requires Live(s, l)
    ensures Stream(s.(users := users, locked := true, ready := ready))
    ensures Ample(s.(users := users, locked := true, ready := ready), l)
  {
    var t := s.(users := users, locked := true, ready := ready);
    hide Flatten, RingBytes, Placed;
    assert ReadyReceivers(t) == ReadyReceivers(s) && ReadySenders(t) == ReadySenders(s);
  }

  /** Killing p costs nobody a wakeup: p was not woken, or nobody is left to take
      over what p was woken for, or others are woken who will. */
  ghost predicate Harmless(s: Mailbox, p: Pid) {
    p in s.pcs ==>
      && (p in ReadyReceivers(s) && s.fullQ != [] ==> Available(s) < |ReadyReceivers(s)|)
      && (p in ReadySenders(s) && s.emptyQ != [] && s.pcs[p].msg != [] ==> Room(s, |s.pcs[p].msg|) < |ReadySenders(s)|)
  }

  lemma KillUniform(s: Mailbox, p: Pid, l: nat)
    requires Uniform(s, l) && p in s.pcs
    ensures Uniform(Step(s, Kill(p)), l)
  {
    hide PcOfLength;
  }

  /** The woken receivers and senders after a kill: those before, but for p. */
  lemma KillWoken(s: Mailbox, p: Pid)
    requires Safe(s) && p in s.pcs
    ensures
      var t := Step(s, Kill(p));
      && ReadyReceivers(t) == ReadyReceivers(s) - {p} && ReadySenders(t) == ReadySenders(s) - {p}
      && (p in ReadyReceivers(s) ==> t.fullQ == s.fullQ && p !in ReadySenders(s) && p !in s.emptyQ)
      && (p in ReadySenders(s) ==> t.emptyQ == s.emptyQ && p !in s.fullQ)
      && (s.fullQ == [] ==> t.fullQ == []) && (s.emptyQ == [] ==> t.emptyQ == [])
      && t.sent == s.sent && t.got == s.got && t.head == s.head && t.tail == s.tail
  {
    hide Stream, Distinct;
    WithoutAbsent(s.fullQ, p);
    WithoutAbsent(s.emptyQ, p);
  }

  lemma {:induction false} WithoutAbsent(q: seq<Pid>, p: Pid)
    ensures p !in q ==> Without(q, p) == q
  {
    if q != [] {
      WithoutAbsent(q[1..], p);
    }
  }

  /** A kill keeps the promise that no wakeup is lost exactly if it is harmless. */
  lemma KillLiveIff(s: Mailbox, p: Pid, l: nat)
    requires Live(s, l) && p in s.pcs
    ensures Live(Step(s, Kill(p)), l) <==> Harmless(s, p)
  {
    hide Stream, ReadyReceivers, ReadySenders, Room, Distinct, Step, Uniform;
    KillSafe(s, p);
    KillUniform(s, p, l);
    KillWoken(s, p);
    KillLength(s, p, l);
    OneFewer(ReadyReceivers(s), p);
    OneFewer(ReadySenders(s), p);
  }

  lemma OneFewer(ps: set<Pid>, p: Pid)
    ensures |ps - {p}| == |ps| - if p in ps then 1 else 0
  {
    if p in ps { assert ps == ps - {p} + {p}; } else { assert ps - {p} == ps; }
  }

  /** What a killed sender wanted to send had the one length there is. */
  lemma KillLength(s: Mailbox, p: Pid, l: nat)
    requires Uniform(s, l) && p in s.pcs
    ensures p in ReadySenders(s) ==> s.pcs[p].SendWait? && |s.pcs[p].msg| == l
    ensures Room(Step(s, Kill(p)), l) == Room(s, l)
  {
    assert PcOfLength(s.pcs[p], l);
  }

  lemma StepLive(s: Mailbox, e: Event, l: nat)
    requires Live(s, l) && Enabled(s, e) && OfLength(e, l) && (e.Kill? ==> Harmless(s, e.p))
    ensures Live(Step(s, e), l)
  {
    hide Stream, SendOn, RecvOn, ReadyReceivers, ReadySenders, Room, Distinct, Harmless;
    match e
    case Send(p, msg) =>
      EnterAmple(s, s.users + 1, s.ready, l);
      SendOnLive(s.(users := s.users + 1, locked := true), p, msg, l);
    case Recv(p, n) =>
      EnterAmple(s, s.users + 1, s.ready, l);
      RecvOnLive(s.(users := s.users + 1, locked := true), p, l);
    case Resume(p) =>
      EnterAmple(s, s.users, Without(s.ready, p), l);
      assert PcOfLength(s.pcs[p], l);
      if s.pcs[p].SendWait? {
        SendOnLive(s.(locked := true, ready := Without(s.ready, p)), p, s.pcs[p].msg, l);
      } else {
        RecvOnLive(s.(locked := true, ready := Without(s.ready, p)), p, l);
      }
    case Kill(p) => KillLiveIff(s, p, l);
  }

  /** Every kill of the run is harmless when it happens. */
  ghost predicate Spared(es: seq<Event>) {
    forall i :: 0 <= i < |es| && es[i].Kill? && Run(es[..i]).Some? ==> Harmless(Run(es[..i]).value, es[i].p)
  }

  lemma SparedFront(es: seq<Event>)
    requires es != [] && Spared(es)
    ensures Spared(es[..|es| - 1])
  {
    var fs := es[..|es| - 1];
    forall i | 0 <= i < |fs| && fs[i].Kill? && Run(fs[..i]).Some? ensures Harmless(Run(fs[..i]).value, fs[i].p) {
      assert fs[..i] == es[..i] && fs[i] == es[i];
    }
  }

  /** In every run with messages of one length whose kills are harmless, whatever
      the interleaving, no wakeup is lost. */
  lemma {:induction false} RunLive(es: seq<Event>, l: nat)
    requires Run(es).Some? && AllOfLength(es, l) && Spared(es) && 1 <= l <= MAX_MBOX_LENGTH
    ensures Live(Run(es).value, l)
  {
    hide Spared, Harmless, Live, Step;
    if es != [] {
      var n := |es| - 1;
      SparedFront(es);
      RunLive(es[..n], l);
      assert es[n].Kill? ==> Harmless(Run(es[..n]).value, es[n].p) by { LastSpared(es); }
      StepLive(Run(es[..n]).value, es[n], l);
    } else {
      InitLive(l);
    }
  }

  lemma LastSpared(es: seq<Event>)
    requires es != [] && Spared(es) && Run(es[..|es| - 1]).Some?
    ensures es[|es| - 1].Kill? ==> Harmless(Run(es[..|es| - 1]).value, es[|es| - 1].p)
  {
  }

  lemma InitLive(l: nat)
    requires 1 <= l <= MAX_MBOX_LENGTH
    ensures Live(Init(), l)
  {
    assert Flatten([]) == [];
  }

  /** A queued process could be served, and nobody is ready to notice. */
  ghost predicate Starved(s: Mailbox) {
    && (forall p :: !Ready(s, p))
    && ((exists p :: p in s.fullQ && p in s.pcs && s.pcs[p].RecvWait? && s.head + s.pcs[p].len <= s.tail) ||
        (exists p :: p in s.emptyQ && p in s.pcs && s.pcs[p].SendWait? && Fits(s, s.pcs[p].msg)))
  }

  lemma NobodyReady(s: Mailbox)
    requires forall p :: !Ready(s, p)
    requires s.lockQ == [] && Placed(s.fullQ, s.emptyQ, s.pcs)
    ensures ReadyReceivers(s) == {} && ReadySenders(s) == {}
  {
    hide Distinct;
    forall p | p in ReadyReceivers(s) ensures Ready(s, p) {}
    forall p | p in ReadySenders(s) ensures Ready(s, p) {}
  }

  /** So a process that could go on is never left asleep with nobody ready ... */
  lemma RunNotStarved(es: seq<Event>, l: nat)
    requires Run(es).Some? && AllOfLength(es, l) && Spared(es) && 1 <= l <= MAX_MBOX_LENGTH
    ensures !Starved(Run(es).value)
  {
    RunLive(es, l);
    var s := Run(es).value;
    RingHolds(s, l);
    if forall p :: !Ready(s, p) {
      NobodyReady(s);
      hide Stream, Placed, Ready;
      forall p | p in s.pcs ensures PcOfLength(s.pcs[p], l) {}
    }
  }

  /** ... and senders and receivers are never all asleep together. */
  lemma NeverStuck(es: seq<Event>, l: nat)
    requires Run(es).Some? && AllOfLength(es, l) && Spared(es) && 1 <= l <= MAX_MBOX_LENGTH
    requires Run(es).value.fullQ != [] && Run(es).value.emptyQ != []
    ensures exists p :: Ready(Run(es).value, p)
  {
    RunLive(es, l);
    var s := Run(es).value;
    RingHolds(s, l);
    if forall p :: !Ready(s, p) {
      NobodyReady(s);
    }
  }

  lemma OnUniform(s: Mailbox, p: Pid, msg: Message, l: nat)
    requires Stream(s) && Uniform(s, l) && |msg| == l
    ensures Uniform(SendOn(s, p, msg), l) && Uniform(RecvOn(s, p, l), l)
  {
    hide Stream, SendMove, RecvMove;
    if Fits(s, msg) { SendMoveUniform(s, p, msg, l); }
    if s.head + l <= s.tail { RecvMoveUniform(s, p, l); }
  }

  lemma StepUniform(s: Mailbox, e: Event, l: nat)
    requires Safe(s) && Uniform(s, l) && Enabled(s, e) && OfLength(e, l)
    ensures Uniform(Step(s, e), l)
  {
    hide Stream, SendOn, RecvOn, Distinct, PcOfLength;
    var any: Message := seq(l, _ => 0);
    match e
    case Send(p, msg) =>
      EnterUniform(s, s.users + 1, s.ready, l);
      OnUniform(s.(users := s.users + 1, locked := true), p, msg, l);
    case Recv(p, n) =>
      EnterUniform(s, s.users + 1, s.ready, l);
      OnUniform(s.(users := s.users + 1, locked := true), p, any, l);
    case Resume(p) =>
      EnterUniform(s, s.users, Without(s.ready, p), l);
      PcLength(s, p, l);
      OnUniform(s.(locked := true, ready := Without(s.ready, p)), p, if s.pcs[p].SendWait? then s.pcs[p].msg else any, l);
    case Kill(p) => KillUniform(s, p, l);
  }

  lemma PcLength(s: Mailbox, p: Pid, l: nat)
    requires Uniform(s, l) && p in s.pcs
    ensures if s.pcs[p].SendWait? then |s.pcs[p].msg| == l else s.pcs[p].RecvWait? && s.pcs[p].len == l
  {
    assert PcOfLength(s.pcs[p], l);
  }

  lemma EnterUniform(s: Mailbox, users: int, ready: seq<Pid>, l: nat)
    requires Safe(s) && Uniform(s, l)
    ensures Stream(s.(users := users, locked := true, ready := ready)) && Uniform(s.(users := users, locked := true, ready := ready), l)
  {
  }

  /** In every run with messages of one length, whoever is killed, messages come
      out whole and in the order they went in. */
  lemma {:induction false} RunInOrder(es: seq<Event>, l: nat)
    requires Run(es).Some? && AllOfLength(es, l) && 1 <= l <= MAX_MBOX_LENGTH
    ensures Uniform(Run(es).value, l) && |Run(es).value.got| <= |Run(es).value.sent|
    ensures Run(es).value.got == Run(es).value.sent[..|Run(es).value.got|]
  {
    hide Step, Safe;
    if es != [] {
      RunInOrder(es[..|es| - 1], l);
      RunSafe(es[..|es| - 1]);
      StepUniform(Run(es[..|es| - 1]).value, es[|es| - 1], l);
    }
  }

  // ---------- What breaks it ----------

  lemma {:induction false} RunStep(es: seq<Event>, e: Event)
    ensures Run(es + [e]) ==
            if Run(es).Some? && Enabled(Run(es).value, e) then Some(Step(Run(es).value, e)) else None
  {
    assert (es + [e])[..|es|] == es;
  }

  function Sevens(n: nat): (m: Message)
    ensures |m| == n
  {
    seq(n, _ => 7)
  }

  /** Two receivers wait, for b bytes and for a; a message of a bytes arrives. */
  function TwoReceivers(a: nat, b: nat): seq<Event> {
    [Recv(1, b), Recv(2, a), Send(3, Sevens(a))]
  }

  /** The mailbox once both wait. */
  function BothWait(a: nat, b: nat): Mailbox {
    Init().(users := 2, fullQ := [1, 2], pcs := map[1 := RecvWait(b), 2 := RecvWait(a)])
  }

  /** The mailbox once the message arrived: receiver 1 was woken. */
  function OneWoken(a: nat, b: nat): Mailbox {
    BothWait(a, b).(tail := a, content := Stored(Init().content, 0, Sevens(a)), fullQ := [2], ready := [1], sent := [Sevens(a)])
  }

  lemma BothWaitStep(a: nat, b: nat)
    requires a > 0 && b > 0
    ensures Enabled(Init(), Recv(1, b)) && Enabled(Step(Init(), Recv(1, b)), Recv(2, a))
    ensures Step(Step(Init(), Recv(1, b)), Recv(2, a)) == BothWait(a, b)
  {
    var s := Init().(users := 1, fullQ := [1], pcs := map[1 := RecvWait(b)]);
    assert Step(Init(), Recv(1, b)) == s;
  }

  lemma OneWokenStep(a: nat, b: nat)
    requires a < MAX_MBOX_LENGTH
    ensures Enabled(BothWait(a, b), Send(3, Sevens(a))) && Step(BothWait(a, b), Send(3, Sevens(a))) == OneWoken(a, b)
  {
    hide Stored, Sevens;
    var s := BothWait(a, b);
    assert s.pcs - {3} == s.pcs;
  }

  lemma TwoReceiversRun(a: nat, b: nat)
    requires 0 < a < MAX_MBOX_LENGTH && b > 0
    ensures Run(TwoReceivers(a, b)) == Some(OneWoken(a, b))
  {
    hide OneWoken, BothWait, Sevens, Run, Step, Enabled;
    BothWaitStep(a, b);
    OneWokenStep(a, b);
    RunNone();
    RunStep([], Recv(1, b));
    RunStep([Recv(1, b)], Recv(2, a));
    RunStep([Recv(1, b), Recv(2, a)], Send(3, Sevens(a)));
    assert [] + [Recv(1, b)] == [Recv(1, b)];
    assert [Recv(1, b)] + [Recv(2, a)] == [Recv(1, b), Recv(2, a)];
    assert [Recv(1, b), Recv(2, a)] + [Send(3, Sevens(a))] == TwoReceivers(a, b);
  }

  lemma RunNone()
    ensures Run([]) == Some(Init())
  {
  }

  /** With any two different lengths a wakeup can be lost: the one receiver woken
      needs more than there is, and the one that could go on sleeps. */
  lemma MixedLengthsStarve(a: nat, b: nat)
    requires 0 < a < b <= MAX_MBOX_LENGTH
    ensures Run(TwoReceivers(a, b) + [Resume(1)]).Some? && Starved(Run(TwoReceivers(a, b) + [Resume(1)]).value)
  {
    hide Stored, Sevens, Run;
    TwoReceiversRun(a, b);
    RunStep(TwoReceivers(a, b), Resume(1));
    var s := OneWoken(a, b);
    assert s.pcs[1] == RecvWait(b);
    assert Without([1], 1) == [];
    var t := s.(fullQ := [2, 1], ready := []);
    assert s.pcs[1 := RecvWait(b)] == s.pcs;
    assert Step(s, Resume(1)) == t;
    assert 2 in t.fullQ && t.pcs[2] == RecvWait(a);
  }

  predicate LengthIn(e: Event, lens: set<nat>) {
    match e
    case Send(_, msg) => |msg| in lens
    case Recv(_, n) => n in lens
    case Resume(_) => true
    case Kill(_) => true
  }

  /** No run of calls with these lengths and harmless kills loses a wakeup. */
  ghost predicate NeverStarves(lens: set<nat>) {
    forall es: seq<Event> ::
      Run(es).Some? && Spared(es) && (forall i :: 0 <= i < |es| ==> LengthIn(es[i], lens)) ==> !Starved(Run(es).value)
  }

  /** The mailbox is safe for a set of message lengths exactly if it has one at most. */
  lemma NeverStarvesIff(lens: set<nat>)
    requires forall l :: l in lens ==> 1 <= l <= MAX_MBOX_LENGTH
    ensures NeverStarves(lens) <==> forall a, b :: a in lens && b in lens ==> a == b
  {
    hide Run, Starved;
    if a, b :| a in lens && b in lens && a < b {
      MixedLengthsStarve(a, b);
      var es := TwoReceivers(a, b) + [Resume(1)];
      forall i | 0 <= i < |es| ensures LengthIn(es[i], lens) {}
    } else {
      var l := if lens == {} then 1 else var l :| l in lens; l;
      forall es: seq<Event> | Run(es).Some? && Spared(es) && (forall i :: 0 <= i < |es| ==> LengthIn(es[i], lens)) ensures !Starved(Run(es).value) {
        forall i | 0 <= i < |es| ensures OfLength(es[i], l) { assert LengthIn(es[i], lens); }
        RunNotStarved(es, l);
      }
    }
  }

  /** Killing the last process that is ready leaves somebody starved exactly if
      the kill is not harmless. */
  lemma LastKillIff(s: Mailbox, p: Pid, l: nat)
    requires Live(s, l) && Ready(s, p) && forall r :: r != p ==> !Ready(s, r)
    ensures Starved(Step(s, Kill(p))) <==> !Harmless(s, p)
  {
    hide Stream, Distinct, Placed, Step, Room, ReadyReceivers, ReadySenders, Ready, Uniform, Starved;
    LastReady(s, p);
    var t := Step(s, Kill(p));
    KillQuiet(s, p);
    KillSafe(s, p);
    KillUniform(s, p, l);
    KillWoken(s, p);
    KillLength(s, p, l);
    PcLength(s, p, l);
    StarvedIff(t, l);
  }

  lemma KillQuiet(s: Mailbox, p: Pid)
    requires Safe(s) && p in s.pcs && forall r :: r != p ==> !Ready(s, r)
    ensures forall r :: !Ready(Step(s, Kill(p)), r)
  {
    hide Stream, Placed;
    var t := Step(s, Kill(p));
    forall r ensures !Ready(t, r) {
      if r in t.pcs { assert !Ready(s, r) && r in s.pcs; }
    }
  }

  /** A process that alone is ready was woken as a receiver or as a sender. */
  lemma LastReady(s: Mailbox, p: Pid)
    requires Safe(s) && Ready(s, p) && forall r :: r != p ==> !Ready(s, r)
    ensures p in s.pcs
    ensures ReadyReceivers(s) == (if s.pcs[p].RecvWait? then {p} else {}) && ReadySenders(s) == (if s.pcs[p].SendWait? then {p} else {})
  {
    hide Stream, Distinct;
    assert ReadyReceivers(s) <= {p} && ReadySenders(s) <= {p} by {
      forall r | r in ReadyReceivers(s) ensures r == p { assert Ready(s, r); }
      forall r | r in ReadySenders(s) ensures r == p { assert Ready(s, r); }
    }
  }

  /** With nobody ready, somebody starves exactly if a message waits for a queued
      receiver, or room for a queued sender. */
  lemma StarvedIff(s: Mailbox, l: nat)
    requires Safe(s) && Uniform(s, l) && forall r :: !Ready(s, r)
    ensures Starved(s) <==> (s.fullQ != [] && Available(s) > 0) || (s.emptyQ != [] && Room(s, l) > 0)
  {
    RingHolds(s, l);
    hide Stream, Distinct, Ready;
    forall p | p in s.pcs ensures if s.pcs[p].SendWait? then |s.pcs[p].msg| == l else s.pcs[p].RecvWait? && s.pcs[p].len == l {
      PcLength(s, p, l);
    }
    if s.fullQ != [] { assert s.fullQ[0] in s.fullQ; }
    if s.emptyQ != [] { assert s.emptyQ[0] in s.emptyQ; }
  }

  /** Such a run: the one woken receiver is killed before it runs. */
  lemma KillLosesWakeup()
    ensures Run(TwoReceivers(1, 1) + [Kill(1)]).Some? && Starved(Run(TwoReceivers(1, 1) + [Kill(1)]).value)
  {
    hide Stored, Sevens, Run;
    TwoReceiversRun(1, 1);
    RunStep(TwoReceivers(1, 1), Kill(1));
    var s := OneWoken(1, 1);
    assert Without([2], 1) == [2];
    var t := Step(s, Kill(1));
    assert 2 in t.fullQ && t.pcs[2] == RecvWait(1);
  }
}
