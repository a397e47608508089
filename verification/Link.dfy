/** Two endpoints joined by a byte stream in each direction, and what holds of every run of the two. */
module Links {
  import opened Bytes
  import opened Framing
  import opened Hands
  import opened Endpoints
  import W = WorkToken
  import E = EpollToken
  import S = Sender
  import R = Receiver

  datatype Link = Link(a: Endpoint, b: Endpoint)

  const START := Link(Endpoints.INIT, Endpoints.INIT)

  const READ_SIZE: nat := 8192

  datatype LinkStep =
    | AtA(step: Endpoints.Step)
    | AtB(step: Endpoints.Step)
    | AToB(s: Server, k: nat)    // a listening thread at b reads k bytes that a has written
    | BToA(s: Server, k: nat)

  ghost predicate NetEnabled(from: Endpoint, to: Endpoint, s: Server, k: nat)
  {
    && 0 < k <= READ_SIZE && k <= |from.tx.wire|
    && Endpoints.Enabled(from, Drain(k))
    && Endpoints.Enabled(to, Arrive(s, from.tx.wire[..k]))
  }

  ghost predicate Enabled(l: Link, step: LinkStep)
  {
    match step
    case AtA(st) => !st.Drain? && !st.Arrive? && Endpoints.Enabled(l.a, st)
    case AtB(st) => !st.Drain? && !st.Arrive? && Endpoints.Enabled(l.b, st)
    case AToB(s, k) => NetEnabled(l.a, l.b, s, k)
    case BToA(s, k) => NetEnabled(l.b, l.a, s, k)
  }

  function Apply(l: Link, step: LinkStep): Link
    requires Enabled(l, step)
  {
    match step
    case AtA(st) => l.(a := Endpoints.Apply(l.a, st))
    case AtB(st) => l.(b := Endpoints.Apply(l.b, st))
    case AToB(s, k) =>
      Link(Endpoints.Apply(l.a, Drain(k)), Endpoints.Apply(l.b, Arrive(s, l.a.tx.wire[..k])))
    case BToA(s, k) =>
      Link(Endpoints.Apply(l.a, Arrive(s, l.b.tx.wire[..k])), Endpoints.Apply(l.b, Drain(k)))
  }

  /** One direction, when no batch was given up: what x has put is what y has parsed, then what y has and has
      not parsed, then what y has not read yet; byte by byte, in order. */
  ghost predicate Stream(tx: S.Sender, rx: R.Receiver)
  {
    && rx.parsed <= tx.put
    && EncodeAll(tx.put) == EncodeAll(rx.parsed) + R.Inbox(rx) + S.Pending(tx)
  }

  ghost predicate Flow(tx: S.Sender, rx: R.Receiver)
  {
    tx.dropped == 0 ==> Stream(tx, rx)
  }

  /** In any case the bytes add up, those of batches given up included. */
  ghost predicate Sized(tx: S.Sender, rx: R.Receiver)
  {
    |EncodeAll(tx.put)| == |EncodeAll(rx.parsed) + R.Inbox(rx)| + |S.Pending(tx)| + tx.dropped
  }

  /** The bytes that users have sent under the rendezvous id of a task. */
  function Forged(x: Endpoint, t: Task): seq<byte>
  {
    R.Payload(x.tasks.users, LockId(t))
  }

  /** The rendezvous books of one endpoint: stops that passed took bytes under their rendezvous id, and the
      bytes put there come from starts and, if users send there, from users. */
  ghost predicate Counted(x: Endpoint)
  {
    forall t ::
      && |R.Slot(x.rx.returned, LockId(t))| >= multiset(x.tasks.passed)[t]
      && |R.Payload(x.tx.put, LockId(t))| == multiset(x.tasks.begun)[t] + |Forged(x, t)|
  }

  /** Both directions between two ends. */
  ghost predicate Flows(x: Endpoint, y: Endpoint)
  {
    Flow(x.tx, y.rx) && Flow(y.tx, x.rx) && Sized(x.tx, y.rx) && Sized(y.tx, x.rx)
  }

  ghost predicate Inv(l: Link)
  {
    && Local(l.a) && Local(l.b)
    && Flows(l.a, l.b)
    && Counted(l.a) && Counted(l.b)
    && R.Balanced(l.a.rx) && R.Balanced(l.b.rx)
  }

  // ---------------------------------------------------------------- the stream, step by step

  lemma SendStream(tx: S.Sender, rx: R.Receiver, act: S.Act)
    requires Stream(tx, rx) && S.Enabled(tx, act) && !act.Drain?
    requires AtMostOne(tx.batches) && AtMostOne(S.Apply(tx, act).batches) && S.Lost(tx, act) == 0
    ensures Stream(S.Apply(tx, act), rx)
  {
    S.PendingStep(tx, act);
    var sent := S.Sent(act);
    EncodeAllAppend(tx.put, sent);
    R.Reassociate(EncodeAll(rx.parsed) + R.Inbox(rx), S.Pending(tx), EncodeAll(sent));
  }

  lemma Cancel(a: seq<byte>, b: seq<byte>, c: seq<byte>, d: seq<byte>, e: seq<byte>)
    requires a + b == a + (c + d) + e
    ensures b == c + (d + e)
  {
    assert a + (c + d) + e == a + (c + (d + e));
    assert (a + b)[|a|..] == b && (a + (c + (d + e)))[|a|..] == c + (d + e);
  }

  /** What the receiving loop finds when it may read is a frame, and the next one put. */
  lemma NextFrame(tx: S.Sender, rx: R.Receiver)
    requires Stream(tx, rx) && AllSendable(tx.put) && CanRead(rx.buffer)
    ensures ParseFront(rx.buffer).Got? && rx.parsed + [ParseFront(rx.buffer).frame] <= tx.put
  {
    var todo := tx.put[|rx.parsed|..];
    assert tx.put == rx.parsed + todo;
    EncodeAllAppend(rx.parsed, todo);
    var after := R.ChunkBytes(rx) + S.Pending(tx);
    Cancel(EncodeAll(rx.parsed), EncodeAll(todo), rx.buffer, R.ChunkBytes(rx), S.Pending(tx));
    assert rx.buffer <= EncodeAll(todo);
    ParsePrefix(rx.buffer, todo);
  }

  lemma ReceiveStream(tx: S.Sender, rx: R.Receiver, act: R.Act)
    requires Stream(tx, rx) && AllSendable(tx.put) && R.RingOk(rx) && R.Enabled(rx, act) && !act.Arrive?
    requires AtMostOne(rx.chunks) && AtMostOne(R.Apply(rx, act).chunks)
    ensures Stream(tx, R.Apply(rx, act))
  {
    R.InboxStep(rx, act);
    if act.Parse? && ParseFront(rx.buffer).Got? {
      NextFrame(tx, rx);
    }
  }

  lemma NetStream(tx: S.Sender, rx: R.Receiver, s: Server, k: nat)
    requires Stream(tx, rx) && k <= |tx.wire| && R.Enabled(rx, R.Arrive(s, tx.wire[..k]))
    requires AtMostOne(tx.batches) && AtMostOne(rx.chunks) && R.RingOk(rx)
    requires AtMostOne(R.Apply(rx, R.Arrive(s, tx.wire[..k])).chunks)
    ensures Stream(S.Apply(tx, S.Drain(k)), R.Apply(rx, R.Arrive(s, tx.wire[..k])))
  {
    var d := tx.wire[..k];
    S.PendingStep(tx, S.Drain(k));
    R.InboxStep(rx, R.Arrive(s, d));
    var p := S.Pending(tx);
    assert p[..k] == d;
    R.SplitAt(EncodeAll(rx.parsed) + R.Inbox(rx), p, k);
    assert S.Pending(S.Apply(tx, S.Drain(k))) == p[k..];
  }

  // ---------------------------------------------------------------- the rendezvous books

  lemma LockIdsApart(t: Task, u: Task)
    ensures LockId(t) == LockId(u) <==> t == u
    ensures LOCK <= LockId(t)
  {
    assert LockId(t)[|LOCK|..] == t && LockId(u)[|LOCK|..] == u;
  }

  lemma PassedStep(x: Endpoint, step: Endpoints.Step, t: Task)
    requires Endpoints.Enabled(x, step)
    requires |R.Slot(x.rx.returned, LockId(t))| >= multiset(x.tasks.passed)[t]
    ensures var x' := Endpoints.Apply(x, step);
      |R.Slot(x'.rx.returned, LockId(t))| >= multiset(x'.tasks.passed)[t]
  {
    LockIdsApart(t, t);
    if step.StopRecv? { LockIdsApart(t, step.t); }
    R.ReturnedStep(x.rx, RxOf(x, step), LockId(t));
    hide R.Apply, R.Enabled, S.Apply, S.Enabled, W.Apply, W.Enabled, E.Apply, E.Enabled;
  }

  lemma BegunStep(x: Endpoint, step: Endpoints.Step, t: Task)
    requires Endpoints.Enabled(x, step)
    requires |R.Payload(x.tx.put, LockId(t))| == multiset(x.tasks.begun)[t] + |Forged(x, t)|
    ensures var x' := Endpoints.Apply(x, step);
      |R.Payload(x'.tx.put, LockId(t))| == multiset(x'.tasks.begun)[t] + |Forged(x', t)|
  {
    LockIdsApart(t, t);
    hide R.Apply, R.Enabled, W.Apply, W.Enabled, E.Apply, E.Enabled;
    match step {
      case Send(f) =>
        R.PayloadSnoc(x.tx.put, f, LockId(t));
        R.PayloadSnoc(x.tasks.users, f, LockId(t));
      case StartPut(u, _) =>
        LockIdsApart(t, u);
        R.PayloadSnoc(x.tx.put, LockFrame(u), LockId(t));
      case _ =>
    }
  }

  lemma CountedStep(x: Endpoint, step: Endpoints.Step)
    requires Counted(x) && Endpoints.Enabled(x, step)
    ensures Counted(Endpoints.Apply(x, step))
  {
    var x' := Endpoints.Apply(x, step);
    forall t
      ensures |R.Slot(x'.rx.returned, LockId(t))| >= multiset(x'.tasks.passed)[t]
      ensures |R.Payload(x'.tx.put, LockId(t))| == multiset(x'.tasks.begun)[t] + |Forged(x', t)|
    {
      PassedStep(x, step, t);
      BegunStep(x, step, t);
    }
  }

  // ---------------------------------------------------------------- all together

  lemma SendFlow(tx: S.Sender, rx: R.Receiver, act: S.Act)
    requires Flow(tx, rx) && Sized(tx, rx) && S.Enabled(tx, act) && !act.Drain?
    requires AtMostOne(tx.batches) && AtMostOne(S.Apply(tx, act).batches)
    ensures Flow(S.Apply(tx, act), rx) && Sized(S.Apply(tx, act), rx)
  {
    S.PendingStep(tx, act);
    EncodeAllAppend(tx.put, S.Sent(act));
    if S.Apply(tx, act).dropped == 0 {
      SendStream(tx, rx, act);
    }
  }

  lemma ReceiveFlow(tx: S.Sender, rx: R.Receiver, act: R.Act)
    requires Flow(tx, rx) && Sized(tx, rx) && AllSendable(tx.put) && R.RingOk(rx) && R.Enabled(rx, act) && !act.Arrive?
    requires AtMostOne(rx.chunks) && AtMostOne(R.Apply(rx, act).chunks)
    ensures Flow(tx, R.Apply(rx, act)) && Sized(tx, R.Apply(rx, act))
  {
    R.InboxStep(rx, act);
    if tx.dropped == 0 {
      ReceiveStream(tx, rx, act);
    }
  }

  lemma NetFlow(tx: S.Sender, rx: R.Receiver, s: Server, k: nat)
    requires Flow(tx, rx) && Sized(tx, rx) && k <= |tx.wire| && R.Enabled(rx, R.Arrive(s, tx.wire[..k]))
    requires AtMostOne(tx.batches) && AtMostOne(rx.chunks) && R.RingOk(rx)
    requires AtMostOne(R.Apply(rx, R.Arrive(s, tx.wire[..k])).chunks)
    ensures Flow(S.Apply(tx, S.Drain(k)), R.Apply(rx, R.Arrive(s, tx.wire[..k])))
    ensures Sized(S.Apply(tx, S.Drain(k)), R.Apply(rx, R.Arrive(s, tx.wire[..k])))
  {
    S.PendingStep(tx, S.Drain(k));
    R.InboxStep(rx, R.Arrive(s, tx.wire[..k]));
    if tx.dropped == 0 {
      NetStream(tx, rx, s, k);
    }
  }

  lemma StreamsOfStep(from: Endpoint, to: Endpoint, step: Endpoints.Step)
    requires Endpoints.Enabled(from, step) && !step.Drain? && !step.Arrive?
    ensures Local(from) && Local(to) && Flows(from, to) ==> Flows(Endpoints.Apply(from, step), to)
  {
    if Local(from) && Local(to) && Flows(from, to) {
      LocalStep(from, step);
      OneAtATime(from);
      OneAtATime(Endpoints.Apply(from, step));
      SendFlow(from.tx, to.rx, TxOf(from, step));
      ReceiveFlow(to.tx, from.rx, RxOf(from, step));
    }
  }

  lemma NetParts(from: Endpoint, to: Endpoint, s: Server, k: nat)
    requires NetEnabled(from, to, s, k)
    ensures k <= |from.tx.wire| && R.Enabled(to.rx, R.Arrive(s, from.tx.wire[..k]))
    ensures var from' := Endpoints.Apply(from, Drain(k));
      from'.tx == S.Apply(from.tx, S.Drain(k)) && from'.rx == from.rx
    ensures var d := from.tx.wire[..k]; var to' := Endpoints.Apply(to, Arrive(s, d));
      to'.tx == to.tx && to'.rx == R.Apply(to.rx, R.Arrive(s, d))
  {
  }

  lemma StreamsOfNet(from: Endpoint, to: Endpoint, s: Server, k: nat)
    requires NetEnabled(from, to, s, k)
    ensures Local(from) && Local(to) && Flows(from, to) ==>
      Flows(Endpoints.Apply(from, Drain(k)), Endpoints.Apply(to, Arrive(s, from.tx.wire[..k])))
  {
    if Local(from) && Local(to) && Flows(from, to) {
      LocalStep(to, Arrive(s, from.tx.wire[..k]));
      NetParts(from, to, s, k);
      hide Endpoints.Apply, Endpoints.Enabled;
      OneAtATime(from);
      OneAtATime(to);
      OneAtATime(Endpoints.Apply(to, Arrive(s, from.tx.wire[..k])));
      NetFlow(from.tx, to.rx, s, k);
      R.InboxStep(from.rx, R.Nop);
    }
  }

  lemma EndStep(x: Endpoint, step: Endpoints.Step)
    requires Local(x) && Counted(x) && R.Balanced(x.rx) && Endpoints.Enabled(x, step)
    ensures var x' := Endpoints.Apply(x, step); Local(x') && Counted(x') && R.Balanced(x'.rx)
  {
    LocalStep(x, step);
    CountedStep(x, step);
    OneAtATime(x);
    OneAtATime(Endpoints.Apply(x, step));
    R.BalancedStep(x.rx, RxOf(x, step));
  }

  lemma InvStep(l: Link, step: LinkStep)
    requires Enabled(l, step)
    ensures Inv(l) ==> Inv(Apply(l, step))
  {
    hide Endpoints.Apply, Endpoints.Enabled, Local;
    if Inv(l) {
      match step {
        case AtA(st) =>
          EndStep(l.a, st);
          StreamsOfStep(l.a, l.b, st);
        case AtB(st) =>
          EndStep(l.b, st);
          StreamsOfStep(l.b, l.a, st);
        case AToB(s, k) =>
          EndStep(l.a, Drain(k));
          EndStep(l.b, Arrive(s, l.a.tx.wire[..k]));
          StreamsOfNet(l.a, l.b, s, k);
        case BToA(s, k) =>
          EndStep(l.b, Drain(k));
          EndStep(l.a, Arrive(s, l.b.tx.wire[..k]));
          StreamsOfNet(l.b, l.a, s, k);
      }
    }
  }

  lemma InvStart()
    ensures Inv(START)
  {
  }

  /** A run: steps made one after another from the start, and the states passed through. */
  ghost predicate Run(steps: seq<LinkStep>, trace: seq<Link>)
  {
    && |trace| == |steps| + 1
    && trace[0] == START
    && forall i {:trigger steps[i]} :: 0 <= i < |steps| ==>
         Enabled(trace[i], steps[i]) && trace[i + 1] == Apply(trace[i], steps[i])
  }

  lemma {:induction false} InvAlong(steps: seq<LinkStep>, trace: seq<Link>, i: nat)
    requires Run(steps, trace) && i < |trace|
    ensures Inv(trace[i])
  {
    hide Inv, Enabled, Apply;
    if i == 0 {
      InvStart();
    } else {
      InvAlong(steps, trace, i - 1);
      InvStep(trace[i - 1], steps[i - 1]);
    }
  }

  /** What y's users have of one id, stored and in hand included, against what x's users sent. */
  ghost predicate InOrder(x: Endpoint, y: Endpoint, id: Id)
  {
    R.Slot(y.rx.returned, id) + R.Slot(y.rx.mapBuf, id) + R.HandBytes(y.rx, id) <= R.Payload(x.tx.put, id)
  }

  lemma StreamInOrder(x: Endpoint, y: Endpoint, id: Id)
    requires R.Books(y.rx) && Stream(x.tx, y.rx)
    ensures InOrder(x, y, id)
  {
    assert R.Account(y.rx, id) == R.Payload(y.rx.parsed, id);
    R.PayloadPrefix(y.rx.parsed, x.tx.put, id);
  }

  /** Per-id FIFO, end to end. In every state of every run of the two endpoints, for every id, unless a write at
      the sending end has failed and dropped bytes: what users at one end got under that id, followed by what
      is stored there for it and what a receiving loop has in hand of it, is a prefix of the payloads sent
      under that id at the other end, in put order. */
  lemma FifoPerId(steps: seq<LinkStep>, trace: seq<Link>, i: nat, id: Id)
    requires Run(steps, trace) && i < |trace|
    ensures var l := trace[i]; l.a.tx.dropped == 0 ==> InOrder(l.a, l.b, id)
    ensures var l := trace[i]; l.b.tx.dropped == 0 ==> InOrder(l.b, l.a, id)
  {
    InvAlong(steps, trace, i);
    var l := trace[i];
    if l.a.tx.dropped == 0 { StreamInOrder(l.a, l.b, id); }
    if l.b.tx.dropped == 0 { StreamInOrder(l.b, l.a, id); }
  }

  /** Every byte put is somewhere, in order: delivered to the peer's ring, in the hands of the thread that
      read it, on the wire, in the batch of the task that holds the token, or in the send buffer. */
  ghost predicate Conserved(x: Endpoint, y: Endpoint)
  {
    EncodeAll(x.tx.put) ==
      y.rx.delivered + R.ChunkBytes(y.rx) + (x.tx.wire + S.BatchBytes(x.tx) + x.tx.sendBuf)
  }

  /** While a token is free, nothing is in the hands it guards. */
  ghost predicate HandsFree(x: Endpoint)
  {
    && (x.token.count == 0 ==> x.tx.batches == map[] && x.rx.hands == map[])
    && (x.epoll.listenCount == 0 ==> x.rx.chunks == map[])
  }

  lemma ConservedExactly(x: Endpoint, y: Endpoint)
    requires R.Books(y.rx) && Flow(x.tx, y.rx) && Sized(x.tx, y.rx)
    ensures Conserved(x, y) <==> x.tx.dropped == 0
  {
    R.Reassociate(EncodeAll(y.rx.parsed), y.rx.buffer, R.ChunkBytes(y.rx));
  }

  /** Lossless hand-over: whatever the switches between tasks at both ends, nothing put is lost, duplicated or
      reordered on the way, if and only if no write has failed and dropped bytes. */
  lemma NothingLost(steps: seq<LinkStep>, trace: seq<Link>, i: nat)
    requires Run(steps, trace) && i < |trace|
    ensures var l := trace[i]; Conserved(l.a, l.b) <==> l.a.tx.dropped == 0
    ensures var l := trace[i]; Conserved(l.b, l.a) <==> l.b.tx.dropped == 0
    ensures var l := trace[i]; HandsFree(l.a) && HandsFree(l.b)
  {
    InvAlong(steps, trace, i);
    var l := trace[i];
    ConservedExactly(l.a, l.b);
    ConservedExactly(l.b, l.a);
    FreeTokenNoHands(l.a);
    FreeTokenNoHands(l.b);
  }

  /** No loop sleeps on data: with bytes in the send buffer no sending loop is parked; with a whole frame in
      the ring a receiving loop is parked only while the notify for it is still to come. */
  lemma NobodySleepsOnData(steps: seq<LinkStep>, trace: seq<Link>, i: nat)
    requires Run(steps, trace) && i < |trace|
    ensures var l := trace[i]; Awake(l.a) && Awake(l.b)
  {
    InvAlong(steps, trace, i);
  }

  // ---------------------------------------------------------------- the task rendezvous

  /** Stops of t at y that got past their rendezvous, against starts of t at x and what users of x sent there. */
  ghost predicate Met(x: Endpoint, y: Endpoint, t: Task)
  {
    multiset(y.tasks.passed)[t] <= multiset(x.tasks.begun)[t] + |Forged(x, t)|
  }

  lemma PassedAtMostBegun(x: Endpoint, y: Endpoint, t: Task)
    requires R.Books(y.rx) && Stream(x.tx, y.rx) && Counted(x) && Counted(y)
    ensures Met(x, y, t)
  {
    StreamInOrder(x, y, LockId(t));
    assert |R.Slot(y.rx.returned, LockId(t))| >= multiset(y.tasks.passed)[t];
    assert |R.Payload(x.tx.put, LockId(t))| == multiset(x.tasks.begun)[t] + |Forged(x, t)|;
  }

  lemma {:induction false} NothingForged(fs: seq<Frame>, id: Id)
    requires forall f :: f in fs ==> f.id != id
    ensures R.Payload(fs, id) == []
  {
    if fs != [] {
      assert forall f :: f in fs[..|fs| - 1] ==> f in fs;
      NothingForged(fs[..|fs| - 1], id);
    }
  }

  /** Task rendezvous: at either end, the stops of a task that got past their rendezvous are never more than
      the starts of that task at the other end and the bytes that users there sent under its rendezvous id. */
  lemma RendezvousHolds(steps: seq<LinkStep>, trace: seq<Link>, i: nat, t: Task)
    requires Run(steps, trace) && i < |trace|
    ensures var l := trace[i]; l.a.tx.dropped == 0 ==> Met(l.a, l.b, t)
    ensures var l := trace[i]; l.b.tx.dropped == 0 ==> Met(l.b, l.a, t)
  {
    InvAlong(steps, trace, i);
    var l := trace[i];
    if l.a.tx.dropped == 0 { PassedAtMostBegun(l.a, l.b, t); }
    if l.b.tx.dropped == 0 { PassedAtMostBegun(l.b, l.a, t); }
  }

  /** So with users that keep off the rendezvous id, no more stops pass than starts were made. */
  lemma RendezvousUnforged(steps: seq<LinkStep>, trace: seq<Link>, i: nat, t: Task)
    requires Run(steps, trace) && i < |trace|
    ensures var l := trace[i];
      l.a.tx.dropped == 0 && (forall f :: f in l.a.tasks.users ==> f.id != LockId(t)) ==>
        multiset(l.b.tasks.passed)[t] <= multiset(l.a.tasks.begun)[t]
    ensures var l := trace[i];
      l.b.tx.dropped == 0 && (forall f :: f in l.b.tasks.users ==> f.id != LockId(t)) ==>
        multiset(l.a.tasks.passed)[t] <= multiset(l.b.tasks.begun)[t]
  {
    RendezvousHolds(steps, trace, i, t);
    var l := trace[i];
    if forall f :: f in l.a.tasks.users ==> f.id != LockId(t) { NothingForged(l.a.tasks.users, LockId(t)); }
    if forall f :: f in l.b.tasks.users ==> f.id != LockId(t) { NothingForged(l.b.tasks.users, LockId(t)); }
  }

  // ---------------------------------------------------------------- the ring under both threads

  /** The receive ring of y, under a listening thread and a receiving loop whose sections interleave. */
  ghost predicate RingSound(x: Endpoint, y: Endpoint)
  {
    && !y.rx.faulted && |y.rx.buffer| <= y.rx.cap
    && (forall s :: s in y.rx.chunks && y.rx.chunks[s].RoomMade? ==> Endpoints.Enabled(y, SeeRoom(s)))
    && (forall t :: t in y.rx.hands && y.rx.hands[t].Seen? ==>
          var p := y.rx.hands[t].found;
          && p == ParseFront(y.rx.buffer)
          && (x.tx.dropped == 0 ==> p.Got? && y.rx.parsed + [p.frame] <= x.tx.put))
  }

  /** In every state of every run: no copy into a receive ring ever ran without room; a thread that has grown
      the ring never has to wait for room; and what a receiving loop has seen and is about to take is
      still at the front, and, unless bytes were dropped, it is a frame and the next one put. */
  lemma RingsStaySound(steps: seq<LinkStep>, trace: seq<Link>, i: nat)
    requires Run(steps, trace) && i < |trace|
    ensures var l := trace[i]; RingSound(l.a, l.b) && RingSound(l.b, l.a)
  {
    InvAlong(steps, trace, i);
    RingIsSound(trace[i].a, trace[i].b);
    RingIsSound(trace[i].b, trace[i].a);
  }

  lemma RingIsSound(x: Endpoint, y: Endpoint)
    requires Local(x) && Local(y) && Flow(x.tx, y.rx)
    ensures RingSound(x, y)
  {
    forall t | t in y.rx.hands && y.rx.hands[t].Seen?
      ensures var p := y.rx.hands[t].found;
        && p == ParseFront(y.rx.buffer)
        && (x.tx.dropped == 0 ==> p.Got? && y.rx.parsed + [p.frame] <= x.tx.put)
    {
      if x.tx.dropped == 0 {
        NextFrame(x.tx, y.rx);
      }
    }
  }

  // ---------------------------------------------------------------- the test behind teardown

  /** The count behind teardown. At either end the bytes delivered are those get_unrecv_size still adds
      up, the payload in hand, the framing of the parsed frames, and the bytes returned. */
  lemma BytesBalance(steps: seq<LinkStep>, trace: seq<Link>, i: nat)
    requires Run(steps, trace) && i < |trace|
    ensures var l := trace[i]; R.Balanced(l.a.rx) && R.Balanced(l.b.rx)
  {
    InvAlong(steps, trace, i);
  }

  /** Bytes put at x that are not in the ring of y yet, in order. */
  ghost function UnderWay(x: Endpoint, y: Endpoint): seq<byte>
  {
    R.ChunkBytes(y.rx) + S.Pending(x.tx)
  }

  /** With no frame in hand at y, as while its token is free, get_unrecv_size is 0 exactly when all that was
      delivered to y has been parsed and returned; and then, unless x dropped bytes, all that x put has
      been exactly when nothing is under way. */
  ghost predicate TestIsExact(x: Endpoint, y: Endpoint)
  {
    && (y.token.count == 0 ==> y.rx.hands == map[])
    && (y.rx.hands == map[] ==>
      && (R.Unreceived(y.rx) == 0 <==> R.AllReturned(y.rx))
      && (R.Unreceived(y.rx) == 0 && x.tx.dropped == 0 ==>
            && EncodeAll(x.tx.put) == EncodeAll(y.rx.parsed) + UnderWay(x, y)
            && (y.rx.parsed == x.tx.put <==> UnderWay(x, y) == [])))
  }

  lemma ExactTest(x: Endpoint, y: Endpoint)
    requires Local(x) && Local(y) && Flow(x.tx, y.rx)
    ensures TestIsExact(x, y)
  {
    FreeTokenNoHands(y);
    if y.rx.hands == map[] {
      R.NothingUnreceived(y.rx);
      if R.Unreceived(y.rx) == 0 && x.tx.dropped == 0 {
        assert R.Inbox(y.rx) == R.ChunkBytes(y.rx);
        R.Reassociate(EncodeAll(y.rx.parsed), R.ChunkBytes(y.rx), S.Pending(x.tx));
        AllParsed(x.tx.put, y.rx.parsed, UnderWay(x, y));
      }
    }
  }

  lemma AllParsed(put: seq<Frame>, parsed: seq<Frame>, rest: seq<byte>)
    requires AllSendable(put) && parsed <= put && EncodeAll(put) == EncodeAll(parsed) + rest
    ensures parsed == put <==> rest == []
  {
    var todo := put[|parsed|..];
    assert put == parsed + todo;
    EncodeAllAppend(parsed, todo);
    SameTail(EncodeAll(parsed), EncodeAll(todo), rest);
    WholeStream(todo);
  }

  lemma SameTail(a: seq<byte>, b: seq<byte>, c: seq<byte>)
    requires a + b == a + c
    ensures b == c
  {
    assert (a + b)[|a|..] == b && (a + c)[|a|..] == c;
  }

  /** The test that decides teardown, in every state of every run: it sees precisely what has been delivered,
      and nothing of what is under way. */
  lemma UnreceivedIsExact(steps: seq<LinkStep>, trace: seq<Link>, i: nat)
    requires Run(steps, trace) && i < |trace|
    ensures var l := trace[i]; TestIsExact(l.a, l.b) && TestIsExact(l.b, l.a)
  {
    InvAlong(steps, trace, i);
    ExactTest(trace[i].a, trace[i].b);
    ExactTest(trace[i].b, trace[i].a);
  }

  /** A teardown at y loses precisely the bytes that are still on x's side: all that was delivered has been
      parsed and returned, and no thread of y has anything in hand. */
  ghost predicate OnlyPendingLost(x: Endpoint, y: Endpoint)
  {
    && y.token.count == 0 && y.rx.hands == map[] && y.tx.batches == map[] && y.rx.chunks == map[]
    && R.AllReturned(y.rx)
    && (x.tx.dropped == 0 ==> EncodeAll(x.tx.put) == EncodeAll(y.rx.parsed) + S.Pending(x.tx))
  }

  /** In every run, whenever a server tears down at one end, that is so. */
  lemma TeardownLosesOnlyPending(steps: seq<LinkStep>, trace: seq<Link>, i: nat, step: Endpoints.Step)
    requires Run(steps, trace) && i < |trace|
    ensures TearsDown(trace[i].a, step) ==> OnlyPendingLost(trace[i].b, trace[i].a)
    ensures TearsDown(trace[i].b, step) ==> OnlyPendingLost(trace[i].a, trace[i].b)
  {
    InvAlong(steps, trace, i);
    var l := trace[i];
    if TearsDown(l.a, step) { TeardownOf(l.b, l.a, step); }
    if TearsDown(l.b, step) { TeardownOf(l.a, l.b, step); }
  }

  lemma TeardownOf(x: Endpoint, y: Endpoint, step: Endpoints.Step)
    requires Local(x) && Local(y) && Flow(x.tx, y.rx) && TearsDown(y, step)
    ensures OnlyPendingLost(x, y)
  {
    TeardownIsQuiet(y, step);
    ExactTest(x, y);
    R.NothingUnreceived(y.rx);
    assert R.ChunkBytes(y.rx) == [];
    assert UnderWay(x, y) == S.Pending(x.tx);
  }

  // ---------------------------------------------------------------- a count taken in two moments

  lemma ParsedGrows(x: Endpoint, step: Endpoints.Step)
    requires Endpoints.Enabled(x, step)
    ensures x.rx.parsed <= Endpoints.Apply(x, step).rx.parsed
  {
  }

  lemma {:induction false} ParsedAlong(steps: seq<LinkStep>, trace: seq<Link>, i: nat, j: nat)
    requires Run(steps, trace) && i <= j < |trace|
    ensures trace[i].a.rx.parsed <= trace[j].a.rx.parsed && trace[i].b.rx.parsed <= trace[j].b.rx.parsed
    decreases j - i
  {
    if i < j {
      ParsedAlong(steps, trace, i, j - 1);
      var l := trace[j - 1];
      match steps[j - 1]
      case AtA(st) => ParsedGrows(l.a, st);
      case AtB(st) => ParsedGrows(l.b, st);
      case AToB(s, k) =>
        ParsedGrows(l.a, Drain(k));
        ParsedGrows(l.b, Arrive(s, l.a.tx.wire[..k]));
      case BToA(s, k) =>
        ParsedGrows(l.b, Drain(k));
        ParsedGrows(l.a, Arrive(s, l.b.tx.wire[..k]));
    }
  }

  /** The ring counted at one moment and the bytes of all ids at a later one, with no frame in hand then: if
      both are 0, then all that was delivered up to the first moment has been returned by the second. */
  ghost predicate TwoMomentsMean(y: Endpoint, y': Endpoint)
  {
    y'.rx.hands == map[] && |y.rx.buffer| + R.Total(y'.rx.mapBuf) == 0 ==>
      && y.rx.delivered == EncodeAll(y.rx.parsed) && y.rx.parsed <= y'.rx.parsed
      && forall id :: R.Slot(y'.rx.returned, id) == R.Payload(y'.rx.parsed, id)
  }

  lemma TwoMoments(steps: seq<LinkStep>, trace: seq<Link>, i: nat, j: nat)
    requires Run(steps, trace) && i <= j < |trace|
    ensures TwoMomentsMean(trace[i].a, trace[j].a) && TwoMomentsMean(trace[i].b, trace[j].b)
  {
    InvAlong(steps, trace, i);
    InvAlong(steps, trace, j);
    ParsedAlong(steps, trace, i, j);
    LaterCount(trace[i].a, trace[j].a);
    LaterCount(trace[i].b, trace[j].b);
  }

  lemma LaterCount(y: Endpoint, y': Endpoint)
    requires R.Books(y.rx) && R.Books(y'.rx) && y.rx.parsed <= y'.rx.parsed
    ensures TwoMomentsMean(y, y')
  {
    if y'.rx.hands == map[] && |y.rx.buffer| + R.Total(y'.rx.mapBuf) == 0 {
      assert y.rx.delivered == EncodeAll(y.rx.parsed);
      R.NothingStored(y'.rx);
    }
  }
}
