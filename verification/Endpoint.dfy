/** One end of a connection: the two halves of the data path, driven by the threads that the work token
    and the epoll token let run. Every step is one critical section of one thread. */
module Endpoints {
  import opened Bytes
  import opened Framing
  import opened Hands
  import W = WorkToken
  import E = EpollToken
  import S = Sender
  import R = Receiver

  type Task = W.Task
  type Server = E.Server

  /** Tasks between the two parts of start (rendezvous frame put, thread spawned) and of stop
      (rendezvous byte received, flag set); whose server a started task belongs to; and, as history, all
      that ever got to the one and the other, and what users have sent. */
  datatype Rendezvous = Rendezvous(
    announced: set<Task>,
    unlocked: set<Task>,
    server: map<Task, Server>,
    begun: seq<Task>,
    passed: seq<Task>,
    users: seq<Frame>)

  datatype Endpoint = Endpoint(token: W.State, epoll: E.State, tx: S.Sender, rx: R.Receiver, tasks: Rendezvous)

  const INIT := Endpoint(W.INIT, E.INIT, S.INIT, R.INIT, Rendezvous({}, {}, map[], [], [], []))

  const LOCK: seq<byte> := [108, 111, 99, 107, 58]   // "lock:"

  function LockId(t: Task): Id
  {
    LOCK + t
  }

  function LockFrame(t: Task): Frame
  {
    Frame(LockId(t), [49])   // "1"
  }

  /** The rendezvous ids are those that begin with "lock:"; a rendezvous frame carries "1". */
  lemma RendezvousIds(id: Id, t: Task)
    ensures LockFrame(t).id == LockId(t) && |LockFrame(t).data| == 1 && LockFrame(t).data[0] as int == '1' as int
    ensures |LOCK| == |"lock:"| && forall i :: 0 <= i < |LOCK| ==> LOCK[i] as int == "lock:"[i] as int
    ensures (exists t :: id == LockId(t)) <==> LOCK <= id
  {
    if LOCK <= id {
      assert id == LockId(id[|LOCK|..]);
    }
  }

  datatype Step =
    | Send(f: Frame)                        // a user's send
    | StartPut(t: Task, s: Server)          // first part of start(t), for the task of this server
    | Tok(tok: W.Step)
    | WriteSome(t: Task, k: nat)            // a (partial) write to the socket
    | GiveUp(t: Task)                       // the write fails: the rest of the batch is thrown away
    | Drain(k: nat)                         // the peer's socket takes k bytes
    | Epoll(ep: E.Step)
    | Arrive(s: Server, data: seq<byte>)    // a listening thread reads from its socket
    | Grow(s: Server)                       // ... makes room in the ring
    | SeeRoom(s: Server)                    // ... sees the room
    | Store(s: Server)                      // ... copies into the ring
    | Notify(s: Server)                     // ... and then notifies
    | TakeFrame(t: Task)                    // a receiving loop takes the frame it has seen
    | Recv(id: Id, k: nat)                  // a user's recv
    | StopRecv(t: Task)                     // first part of stop(t)

  // ---------------------------------------------------------------- a step, part by part

  predicate SendBusy(w: W.State, t: Task)
  {
    t in w.loops && w.loops[t].send.Busy?
  }

  predicate RecvBusy(w: W.State, t: Task)
  {
    t in w.loops && w.loops[t].recv.Busy?
  }

  datatype TokenPart = None | Some(ts: W.Step)

  function TokenOf(step: Step): TokenPart
  {
    match step
    case Send(_) => Some(W.DataPut)
    case StartPut(_, _) => Some(W.DataPut)
    case Tok(ts) => Some(ts)
    case Notify(_) => Some(W.DataArrived)
    case _ => None
  }

  function TxOf(x: Endpoint, step: Step): S.Act
  {
    match step
    case Send(f) => S.Put(f)
    case StartPut(t, _) => S.Put(LockFrame(t))
    case Tok(ts) =>
      if ts.CheckSend? then (if ts.hasData && !W.StopSet(x.token, ts.t) then S.Take(ts.t) else S.Nop)
      else if ts.SendDone? then S.Done(ts.t)
      else S.Nop
    case WriteSome(t, k) => S.Write(t, k)
    case GiveUp(t) => S.GiveUp(t)
    case Drain(k) => S.Drain(k)
    case _ => S.Nop
  }

  function RxOf(x: Endpoint, step: Step): R.Act
  {
    match step
    case Tok(ts) =>
      if ts.CheckRecv? then (if ts.canRead && !W.StopSet(x.token, ts.t) then R.See(ts.t) else R.Nop)
      else if ts.RecvDone? then R.Demux(ts.t)
      else R.Nop
    case Arrive(s, d) => R.Arrive(s, d)
    case Grow(s) => R.Grow(s)
    case SeeRoom(s) => R.SeeRoom(s)
    case Store(s) => R.Store(s)
    case Notify(s) => R.Notify(s)
    case TakeFrame(t) => R.Parse(t)
    case Recv(id, k) => R.Take(id, k)
    case StopRecv(t) => R.Take(LockId(t), 1)
    case _ => R.Nop
  }

  /** A task whose start on the connection has begun and whose stop has not ended. */
  predicate Live(x: Endpoint, t: Task)
  {
    t in x.tasks.announced || t in x.token.starts
  }

  predicate Started(e: E.State, s: Server)
  {
    s in e.servers && !e.servers[s].StartFailed? && !e.servers[s].Gone?
  }

  /** What the code checks, or its callers owe: tasks are started once, by a server that is running, and
      stopped once after that; a loop's wait predicate sees the actual buffers; a sending loop goes back to
      its wait when its write is complete or given up, a receiving loop takes and stores the frame it has
      seen first; a listening thread reads, grows the ring, waits for room, copies and notifies in this order,
      while it handles events; and a server's stop ends after the stops of its tasks on the connection, with
      a count of unreceived bytes that includes those of this connection. */
  ghost predicate Guard(x: Endpoint, step: Step)
  {
    match step
    case Send(f) => Sendable(f)
    case StartPut(t, s) => Sendable(LockFrame(t)) && !Live(x, t) && Started(x.epoll, s) && s !in x.epoll.stops
    case Tok(ts) =>
      && W.Enabled(x.token, ts)
      && (ts.Spawn? ==> ts.t in x.tasks.announced)
      && (ts.CheckSend? ==> ts.hasData == (x.tx.sendBuf != []))
      && (ts.SendDone? ==> ts.t in x.tx.batches && x.tx.batches[ts.t] == [])
      && (ts.CheckRecv? ==> ts.canRead == CanRead(x.rx.buffer))
      && (ts.RecvDone? ==> ts.t in x.rx.hands && x.rx.hands[ts.t].Holding?)
      && (ts.SetFlag? ==> ts.t in x.tasks.unlocked)
    case WriteSome(t, k) => t in x.tx.batches && 0 < k <= |x.tx.batches[t]|
    case GiveUp(t) => t in x.tx.batches
    case Drain(k) => k <= |x.tx.wire|
    case Epoll(es) =>
      && E.Enabled(x.epoll, es)
      && (es.Release? ==> es.s !in x.rx.chunks)
      && (es.StopFinish? ==>
            && R.Unreceived(x.rx) <= es.unreceived
            && forall t :: t in x.tasks.server && x.tasks.server[t] == es.s ==> !Live(x, t))
    case Arrive(s, _) => E.Is(x.epoll, s, E.Looping) && s !in x.rx.chunks
    case Grow(s) => R.Enabled(x.rx, R.Grow(s))
    case SeeRoom(s) => R.Enabled(x.rx, R.SeeRoom(s))
    case Store(s) => R.Enabled(x.rx, R.Store(s))
    case Notify(s) => R.Enabled(x.rx, R.Notify(s))
    case TakeFrame(t) => R.Enabled(x.rx, R.Parse(t))
    case Recv(id, k) => R.Enabled(x.rx, R.Take(id, k))
    case StopRecv(t) =>
      && t in x.token.flags && t !in x.token.stops && t !in x.tasks.unlocked
      && R.Enabled(x.rx, R.Take(LockId(t), 1))
  }

  ghost predicate Enabled(x: Endpoint, step: Step)
  {
    && Guard(x, step)
    && (TokenOf(step).Some? ==> W.Enabled(x.token, TokenOf(step).ts))
    && S.Enabled(x.tx, TxOf(x, step))
    && R.Enabled(x.rx, RxOf(x, step))
  }

  function TasksAfter(r: Rendezvous, step: Step): Rendezvous
  {
    match step
    case Send(f) => r.(users := r.users + [f])
    case StartPut(t, s) =>
      r.(announced := r.announced + {t}, server := r.server[t := s], begun := r.begun + [t])
    case StopRecv(t) => r.(unlocked := r.unlocked + {t}, passed := r.passed + [t])
    case Tok(ts) =>
      if ts.Spawn? then r.(announced := r.announced - {ts.t})
      else if ts.SetFlag? then r.(unlocked := r.unlocked - {ts.t})
      else r
    case _ => r
  }

  function Apply(x: Endpoint, step: Step): Endpoint
    requires Enabled(x, step)
  {
    Endpoint(
      if TokenOf(step).Some? then W.Apply(x.token, TokenOf(step).ts) else x.token,
      if step.Epoll? then E.Apply(x.epoll, step.ep) else x.epoll,
      S.Apply(x.tx, TxOf(x, step)),
      R.Apply(x.rx, RxOf(x, step)),
      TasksAfter(x.tasks, step))
  }

  // ---------------------------------------------------------------- what every step keeps

  /** Bytes are in hand only while the thread that took them is busy. */
  ghost predicate HandsOwned(x: Endpoint)
  {
    && (forall t :: t in x.tx.batches <==> SendBusy(x.token, t))
    && (forall t :: t in x.rx.hands <==> RecvBusy(x.token, t))
    && (forall s :: s in x.rx.chunks ==> E.Is(x.epoll, s, E.Looping))
  }

  /** No loop sleeps on data that is there, unless the notify for it is on its way. */
  ghost predicate Awake(x: Endpoint)
  {
    && (x.tx.sendBuf != [] ==> forall t :: t in x.token.loops ==> !x.token.loops[t].send.Asleep?)
    && (CanRead(x.rx.buffer) && (exists t :: t in x.token.loops && x.token.loops[t].recv.Asleep?) ==>
          exists s :: s in x.rx.chunks && x.rx.chunks[s].Stored?)
  }

  /** Every live task belongs to a server that has started and has not finished its stop. */
  ghost predicate Served(x: Endpoint)
  {
    forall t :: Live(x, t) ==> t in x.tasks.server && Started(x.epoll, x.tasks.server[t])
  }

  ghost predicate Local(x: Endpoint)
  {
    && W.Inv(x.token) && E.Inv(x.epoll)
    && HandsOwned(x) && Awake(x) && Served(x)
    && R.Books(x.rx) && R.RingOk(x.rx) && AllSendable(x.tx.put)
  }

  /** The tokens' exclusion, as far as the data path needs it. */
  lemma OneAtATime(x: Endpoint)
    requires W.Exclusive(x.token) && E.Exclusive(x.epoll) && HandsOwned(x)
    ensures AtMostOne(x.tx.batches) && AtMostOne(x.rx.hands) && AtMostOne(x.rx.chunks)
  {
    forall t, u | t in x.token.loops && u in x.token.loops ensures t == u {
      assert W.IsStart(x.token, t, W.Working) && W.IsStart(x.token, u, W.Working);
      assert x.token.holder.task == t && x.token.holder.task == u;
    }
    assert forall t :: t in x.tx.batches ==> SendBusy(x.token, t);
    assert forall t :: t in x.rx.hands ==> RecvBusy(x.token, t);
  }

  /** The data path never blocks a step that the code takes. */
  lemma GuardSuffices(x: Endpoint, step: Step)
    requires HandsOwned(x) && Guard(x, step)
    ensures Enabled(x, step)
  {
    if step.Tok? {
      var ts := step.tok;
      if ts.CheckSend? { assert !SendBusy(x.token, ts.t); }
      if ts.CheckRecv? { assert !RecvBusy(x.token, ts.t); }
      if ts.RecvDone? { assert RecvBusy(x.token, ts.t); }
    }
  }

  lemma TokensStep(x: Endpoint, step: Step)
    requires W.Inv(x.token) && E.Inv(x.epoll) && Enabled(x, step)
    ensures W.Inv(Apply(x, step).token) && E.Inv(Apply(x, step).epoll)
  {
    if TokenOf(step).Some? {
      W.InvStep(x.token, TokenOf(step).ts);
    }
    if step.Epoll? {
      E.InvStep(x.epoll, step.ep);
    }
  }

  lemma SendBusyStep(w: W.State, ts: W.Step, t: Task)
    requires W.Exclusive(w) && W.Enabled(w, ts)
    ensures SendBusy(W.Apply(w, ts), t) ==
      if ts == W.CheckSend(t, true) && !W.StopSet(w, t) then true
      else SendBusy(w, t) && ts != W.SendDone(t)
  {
    assert W.IsStart(w, t, W.Checking) ==> !W.IsStart(w, t, W.Working);
  }

  lemma RecvBusyStep(w: W.State, ts: W.Step, t: Task)
    requires W.Exclusive(w) && W.Enabled(w, ts)
    ensures RecvBusy(W.Apply(w, ts), t) ==
      if ts == W.CheckRecv(t, true) && !W.StopSet(w, t) then true
      else RecvBusy(w, t) && ts != W.RecvDone(t)
  {
    assert W.IsStart(w, t, W.Checking) ==> !W.IsStart(w, t, W.Working);
  }

  lemma HandsStep(x: Endpoint, step: Step)
    requires W.Exclusive(x.token) && HandsOwned(x) && Enabled(x, step)
    ensures HandsOwned(Apply(x, step))
  {
    hide Apply, Enabled;
    var x' := Apply(x, step);
    forall t ensures t in x'.tx.batches <==> SendBusy(x'.token, t) {
      SendHand(x, step, t);
    }
    forall t ensures t in x'.rx.hands <==> RecvBusy(x'.token, t) {
      RecvHand(x, step, t);
    }
    forall s | s in x'.rx.chunks ensures E.Is(x'.epoll, s, E.Looping) {
      ChunkHand(x, step, s);
    }
  }

  lemma ChunkHand(x: Endpoint, step: Step, s: Server)
    requires Enabled(x, step) && s in Apply(x, step).rx.chunks
    requires s in x.rx.chunks ==> E.Is(x.epoll, s, E.Looping)
    ensures E.Is(Apply(x, step).epoll, s, E.Looping)
  {
    hide W.Apply, W.Enabled, S.Apply, S.Enabled, R.Unreceived;
    assert s in x.rx.chunks || (step.Arrive? && step.s == s);
  }

  lemma SendHand(x: Endpoint, step: Step, t: Task)
    requires W.Exclusive(x.token) && Enabled(x, step)
    requires t in x.tx.batches <==> SendBusy(x.token, t)
    ensures t in Apply(x, step).tx.batches <==> SendBusy(Apply(x, step).token, t)
  {
    match TokenOf(step)
    case Some(ts) => SendBusyStep(x.token, ts, t);
    case None =>
  }

  lemma RecvHand(x: Endpoint, step: Step, t: Task)
    requires W.Exclusive(x.token) && Enabled(x, step)
    requires t in x.rx.hands <==> RecvBusy(x.token, t)
    ensures t in Apply(x, step).rx.hands <==> RecvBusy(Apply(x, step).token, t)
  {
    hide W.Apply, W.Enabled, S.Apply, S.Enabled, E.Apply, E.Enabled;
    match TokenOf(step)
    case Some(ts) => RecvBusyStep(x.token, ts, t);
    case None =>
  }

  lemma AwakeStep(x: Endpoint, step: Step)
    requires Awake(x) && Enabled(x, step)
    ensures Awake(Apply(x, step))
  {
    SendersAwake(x, step);
    ReceiversAwake(x, step);
  }

  lemma SendersAwake(x: Endpoint, step: Step)
    requires Enabled(x, step)
    requires x.tx.sendBuf != [] ==> forall t :: t in x.token.loops ==> !x.token.loops[t].send.Asleep?
    ensures var x' := Apply(x, step);
      x'.tx.sendBuf != [] ==> forall t :: t in x'.token.loops ==> !x'.token.loops[t].send.Asleep?
  {
    hide R.Apply, R.Enabled, E.Apply, E.Enabled;
  }

  lemma FramesWereThere(x: Endpoint, step: Step)
    requires Enabled(x, step) && !step.Store?
    ensures CanRead(Apply(x, step).rx.buffer) ==> CanRead(x.rx.buffer)
  {
  }

  lemma StoredStays(x: Endpoint, step: Step, s: Server)
    requires Enabled(x, step) && !step.Notify?
    requires s in x.rx.chunks && x.rx.chunks[s].Stored?
    ensures var m := Apply(x, step).rx.chunks; s in m && m[s].Stored?
  {
    hide W.Apply, W.Enabled, E.Apply, E.Enabled, S.Apply, S.Enabled;
  }

  lemma FellAsleep(w: W.State, ts: W.Step, t: Task)
    requires W.Enabled(w, ts)
    requires var w' := W.Apply(w, ts); t in w'.loops && w'.loops[t].recv.Asleep?
    ensures (t in w.loops && w.loops[t].recv.Asleep?) || ts == W.CheckRecv(t, false)
  {
  }

  lemma ReceiversAwake(x: Endpoint, step: Step)
    requires Awake(x) && Enabled(x, step)
    ensures var x' := Apply(x, step);
      CanRead(x'.rx.buffer) && (exists t :: t in x'.token.loops && x'.token.loops[t].recv.Asleep?) ==>
        exists s :: s in x'.rx.chunks && x'.rx.chunks[s].Stored?
  {
    var x' := Apply(x, step);
    if step.Store? {
      assert x'.rx.chunks[step.s].Stored?;
    } else if step.Notify? {
    } else if CanRead(x'.rx.buffer) && exists t :: t in x'.token.loops && x'.token.loops[t].recv.Asleep? {
      FramesWereThere(x, step);
      var t :| t in x'.token.loops && x'.token.loops[t].recv.Asleep?;
      if TokenOf(step).Some? {
        FellAsleep(x.token, TokenOf(step).ts, t);
      }
      var s :| s in x.rx.chunks && x.rx.chunks[s].Stored?;
      StoredStays(x, step, s);
    }
  }

  lemma LiveStep(x: Endpoint, step: Step, t: Task)
    requires Enabled(x, step) && Live(Apply(x, step), t)
    ensures Live(x, t) || (step.StartPut? && step.t == t)
  {
  }

  lemma StartedStep(e: E.State, es: E.Step, s: Server)
    requires E.Enabled(e, es) && Started(e, s)
    ensures Started(E.Apply(e, es), s) || (es.StopFinish? && es.s == s)
  {
  }

  lemma ServedStep(x: Endpoint, step: Step)
    requires Served(x) && Enabled(x, step)
    ensures Served(Apply(x, step))
  {
    var x' := Apply(x, step);
    forall t | Live(x', t) ensures t in x'.tasks.server && Started(x'.epoll, x'.tasks.server[t]) {
      LiveStep(x, step, t);
      if step.Epoll? && Live(x, t) {
        StartedStep(x.epoll, step.ep, x.tasks.server[t]);
      }
    }
  }

  lemma FreeTokenNoHands(x: Endpoint)
    requires W.Exclusive(x.token) && E.Exclusive(x.epoll) && HandsOwned(x)
    ensures x.token.count == 0 ==> x.tx.batches == map[] && x.rx.hands == map[]
    ensures x.epoll.listenCount == 0 ==> x.rx.chunks == map[]
  {
    if x.token.count == 0 {
      assert forall t :: t in x.token.loops ==> W.IsStart(x.token, t, W.Working);
      assert forall t :: t in x.tx.batches ==> SendBusy(x.token, t);
      assert forall t :: t in x.rx.hands ==> RecvBusy(x.token, t);
      assert x.tx.batches.Keys == {} && x.rx.hands.Keys == {};
    }
    if x.epoll.listenCount == 0 {
      assert x.rx.chunks.Keys == {};
    }
  }

  /** This step closes the descriptors. */
  ghost predicate TearsDown(x: Endpoint, step: Step)
  {
    Enabled(x, step) && step.Epoll? && x.epoll.inited && !Apply(x, step).epoll.inited
  }

  /** No server is left but the one whose stop tears down. */
  lemma LastServer(x: Endpoint, step: Step, s: Server)
    requires Local(x) && TearsDown(x, step) && Started(x.epoll, s)
    ensures step.ep.StopFinish? && step.ep.unreceived == 0 && s == step.ep.s
  {
    assert step.ep.StopFinish?;
    var last := step.ep.s;
    assert last in E.Counted(x.epoll) && s in E.Counted(x.epoll);
    if s != last {
      E.CardinalityMonotone({s, last}, E.Counted(x.epoll));
    }
  }

  /** Whenever a server tears down, no thread has the token or anything in hand, and all that was
      delivered has been parsed and returned. */
  lemma TeardownIsQuiet(x: Endpoint, step: Step)
    requires Local(x) && TearsDown(x, step)
    ensures x.token.count == 0 && x.rx.hands == map[] && x.tx.batches == map[] && x.rx.chunks == map[]
    ensures R.AllReturned(x.rx)
  {
    var last := step.ep.s;
    assert Started(x.epoll, last);
    LastServer(x, step, last);
    forall t ensures !Live(x, t) {
      if Live(x, t) { LastServer(x, step, x.tasks.server[t]); }
    }
    if x.token.count == 1 {
      assert Live(x, x.token.holder.task);
    }
    if x.epoll.listenCount == 1 {
      var s :| E.Is(x.epoll, s, E.Looping);
      LastServer(x, step, s);
    }
    FreeTokenNoHands(x);
    R.NothingUnreceived(x.rx);
  }

  lemma DataStep(x: Endpoint, step: Step)
    requires Enabled(x, step)
    ensures R.Enabled(x.rx, RxOf(x, step)) && Apply(x, step).rx == R.Apply(x.rx, RxOf(x, step))
    ensures AllSendable(x.tx.put) ==> AllSendable(Apply(x, step).tx.put)
  {
  }

  lemma LocalStep(x: Endpoint, step: Step)
    requires Local(x) && Enabled(x, step)
    ensures Local(Apply(x, step))
  {
    hide Apply, Enabled, W.Exclusive, W.NoneStranded, W.Bookkeeping, W.StopHeard;
    hide E.Exclusive, E.StopHeard, E.NoneStranded, E.RefCount, AllSendable;
    hide R.Books, R.RingOk, HandsOwned, Awake, Served, R.Apply, R.Enabled, RxOf;
    DataStep(x, step);
    TokensStep(x, step);
    HandsStep(x, step);
    AwakeStep(x, step);
    ServedStep(x, step);
    OneAtATime(x);
    OneAtATime(Apply(x, step));
    R.BooksStep(x.rx, RxOf(x, step));
    R.RingStep(x.rx, RxOf(x, step));
  }
}
