/** Concrete runs of two endpoints: what the theorems about all runs do not promise does happen. */
module Scenarios {
  import opened Bytes
  import opened Framing
  import opened Hands
  import opened CycleBuffers
  import opened Endpoints
  import opened Links
  import W = WorkToken
  import E = EpollToken
  import S = Sender
  import R = Receiver

  // ---------------------------------------------------------------- putting runs together

  ghost predicate Path(x: Endpoint, steps: seq<Endpoints.Step>, r: Endpoint)
    decreases |steps|
  {
    if steps == [] then x == r
    else
      && !steps[0].Drain? && !steps[0].Arrive? && Endpoints.Enabled(x, steps[0])
      && Path(Endpoints.Apply(x, steps[0]), steps[1..], r)
  }

  /** One endpoint can get from x to r without the network. */
  ghost predicate Leads(x: Endpoint, r: Endpoint)
  {
    exists steps :: Path(x, steps, r)
  }

  lemma Stay(x: Endpoint)
    ensures Leads(x, x)
  {
    assert Path(x, [], x);
  }

  lemma {:induction false} PathSnoc(x: Endpoint, steps: seq<Endpoints.Step>, r: Endpoint, step: Endpoints.Step)
    requires Path(x, steps, r) && Endpoints.Enabled(r, step) && !step.Drain? && !step.Arrive?
    ensures Path(x, steps + [step], Endpoints.Apply(r, step))
    decreases |steps|
  {
    hide Endpoints.Enabled, Endpoints.Apply;
    var longer := steps + [step];
    if steps == [] {
      assert longer[1..] == [];
    } else {
      assert longer[1..] == steps[1..] + [step];
      PathSnoc(Endpoints.Apply(x, steps[0]), steps[1..], r, step);
    }
  }

  lemma Go(x: Endpoint, r: Endpoint, step: Endpoints.Step, r': Endpoint)
    requires Leads(x, r) && Endpoints.Enabled(r, step) && !step.Drain? && !step.Arrive?
    requires Endpoints.Apply(r, step) == r'
    ensures Leads(x, r')
  {
    hide Endpoints.Enabled, Endpoints.Apply;
    var steps :| Path(x, steps, r);
    PathSnoc(x, steps, r, step);
  }

  ghost predicate Reachable(l: Link)
  {
    exists steps, trace :: Run(steps, trace) && trace[|trace| - 1] == l
  }

  lemma Begin()
    ensures Reachable(START)
  {
    var steps: seq<LinkStep> := [];
    var trace := [START];
    assert Run(steps, trace) && trace[|trace| - 1] == START;
  }

  lemma Then(l: Link, step: LinkStep)
    requires Reachable(l) && Links.Enabled(l, step)
    ensures Reachable(Links.Apply(l, step))
  {
    hide Links.Enabled, Links.Apply;
    var steps, trace :| Run(steps, trace) && trace[|trace| - 1] == l;
    var steps', trace' := steps + [step], trace + [Links.Apply(l, step)];
    forall i | 0 <= i < |steps'|
      ensures Links.Enabled(trace'[i], steps'[i]) && trace'[i + 1] == Links.Apply(trace'[i], steps'[i])
    {
      if i < |steps| { assert steps[i] == steps'[i]; }
    }
    assert Run(steps', trace') && trace'[|trace'| - 1] == Links.Apply(l, step);
  }

  lemma {:induction false} PathA(a: Endpoint, steps: seq<Endpoints.Step>, a': Endpoint, b: Endpoint)
    requires Reachable(Link(a, b)) && Path(a, steps, a')
    ensures Reachable(Link(a', b))
    decreases |steps|
  {
    hide Endpoints.Enabled, Endpoints.Apply, Reachable;
    if steps != [] {
      Then(Link(a, b), AtA(steps[0]));
      PathA(Endpoints.Apply(a, steps[0]), steps[1..], a', b);
    }
  }

  lemma {:induction false} PathB(a: Endpoint, b: Endpoint, steps: seq<Endpoints.Step>, b': Endpoint)
    requires Reachable(Link(a, b)) && Path(b, steps, b')
    ensures Reachable(Link(a, b'))
    decreases |steps|
  {
    hide Endpoints.Enabled, Endpoints.Apply, Reachable;
    if steps != [] {
      Then(Link(a, b), AtB(steps[0]));
      PathB(a, Endpoints.Apply(b, steps[0]), steps[1..], b');
    }
  }

  lemma LeadsBoth(a: Endpoint, a': Endpoint, b: Endpoint, b': Endpoint)
    requires Reachable(Link(a, b)) && Leads(a, a') && Leads(b, b')
    ensures Reachable(Link(a', b'))
  {
    hide Path, Reachable;
    var sa :| Path(a, sa, a');
    PathA(a, sa, a', b);
    var sb :| Path(b, sb, b');
    PathB(a', b, sb, b');
  }

  // ---------------------------------------------------------------- one server and one task start

  /** The token of a connection on which task t has just begun to work. */
  function Working(t: Task): W.State
  {
    W.State(map[t := false], 1, W.LastTaken(t), map[t := W.Working], map[t := W.Loops(W.Check, W.Check)], map[])
  }

  /** One server, whose thread handles events. */
  const LISTENING := E.State(1, 1, true, map[0 := E.Looping], map[])

  function Up(x: Endpoint, t: Task): Endpoint
  {
    Endpoint(Working(t), LISTENING,
             x.tx.(sendBuf := x.tx.sendBuf + Encode(LockFrame(t)), put := x.tx.put + [LockFrame(t)]), x.rx,
             Rendezvous({}, {}, map[t := 0], x.tasks.begun + [t], x.tasks.passed, x.tasks.users))
  }

  predicate Fresh(x: Endpoint)
  {
    && x.token == W.INIT && x.epoll == E.INIT && x.tx.batches == map[]
    && x.tasks.announced == {} && x.tasks.unlocked == {} && x.tasks.server == map[]
  }

  lemma ServerUp(x: Endpoint)
    requires Fresh(x)
    ensures Leads(x, x.(epoll := LISTENING))
  {
    hide Leads;
    Stay(x);
    var x1 := x.(epoll := E.State(0, 1, true, map[0 := E.Waiting], map[]));
    Go(x, x, Epoll(E.Start(0)), x1);
    Go(x, x1, Epoll(E.Check(0)), x.(epoll := LISTENING));
  }

  lemma TaskUp(x: Endpoint, t: Task)
    requires Fresh(x) && Sendable(LockFrame(t))
    ensures Leads(x, Up(x, t))
  {
    hide Leads, Encode, Sendable;
    ServerUp(x);
    var x0 := x.(epoll := LISTENING);
    var x1 := Up(x, t).(token := W.INIT, tasks := Up(x, t).tasks.(announced := {t}));
    Go(x, x0, StartPut(t, 0), x1);
    var x2 := Up(x, t).(token := W.INIT.(starts := map[t := W.Spawned]));
    Go(x, x1, Tok(W.Spawn(t)), x2);
    var x3 := x2.(token := W.INIT.(starts := map[t := W.Checking], flags := map[t := false]));
    Go(x, x2, Tok(W.Register(t)), x3);
    Go(x, x3, Tok(W.CheckWork(t)), Up(x, t));
  }

  /** The sending loop takes and writes all there is. */
  lemma SendOut(x: Endpoint, r: Endpoint, t: Task, q: seq<byte>) returns (r': Endpoint)
    requires Leads(x, r) && r.token == Working(t) && q != []
    requires r.tx.sendBuf == q && r.tx.batches == map[] && r.tx.wire == [] && r.tx.dropped == 0
    ensures Leads(x, r') && r'.tx == S.Sender([], map[t := []], q, r.tx.put, 0) && r'.tasks == r.tasks
  {
    hide Leads;
    var sending := Working(t).(loops := map[t := W.Loops(W.Busy, W.Check)]);
    var r1 := r.(token := sending, tx := S.Sender([], map[t := q], [], r.tx.put, 0));
    Go(x, r, Tok(W.CheckSend(t, true)), r1);
    r' := r1.(tx := S.Sender([], map[t := []], q, r.tx.put, 0));
    assert q[..|q|] == q && q[|q|..] == [] && [] + q == q;
    Go(x, r1, WriteSome(t, |q|), r');
  }

  // ---------------------------------------------------------------- a rendezvous frame arrives and is taken

  function Arrived(x: Endpoint, d: seq<byte>): Endpoint
  {
    x.(rx := R.INIT.(chunks := map[0 := R.InHand(d)]))
  }

  function Stored(x: Endpoint, d: seq<byte>): Endpoint
  {
    x.(rx := R.INIT.(buffer := d, delivered := d))
  }

  lemma MakeRoom(x: Endpoint, t: Task, d: seq<byte>)
    requires x.token == Working(t) && |d| <= R.RECV_CAPACITY
    ensures Leads(Arrived(x, d), x.(rx := R.INIT.(chunks := map[0 := R.RoomSeen(d)])))
  {
    hide Leads;
    var x0 := Arrived(x, d);
    Stay(x0);
    var x1 := x.(rx := R.INIT.(chunks := map[0 := R.RoomMade(d)]));
    Go(x0, x0, Endpoints.Grow(0), x1);
    Go(x0, x1, Endpoints.SeeRoom(0), x.(rx := R.INIT.(chunks := map[0 := R.RoomSeen(d)])));
  }

  lemma StoreIt(x: Endpoint, t: Task, d: seq<byte>)
    requires x.token == Working(t) && |d| <= R.RECV_CAPACITY
    ensures Leads(Arrived(x, d), Stored(x, d))
  {
    hide Leads;
    var x0 := Arrived(x, d);
    MakeRoom(x, t, d);
    var x2 := x.(rx := R.INIT.(chunks := map[0 := R.RoomSeen(d)]));
    var x3 := x.(rx := R.INIT.(chunks := map[0 := R.Stored], buffer := d, delivered := d));
    assert [] + d == d;
    Go(x0, x2, Endpoints.Store(0), x3);
    Go(x0, x3, Endpoints.Notify(0), Stored(x, d));
  }

  /** The receiver after the rendezvous byte of t has been returned. */
  function Returned(t: Task, d: seq<byte>): R.Receiver
  {
    R.Receiver(map[], R.RECV_CAPACITY, [], false, map[], map[LockId(t) := []], [LockFrame(t)], d, map[LockId(t) := [49]])
  }

  function Passed(x: Endpoint, t: Task): Endpoint
  {
    x.(rx := Returned(t, Encode(LockFrame(t))), tasks := x.tasks.(unlocked := {t}, passed := x.tasks.passed + [t]))
  }

  /** ... and before, with the frame in hand. */
  function InHand(x: Endpoint, t: Task): Endpoint
  {
    var d := Encode(LockFrame(t));
    x.(token := Working(t).(loops := map[t := W.Loops(W.Check, W.Busy)]),
       rx := R.INIT.(delivered := d, parsed := [LockFrame(t)], hands := map[t := R.Holding(LockFrame(t))]))
  }

  lemma SeeIt(x: Endpoint, t: Task)
    requires x.token == Working(t) && Sendable(LockFrame(t))
    ensures Leads(Stored(x, Encode(LockFrame(t))), InHand(x, t))
  {
    hide Leads, Encode, ParseFront, CanRead;
    var f, d := LockFrame(t), Encode(LockFrame(t));
    var got := Got(f, WireLength(f));
    ParseWhole(f, []);
    EncodeShape(f, []);
    assert d + [] == d && d[|d|..] == [];
    var x0 := Stored(x, d);
    Stay(x0);
    var busy := Working(t).(loops := map[t := W.Loops(W.Check, W.Busy)]);
    var x1 := x0.(token := busy, rx := x0.rx.(hands := map[t := R.Seen(got)]));
    Go(x0, x0, Tok(W.CheckRecv(t, true)), x1);
    assert [] + [f] == [f];
    Go(x0, x1, TakeFrame(t), InHand(x, t));
  }

  lemma TakeIt(x: Endpoint, t: Task)
    requires x.token == Working(t) && x.tasks.unlocked == {} && Sendable(LockFrame(t))
    ensures Leads(Stored(x, Encode(LockFrame(t))), Passed(x, t))
  {
    hide Leads, Encode, Sendable, CanRead;
    var f, d := LockFrame(t), Encode(LockFrame(t));
    SeeIt(x, t);
    var x0, x2 := Stored(x, d), InHand(x, t);
    var x3 := x.(rx := R.INIT.(delivered := d, parsed := [f], mapBuf := map[LockId(t) := [49]]));
    assert [] + f.data == [49];
    Go(x0, x2, Tok(W.RecvDone(t)), x3);
    assert [49 as byte][..1] == [49] && [49 as byte][1..] == [] && [] + [49 as byte] == [49];
    Go(x0, x3, StopRecv(t), Passed(x, t));
  }

  // ---------------------------------------------------------------- the last task and server stop

  lemma TaskDown(x: Endpoint, t: Task)
    requires x.token == Working(t) && x.tasks.unlocked == {t} && !CanRead(x.rx.buffer)
    ensures Leads(x, x.(token := W.INIT.(holder := W.LastTaken(t)), tasks := x.tasks.(unlocked := {})))
  {
    hide Leads, CanRead;
    Stay(x);
    var w, tasks := Working(t), x.tasks.(unlocked := {});
    var x1 := x.(tasks := tasks, token := w.(flags := map[t := true], stops := map[t := W.Flagged]));
    Go(x, x, Tok(W.SetFlag(t)), x1);
    Notified(x, x1, t);
    var x3 := x1.(token := x1.token.(stops := map[t := W.Notified]));
    LoopsDown(x, x3, t);
    var x6 := x3.(token := W.State(map[t := true], 0, W.LastTaken(t), map[t := W.Finished], map[], map[t := W.Notified]));
    Go(x, x6, Tok(W.Join(t)), x6.(token := W.INIT.(holder := W.LastTaken(t))));
  }

  lemma Notified(x: Endpoint, x1: Endpoint, t: Task)
    requires Leads(x, x1) && x1.token == Working(t).(flags := map[t := true], stops := map[t := W.Flagged])
    ensures Leads(x, x1.(token := x1.token.(stops := map[t := W.Notified])))
  {
    hide Leads, CanRead;
    var x2 := x1.(token := x1.token.(stops := map[t := W.HalfNotified]));
    Go(x, x1, Tok(W.NotifyStop(t)), x2);
    Go(x, x2, Tok(W.NotifyRecv(t)), x1.(token := x1.token.(stops := map[t := W.Notified])));
  }

  lemma LoopsDown(x: Endpoint, x3: Endpoint, t: Task)
    requires Leads(x, x3) && !CanRead(x3.rx.buffer)
    requires x3.token == Working(t).(flags := map[t := true], stops := map[t := W.Notified])
    ensures Leads(x, x3.(token := W.State(map[t := true], 0, W.LastTaken(t), map[t := W.Finished], map[], map[t := W.Notified])))
  {
    hide Leads, CanRead;
    var x4 := x3.(token := x3.token.(loops := map[t := W.Loops(W.Ended, W.Check)]));
    SendLoopDown(x, x3, t);
    var x5 := x3.(token := x3.token.(loops := map[t := W.Loops(W.Ended, W.Ended)]));
    Go(x, x4, Tok(W.CheckRecv(t, false)), x5);
    var x6 := x3.(token := W.State(map[t := true], 0, W.LastTaken(t), map[t := W.Finished], map[], map[t := W.Notified]));
    Go(x, x5, Tok(W.Release(t)), x6);
  }

  lemma SendLoopDown(x: Endpoint, x3: Endpoint, t: Task)
    requires Leads(x, x3) && x3.token == Working(t).(flags := map[t := true], stops := map[t := W.Notified])
    ensures Leads(x, x3.(token := x3.token.(loops := map[t := W.Loops(W.Ended, W.Check)])))
  {
    hide Leads, CanRead;
    Go(x, x3, Tok(W.CheckSend(t, x3.tx.sendBuf != [])), x3.(token := x3.token.(loops := map[t := W.Loops(W.Ended, W.Check)])));
  }

  lemma ServerDown(x: Endpoint, r: Endpoint)
    requires Leads(x, r) && r.epoll == LISTENING && r.rx.chunks == map[]
    ensures Leads(x, r.(epoll := E.State(0, 1, true, map[0 := E.Exited], map[0 := E.Notified])))
  {
    hide Leads;
    var r1 := r.(epoll := E.State(1, 1, true, map[0 := E.Looping], map[0 := E.Flagged]));
    Go(x, r, Epoll(E.StopFlag(0)), r1);
    var r2 := r.(epoll := E.State(1, 1, true, map[0 := E.Looping], map[0 := E.Notified]));
    Go(x, r1, Epoll(E.StopNotify(0)), r2);
    Go(x, r2, Epoll(E.Release(0, E.NoOne)), r.(epoll := E.State(0, 1, true, map[0 := E.Exited], map[0 := E.Notified])));
  }

  // ---------------------------------------------------------------- the runs

  /** Both ends are up; a has written the rendezvous frame of t and more behind it; b has read that frame and
      passed the rendezvous of t. */
  lemma Meet(a: Endpoint, t: Task, rest: seq<byte>) returns (l: Link)
    requires Leads(Endpoints.INIT, a) && |t| <= 200
    requires a.tx.wire == Encode(LockFrame(t)) + rest
    ensures Reachable(l) && l.a == a.(tx := a.tx.(wire := rest)) && l.b == Passed(Up(Endpoints.INIT, t), t)
  {
    hide Leads, Reachable, Encode;
    var d := Encode(LockFrame(t));
    EncodeShape(LockFrame(t), []);
    assert Fresh(Endpoints.INIT);
    TaskUp(Endpoints.INIT, t);
    var b := Up(Endpoints.INIT, t);
    Begin();
    LeadsBoth(Endpoints.INIT, a, Endpoints.INIT, b);
    assert a.tx.wire[..|d|] == d && a.tx.wire[|d|..] == rest;
    var l1 := Link(a.(tx := a.tx.(wire := rest)), Arrived(b, d));
    assert Links.Apply(Link(a, b), AToB(0, |d|)) == l1;
    Then(Link(a, b), AToB(0, |d|));
    StoreIt(b, t, d);
    Stay(l1.a);
    LeadsBoth(l1.a, l1.a, l1.b, Stored(b, d));
    TakeIt(b, t);
    l := Link(l1.a, Passed(b, t));
    LeadsBoth(l1.a, l1.a, Stored(b, d), l.b);
  }

  /** A stop gets through on a rendezvous byte that a user sent: task t passes at b, and was never started
      at a. */
  lemma ForgedRendezvous(t: Task, u: Task) returns (l: Link)
    requires |t| <= 200 && |u| <= 200
    ensures Reachable(l) && l.b.tasks.passed == [t] && l.a.tasks.begun == [u] && l.a.tasks.users == [LockFrame(t)]
  {
    hide Leads, Reachable, Encode;
    var d, more := Encode(LockFrame(t)), Encode(LockFrame(u));
    EncodeShape(LockFrame(t), []);
    var x := Endpoints.INIT;
    var x1 := x.(tx := x.tx.(sendBuf := d, put := [LockFrame(t)]), tasks := x.tasks.(users := [LockFrame(t)]));
    assert [] + d == d;
    Stay(x);
    Go(x, x, Send(LockFrame(t)), x1);
    TaskUp(x1, u);
    LeadsOn(x, x1, Up(x1, u));
    var a := SendOut(x, Up(x1, u), u, d + more);
    l := Meet(a, t, more);
  }

  lemma LeadsOn(x: Endpoint, y: Endpoint, z: Endpoint)
    requires Leads(x, y) && Leads(y, z)
    ensures Leads(x, z)
  {
    var s1 :| Path(x, s1, y);
    var s2 :| Path(y, s2, z);
    PathAppend(x, s1, y, s2, z);
  }

  lemma {:induction false} PathAppend(x: Endpoint, s1: seq<Endpoints.Step>, y: Endpoint, s2: seq<Endpoints.Step>, z: Endpoint)
    requires Path(x, s1, y) && Path(y, s2, z)
    ensures Path(x, s1 + s2, z)
    decreases |s1|
  {
    hide Endpoints.Enabled, Endpoints.Apply;
    if s1 == [] {
      assert s1 + s2 == s2;
    } else {
      assert (s1 + s2)[1..] == s1[1..] + s2;
      PathAppend(Endpoints.Apply(x, s1[0]), s1[1..], y, s2, z);
    }
  }

  lemma LockSendable(t: Task)
    requires |t| <= 200
    ensures Sendable(LockFrame(t))
  {
  }

  /** A teardown that comes too early: the only task and the only server of b have stopped as they should, the
      count is 0, the teardown is the next step; and a frame that a put after its start is still on the wire. */
  lemma EarlyTeardown(t: Task, f: Frame) returns (l: Link)
    requires |t| <= 200 && Sendable(f)
    ensures Reachable(l) && TearsDown(l.b, Epoll(E.StopFinish(0, 0)))
    ensures l.a.tx.put == [LockFrame(t), f] && l.b.rx.parsed == [LockFrame(t)] && l.a.tx.wire == Encode(f)
    ensures l.b.tasks.passed == [t] && l.a.tasks.begun == [t] && l.a.tasks.users == [f] && l.a.tx.dropped == 0
  {
    hide Leads, Reachable, Encode, Sendable;
    var x := Endpoints.INIT;
    var d := Encode(LockFrame(t));
    LockSendable(t);
    EncodeShape(LockFrame(t), []);
    assert Fresh(x);
    TaskUp(x, t);
    var x1 := Up(x, t);
    assert [] + d == d;
    var x2 := x1.(tx := x1.tx.(sendBuf := d + Encode(f), put := [LockFrame(t), f]), tasks := x1.tasks.(users := [f]));
    Go(x, x1, Send(f), x2);
    var a := SendOut(x, x2, t, d + Encode(f));
    var l1 := Meet(a, t, Encode(f));
    var b := StopAll(t);
    Stay(l1.a);
    LeadsBoth(l1.a, l1.a, l1.b, b);
    l := Link(l1.a, b);
  }

  lemma StopAll(t: Task) returns (r: Endpoint)
    ensures var x := Passed(Up(Endpoints.INIT, t), t);
      Leads(x, r) && TearsDown(r, Epoll(E.StopFinish(0, 0))) && r.rx == x.rx && r.tasks.passed == [t]
  {
    hide Leads, Encode;
    var x := Passed(Up(Endpoints.INIT, t), t);
    TaskDown(x, t);
    var x1 := x.(token := W.INIT.(holder := W.LastTaken(t)), tasks := x.tasks.(unlocked := {}));
    ServerDown(x, x1);
    r := x1.(epoll := E.State(0, 1, true, map[0 := E.Exited], map[0 := E.Notified]));
    R.TotalOfEmpty(r.rx.mapBuf);
    assert E.Apply(r.epoll, E.StopFinish(0, 0)).inited == false;
  }
}
