/** The process-wide servers: one epoll descriptor, one listening thread per task, of which a single
    one at a time handles events (the token), and a reference count that decides who tears down. */
module EpollToken {
  type Server = nat

  /** A server's listening thread, from a failed or successful start to the end of its stop. The stop of a
      server whose start failed sets its flag and notifies like any other, but has no thread to join and
      does not get past that. */
  datatype Listener = StartFailed | Waiting | Parked | Looping | Exited | Gone

  /** stop() has set the flag; it has sent its notify_all. */
  datatype Stopper = Flagged | Notified

  datatype Woken = NoOne | One(s: Server)

  datatype State = State(
    listenCount: int,
    taskCount: int,
    inited: bool,
    servers: map<Server, Listener>,
    stops: map<Server, Stopper>)

  const INIT := State(0, 0, false, map[], map[])

  datatype Step =
    | Start(s: Server)
    | StartFails(s: Server)
    | Check(s: Server)
    | Spurious(s: Server)
    | Release(s: Server, woken: Woken)    // notify_one reaches woken
    | StopFlag(s: Server)
    | StopNotify(s: Server)
    | StopFinish(s: Server, unreceived: nat)

  predicate Is(st: State, s: Server, l: Listener)
  {
    s in st.servers && st.servers[s] == l
  }

  predicate IsStop(st: State, s: Server, p: Stopper)
  {
    s in st.stops && st.stops[s] == p
  }

  predicate Enabled(st: State, step: Step)
  {
    match step
    case Start(s) => s !in st.servers
    case StartFails(s) => s !in st.servers && !st.inited
    case Check(s) => Is(st, s, Waiting)
    case Spurious(s) => Is(st, s, Parked)
    case Release(s, w) =>
      && Is(st, s, Looping)
      && (w.NoOne? ==> forall u :: u in st.servers ==> !st.servers[u].Parked?)
      && (w.One? ==> Is(st, w.s, Parked))
    case StopFlag(s) => s in st.servers && s !in st.stops
    case StopNotify(s) => IsStop(st, s, Flagged)
    case StopFinish(s, _) => IsStop(st, s, Notified) && Is(st, s, Exited)
  }

  function WakeAll(m: map<Server, Listener>): map<Server, Listener>
  {
    map s | s in m :: if m[s].Parked? then Waiting else m[s]
  }

  function Apply(st: State, step: Step): State
    requires Enabled(st, step)
  {
    match step
    case Start(s) => st.(taskCount := st.taskCount + 1, inited := true, servers := st.servers[s := Waiting])
    case StartFails(s) => st.(taskCount := st.taskCount + 1, servers := st.servers[s := StartFailed])
    case Check(s) =>
      if st.listenCount == 0 || s in st.stops then
        if s in st.stops then st.(servers := st.servers[s := Exited])
        else st.(listenCount := st.listenCount + 1, servers := st.servers[s := Looping])
      else st.(servers := st.servers[s := Parked])
    case Spurious(s) => st.(servers := st.servers[s := Waiting])
    case Release(s, w) =>
      var m := st.servers[s := Exited];
      st.(listenCount := st.listenCount - 1, servers := if w.One? then m[w.s := Waiting] else m)
    case StopFlag(s) => st.(stops := st.stops[s := Flagged])
    case StopNotify(s) => st.(stops := st.stops[s := Notified], servers := WakeAll(st.servers))
    case StopFinish(s, unreceived) =>
      st.(taskCount := st.taskCount - 1, servers := st.servers[s := Gone],
          inited := st.inited && !(st.taskCount - 1 == 0 && unreceived == 0))
  }

  ghost predicate Exclusive(st: State)
  {
    && 0 <= st.listenCount <= 1
    && (forall s :: Is(st, s, Looping) ==> st.listenCount == 1)
    && (forall s, u :: Is(st, s, Looping) && Is(st, u, Looping) ==> s == u)
    && (st.listenCount == 1 ==> exists s :: Is(st, s, Looping))
  }

  /** A parked thread whose own stop has begun will still be reached by that stop's notify_all. */
  ghost predicate StopHeard(st: State)
  {
    forall s :: Is(st, s, Parked) && s in st.stops ==> IsStop(st, s, Flagged)
  }

  /** Some thread is about to look at the token, or some stop is about to wake everybody. */
  ghost predicate HelpComing(st: State)
  {
    || (exists s :: Is(st, s, Waiting) && s !in st.stops)
    || (exists s :: IsStop(st, s, Flagged))
  }

  ghost predicate NoneStranded(st: State)
  {
    st.listenCount == 0 && (exists s :: Is(st, s, Parked) && s !in st.stops) ==> HelpComing(st)
  }

  /** Servers counted in taskCount: those whose stop has not finished, failed starts for ever. */
  function Counted(st: State): set<Server>
  {
    set s | s in st.servers && !st.servers[s].Gone?
  }

  predicate RefCount(st: State)
  {
    && st.taskCount == |Counted(st)|
    && (forall s :: s in st.servers && !st.servers[s].Gone? && !st.servers[s].StartFailed? ==> st.inited)
    && (forall s :: s in st.stops ==> s in st.servers)
  }

  ghost predicate Inv(st: State)
  {
    Exclusive(st) && StopHeard(st) && NoneStranded(st) && RefCount(st)
  }

  lemma ExclusiveStep(st: State, step: Step)
    requires Inv(st) && Enabled(st, step)
    ensures Exclusive(Apply(st, step)) && StopHeard(Apply(st, step))
  {
    var st' := Apply(st, step);
    forall s | Is(st', s, Looping)
      ensures st'.listenCount == 1
      ensures forall u :: Is(st', u, Looping) ==> u == s
    {
      assert Is(st, s, Looping) || step == Check(s);
      assert forall u :: Is(st', u, Looping) ==> Is(st, u, Looping) || step == Check(u);
    }
    if st'.listenCount == 1 {
      if step.Check? && st.listenCount == 0 {
        assert Is(st', step.s, Looping);
      } else {
        var s :| Is(st, s, Looping);
        assert Is(st', s, Looping);
      }
    }
    forall s | Is(st', s, Parked) && s in st'.stops ensures IsStop(st', s, Flagged) {
      assert Is(st, s, Parked) || step == Check(s);
    }
  }

  /** notify_one strands nobody: the thread it wakes either looks at the token, or its own stop is still
      to wake all the others. */
  lemma NoneStrandedStep(st: State, step: Step)
    requires Inv(st) && Enabled(st, step)
    ensures NoneStranded(Apply(st, step))
  {
    var st' := Apply(st, step);
    assert forall s :: Is(st', s, Parked) && st'.listenCount == 0 ==> Is(st, s, Parked);
    if step.Release? {
      var w := step.woken;
      if w.One? {
        assert if w.s in st.stops then IsStop(st', w.s, Flagged) else Is(st', w.s, Waiting);
      }
    } else if step.StopFlag? {
      assert IsStop(st', step.s, Flagged);
    } else if !step.StopNotify? && st'.listenCount == 0 {
      assert forall s :: IsStop(st, s, Flagged) ==> IsStop(st', s, Flagged);
      assert forall s :: Is(st, s, Waiting) && s !in st.stops ==> Is(st', s, Waiting);
    }
  }

  function Delta(step: Step): (set<Server>, set<Server>)
  {
    match step
    case Start(s) => ({s}, {})
    case StartFails(s) => ({s}, {})
    case StopFinish(s, _) => ({}, {s})
    case _ => ({}, {})
  }

  lemma CountedStep(st: State, step: Step)
    requires Enabled(st, step)
    ensures Counted(Apply(st, step)) == Counted(st) + Delta(step).0 - Delta(step).1
    ensures Delta(step).0 !! Counted(st) && Delta(step).1 <= Counted(st)
  {
  }

  lemma TaskCountStep(st: State, step: Step)
    requires Inv(st) && Enabled(st, step)
    ensures Apply(st, step).taskCount == |Counted(Apply(st, step))|
  {
    CountedStep(st, step);
    var before, after := Counted(st), Counted(Apply(st, step));
    if step.Start? || step.StartFails? {
      assert after == before + {step.s} && step.s !in before;
    } else if step.StopFinish? {
      assert after == before - {step.s} && step.s in before;
    } else {
      assert after == before;
    }
  }

  lemma RefCountStep(st: State, step: Step)
    requires Inv(st) && Enabled(st, step)
    ensures RefCount(Apply(st, step))
  {
    var st' := Apply(st, step);
    TaskCountStep(st, step);
    if st'.taskCount == 0 {
      assert Counted(st') == {};
      assert forall s :: s in st'.servers && !st'.servers[s].Gone? ==> s in Counted(st');
    }
  }

  lemma InvStep(st: State, step: Step)
    requires Inv(st) && Enabled(st, step)
    ensures Inv(Apply(st, step))
  {
    ExclusiveStep(st, step);
    NoneStrandedStep(st, step);
    RefCountStep(st, step);
  }

  /** r is reached from st by making precisely these steps. */
  predicate Reaches(st: State, steps: seq<Step>, r: State)
    decreases |steps|
  {
    if steps == [] then st == r
    else Enabled(st, steps[0]) && Reaches(Apply(st, steps[0]), steps[1..], r)
  }

  lemma {:induction false} InvAlong(st: State, steps: seq<Step>, r: State)
    requires Inv(st) && Reaches(st, steps, r)
    ensures Inv(r)
    decreases |steps|
  {
    if steps != [] {
      InvStep(st, steps[0]);
      InvAlong(Apply(st, steps[0]), steps[1..], r);
    }
  }

  /** In every state of every run: one thread at a time handles events; a free token with a live waiter
      parked has help coming; and the descriptors stay open while any started server is not stopped. */
  lemma ServerSafety(steps: seq<Step>, st: State)
    requires Reaches(INIT, steps, st)
    ensures 0 <= st.listenCount <= 1
    ensures forall s, u :: Is(st, s, Looping) && Is(st, u, Looping) ==> s == u
    ensures st.listenCount == 0 && (exists s :: Is(st, s, Parked) && s !in st.stops) ==> HelpComing(st)
    ensures forall s :: s in st.servers && !st.servers[s].Gone? && !st.servers[s].StartFailed? ==> st.inited
  {
    InvAlong(INIT, steps, st);
  }

  /** Teardown happens in a stop precisely when no other server, not even one that failed to
      start, is counted any more and every received byte has been taken. */
  lemma TeardownExactly(steps: seq<Step>, st: State, s: Server, unreceived: nat)
    requires Reaches(INIT, steps, st) && Enabled(st, StopFinish(s, unreceived))
    ensures !Apply(st, StopFinish(s, unreceived)).inited <==>
      unreceived == 0 && forall u :: u in st.servers && u != s ==> st.servers[u].Gone?
  {
    InvAlong(INIT, steps, st);
    assert s in Counted(st);
    if forall u :: u in st.servers && u != s ==> st.servers[u].Gone? {
      assert Counted(st) == {s};
    } else {
      var u :| u in st.servers && u != s && !st.servers[u].Gone?;
      assert {s, u} <= Counted(st);
      CardinalityMonotone({s, u}, Counted(st));
    }
  }

  lemma Here(st: State)
    ensures Reaches(st, [], st)
  {
  }

  lemma Prepend(st: State, step: Step, st': State, steps: seq<Step>, r: State) returns (longer: seq<Step>)
    requires Enabled(st, step) && Apply(st, step) == st' && Reaches(st', steps, r)
    ensures Reaches(st, longer, r)
  {
    longer := [step] + steps;
    assert longer[1..] == steps;
  }

  /** A server whose start failed is counted for good: here the only server that did start stops as it should,
      with nothing unreceived, and the descriptors stay open. */
  lemma FailedStartKeepsOpen() returns (steps: seq<Step>, st: State)
    ensures Reaches(INIT, steps, st) && st.servers == map[0 := StartFailed, 1 := Exited] && st.stops == map[1 := Notified]
    ensures Enabled(st, StopFinish(1, 0)) && Apply(st, StopFinish(1, 0)).inited
  {
    hide Reaches;
    var s1 := Apply(INIT, StartFails(0));
    var s2 := Apply(s1, Start(1));
    var s3 := Apply(s2, Check(1));
    var s4 := Apply(s3, StopFlag(1));
    var s5 := Apply(s4, Release(1, NoOne));
    st := Apply(s5, StopNotify(1));
    Here(st);
    steps := Prepend(s5, StopNotify(1), st, [], st);
    steps := Prepend(s4, Release(1, NoOne), s5, steps, st);
    steps := Prepend(s3, StopFlag(1), s4, steps, st);
    steps := Prepend(s2, Check(1), s3, steps, st);
    steps := Prepend(s1, Start(1), s2, steps, st);
    steps := Prepend(INIT, StartFails(0), s1, steps, st);
  }

  lemma CardinalityMonotone<T>(a: set<T>, b: set<T>)
    requires a <= b
    ensures |a| <= |b|
  {
    assert b == a + (b - a);
  }

  // ---------------------------------------------------------------- nobody gives up

  predicate HasEnded(st: State, s: Server)
  {
    Is(st, s, Exited) || Is(st, s, Gone)
  }

  /** A listening thread ends only through its own stop, or after it has held the token; a stopped thread
      takes no token; and a free token is taken by a live thread that looks. */
  lemma LookAtToken(st: State, step: Step, s: Server)
    requires Exclusive(st) && Enabled(st, step)
    ensures Is(Apply(st, step), s, Exited) && !Is(st, s, Exited) ==>
      s in st.stops || (step.Release? && step.s == s)
    ensures Is(Apply(st, step), s, Looping) && !Is(st, s, Looping) ==>
      st.listenCount == 0 && s !in st.stops && step == Check(s)
    ensures step == Check(s) && s !in st.stops ==>
      Is(Apply(st, step), s, if st.listenCount == 0 then Looping else Parked)
    ensures step == Check(s) && s in st.stops ==> Is(Apply(st, step), s, Exited)
    ensures step.Release? && Is(st, s, Parked) ==>
      Is(Apply(st, step), s, if step.woken == One(s) then Waiting else Parked)
  {
  }

  predicate Releases(steps: seq<Step>, s: Server)
  {
    steps != [] && ((steps[0].Release? && steps[0].s == s) || Releases(steps[1..], s))
  }

  /** Over runs: a listening thread that has not ended, that has not given back the token and whose stop has not
      begun, waits for the token or has it. */
  lemma {:induction false} NobodyGivesUp(st: State, steps: seq<Step>, r: State, s: Server)
    requires Inv(st) && Reaches(st, steps, r)
    requires s in st.servers && !st.servers[s].StartFailed? && !HasEnded(st, s)
    requires s !in r.stops && !Releases(steps, s)
    ensures Is(r, s, Waiting) || Is(r, s, Parked) || Is(r, s, Looping)
    decreases |steps|
  {
    if steps != [] {
      var st', rest := Apply(st, steps[0]), steps[1..];
      if s in st.stops { StopsStay(st, steps, r, s); }
      if s in st'.stops { StopsStay(st', rest, r, s); }
      InvStep(st, steps[0]);
      LookAtToken(st, steps[0], s);
      NobodyGivesUp(st', rest, r, s);
    }
  }

  lemma {:induction false} StopsStay(st: State, steps: seq<Step>, r: State, s: Server)
    requires Reaches(st, steps, r) && s in st.stops
    ensures s in r.stops
    decreases |steps|
  {
    if steps != [] {
      StopsStay(Apply(st, steps[0]), steps[1..], r, s);
    }
  }

  /** The hand-over happens: while the token is free and some live thread is parked or about to look, two steps
      of threads that are on their way at most put a live thread in charge of the events. */
  lemma TokenIsTaken(st: State, u: Server) returns (steps: seq<Step>, r: State)
    requires Inv(st) && st.listenCount == 0 && u !in st.stops && (Is(st, u, Waiting) || Is(st, u, Parked))
    ensures |steps| <= 2 && (forall step :: step in steps ==> step.Check? || step.StopNotify?)
    ensures Reaches(st, steps, r) && r.listenCount == 1
    ensures exists s :: Is(r, s, Looping) && s !in r.stops
  {
    if s :| Is(st, s, Waiting) && s !in st.stops {
      steps, r := [Check(s)], Apply(st, Check(s));
      assert Is(r, s, Looping);
      assert Reaches(r, steps[1..], r);
    } else {
      assert Is(st, u, Parked);
      var f :| IsStop(st, f, Flagged);
      var st1 := Apply(st, StopNotify(f));
      assert Is(st1, u, Waiting) && u !in st1.stops;
      r := Apply(st1, Check(u));
      assert Is(r, u, Looping);
      steps := [StopNotify(f), Check(u)];
      assert steps[1..] == [Check(u)] && steps[1..][1..] == [];
      assert Reaches(st1, steps[1..], r);
    }
  }

  /** The listening thread of a stop that has sent its notify has ended, or one step of its own ends it; no
      step of another thread holds it back. */
  lemma NotifiedStopEnds(st: State, s: Server)
    requires Inv(st) && IsStop(st, s, Notified) && !Is(st, s, StartFailed)
    ensures HasEnded(st, s) || Is(st, s, Waiting) || Is(st, s, Looping)
    ensures Is(st, s, Waiting) ==> Enabled(st, Check(s)) && Is(Apply(st, Check(s)), s, Exited)
    ensures Is(st, s, Looping) ==>
      exists w :: Enabled(st, Release(s, w)) && Is(Apply(st, Release(s, w)), s, Exited)
    ensures forall step :: Enabled(st, step) && (Is(st, s, Waiting) || Is(st, s, Looping)) ==>
      st.servers[s] == Apply(st, step).servers[s] || Is(Apply(st, step), s, Exited)
  {
    if Is(st, s, Looping) {
      var w := NoOne;
      if p :| p in st.servers && st.servers[p].Parked? {
        w := One(p);
      }
      assert Enabled(st, Release(s, w)) && Is(Apply(st, Release(s, w)), s, Exited);
    }
  }

  predicate Concerns(step: Step, s: Server)
  {
    step.s == s
  }

  /** Steps of other threads leave a server as it is, except that they may wake its parked thread. */
  lemma OthersUntouched(st: State, step: Step, s: Server)
    requires Enabled(st, step) && !Concerns(step, s)
    ensures var st' := Apply(st, step);
      && (s in st'.servers <==> s in st.servers) && (s in st'.stops <==> s in st.stops)
      && (s in st.stops ==> st'.stops[s] == st.stops[s])
      && (s in st.servers ==> st'.servers[s] == st.servers[s] || (Is(st, s, Parked) && Is(st', s, Waiting)))
  {
  }

  // ---------------------------------------------------------------- the servers in memory

  /** The static members of the server class. Each method is one critical section and makes the step of the
      same kind; the ghost fields record the listening threads and the stops. */
  class Servers {
    var listenCount: int
    var taskCount: int
    var inited: bool
    ghost var listeners: map<Server, Listener>
    ghost var stops: map<Server, Stopper>

    ghost function View(): State
      reads this
    {
      State(listenCount, taskCount, inited, listeners, stops)
    }

    constructor ()
      ensures View() == INIT
    {
      listenCount, taskCount, inited := 0, 0, false;
      listeners, stops := map[], map[];
    }

    /** start(): the first server opens the descriptors, if it can. */
    method Begin(ghost s: Server, opens: bool) returns (ok: bool)
      requires s !in listeners
      modifies this
      ensures ok <==> old(inited) || opens
      ensures var step := if ok then Start(s) else StartFails(s);
        Enabled(old(View()), step) && View() == Apply(old(View()), step)
      ensures taskCount == old(taskCount) + 1 && listenCount == old(listenCount) && inited == (old(inited) || opens)
    {
      taskCount := taskCount + 1;
      if !inited {
        if !opens {
          listeners := listeners[s := StartFailed];
          return false;
        }
        inited := true;
      }
      listeners := listeners[s := Waiting];
      return true;
    }

    /** The wait at the top of loop_main, evaluated once. */
    method TryListen(ghost s: Server, stop: bool) returns (next: Listener)
      requires Enabled(View(), Check(s)) && (stop <==> s in stops)
      modifies this
      ensures View() == Apply(old(View()), Check(s)) && Is(View(), s, next)
      ensures next == if stop then Exited else if old(listenCount) == 0 then Looping else Parked
      ensures listenCount == old(listenCount) + (if next.Looping? then 1 else 0)
      ensures taskCount == old(taskCount) && inited == old(inited)
    {
      next := Parked;
      if listenCount == 0 || stop {
        if stop {
          next := Exited;
        } else {
          listenCount := listenCount + 1;
          next := Looping;
        }
      }
      listeners := listeners[s := next];
    }

    /** The end of loop_main; woken is the thread that notify_one reaches. */
    method EndListen(ghost s: Server, ghost woken: Woken)
      requires Enabled(View(), Release(s, woken))
      modifies this
      ensures View() == Apply(old(View()), Release(s, woken))
      ensures listenCount == old(listenCount) - 1 && taskCount == old(taskCount) && inited == old(inited)
      ensures woken.One? ==> !Is(View(), woken.s, Parked)
    {
      listenCount := listenCount - 1;
      listeners := listeners[s := Exited];
      if woken.One? {
        listeners := listeners[woken.s := Waiting];
      }
    }

    /** The last critical section of stop(). */
    method EndStop(ghost s: Server, unreceived: nat) returns (tornDown: bool)
      requires Enabled(View(), StopFinish(s, unreceived))
      modifies this
      ensures View() == Apply(old(View()), StopFinish(s, unreceived))
      ensures tornDown <==> taskCount == 0 && unreceived == 0
      ensures taskCount == old(taskCount) - 1 && listenCount == old(listenCount)
      ensures inited == (old(inited) && !tornDown)
    {
      taskCount := taskCount - 1;
      listeners := listeners[s := Gone];
      tornDown := taskCount == 0 && unreceived == 0;
      if tornDown {
        inited := false;
      }
    }
  }
}
