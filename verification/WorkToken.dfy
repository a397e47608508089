/** The work token of one connection. Several tasks share the connection; the one that holds the token
    runs the sending and the receiving loop, the others wait in their start threads. Each step below is
    one critical section; a parked thread moves only when a notify (or a spurious wake-up) reaches it. */
module WorkToken {
  import opened Bytes

  type Task = seq<byte>

  /** A task's start thread. */
  datatype Starter = Spawned | Checking | Parked | Working | Finished

  /** One of the two loop threads: about to evaluate its wait predicate, parked, moving data outside
      the lock, or ended. */
  datatype Looper = Check | Asleep | Busy | Ended

  datatype Loops = Loops(send: Looper, recv: Looper)

  /** A stop in progress: flag set, senders notified, everybody notified (and waiting for the join). */
  datatype Stopper = Flagged | HalfNotified | Notified

  datatype Holder = Nobody | LastTaken(task: Task)

  datatype State = State(
    flags: map<Task, bool>,       // stop_works_
    count: int,                   // work_count_
    holder: Holder,               // work_task_id_, not cleared on release
    starts: map<Task, Starter>,
    loops: map<Task, Loops>,      // threads between taking and releasing the token
    stops: map<Task, Stopper>)

  const INIT := State(map[], 0, Nobody, map[], map[], map[])

  datatype Step =
    | Spawn(t: Task)
    | Register(t: Task)
    | CheckWork(t: Task)
    | CheckSend(t: Task, hasData: bool)
    | SendDone(t: Task)
    | CheckRecv(t: Task, canRead: bool)
    | RecvDone(t: Task)
    | Release(t: Task)
    | SetFlag(t: Task)
    | NotifyStop(t: Task)
    | NotifyRecv(t: Task)
    | Join(t: Task)
    | DataPut                     // notify on send_buffer_cv_, or a spurious wake-up there
    | DataArrived                 // notify on buffer_cv_, or a spurious wake-up there
    | SpuriousStart(t: Task)

  predicate IsStart(s: State, t: Task, pc: Starter)
  {
    t in s.starts && s.starts[t] == pc
  }

  predicate IsStop(s: State, t: Task, pc: Stopper)
  {
    t in s.stops && s.stops[t] == pc
  }

  predicate StopSet(s: State, t: Task)
  {
    t in s.flags && s.flags[t]
  }

  /** Task ids of live tasks are distinct: a task is spawned only while no task of that id is live,
      and stopped once, after its start call returned. */
  predicate Enabled(s: State, step: Step)
  {
    match step
    case Spawn(t) => t !in s.starts
    case Register(t) => IsStart(s, t, Spawned)
    case CheckWork(t) => IsStart(s, t, Checking)
    case CheckSend(t, _) => t in s.loops && s.loops[t].send.Check?
    case SendDone(t) => t in s.loops && s.loops[t].send.Busy?
    case CheckRecv(t, _) => t in s.loops && s.loops[t].recv.Check?
    case RecvDone(t) => t in s.loops && s.loops[t].recv.Busy?
    case Release(t) => IsStart(s, t, Working) && t in s.loops && s.loops[t] == Loops(Ended, Ended)
    case SetFlag(t) => t in s.flags && t !in s.stops
    case NotifyStop(t) => IsStop(s, t, Flagged)
    case NotifyRecv(t) => IsStop(s, t, HalfNotified)
    case Join(t) => IsStop(s, t, Notified) && IsStart(s, t, Finished)
    case DataPut => true
    case DataArrived => true
    case SpuriousStart(t) => IsStart(s, t, Parked)
  }

  function WakeStarts(m: map<Task, Starter>): map<Task, Starter>
  {
    map t | t in m :: if m[t].Parked? then Checking else m[t]
  }

  function WakeSend(m: map<Task, Loops>): map<Task, Loops>
  {
    map t | t in m :: if m[t].send.Asleep? then m[t].(send := Check) else m[t]
  }

  function WakeRecv(m: map<Task, Loops>): map<Task, Loops>
  {
    map t | t in m :: if m[t].recv.Asleep? then m[t].(recv := Check) else m[t]
  }

  /** The wait predicate of a loop: the stop flag is looked at first. */
  function AfterCheck(stop: bool, ready: bool): Looper
  {
    if stop then Ended else if ready then Busy else Asleep
  }

  function Apply(s: State, step: Step): State
    requires Enabled(s, step)
  {
    match step
    case Spawn(t) => s.(starts := s.starts[t := Spawned])
    case Register(t) =>
      s.(starts := s.starts[t := Checking], flags := if t in s.flags then s.flags else s.flags[t := false])
    case CheckWork(t) =>
      if s.count == 0 then
        s.(count := s.count + 1, holder := LastTaken(t), starts := s.starts[t := Working],
           loops := s.loops[t := Loops(Check, Check)])
      else if StopSet(s, t) then s.(starts := s.starts[t := Finished])
      else s.(starts := s.starts[t := Parked])
    case CheckSend(t, ready) =>
      s.(loops := s.loops[t := s.loops[t].(send := AfterCheck(StopSet(s, t), ready))])
    case SendDone(t) => s.(loops := s.loops[t := s.loops[t].(send := Check)])
    case CheckRecv(t, ready) =>
      s.(loops := s.loops[t := s.loops[t].(recv := AfterCheck(StopSet(s, t), ready))])
    case RecvDone(t) => s.(loops := s.loops[t := s.loops[t].(recv := Check)])
    case Release(t) =>
      s.(count := s.count - 1, starts := WakeStarts(s.starts[t := Finished]), loops := s.loops - {t})
    case SetFlag(t) => s.(flags := s.flags[t := true], stops := s.stops[t := Flagged])
    case NotifyStop(t) =>
      if s.holder == LastTaken(t) then s.(loops := WakeSend(s.loops), stops := s.stops[t := HalfNotified])
      else s.(starts := WakeStarts(s.starts), stops := s.stops[t := Notified])
    case NotifyRecv(t) => s.(loops := WakeRecv(s.loops), stops := s.stops[t := Notified])
    case Join(t) => s.(starts := s.starts - {t}, stops := s.stops - {t}, flags := s.flags - {t})
    case DataPut => s.(loops := WakeSend(s.loops))
    case DataArrived => s.(loops := WakeRecv(s.loops))
    case SpuriousStart(t) => s.(starts := s.starts[t := Checking])
  }

  // ---------------------------------------------------------------- what every step keeps

  /** The token: at most one task works, it is the recorded holder, and only it has loop threads. */
  ghost predicate Exclusive(s: State)
  {
    && 0 <= s.count <= 1
    && (forall t :: IsStart(s, t, Working) ==> s.count == 1 && s.holder == LastTaken(t))
    && (s.count == 1 ==> s.holder.LastTaken? && IsStart(s, s.holder.task, Working))
    && (forall t :: t in s.loops <==> IsStart(s, t, Working))
  }

  /** Nobody is left parked while the token is free. */
  ghost predicate NoneStranded(s: State)
  {
    s.count == 0 ==> forall t :: !IsStart(s, t, Parked)
  }

  ghost predicate Bookkeeping(s: State)
  {
    && (forall t :: t in s.flags <==> t in s.starts && !s.starts[t].Spawned?)
    && (forall t :: t in s.stops <==> StopSet(s, t))
  }

  /** A thread of t that can still be reached by t's stop only through a notify it has already sent. */
  ghost predicate StopHeard(s: State)
  {
    && (forall t :: t in s.stops && !s.stops[t].Flagged? ==>
          !IsStart(s, t, Parked) && (t in s.loops ==> !s.loops[t].send.Asleep?))
    && (forall t :: IsStop(s, t, Notified) && t in s.loops ==> !s.loops[t].recv.Asleep?)
  }

  ghost predicate Inv(s: State)
  {
    Exclusive(s) && NoneStranded(s) && Bookkeeping(s) && StopHeard(s)
  }

  lemma ExclusiveStep(s: State, step: Step)
    requires Inv(s) && Enabled(s, step)
    ensures Exclusive(Apply(s, step))
  {
    var s' := Apply(s, step);
    forall t | IsStart(s', t, Working) ensures s'.count == 1 && s'.holder == LastTaken(t) {
      assert IsStart(s, t, Working) || step == CheckWork(t);
    }
  }

  lemma BookkeepingStep(s: State, step: Step)
    requires Inv(s) && Enabled(s, step)
    ensures Bookkeeping(Apply(s, step))
  {
  }

  lemma NoneStrandedStep(s: State, step: Step)
    requires Inv(s) && Enabled(s, step)
    ensures NoneStranded(Apply(s, step))
  {
    var s' := Apply(s, step);
    forall t | IsStart(s', t, Parked) ensures s'.count != 0 {
      assert IsStart(s, t, Parked) || step == CheckWork(t);
    }
  }

  lemma StopHeardStep(s: State, step: Step)
    requires Inv(s) && Enabled(s, step)
    ensures StopHeard(Apply(s, step))
  {
    var s' := Apply(s, step);
    if step.NotifyStop? && s.holder == LastTaken(step.t) {
      assert !IsStart(s, step.t, Parked);
    }
  }

  lemma InvStep(s: State, step: Step)
    requires Inv(s) && Enabled(s, step)
    ensures Inv(Apply(s, step))
  {
    ExclusiveStep(s, step);
    BookkeepingStep(s, step);
    NoneStrandedStep(s, step);
    StopHeardStep(s, step);
  }

  /** r is reached from s by making precisely these steps. */
  predicate Reaches(s: State, steps: seq<Step>, r: State)
    decreases |steps|
  {
    if steps == [] then s == r
    else Enabled(s, steps[0]) && Reaches(Apply(s, steps[0]), steps[1..], r)
  }

  lemma {:induction false} InvAlong(s: State, steps: seq<Step>, r: State)
    requires Inv(s) && Reaches(s, steps, r)
    ensures Inv(r)
    decreases |steps|
  {
    if steps != [] {
      InvStep(s, steps[0]);
      InvAlong(Apply(s, steps[0]), steps[1..], r);
    }
  }

  /** In every state of every run: the token count is 0 or 1, no two tasks have loop threads, no thread
      is parked on a free token, and a stop that has sent its notifies leaves no thread of its task
      parked anywhere. */
  lemma TokenSafety(steps: seq<Step>, s: State)
    requires Reaches(INIT, steps, s)
    ensures 0 <= s.count <= 1
    ensures forall t, u :: t in s.loops && u in s.loops ==> t == u
    ensures s.count == 0 ==> s.loops == map[] && forall t :: !IsStart(s, t, Parked)
    ensures forall t :: IsStop(s, t, Notified) ==>
      && !IsStart(s, t, Parked)
      && (t in s.loops ==> !s.loops[t].send.Asleep? && !s.loops[t].recv.Asleep?)
  {
    InvAlong(INIT, steps, s);
    if s.count == 0 {
      assert s.loops.Keys == {};
    }
  }

  // ---------------------------------------------------------------- nobody gives up

  /** A start thread ends, and a loop ends, only for the stop of its own task. */
  ghost predicate EndsForStop(s: State)
  {
    && (forall t :: IsStart(s, t, Finished) ==> StopSet(s, t))
    && (forall t :: t in s.loops && (s.loops[t].send.Ended? || s.loops[t].recv.Ended?) ==> StopSet(s, t))
  }

  lemma EndsForStopStep(s: State, step: Step)
    requires Inv(s) && EndsForStop(s) && Enabled(s, step)
    ensures EndsForStop(Apply(s, step))
  {
    var s' := Apply(s, step);
    forall t | IsStart(s', t, Finished) ensures StopSet(s', t) {
      assert IsStart(s, t, Finished) || step == Release(t) || step == CheckWork(t);
    }
  }

  lemma {:induction false} EndsAlong(s: State, steps: seq<Step>, r: State)
    requires Inv(s) && EndsForStop(s) && Reaches(s, steps, r)
    ensures EndsForStop(r)
    decreases |steps|
  {
    if steps != [] {
      EndsForStopStep(s, steps[0]);
      InvStep(s, steps[0]);
      EndsAlong(Apply(s, steps[0]), steps[1..], r);
    }
  }

  /** In every state of every run, a registered task whose stop has not begun is waiting for the token or has it:
      its start thread is about to look, or parked while another task has the token, or working with
      neither of its loops ended. */
  lemma NobodyGivesUp(steps: seq<Step>, s: State, t: Task)
    requires Reaches(INIT, steps, s) && t in s.flags && !s.flags[t]
    ensures
      || IsStart(s, t, Checking)
      || (IsStart(s, t, Parked) && s.count == 1 && s.holder != LastTaken(t))
      || (IsStart(s, t, Working) && s.count == 1 && s.holder == LastTaken(t)
          && t in s.loops && !s.loops[t].send.Ended? && !s.loops[t].recv.Ended?)
  {
    InvAlong(INIT, steps, s);
    EndsAlong(INIT, steps, s);
    assert !StopSet(s, t) && t in s.starts && IsStart(s, t, s.starts[t]);
    assert !IsStart(s, t, Finished);
    if IsStart(s, t, Parked) {
      assert s.count == 1 && IsStart(s, s.holder.task, Working);
    }
    assert IsStart(s, t, Working) ==> t in s.loops;
  }

  /** A look at the token has three outcomes: a free token is taken, also for a task already stopped; a stopped
      task gives up on a token taken; any other waits. */
  lemma LookAtToken(s: State, t: Task)
    requires Inv(s) && Enabled(s, CheckWork(t))
    ensures var s' := Apply(s, CheckWork(t));
      && (IsStart(s', t, Working) <==> s.count == 0)
      && (IsStart(s', t, Finished) <==> s.count != 0 && StopSet(s, t))
      && (IsStart(s', t, Parked) <==> s.count != 0 && !StopSet(s, t))
      && (s.count == 0 ==> s'.count == 1 && s'.holder == LastTaken(t) && s'.loops.Keys == {t})
      && (s.count != 0 ==> s'.count == s.count && s'.holder == s.holder && s'.loops == s.loops)
  {
    if s.count == 0 {
      assert forall u :: u !in s.loops;
      assert s.loops.Keys == {};
    }
  }

  predicate Concerns(step: Step, t: Task)
  {
    match step
    case DataPut => false
    case DataArrived => false
    case _ => step.t == t
  }

  /** Steps of other threads leave a task as it is, except that they may wake what is parked. */
  lemma OthersUntouched(s: State, step: Step, t: Task)
    requires Enabled(s, step) && !Concerns(step, t)
    ensures var s' := Apply(s, step);
      && (t in s'.starts <==> t in s.starts) && (t in s'.loops <==> t in s.loops)
      && (t in s'.flags <==> t in s.flags) && (t in s'.stops <==> t in s.stops)
      && (t in s.flags ==> s'.flags[t] == s.flags[t])
      && (t in s.stops ==> s'.stops[t] == s.stops[t])
      && (t in s.starts ==> s'.starts[t] == s.starts[t] || (s.starts[t].Parked? && s'.starts[t].Checking?))
      && (t in s.loops ==>
            && (s'.loops[t].send == s.loops[t].send || (s.loops[t].send.Asleep? && s'.loops[t].send.Check?))
            && (s'.loops[t].recv == s.loops[t].recv || (s.loops[t].recv.Asleep? && s'.loops[t].recv.Check?)))
  {
  }

  // ---------------------------------------------------------------- a notified stop goes through

  function LoopRank(l: Looper): nat
  {
    match l
    case Busy => 2
    case Check => 1
    case Asleep => 1
    case Ended => 0
  }

  /** How many steps of its own a task still has to make before its start thread ends. */
  function StopRank(s: State, t: Task): nat
  {
    if t !in s.starts || s.starts[t].Finished? then 0
    else if t in s.loops then 1 + LoopRank(s.loops[t].send) + LoopRank(s.loops[t].recv)
    else 6
  }

  predicate OwnStep(step: Step, t: Task)
  {
    match step
    case CheckWork(u) => t == u
    case CheckSend(u, _) => t == u
    case SendDone(u) => t == u
    case CheckRecv(u, _) => t == u
    case RecvDone(u) => t == u
    case Release(u) => t == u
    case _ => false
  }

  /** After its notifies, a stop waits for at most six steps of its own task's threads: one of them is
      always enabled, each brings the end nearer, and no step of another thread sets it back. */
  lemma NotifiedStopGoesThrough(s: State, t: Task)
    requires Inv(s) && IsStop(s, t, Notified)
    ensures StopRank(s, t) <= 6
    ensures !IsStart(s, t, Finished) ==> exists step :: OwnStep(step, t) && Enabled(s, step)
    ensures forall step :: Enabled(s, step) && step != Join(t) ==>
      && IsStop(Apply(s, step), t, Notified)
      && StopRank(Apply(s, step), t) <= StopRank(s, t)
      && (OwnStep(step, t) ==> StopRank(Apply(s, step), t) < StopRank(s, t))
  {
    if !IsStart(s, t, Finished) {
      var own := CheckWork(t);
      if t in s.loops {
        var l := s.loops[t];
        own := if l.send.Check? then CheckSend(t, false)
               else if l.send.Busy? then SendDone(t)
               else if l.recv.Check? then CheckRecv(t, false)
               else if l.recv.Busy? then RecvDone(t)
               else Release(t);
      }
      assert IsStart(s, t, Checking) || IsStart(s, t, Working);
      assert OwnStep(own, t) && Enabled(s, own);
    }
    forall step | Enabled(s, step) && step != Join(t)
      ensures IsStop(Apply(s, step), t, Notified)
      ensures StopRank(Apply(s, step), t) <= StopRank(s, t)
      ensures OwnStep(step, t) ==> StopRank(Apply(s, step), t) < StopRank(s, t)
    {
      RankStep(s, step, t);
    }
  }

  function OwnSteps(steps: seq<Step>, t: Task): nat
  {
    if steps == [] then 0 else (if OwnStep(steps[0], t) then 1 else 0) + OwnSteps(steps[1..], t)
  }

  /** Over runs: from a notified stop until it joins, whatever the other threads do, its task's threads make at
      most six steps; while the start thread has not ended one more is enabled, and when no more are left it
      has ended. */
  lemma {:induction false} StopTakesSixSteps(s: State, steps: seq<Step>, r: State, t: Task)
    requires Inv(s) && IsStop(s, t, Notified) && Reaches(s, steps, r) && Join(t) !in steps
    ensures OwnSteps(steps, t) + StopRank(r, t) <= StopRank(s, t) <= 6
    ensures IsStop(r, t, Notified)
    ensures IsStart(r, t, Finished) || exists step :: OwnStep(step, t) && Enabled(r, step)
    decreases |steps|
  {
    NotifiedStopGoesThrough(s, t);
    if steps != [] {
      assert steps[0] in steps;
      RankStep(s, steps[0], t);
      InvStep(s, steps[0]);
      StopTakesSixSteps(Apply(s, steps[0]), steps[1..], r, t);
    }
  }

  lemma RankStep(s: State, step: Step, t: Task)
    requires Inv(s) && IsStop(s, t, Notified) && Enabled(s, step) && step != Join(t)
    ensures IsStop(Apply(s, step), t, Notified)
    ensures StopRank(Apply(s, step), t) <= StopRank(s, t)
    ensures OwnStep(step, t) ==> StopRank(Apply(s, step), t) < StopRank(s, t)
  {
    assert StopSet(s, t);
    assert t in s.starts && !s.starts[t].Spawned?;
  }

  // ---------------------------------------------------------------- the token in memory

  /** The token's part of a connection object. Each method is one critical section of do_start, do_stop or a
      loop, and makes the step of the same kind; the ghost fields record what the threads are doing. */
  class Token {
    var stopWorks: map<Task, bool>
    var workCount: int
    var workTaskId: Holder
    ghost var starts: map<Task, Starter>
    ghost var loops: map<Task, Loops>
    ghost var stops: map<Task, Stopper>

    ghost function View(): State
      reads this
    {
      State(stopWorks, workCount, workTaskId, starts, loops, stops)
    }

    constructor ()
      ensures View() == INIT
    {
      stopWorks, workCount, workTaskId := map[], 0, Nobody;
      starts, loops, stops := map[], map[], map[];
    }

    method BeginStart(t: Task)
      requires Enabled(View(), Register(t))
      modifies this
      ensures View() == Apply(old(View()), Register(t))
      ensures stopWorks == if t in old(stopWorks) then old(stopWorks) else old(stopWorks)[t := false]
      ensures workCount == old(workCount) && workTaskId == old(workTaskId)
    {
      if t !in stopWorks {
        stopWorks := stopWorks[t := false];
      }
      starts := starts[t := Checking];
    }

    /** The wait for the token, evaluated once: taken, given up because of a stop, or to be waited for. */
    method TryWork(t: Task) returns (taken: bool, stopWork: bool)
      requires Enabled(View(), CheckWork(t))
      modifies this
      ensures View() == Apply(old(View()), CheckWork(t))
      ensures taken <==> IsStart(View(), t, Working)
      ensures stopWork <==> IsStart(View(), t, Finished)
      ensures taken <==> old(workCount) == 0
      ensures stopWork <==> old(workCount) != 0 && t in stopWorks && stopWorks[t]
      ensures !taken && !stopWork ==> IsStart(View(), t, Parked)
      ensures workCount == old(workCount) + (if taken then 1 else 0) && stopWorks == old(stopWorks)
      ensures workTaskId == if taken then LastTaken(t) else old(workTaskId)
    {
      taken, stopWork := false, false;
      if workCount == 0 {
        taken := true;
        workCount := workCount + 1;
        workTaskId := LastTaken(t);
        starts, loops := starts[t := Working], loops[t := Loops(Check, Check)];
      } else if t in stopWorks && stopWorks[t] {
        stopWork := true;
        starts := starts[t := Finished];
      } else {
        starts := starts[t := Parked];
      }
    }

    /** After both loop threads have been joined. */
    method EndWork(t: Task)
      requires Enabled(View(), Release(t))
      modifies this
      ensures View() == Apply(old(View()), Release(t))
      ensures workCount == old(workCount) - 1 && workTaskId == old(workTaskId) && stopWorks == old(stopWorks)
      ensures forall u :: !IsStart(View(), u, Parked)
    {
      workCount := workCount - 1;
      starts, loops := WakeStarts(starts[t := Finished]), loops - {t};
    }

    /** The wait of the sending loop, evaluated once. */
    method SendLoopWait(t: Task, hasData: bool) returns (next: Looper)
      requires Enabled(View(), CheckSend(t, hasData))
      modifies this`loops
      ensures View() == Apply(old(View()), CheckSend(t, hasData)) && next == loops[t].send
      ensures next.Ended? <==> t in stopWorks && stopWorks[t]
      ensures next.Busy? <==> !next.Ended? && hasData
      ensures next.Asleep? <==> !next.Ended? && !hasData
    {
      next := Asleep;
      if t in stopWorks && stopWorks[t] {
        next := Ended;
      } else if hasData {
        next := Busy;
      }
      loops := loops[t := loops[t].(send := next)];
    }

    /** The wait of the receiving loop, evaluated once. */
    method RecvLoopWait(t: Task, canRead: bool) returns (next: Looper)
      requires Enabled(View(), CheckRecv(t, canRead))
      modifies this`loops
      ensures View() == Apply(old(View()), CheckRecv(t, canRead)) && next == loops[t].recv
      ensures next.Ended? <==> t in stopWorks && stopWorks[t]
      ensures next.Busy? <==> !next.Ended? && canRead
      ensures next.Asleep? <==> !next.Ended? && !canRead
    {
      next := Asleep;
      if t in stopWorks && stopWorks[t] {
        next := Ended;
      } else if canRead {
        next := Busy;
      }
      loops := loops[t := loops[t].(recv := next)];
    }

    method BeginStop(t: Task)
      requires Enabled(View(), SetFlag(t))
      modifies this
      ensures View() == Apply(old(View()), SetFlag(t))
      ensures stopWorks == old(stopWorks)[t := true] && workCount == old(workCount) && workTaskId == old(workTaskId)
    {
      if t in stopWorks && !stopWorks[t] {
        stopWorks := stopWorks[t := true];
      }
      stops := stops[t := Flagged];
    }

    /** Whom a stop notifies first; true when the receiving loop is to be notified next. */
    method NotifyStopping(t: Task) returns (loopsToo: bool)
      requires Enabled(View(), NotifyStop(t))
      modifies this
      ensures View() == Apply(old(View()), NotifyStop(t))
      ensures loopsToo <==> IsStop(View(), t, HalfNotified)
      ensures loopsToo <==> old(workTaskId) == LastTaken(t)
      ensures stopWorks == old(stopWorks) && workCount == old(workCount) && workTaskId == old(workTaskId)
      ensures if loopsToo then forall u :: u in loops ==> !loops[u].send.Asleep?
              else forall u :: !IsStart(View(), u, Parked)
    {
      loopsToo := workTaskId == LastTaken(t);
      if loopsToo {
        loops, stops := WakeSend(loops), stops[t := HalfNotified];
      } else {
        starts, stops := WakeStarts(starts), stops[t := Notified];
      }
    }

    /** After the start thread has been joined. */
    method EndStop(t: Task)
      requires Enabled(View(), Join(t))
      modifies this
      ensures View() == Apply(old(View()), Join(t))
      ensures stopWorks == old(stopWorks) - {t} && workCount == old(workCount) && workTaskId == old(workTaskId)
    {
      if t in stopWorks {
        stopWorks := stopWorks - {t};
      }
      starts, stops := starts - {t}, stops - {t};
    }
  }
}
