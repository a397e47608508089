/** The process-wide pool of channels: one channel per task id, built once however many threads ask for
    it at the same time, and taken out of the pool before it is deleted. */
module ChannelPool {
  import Numbers

  type Task = seq<char>
  type Handle = nat
  type Caller = nat

  /** A caller of CreateChannel; or, for a handle, of DestroyInternalChannel. */
  datatype Phase =
    | Checking(task: Task)
    | Parked(task: Task)
    | Creating(task: Task)
    | Built(task: Task, handle: Handle)   // channel constructed, not yet in the pool
    | Failed(task: Task)                  // init failed, returned null
    | Returned(task: Task, handle: Handle)

  datatype State = State(
    pool: map<Handle, Task>,              // g_channel2task
    creating: set<Task>,                  // g_creating_task
    callers: map<Caller, Phase>,
    alive: map<Handle, Task>)             // channels constructed and not yet deleted

  const INIT := State(map[], {}, map[], map[])

  datatype Found = None | Some(handle: Handle)

  datatype Step =
    | Call(c: Caller, task: Task)
    | Check(c: Caller, found: Found)      // found: what the search of the pool yields
    | Spurious(c: Caller)
    | Build(c: Caller, handle: Handle)    // init succeeded; a new channel object
    | Insert(c: Caller)                   // ... goes into the pool
    | InitFail(c: Caller)
    | Erase(handle: Handle)               // first part of destroying a channel of the pool
    | Delete(handle: Handle)              // last part

  predicate InPool(s: State, t: Task)
  {
    exists h :: h in s.pool && s.pool[h] == t
  }

  /** Some caller has built this channel and not put it into the pool yet. */
  predicate Uninserted(s: State, h: Handle)
  {
    exists c :: c in s.callers && s.callers[c].Built? && s.callers[c].handle == h
  }

  predicate Enabled(s: State, step: Step)
  {
    match step
    case Call(c, _) => c !in s.callers
    case Check(c, found) =>
      && c in s.callers && s.callers[c].Checking?
      && (found.None? ==> !InPool(s, s.callers[c].task))
      && (found.Some? ==> found.handle in s.pool && s.pool[found.handle] == s.callers[c].task)
    case Spurious(c) => c in s.callers && s.callers[c].Parked?
    case Build(c, h) => c in s.callers && s.callers[c].Creating? && h !in s.alive
    case Insert(c) => c in s.callers && s.callers[c].Built?
    case InitFail(c) => c in s.callers && s.callers[c].Creating?
    case Erase(h) => h in s.pool
    case Delete(h) => h in s.alive && h !in s.pool && !Uninserted(s, h)
  }

  function WakeAll(m: map<Caller, Phase>): map<Caller, Phase>
  {
    map c | c in m :: if m[c].Parked? then Checking(m[c].task) else m[c]
  }

  function Apply(s: State, step: Step): State
    requires Enabled(s, step)
  {
    match step
    case Call(c, t) => s.(callers := s.callers[c := Checking(t)])
    case Check(c, found) =>
      var t := s.callers[c].task;
      if t in s.creating then s.(callers := s.callers[c := Parked(t)])
      else if found.Some? then s.(callers := s.callers[c := Returned(t, found.handle)])
      else s.(creating := s.creating + {t}, callers := s.callers[c := Creating(t)])
    case Spurious(c) => s.(callers := s.callers[c := Checking(s.callers[c].task)])
    case Build(c, h) =>
      var t := s.callers[c].task;
      s.(callers := s.callers[c := Built(t, h)], alive := s.alive[h := t])
    case Insert(c) =>
      var t, h := s.callers[c].task, s.callers[c].handle;
      // map insertion keeps an entry that is there
      s.(pool := if h in s.pool then s.pool else s.pool[h := t],
         creating := s.creating - {t},
         callers := WakeAll(s.callers[c := Returned(t, h)]))
    case InitFail(c) => s.(callers := s.callers[c := Failed(s.callers[c].task)])
    case Erase(h) => s.(pool := s.pool - {h})
    case Delete(h) => s.(alive := s.alive - {h})
  }

  predicate Claims(p: Phase, t: Task)
  {
    (p.Creating? || p.Built? || p.Failed?) && p.task == t
  }

  ghost predicate Distinct(s: State)
  {
    && (forall h :: h in s.pool ==> h in s.alive && s.alive[h] == s.pool[h])
    && (forall g, h :: g in s.pool && h in s.pool && s.pool[g] == s.pool[h] ==> g == h)
    && (forall h :: h in s.pool ==> s.pool[h] !in s.creating)
    && (forall c :: c in s.callers && s.callers[c].Built? ==>
          var h := s.callers[c].handle; h in s.alive && s.alive[h] == s.callers[c].task && h !in s.pool)
  }

  ghost predicate Claimed(s: State)
  {
    && (forall c, t :: c in s.callers && Claims(s.callers[c], t) ==> t in s.creating)
    && (forall b, c, t :: b in s.callers && c in s.callers && Claims(s.callers[b], t) && Claims(s.callers[c], t) ==> b == c)
    && (forall c :: c in s.callers && s.callers[c].Parked? ==> s.callers[c].task in s.creating)
    && (forall t :: t in s.creating ==> exists c :: c in s.callers && Claims(s.callers[c], t))
  }

  ghost predicate Inv(s: State)
  {
    Distinct(s) && Claimed(s)
  }

  lemma DistinctStep(s: State, step: Step)
    requires Inv(s) && Enabled(s, step)
    ensures Distinct(Apply(s, step))
  {
    if step.Insert? || step.Build? {
      assert Claims(s.callers[step.c], s.callers[step.c].task);
    }
    if step.Insert? {
      BuiltApart(s, step.c);
    }
    if step.Delete? {
      assert forall c :: c in s.callers && s.callers[c].Built? ==> s.callers[c].handle != step.handle;
    }
  }

  /** What another caller has built is another channel, of another task. */
  lemma BuiltApart(s: State, c: Caller)
    requires Inv(s) && c in s.callers && s.callers[c].Built?
    ensures forall b :: b in s.callers && s.callers[b].Built? && b != c ==>
      s.callers[b].task != s.callers[c].task && s.callers[b].handle != s.callers[c].handle
  {
    assert Claims(s.callers[c], s.callers[c].task);
    assert forall b :: b in s.callers && s.callers[b].Built? ==> Claims(s.callers[b], s.callers[b].task);
  }

  lemma ClaimStep(s: State, step: Step, c: Caller, t: Task)
    requires Claimed(s) && Enabled(s, step)
    requires c in Apply(s, step).callers && Claims(Apply(s, step).callers[c], t)
    ensures t in Apply(s, step).creating
    ensures forall b :: b in Apply(s, step).callers && Claims(Apply(s, step).callers[b], t) ==> b == c
  {
    if step.Insert? || step.Build? {
      assert Claims(s.callers[step.c], s.callers[step.c].task);
    }
  }

  lemma ParkedStep(s: State, step: Step)
    requires Claimed(s) && Enabled(s, step)
    ensures var s' := Apply(s, step);
      forall c :: c in s'.callers && s'.callers[c].Parked? ==> s'.callers[c].task in s'.creating
  {
  }

  lemma ClaimantStep(s: State, step: Step, t: Task)
    requires Claimed(s) && Enabled(s, step) && t in Apply(s, step).creating
    ensures exists c :: c in Apply(s, step).callers && Claims(Apply(s, step).callers[c], t)
  {
    var s' := Apply(s, step);
    if t in s.creating {
      var c :| c in s.callers && Claims(s.callers[c], t);
      assert Claims(s'.callers[c], t);
    } else {
      assert Claims(s'.callers[step.c], t);
    }
  }

  lemma ClaimedStep(s: State, step: Step)
    requires Claimed(s) && Enabled(s, step)
    ensures Claimed(Apply(s, step))
  {
    ParkedStep(s, step);
    forall c, t | c in Apply(s, step).callers && Claims(Apply(s, step).callers[c], t)
      ensures t in Apply(s, step).creating
      ensures forall b :: b in Apply(s, step).callers && Claims(Apply(s, step).callers[b], t) ==> b == c
    {
      ClaimStep(s, step, c, t);
    }
    forall t | t in Apply(s, step).creating
      ensures exists c :: c in Apply(s, step).callers && Claims(Apply(s, step).callers[c], t)
    {
      ClaimantStep(s, step, t);
    }
  }

  lemma InvStep(s: State, step: Step)
    requires Inv(s) && Enabled(s, step)
    ensures Inv(Apply(s, step))
  {
    DistinctStep(s, step);
    ClaimedStep(s, step);
  }

  /** r is reached from s by making precisely these steps. */
  predicate Reaches(s: State, steps: seq<Step>, r: State)
    decreases |steps|
  {
    if steps == [] then s == r
    else Enabled(s, steps[0]) && Reaches(Apply(s, steps[0]), steps[1..], r)
  }

  lemma {:induction false} InvAlong(s: State, steps: seq<Step>, r: State)
    requires Inv(s) && Reaches(s, steps, r)
    ensures Inv(r)
    decreases |steps|
  {
    if steps != [] {
      InvStep(s, steps[0]);
      InvAlong(Apply(s, steps[0]), steps[1..], r);
    }
  }

  /** In every state of every run: no two channels of the pool have the same task id, none has the id of a
      task being created, one caller at most creates any task, a caller whose task has a channel in the
      pool is given that very channel, and nobody is parked on a task that is not being created. */
  lemma PoolSafety(steps: seq<Step>, s: State)
    requires Reaches(INIT, steps, s)
    ensures forall g, h :: g in s.pool && h in s.pool && g != h ==> s.pool[g] != s.pool[h]
    ensures s.pool.Values !! s.creating
    ensures forall b, c :: b in s.callers && c in s.callers && b != c && s.callers[b].Creating? && s.callers[c].Creating? ==>
      s.callers[b].task != s.callers[c].task
    ensures forall c, found, h :: Enabled(s, Check(c, found)) && h in s.pool && s.pool[h] == s.callers[c].task ==>
      Apply(s, Check(c, found)).callers[c] == Returned(s.callers[c].task, h)
    ensures forall c :: c in s.callers && s.callers[c].Parked? ==> s.callers[c].task in s.creating
  {
    InvAlong(INIT, steps, s);
    forall b, c | b in s.callers && c in s.callers && b != c && s.callers[b].Creating? && s.callers[c].Creating?
      ensures s.callers[b].task != s.callers[c].task
    {
      assert Claims(s.callers[b], s.callers[b].task) && Claims(s.callers[c], s.callers[c].task);
    }
  }

  // ---------------------------------------------------------------- what stays

  /** A channel stays in the pool until it is itself erased, whatever else happens. */
  lemma {:induction false} StaysInPool(s: State, steps: seq<Step>, r: State, h: Handle)
    requires Reaches(s, steps, r) && h in s.pool && Erase(h) !in steps
    ensures h in r.pool && r.pool[h] == s.pool[h]
    decreases |steps|
  {
    if steps != [] {
      assert steps[0] in steps;
      StaysInPool(Apply(s, steps[0]), steps[1..], r, h);
    }
  }

  /** A channel stays alive until it is itself deleted. */
  lemma {:induction false} StaysAlive(s: State, steps: seq<Step>, r: State, h: Handle)
    requires Reaches(s, steps, r) && h in s.alive && Delete(h) !in steps
    ensures h in r.alive && r.alive[h] == s.alive[h]
    decreases |steps|
  {
    if steps != [] {
      assert steps[0] in steps;
      StaysAlive(Apply(s, steps[0]), steps[1..], r, h);
    }
  }

  /** A task stays claimed until the channel that was built for it is put into the pool. */
  lemma {:induction false} StaysClaimed(s: State, steps: seq<Step>, r: State, c: Caller)
    requires Inv(s) && Reaches(s, steps, r) && c in s.callers && Claims(s.callers[c], s.callers[c].task)
    requires Insert(c) !in steps
    ensures s.callers[c].task in r.creating
    ensures c in r.callers && Claims(r.callers[c], s.callers[c].task)
    decreases |steps|
  {
    if steps != [] {
      assert steps[0] in steps;
      InvStep(s, steps[0]);
      StaysClaimed(Apply(s, steps[0]), steps[1..], r, c);
    }
  }

  /** Nothing gets into the pool, out of it, to life or out of life but by the step that is for it. */
  lemma OnlyThat(s: State, step: Step, h: Handle)
    requires Inv(s) && Enabled(s, step)
    ensures var s' := Apply(s, step);
      && (h in s'.pool && h !in s.pool <==> step.Insert? && s.callers[step.c].handle == h)
      && (h in s.pool && h !in s'.pool <==> step == Erase(h))
      && (h in s'.alive && h !in s.alive <==> step.Build? && step.handle == h)
      && (h in s.alive && h !in s'.alive <==> step == Delete(h))
      && (step.Insert? && s.callers[step.c].handle == h ==> s'.pool[h] == s.callers[step.c].task)
      && (step.Build? && step.handle == h ==> s'.alive[h] == s.callers[step.c].task)
  {
  }

  predicate Concerns(step: Step, c: Caller)
  {
    match step
    case Erase(_) => false
    case Delete(_) => false
    case _ => step.c == c
  }

  /** Steps of others leave a caller as it is, except that they may wake it. */
  lemma OthersUntouched(s: State, step: Step, c: Caller)
    requires Enabled(s, step) && !Concerns(step, c)
    ensures var s' := Apply(s, step);
      && (c in s'.callers <==> c in s.callers)
      && (c in s.callers ==>
            s'.callers[c] == s.callers[c] || (s.callers[c].Parked? && s'.callers[c] == Checking(s.callers[c].task)))
  {
  }

  // ---------------------------------------------------------------- two live channels of one task

  /** No two live channels have the same task id. */
  predicate NoTwins(s: State)
  {
    forall g, h :: g in s.alive && h in s.alive && s.alive[g] == s.alive[h] ==> g == h
  }

  /** A channel of this task has been erased from the pool and not been deleted yet. */
  predicate BeingDestroyed(s: State, t: Task)
  {
    exists h :: h in s.alive && s.alive[h] == t && h !in s.pool && !Uninserted(s, h)
  }

  /** Building a channel is what can make twins, and it does so exactly while a channel of that task is
      being destroyed. */
  lemma BuildTwins(s: State, c: Caller, h: Handle)
    requires Inv(s) && NoTwins(s) && Enabled(s, Build(c, h))
    ensures NoTwins(Apply(s, Build(c, h))) <==> !BeingDestroyed(s, s.callers[c].task)
  {
    var t, s' := s.callers[c].task, Apply(s, Build(c, h));
    assert Claims(s.callers[c], t);
    assert s'.alive[h] == t;
    if g :| g in s.alive && s.alive[g] == t && g !in s.pool && !Uninserted(s, g) {
      assert s'.alive[g] == s'.alive[h] && g != h;
    } else {
      forall g | g in s.alive ensures s.alive[g] != t {
        if s.alive[g] == t && g !in s.pool {
          assert Uninserted(s, g);
          var b :| b in s.callers && s.callers[b].Built? && s.callers[b].handle == g;
          assert Claims(s.callers[b], t);
        }
      }
    }
  }

  lemma OtherStepsNoTwins(s: State, step: Step)
    requires NoTwins(s) && Enabled(s, step) && !step.Build?
    ensures NoTwins(Apply(s, step))
  {
  }

  /** Along these steps no channel is built while one of its task is being destroyed: what the callers have
      to see to. */
  predicate DestroyedFirst(s: State, steps: seq<Step>)
    decreases |steps|
  {
    steps != [] && Enabled(s, steps[0]) ==>
      && (steps[0].Build? ==> !BeingDestroyed(s, s.callers[steps[0].c].task))
      && DestroyedFirst(Apply(s, steps[0]), steps[1..])
  }

  /** No state along these steps has twins. */
  predicate NeverTwins(s: State, steps: seq<Step>)
    decreases |steps|
  {
    NoTwins(s) && (steps != [] && Enabled(s, steps[0]) ==> NeverTwins(Apply(s, steps[0]), steps[1..]))
  }

  lemma {:induction false} NeverTwinsFrom(s: State, steps: seq<Step>)
    requires Inv(s) && NoTwins(s)
    ensures NeverTwins(s, steps) <==> DestroyedFirst(s, steps)
    decreases |steps|
  {
    if steps != [] && Enabled(s, steps[0]) {
      var step := steps[0];
      InvStep(s, step);
      if step.Build? {
        BuildTwins(s, step.c, step.handle);
      } else {
        OtherStepsNoTwins(s, step);
      }
      if NoTwins(Apply(s, step)) {
        NeverTwinsFrom(Apply(s, step), steps[1..]);
      } else {
        assert !NeverTwins(Apply(s, step), steps[1..]);
      }
    }
  }

  /** Two live channels never share a task id, in any state of a run, if and only if no channel is
      built in it while one of the same task is being destroyed. */
  lemma UniqueExactly(steps: seq<Step>)
    ensures NeverTwins(INIT, steps) <==> DestroyedFirst(INIT, steps)
  {
    NeverTwinsFrom(INIT, steps);
  }

  /** Of two live channels of one task at least one is on its way out. */
  lemma TwinsAreLeaving(steps: seq<Step>, s: State, g: Handle, h: Handle)
    requires Reaches(INIT, steps, s)
    requires g in s.alive && h in s.alive && g != h && s.alive[g] == s.alive[h]
    ensures g !in s.pool || h !in s.pool
  {
    InvAlong(INIT, steps, s);
  }

  lemma Prepend(s: State, step: Step, steps: seq<Step>, r: State) returns (longer: seq<Step>)
    requires Enabled(s, step) && Reaches(Apply(s, step), steps, r)
    ensures Reaches(s, longer, r)
  {
    longer := [step] + steps;
    assert longer[1..] == steps;
  }

  lemma Here(s: State)
    ensures Reaches(s, [], s)
  {
  }

  /** A channel of a task in the pool, made by one caller. */
  lemma OneInPool(t: Task, steps': seq<Step>, r: State) returns (steps: seq<Step>)
    requires Reaches(State(map[0 := t], {}, map[0 := Returned(t, 0)], map[0 := t]), steps', r)
    ensures Reaches(INIT, steps, r)
  {
    hide Reaches;
    var s1 := Apply(INIT, Call(0, t));
    var s2 := Apply(s1, Check(0, None));
    var s3 := Apply(s2, Build(0, 0));
    assert Apply(s3, Insert(0)) == State(map[0 := t], {}, map[0 := Returned(t, 0)], map[0 := t]);
    steps := Prepend(s3, Insert(0), steps', r);
    steps := Prepend(s2, Build(0, 0), steps, r);
    steps := Prepend(s1, Check(0, None), steps, r);
    steps := Prepend(INIT, Call(0, t), steps, r);
  }

  /** Twins do occur: a channel of task t is being destroyed while another caller builds t again. They may be
      gone again before that caller gets to the pool. */
  lemma TwinsOccur(t: Task) returns (steps: seq<Step>, s: State)
    ensures Reaches(INIT, steps, s)
    ensures 0 in s.alive && 1 in s.alive && s.alive[0] == s.alive[1] == t && s.pool == map[]
    ensures Enabled(s, Delete(0)) && Enabled(Apply(s, Delete(0)), Insert(1))
  {
    hide Reaches;
    var s1 := State(map[0 := t], {}, map[0 := Returned(t, 0)], map[0 := t]);
    var s2 := Apply(s1, Erase(0));
    var s3 := Apply(s2, Call(1, t));
    var s4 := Apply(s3, Check(1, None));
    s := Apply(s4, Build(1, 1));
    Here(s);
    steps := Prepend(s4, Build(1, 1), [], s);
    steps := Prepend(s3, Check(1, None), steps, s);
    steps := Prepend(s2, Call(1, t), steps, s);
    steps := Prepend(s1, Erase(0), steps, s);
    steps := OneInPool(t, steps, s);
  }

  /** One step while caller c's failed creation still claims a task. */
  lemma FailureStep(s: State, step: Step, c: Caller, b: Caller)
    requires Inv(s) && Enabled(s, step) && c in s.callers && s.callers[c].Failed?
    ensures c in Apply(s, step).callers && Apply(s, step).callers[c] == s.callers[c]
    ensures b in Apply(s, step).callers && b != c ==>
      var p := Apply(s, step).callers[b];
      (p.Creating? || p.Built? || p.Returned?) && p.task == s.callers[c].task ==> b in s.callers && s.callers[b] == p
    ensures b in s.callers && Waits(s.callers[b], s.callers[c].task) ==>
      b in Apply(s, step).callers && Waits(Apply(s, step).callers[b], s.callers[c].task)
  {
    var t := s.callers[c].task;
    assert Claims(s.callers[c], t);
    assert b in s.callers && s.callers[b].Creating? ==> Claims(s.callers[b], s.callers[b].task);
  }

  predicate Waits(p: Phase, t: Task)
  {
    (p.Parked? || p.Checking?) && p.task == t
  }

  /** A creation that failed keeps its task claimed for good: in every run that follows, no caller comes to
      create that task or to be given a channel of it, and a caller that waits for it never leaves
      the wait. */
  lemma {:induction false} FailureBlocksTask(s: State, steps: seq<Step>, r: State, c: Caller, b: Caller)
    requires Inv(s) && Reaches(s, steps, r) && c in s.callers && s.callers[c].Failed?
    ensures c in r.callers && r.callers[c] == s.callers[c]
    ensures b in r.callers && b != c ==>
      var p := r.callers[b];
      (p.Creating? || p.Built? || p.Returned?) && p.task == s.callers[c].task ==> b in s.callers && s.callers[b] == p
    ensures b in s.callers && Waits(s.callers[b], s.callers[c].task) ==>
      b in r.callers && Waits(r.callers[b], s.callers[c].task)
    decreases |steps|
  {
    if steps != [] {
      FailureStep(s, steps[0], c, b);
      InvStep(s, steps[0]);
      FailureBlocksTask(Apply(s, steps[0]), steps[1..], r, c, b);
    }
  }

  // ---------------------------------------------------------------- who can still be served

  /** This caller ends up with a channel of the task in some continuation. */
  ghost predicate CanBeServed(s: State, b: Caller, t: Task)
  {
    exists steps, r :: Reaches(s, steps, r) && b in r.callers && r.callers[b].Returned? && r.callers[b].task == t
  }

  /** A channel built: its caller puts it into the pool, then b is given it. */
  lemma ServedAfterBuild(s: State, b: Caller, t: Task, c: Caller) returns (steps: seq<Step>, r: State)
    requires Inv(s) && b in s.callers && b != c && (s.callers[b] == Checking(t) || s.callers[b] == Parked(t))
    requires c in s.callers && s.callers[c].Built? && s.callers[c].task == t
    ensures Reaches(s, steps, r) && b in r.callers && r.callers[b].Returned? && r.callers[b].task == t
  {
    hide Reaches;
    var h := s.callers[c].handle;
    var s1 := Apply(s, Insert(c));
    assert s1.pool[h] == t && s1.callers[b] == Checking(t);
    r := Apply(s1, Check(b, Some(h)));
    Here(r);
    steps := Prepend(s1, Check(b, Some(h)), [], r);
    steps := Prepend(s, Insert(c), steps, r);
  }

  /** A task being created, by a caller that has not failed: that caller completes, then b is given its channel. */
  lemma ServedByCreator(s: State, b: Caller, t: Task, c: Caller, h: Handle)
    requires Inv(s) && b !in s.callers && c in s.callers && Claims(s.callers[c], t) && !s.callers[c].Failed? && h !in s.alive
    ensures CanBeServed(s, b, t)
  {
    hide Reaches;
    var s1 := Apply(s, Call(b, t));
    InvStep(s, Call(b, t));
    if s.callers[c].Built? {
      var steps, r := ServedAfterBuild(s1, b, t, c);
      steps := Prepend(s, Call(b, t), steps, r);
    } else {
      var s2 := Apply(s1, Build(c, h));
      InvStep(s1, Build(c, h));
      var steps, r := ServedAfterBuild(s2, b, t, c);
      steps := Prepend(s1, Build(c, h), steps, r);
      steps := Prepend(s, Call(b, t), steps, r);
    }
  }

  lemma ServedFromPool(s: State, b: Caller, t: Task, h: Handle)
    requires Inv(s) && b !in s.callers && h in s.pool && s.pool[h] == t
    ensures CanBeServed(s, b, t)
  {
    hide Reaches;
    var s1 := Apply(s, Call(b, t));
    var s2 := Apply(s1, Check(b, Some(h)));
    Here(s2);
    var steps := Prepend(s1, Check(b, Some(h)), [], s2);
    steps := Prepend(s, Call(b, t), steps, s2);
  }

  lemma ServedByItself(s: State, b: Caller, t: Task, h: Handle)
    requires b !in s.callers && t !in s.creating && !InPool(s, t) && h !in s.alive
    ensures CanBeServed(s, b, t)
  {
    hide Reaches;
    var s1 := Apply(s, Call(b, t));
    assert !InPool(s1, t);
    var s2 := Apply(s1, Check(b, None));
    var s3 := Apply(s2, Build(b, h));
    var s4 := Apply(s3, Insert(b));
    Here(s4);
    var steps := Prepend(s3, Insert(b), [], s4);
    steps := Prepend(s2, Build(b, h), steps, s4);
    steps := Prepend(s1, Check(b, None), steps, s4);
    steps := Prepend(s, Call(b, t), steps, s4);
  }

  /** In every reachable state a new caller can still be given a channel of a task if and only if no
      creation of that task has failed. */
  lemma ServedExactly(before: seq<Step>, s: State, b: Caller, t: Task)
    requires Reaches(INIT, before, s) && b !in s.callers
    ensures CanBeServed(s, b, t) <==> forall c :: c in s.callers ==> s.callers[c] != Failed(t)
  {
    InvAlong(INIT, before, s);
    if c :| c in s.callers && s.callers[c] == Failed(t) {
      forall steps, r | Reaches(s, steps, r) && b in r.callers && r.callers[b].Returned? && r.callers[b].task == t ensures false {
        FailureBlocksTask(s, steps, r, c, b);
      }
    } else {
      var h := Numbers.AboveAll(s.alive.Keys);
      if t in s.creating {
        var c :| c in s.callers && Claims(s.callers[c], t);
        ServedByCreator(s, b, t, c, h);
      } else if InPool(s, t) {
        var g :| g in s.pool && s.pool[g] == t;
        ServedFromPool(s, b, t, g);
      } else {
        ServedByItself(s, b, t, h);
      }
    }
  }

  /** Failures occur: one caller fails to create a task while another waits for it. */
  lemma FailureOccurs(t: Task) returns (steps: seq<Step>, s: State)
    ensures Reaches(INIT, steps, s) && s.callers == map[0 := Failed(t), 1 := Parked(t)]
  {
    hide Reaches;
    var s1 := Apply(INIT, Call(0, t));
    var s2 := Apply(s1, Check(0, None));
    var s3 := Apply(s2, Call(1, t));
    var s4 := Apply(s3, Check(1, None));
    s := Apply(s4, InitFail(0));
    Here(s);
    steps := Prepend(s4, InitFail(0), [], s);
    steps := Prepend(s3, Check(1, None), steps, s);
    steps := Prepend(s2, Call(1, t), steps, s);
    steps := Prepend(s1, Check(0, None), steps, s);
    steps := Prepend(INIT, Call(0, t), steps, s);
  }

  // ---------------------------------------------------------------- the pool in memory

  /** The process's globals. Each method is one critical section under g_channel2task_mtx and makes the step
      of the same kind; the ghost fields record the callers and the channel objects. */
  class Pool {
    var channel2task: map<Handle, Task>
    var creatingTask: set<Task>
    ghost var callers: map<Caller, Phase>
    ghost var alive: map<Handle, Task>

    ghost function View(): State
      reads this
    {
      State(channel2task, creatingTask, callers, alive)
    }

    constructor ()
      ensures View() == INIT
    {
      channel2task, creatingTask, callers, alive := map[], {}, map[], map[];
    }

    /** Wait predicate and search of the pool; true when the caller is to create the channel. */
    method BeginCreate(ghost c: Caller, task: Task) returns (parked: bool, found: Found)
      requires c in callers && callers[c] == Checking(task)
      modifies this
      ensures parked <==> task in old(creatingTask)
      ensures !parked ==>
        && Enabled(old(View()), Check(c, found))
        && View() == Apply(old(View()), Check(c, found))
      ensures parked ==> View() == old(View()).(callers := old(callers)[c := Parked(task)])
      ensures channel2task == old(channel2task)
      ensures found.Some? ==> !parked && found.handle in channel2task && channel2task[found.handle] == task
      ensures !parked && found.None? ==> forall h :: h in channel2task ==> channel2task[h] != task
      ensures creatingTask == old(creatingTask) + if !parked && found.None? then {task} else {}
      ensures !parked ==> callers[c] == if found.Some? then Returned(task, found.handle) else Creating(task)
    {
      found := None;
      parked := task in creatingTask;
      if parked {
        callers := callers[c := Parked(task)];
        return;
      }
      var left := channel2task;
      while left != map[]
        invariant left.Keys <= channel2task.Keys
        invariant forall h :: h in left ==> left[h] == channel2task[h]
        invariant forall h :: h in channel2task && h !in left ==> channel2task[h] != task
        invariant View() == old(View()) && found == None
        decreases |left|
      {
        var h :| h in left;
        if left[h] == task {
          found := Some(h);
          callers := callers[c := Returned(task, h)];
          return;
        }
        left := left - {h};
      }
      creatingTask := creatingTask + {task};
      callers := callers[c := Creating(task)];
    }

    /** A channel built goes into the pool. */
    method EndCreate(ghost c: Caller, task: Task, h: Handle)
      requires Enabled(View(), Insert(c)) && callers[c] == Built(task, h)
      modifies this
      ensures View() == Apply(old(View()), Insert(c))
      ensures channel2task == if h in old(channel2task) then old(channel2task) else old(channel2task)[h := task]
      ensures creatingTask == old(creatingTask) - {task}
      ensures forall b :: b in callers ==> !callers[b].Parked?
    {
      if h !in channel2task {
        channel2task := channel2task[h := task];
      }
      creatingTask := creatingTask - {task};
      callers := WakeAll(callers[c := Returned(task, h)]);
    }

    /** A channel to be destroyed leaves the pool. */
    method Remove(h: Handle)
      requires Enabled(View(), Erase(h))
      modifies this`channel2task
      ensures View() == Apply(old(View()), Erase(h))
      ensures channel2task == old(channel2task) - {h}
    {
      channel2task := channel2task - {h};
    }
  }
}
