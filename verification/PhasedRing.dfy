/** One ring buffer used by several threads. Writing is three critical sections (grow, wait for room,
    copy in) and reading is two (wait for data, copy out; or check for a frame, take it), so the steps
    of different threads interleave between a guard and the copy that relies on it. */
module PhasedRing {
  import opened Bytes
  import opened Framing
  import opened CycleBuffers

  type Thread = nat

  datatype Phase =
    | Idle
    | WriteBegun(data: seq<byte>)
    | WriteGrown(data: seq<byte>)
    | WriteReady(data: seq<byte>)   // saw enough room
    | ReadBegun(length: nat)
    | ReadReady(length: nat)        // saw enough data
    | FrameReady(seen: Parsed)      // saw a whole frame at the front

  /** A completed operation, in the order of the copying sections. */
  datatype Event = Appended(data: seq<byte>) | Taken(data: seq<byte>) | Parsed(seen: Parsed)

  /** cap and q are the ring's capacity and contents; faulted says that a copying section ran
      although its guard no longer held. */
  datatype State = State(cap: Capacity, q: seq<byte>, phase: map<Thread, Phase>, log: seq<Event>, faulted: bool)

  datatype Step =
    | BeginWrite(t: Thread, data: seq<byte>)
    | Grow(t: Thread)
    | SeeRoom(t: Thread)
    | CopyIn(t: Thread)
    | BeginRead(t: Thread, length: nat)
    | SeeData(t: Thread)
    | CopyOut(t: Thread)
    | SeeFrame(t: Thread)
    | TakeFrame(t: Thread)

  predicate Enabled(s: State, step: Step)
  {
    && step.t in s.phase
    && var p := s.phase[step.t];
      match step
      case BeginWrite(_, _) => p.Idle?
      case Grow(_) => p.WriteBegun?
      case SeeRoom(_) => p.WriteGrown? && s.cap - |s.q| >= |p.data|
      case CopyIn(_) => p.WriteReady?
      case BeginRead(_, _) => p.Idle?
      case SeeData(_) => p.ReadBegun? && |s.q| >= p.length
      case CopyOut(_) => p.ReadReady?
      case SeeFrame(_) => p.Idle? && CanRead(s.q)
      case TakeFrame(_) => p.FrameReady?
  }

  function Apply(s: State, step: Step): State
    requires Enabled(s, step)
  {
    var t, p := step.t, s.phase[step.t];
    match step
    case BeginWrite(_, d) => s.(phase := s.phase[t := WriteBegun(d)])
    case Grow(_) =>
      s.(cap := if s.cap >= |s.q| then Grown(s.cap, s.cap - |s.q|, |p.data|) else s.cap,
         phase := s.phase[t := WriteGrown(p.data)])
    case SeeRoom(_) => s.(phase := s.phase[t := WriteReady(p.data)])
    case CopyIn(_) =>
      if s.cap - |s.q| >= |p.data| then
        s.(q := s.q + p.data, phase := s.phase[t := Idle], log := s.log + [Appended(p.data)])
      else
        s.(faulted := true, phase := s.phase[t := Idle])
    case BeginRead(_, k) => s.(phase := s.phase[t := ReadBegun(k)])
    case SeeData(_) => s.(phase := s.phase[t := ReadReady(p.length)])
    case CopyOut(_) =>
      if |s.q| >= p.length then
        s.(q := s.q[p.length..], phase := s.phase[t := Idle], log := s.log + [Taken(s.q[..p.length])])
      else
        s.(faulted := true, phase := s.phase[t := Idle])
    case SeeFrame(_) => s.(phase := s.phase[t := FrameReady(ParseFront(s.q))])
    case TakeFrame(_) =>
      var found := ParseFront(s.q);
      if found == p.seen then
        s.(q := if found.Got? then s.q[found.length..] else s.q, phase := s.phase[t := Idle],
           log := s.log + [Parsed(found)])
      else
        s.(faulted := true, phase := s.phase[t := Idle])
  }

  /** The same events on an atomic byte queue, starting empty; None if one could not happen. */
  datatype Queue = Impossible | Queue(q: seq<byte>)

  function Atomic(q: seq<byte>, e: Event): Queue
  {
    match e
    case Appended(d) => Queue(q + d)
    case Taken(d) => if d <= q then Queue(q[|d|..]) else Impossible
    case Parsed(p) =>
      if ParseFront(q) != p then Impossible
      else Queue(if p.Got? && p.length <= |q| then q[p.length..] else q)
  }

  function Replay(log: seq<Event>): Queue
  {
    if log == [] then Queue([])
    else
      var r, e := Replay(log[..|log| - 1]), log[|log| - 1];
      if r.Impossible? then Impossible else Atomic(r.q, e)
  }

  predicate IsWriter(p: Phase)
  {
    p.WriteBegun? || p.WriteGrown? || p.WriteReady?
  }

  predicate IsReader(p: Phase)
  {
    p.ReadBegun? || p.ReadReady? || p.FrameReady?
  }

  /** At any moment at most one thread is writing and at most one is reading. */
  predicate OneEach(s: State)
  {
    && (forall t, u :: t in s.phase && u in s.phase && IsWriter(s.phase[t]) && IsWriter(s.phase[u]) ==> t == u)
    && (forall t, u :: t in s.phase && u in s.phase && IsReader(s.phase[t]) && IsReader(s.phase[u]) ==> t == u)
  }

  /** What a thread's guard established still holds. */
  predicate GuardHolds(s: State, p: Phase)
  {
    && (p.WriteReady? ==> s.cap - |s.q| >= |p.data|)
    && (p.ReadReady? ==> |s.q| >= p.length)
    && (p.FrameReady? ==> CanRead(s.q) && ParseFront(s.q) == p.seen)
  }

  predicate Inv(s: State)
  {
    && |s.q| <= s.cap
    && !s.faulted
    && (forall t :: t in s.phase ==> GuardHolds(s, s.phase[t]))
    && Replay(s.log) == Queue(s.q)
  }

  lemma ParseStable(q: seq<byte>, more: seq<byte>)
    requires CanRead(q)
    ensures CanRead(q + more) && ParseFront(q + more) == ParseFront(q)
  {
    assert (q + more)[..8] == q[..8];
    var len := FromLittleEndian(q[..8]);
    assert (q + more)[..len] == q[..len];
  }

  lemma ParsedFits(q: seq<byte>)
    ensures ParseFront(q).Got? ==> ParseFront(q).length <= |q|
  {
  }

  lemma ReplaySnoc(log: seq<Event>, e: Event)
    ensures Replay(log).Queue? ==> Replay(log + [e]) == Atomic(Replay(log).q, e)
  {
    assert (log + [e])[..|log|] == log;
  }

  /** A guard seen by one thread survives every step of another kind of thread: the writer's steps,
      growing included, keep what a reader saw, and the reader's steps keep what a writer saw. */
  lemma InvStep(s: State, step: Step)
    requires Inv(s) && OneEach(s) && Enabled(s, step) && OneEach(Apply(s, step))
    ensures Inv(Apply(s, step))
  {
    var t, p, s' := step.t, s.phase[step.t], Apply(s, step);
    match step {
      case CopyIn(_) =>
        ReplaySnoc(s.log, Appended(p.data));
        forall u | u in s'.phase ensures GuardHolds(s', s'.phase[u]) {
          if s'.phase[u].FrameReady? { ParseStable(s.q, p.data); }
        }
      case CopyOut(_) =>
        ReplaySnoc(s.log, Taken(s.q[..p.length]));
      case TakeFrame(_) =>
        ReplaySnoc(s.log, Parsed(p.seen));
        ParsedFits(s.q);
      case _ =>
    }
  }

  /** The states a run passes through; it stops at a step that is not enabled. */
  function Exec(s: State, steps: seq<Step>): (r: seq<State>)
    ensures |r| > 0
    decreases |steps|
  {
    if steps == [] || !Enabled(s, steps[0]) then [s]
    else [s] + Exec(Apply(s, steps[0]), steps[1..])
  }

  /** With one writing and one reading thread at a time, every interleaving linearises: no copy ever
      runs without its guard, and the completed operations, replayed one at a time on an atomic byte
      queue, give the same results and leave the ring's contents. */
  lemma {:induction false} PhasesLinearise(s: State, steps: seq<Step>)
    requires Inv(s) && (forall r :: r in Exec(s, steps) ==> OneEach(r))
    ensures forall r :: r in Exec(s, steps) ==> !r.faulted && Replay(r.log) == Queue(r.q)
    decreases |steps|
  {
    assert s in Exec(s, steps);
    if steps != [] && Enabled(s, steps[0]) {
      var s', rest := Apply(s, steps[0]), steps[1..];
      assert Exec(s, steps) == [s] + Exec(s', rest);
      forall r | r in Exec(s', rest) ensures OneEach(r) {
        assert r in Exec(s, steps);
      }
      assert s' == Exec(s', rest)[0];
      InvStep(s, steps[0]);
      PhasesLinearise(s', rest);
    }
  }

  /** Precisely these steps lead to a fault. */
  predicate EndsFaulted(s: State, steps: seq<Step>)
    decreases |steps|
  {
    if steps == [] then s.faulted
    else Enabled(s, steps[0]) && EndsFaulted(Apply(s, steps[0]), steps[1..])
  }

  lemma FaultedHere(s: State)
    requires s.faulted
    ensures EndsFaulted(s, [])
  {
  }

  lemma Before(s: State, step: Step, s': State, steps: seq<Step>) returns (longer: seq<Step>)
    requires Enabled(s, step) && Apply(s, step) == s' && EndsFaulted(s', steps)
    ensures EndsFaulted(s, longer)
  {
    longer := [step] + steps;
    assert longer[1..] == steps;
  }

  /** Threads 0 and 1 in these phases. */
  function Two(cap: Capacity, q: seq<byte>, p0: Phase, p1: Phase, log: seq<Event>): State
  {
    State(cap, q, map[0 := p0, 1 := p1], log, false)
  }

  lemma BothCopyIn(d: seq<byte>) returns (steps: seq<Step>)
    requires |d| == 1
    ensures EndsFaulted(Two(1, [], WriteReady(d), WriteReady(d), []), steps)
  {
    hide EndsFaulted;
    var s := Two(1, [], WriteReady(d), WriteReady(d), []);
    var s' := Two(1, d, Idle, WriteReady(d), [Appended(d)]);
    FaultedHere(Apply(s', CopyIn(1)));
    steps := Before(s', CopyIn(1), Apply(s', CopyIn(1)), []);
    steps := Before(s, CopyIn(0), s', steps);
  }

  /** The restriction is needed: two writers that both saw the last free byte fault. */
  lemma TwoWritersFault(b: byte) returns (steps: seq<Step>)
    ensures EndsFaulted(Two(1, [], Idle, Idle, []), steps)
  {
    hide EndsFaulted;
    var d := [b];
    var s0 := Two(1, [], Idle, Idle, []);
    var s1 := Two(1, [], WriteBegun(d), Idle, []);
    var s2 := Two(1, [], WriteBegun(d), WriteBegun(d), []);
    var s3 := Two(1, [], WriteGrown(d), WriteBegun(d), []);
    var s4 := Two(1, [], WriteGrown(d), WriteGrown(d), []);
    var s5 := Two(1, [], WriteReady(d), WriteGrown(d), []);
    var s6 := Two(1, [], WriteReady(d), WriteReady(d), []);
    steps := BothCopyIn(d);
    steps := Before(s5, SeeRoom(1), s6, steps);
    steps := Before(s4, SeeRoom(0), s5, steps);
    steps := Before(s3, Grow(1), s4, steps);
    steps := Before(s2, Grow(0), s3, steps);
    steps := Before(s1, BeginWrite(1, d), s2, steps);
    steps := Before(s0, BeginWrite(0, d), s1, steps);
  }

  lemma BothCopyOut(d: seq<byte>, log: seq<Event>) returns (steps: seq<Step>)
    requires |d| == 1
    ensures EndsFaulted(Two(1, d, ReadReady(1), ReadReady(1), log), steps)
  {
    hide EndsFaulted;
    var s := Two(1, d, ReadReady(1), ReadReady(1), log);
    var s' := Two(1, [], Idle, ReadReady(1), log + [Taken(d)]);
    assert d[1..] == [] && d[..1] == d;
    FaultedHere(Apply(s', CopyOut(1)));
    steps := Before(s', CopyOut(1), Apply(s', CopyOut(1)), []);
    steps := Before(s, CopyOut(0), s', steps);
  }

  /** So do two readers that both saw the only byte. */
  lemma TwoReadersFault(b: byte) returns (steps: seq<Step>)
    ensures EndsFaulted(Two(1, [b], Idle, Idle, [Appended([b])]), steps)
  {
    hide EndsFaulted;
    var d, log := [b], [Appended([b])];
    var s0 := Two(1, d, Idle, Idle, log);
    var s1 := Two(1, d, ReadBegun(1), Idle, log);
    var s2 := Two(1, d, ReadBegun(1), ReadBegun(1), log);
    var s3 := Two(1, d, ReadReady(1), ReadBegun(1), log);
    var s4 := Two(1, d, ReadReady(1), ReadReady(1), log);
    steps := BothCopyOut(d, log);
    steps := Before(s3, SeeData(1), s4, steps);
    steps := Before(s2, SeeData(0), s3, steps);
    steps := Before(s1, BeginRead(1, 1), s2, steps);
    steps := Before(s0, BeginRead(0, 1), s1, steps);
  }
}
