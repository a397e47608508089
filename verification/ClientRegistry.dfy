/** The process-wide registry of outgoing connections: clients of many tasks share one connection per
    address, a single one of them dials while the others wait, and the last to close tears down. */
module ClientRegistry {
  import Numbers

  type Address = seq<char>
  type Client = nat
  type Conn = nat

  /** A client, from entering connect() to the end of close(). */
  datatype Phase =
    | Checking(addr: Address)              // woken, about to look for the connection again
    | Parked(addr: Address)
    | Dialing(addr: Address)
    | Failed(addr: Address)                // connect() returned false
    | Linked(addr: Address, conn: Conn)
    | Unlinked(addr: Address, conn: Conn)  // its task stopped on the connection
    | Closed

  datatype State = State(
    connections: map<Address, Conn>,
    recycled: set<Conn>,
    toConnect: set<Address>,
    taskCount: int,
    clients: map<Client, Phase>,
    unusable: set<Conn>,                   // connections whose reuseable flag is off
    closed: set<Conn>,
    used: set<Conn>)

  const INIT := State(map[], {}, {}, 0, map[], {}, {}, {})

  datatype Step =
    | Connect(k: Client, addr: Address)
    | Recheck(k: Client)
    | Spurious(k: Client)
    | DialOk(k: Client, conn: Conn)        // a new connection object
    | DialFail(k: Client)
    | Break(conn: Conn)
    | StopTask(k: Client)
    | Close(k: Client, unreceived: nat)

  predicate Enabled(s: State, step: Step)
  {
    match step
    case Connect(k, _) => k !in s.clients
    case Recheck(k) => k in s.clients && s.clients[k].Checking?
    case Spurious(k) => k in s.clients && s.clients[k].Parked?
    case DialOk(k, c) => k in s.clients && s.clients[k].Dialing? && c !in s.used
    case DialFail(k) => k in s.clients && s.clients[k].Dialing?
    case Break(c) => c in s.used
    case StopTask(k) => k in s.clients && s.clients[k].Linked?
    case Close(k, _) => k in s.clients && s.clients[k].Unlinked?
  }

  /** The part of connect() after no reusable connection was found. */
  function WaitOrDial(s: State, k: Client, addr: Address): State
  {
    if addr in s.toConnect then s.(clients := s.clients[k := Parked(addr)])
    else s.(toConnect := s.toConnect + {addr}, clients := s.clients[k := Dialing(addr)])
  }

  function WakeAll(m: map<Client, Phase>): map<Client, Phase>
  {
    map k | k in m :: if m[k].Parked? then Checking(m[k].addr) else m[k]
  }

  function Apply(s: State, step: Step): State
    requires Enabled(s, step)
  {
    match step
    case Connect(k, addr) =>
      var s1 := s.(taskCount := s.taskCount + 1);
      if addr in s.connections then
        var c := s.connections[addr];
        if c !in s.unusable then s1.(clients := s.clients[k := Linked(addr, c)])
        else WaitOrDial(s1.(recycled := s.recycled + {c}, connections := s.connections - {addr}), k, addr)
      else WaitOrDial(s1, k, addr)
    case Recheck(k) =>
      var addr := s.clients[k].addr;
      if addr in s.connections then s.(clients := s.clients[k := Linked(addr, s.connections[addr])])
      else s.(clients := s.clients[k := Parked(addr)])
    case Spurious(k) => s.(clients := s.clients[k := Checking(s.clients[k].addr)])
    case DialOk(k, c) =>
      var addr := s.clients[k].addr;
      // map insertion keeps an entry that is there
      s.(connections := if addr in s.connections then s.connections else s.connections[addr := c],
         toConnect := s.toConnect - {addr},
         clients := WakeAll(s.clients[k := Linked(addr, c)]),
         used := s.used + {c})
    case DialFail(k) => s.(clients := s.clients[k := Failed(s.clients[k].addr)])
    case Break(c) => s.(unusable := s.unusable + {c})
    case StopTask(k) => s.(clients := s.clients[k := Unlinked(s.clients[k].addr, s.clients[k].conn)])
    case Close(k, unreceived) =>
      var s1 := s.(taskCount := s.taskCount - 1, clients := s.clients[k := Closed]);
      if s1.taskCount == 0 && unreceived == 0 then
        s1.(closed := s.closed + s.connections.Values, connections := map[], recycled := {}, toConnect := {})
      else s1
  }

  // ---------------------------------------------------------------- what every step keeps

  predicate Claims(p: Phase, addr: Address)
  {
    (p.Dialing? || p.Failed?) && p.addr == addr
  }

  predicate Waits(p: Phase, addr: Address)
  {
    (p.Parked? || p.Checking?) && p.addr == addr
  }

  /** An address is connected or being connected, not both, and one client at most does the latter. */
  ghost predicate SingleFlight(s: State)
  {
    s.connections.Keys !! s.toConnect && OneClaimant(s) && Claimed(s)
  }

  ghost predicate OneClaimant(s: State)
  {
    && (forall k, a :: k in s.clients && Claims(s.clients[k], a) ==> a in s.toConnect)
    && (forall j, k, a :: j in s.clients && k in s.clients && Claims(s.clients[j], a) && Claims(s.clients[k], a) ==> j == k)
  }

  ghost predicate Claimed(s: State)
  {
    forall a :: a in s.toConnect ==> exists k :: k in s.clients && Claims(s.clients[k], a)
  }

  /** What the count says. */
  predicate CountOk(s: State)
  {
    s.taskCount == |Counted(s)|
  }

  /** A waiting client waits for something, and is not parked on what is there. */
  ghost predicate WaitersServed(s: State)
  {
    && (forall k, a :: k in s.clients && Waits(s.clients[k], a) ==> a in s.connections || a in s.toConnect)
    && (forall k :: k in s.clients && s.clients[k].Parked? ==> s.clients[k].addr !in s.connections)
  }

  function Counted(s: State): set<Client>
  {
    set k | k in s.clients && !s.clients[k].Closed?
  }

  predicate Open(s: State)
  {
    && (forall a :: a in s.connections ==> s.connections[a] in s.used && s.connections[a] !in s.closed)
    && (forall k :: k in s.clients && (s.clients[k].Linked? || s.clients[k].Unlinked?) ==>
          s.clients[k].conn in s.used && s.clients[k].conn !in s.closed)
    && s.closed <= s.used && s.unusable <= s.used
  }

  predicate OnConnection(p: Phase)
  {
    p.Linked? || p.Unlinked?
  }

  /** Connections are shared: whoever is on a connection that can be reused is on the one of its address; and a
      broken one that somebody is on is kept. */
  predicate Shared(s: State)
  {
    forall k :: k in s.clients && OnConnection(s.clients[k]) ==> SharedBy(s, k)
  }

  ghost predicate Inv(s: State)
  {
    Shared(s) && SingleFlight(s) && WaitersServed(s) && Open(s) && s.taskCount == |Counted(s)|
  }

  lemma LastCloses(s: State, k: Client)
    requires s.taskCount == |Counted(s)| && k in s.clients && !s.clients[k].Closed?
    ensures s.taskCount - 1 == 0 <==> forall j :: j in s.clients && j != k ==> s.clients[j].Closed?
  {
    assert k in Counted(s);
    if forall j :: j in s.clients && j != k ==> s.clients[j].Closed? {
      assert Counted(s) == {k};
    } else {
      var j :| j in s.clients && j != k && !s.clients[j].Closed?;
      assert Counted(s) - {k} != {} by { assert j in Counted(s) - {k}; }
      assert |Counted(s) - {k}| == |Counted(s)| - 1;
    }
  }

  lemma CountedStep(s: State, step: Step, j: Client)
    requires Enabled(s, step)
    ensures j in Counted(Apply(s, step)) <==>
      (j in Counted(s) || (step.Connect? && step.k == j)) && !(step.Close? && step.k == j)
  {
  }

  lemma CountStep(s: State, step: Step)
    requires s.taskCount == |Counted(s)| && Enabled(s, step)
    ensures Apply(s, step).taskCount == |Counted(Apply(s, step))|
  {
    forall j ensures j in Counted(Apply(s, step)) <==>
      (j in Counted(s) || (step.Connect? && step.k == j)) && !(step.Close? && step.k == j)
    {
      CountedStep(s, step, j);
    }
    SizeStep(Counted(s), Counted(Apply(s, step)), step);
    assert step.Connect? ==> step.k !in Counted(s);
    assert step.Close? ==> step.k in Counted(s);
  }

  lemma SizeStep(before: set<Client>, after: set<Client>, step: Step)
    requires forall j :: j in after <==>
      (j in before || (step.Connect? && step.k == j)) && !(step.Close? && step.k == j)
    ensures step.Connect? && step.k !in before ==> |after| == |before| + 1
    ensures step.Close? && step.k in before ==> |after| == |before| - 1
    ensures !step.Connect? && !step.Close? ==> after == before
  {
    if step.Connect? {
      assert after == before + {step.k};
    } else if step.Close? {
      assert after == before - {step.k};
    }
  }

  lemma ClaimantStep(s: State, step: Step, a: Address)
    requires SingleFlight(s) && Enabled(s, step) && a in Apply(s, step).toConnect
    ensures exists k :: k in Apply(s, step).clients && Claims(Apply(s, step).clients[k], a)
  {
    var s' := Apply(s, step);
    if a in s.toConnect {
      var k :| k in s.clients && Claims(s.clients[k], a);
      assert Claims(s'.clients[k], a);
    } else {
      assert Claims(s'.clients[step.k], a);
    }
  }

  lemma ApartStep(s: State, step: Step)
    requires SingleFlight(s) && Enabled(s, step)
    ensures Apply(s, step).connections.Keys !! Apply(s, step).toConnect
  {
  }

  lemma ClaimStep(s: State, step: Step, k: Client, a: Address)
    requires SingleFlight(s) && CountOk(s) && Enabled(s, step)
    requires k in Apply(s, step).clients && Claims(Apply(s, step).clients[k], a)
    ensures a in Apply(s, step).toConnect
    ensures forall j :: j in Apply(s, step).clients && Claims(Apply(s, step).clients[j], a) ==> j == k
  {
    assert (k in s.clients && Claims(s.clients[k], a)) || (step == Connect(k, a) && a !in s.toConnect);
    if step.Close? {
      LastCloses(s, step.k);
    }
  }

  lemma OneClaimantStep(s: State, step: Step)
    requires SingleFlight(s) && CountOk(s) && Enabled(s, step)
    ensures OneClaimant(Apply(s, step))
  {
    hide Apply, Enabled, SingleFlight, CountOk;
    var s' := Apply(s, step);
    forall k, a | k in s'.clients && Claims(s'.clients[k], a) ensures a in s'.toConnect {
      ClaimStep(s, step, k, a);
    }
    forall j, k, a | j in s'.clients && k in s'.clients && Claims(s'.clients[j], a) && Claims(s'.clients[k], a)
      ensures j == k
    {
      ClaimStep(s, step, k, a);
    }
  }

  lemma ClaimedStep(s: State, step: Step)
    requires SingleFlight(s) && Enabled(s, step)
    ensures Claimed(Apply(s, step))
  {
    hide Apply, Enabled, SingleFlight;
    forall a | a in Apply(s, step).toConnect
      ensures exists k :: k in Apply(s, step).clients && Claims(Apply(s, step).clients[k], a)
    {
      ClaimantStep(s, step, a);
    }
  }

  lemma SingleFlightStep(s: State, step: Step)
    requires SingleFlight(s) && CountOk(s) && Enabled(s, step)
    ensures SingleFlight(Apply(s, step))
  {
    ApartStep(s, step);
    OneClaimantStep(s, step);
    ClaimedStep(s, step);
  }

  lemma WaitersStep(s: State, step: Step)
    requires SingleFlight(s) && WaitersServed(s) && CountOk(s) && Enabled(s, step)
    ensures WaitersServed(Apply(s, step))
  {
    if step.Close? {
      LastCloses(s, step.k);
    }
  }

  lemma OpenStep(s: State, step: Step)
    requires Inv(s) && Enabled(s, step)
    ensures Open(Apply(s, step))
  {
    if step.Close? {
      LastCloses(s, step.k);
    }
  }

  lemma SharedStep(s: State, step: Step)
    requires Inv(s) && Enabled(s, step)
    ensures Shared(Apply(s, step))
  {
    var s' := Apply(s, step);
    forall k | k in s'.clients && OnConnection(s'.clients[k])
      ensures SharedBy(s', k)
    {
      SharedByStep(s, step, k);
    }
  }

  predicate SharedBy(s: State, k: Client)
    requires k in s.clients && OnConnection(s.clients[k])
  {
    var a, c := s.clients[k].addr, s.clients[k].conn;
    var registered := a in s.connections && s.connections[a] == c;
    (c !in s.unusable ==> registered) && (c in s.recycled || registered)
  }

  lemma SharedByStep(s: State, step: Step, k: Client)
    requires Inv(s) && Enabled(s, step)
    requires k in Apply(s, step).clients && OnConnection(Apply(s, step).clients[k])
    ensures SharedBy(Apply(s, step), k)
  {
    if step.Close? {
      LastCloses(s, step.k);
    }
    if step.DialOk? {
      assert Claims(s.clients[step.k], s.clients[step.k].addr);
    }
    if k in s.clients && OnConnection(s.clients[k]) {
      assert SharedBy(s, k);
    }
  }

  lemma InvStep(s: State, step: Step)
    requires Inv(s) && Enabled(s, step)
    ensures Inv(Apply(s, step))
  {
    SharedStep(s, step);
    CountStep(s, step);
    SingleFlightStep(s, step);
    WaitersStep(s, step);
    OpenStep(s, step);
  }

  /** r is reached from s by making precisely these steps. */
  predicate Reaches(s: State, steps: seq<Step>, r: State)
    decreases |steps|
  {
    if steps == [] then s == r
    else Enabled(s, steps[0]) && Reaches(Apply(s, steps[0]), steps[1..], r)
  }

  lemma {:induction false} InvAlong(s: State, steps: seq<Step>, r: State)
    requires Inv(s) && Reaches(s, steps, r)
    ensures Inv(r)
    decreases |steps|
  {
    if steps != [] {
      InvStep(s, steps[0]);
      InvAlong(Apply(s, steps[0]), steps[1..], r);
    }
  }

  /** In every state of every run: an address is never both connected and being connected, two clients
      never dial the same address, a successful dial always finds its slot free (the insertion is
      no silent no-op), no client is parked on a connection that is there, and no client that is linked
      has had its connection closed. */
  lemma RegistrySafety(steps: seq<Step>, s: State)
    requires Reaches(INIT, steps, s)
    ensures s.connections.Keys !! s.toConnect
    ensures forall j, k :: j in s.clients && k in s.clients && j != k && s.clients[j].Dialing? && s.clients[k].Dialing? ==>
      s.clients[j].addr != s.clients[k].addr
    ensures forall k, c :: Enabled(s, DialOk(k, c)) ==>
      var s' := Apply(s, DialOk(k, c)); var a := s.clients[k].addr;
      a in s'.connections && s'.connections[a] == c
    ensures forall k :: k in s.clients && s.clients[k].Parked? ==> s.clients[k].addr in s.toConnect - s.connections.Keys
    ensures forall k :: k in s.clients && s.clients[k].Linked? ==> s.clients[k].conn !in s.closed
  {
    InvAlong(INIT, steps, s);
    forall k | k in s.clients && s.clients[k].Dialing? ensures s.clients[k].addr in s.toConnect {
      assert Claims(s.clients[k], s.clients[k].addr);
    }
    forall j, k | j in s.clients && k in s.clients && j != k && s.clients[j].Dialing? && s.clients[k].Dialing?
      ensures s.clients[j].addr != s.clients[k].addr
    {
      assert Claims(s.clients[j], s.clients[j].addr) && Claims(s.clients[k], s.clients[k].addr);
    }
    forall k | k in s.clients && s.clients[k].Parked? ensures s.clients[k].addr in s.toConnect {
      assert Waits(s.clients[k], s.clients[k].addr);
    }
  }

  /** One connection per address: in every state of every run, clients of one address that are on connections
      which can be reused are all on the same, the one registered for the address; and a client that comes
      while there is one is linked to it at once. */
  lemma OneConnectionPerAddress(steps: seq<Step>, s: State, j: Client, k: Client)
    requires Reaches(INIT, steps, s)
    requires j in s.clients && OnConnection(s.clients[j]) && s.clients[j].conn !in s.unusable
    ensures s.clients[j].addr in s.connections && s.connections[s.clients[j].addr] == s.clients[j].conn
    ensures k in s.clients && OnConnection(s.clients[k]) && s.clients[k].conn !in s.unusable ==>
      (s.clients[k].addr == s.clients[j].addr ==> s.clients[k].conn == s.clients[j].conn)
    ensures k !in s.clients ==>
      Apply(s, Connect(k, s.clients[j].addr)).clients[k] == Linked(s.clients[j].addr, s.clients[j].conn)
  {
    InvAlong(INIT, steps, s);
  }

  /** A broken connection that somebody is still on is kept: registered, or recycled. */
  lemma BrokenIsKept(steps: seq<Step>, s: State, k: Client)
    requires Reaches(INIT, steps, s) && k in s.clients && OnConnection(s.clients[k])
    ensures s.clients[k].conn in s.recycled || s.clients[k].conn in s.connections.Values
  {
    InvAlong(INIT, steps, s);
  }

  /** Steps of other clients leave a client as it is, except that they may wake it. */
  lemma OthersUntouched(s: State, step: Step, k: Client)
    requires Enabled(s, step) && (step.Break? || step.k != k)
    ensures var s' := Apply(s, step);
      && (k in s'.clients <==> k in s.clients)
      && (k in s.clients ==>
            s'.clients[k] == s.clients[k] || (s.clients[k].Parked? && s'.clients[k] == Checking(s.clients[k].addr)))
  {
  }

  /** No step registers, replaces or retires the connection of another address, except for a teardown. */
  lemma OtherAddressesUntouched(s: State, step: Step, a: Address)
    requires Enabled(s, step) && !step.Close?
    requires step.Connect? ==> step.addr != a
    requires step.DialOk? || step.Recheck? ==> s.clients[step.k].addr != a
    ensures var s' := Apply(s, step);
      && (a in s'.connections <==> a in s.connections)
      && (a in s.connections ==> s'.connections[a] == s.connections[a])
      && (a in s'.toConnect <==> a in s.toConnect)
  {
  }

  /** A close tears down precisely when it leaves no client that is connected, connecting or failed and
      nothing is unreceived; nobody is dialing then, so clearing the set of pending addresses
      loses nothing. */
  lemma TeardownExactly(steps: seq<Step>, s: State, k: Client, unreceived: nat)
    requires Reaches(INIT, steps, s) && Enabled(s, Close(k, unreceived))
    ensures var s' := Apply(s, Close(k, unreceived));
      var last := unreceived == 0 && forall j :: j in s.clients && j != k ==> s.clients[j].Closed?;
      && (last ==> s'.recycled == {}) && (!last ==> s'.recycled == s.recycled)
      && (last ==> s'.connections == map[] && s'.closed == s.closed + s.connections.Values && s.toConnect == {})
      && (!last ==> s'.connections == s.connections && s'.closed == s.closed && s'.toConnect == s.toConnect)
  {
    InvAlong(INIT, steps, s);
    LastCloses(s, k);
    if forall j :: j in s.clients && j != k ==> s.clients[j].Closed? {
      forall a ensures a !in s.toConnect {
        assert forall j :: j in s.clients ==> !Claims(s.clients[j], a);
      }
    }
  }

  /** One step while client k's failed connect still claims an address. */
  lemma FailureStep(s: State, step: Step, k: Client, j: Client)
    requires Inv(s) && Enabled(s, step)
    requires k in s.clients && s.clients[k].Failed?
    ensures k in Apply(s, step).clients && Apply(s, step).clients[k] == s.clients[k]
    ensures j in Apply(s, step).clients && j != k ==>
      var p := Apply(s, step).clients[j]; var a := s.clients[k].addr;
      (Claims(p, a) || (p.Linked? && p.addr == a)) ==> j in s.clients && s.clients[j] == p
    ensures j in s.clients && Waits(s.clients[j], s.clients[k].addr) ==>
      j in Apply(s, step).clients && Waits(Apply(s, step).clients[j], s.clients[k].addr)
  {
    assert Claims(s.clients[k], s.clients[k].addr);
  }

  /** A failed connect keeps its address claimed for good: in every run that follows, no client comes to dial
      that address or to be linked to it, and a client that waits for it never leaves the wait. */
  lemma {:induction false} FailureBlocksAddress(s: State, steps: seq<Step>, r: State, k: Client, j: Client)
    requires Inv(s) && Reaches(s, steps, r)
    requires k in s.clients && s.clients[k].Failed?
    ensures k in r.clients && r.clients[k] == s.clients[k]
    ensures j in r.clients && j != k ==>
      var p := r.clients[j]; var a := s.clients[k].addr;
      (Claims(p, a) || (p.Linked? && p.addr == a)) ==> j in s.clients && s.clients[j] == p
    ensures j in s.clients && Waits(s.clients[j], s.clients[k].addr) ==>
      j in r.clients && Waits(r.clients[j], s.clients[k].addr)
    decreases |steps|
  {
    if steps != [] {
      FailureStep(s, steps[0], k, j);
      assert Claims(s.clients[k], s.clients[k].addr);
      InvStep(s, steps[0]);
      FailureBlocksAddress(Apply(s, steps[0]), steps[1..], r, k, j);
    }
  }

  // ---------------------------------------------------------------- who can still be served

  lemma Here(s: State)
    ensures Reaches(s, [], s)
  {
  }

  lemma Prepend(s: State, step: Step, s': State, steps: seq<Step>, r: State) returns (longer: seq<Step>)
    requires Enabled(s, step) && Apply(s, step) == s' && Reaches(s', steps, r)
    ensures Reaches(s, longer, r)
  {
    longer := [step] + steps;
    assert longer[1..] == steps;
  }

  /** This client ends up linked to the address in some continuation. */
  ghost predicate CanBeServed(s: State, k: Client, a: Address)
  {
    exists steps, r :: Reaches(s, steps, r) && k in r.clients && r.clients[k].Linked? && r.clients[k].addr == a
  }

  /** Another client is dialing and has not failed: it gets through, then k finds its connection. */
  lemma ServedByDialer(s: State, k: Client, a: Address, j: Client, c: Conn)
    requires Inv(s) && k !in s.clients && j in s.clients && s.clients[j] == Dialing(a) && c !in s.used
    ensures CanBeServed(s, k, a)
  {
    hide Reaches;
    assert Claims(s.clients[j], a);
    var s1 := Apply(s, Connect(k, a));
    assert s1.clients[k] == Parked(a);
    var s2 := Apply(s1, DialOk(j, c));
    assert s2.connections[a] == c && s2.clients[k] == Checking(a);
    var s3 := Apply(s2, Recheck(k));
    Here(s3);
    var steps := Prepend(s2, Recheck(k), s3, [], s3);
    steps := Prepend(s1, DialOk(j, c), s2, steps, s3);
    steps := Prepend(s, Connect(k, a), s1, steps, s3);
  }

  /** Nobody claims the address: k is linked at once, or dials itself. */
  lemma ServedByItself(s: State, k: Client, a: Address, c: Conn)
    requires Inv(s) && k !in s.clients && a !in s.toConnect && c !in s.used
    ensures CanBeServed(s, k, a)
  {
    hide Reaches;
    var s1 := Apply(s, Connect(k, a));
    if s1.clients[k].Linked? {
      Here(s1);
      var steps := Prepend(s, Connect(k, a), s1, [], s1);
    } else {
      assert s1.clients[k] == Dialing(a);
      var s2 := Apply(s1, DialOk(k, c));
      Here(s2);
      var steps := Prepend(s1, DialOk(k, c), s2, [], s2);
      steps := Prepend(s, Connect(k, a), s1, steps, s2);
    }
  }

  /** In every reachable state a new client can still be linked to an address if and only if no connect to
      that address has failed. */
  lemma ServedExactly(before: seq<Step>, s: State, k: Client, a: Address)
    requires Reaches(INIT, before, s) && k !in s.clients
    ensures CanBeServed(s, k, a) <==> forall j :: j in s.clients ==> s.clients[j] != Failed(a)
  {
    InvAlong(INIT, before, s);
    if j :| j in s.clients && s.clients[j] == Failed(a) {
      forall steps, r | Reaches(s, steps, r) && k in r.clients && r.clients[k].Linked? && r.clients[k].addr == a ensures false {
        FailureBlocksAddress(s, steps, r, j, k);
      }
    } else {
      var c := Numbers.AboveAll(s.used);
      if a in s.toConnect {
        var j :| j in s.clients && Claims(s.clients[j], a);
        ServedByDialer(s, k, a, j, c);
      } else {
        ServedByItself(s, k, a, c);
      }
    }
  }

  /** Failures occur: one client's dial fails while another waits for it. */
  lemma FailureOccurs(a: Address) returns (steps: seq<Step>, s: State)
    ensures Reaches(INIT, steps, s) && s.clients == map[0 := Failed(a), 1 := Parked(a)]
  {
    hide Reaches;
    var s1 := Apply(INIT, Connect(0, a));
    var s2 := Apply(s1, Connect(1, a));
    s := Apply(s2, DialFail(0));
    Here(s);
    steps := Prepend(s2, DialFail(0), s, [], s);
    steps := Prepend(s1, Connect(1, a), s2, steps, s);
    steps := Prepend(INIT, Connect(0, a), s1, steps, s);
  }

  /** Two clients on connection 0 of one address. */
  function TwoLinked(a: Address): State
  {
    State(map[a := 0], {}, {}, 2, map[0 := Linked(a, 0), 1 := Linked(a, 0)], {}, {}, {0})
  }

  lemma BothStop(a: Address) returns (steps: seq<Step>, s: State)
    ensures Reaches(TwoLinked(a), steps, s)
    ensures s == TwoLinked(a).(taskCount := 1, clients := map[0 := Closed, 1 := Unlinked(a, 0)])
  {
    hide Reaches;
    var s3 := TwoLinked(a);
    var s4 := s3.(clients := map[0 := Unlinked(a, 0), 1 := Linked(a, 0)]);
    var s5 := s3.(taskCount := 1, clients := map[0 := Closed, 1 := Linked(a, 0)]);
    s := s3.(taskCount := 1, clients := map[0 := Closed, 1 := Unlinked(a, 0)]);
    Here(s);
    steps := Prepend(s5, StopTask(1), s, [], s);
    steps := Prepend(s4, Close(0, 0), s5, steps, s);
    steps := Prepend(s3, StopTask(0), s4, steps, s);
  }

  /** A whole life of the registry: two clients share a connection, the first to stop leaves it open, the last
      tears it down. */
  lemma SharedThenTornDown(a: Address) returns (steps: seq<Step>, s: State)
    ensures Reaches(INIT, steps, s)
    ensures s.clients == map[0 := Closed, 1 := Unlinked(a, 0)] && s.connections == map[a := 0] && s.closed == {}
    ensures Enabled(s, Close(1, 0)) && Apply(s, Close(1, 0)).connections == map[] && Apply(s, Close(1, 0)).closed == {0}
  {
    hide Reaches;
    steps, s := BothStop(a);
    var s1 := State(map[], {}, {a}, 1, map[0 := Dialing(a)], {}, {}, {});
    var s2 := State(map[a := 0], {}, {}, 1, map[0 := Linked(a, 0)], {}, {}, {0});
    steps := Prepend(s2, Connect(1, a), TwoLinked(a), steps, s);
    steps := Prepend(s1, DialOk(0, 0), s2, steps, s);
    steps := Prepend(INIT, Connect(0, a), s1, steps, s);
    assert s.connections.Values == {0} by { assert s.connections[a] == 0; }
  }

  // ---------------------------------------------------------------- handing over broken connections

  predicate NewlyLinked(s: State, s': State, k: Client)
  {
    k in s'.clients && s'.clients[k].Linked? && !(k in s.clients && s.clients[k].Linked?)
  }

  /** A waiter finds under its address a connection that cannot be reused. */
  predicate FindsBroken(s: State, k: Client)
    requires Enabled(s, Recheck(k))
  {
    var a := s.clients[k].addr;
    a in s.connections && s.connections[a] in s.unusable
  }

  /** Every way to be linked but one hands over a connection that can be reused; the one is a waiter's look
      after its wait, which does not ask, and it fails exactly on a broken connection. */
  lemma HandOver(s: State, step: Step, k: Client)
    requires Inv(s) && Enabled(s, step) && NewlyLinked(s, Apply(s, step), k)
    ensures Apply(s, step).clients[k].conn in Apply(s, step).unusable <==> step == Recheck(k) && FindsBroken(s, k)
  {
  }

  lemma FoundIsHanded(s: State, k: Client)
    requires Enabled(s, Recheck(k)) && FindsBroken(s, k)
    ensures NewlyLinked(s, Apply(s, Recheck(k)), k) && Apply(s, Recheck(k)).clients[k].conn in s.unusable
  {
  }

  /** Along these steps every connection a client is handed can be reused at that moment. */
  predicate AllUsable(s: State, steps: seq<Step>)
    decreases |steps|
  {
    steps != [] && Enabled(s, steps[0]) ==>
      var s' := Apply(s, steps[0]);
      && (forall k :: k in s'.clients && NewlyLinked(s, s', k) ==> s'.clients[k].conn !in s'.unusable)
      && AllUsable(s', steps[1..])
  }

  /** Along these steps no connection that has just been made breaks before the waiters have looked. */
  predicate NoneBreaksFirst(s: State, steps: seq<Step>)
    decreases |steps|
  {
    steps != [] && Enabled(s, steps[0]) ==>
      && (steps[0].Recheck? ==> !FindsBroken(s, steps[0].k))
      && NoneBreaksFirst(Apply(s, steps[0]), steps[1..])
  }

  lemma {:induction false} UsableFrom(s: State, steps: seq<Step>)
    requires Inv(s)
    ensures AllUsable(s, steps) <==> NoneBreaksFirst(s, steps)
    decreases |steps|
  {
    if steps != [] && Enabled(s, steps[0]) {
      var step := steps[0];
      var s' := Apply(s, step);
      forall k | k in s'.clients && NewlyLinked(s, s', k)
        ensures s'.clients[k].conn in s'.unusable <==> step == Recheck(k) && FindsBroken(s, k)
      {
        HandOver(s, step, k);
      }
      if step.Recheck? && FindsBroken(s, step.k) {
        FoundIsHanded(s, step.k);
      }
      InvStep(s, step);
      UsableFrom(s', steps[1..]);
    }
  }

  /** In every run: clients are only ever handed connections that can be reused if and only if no waiter
      looks again while the connection under its address is broken. */
  lemma UsableExactly(steps: seq<Step>)
    ensures AllUsable(INIT, steps) <==> NoneBreaksFirst(INIT, steps)
  {
    UsableFrom(INIT, steps);
  }

  /** It does happen: a connection breaks between its making and a waiter's look. */
  lemma BrokenHandedOver(a: Address) returns (steps: seq<Step>, s: State)
    ensures Reaches(INIT, steps, s) && 1 in s.clients && s.clients[1] == Linked(a, 0) && 0 in s.unusable
  {
    hide Reaches;
    var s1 := Apply(INIT, Connect(0, a));
    var s2 := Apply(s1, Connect(1, a));
    var s3 := Apply(s2, DialOk(0, 0));
    var s4 := Apply(s3, Break(0));
    s := Apply(s4, Recheck(1));
    Here(s);
    steps := Prepend(s4, Recheck(1), s, [], s);
    steps := Prepend(s3, Break(0), s4, steps, s);
    steps := Prepend(s2, DialOk(0, 0), s3, steps, s);
    steps := Prepend(s1, Connect(1, a), s2, steps, s);
    steps := Prepend(INIT, Connect(0, a), s1, steps, s);
  }

  // ---------------------------------------------------------------- the registry in memory

  datatype Entry = Reuse(conn: Conn) | Wait | Dial

  /** The static members of the client class. Each method is one critical section under task_mtx_, and
      makes the step of the same kind; the ghost fields record what the threads are doing. */
  class Registry {
    var connections: map<Address, Conn>
    var recycled: set<Conn>
    var toConnect: set<Address>
    var taskCount: int
    var unusable: set<Conn>
    ghost var clients: map<Client, Phase>
    ghost var closed: set<Conn>
    ghost var used: set<Conn>

    ghost function View(): State
      reads this
    {
      State(connections, recycled, toConnect, taskCount, clients, unusable, closed, used)
    }

    constructor ()
      ensures View() == INIT
    {
      connections, recycled, toConnect, taskCount, unusable := map[], {}, {}, 0, {};
      clients, closed, used := map[], {}, {};
    }

    /** The first critical section of connect(): a connection to reuse, a dial of others to wait for, or to
        dial oneself. A connection there that cannot be reused is retired. */
    method Enter(ghost k: Client, addr: Address) returns (e: Entry)
      requires Enabled(View(), Connect(k, addr))
      modifies this
      ensures View() == Apply(old(View()), Connect(k, addr))
      ensures taskCount == old(taskCount) + 1 && unusable == old(unusable)
      ensures var known := addr in old(connections); var c := if known then old(connections)[addr] else 0;
        && (e.Reuse? <==> known && c !in unusable)
        && (e.Reuse? ==> e.conn == c && connections == old(connections) && recycled == old(recycled))
        && (!e.Reuse? ==> connections == old(connections) - {addr} && recycled == old(recycled) + if known then {c} else {})
      ensures e.Wait? ==> addr in old(toConnect)
      ensures e.Dial? ==> addr !in old(toConnect)
      ensures toConnect == old(toConnect) + if e.Dial? then {addr} else {}
    {
      taskCount := taskCount + 1;
      if addr in connections {
        var c := connections[addr];
        if c !in unusable {
          clients := clients[k := Linked(addr, c)];
          return Reuse(c);
        }
        recycled := recycled + {c};
        connections := connections - {addr};
      }
      if addr in toConnect {
        clients := clients[k := Parked(addr)];
        return Wait;
      }
      toConnect := toConnect + {addr};
      clients := clients[k := Dialing(addr)];
      e := Dial;
    }

    /** A waiting client evaluates its predicate again. */
    method Reenter(ghost k: Client, addr: Address) returns (e: Entry)
      requires Enabled(View(), Recheck(k)) && clients[k].addr == addr
      modifies this`clients
      ensures View() == Apply(old(View()), Recheck(k))
      ensures e == if addr in connections then Reuse(connections[addr]) else Wait
      ensures clients[k] == if addr in connections then Linked(addr, connections[addr]) else Parked(addr)
    {
      if addr in connections {
        clients := clients[k := Linked(addr, connections[addr])];
        e := Reuse(connections[addr]);
      } else {
        clients := clients[k := Parked(addr)];
        e := Wait;
      }
    }

    /** The last critical section of a successful connect(). */
    method Register(ghost k: Client, addr: Address, c: Conn)
      requires Enabled(View(), DialOk(k, c)) && clients[k].addr == addr
      modifies this
      ensures View() == Apply(old(View()), DialOk(k, c))
      ensures connections == if addr in old(connections) then old(connections) else old(connections)[addr := c]
      ensures toConnect == old(toConnect) - {addr} && recycled == old(recycled)
      ensures taskCount == old(taskCount) && unusable == old(unusable)
      ensures forall j :: j in clients ==> !clients[j].Parked?
    {
      if addr !in connections {
        connections := connections[addr := c];
      }
      if addr in toConnect {
        toConnect := toConnect - {addr};
      }
      clients := WakeAll(clients[k := Linked(addr, c)]);
      used := used + {c};
    }

    /** Close and erase the connections one by one. */
    method CloseAll()
      modifies this`connections, this`closed
      ensures connections == map[] && closed == old(closed) + old(connections).Values
    {
      while connections != map[]
        invariant closed + connections.Values == old(closed) + old(connections).Values
        decreases |connections|
      {
        var a :| a in connections;
        ValuesWithout(connections, a);
        closed := closed + {connections[a]};
        connections := connections - {a};
      }
    }

    /** The critical section of close(). */
    method Leave(ghost k: Client, unreceived: nat)
      requires Enabled(View(), Close(k, unreceived))
      modifies this
      ensures View() == Apply(old(View()), Close(k, unreceived))
      ensures taskCount == old(taskCount) - 1 && unusable == old(unusable)
      ensures if taskCount == 0 && unreceived == 0
        then connections == map[] && recycled == {} && toConnect == {} && closed == old(closed) + old(connections).Values
        else connections == old(connections) && recycled == old(recycled) && toConnect == old(toConnect) && closed == old(closed)
    {
      taskCount := taskCount - 1;
      clients := clients[k := Closed];
      if taskCount == 0 && unreceived == 0 {
        CloseAll();
        recycled := {};
        toConnect := {};
      }
    }
  }

  lemma ValuesWithout(m: map<Address, Conn>, a: Address)
    requires a in m
    ensures (m - {a}).Values + {m[a]} == m.Values
  {
    forall c | c in m.Values ensures c in (m - {a}).Values + {m[a]} {
      var b :| b in m && m[b] == c;
      if b != a { assert b in m - {a}; }
    }
  }
}
