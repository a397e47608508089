/** The sending half of a connection: frames go into the send buffer, a sending loop takes all of it as
    one batch and writes the batch to the socket outside the lock, in pieces. */
module Sender {
  import opened Bytes
  import opened Framing
  import opened Hands

  type Task = seq<byte>

  datatype Sender = Sender(
    sendBuf: seq<byte>,
    batches: map<Task, seq<byte>>,   // taken, not yet written
    wire: seq<byte>,                 // written, not yet read by the peer
    put: seq<Frame>,                 // history: all frames ever put
    dropped: nat)                    // history: bytes of batches given up before they were written

  const INIT := Sender([], map[], [], [], 0)

  datatype Act =
    | Nop
    | Put(f: Frame)
    | Take(t: Task)
    | Write(t: Task, k: nat)
    | GiveUp(t: Task)                // the write failed: the rest of the batch is thrown away
    | Done(t: Task)
    | Drain(k: nat)                  // the peer reads k bytes

  predicate Enabled(s: Sender, a: Act)
  {
    match a
    case Nop => true
    case Put(f) => Sendable(f)
    case Take(t) => t !in s.batches
    case Write(t, k) => t in s.batches && k <= |s.batches[t]|
    case GiveUp(t) => t in s.batches
    case Done(t) => t in s.batches && s.batches[t] == []
    case Drain(k) => k <= |s.wire|
  }

  function Apply(s: Sender, a: Act): Sender
    requires Enabled(s, a)
  {
    match a
    case Nop => s
    case Put(f) => s.(sendBuf := s.sendBuf + Encode(f), put := s.put + [f])
    case Take(t) => s.(batches := s.batches[t := s.sendBuf], sendBuf := [])
    case Write(t, k) =>
      s.(wire := s.wire + s.batches[t][..k], batches := s.batches[t := s.batches[t][k..]])
    case GiveUp(t) => s.(dropped := s.dropped + |s.batches[t]|, batches := s.batches[t := []])
    case Done(t) => s.(batches := s.batches - {t})
    case Drain(k) => s.(wire := s.wire[k..])
  }

  ghost function BatchBytes(s: Sender): seq<byte>
  {
    var h := Only(s.batches);
    if h.Just? then h.value else []
  }

  /** Everything put that the peer has not read yet, in order. */
  ghost function Pending(s: Sender): seq<byte>
  {
    s.wire + BatchBytes(s) + s.sendBuf
  }

  function Sent(a: Act): seq<Frame>
  {
    if a.Put? then [a.f] else []
  }

  function Drained(a: Act): nat
  {
    if a.Drain? then a.k else 0
  }

  function Lost(s: Sender, a: Act): nat
  {
    if a.GiveUp? && a.t in s.batches then |s.batches[a.t]| else 0
  }

  /** While one thread at most has a batch, nothing is lost or reordered unless a batch is given up: each act
      only appends the encoding of what it puts behind what is pending, and takes what the peer reads off
      its front. What is given up is missing, and counted. */
  lemma PendingStep(s: Sender, a: Act)
    requires Enabled(s, a) && AtMostOne(s.batches) && AtMostOne(Apply(s, a).batches)
    ensures var s' := Apply(s, a);
      && s'.put == s.put + Sent(a)
      && s'.dropped == s.dropped + Lost(s, a)
      && Drained(a) <= |Pending(s)|
      && (Lost(s, a) == 0 ==> Pending(s') == Pending(s)[Drained(a)..] + EncodeAll(Sent(a)))
      && |Pending(s')| + Drained(a) + Lost(s, a) == |Pending(s)| + |EncodeAll(Sent(a))|
  {
    var s' := Apply(s, a);
    match a {
      case Take(t) =>
        FirstHolder(s.batches, t, s.sendBuf);
      case Write(t, k) =>
        OnlyIs(s.batches, t);
        OnlyIs(s'.batches, t);
      case GiveUp(t) =>
        OnlyIs(s.batches, t);
        OnlyIs(s'.batches, t);
        if Lost(s, a) == 0 {
          assert Pending(s') == Pending(s);
        }
      case Done(t) =>
        OnlyIs(s.batches, t);
        WithoutHolder(s.batches, t);
      case Put(f) =>
        assert EncodeAll([f]) == Encode(f);
      case _ =>
    }
  }

  /** r is reached from s by performing precisely these acts. */
  predicate Reaches(s: Sender, acts: seq<Act>, r: Sender)
    decreases |acts|
  {
    if acts == [] then s == r
    else Enabled(s, acts[0]) && Reaches(Apply(s, acts[0]), acts[1..], r)
  }

  lemma Here(s: Sender)
    ensures Reaches(s, [], s)
  {
  }

  lemma {:induction false} Extend(s: Sender, acts: seq<Act>, r: Sender, act: Act)
    requires Reaches(s, acts, r) && Enabled(r, act)
    ensures Reaches(s, acts + [act], Apply(r, act))
    decreases |acts|
  {
    var longer := acts + [act];
    if acts == [] {
      assert Reaches(Apply(s, act), longer[1..], Apply(r, act));
    } else {
      assert longer[1..] == acts[1..] + [act];
      Extend(Apply(s, acts[0]), acts[1..], r, act);
    }
  }

  lemma TwoBatches(a: Frame, b: Frame, t: Task, u: Task) returns (acts: seq<Act>)
    requires Sendable(a) && Sendable(b) && t != u
    ensures Reaches(INIT, acts, Sender([], map[t := Encode(a), u := Encode(b)], [], [a, b], 0))
  {
    hide Reaches;
    acts := [];
    Here(INIT);
    Extend(INIT, acts, INIT, Put(a));
    var s1 := Sender(Encode(a), map[], [], [a], 0);
    assert [] + Encode(a) == Encode(a) && Apply(INIT, Put(a)) == s1;
    acts := acts + [Put(a)];
    Extend(INIT, acts, s1, Take(t));
    var s2 := Sender([], map[t := Encode(a)], [], [a], 0);
    acts := acts + [Take(t)];
    Extend(INIT, acts, s2, Put(b));
    var s3 := Sender(Encode(b), map[t := Encode(a)], [], [a, b], 0);
    assert [] + Encode(b) == Encode(b) && [a] + [b] == [a, b];
    acts := acts + [Put(b)];
    Extend(INIT, acts, s3, Take(u));
    acts := acts + [Take(u)];
  }

  /** Without the token it breaks: two tasks with a batch each can write them in the wrong order. */
  lemma TwoSendersReorder(a: Frame, b: Frame, t: Task, u: Task) returns (acts: seq<Act>)
    requires Sendable(a) && Sendable(b) && t != u
    ensures Reaches(INIT, acts, Sender([], map[], Encode(b) + Encode(a), [a, b], 0))
  {
    hide Reaches;
    acts := TwoBatches(a, b, t, u);
    var s := Sender([], map[t := Encode(a), u := Encode(b)], [], [a, b], 0);
    acts := WriteAll(acts, s, u);
    var s' := s.(wire := Encode(b), batches := map[t := Encode(a)]);
    assert s.batches - {u} == s'.batches && s.wire + Encode(b) == s'.wire;
    acts := WriteAll(acts, s', t);
    assert s'.batches - {t} == map[];
  }

  /** A batch written in one piece. */
  lemma WriteAll(acts: seq<Act>, s: Sender, t: Task) returns (more: seq<Act>)
    requires Reaches(INIT, acts, s) && t in s.batches
    ensures Reaches(INIT, more, s.(wire := s.wire + s.batches[t], batches := s.batches - {t}))
  {
    hide Reaches;
    var k := |s.batches[t]|;
    var s' := Apply(s, Write(t, k));
    Extend(INIT, acts, s, Write(t, k));
    Extend(INIT, acts + [Write(t, k)], s', Done(t));
    more := acts + [Write(t, k)] + [Done(t)];
    assert s.batches[t][..k] == s.batches[t];
    assert s'.batches - {t} == s.batches - {t};
  }
}
