/** The receiving half of a connection: a listening thread stores what it read off the socket in the
    ring, a receiving loop takes frames off the ring and stores their payloads per id outside that lock,
    users take bytes of one id. Storing in the ring is three critical sections of the ring (grow, wait for
    room, copy in) and taking a frame is two (see that one is there, take it), and they interleave. */
module Receiver {
  import opened Bytes
  import opened Framing
  import opened Hands
  import opened CycleBuffers
  import PhasedRing

  type Task = seq<byte>
  type Server = nat

  /** Bytes read off the socket; the ring grown for them; room seen; stored, but the receivers not notified
      yet. */
  datatype Chunk =
    | InHand(data: seq<byte>)
    | RoomMade(data: seq<byte>)
    | RoomSeen(data: seq<byte>)
    | Stored

  /** What a receiving loop has seen at the front of the ring; a frame taken and not yet stored. */
  datatype Hand = Seen(found: Parsed) | Holding(frame: Frame)

  datatype Receiver = Receiver(
    chunks: map<Server, Chunk>,
    cap: Capacity,                   // of the ring
    buffer: seq<byte>,               // the contents of the ring
    faulted: bool,                   // a copy into the ring ran without room
    hands: map<Task, Hand>,
    mapBuf: map<Id, seq<byte>>,
    parsed: seq<Frame>,              // history: frames taken off the ring
    delivered: seq<byte>,            // history: bytes stored in the ring
    returned: map<Id, seq<byte>>)    // history: bytes handed to users

  const RECV_CAPACITY: Capacity := 1024 * 1024 * 10

  const INIT := Receiver(map[], RECV_CAPACITY, [], false, map[], map[], [], [], map[])

  datatype Act =
    | Nop
    | Arrive(s: Server, data: seq<byte>)
    | Grow(s: Server)
    | SeeRoom(s: Server)
    | Store(s: Server)
    | Notify(s: Server)
    | See(t: Task)
    | Parse(t: Task)
    | Demux(t: Task)
    | Take(id: Id, k: nat)

  function Slot(m: map<Id, seq<byte>>, id: Id): seq<byte>
  {
    if id in m then m[id] else []
  }

  predicate HasRoom(r: Receiver, k: nat)
  {
    r.cap - |r.buffer| >= k
  }

  predicate Enabled(r: Receiver, a: Act)
  {
    match a
    case Nop => true
    case Arrive(s, _) => s !in r.chunks
    case Grow(s) => s in r.chunks && r.chunks[s].InHand?
    case SeeRoom(s) => s in r.chunks && r.chunks[s].RoomMade? && HasRoom(r, |r.chunks[s].data|)
    case Store(s) => s in r.chunks && r.chunks[s].RoomSeen?
    case Notify(s) => s in r.chunks && r.chunks[s].Stored?
    case See(t) => t !in r.hands && CanRead(r.buffer)
    case Parse(t) => t in r.hands && r.hands[t].Seen?
    case Demux(t) => t in r.hands && r.hands[t].Holding?
    case Take(id, k) => id in r.mapBuf && |r.mapBuf[id]| >= k
  }

  /** When the reader finds no frame the loop carries on with an empty id and payload. */
  function Apply(r: Receiver, a: Act): Receiver
    requires Enabled(r, a)
  {
    match a
    case Nop => r
    case Arrive(s, d) => r.(chunks := r.chunks[s := InHand(d)])
    case Grow(s) =>
      var d := r.chunks[s].data;
      r.(cap := if HasRoom(r, 0) then CycleBuffers.Grown(r.cap, r.cap - |r.buffer|, |d|) else r.cap,
         chunks := r.chunks[s := RoomMade(d)])
    case SeeRoom(s) => r.(chunks := r.chunks[s := RoomSeen(r.chunks[s].data)])
    case Store(s) =>
      var d := r.chunks[s].data;
      if HasRoom(r, |d|) then
        r.(buffer := r.buffer + d, delivered := r.delivered + d, chunks := r.chunks[s := Stored])
      else
        r.(faulted := true, chunks := r.chunks[s := Stored])
    case Notify(s) => r.(chunks := r.chunks - {s})
    case See(t) => r.(hands := r.hands[t := Seen(ParseFront(r.buffer))])
    case Parse(t) =>
      var p := ParseFront(r.buffer);
      if p.Got? && p.length <= |r.buffer| then
        r.(buffer := r.buffer[p.length..], parsed := r.parsed + [p.frame], hands := r.hands[t := Holding(p.frame)])
      else
        r.(hands := r.hands[t := Holding(Frame([], []))])
    case Demux(t) =>
      var f := r.hands[t].frame;
      r.(mapBuf := r.mapBuf[f.id := Slot(r.mapBuf, f.id) + f.data], hands := r.hands - {t})
    case Take(id, k) =>
      r.(mapBuf := r.mapBuf[id := r.mapBuf[id][k..]],
         returned := r.returned[id := Slot(r.returned, id) + r.mapBuf[id][..k]])
  }

  ghost function ChunkBytes(r: Receiver): seq<byte>
  {
    var h := Only(r.chunks);
    if h.Just? && !h.value.Stored? then h.value.data else []
  }

  /** The bytes in a receiving loop's hands that belong to one id. */
  ghost function HandBytes(r: Receiver, id: Id): seq<byte>
  {
    var h := Only(r.hands);
    if h.Just? && h.value.Holding? && h.value.frame.id == id then h.value.frame.data else []
  }

  /** Everything read off the wire and not parsed yet, in order. */
  ghost function Inbox(r: Receiver): seq<byte>
  {
    r.buffer + ChunkBytes(r)
  }

  /** The payloads sent under one id, in order. */
  function Payload(fs: seq<Frame>, id: Id): seq<byte>
  {
    if fs == [] then []
    else
      var f := fs[|fs| - 1];
      Payload(fs[..|fs| - 1], id) + if f.id == id then f.data else []
  }

  lemma PayloadSnoc(fs: seq<Frame>, f: Frame, id: Id)
    ensures Payload(fs + [f], id) == Payload(fs, id) + if f.id == id then f.data else []
  {
    assert (fs + [f])[..|fs|] == fs;
  }

  lemma {:induction false} PayloadPrefix(fs: seq<Frame>, gs: seq<Frame>, id: Id)
    requires fs <= gs
    ensures Payload(fs, id) <= Payload(gs, id)
    decreases |gs|
  {
    if fs != gs {
      PayloadPrefix(fs, gs[..|gs| - 1], id);
    }
  }

  /** The bytes of one id that an act returns to users. */
  function Taken(a: Act, id: Id): nat
  {
    if a.Take? && a.id == id then a.k else 0
  }

  lemma ReturnedStep(r: Receiver, a: Act, id: Id)
    requires Enabled(r, a)
    ensures |Slot(Apply(r, a).returned, id)| == |Slot(r.returned, id)| + Taken(a, id)
  {
  }

  /** What one id has come to: returned to users, stored, in hand, in this order. */
  ghost function Account(r: Receiver, id: Id): seq<byte>
  {
    Slot(r.returned, id) + Slot(r.mapBuf, id) + HandBytes(r, id)
  }

  ghost predicate Books(r: Receiver)
  {
    && (forall id :: Account(r, id) == Payload(r.parsed, id))
    && r.delivered == EncodeAll(r.parsed) + r.buffer
  }

  /** Parsing moves a frame's encoding from the ring to the parsed frames. */
  lemma ParseStream(r: Receiver, t: Task)
    requires Enabled(r, Parse(t))
    ensures var r' := Apply(r, Parse(t));
      EncodeAll(r'.parsed) + r'.buffer == EncodeAll(r.parsed) + r.buffer
  {
    var r' := Apply(r, Parse(t));
    var p := ParseFront(r.buffer);
    if p.Got? {
      ParsedIsEncoding(r.buffer);
      EncodeAllSnoc(r.parsed, p.frame);
      SplitAt(EncodeAll(r.parsed), r.buffer, p.length);
    }
  }

  lemma SplitAt(a: seq<byte>, b: seq<byte>, k: nat)
    requires k <= |b|
    ensures a + b[..k] + b[k..] == a + b
  {
  }

  /** Taking frame f in hand while no other is, with f either the next parsed frame or empty. */
  lemma HandAccount(r: Receiver, r': Receiver, t: Task, f: Frame, id: Id)
    requires SeeingOnly(r, t) && r'.hands == map[t := Holding(f)]
    requires r'.mapBuf == r.mapBuf && r'.returned == r.returned
    requires r'.parsed == r.parsed + [f] || (r'.parsed == r.parsed && f.data == [])
    requires Account(r, id) == Payload(r.parsed, id)
    ensures Account(r', id) == Payload(r'.parsed, id)
  {
    OnlyIs(r.hands, t);
    OnlyIs(r'.hands, t);
    var base := Slot(r.returned, id) + Slot(r.mapBuf, id);
    assert Account(r, id) == base;
    assert Account(r', id) == base + if f.id == id then f.data else [];
    if r'.parsed == r.parsed + [f] {
      PayloadSnoc(r.parsed, f, id);
    }
  }

  lemma HandBooks(r: Receiver, r': Receiver, t: Task, f: Frame)
    requires Books(r) && SeeingOnly(r, t) && r'.hands == map[t := Holding(f)]
    requires r'.mapBuf == r.mapBuf && r'.returned == r.returned && r'.delivered == r.delivered
    requires r'.parsed == r.parsed + [f] || (r'.parsed == r.parsed && f.data == [])
    requires EncodeAll(r'.parsed) + r'.buffer == EncodeAll(r.parsed) + r.buffer
    ensures Books(r')
  {
    forall id ensures Account(r', id) == Payload(r'.parsed, id) {
      HandAccount(r, r', t, f, id);
    }
  }

  /** One loop has seen a frame, and nobody has anything else in hand. */
  predicate SeeingOnly(r: Receiver, t: Task)
  {
    r.hands.Keys == {t} && r.hands[t].Seen?
  }

  lemma SeeBooks(r: Receiver, t: Task)
    requires Books(r) && Enabled(r, See(t)) && AtMostOne(Apply(r, See(t)).hands)
    ensures Books(Apply(r, See(t)))
  {
    var r' := Apply(r, See(t));
    FirstHolder(r.hands, t, r'.hands[t]);
    OnlyNone(r.hands);
    forall id ensures Account(r', id) == Payload(r'.parsed, id) {
      assert Account(r, id) == Payload(r.parsed, id);
    }
  }

  lemma SeesAlone(r: Receiver, t: Task)
    requires Enabled(r, Parse(t)) && AtMostOne(r.hands)
    ensures SeeingOnly(r, t)
  {
  }

  lemma ParseOutcome(r: Receiver, t: Task) returns (f: Frame)
    requires Enabled(r, Parse(t)) && SeeingOnly(r, t)
    ensures var r' := Apply(r, Parse(t));
      && r'.hands == map[t := Holding(f)]
      && r'.mapBuf == r.mapBuf && r'.returned == r.returned && r'.delivered == r.delivered
      && ((r'.parsed == r.parsed + [f] && |r.buffer| == |r'.buffer| + WireLength(f))
          || (r'.parsed == r.parsed && f.data == [] && r'.buffer == r.buffer))
  {
    var p := ParseFront(r.buffer);
    f := Frame([], []);
    if p.Got? {
      ParsedIsEncoding(r.buffer);
      f := p.frame;
    }
    assert r.hands[t := Holding(f)] == map[t := Holding(f)];
  }

  lemma ParseBooks(r: Receiver, t: Task)
    requires Books(r) && Enabled(r, Parse(t)) && SeeingOnly(r, t)
    ensures Books(Apply(r, Parse(t)))
  {
    ParseStream(r, t);
    var f := ParseOutcome(r, t);
    hide ParseFront, Apply;
    HandBooks(r, Apply(r, Parse(t)), t, f);
  }

  lemma DemuxBooks(r: Receiver, t: Task)
    requires Books(r) && Enabled(r, Demux(t)) && AtMostOne(r.hands)
    ensures Books(Apply(r, Demux(t)))
  {
    var r' := Apply(r, Demux(t));
    OnlyIs(r.hands, t);
    WithoutHolder(r.hands, t);
    forall id ensures Account(r', id) == Payload(r'.parsed, id) {
      assert Account(r, id) == Payload(r.parsed, id);
    }
  }

  lemma TakeBooks(r: Receiver, id: Id, k: nat)
    requires Books(r) && Enabled(r, Take(id, k))
    ensures Books(Apply(r, Take(id, k)))
  {
    var r' := Apply(r, Take(id, k));
    forall i ensures Account(r', i) == Payload(r'.parsed, i) {
      assert Account(r, i) == Payload(r.parsed, i);
      assert Slot(r'.returned, i) + Slot(r'.mapBuf, i) == Slot(r.returned, i) + Slot(r.mapBuf, i);
    }
  }

  /** While one receiving loop at most has a frame in hand, every id keeps its own order. */
  lemma BooksStep(r: Receiver, a: Act)
    requires Books(r) && Enabled(r, a) && AtMostOne(r.hands) && AtMostOne(Apply(r, a).hands)
    ensures Books(Apply(r, a))
  {
    var r' := Apply(r, a);
    match a {
      case See(t) => SeeBooks(r, t);
      case Parse(t) =>
        SeesAlone(r, t);
        ParseBooks(r, t);
      case Demux(t) => DemuxBooks(r, t);
      case Take(id, k) => TakeBooks(r, id, k);
      case _ =>
        assert forall id :: Account(r', id) == Account(r, id);
    }
  }

  lemma Reassociate(a: seq<byte>, b: seq<byte>, c: seq<byte>)
    ensures a + (b + c) == (a + b) + c
  {
  }

  function Arrived(a: Act): seq<byte>
  {
    if a.Arrive? then a.data else []
  }

  /** No copy into the ring has run without room, every listening thread past growing the ring has the room
      it needs, and every receiving loop still has at the front what it saw there. */
  ghost predicate RingOk(r: Receiver)
  {
    && !r.faulted && HasRoom(r, 0)
    && (forall s :: s in r.chunks && (r.chunks[s].RoomMade? || r.chunks[s].RoomSeen?) ==> HasRoom(r, |r.chunks[s].data|))
    && (forall t :: t in r.hands && r.hands[t].Seen? ==> CanRead(r.buffer) && ParseFront(r.buffer) == r.hands[t].found)
  }

  /** With one listening thread and one receiving loop at a time, what each has seen stays true under the
      steps of the other. */
  lemma RingStep(r: Receiver, a: Act)
    requires RingOk(r) && Enabled(r, a)
    requires AtMostOne(r.chunks) && AtMostOne(r.hands)
    ensures RingOk(Apply(r, a))
  {
    match a {
      case Store(s) =>
        if CanRead(r.buffer) {
          PhasedRing.ParseStable(r.buffer, r.chunks[s].data);
        }
      case _ =>
    }
  }

  /** What taking a frame changes: the front of the ring, the history, and the taker's hand. */
  lemma TakeWhole(r: Receiver, t: Task)
    requires RingOk(r) && Enabled(r, Parse(t))
    ensures var p, r' := r.hands[t].found, Apply(r, Parse(t));
      && p == ParseFront(r.buffer) && (p.Got? ==> p.length <= |r.buffer|)
      && r'.buffer == (if p.Got? then r.buffer[p.length..] else r.buffer)
      && r'.cap == r.cap && r'.mapBuf == r.mapBuf
      && t in r'.hands && r'.hands[t] == Holding(if p.Got? then p.frame else Frame([], []))
  {
    if ParseFront(r.buffer).Got? { ParsedIsEncoding(r.buffer); }
  }

  /** The three sections of a write with nothing in between always have the room. */
  lemma WriteWhole(r: Receiver, s: Server)
    requires Enabled(r, Grow(s)) && HasRoom(r, 0)
    ensures var d, r1 := r.chunks[s].data, Apply(r, Grow(s));
      && Enabled(r1, SeeRoom(s))
      && Apply(Apply(r1, SeeRoom(s)), Store(s)) == r.(
           cap := CycleBuffers.Grown(r.cap, r.cap - |r.buffer|, |d|),
           buffer := r.buffer + d, delivered := r.delivered + d, chunks := r.chunks[s := Stored])
  {
  }

  /** While one listening thread at most has bytes in hand, what is parsed plus what is still to be
      parsed only grows by what arrives. */
  lemma InboxStep(r: Receiver, a: Act)
    requires RingOk(r) && Enabled(r, a) && AtMostOne(r.chunks) && AtMostOne(Apply(r, a).chunks)
    ensures var r' := Apply(r, a);
      EncodeAll(r'.parsed) + Inbox(r') == EncodeAll(r.parsed) + Inbox(r) + Arrived(a)
  {
    var r' := Apply(r, a);
    match a {
      case Arrive(s, d) =>
        FirstHolder(r.chunks, s, InHand(d));
      case Grow(s) =>
        OnlyIs(r.chunks, s);
        OnlyIs(r'.chunks, s);
      case SeeRoom(s) =>
        OnlyIs(r.chunks, s);
        OnlyIs(r'.chunks, s);
      case Store(s) =>
        OnlyIs(r.chunks, s);
        OnlyIs(r'.chunks, s);
      case Notify(s) =>
        OnlyIs(r.chunks, s);
        WithoutHolder(r.chunks, s);
      case Parse(t) =>
        ParseStream(r, t);
        Reassociate(EncodeAll(r.parsed), r.buffer, ChunkBytes(r));
        Reassociate(EncodeAll(r'.parsed), r'.buffer, ChunkBytes(r'));
      case _ =>
    }
  }

  /** r' is reached from r by performing precisely these acts. */
  predicate Reaches(r: Receiver, acts: seq<Act>, r': Receiver)
    decreases |acts|
  {
    if acts == [] then r == r'
    else Enabled(r, acts[0]) && Reaches(Apply(r, acts[0]), acts[1..], r')
  }

  lemma Here(r: Receiver)
    ensures Reaches(r, [], r)
  {
  }

  lemma Prepend(r: Receiver, act: Act, acts: seq<Act>, r': Receiver) returns (longer: seq<Act>)
    requires Enabled(r, act) && Reaches(Apply(r, act), acts, r')
    ensures Reaches(r, longer, r')
  {
    longer := [act] + acts;
    assert longer[1..] == acts;
  }

  lemma OneInHand(r: Receiver, f: Frame, rest: seq<byte>, t: Task)
    requires Sendable(f) && r.buffer == Encode(f) + rest && t !in r.hands
    ensures Enabled(r, See(t))
    ensures Apply(Apply(r, See(t)), Parse(t))
         == r.(buffer := rest, hands := r.hands[t := Holding(f)], parsed := r.parsed + [f])
  {
    ParseWhole(f, rest);
    EncodeShape(f, rest);
  }

  lemma StoreReversed(r: Receiver, f: Frame, g: Frame, t: Task, u: Task)
    requires r.mapBuf == map[] && r.hands == map[t := Holding(f), u := Holding(g)] && f.id == g.id && t != u
    ensures var r' := Apply(Apply(r, Demux(u)), Demux(t));
      r'.parsed == r.parsed && r'.mapBuf == map[f.id := g.data + f.data]
  {
    var r1 := Apply(r, Demux(u));
    assert [] + g.data == g.data;
    assert r1.mapBuf == map[f.id := g.data];
  }

  /** Seeing and taking a frame, before the given acts. */
  lemma TakeFirst(r: Receiver, f: Frame, rest: seq<byte>, t: Task, acts: seq<Act>, r': Receiver) returns (longer: seq<Act>)
    requires Sendable(f) && r.buffer == Encode(f) + rest && t !in r.hands
    requires Reaches(r.(buffer := rest, hands := r.hands[t := Holding(f)], parsed := r.parsed + [f]), acts, r')
    ensures Reaches(r, longer, r')
  {
    hide Reaches, ParseFront, Encode, Sendable;
    OneInHand(r, f, rest, t);
    var r1 := Apply(r, See(t));
    longer := Prepend(r1, Parse(t), acts, r');
    longer := Prepend(r, See(t), longer, r');
  }

  lemma StoreActs(r: Receiver, f: Frame, g: Frame, t: Task, u: Task) returns (acts: seq<Act>, r': Receiver)
    requires r.mapBuf == map[] && r.hands == map[t := Holding(f), u := Holding(g)] && f.id == g.id && t != u
    ensures Reaches(r, acts, r') && r'.parsed == r.parsed && r'.mapBuf == map[f.id := g.data + f.data]
  {
    hide Reaches;
    StoreReversed(r, f, g, t, u);
    var r1 := Apply(r, Demux(u));
    r' := Apply(r1, Demux(t));
    Here(r');
    acts := Prepend(r1, Demux(t), [], r');
    acts := Prepend(r, Demux(u), acts, r');
  }

  /** Both frames in the ring, and nothing taken yet. */
  function BothStored(r: Receiver, f: Frame, g: Frame): Receiver
  {
    r.(buffer := Encode(f) + Encode(g), hands := map[], parsed := [], mapBuf := map[])
  }

  lemma SixActs(r0: Receiver, f: Frame, g: Frame, t: Task, u: Task) returns (acts: seq<Act>, r': Receiver)
    requires Sendable(f) && Sendable(g) && f.id == g.id && t != u
    ensures Reaches(BothStored(r0, f, g), acts, r') && r'.parsed == [f, g] && r'.mapBuf == map[f.id := g.data + f.data]
  {
    hide Reaches, Encode, Sendable;
    var r := BothStored(r0, f, g);
    var r1 := r.(buffer := Encode(g), hands := r.hands[t := Holding(f)], parsed := r.parsed + [f]);
    var r2 := r1.(buffer := [], hands := r1.hands[u := Holding(g)], parsed := r1.parsed + [g]);
    acts, r' := StoreActs(r2, f, g, t, u);
    assert Encode(g) + [] == Encode(g);
    acts := TakeFirst(r1, g, [], u, acts, r');
    acts := TakeFirst(r, f, Encode(g), t, acts, r');
  }

  /** Without the token it breaks: two tasks with a frame of the same id each can store them in the
      wrong order. */
  lemma TwoReceiversReorder(f: Frame, g: Frame, t: Task, u: Task, s: Server) returns (acts: seq<Act>, r: Receiver)
    requires Sendable(f) && Sendable(g) && f.id == g.id && t != u
    ensures Reaches(INIT, acts, r) && r.parsed == [f, g] && r.mapBuf == map[f.id := g.data + f.data]
  {
    hide Reaches, ParseFront, CanRead, Encode, Sendable;
    var wire := Encode(f) + Encode(g);
    var r1 := Apply(INIT, Arrive(s, wire));
    var r2 := Apply(r1, Grow(s));
    assert HasRoom(r2, |wire|);
    var r3 := Apply(r2, SeeRoom(s));
    var r4 := Apply(r3, Store(s));
    assert [] + wire == wire;
    assert r4 == BothStored(r4, f, g);
    acts, r := SixActs(r4, f, g, t, u);
    acts := Prepend(r3, Store(s), acts, r);
    acts := Prepend(r2, SeeRoom(s), acts, r);
    acts := Prepend(r1, Grow(s), acts, r);
    acts := Prepend(INIT, Arrive(s, wire), acts, r);
  }

  // ---------------------------------------------------------------- counting bytes

  /** The bytes stored under all ids together. */
  ghost function Total(m: map<Id, seq<byte>>): nat
    decreases |m|
  {
    if m == map[] then 0
    else
      var id :| id in m;
      |m[id]| + Total(m - {id})
  }

  lemma {:induction false} TotalWithout(m: map<Id, seq<byte>>, id: Id)
    requires id in m
    ensures Total(m) == |m[id]| + Total(m - {id})
    decreases |m|
  {
    var first :| first in m && Total(m) == |m[first]| + Total(m - {first});
    if first != id {
      TotalWithout(m - {first}, id);
      TotalWithout(m - {id}, first);
      assert m - {first} - {id} == m - {id} - {first};
    }
  }

  lemma TotalUpdate(m: map<Id, seq<byte>>, id: Id, v: seq<byte>)
    ensures Total(m[id := v]) + |Slot(m, id)| == Total(m) + |v|
  {
    TotalWithout(m[id := v], id);
    assert m[id := v] - {id} == m - {id};
    if id in m {
      TotalWithout(m, id);
    } else {
      assert m - {id} == m;
    }
  }

  /** The framing bytes of the frames parsed. */
  function Overhead(fs: seq<Frame>): nat
  {
    if fs == [] then 0 else Overhead(fs[..|fs| - 1]) + HEADER + |fs[|fs| - 1].id|
  }

  ghost function HandSize(r: Receiver): nat
  {
    var h := Only(r.hands);
    if h.Just? && h.value.Holding? then |h.value.frame.data| else 0
  }

  /** What get_unrecv_size adds up. */
  ghost function Unreceived(r: Receiver): nat
  {
    |r.buffer| + Total(r.mapBuf)
  }

  /** Bytes delivered, against bytes still to be received, in hand, spent on framing, and returned. */
  ghost predicate Balanced(r: Receiver)
  {
    |r.delivered| == Unreceived(r) + HandSize(r) + Overhead(r.parsed) + Total(r.returned)
  }

  lemma ParseBalanced(r: Receiver, r': Receiver, t: Task, f: Frame)
    requires Balanced(r) && SeeingOnly(r, t) && r'.hands == map[t := Holding(f)]
    requires r'.mapBuf == r.mapBuf && r'.returned == r.returned && r'.delivered == r.delivered
    requires (r'.parsed == r.parsed + [f] && |r.buffer| == |r'.buffer| + WireLength(f))
          || (r'.parsed == r.parsed && f.data == [] && r'.buffer == r.buffer)
    ensures Balanced(r')
  {
    OnlyIs(r.hands, t);
    OnlyIs(r'.hands, t);
    if r'.parsed == r.parsed + [f] {
      assert (r.parsed + [f])[..|r.parsed|] == r.parsed;
    }
  }

  lemma SeeBalanced(r: Receiver, t: Task)
    requires Balanced(r) && Enabled(r, See(t)) && AtMostOne(Apply(r, See(t)).hands)
    ensures Balanced(Apply(r, See(t)))
  {
    FirstHolder(r.hands, t, Apply(r, See(t)).hands[t]);
    OnlyNone(r.hands);
  }

  lemma DemuxBalanced(r: Receiver, t: Task)
    requires Balanced(r) && Enabled(r, Demux(t)) && AtMostOne(r.hands)
    ensures Balanced(Apply(r, Demux(t)))
  {
    OnlyIs(r.hands, t);
    WithoutHolder(r.hands, t);
    var f := r.hands[t].frame;
    TotalUpdate(r.mapBuf, f.id, Slot(r.mapBuf, f.id) + f.data);
  }

  lemma TakeBalanced(r: Receiver, id: Id, k: nat)
    requires Balanced(r) && Enabled(r, Take(id, k))
    ensures Balanced(Apply(r, Take(id, k)))
  {
    TotalUpdate(r.mapBuf, id, r.mapBuf[id][k..]);
    TotalUpdate(r.returned, id, Slot(r.returned, id) + r.mapBuf[id][..k]);
  }

  lemma BalancedStep(r: Receiver, a: Act)
    requires Balanced(r) && Enabled(r, a) && AtMostOne(r.hands) && AtMostOne(Apply(r, a).hands)
    ensures Balanced(Apply(r, a))
  {
    match a {
      case See(t) => SeeBalanced(r, t);
      case Parse(t) =>
        SeesAlone(r, t);
        var f := ParseOutcome(r, t);
        ParseBalanced(r, Apply(r, a), t, f);
      case Demux(t) => DemuxBalanced(r, t);
      case Take(id, k) => TakeBalanced(r, id, k);
      case _ =>
    }
  }

  lemma {:induction false} TotalOfEmpty(m: map<Id, seq<byte>>)
    requires forall id :: id in m ==> m[id] == []
    ensures Total(m) == 0
    decreases |m|
  {
    if m != map[] {
      var id :| id in m;
      TotalWithout(m, id);
      TotalOfEmpty(m - {id});
    }
  }

  /** Every delivered byte belonged to a parsed frame, and users have got every payload byte of every id. */
  ghost predicate AllReturned(r: Receiver)
  {
    r.delivered == EncodeAll(r.parsed) && forall id :: Slot(r.returned, id) == Payload(r.parsed, id)
  }

  lemma NothingStored(r: Receiver)
    requires Books(r) && r.hands == map[] && Total(r.mapBuf) == 0
    ensures forall id :: Slot(r.returned, id) == Payload(r.parsed, id)
  {
    forall id ensures Slot(r.returned, id) == Payload(r.parsed, id) {
      assert Account(r, id) == Payload(r.parsed, id);
      if id in r.mapBuf { TotalWithout(r.mapBuf, id); }
    }
  }

  /** When nothing is in hand, get_unrecv_size is 0 exactly when all that was delivered has been returned. */
  lemma NothingUnreceived(r: Receiver)
    requires Books(r) && r.hands == map[]
    ensures Unreceived(r) == 0 <==> AllReturned(r)
  {
    forall id ensures Slot(r.returned, id) + Slot(r.mapBuf, id) == Payload(r.parsed, id) {
      assert Account(r, id) == Payload(r.parsed, id);
    }
    if Unreceived(r) == 0 {
      NothingStored(r);
    }
    if AllReturned(r) {
      assert |r.buffer| == 0;
      forall id | id in r.mapBuf ensures r.mapBuf[id] == [] {
        assert |Slot(r.returned, id)| == |Payload(r.parsed, id)|;
      }
      TotalOfEmpty(r.mapBuf);
    }
  }
}
