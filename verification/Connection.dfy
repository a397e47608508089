/** The data path of a connection as it is in memory: ring buffers for sending and for receiving, and one
    ring buffer per message id, created on first use. Each method of Connection is one critical section, and
    simulates an act of modules Sender and Receiver: memory that mirrors their state goes on mirroring it. */
module Connections {
  import opened Bytes
  import opened Memory
  import opened Framing
  import opened CycleBuffers
  import R = Receiver
  import S = Sender

  type Task = R.Task
  type Server = R.Server

  const SEND_CAPACITY: nat := 1024 * 1024 * 128
  const ID_CAPACITY: nat := 1024 * 8

  /** The ring buffers per message id. */
  class IdBuffers {
    var rings: map<Id, CycleBuffer>
    ghost var stored: map<Id, seq<byte>>   // the bytes stored under each id
    ghost var owner: map<object, Id>       // whose ring an object belongs to
    ghost var Repr: set<object>

    /** Every ring is well-formed, and no two share memory. */
    ghost predicate Valid()
      reads this, Repr
    {
      && this in Repr && owner.Keys <= Repr
      && stored.Keys == rings.Keys
      && (forall id :: id in rings ==> Ring(id))
    }

    ghost predicate Ring(id: Id)
      requires id in rings && id in stored && owner.Keys <= Repr
      reads this, Repr
    {
      var r := rings[id];
      && r in owner && owner[r] == id
      && r.buffer in owner && owner[r.buffer] == id
      && r.Valid() && r.contents == stored[id]
    }

    constructor ()
      ensures Valid() && fresh(Repr) && stored == map[]
    {
      rings := map[];
      stored := map[];
      owner := map[];
      Repr := {this};
    }

    /** A ring that is nobody's becomes that of an id. */
    method Adopt(id: Id, ring: CycleBuffer)
      requires Valid() && id !in rings
      requires ring.Valid() && ring.contents == [] && ring !in Repr && ring.buffer !in Repr
      modifies this
      ensures Valid() && Repr == old(Repr) + {ring, ring.buffer} && rings == old(rings)[id := ring]
      ensures stored == old(stored)[id := []]
    {
      hide CycleBuffer.Valid;
      rings := rings[id := ring];
      stored := stored[id := []];
      owner := owner[ring := id];
      owner := owner[ring.buffer := id];
      Repr := Repr + {ring, ring.buffer};
      forall i | i in rings ensures Ring(i) {
        if i != id { assert old(Ring(i)); }
      }
    }

    /** An id seen for the first time gets a ring of its own. */
    method AddRing(id: Id)
      requires Valid() && id !in rings
      modifies this
      ensures Valid() && fresh(Repr - old(Repr)) && id in rings && rings[id].n == 8192
      ensures stored == old(stored)[id := []]
    {
      hide Ring, CycleBuffer.Valid;
      var ring := new CycleBuffer(ID_CAPACITY);
      Adopt(id, ring);
    }

    /** Append to the bytes stored under an id. */
    method Append(id: Id, data: seq<byte>)
      requires Valid() && id in rings
      modifies this, rings[id], rings[id].buffer
      ensures Valid() && fresh(Repr - old(Repr))
      ensures stored == old(stored)[id := old(stored)[id] + data]
    {
      hide CycleBuffer.Valid;
      var ring := rings[id];
      assert Ring(id);
      WriteTo(ring, data);
      stored := stored[id := stored[id] + data];
      owner := owner[ring.buffer := id];
      Repr := Repr + {ring.buffer};
      forall i | i in rings ensures Ring(i) {
        if i != id { assert old(Ring(i)); }
      }
    }

    static method WriteTo(ring: CycleBuffer, data: seq<byte>)
      requires ring.Valid()
      modifies ring, ring.buffer
      ensures ring.Valid() && (ring.buffer == old(ring.buffer) || fresh(ring.buffer))
      ensures ring.contents == old(ring.contents) + data
    {
      var bytes := ToArray(data);
      assert bytes[..|data|] == data;
      var _ := ring.Write(bytes, |data|);
    }

    lemma RingKnown(id: Id)
      requires Valid() && id in rings
      ensures this in Repr && rings[id] in Repr && rings[id].buffer in Repr
    {
      assert Ring(id);
    }

    lemma SameIds()
      requires Valid()
      ensures this in Repr && stored.Keys == rings.Keys
    {
    }

    /** The receiving loop stores the payload of a frame under its id. */
    method Demux(f: Frame)
      requires Valid()
      modifies Repr
      ensures Valid() && fresh(Repr - old(Repr))
      ensures stored == old(stored)[f.id := R.Slot(old(stored), f.id) + f.data]
    {
      hide Valid, CycleBuffer.Valid;
      SameIds();
      if f.id !in rings {
        AddRing(f.id);
      }
      RingKnown(f.id);
      Append(f.id, f.data);
    }

    /** recv(id, data, length), once that many bytes of that id are there. */
    method Recv(id: Id, data: array<byte>, length: nat) returns (ret: nat)
      requires Valid() && data !in Repr && length <= data.Length
      requires id in stored && |stored[id]| >= length
      modifies this, rings[id], data
      ensures Valid() && Repr == old(Repr) && ret == length
      ensures stored == old(stored)[id := old(stored)[id][length..]]
      ensures data[..] == Spliced(old(data[..]), 0, old(stored)[id][..length])
    {
      hide CycleBuffer.Valid;
      var ring := rings[id];
      assert Ring(id);
      ret := ring.Read(data, length);
      stored := stored[id := ring.contents];
      forall i | i in rings ensures Ring(i) {
        if i != id { assert old(Ring(i)); }
      }
    }

    method TotalSize() returns (size: nat)
      requires Valid()
      ensures size == R.Total(stored)
    {
      hide CycleBuffer.Valid;
      size := 0;
      var ids := rings.Keys;
      ghost var left := stored;
      while ids != {}
        invariant ids <= rings.Keys && left.Keys == ids
        invariant forall id :: id in ids ==> left[id] == stored[id]
        invariant size + R.Total(left) == R.Total(stored)
        decreases |ids|
      {
        var id :| id in ids;
        R.TotalWithout(left, id);
        assert Ring(id);
        size := size + rings[id].Size();
        ids := ids - {id};
        left := left - {id};
      }
      assert left == map[];
    }
  }

  class Connection {
    var sendBuffer: CycleBuffer
    var buffer: CycleBuffer
    var mapBuffer: IdBuffers

    ghost predicate Valid()
      reads this, sendBuffer, sendBuffer.buffer, buffer, buffer.buffer, mapBuffer, mapBuffer.Repr
    {
      && sendBuffer.Valid() && buffer.Valid() && mapBuffer.Valid()
      && sendBuffer.buffer != buffer.buffer && sendBuffer != buffer
      && this !in mapBuffer.Repr
      && sendBuffer !in mapBuffer.Repr && sendBuffer.buffer !in mapBuffer.Repr
      && buffer !in mapBuffer.Repr && buffer.buffer !in mapBuffer.Repr
    }

    ghost predicate Foreign(data: array<byte>)
      reads this, sendBuffer, buffer, mapBuffer
    {
      data != sendBuffer.buffer && data != buffer.buffer && data !in mapBuffer.Repr
    }

    /** The rings hold what the abstract halves of the data path say. */
    ghost predicate Mirrors(tx: S.Sender, rx: R.Receiver)
      reads this, sendBuffer, buffer, mapBuffer
    {
      && sendBuffer.contents == tx.sendBuf
      && buffer.contents == rx.buffer && buffer.n == rx.cap
      && mapBuffer.stored == rx.mapBuf
    }

    constructor ()
      ensures Valid() && Mirrors(S.INIT, R.INIT)
      ensures buffer.n == 10_485_760 && sendBuffer.n == 134_217_728
      ensures sendBuffer.contents == [] && buffer.contents == [] && mapBuffer.stored == map[]
    {
      buffer := new CycleBuffer(R.RECV_CAPACITY);
      sendBuffer := new CycleBuffer(SEND_CAPACITY);
      mapBuffer := new IdBuffers();
    }

    method PutIntoSendBuffer(data: array<byte>, len: nat) returns (ret: nat)
      requires Valid() && Foreign(data) && len <= data.Length
      modifies sendBuffer, sendBuffer.buffer
      ensures Valid() && ret == len
      ensures sendBuffer.contents == old(sendBuffer.contents) + old(data[..len])
    {
      ret := sendBuffer.Write(data, len);
    }

    /** send(id, data, length): frame the payload and put the frame into the send buffer. */
    method Send(id: Id, data: array<byte>, length: nat, ghost tx: S.Sender, ghost rx: R.Receiver) returns (ret: nat)
      requires Valid() && Mirrors(tx, rx) && length <= data.Length
      modifies sendBuffer, sendBuffer.buffer
      ensures Valid() && ret == WireLength(Frame(id, old(data[..length])))
      ensures sendBuffer.contents == old(sendBuffer.contents) + Encode(Frame(id, old(data[..length])))
      ensures var put := S.Put(Frame(id, old(data[..length])));
        S.Enabled(tx, put) ==> Mirrors(S.Apply(tx, put), rx)
    {
      var frame := new SimpleBuffer(id, data, length);
      assert frame.buf[..frame.len] == frame.buf[..];
      ret := PutIntoSendBuffer(frame.buf, frame.len);
    }

    /** The sending loop takes all there is as one batch. */
    method TakeBatch(ghost t: Task, ghost tx: S.Sender, ghost rx: R.Receiver) returns (batch: array<byte>)
      requires Valid() && Mirrors(tx, rx) && S.Enabled(tx, S.Take(t)) && sendBuffer.contents != []
      modifies sendBuffer
      ensures Valid() && Mirrors(S.Apply(tx, S.Take(t)), rx)
      ensures fresh(batch) && batch[..] == S.Apply(tx, S.Take(t)).batches[t]
      ensures batch[..] == old(sendBuffer.contents) && sendBuffer.contents == []
    {
      var n := sendBuffer.Size();
      batch := new byte[n];
      var _ := sendBuffer.Read(batch, n);
    }

    /** A listening thread that has read len bytes off the socket makes room for them in the ring. */
    method MakeRoom(len: nat, ghost s: Server, ghost tx: S.Sender, ghost rx: R.Receiver)
      requires Valid() && Mirrors(tx, rx) && R.Enabled(rx, R.Grow(s)) && |rx.chunks[s].data| == len
      modifies buffer
      ensures Valid() && Mirrors(tx, R.Apply(rx, R.Grow(s)))
      ensures buffer.buffer == old(buffer.buffer) || fresh(buffer.buffer)
      ensures R.Enabled(R.Apply(rx, R.Grow(s)), R.SeeRoom(s))
      ensures buffer.contents == old(buffer.contents) && buffer.remain >= len
    {
      buffer.Realloc(len);
    }

    /** ... and, having seen the room, copies them in. */
    method CopyIn(data: array<byte>, len: nat, ghost s: Server, ghost tx: S.Sender, ghost rx: R.Receiver)
      requires Valid() && Foreign(data) && len <= data.Length && R.RingOk(rx)
      requires Mirrors(tx, rx) && R.Enabled(rx, R.Store(s)) && rx.chunks[s].data == data[..len]
      modifies buffer, buffer.buffer
      ensures Valid() && Mirrors(tx, R.Apply(rx, R.Store(s)))
      ensures buffer.contents == old(buffer.contents) + old(data[..len])
    {
      buffer.CopyIn(data, len);
    }

    /** The whole of write(data, len) with nothing in between: grow, see the room, copy in. */
    method Write(data: array<byte>, len: nat, ghost s: Server, ghost tx: S.Sender, ghost rx: R.Receiver)
      requires Valid() && Foreign(data) && len <= data.Length
      requires Mirrors(tx, rx) && R.Enabled(rx, R.Grow(s)) && rx.chunks[s].data == data[..len]
      modifies buffer, buffer.buffer
      ensures Valid()
      ensures var grown := R.Apply(rx, R.Grow(s));
        && R.Enabled(grown, R.SeeRoom(s))
        && Mirrors(tx, R.Apply(R.Apply(grown, R.SeeRoom(s)), R.Store(s)))
      ensures buffer.contents == rx.buffer + old(data[..len])
    {
      R.WriteWhole(rx, s);
      hide R.Apply;
      var _ := buffer.Write(data, len);
    }

    /** The receiving loop looks for a frame at the front of the ring. */
    method CanTakeFrame(ghost t: Task, ghost tx: S.Sender, ghost rx: R.Receiver) returns (ok: bool)
      requires Valid() && Mirrors(tx, rx) && t !in rx.hands
      ensures ok <==> R.Enabled(rx, R.See(t))
    {
      ok := buffer.CanReadFrame();
    }

    /** ... and takes the one it has seen, whatever was stored behind it since; what is not well-formed
        stays. */
    method TakeFrame(ghost t: Task, ghost tx: S.Sender, ghost rx: R.Receiver) returns (p: Parsed)
      requires Valid() && Mirrors(tx, rx) && R.RingOk(rx) && R.Enabled(rx, R.Parse(t))
      modifies buffer
      ensures Valid() && Mirrors(tx, R.Apply(rx, R.Parse(t)))
      ensures p == rx.hands[t].found == ParseFront(old(buffer.contents))
      ensures buffer.contents == if p.Got? then old(buffer.contents)[p.length..] else old(buffer.contents)
      ensures R.Apply(rx, R.Parse(t)).hands[t] == R.Holding(if p.Got? then p.frame else Frame([], []))
    {
      R.TakeWhole(rx, t);
      hide R.Apply, R.RingOk, ParseFront;
      p := buffer.ReadFrame();
    }

    /** The receiving loop stores the payload it has in hand under its id. */
    method StorePayload(f: Frame, ghost t: Task, ghost tx: S.Sender, ghost rx: R.Receiver)
      requires Valid() && Mirrors(tx, rx) && R.Enabled(rx, R.Demux(t)) && rx.hands[t].frame == f
      modifies mapBuffer.Repr
      ensures Valid() && Mirrors(tx, R.Apply(rx, R.Demux(t)))
      ensures mapBuffer.stored == old(mapBuffer.stored)[f.id := R.Slot(old(mapBuffer.stored), f.id) + f.data]
    {
      hide CycleBuffer.Valid;
      mapBuffer.Demux(f);
    }

    /** recv(id, data, length), once that many bytes of that id are there. */
    method Recv(id: Id, data: array<byte>, length: nat, ghost tx: S.Sender, ghost rx: R.Receiver) returns (ret: nat)
      requires Valid() && Foreign(data) && length <= data.Length
      requires Mirrors(tx, rx) && R.Enabled(rx, R.Take(id, length))
      modifies mapBuffer.Repr, data
      ensures Valid() && Mirrors(tx, R.Apply(rx, R.Take(id, length))) && ret == length
      ensures data[..] == Spliced(old(data[..]), 0, rx.mapBuf[id][..length])
      ensures mapBuffer.stored == old(mapBuffer.stored)[id := rx.mapBuf[id][length..]]
    {
      hide CycleBuffer.Valid;
      mapBuffer.RingKnown(id);
      ret := mapBuffer.Recv(id, data, length);
    }

    /** The two sections of get_unrecv_size: what is left in the receive ring; what is left under all ids. */
    method CountRing(ghost tx: S.Sender, ghost rx: R.Receiver) returns (size: nat)
      requires Valid() && Mirrors(tx, rx)
      ensures size == |rx.buffer|
    {
      size := buffer.Size();
    }

    method CountIds(ghost tx: S.Sender, ghost rx: R.Receiver) returns (size: nat)
      requires Valid() && Mirrors(tx, rx)
      ensures size == R.Total(rx.mapBuf)
    {
      size := mapBuffer.TotalSize();
    }

    /** get_unrecv_size with nothing in between. */
    method GetUnrecvSize(ghost tx: S.Sender, ghost rx: R.Receiver) returns (size: nat)
      requires Valid() && Mirrors(tx, rx)
      ensures size == R.Unreceived(rx)
    {
      size := CountRing(tx, rx);
      var ids := CountIds(tx, rx);
      size := size + ids;
    }
  }
}
