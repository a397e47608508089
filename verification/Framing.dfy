/** The frame format: total length (8 bytes, little endian), id length plus one (1 byte), id, payload.

    `Encode` is what the sender's frame builder produces, `ParseFront` what the receiver's
    frame reader does with the bytes at the front of its ring, on every byte string. */
module Framing {
  import opened Bytes
  import opened Memory

  type Id = seq<byte>

  datatype Frame = Frame(id: Id, data: seq<byte>)

  /** Outcome of one attempt to take a frame off the front of a byte queue. Malformed stands for an
      id length that does not fit in the frame, on which the reader's size arithmetic underflows. */
  datatype Parsed = NoFrame | Malformed | Got(frame: Frame, length: nat)

  const HEADER: nat := 9

  function WireLength(f: Frame): nat
  {
    HEADER + |f.id| + |f.data|
  }

  /** Total: both length fields wrap like the fixed-width integers that hold them. */
  function Encode(f: Frame): seq<byte>
  {
    LittleEndian(WireLength(f), 8) + [((1 + |f.id|) % 256) as byte] + f.id + f.data
  }

  function EncodeAll(fs: seq<Frame>): seq<byte>
  {
    if fs == [] then [] else Encode(fs[0]) + EncodeAll(fs[1..])
  }

  predicate CanRead(q: seq<byte>)
  {
    |q| > HEADER && |q| >= FromLittleEndian(q[..8])
  }

  /** Cut the bytes of one frame into id and payload. */
  function SplitFrame(t: seq<byte>): Parsed
    requires |t| > HEADER
  {
    var idEnd := 8 + t[8] as int;
    if t[8] == 0 || idEnd > |t| then Malformed
    else Got(Frame(t[9..idEnd], t[idEnd..]), |t|)
  }

  function ParseFront(q: seq<byte>): Parsed
  {
    if !CanRead(q) then NoFrame
    else
      var len := FromLittleEndian(q[..8]);
      if len <= HEADER then NoFrame else SplitFrame(q[..len])
  }

  /** What the code needs of a frame for it to survive the trip. */
  predicate Sendable(f: Frame)
  {
    |f.id| <= 254 && |f.id| + |f.data| >= 1 && WireLength(f) < TWO_64
  }

  predicate AllSendable(fs: seq<Frame>)
  {
    forall f :: f in fs ==> Sendable(f)
  }

  lemma EncodeShape(f: Frame, rest: seq<byte>)
    requires WireLength(f) < TWO_64
    ensures |Encode(f)| == WireLength(f)
    ensures FromLittleEndian((Encode(f) + rest)[..8]) == WireLength(f)
    ensures Encode(f)[8] as int == (1 + |f.id|) % 256
    ensures Encode(f)[9..9 + |f.id|] == f.id
    ensures Encode(f)[9 + |f.id|..] == f.data
    ensures (Encode(f) + rest)[..WireLength(f)] == Encode(f)
  {
    U64RoundTrip(WireLength(f));
    assert (Encode(f) + rest)[..8] == LittleEndian(WireLength(f), 8);
  }

  /** Whatever the bytes, a frame the reader takes is one that can be sent. */
  lemma ParsedIsSendable(q: seq<byte>)
    ensures ParseFront(q).Got? ==> Sendable(ParseFront(q).frame) && ParseFront(q).length == WireLength(ParseFront(q).frame)
  {
    if CanRead(q) {
      LittleEndianBound(q[..8]);
      Pow256Is64Bits();
    }
  }

  /** The reader inverts the builder, whatever follows the frame, exactly on the frames whose id
      fits its one-byte length, that are not entirely empty, and whose length fits 64 bits. */
  lemma FrameRoundTrip(f: Frame, rest: seq<byte>)
    ensures ParseFront(Encode(f) + rest) == Got(f, WireLength(f)) <==> Sendable(f)
  {
    if Sendable(f) {
      EncodeShape(f, rest);
    } else {
      ParsedIsSendable(Encode(f) + rest);
    }
  }

  /** Whatever the bytes, a frame the reader takes is one whose encoding it consumed. */
  lemma ParsedIsEncoding(q: seq<byte>)
    requires ParseFront(q).Got?
    ensures var p := ParseFront(q);
      p.length == WireLength(p.frame) <= |q| && q[..p.length] == Encode(p.frame)
  {
    var p := ParseFront(q);
    var t := q[..p.length];
    LittleEndianOf(q[..8]);
    assert t[..8] == q[..8];
    assert t == t[..8] + [t[8]] + t[9..8 + t[8] as int] + t[8 + t[8] as int..];
  }

  /** The reader takes a frame off the front exactly when the bytes begin with the encoding of a sendable
      frame. */
  lemma TakesExactly(q: seq<byte>)
    ensures ParseFront(q).Got? <==> exists f :: Sendable(f) && Encode(f) <= q
  {
    if ParseFront(q).Got? {
      ParsedIsEncoding(q);
      ParsedIsSendable(q);
      var f := ParseFront(q).frame;
      assert Encode(f) == q[..ParseFront(q).length] <= q;
    }
    if f :| Sendable(f) && Encode(f) <= q {
      var rest := q[|Encode(f)|..];
      assert q == Encode(f) + rest;
      FrameRoundTrip(f, rest);
    }
  }

  /** The two ways to fail, as concrete frames: an entirely empty frame is never taken off the queue,
      although `CanRead` reports it as soon as one more byte follows; and an id of 255 bytes wraps the
      id length to zero. */
  lemma UnsendableFrames(b: byte)
    ensures var q := Encode(Frame([], [])) + [b]; CanRead(q) && ParseFront(q) == NoFrame
    ensures ParseFront(Encode(Frame(seq(255, _ => b), [b]))) == Malformed
  {
    EncodeShape(Frame([], []), [b]);
    EncodeShape(Frame(seq(255, _ => b), [b]), []);
    assert Encode(Frame(seq(255, _ => b), [b])) + [] == Encode(Frame(seq(255, _ => b), [b]));
  }

  // ---------------------------------------------------------------- streams of frames

  lemma {:induction false} EncodeAllAppend(a: seq<Frame>, b: seq<Frame>)
    ensures EncodeAll(a + b) == EncodeAll(a) + EncodeAll(b)
  {
    if a == [] {
      assert a + b == b;
    } else {
      assert (a + b)[1..] == a[1..] + b;
      EncodeAllAppend(a[1..], b);
    }
  }

  lemma EncodeAllSnoc(a: seq<Frame>, f: Frame)
    ensures EncodeAll(a + [f]) == EncodeAll(a) + Encode(f)
  {
    EncodeAllAppend(a, [f]);
    assert EncodeAll([f]) == Encode(f) + EncodeAll([]);
  }

  lemma ParseWhole(f: Frame, rest: seq<byte>)
    requires Sendable(f)
    ensures var q := Encode(f) + rest; CanRead(q) && ParseFront(q) == Got(f, WireLength(f))
  {
    EncodeShape(f, rest);
    FrameRoundTrip(f, rest);
  }

  lemma NotYetWhole(q: seq<byte>, f: Frame, rest: seq<byte>)
    requires Sendable(f) && q <= Encode(f) + rest && |q| < WireLength(f)
    ensures !CanRead(q)
  {
    if |q| > HEADER {
      EncodeShape(f, rest);
      assert q[..8] == (Encode(f) + rest)[..8];
    }
  }

  /** On any prefix q of a well-formed stream, `CanRead` says precisely that the first frame has
      arrived whole; the reader then returns that frame and leaves a prefix of the other frames. */
  lemma ParsePrefix(q: seq<byte>, fs: seq<Frame>)
    requires AllSendable(fs) && q <= EncodeAll(fs)
    ensures CanRead(q) <==> fs != [] && |q| >= WireLength(fs[0])
    ensures !CanRead(q) ==> ParseFront(q) == NoFrame
    ensures CanRead(q) ==>
      && ParseFront(q) == Got(fs[0], WireLength(fs[0]))
      && q[..WireLength(fs[0])] == Encode(fs[0])
      && q[WireLength(fs[0])..] <= EncodeAll(fs[1..])
  {
    if fs != [] {
      var f, more := fs[0], EncodeAll(fs[1..]);
      var len := WireLength(f);
      assert f in fs;
      if |q| < len {
        NotYetWhole(q, f, more);
      } else {
        var rest := q[len..];
        PrefixTail(Encode(f), more, q);
        ParseWhole(f, rest);
      }
    }
  }

  lemma WholeStream(fs: seq<Frame>)
    requires AllSendable(fs)
    ensures CanRead(EncodeAll(fs)) <==> fs != []
  {
    ParsePrefix(EncodeAll(fs), fs);
    if fs != [] {
      assert fs[0] in fs;
      EncodeShape(fs[0], []);
    }
  }

  lemma PrefixTail(a: seq<byte>, b: seq<byte>, q: seq<byte>)
    requires q <= a + b && |q| >= |a|
    ensures q == a + q[|a|..] && q[..|a|] == a && q[|a|..] <= b
  {
    assert q == (a + b)[..|q|];
    assert q[|a|..] == b[..|q| - |a|];
  }

  /** The receiver between two deliveries: bytes not parsed yet, frames parsed so far. */
  datatype Reader = Reader(buf: seq<byte>, out: seq<Frame>)

  /** Parse while a whole frame is at the front. A frame taken is never empty, so this ends. */
  function Drain(rd: Reader): Reader
    decreases |rd.buf|
  {
    var p := ParseFront(rd.buf);
    if p.Got? then Drain(Reader(rd.buf[p.length..], rd.out + [p.frame])) else rd
  }

  /** Deliver the chunks one after another, parsing all that can be parsed after each. */
  function Feed(rd: Reader, chunks: seq<seq<byte>>): Reader
    decreases |chunks|
  {
    if chunks == [] then rd
    else Feed(Drain(Reader(rd.buf + chunks[0], rd.out)), chunks[1..])
  }

  function Concat(chunks: seq<seq<byte>>): seq<byte>
  {
    if chunks == [] then [] else chunks[0] + Concat(chunks[1..])
  }

  lemma {:induction false} DrainPrefix(rd: Reader, fs: seq<Frame>)
    requires AllSendable(fs) && rd.out <= fs
    requires rd.buf <= EncodeAll(fs[|rd.out|..])
    ensures var d := Drain(rd);
      && d.out <= fs
      && d.buf <= EncodeAll(fs[|d.out|..])
      && !CanRead(d.buf)
      && EncodeAll(d.out) + d.buf == EncodeAll(rd.out) + rd.buf
    decreases |rd.buf|
  {
    var todo := fs[|rd.out|..];
    ParsePrefix(rd.buf, todo);
    var p := ParseFront(rd.buf);
    if p.Got? {
      var next := Reader(rd.buf[p.length..], rd.out + [p.frame]);
      assert todo[1..] == fs[|next.out|..];
      assert rd.buf == Encode(p.frame) + next.buf;
      EncodeAllSnoc(rd.out, p.frame);
      calc {
        EncodeAll(next.out) + next.buf;
        EncodeAll(rd.out) + Encode(p.frame) + next.buf;
        EncodeAll(rd.out) + (Encode(p.frame) + next.buf);
        EncodeAll(rd.out) + rd.buf;
      }
      DrainPrefix(next, fs);
    }
  }

  lemma {:induction false} FeedPrefix(rd: Reader, chunks: seq<seq<byte>>, fs: seq<Frame>)
    requires AllSendable(fs) && rd.out <= fs && !CanRead(rd.buf)
    requires rd.buf + Concat(chunks) <= EncodeAll(fs[|rd.out|..])
    ensures var d := Feed(rd, chunks);
      && d.out <= fs
      && d.buf <= EncodeAll(fs[|d.out|..])
      && !CanRead(d.buf)
      && EncodeAll(d.out) + d.buf == EncodeAll(rd.out) + (rd.buf + Concat(chunks))
    decreases |chunks|
  {
    if chunks == [] {
      assert rd.buf + Concat(chunks) == rd.buf;
    } else {
      var c, more := chunks[0], Concat(chunks[1..]);
      var start := Reader(rd.buf + c, rd.out);
      assert rd.buf + Concat(chunks) == start.buf + more;
      assert start.buf <= EncodeAll(fs[|rd.out|..]) by {
        assert start.buf <= start.buf + more;
      }
      DrainPrefix(start, fs);
      var d := Drain(start);
      SplitAtDrained(start, d, more, fs);
      FeedPrefix(d, chunks[1..], fs);
      Regroup(EncodeAll(d.out), d.buf, EncodeAll(rd.out), start.buf, more);
    }
  }

  lemma Regroup(a: seq<byte>, b: seq<byte>, c: seq<byte>, d: seq<byte>, more: seq<byte>)
    requires a + b == c + d
    ensures a + (b + more) == c + (d + more)
  {
    assert a + (b + more) == (a + b) + more;
    assert c + (d + more) == (c + d) + more;
  }

  lemma SplitAtDrained(start: Reader, d: Reader, more: seq<byte>, fs: seq<Frame>)
    requires start.out <= fs && d.out <= fs
    requires start.buf + more <= EncodeAll(fs[|start.out|..])
    requires EncodeAll(d.out) + d.buf == EncodeAll(start.out) + start.buf
    ensures d.buf + more <= EncodeAll(fs[|d.out|..])
  {
    assert fs == start.out + fs[|start.out|..];
    assert fs == d.out + fs[|d.out|..];
    EncodeAllAppend(start.out, fs[|start.out|..]);
    EncodeAllAppend(d.out, fs[|d.out|..]);
    var all := EncodeAll(fs);
    assert EncodeAll(start.out) + (start.buf + more) <= all;
    Regroup(EncodeAll(d.out), d.buf, EncodeAll(start.out), start.buf, more);
    assert all[|EncodeAll(d.out)|..] == EncodeAll(fs[|d.out|..]);
  }

  /** The streaming parser inverts the encoder under every chunking: at any time the frames out are a
      prefix of the frames sent and the leftover is precisely the rest of what was delivered; when
      the whole stream has been delivered, every frame is out and nothing is left over. */
  lemma StreamRoundTrip(fs: seq<Frame>, chunks: seq<seq<byte>>)
    requires AllSendable(fs) && Concat(chunks) <= EncodeAll(fs)
    ensures var d := Feed(Reader([], []), chunks);
      && d.out <= fs
      && EncodeAll(d.out) + d.buf == Concat(chunks)
      && (Concat(chunks) == EncodeAll(fs) ==> d == Reader([], fs))
  {
    var rd := Reader([], []);
    assert fs[|rd.out|..] == fs;
    assert rd.buf + Concat(chunks) == Concat(chunks);
    FeedPrefix(rd, chunks, fs);
    var d := Feed(rd, chunks);
    assert EncodeAll(rd.out) + (rd.buf + Concat(chunks)) == Concat(chunks);
    if Concat(chunks) == EncodeAll(fs) {
      var todo := fs[|d.out|..];
      assert fs == d.out + todo;
      EncodeAllAppend(d.out, todo);
      assert d.buf == EncodeAll(todo);
      WholeStream(todo);
    }
  }

  lemma {:induction false} DrainSendable(rd: Reader)
    requires AllSendable(rd.out)
    ensures AllSendable(Drain(rd).out)
    decreases |rd.buf|
  {
    var p := ParseFront(rd.buf);
    if p.Got? {
      ParsedIsSendable(rd.buf);
      DrainSendable(Reader(rd.buf[p.length..], rd.out + [p.frame]));
    }
  }

  lemma {:induction false} FeedSendable(rd: Reader, chunks: seq<seq<byte>>)
    requires AllSendable(rd.out)
    ensures AllSendable(Feed(rd, chunks).out)
    decreases |chunks|
  {
    if chunks != [] {
      DrainSendable(Reader(rd.buf + chunks[0], rd.out));
      FeedSendable(Drain(Reader(rd.buf + chunks[0], rd.out)), chunks[1..]);
    }
  }

  /** Of any list of frames at all, delivered whole in any chunks, the parser gives back that very list if and
      only if every frame of it is sendable: one that is not never comes out as it went in. */
  lemma StreamExactly(fs: seq<Frame>, chunks: seq<seq<byte>>)
    requires Concat(chunks) == EncodeAll(fs)
    ensures Feed(Reader([], []), chunks).out == fs <==> AllSendable(fs)
  {
    if AllSendable(fs) {
      StreamRoundTrip(fs, chunks);
    } else {
      FeedSendable(Reader([], []), chunks);
    }
  }

  // ---------------------------------------------------------------- the frame builder

  /** Append t to the first at bytes already written. */
  method Fill(b: array<byte>, at: nat, t: seq<byte>)
    requires at + |t| <= b.Length
    modifies b
    ensures b[..at + |t|] == old(b[..at]) + t
  {
    Store(b, at, t);
  }

  /** Builds one frame in a heap buffer, field by field. */
  class SimpleBuffer {
    var len: nat
    var buf: array<byte>

    constructor (id: Id, data: array<byte>, length: nat)
      requires length <= data.Length
      ensures fresh(buf)
      ensures len == buf.Length == WireLength(Frame(id, data[..length]))
      ensures buf[..] == Encode(Frame(id, data[..length]))
    {
      var total := 8 + 1 + |id| + length;
      var idLen := ((1 + |id|) % 256) as byte;
      var b := new byte[total](_ => 0);
      Fill(b, 0, LittleEndian(total, 8));
      Fill(b, 8, [idLen]);
      Fill(b, 9, id);
      Fill(b, 9 + |id|, data[..length]);
      len := total;
      buf := b;
      assert b[..] == b[..total];
    }
  }
}
