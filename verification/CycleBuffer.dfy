/** The growable ring buffer. Its contract is that of a byte queue. */
module CycleBuffers {
  import opened Bytes
  import opened Memory
  import opened Framing

  /** Position reached on a ring of n bytes by walking forward to x, at most once around. */
  function Wrap(x: nat, n: nat): nat
    requires x < 2 * n
  {
    if x < n then x else x - n
  }

  lemma WrapIsRemainder(x: nat, n: nat)
    requires x < 2 * n
    ensures Wrap(x, n) == x % n
  {
    if x >= n {
      assert x == n * 1 + (x - n);
    }
  }

  method Remainder(x: nat, n: nat) returns (p: nat)
    requires x < 2 * n
    ensures p == Wrap(x, n)
  {
    WrapIsRemainder(x, n);
    p := x % n;
  }

  /** The len bytes of a ring starting at position from, in order. */
  function Window(ring: seq<byte>, from: nat, len: nat): (s: seq<byte>)
    requires from < |ring| && len <= |ring|
    ensures |s| == len
    ensures forall i :: 0 <= i < len ==> s[i] == ring[Wrap(from + i, |ring|)]
  {
    seq(len, i requires 0 <= i < len => ring[Wrap(from + i, |ring|)])
  }

  lemma WindowSplit(ring: seq<byte>, from: nat, len: nat, k: nat)
    requires from < |ring| && k <= len <= |ring|
    ensures Window(ring, from, k) == Window(ring, from, len)[..k]
    ensures Window(ring, Wrap(from + k, |ring|), len - k) == Window(ring, from, len)[k..]
  {
  }

  /** Copy a window that does not pass the end of the ring. */
  method CopyStraight(data: array<byte>, ring: array<byte>, from: nat, len: nat)
    requires data != ring && from < ring.Length
    requires len <= data.Length && from + len <= ring.Length
    modifies data
    ensures data[..] == Spliced(old(data[..]), 0, Window(ring[..], from, len))
  {
    MemCopy(data, 0, ring, from, len);
  }

  /** Copy a window that passes the end of the ring, in two pieces. */
  method CopyAround(data: array<byte>, ring: array<byte>, from: nat, len: nat)
    requires data != ring && from < ring.Length
    requires len <= data.Length && len <= ring.Length < from + len
    modifies data
    ensures data[..] == Spliced(old(data[..]), 0, Window(ring[..], from, len))
  {
    var firstN := ring.Length - from;
    MemCopy(data, 0, ring, from, firstN);
    MemCopy(data, firstN, ring, 0, len - firstN);
  }

  method AppendStraight(ring: array<byte>, ghost from: nat, ghost size: nat, at: nat, data: array<byte>, len: nat)
    requires data != ring && from < ring.Length && size + len <= ring.Length
    requires len <= data.Length && at + len <= ring.Length
    requires at == Wrap(from + size, ring.Length)
    modifies ring
    ensures Window(ring[..], from, size + len) == Window(old(ring[..]), from, size) + data[..len]
  {
    MemCopy(ring, at, data, 0, len);
  }

  method AppendAround(ring: array<byte>, ghost from: nat, ghost size: nat, at: nat, data: array<byte>, len: nat)
    requires data != ring && from < ring.Length && size + len <= ring.Length
    requires len <= data.Length && at == from + size < ring.Length < at + len
    modifies ring
    ensures Window(ring[..], from, size + len) == Window(old(ring[..]), from, size) + data[..len]
  {
    var firstN := ring.Length - at;
    MemCopy(ring, at, data, 0, firstN);
    MemCopy(ring, 0, data, firstN, len - firstN);
  }

  type Capacity = n: nat | n > 0 witness 1

  /** Capacity after making room for length more bytes. A growing step at least doubles it, makes
      room and stays below length + 2n; so the write that asked for it fits, and the 64-bit size cannot
      overflow while length + 2n does not. */
  function Grown(n: Capacity, remain: nat, length: nat): (m: Capacity)
    ensures remain >= length ==> m == n
    ensures remain < length ==> length + n < m <= length + 2 * n && m >= 2 * n
  {
    if remain >= length then n
    else
      assert n * (length / n + 2) == n * (length / n) + 2 * n;
      n * (length / n + 2)
  }

  /** The new capacity is q times the old one: of all multiples only one makes room and stays in the bounds. */
  lemma GrownIsMultiple(n: Capacity, remain: nat, length: nat) returns (q: nat)
    ensures Grown(n, remain, length) == n * q
    ensures forall p: nat :: remain < length && length + n < n * p <= length + 2 * n ==> p == q
  {
    q := if remain >= length then 1 else length / n + 2;
    if remain < length {
      forall p: nat | length + n < n * p <= length + 2 * n ensures p == q {
        if p < q {
          TimesOneMore(n, p, q);
        } else if q < p {
          TimesOneMore(n, q, p);
        }
      }
    }
  }

  class CycleBuffer {
    var rPos: nat
    var wPos: nat
    var n: nat
    var remain: nat
    var buffer: array<byte>

    ghost var contents: seq<byte>   // the bytes written and not yet read, oldest first
    ghost var moved: nat            // bytes that reallocations have copied so far

    ghost predicate Valid()
      reads this, buffer
    {
      && 0 < n == buffer.Length
      && rPos < n && wPos < n && remain <= n
      && wPos == Wrap(rPos + n - remain, n)
      && contents == Window(buffer[..], rPos, n - remain)
    }

    constructor (capacity: nat)
      requires capacity > 0
      ensures Valid() && fresh(buffer)
      ensures contents == [] && n == capacity && moved == 0
    {
      moved := 0;
      n, remain, rPos, wPos := capacity, capacity, 0, 0;
      buffer := new byte[capacity];
      contents := [];
    }

    method Reset()
      requires Valid()
      modifies this
      ensures Valid() && contents == []
      ensures n == old(n) && buffer == old(buffer)
    {
      rPos := 0;
      wPos := 0;
      remain := n;
      contents := [];
    }

    function Size(): (k: nat)
      requires Valid()
      reads this, buffer
      ensures k == |contents|
    {
      n - remain
    }

    method CanReadBytes(length: nat) returns (ok: bool)
      requires Valid()
      ensures ok <==> |contents| >= length
    {
      ok := n - remain >= length;
    }

    /** Look at the first length bytes once that many are there; nothing is consumed. */
    method Peek(data: array<byte>, length: nat)
      requires Valid() && data != buffer
      requires length <= data.Length && length <= Size()
      modifies data
      ensures data[..] == Spliced(old(data[..]), 0, contents[..length])
    {
      WindowSplit(buffer[..], rPos, n - remain, length);
      if rPos >= wPos && n - remain > 0 {
        if rPos <= n - length {
          CopyStraight(data, buffer, rPos, length);
        } else {
          CopyAround(data, buffer, rPos, length);
        }
      } else if rPos < wPos {
        CopyStraight(data, buffer, rPos, length);
      }
    }

    /** Copy the first length bytes out and move the read position past them. */
    method TakeOut(data: array<byte>, length: nat) returns (ret: nat)
      requires Valid() && data != buffer
      requires length <= data.Length && length <= Size()
      modifies this`rPos, data
      ensures ret == length && rPos == Wrap(old(rPos) + length, n)
      ensures data[..] == Spliced(old(data[..]), 0, Window(buffer[..], old(rPos), length))
    {
      ret := length;
      if rPos >= wPos && n - remain > 0 {
        if rPos <= n - length {
          CopyStraight(data, buffer, rPos, length);
          rPos := Remainder(rPos + length, n);
        } else {
          CopyAround(data, buffer, rPos, length);
          rPos := length - (n - rPos);
        }
      } else if rPos < wPos {
        CopyStraight(data, buffer, rPos, length);
        rPos := rPos + length;
      } else {
        ret := 0;
      }
    }

    /** Take the first length bytes once that many are there. */
    method Read(data: array<byte>, length: nat) returns (ret: nat)
      requires Valid() && data != buffer
      requires length <= data.Length && length <= Size()
      modifies this, data
      ensures Valid() && n == old(n) && buffer == old(buffer)
      ensures ret == length
      ensures data[..] == Spliced(old(data[..]), 0, old(contents)[..length])
      ensures contents == old(contents)[length..] && moved == old(moved)
    {
      WindowSplit(buffer[..], rPos, n - remain, length);
      ret := TakeOut(data, length);
      remain := remain + ret;
      contents := contents[length..];
    }

    /** Copy the whole contents, in order, to the start of a larger array. */
    method Linearise(newBuffer: array<byte>) returns (ghost copied: nat)
      requires Valid() && newBuffer != buffer && newBuffer.Length >= n
      modifies newBuffer
      ensures newBuffer[..][..n - remain] == contents
      ensures copied == |contents|
    {
      var haveSize := Size();
      copied := haveSize;
      if wPos > rPos {
        CopyStraight(newBuffer, buffer, rPos, haveSize);
      } else if haveSize > 0 {
        var firstN := n - rPos;
        if haveSize > firstN {
          CopyAround(newBuffer, buffer, rPos, haveSize);
        } else {
          CopyStraight(newBuffer, buffer, rPos, haveSize);
        }
      }
    }

    /** Make room for length more bytes by moving the contents to a larger array. */
    method Realloc(length: nat)
      requires Valid()
      modifies this
      ensures Valid() && contents == old(contents)
      ensures n == Grown(old(n), old(remain), length) && remain >= length
      ensures if old(remain) >= length then buffer == old(buffer) else fresh(buffer)
      ensures moved == old(moved) + if old(remain) >= length then 0 else |contents|
    {
      if remain >= length {
        return;
      }
      var newN := n * (length / n + 2);
      assert newN == Grown(n, remain, length);
      var newBuffer := new byte[newN];
      ghost var copied := Linearise(newBuffer);
      moved := moved + copied;
      var haveSize := Size();
      n := newN;
      remain := n - haveSize;
      rPos := 0;
      wPos := haveSize;
      buffer := newBuffer;
    }

    /** Copy length bytes in behind the contents and move the write position past them. */
    method PutIn(data: array<byte>, length: nat)
      requires Valid() && data != buffer
      requires length <= data.Length && length <= remain
      modifies this`wPos, buffer
      ensures wPos == Wrap(rPos + (n - remain) + length, n)
      ensures Window(buffer[..], rPos, n - remain + length) == old(contents) + data[..length]
    {
      ghost var size, q := n - remain, contents;
      if wPos >= rPos && remain > 0 {
        if wPos <= n - length {
          AppendStraight(buffer, rPos, size, wPos, data, length);
          wPos := Remainder(wPos + length, n);
        } else {
          AppendAround(buffer, rPos, size, wPos, data, length);
          wPos := length - (n - wPos);
        }
      } else if wPos < rPos {
        AppendStraight(buffer, rPos, size, wPos, data, length);
        wPos := wPos + length;
      }
      assert length == 0 ==> q + data[..length] == q;
    }

    /** The last section of a write: append length bytes, for which there is room. */
    method CopyIn(data: array<byte>, length: nat)
      requires Valid() && data != buffer
      requires length <= data.Length && length <= remain
      modifies this, buffer
      ensures Valid() && n == old(n) && buffer == old(buffer)
      ensures remain == old(remain) - length
      ensures contents == old(contents) + data[..length] && moved == old(moved)
    {
      PutIn(data, length);
      remain := remain - length;
      contents := contents + data[..length];
    }

    method Write(data: array<byte>, length: nat) returns (ret: nat)
      requires Valid() && data != buffer
      requires length <= data.Length
      modifies this, buffer
      ensures Valid() && (buffer == old(buffer) || fresh(buffer))
      ensures ret == length
      ensures contents == old(contents) + old(data[..length])
      ensures n == Grown(old(n), old(remain), length)
      ensures moved == old(moved) + if old(remain) >= length then 0 else |old(contents)|
    {
      Realloc(length);
      CopyIn(data, length);
      ret := length;
    }

    /** The total length in the first eight bytes, wherever they lie on the ring. */
    method FrontLength() returns (len: nat)
      requires Valid() && Size() > HEADER
      ensures len == FromLittleEndian(contents[..8])
    {
      var field := new byte[8];
      if rPos < wPos {
        CopyStraight(field, buffer, rPos, 8);
      } else if rPos <= n - 8 {
        CopyStraight(field, buffer, rPos, 8);
      } else {
        CopyAround(field, buffer, rPos, 8);
      }
      WindowSplit(buffer[..], rPos, n - remain, 8);
      assert field[..] == contents[..8];
      len := FromLittleEndian(field[..]);
    }

    method CanReadFrame() returns (ok: bool)
      requires Valid()
      ensures ok <==> CanRead(contents)
    {
      if n - remain > HEADER {
        var len := FrontLength();
        return n - remain >= len;
      }
      return false;
    }

    /** A copy of the first len bytes. */
    method FrontBytes(len: nat) returns (tmp: array<byte>)
      requires Valid() && 0 < len <= Size()
      ensures fresh(tmp) && tmp[..] == contents[..len]
    {
      tmp := new byte[len];
      WindowSplit(buffer[..], rPos, n - remain, len);
      if rPos < wPos {
        CopyStraight(tmp, buffer, rPos, len);
      } else if n - rPos >= len {
        CopyStraight(tmp, buffer, rPos, len);
      } else {
        CopyAround(tmp, buffer, rPos, len);
      }
    }

    /** Move the read position past the first len bytes. */
    method Consume(len: nat)
      requires Valid() && len <= Size()
      modifies this
      ensures Valid() && n == old(n) && buffer == old(buffer)
      ensures contents == old(contents)[len..]
    {
      WindowSplit(buffer[..], rPos, n - remain, len);
      rPos := Remainder(rPos + len, n);
      remain := remain + len;
      contents := contents[len..];
    }

    /** Take one frame off the front. Whatever is not a whole, well-formed frame stays. */
    method ReadFrame() returns (p: Parsed)
      requires Valid()
      modifies this
      ensures Valid() && n == old(n) && buffer == old(buffer)
      ensures p == ParseFront(old(contents))
      ensures contents == if p.Got? then old(contents)[p.length..] else old(contents)
    {
      p := NoFrame;
      if n - remain > HEADER {
        var len := FrontLength();
        if n - remain >= len && len > HEADER {
          var tmp := FrontBytes(len);
          p := SplitFrame(tmp[..]);
          if p.Got? {
            Consume(len);
          }
        }
      }
    }
  }
}
