/** Bytes and the little-endian integers that the framing copies to and from memory. */
module Bytes {
  newtype byte = x: int | 0 <= x < 256

  const TWO_64: int := 0x1_0000_0000_0000_0000

  function Pow256(k: nat): (p: nat)
    ensures p > 0
  {
    if k == 0 then 1 else 256 * Pow256(k - 1)
  }

  /** The k low-order bytes of v, least significant first; higher bits are dropped, as a
      fixed-width unsigned integer drops them. */
  function LittleEndian(v: nat, k: nat): (s: seq<byte>)
    ensures |s| == k
  {
    if k == 0 then [] else [(v % 256) as byte] + LittleEndian(v / 256, k - 1)
  }

  function FromLittleEndian(s: seq<byte>): nat
  {
    if s == [] then 0 else s[0] as int + 256 * FromLittleEndian(s[1..])
  }

  lemma {:induction false} LittleEndianRoundTrip(v: nat, k: nat)
    requires v < Pow256(k)
    ensures FromLittleEndian(LittleEndian(v, k)) == v
  {
    if k > 0 {
      LittleEndianRoundTrip(v / 256, k - 1);
      assert LittleEndian(v, k)[1..] == LittleEndian(v / 256, k - 1);
    }
  }

  /** Dividing by 256 and then by p is dividing by 256p. */
  lemma DivideTwice(v: nat, p: nat)
    requires p > 0
    ensures v / 256 / p == v / (256 * p)
  {
    var q := v / 256;
    var s, r := q / p, q % p;
    assert v == 256 * q + v % 256 && q == p * s + r;
    assert 256 * (p * s) == (256 * p) * s;
    assert v == (256 * p) * s + (256 * r + v % 256);
    QuotientIs(v, 256 * p, s, 256 * r + v % 256);
  }

  lemma {:induction false} TimesOneMore(m: nat, a: nat, b: nat)
    requires a < b
    ensures m * a + m <= m * b
  {
    assert m * b == m * (b - 1) + m;
    if a < b - 1 {
      TimesOneMore(m, a, b - 1);
    }
  }

  lemma QuotientIs(v: nat, m: nat, s: nat, r: nat)
    requires v == m * s + r && r < m
    ensures v / m == s && v % m == r
  {
    var q := v / m;
    assert v == m * q + v % m;
    if q > s {
      TimesOneMore(m, s, q);
    } else if q < s {
      TimesOneMore(m, q, s);
    }
  }

  /** The byte order: byte i of the encoding is the i-th digit to base 256, least significant first. */
  lemma {:induction false} LittleEndianAt(v: nat, k: nat, i: nat)
    requires i < k
    ensures LittleEndian(v, k)[i] as int == v / Pow256(i) % 256
  {
    if i > 0 {
      LittleEndianAt(v / 256, k - 1, i - 1);
      DivideTwice(v, Pow256(i - 1));
    }
  }

  lemma {:induction false} LittleEndianBound(s: seq<byte>)
    ensures FromLittleEndian(s) < Pow256(|s|)
  {
    if s != [] {
      LittleEndianBound(s[1..]);
    }
  }

  lemma {:induction false} LittleEndianOf(s: seq<byte>)
    ensures LittleEndian(FromLittleEndian(s), |s|) == s
  {
    if s != [] {
      LittleEndianOf(s[1..]);
      var v := FromLittleEndian(s[1..]);
      assert (s[0] as int + 256 * v) % 256 == s[0] as int && (s[0] as int + 256 * v) / 256 == v;
    }
  }

  lemma Pow256Is64Bits()
    ensures Pow256(8) == TWO_64
  {
    assert Pow256(1) == 256;
    assert Pow256(2) == 256 * 256;
    assert Pow256(3) == 256 * 256 * 256;
    assert Pow256(4) == 0x1_0000_0000;
    assert Pow256(5) == 0x100_0000_0000;
    assert Pow256(6) == 0x1_0000_0000_0000;
    assert Pow256(7) == 0x100_0000_0000_0000;
  }

  lemma U64RoundTrip(v: nat)
    requires v < TWO_64
    ensures FromLittleEndian(LittleEndian(v, 8)) == v
  {
    Pow256Is64Bits();
    LittleEndianRoundTrip(v, 8);
  }
}

/** Copies between byte arrays, as memcpy makes them. */
module Memory {
  import opened Bytes

  /** s overwritten at position at by t. */
  function Spliced(s: seq<byte>, at: nat, t: seq<byte>): (r: seq<byte>)
    requires at + |t| <= |s|
    ensures |r| == |s|
    ensures forall i :: 0 <= i < |s| ==> r[i] == if at <= i < at + |t| then t[i - at] else s[i]
  {
    s[..at] + t + s[at + |t|..]
  }

  method MemCopy(dst: array<byte>, dstAt: nat, src: array<byte>, srcAt: nat, len: nat)
    requires dst != src
    requires dstAt + len <= dst.Length && srcAt + len <= src.Length
    modifies dst
    ensures forall i :: 0 <= i < dst.Length ==>
      dst[i] == if dstAt <= i < dstAt + len then src[srcAt + (i - dstAt)] else old(dst[i])
  {
    forall i | 0 <= i < len { dst[dstAt + i] := src[srcAt + i]; }
  }

  method Store(dst: array<byte>, dstAt: nat, src: seq<byte>)
    requires dstAt + |src| <= dst.Length
    modifies dst
    ensures dst[..] == Spliced(old(dst[..]), dstAt, src)
  {
    forall i | 0 <= i < |src| { dst[dstAt + i] := src[i]; }
  }

  method ToArray(s: seq<byte>) returns (a: array<byte>)
    ensures fresh(a) && a.Length == |s| && a[..] == s
  {
    a := new byte[|s|];
    forall i | 0 <= i < |s| { a[i] := s[i]; }
  }
}
