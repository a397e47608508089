/** Message ids are hexadecimal text in the interface and bytes on the wire. */
module HexIds {
  import opened Bytes

  const PRINT_HEX_SIZE: nat := 128

  /** The value of one character. All letters count, not only the hexadecimal ones; anything else is zero. */
  function HexIndex(c: char): (v: nat)
    ensures v < 36
  {
    if '0' <= c <= '9' then (c as int - '0' as int) as nat
    else if 'A' <= c <= 'Z' then (10 + c as int - 'A' as int) as nat
    else if 'a' <= c <= 'z' then (10 + c as int - 'a' as int) as nat
    else 0
  }

  /** hi shifted left by four, or-ed with lo, cut to a byte. Only the letters beyond f have a lo that
      reaches past four bits; its bits 4 and 5 then meet the two lowest bits of hi. */
  function Pack(hi: nat, lo: nat): (b: byte)
    requires hi < 36 && lo < 36
    ensures hi < 16 && lo < 16 ==> b as int == 16 * hi + lo
  {
    ((16 * High(hi, lo) + lo % 16) % 256) as byte
  }

  function High(hi: nat, lo: nat): (high: nat)
    requires hi < 36 && lo < 36
    ensures high < 38
  {
    if lo < 16 then hi
    else if lo < 32 then (if hi % 2 == 0 then hi + 1 else hi)
    else (if hi / 2 % 2 == 0 then hi + 2 else hi)
  }

  function CharByte(c1: char, c2: char): byte
  {
    Pack(HexIndex(c1), HexIndex(c2))
  }

  /** The byte string an id in the interface stands for: two characters a byte, an odd last one dropped. */
  function DecodeId(s: string): (r: seq<byte>)
    ensures |r| == |s| / 2
    ensures forall i :: 0 <= i < |r| ==> r[i] == CharByte(s[2 * i], s[2 * i + 1])
  {
    seq(|s| / 2, i requires 0 <= i < |s| / 2 => CharByte(s[2 * i], s[2 * i + 1]))
  }

  /** Two characters at a time into a string of half the size. On an odd length the last round pairs the
      last character with the terminator of the text and writes the slot of the result's own terminator,
      which is not part of the result. */
  method GetBinaryString(str: string) returns (ret: seq<byte>)
    ensures ret == DecodeId(str)
  {
    hide CharByte;
    var buf := new byte[|str| / 2 + 1];  // with the slot of the terminator
    var i := 0;
    while i < |str|
      invariant 0 <= i <= |str| + 1 && i % 2 == 0
      invariant forall k :: 0 <= k < i / 2 && k < |str| / 2 ==> buf[k] == DecodeId(str)[k]
    {
      buf[i / 2] := CharByte(str[i], if i + 1 < |str| then str[i + 1] else '\0');
      i := i + 2;
    }
    ret := buf[..|str| / 2];
    assert |ret| == |DecodeId(str)|;
  }

  function HexChar(v: nat): (c: char)
    requires v < 16
    ensures HexIndex(c) == v && Lower(c) == c && IsHex(c)
  {
    if v <= 9 then ('0' as int + v) as char else ('a' as int + (v - 10)) as char
  }

  /** The text of a byte string, without the cut. */
  function Hex(b: seq<byte>): (s: string)
    ensures |s| == 2 * |b|
  {
    seq(2 * |b|, i requires 0 <= i < 2 * |b| =>
      HexChar(if i % 2 == 0 then b[i / 2] as int / 16 else b[i / 2] as int % 16))
  }

  function Printed(size: nat): (min: nat)
    ensures min <= size
  {
    if size < PRINT_HEX_SIZE then size else PRINT_HEX_SIZE
  }

  /** The text of at most the first 128 bytes, three dots for the rest. */
  method GetHexBuffer(buf: array<byte>) returns (s: string)
    ensures s == HexBuffer(buf[..])
  {
    var min := Printed(buf.Length);
    s := "";
    for i := 0 to min
      invariant s == Hex(buf[..i])
    {
      ghost var was := s;
      s := s + [HexChar(buf[i] as int / 16), HexChar(buf[i] as int % 16)];
      assert forall j :: 0 <= j < 2 * i ==> buf[..i][j / 2] == buf[..i + 1][j / 2] && was[j] == Hex(buf[..i + 1])[j];
    }
    assert buf[..min] == buf[..][..min];
    if min < buf.Length {
      s := s + "...";
    }
  }

  function HexBuffer(b: seq<byte>): string
  {
    var min := Printed(|b|);
    Hex(b[..min]) + if min < |b| then "..." else ""
  }

  // ---------------------------------------------------------------- what survives

  lemma PackNibbles(b: byte)
    ensures var h, l := b as int / 16, b as int % 16;
      CharByte(HexChar(h), HexChar(l)) == b
  {
  }

  lemma HexAt(b: seq<byte>, i: nat)
    requires i < |b|
    ensures Hex(b)[2 * i] == HexChar(b[i] as int / 16)
    ensures Hex(b)[2 * i + 1] == HexChar(b[i] as int % 16)
  {
    assert 2 * i / 2 == i && (2 * i + 1) / 2 == i;
  }

  lemma HexRoundTrip(b: seq<byte>)
    ensures DecodeId(Hex(b)) == b
  {
    var s := Hex(b);
    forall i | 0 <= i < |b| ensures DecodeId(s)[i] == b[i] {
      HexAt(b, i);
      PackNibbles(b[i]);
    }
  }

  lemma DecodeAppend(s: string, t: string)
    requires |s| % 2 == 0
    ensures DecodeId(s + t) == DecodeId(s) + DecodeId(t)
  {
    hide CharByte;
    var h, st := |s| / 2, s + t;
    forall i | 0 <= i < |DecodeId(st)| ensures DecodeId(st)[i] == (DecodeId(s) + DecodeId(t))[i] {
      if i >= h {
        assert st[2 * i] == t[2 * (i - h)] && st[2 * i + 1] == t[2 * (i - h) + 1];
      }
    }
  }

  /** Decoding inverts printing on the byte strings that are printed whole, and otherwise only on those
      of 129 bytes that end in zero: there the dots happen to decode to the missing byte. */
  lemma PrintedRoundTrip(b: seq<byte>)
    ensures DecodeId(HexBuffer(b)) == b <==> |b| <= 128 || (|b| == 129 && b[128] == 0)
  {
    var min := Printed(|b|);
    if min == |b| {
      HexRoundTrip(b);
      assert b[..min] == b && HexBuffer(b) == Hex(b);
    } else {
      HexAndDots(b[..min]);
      OneZeroMore(b[..min], b);
    }
  }

  lemma DotsAreZero()
    ensures DecodeId("...") == [0]
  {
    hide Pack;
    var d := DecodeId("...");
    assert d[0] == CharByte("..."[0], "..."[1]) == Pack(0, 0) == 0;
    assert d == [0];
  }

  lemma HexAndDots(p: seq<byte>)
    ensures DecodeId(Hex(p) + "...") == p + [0]
  {
    hide CharByte, HexIndex;
    HexRoundTrip(p);
    DecodeAppend(Hex(p), "...");
    DotsAreZero();
  }

  lemma OneZeroMore(p: seq<byte>, b: seq<byte>)
    requires p < b
    ensures p + [0] == b <==> |b| == |p| + 1 && b[|p|] == 0
  {
    assert p == b[..|p|];
    if p + [0] == b {
      assert b[|p|] == 0;
    }
  }

  predicate IsHex(c: char)
  {
    '0' <= c <= '9' || 'a' <= c <= 'f' || 'A' <= c <= 'F'
  }

  function Lower(c: char): char
  {
    if 'A' <= c <= 'Z' then (c as int - 'A' as int + 'a' as int) as char else c
  }

  function LowerAll(s: string): (r: string)
    ensures |r| == |s| && forall i :: 0 <= i < |s| ==> r[i] == Lower(s[i])
  {
    seq(|s|, i requires 0 <= i < |s| => Lower(s[i]))
  }

  predicate IsHexId(s: string)
  {
    |s| % 2 == 0 && forall i :: 0 <= i < |s| ==> IsHex(s[i])
  }

  /** Digits count from 0, letters of either case from 10, in their order; nothing else counts. */
  lemma DigitValues(c: char, d: char)
    ensures HexIndex('0') == 0 && HexIndex('a') == HexIndex('A') == 10
    ensures d as int == c as int + 1 ==>
      (('0' <= c && d <= '9') || ('a' <= c && d <= 'z') || ('A' <= c && d <= 'Z') ==> HexIndex(d) == HexIndex(c) + 1)
    ensures HexIndex(c) > 0 ==> '1' <= c <= '9' || 'a' <= c <= 'z' || 'A' <= c <= 'Z'
  {
  }

  function Power2(j: nat): (p: nat)
    requires j < 8
    ensures p > 0
  {
    match j
    case 0 => 1
    case 1 => 2
    case 2 => 4
    case 3 => 8
    case 4 => 16
    case 5 => 32
    case 6 => 64
    case _ => 128
  }

  predicate Bit(v: nat, j: nat)
    requires j < 8
  {
    v / Power2(j) % 2 == 1
  }

  lemma PackNibbleWise(hi: nat, lo: nat)
    requires hi < 36 && lo < 36
    ensures Pack(hi, lo) as int == 16 * (High(hi, lo) % 16) + lo % 16
  {
    var high := High(hi, lo);
    QuotientIs(16 * high + lo % 16, 256, high / 16, 16 * (high % 16) + lo % 16);
  }

  lemma Parity(k: nat, x: nat)
    ensures (2 * k + x) % 2 == x % 2
  {
  }

  lemma SameBit(v: nat, l: nat, p: nat, k: nat)
    requires p > 0 && v == p * (2 * k) + l
    ensures v / p % 2 == l / p % 2
  {
    var q, r := l / p, l % p;
    assert l == p * q + r;
    assert p * (2 * k + q) == p * (2 * k) + p * q;
    QuotientIs(v, p, 2 * k + q, r);
    Parity(k, q);
  }

  /** The low four bits of 16h + l are those of l. */
  lemma BitsOfLow(h: nat, l: nat, j: nat)
    requires l < 16 && j < 4
    ensures Bit(16 * h + l, j) <==> Bit(l, j)
  {
    match j {
      case 0 => SameBit(16 * h + l, l, 1, 8 * h);
      case 1 => SameBit(16 * h + l, l, 2, 4 * h);
      case 2 => SameBit(16 * h + l, l, 4, 2 * h);
      case _ => SameBit(16 * h + l, l, 8, h);
    }
  }

  /** The high four bits of 16h + l are the low ones of h. */
  lemma BitsOfHigh(h: nat, l: nat, i: nat)
    requires l < 16 && i < 4
    ensures Bit(16 * h + l, i + 4) <==> Bit(h, i)
  {
    match i {
      case 0 => QuotientIs(16 * h + l, 16, h, l);
      case 1 => QuotientIs(16 * h + l, 32, h / 2, 16 * (h % 2) + l);
      case 2 => QuotientIs(16 * h + l, 64, h / 4, 16 * (h % 4) + l);
      case _ => QuotientIs(16 * h + l, 128, h / 8, 16 * (h % 8) + l);
    }
  }

  lemma NoBits(j: nat)
    requires j < 8
    ensures !Bit(0, j)
  {
  }

  /** Of the values of letters, those from g to v reach bit 4 and those from w bit 5. */
  lemma BitsAboveNibble(lo: nat, i: nat)
    requires lo < 36 && i < 4
    ensures Bit(lo, i + 4) <==> (i == 0 && 16 <= lo < 32) || (i == 1 && 32 <= lo)
  {
  }

  lemma WithBitZero(q: nat, i: nat)
    requires i < 4
    ensures Bit(2 * q + 1, i) <==> Bit(2 * q, i) || i == 0
  {
    match i {
      case 0 => QuotientIs(2 * q + 1, 2, q, 1);
      case 1 => QuotientIs(2 * q + 1, 2, q, 1);
      case 2 =>
        QuotientIs(2 * q + 1, 4, q / 2, 2 * (q % 2) + 1);
        QuotientIs(2 * q, 4, q / 2, 2 * (q % 2));
      case _ =>
        QuotientIs(2 * q + 1, 8, q / 4, 2 * (q % 4) + 1);
        QuotientIs(2 * q, 8, q / 4, 2 * (q % 4));
    }
  }

  lemma WithBitOne(q: nat, r: nat, i: nat)
    requires r < 2 && i < 4
    ensures Bit(4 * q + 2 + r, i) <==> Bit(4 * q + r, i) || i == 1
  {
    match i {
      case 0 => SameBit(4 * q + 2 + r, r, 1, 2 * q + 1);
        SameBit(4 * q + r, r, 1, 2 * q);
      case 1 =>
        QuotientIs(4 * q + 2 + r, 2, 2 * q + 1, r);
        Parity(q, 1);
      case 2 =>
        QuotientIs(4 * q + 2 + r, 4, q, 2 + r);
        QuotientIs(4 * q + r, 4, q, r);
      case _ =>
        QuotientIs(4 * q + 2 + r, 8, q / 2, 4 * (q % 2) + 2 + r);
        QuotientIs(4 * q + r, 8, q / 2, 4 * (q % 2) + r);
    }
  }

  lemma HasBit(v: nat)
    ensures Bit(v, 0) <==> v % 2 == 1
    ensures Bit(v, 1) <==> v / 2 % 2 == 1
  {
  }

  lemma HighIsOr(hi: nat, lo: nat, i: nat)
    requires hi < 36 && lo < 36 && i < 4
    ensures Bit(High(hi, lo), i) <==> Bit(hi, i) || Bit(lo, i + 4)
  {
    hide Bit;
    BitsAboveNibble(lo, i);
    HasBit(hi);
    if 16 <= lo < 32 && hi % 2 == 0 {
      WithBitZero(hi / 2, i);
    } else if lo >= 32 && hi / 2 % 2 == 0 {
      assert hi == 4 * (hi / 4) + hi % 2;
      WithBitOne(hi / 4, hi % 2, i);
    }
  }

  /** The byte of two characters is the first value shifted left by four or-ed with the second, bit by bit. */
  lemma PackIsOr(hi: nat, lo: nat, j: nat)
    requires hi < 36 && lo < 36 && j < 8
    ensures Bit(Pack(hi, lo) as int, j) <==> Bit(16 * hi, j) || Bit(lo, j)
  {
    hide Bit, Pack, High;
    PackNibbleWise(hi, lo);
    var high := High(hi, lo);
    if j < 4 {
      BitsOfLow(high % 16, lo % 16, j);
      BitsOfLow(lo / 16, lo % 16, j);
      BitsOfLow(hi, 0, j);
      NoBits(j);
    } else {
      BitsOfHigh(high % 16, lo % 16, j - 4);
      BitsOfLow(high / 16, high % 16, j - 4);
      BitsOfHigh(hi, 0, j - 4);
      HighIsOr(hi, lo, j - 4);
    }
  }

  /** How long the text is. */
  lemma PrintedLength(b: seq<byte>)
    ensures |HexBuffer(b)| == if |b| <= 128 then 2 * |b| else 2 * 128 + 3
  {
  }

  lemma HexIndexOfHex(c: char, d: char)
    requires IsHex(c) && IsHex(d)
    ensures HexIndex(c) < 16
    ensures HexIndex(c) == HexIndex(d) <==> Lower(c) == Lower(d)
  {
  }

  lemma PairsDistinct(h1: nat, l1: nat, h2: nat, l2: nat)
    requires h1 < 16 && l1 < 16 && h2 < 16 && l2 < 16
    ensures Pack(h1, l1) == Pack(h2, l2) <==> h1 == h2 && l1 == l2
  {
  }

  /** Two hexadecimal ids share a stream exactly when they are the same text up to the case of letters. */
  lemma SameStreamExactly(s: string, t: string)
    requires IsHexId(s) && IsHexId(t)
    ensures DecodeId(s) == DecodeId(t) <==> LowerAll(s) == LowerAll(t)
  {
    if |s| != |t| {
      assert |s| / 2 != |t| / 2;
    } else {
      forall i | 0 <= i < |s| / 2
        ensures DecodeId(s)[i] == DecodeId(t)[i] <==>
          LowerAll(s)[2 * i] == LowerAll(t)[2 * i] && LowerAll(s)[2 * i + 1] == LowerAll(t)[2 * i + 1]
      {
        var a, b, c, d := s[2 * i], s[2 * i + 1], t[2 * i], t[2 * i + 1];
        HexIndexOfHex(a, c);
        HexIndexOfHex(b, d);
        HexIndexOfHex(c, d);
        PairsDistinct(HexIndex(a), HexIndex(b), HexIndex(c), HexIndex(d));
      }
      if DecodeId(s) == DecodeId(t) {
        forall j | 0 <= j < |s| ensures LowerAll(s)[j] == LowerAll(t)[j] {
          var i := j / 2;
          assert DecodeId(s)[i] == DecodeId(t)[i];
          assert j == 2 * i || j == 2 * i + 1;
        }
      }
    }
  }

  /** Distinct lower-case ids of even length never share a stream. */
  lemma LowerCaseIdsDistinct(s: string, t: string)
    requires IsHexId(s) && IsHexId(t) && LowerAll(s) == s && LowerAll(t) == t
    ensures s != t ==> DecodeId(s) != DecodeId(t)
  {
    SameStreamExactly(s, t);
  }

  /** Ids that are not what the interface expects can collide: other case, odd length, no hexadecimal. */
  lemma Collisions()
    ensures DecodeId("ab") == DecodeId("AB") == [0xab]
    ensures DecodeId("ab1") == DecodeId("ab")
    ensures DecodeId("1g") == DecodeId("10")
    ensures DecodeId("-7") == DecodeId("07")
  {
    assert DecodeId("ab") == [0xab as byte] == DecodeId("AB");
    assert DecodeId("ab1") == [0xab as byte];
    assert DecodeId("1g") == [0x10 as byte] == DecodeId("10");
    assert DecodeId("-7") == [0x07 as byte] == DecodeId("07");
  }
}
