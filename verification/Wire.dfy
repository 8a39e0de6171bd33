/** The 16-bit flag word and the little-endian byte layout that the server writes and the page reads.
    Bits 0-1 hold the stage, bits 2-7 the opinion, bit 8 marks broadcasters, bit 9 adoptions that took the feed
    and bit 10 a feed seen this tick. */
module Wire {

  type Byte = b: int | 0 <= b < 0x100
  type U16 = w: int | 0 <= w < 0x1_0000
  type U32 = w: int | 0 <= w < 0x1_0000_0000

  // ---------- little-endian words ----------

  function Put16(w: U16): seq<Byte> {
    [w % 0x100, w / 0x100]
  }

  function Put32(w: U32): seq<Byte> {
    [w % 0x100, w / 0x100 % 0x100, w / 0x1_0000 % 0x100, w / 0x100_0000]
  }

  function Get16(s: seq<Byte>, o: nat): U16
    requires o + 2 <= |s|
  {
    var b0: int, b1: int := s[o], s[o + 1];
    b0 + 0x100 * b1
  }

  function Get32(s: seq<Byte>, o: nat): U32
    requires o + 4 <= |s|
  {
    var b0: int, b1: int, b2: int, b3: int := s[o], s[o + 1], s[o + 2], s[o + 3];
    b0 + 0x100 * b1 + 0x1_0000 * b2 + 0x100_0000 * b3
  }

  lemma Word16(s: seq<Byte>, o: nat, w: U16)
    requires o + 2 <= |s| && s[o..o + 2] == Put16(w)
    ensures Get16(s, o) == w
  {
    assert s[o] == s[o..o + 2][0] && s[o + 1] == s[o..o + 2][1];
  }

  lemma Bytes32(w: U32)
    ensures w % 0x100 + 0x100 * (w / 0x100 % 0x100) + 0x1_0000 * (w / 0x1_0000 % 0x100) + 0x100_0000 * (w / 0x100_0000)
         == w
  {
    assert w == 0x100 * (w / 0x100) + w % 0x100;
    assert w / 0x100 == 0x100 * (w / 0x100 / 0x100) + w / 0x100 % 0x100;
    assert w / 0x100 / 0x100 == w / 0x1_0000;
    assert w / 0x1_0000 == 0x100 * (w / 0x1_0000 / 0x100) + w / 0x1_0000 % 0x100;
    assert w / 0x1_0000 / 0x100 == w / 0x100_0000;
  }

  lemma Word32(s: seq<Byte>, o: nat, w: U32)
    requires o + 4 <= |s| && s[o..o + 4] == Put32(w)
    ensures Get32(s, o) == w
  {
    Bytes32(w);
    var t := s[o..o + 4];
    assert s[o] == t[0] && s[o + 1] == t[1] && s[o + 2] == t[2] && s[o + 3] == t[3];
  }

  /** The low byte goes first. */
  lemma LowByteFirst(v: U16, w: U32)
    ensures var b := Put16(v); |b| == 2 && b[0] as int + 0x100 * b[1] as int == v
    ensures var b := Put32(w);
      |b| == 4 && b[0] as int + 0x100 * b[1] as int + 0x1_0000 * b[2] as int + 0x100_0000 * b[3] as int == w
  {
    Bytes32(w);
  }

  // ---------- the flag word ----------

  function Clamp1(y: real): real {
    if y < -1.0 then -1.0 else if y > 1.0 then 1.0 else y
  }

  /** The 6-bit opinion level; the conversion truncates a number that is never negative. */
  function Quantise(y: real): (q: int)
    ensures 0 <= q <= 63
  {
    ((Clamp1(y) + 1.0) * 0.5 * 63.0).Floor
  }

  function Bit(b: bool): int { if b then 1 else 0 }

  /** packFlags; the fields occupy disjoint bits, so the or of the shifted fields is their sum. */
  function Pack(state: nat, y: real, media: bool, feedDriven: bool, feedNow: bool): U16 {
    state % 4 + 4 * Quantise(y) + 256 * Bit(media) + 512 * Bit(feedDriven) + 1024 * Bit(feedNow)
  }

  /** What the vertex shader makes of a word. */
  datatype Dot = Dot(state: int, opinion: real, media: bool, feedDriven: bool, feedNow: bool)

  function Unpack(w: U16): Dot {
    Dot(w % 4, (w / 4 % 64) as real / 63.0 * 2.0 - 1.0, w / 256 % 2 != 0, w / 512 % 2 != 0, w / 1024 % 2 != 0)
  }

  /** The shader recovers the adoption state and the three marks exactly, and the opinion from below to within
      2/63, whatever the opinion and without the fields disturbing one another. */
  lemma UnpackOfPack(state: nat, y: real, media: bool, feedDriven: bool, feedNow: bool)
    requires state < 4
    ensures var d := Unpack(Pack(state, y, media, feedDriven, feedNow));
      && d.state == state && d.media == media && d.feedDriven == feedDriven && d.feedNow == feedNow
      && Clamp1(y) - 2.0 / 63.0 < d.opinion <= Clamp1(y)
  {
    var q := Quantise(y);
    QuantiseIsClose(y);
    FieldsApart(state, q, Bit(media), Bit(feedDriven), Bit(feedNow));
  }

  /** Where each field stands in the word: the state in bits 0 and 1, the opinion in 64 even levels from -1 to 1 in
      bits 2 to 7, and the three marks in bits 8, 9 and 10. */
  lemma PackedFields(state: nat, y: real, media: bool, feedDriven: bool, feedNow: bool)
    requires state < 4 && -1.0 <= y <= 1.0
    ensures var w: int := Pack(state, y, media, feedDriven, feedNow);
      && w < 0x800 && w % 4 == state
      && (w / 4 % 64) as real <= (y + 1.0) * 31.5 < (w / 4 % 64) as real + 1.0
      && (w / 256 % 2 == 1 <==> media) && (w / 512 % 2 == 1 <==> feedDriven) && (w / 1024 % 2 == 1 <==> feedNow)
  {
    FieldsApart(state, Quantise(y), Bit(media), Bit(feedDriven), Bit(feedNow));
    assert (Clamp1(y) + 1.0) * 0.5 * 63.0 == (y + 1.0) * 31.5;
  }

  lemma QuantiseIsClose(y: real)
    ensures Clamp1(y) - 2.0 / 63.0 < Quantise(y) as real / 63.0 * 2.0 - 1.0 <= Clamp1(y)
  {
    var x := (Clamp1(y) + 1.0) * 0.5 * 63.0;
    assert Quantise(y) as real <= x < Quantise(y) as real + 1.0;
  }

  lemma FieldsApart(s: int, q: int, m: int, d: int, n: int)
    requires 0 <= s < 4 && 0 <= q < 64 && 0 <= m < 2 && 0 <= d < 2 && 0 <= n < 2
    ensures var w := s + 4 * q + 256 * m + 512 * d + 1024 * n;
      w % 4 == s && w / 4 % 64 == q && w / 256 % 2 == m && w / 512 % 2 == d && w / 1024 % 2 == n
  {
    var w := s + 4 * q + 256 * m + 512 * d + 1024 * n;
    assert w / 4 == q + 64 * (m + 2 * d + 4 * n);
    assert w / 256 == m + 2 * (d + 2 * n);
    assert w / 512 == d + 2 * n;
    assert w / 1024 == n;
  }

  /** The same words by shift, or and mask, on the machine's own 16-bit words. */
  lemma SumsAreOrs(s: bv16, q: bv16, m: bv16, d: bv16, n: bv16)
    requires s < 4 && q < 64 && m < 2 && d < 2 && n < 2
    ensures var w := s | (q << 2) | (m << 8) | (d << 9) | (n << 10);
      && w == s + 4 * q + 256 * m + 512 * d + 1024 * n
      && w & 3 == s && (w >> 2) & 63 == q
      && (w & 256 != 0 <==> m != 0) && (w & 512 != 0 <==> d != 0) && (w & 1024 != 0 <==> n != 0)
  {
  }
}
