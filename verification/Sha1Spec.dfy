/** SHA-1 as section 6.1.2 of FIPS 180-4 states it: padding, an 80-word
    schedule, 80 rounds of five registers. */
module Sha1Spec {
  import opened XorNat
  import opened Words32

  type Word = bv32

  /** The five words of a hash value, or the five registers of a round. */
  datatype Hash = Hash(a: Word, b: Word, c: Word, d: Word, e: Word)

  const INITIAL := Hash(0x6745_2301, 0xefcd_ab89, 0x98ba_dcfe, 0x1032_5476, 0xc3d2_e1f0)

  // ----- sections 2.2.2, 4.1.1 and 4.2.1

  function Rotl1(x: Word): Word { (x << 1) | (x >> 31) }

  function Rotl5(x: Word): Word { (x << 5) | (x >> 27) }

  function Rotl30(x: Word): Word { (x << 30) | (x >> 2) }

  function Xor4(x: Word, y: Word, z: Word, w: Word): Word { x ^ y ^ z ^ w }

  function Ch(x: bv32, y: bv32, z: bv32): bv32 { (x & y) ^ (!x & z) }

  function Parity(x: bv32, y: bv32, z: bv32): bv32 { x ^ y ^ z }

  function Maj(x: bv32, y: bv32, z: bv32): bv32 { (x & y) ^ (x & z) ^ (y & z) }

  function F(t: nat, x: Word, y: Word, z: Word): Word {
    if t < 20 then Ch(x, y, z) else if t < 40 then Parity(x, y, z) else if t < 60 then Maj(x, y, z) else Parity(x, y, z)
  }

  function K(t: nat): Word {
    if t < 20 then 0x5a82_7999 else if t < 40 then 0x6ed9_eba1 else if t < 60 then 0x8f1b_bcdc else 0xca62_c1d6
  }

  function Add(x: Word, y: Word): Word { x + y }

  // ----- section 6.1.2

  /** A big-endian word of the block. */
  function GetBe(data: seq<Byte>, i: nat): Word
    requires i + 4 <= |data|
  {
    (WordOf(data[i]) << 24) | (WordOf(data[i + 1]) << 16) | (WordOf(data[i + 2]) << 8) | WordOf(data[i + 3])
  }

  /** Word `t` of the message schedule. */
  function W(data: seq<Byte>, t: nat): Word
    requires |data| == 64
  {
    if t < 16 then GetBe(data, 4 * t)
    else Rotl1(Xor4(W(data, t - 3), W(data, t - 8), W(data, t - 14), W(data, t - 16)))
  }

  lemma WStep(data: seq<Byte>, t: nat)
    requires |data| == 64 && t >= 16
    ensures W(data, t) == Rotl1(Xor4(W(data, t - 3), W(data, t - 8), W(data, t - 14), W(data, t - 16)))
  {
  }

  /** The new first register; the five summands stand in the order of the code. */
  function Temp(t: nat, h: Hash, w: Word): Word {
    Add(h.e, Add(Add(Add(Rotl5(h.a), F(t, h.b, h.c, h.d)), K(t)), w))
  }

  function Round(t: nat, h: Hash, w: Word): Hash {
    Hash(Temp(t, h, w), h.a, Rotl30(h.b), h.c, h.d)
  }

  /** The registers after `t` rounds. */
  function Rounds(h: Hash, data: seq<Byte>, t: nat): Hash
    requires |data| == 64
  {
    if t == 0 then h else Round(t - 1, Rounds(h, data, t - 1), W(data, t - 1))
  }

  function Plus(g: Hash, h: Hash): Hash {
    Hash(Add(g.a, h.a), Add(g.b, h.b), Add(g.c, h.c), Add(g.d, h.d), Add(g.e, h.e))
  }

  function Compress(h: Hash, data: seq<Byte>): Hash
    requires |data| == 64
  {
    Plus(h, Rounds(h, data, 80))
  }

  /** The hash value after the blocks of `s`. */
  function Blocks(h: Hash, s: seq<Byte>): Hash
    requires |s| % 64 == 0
    decreases |s|
  {
    if s == [] then h else Blocks(Compress(h, s[..64]), s[64..])
  }

  lemma {:induction false} BlocksAppend(h: Hash, s: seq<Byte>, t: seq<Byte>)
    requires |s| % 64 == 0 && |t| % 64 == 0
    ensures |s + t| % 64 == 0 && Blocks(h, s + t) == Blocks(Blocks(h, s), t)
    decreases |s|
  {
    hide Compress;
    if s == [] {
      assert s + t == t;
    } else {
      assert (s + t)[..64] == s[..64] && (s + t)[64..] == s[64..] + t;
      BlocksAppend(Compress(h, s[..64]), s[64..], t);
    }
  }

  // ----- section 5.1.1

  /** A number in `n` bytes, most significant first. */
  function BigEndian(v: nat, n: nat): (bs: seq<Byte>)
    ensures |bs| == n
  {
    if n == 0 then [] else BigEndian(v / 0x100, n - 1) + [v % 0x100]
  }

  function Pow256(n: nat): nat { if n == 0 then 1 else 0x100 * Pow256(n - 1) }

  lemma Above(v: nat, p: nat)
    ensures (v + 0x100 * p) / 0x100 == v / 0x100 + p && (v + 0x100 * p) % 0x100 == v % 0x100
  {
  }

  lemma PowerIs(n: nat)
    requires n > 0
    ensures Pow256(n) == 0x100 * Pow256(n - 1)
  {
  }

  lemma PowerUp(k: nat, n: nat)
    requires n > 0
    ensures k * Pow256(n) == 0x100 * (k * Pow256(n - 1))
  {
    hide Pow256;
    assert Pow256(n) == 0x100 * Pow256(n - 1) by { PowerIs(n); }
  }

  /** Only the low bytes count. */
  lemma {:induction false} BigEndianModulo(v: nat, k: nat, n: nat)
    ensures BigEndian(v + k * Pow256(n), n) == BigEndian(v, n)
    decreases n
  {
    hide Pow256;
    if n > 0 {
      PowerUp(k, n);
      Above(v, k * Pow256(n - 1));
      BigEndianModulo(v / 0x100, k, n - 1);
    }
  }

  /** `n` low bytes dropped. */
  function Drop256(v: nat, n: nat): nat { if n == 0 then v else Drop256(v / 0x100, n - 1) }

  lemma {:induction false} BigEndianSplits(v: nat, m: nat, n: nat)
    ensures BigEndian(v, m + n) == BigEndian(Drop256(v, n), m) + BigEndian(v, n)
    decreases n
  {
    if n == 0 {
      assert BigEndian(v, m) + BigEndian(v, 0) == BigEndian(v, m);
    } else {
      BigEndianSplits(v / 0x100, m, n - 1);
      assert m + n - 1 == m + (n - 1);
    }
  }

  /** The number of zero bytes between the end mark and the length: the one
      below 64 that fills the last block up to the length. */
  function PadZeros(n: nat): (k: nat)
    ensures (n + 1 + k) % 64 == 56
    ensures k < 64
  {
    (55 - n) % 64
  }

  /** End mark and zeros, and the length in bits. */
  function PadBytes(n: nat): (p: seq<Byte>)
    ensures |p| > 0 && (n + |p|) % 64 == 56
  {
    [0x80] + seq(PadZeros(n), _ => 0)
  }

  lemma PaddedLength(n: nat, p: nat)
    requires (n + p) % 64 == 56
    ensures (n + p + 8) % 64 == 0
  {
  }

  function Padded(msg: seq<Byte>): (p: seq<Byte>)
    ensures |p| % 64 == 0 && msg <= p
  {
    PaddedLength(|msg|, |PadBytes(|msg|)|);
    msg + PadBytes(|msg|) + BigEndian(8 * |msg|, 8)
  }

  function Digest(h: Hash): (bs: seq<Byte>)
    ensures |bs| == 20
  {
    PutBe(h.a) + PutBe(h.b) + PutBe(h.c) + PutBe(h.d) + PutBe(h.e)
  }

  /** The hash of a message. */
  function Sha1(msg: seq<Byte>): (bs: seq<Byte>)
    ensures |bs| == 20
  {
    Digest(Blocks(INITIAL, Padded(msg)))
  }

  // ----- the streaming context

  /** What counts of a context: the bytes seen so far, modulo 2^64, the hash
      value of the full blocks among them, and the bytes of the block begun. */
  datatype Live = Live(total: nat, state: Hash, pending: seq<Byte>)
  {
    predicate Valid() { |pending| == total % 64 && total < 0x1_0000_0000_0000_0000 }
  }

  const START := Live(0, INITIAL, [])

  /** The longest prefix of whole blocks. */
  function Whole(n: nat): (k: nat)
    ensures k <= n < k + 64 && k % 64 == 0
  {
    n / 64 * 64
  }

  /** The hash value of the whole blocks of `s`, and what is left of it. */
  function Absorb(h: Hash, s: seq<Byte>): (r: (Hash, seq<Byte>))
    ensures |r.1| == |s| % 64
  {
    var k := Whole(|s|);
    (Blocks(h, s[..k]), s[k..])
  }

  lemma AbsorbBlock(h: Hash, s: seq<Byte>)
    requires |s| >= 64
    ensures Absorb(h, s) == Absorb(Compress(h, s[..64]), s[64..])
  {
    hide Compress;
    var k := Whole(|s|);
    assert Whole(|s[64..]|) == k - 64;
    assert s[..k][..64] == s[..64] && s[..k][64..] == s[64..][..k - 64];
    assert s[64..][k - 64..] == s[k..];
  }

  lemma AbsorbLess(h: Hash, s: seq<Byte>)
    requires |s| < 64
    ensures Absorb(h, s) == (h, s)
  {
    assert Whole(|s|) == 0;
    assert s[0..] == s;
  }

  lemma PendingLength(total: nat, n: nat, p: nat)
    requires p == total % 64
    ensures (p + n) % 64 == (total + n) % 0x1_0000_0000_0000_0000 % 64
  {
  }

  /** The context after more input. */
  function Feed(c: Live, input: seq<Byte>): (l: Live)
    requires c.Valid()
    ensures l.Valid()
  {
    var r := Absorb(c.state, c.pending + input);
    PendingLength(c.total, |input|, |c.pending|);
    Live((c.total + |input|) % 0x1_0000_0000_0000_0000, r.0, r.1)
  }

  lemma TotalAdds(t: nat, a: nat, b: nat)
    ensures ((t + a) % 0x1_0000_0000_0000_0000 + b) % 0x1_0000_0000_0000_0000 == (t + (a + b)) % 0x1_0000_0000_0000_0000
  {
  }

  lemma WholeAppend(s: seq<Byte>, b: seq<Byte>)
    ensures var k := Whole(|s|); var r := s[k..] + b; var m := k + Whole(|r|);
            Whole(|s + b|) == m && (s + b)[..m] == s[..k] + r[..Whole(|r|)] && (s + b)[m..] == r[Whole(|r|)..]
  {
    var k := Whole(|s|);
    var r := s[k..] + b;
    assert s + b == s[..k] + r;
  }

  /** Splitting the input does not matter. */
  lemma FeedFeed(c: Live, a: seq<Byte>, b: seq<Byte>)
    requires c.Valid()
    ensures Feed(Feed(c, a), b) == Feed(c, a + b)
  {
    hide Blocks;
    var s := c.pending + a;
    var k := Whole(|s|);
    var r := s[k..] + b;
    assert c.pending + (a + b) == s + b;
    WholeAppend(s, b);
    BlocksAppend(c.state, s[..k], r[..Whole(|r|)]);
    TotalAdds(c.total, |a|, |b|);
  }

  function Concat(parts: seq<seq<Byte>>): seq<Byte> {
    if parts == [] then [] else parts[0] + Concat(parts[1..])
  }

  function FeedAll(c: Live, parts: seq<seq<Byte>>): (l: Live)
    requires c.Valid()
    ensures l.Valid()
    decreases |parts|
  {
    if parts == [] then c else FeedAll(Feed(c, parts[0]), parts[1..])
  }

  lemma FeedNothing(c: Live)
    requires c.Valid()
    ensures Feed(c, []) == c
  {
    assert c.pending + [] == c.pending;
  }

  /** Any number of calls leaves the context one call would leave. */
  lemma {:induction false} Streaming(c: Live, parts: seq<seq<Byte>>)
    requires c.Valid()
    ensures FeedAll(c, parts) == Feed(c, Concat(parts))
    decreases |parts|
  {
    hide Feed;
    if parts == [] {
      FeedNothing(c);
    } else {
      Streaming(Feed(c, parts[0]), parts[1..]);
      FeedFeed(c, parts[0], Concat(parts[1..]));
    }
  }

  lemma AbsorbWhole(h: Hash, s: seq<Byte>)
    requires |s| % 64 == 0
    ensures Absorb(h, s).0 == Blocks(h, s)
  {
    hide Blocks;
    assert Whole(|s|) == |s|;
    assert s[..|s|] == s;
  }

  lemma FeedWhole(s: seq<Byte>)
    requires |s| % 64 == 0
    ensures Feed(START, s).state == Blocks(INITIAL, s)
  {
    hide Absorb, Blocks;
    assert START.pending + s == s;
    AbsorbWhole(INITIAL, s);
  }

  /** Feeding padding and length to the context of a message hashes the padded
      message. */
  lemma FinishIsSha1(msg: seq<Byte>)
    ensures var l := Feed(Feed(Feed(START, msg), PadBytes(|msg|)), BigEndian(8 * |msg|, 8));
            Digest(l.state) == Sha1(msg)
  {
    hide Blocks, PadBytes, BigEndian, Digest, Feed;
    FeedFeed(START, msg, PadBytes(|msg|));
    FeedFeed(START, msg + PadBytes(|msg|), BigEndian(8 * |msg|, 8));
    FeedWhole(Padded(msg));
  }
}
