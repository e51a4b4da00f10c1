/** The SHA-1 of crc32.cpp: a streaming context, a schedule that rolls through
    16 words in place, and rounds that rename registers instead of moving them. */
module Sha1 {
  import opened XorNat
  import opened Words32
  import opened Sha1Spec

  // ----- the macros

  /** F for each group of twenty rounds. */
  function MacroF(t: nat, x: Word, y: Word, z: Word): Word {
    if t < 20 then z ^ (x & (y ^ z))
    else if t < 40 then x ^ y ^ z
    else if t < 60 then (x & y) | (z & (x | y))
    else x ^ y ^ z
  }

  /** What P adds to its fifth register. */
  function Addend(t: nat, a: Word, b: Word, c: Word, d: Word, x: Word): Word {
    Add(Add(Add(Rotl5(a), MacroF(t, b, c, d)), K(t)), x)
  }

  lemma Choose(x: Word, y: Word, z: Word)
    ensures z ^ (x & (y ^ z)) == Ch(x, y, z)
  {
  }

  lemma Majority(x: Word, y: Word, z: Word)
    ensures (x & y) | (z & (x | y)) == Maj(x, y, z)
  {
  }

  lemma MacroFIsF(t: nat, x: Word, y: Word, z: Word)
    ensures MacroF(t, x, y, z) == F(t, x, y, z)
  {
    Choose(x, y, z);
    Majority(x, y, z);
  }

  /** P computes the new first register of a round. */
  lemma AddendIsTemp(t: nat, h: Hash, x: Word)
    ensures Add(h.e, Addend(t, h.a, h.b, h.c, h.d, x)) == Temp(t, h, x)
  {
    hide MacroF, F, K, Rotl5, Add;
    MacroFIsF(t, h.b, h.c, h.d);
  }

  // ----- the rolling schedule

  /** The last schedule index below `t` that word `k` of the window stands for. */
  function Latest(t: nat, k: nat): (i: nat)
    requires k < 16
  {
    if t <= 16 then k else k + 16 * ((t - 1 - k) / 16)
  }

  lemma LatestBack(t: nat, d: nat)
    requires t >= 16 && 1 <= d <= 16
    ensures Latest(t, (t - d) % 16) == t - d
  {
    var q, r := (t - d) / 16, (t - d) % 16;
    assert t - 1 - r == 16 * q + (d - 1);
  }

  lemma LatestNext(t: nat, k: nat)
    requires k < 16 && t >= 16
    ensures Latest(t + 1, k) == if k == t % 16 then t else Latest(t, k)
  {
    var q, r := t / 16, t % 16;
    if k <= r {
      assert t - k == 16 * q + (r - k);
    } else {
      assert t - k == 16 * (q - 1) + (16 + r - k);
    }
  }

  /** The 16 words hold the part of the 80-word schedule that is still needed
      at round `t`. */
  ghost predicate Rolling(w: seq<Word>, data: seq<Byte>, t: nat)
    requires |data| == 64
  {
    |w| == 16 && forall k | 0 <= k < 16 :: w[k] == W(data, Latest(t, k))
  }

  lemma LatestStart(t: nat, k: nat)
    requires k < 16 && t < 16
    ensures Latest(t, k) == Latest(t + 1, k) == k
  {
  }

  /** Replacing the oldest word rolls the window on. */
  lemma RollOn(data: seq<Byte>, w: seq<Word>, t: nat)
    requires |data| == 64 && Rolling(w, data, t)
    ensures Rolling(if t < 16 then w else w[t % 16 := W(data, t)], data, t + 1)
  {
    hide Latest, W;
    var v := if t < 16 then w else w[t % 16 := W(data, t)];
    forall k | 0 <= k < 16
      ensures v[k] == W(data, Latest(t + 1, k))
    {
      if t < 16 {
        LatestStart(t, k);
      } else {
        LatestNext(t, k);
      }
    }
  }

  /** R(t), or the word itself in the first 16 rounds. */
  method NextWord(w: array<Word>, ghost data: seq<Byte>, t: nat) returns (x: Word)
    requires |data| == 64 && Rolling(w[..], data, t)
    modifies w
    ensures x == W(data, t) && Rolling(w[..], data, t + 1)
  {
    hide Latest, W, Rotl1, Xor4;
    ghost var old_ := w[..];
    if t < 16 {
      LatestStart(t, t);
      x := w[t];
    } else {
      LatestBack(t, 3);
      LatestBack(t, 8);
      LatestBack(t, 14);
      LatestBack(t, 16);
      assert (t - 16) % 16 == t % 16;
      WStep(data, t);
      x := Rotl1(Xor4(w[(t - 3) % 16], w[(t - 8) % 16], w[(t - 14) % 16], w[t % 16]));
      w[t % 16] := x;
    }
    RollOn(data, old_, t);
    assert w[..] == if t < 16 then old_ else old_[t % 16 := x];
  }

  // ----- a block

  /** P(a, b, c, d, e, x): one round, in registers that trade names. */
  method P(a: Word, b: Word, c: Word, d: Word, e: Word, t: nat, w: array<Word>, ghost data: seq<Byte>)
    returns (b': Word, e': Word)
    requires |data| == 64 && Rolling(w[..], data, t)
    modifies w
    ensures Rolling(w[..], data, t + 1)
    ensures Hash(e', a, b', c, d) == Round(t, Hash(a, b, c, d, e), W(data, t))
  {
    hide Rolling, W, Addend, Temp, Rotl30, Add;
    var x := NextWord(w, data, t);
    AddendIsTemp(t, Hash(a, b, c, d, e), x);
    e' := Add(e, Addend(t, a, b, c, d, x));
    b' := Rotl30(b);
  }

  /** Five rounds bring the names back to where they were. */
  method FiveRounds(h: Hash, t: nat, w: array<Word>, ghost start: Hash, ghost data: seq<Byte>) returns (r: Hash)
    requires |data| == 64 && Rolling(w[..], data, t) && h == Rounds(start, data, t)
    modifies w
    ensures Rolling(w[..], data, t + 5) && r == Rounds(start, data, t + 5)
  {
    hide Rolling, W, Round;
    var A, B, C, D, E := h.a, h.b, h.c, h.d, h.e;
    B, E := P(A, B, C, D, E, t, w, data);
    assert Hash(E, A, B, C, D) == Rounds(start, data, t + 1);
    A, D := P(E, A, B, C, D, t + 1, w, data);
    assert Hash(D, E, A, B, C) == Rounds(start, data, t + 2);
    E, C := P(D, E, A, B, C, t + 2, w, data);
    assert Hash(C, D, E, A, B) == Rounds(start, data, t + 3);
    D, B := P(C, D, E, A, B, t + 3, w, data);
    assert Hash(B, C, D, E, A) == Rounds(start, data, t + 4);
    C, A := P(B, C, D, E, A, t + 4, w, data);
    r := Hash(A, B, C, D, E);
  }

  lemma RoundsStart(state: Hash, data: seq<Byte>)
    requires |data| == 64
    ensures Rounds(state, data, 0) == state
  {
  }

  lemma Loaded(w: seq<Word>, data: seq<Byte>)
    requires |data| == 64 && |w| == 16 && forall k | 0 <= k < 16 :: w[k] == GetBe(data, 4 * k)
    ensures Rolling(w, data, 0)
  {
    hide GetBe;
  }

  /** sha1_process: a block of 64 bytes enters the hash value. */
  method Process(state: Hash, data: seq<Byte>) returns (r: Hash)
    requires |data| == 64
    ensures r == Compress(state, data)
  {
    hide GetBe, Rounds, Add, Rolling;
    var w := new Word[16](k requires 0 <= k < 16 => GetBe(data, 4 * k));
    Loaded(w[..], data);
    assert Rounds(state, data, 0) == state by { RoundsStart(state, data); }
    var h := state;
    for g := 0 to 16
      invariant Rolling(w[..], data, 5 * g)
      invariant h == Rounds(state, data, 5 * g)
    {
      h := FiveRounds(h, 5 * g, w, state, data);
    }
    r := Plus(state, h);
  }

  // ----- the context

  /** The machine's int. */
  type CInt = n: int | -0x8000_0000 <= n < 0x8000_0000

  const TWO32 := 0x1_0000_0000

  /** sha1_padding */
  function Padding(): (p: seq<Byte>)
    ensures |p| == 64
  {
    [0x80] + seq(63, _ => 0)
  }

  /** PUT_UINT32_BE of a length word. */
  function PutLength(n: nat): (bs: seq<Byte>)
    ensures |bs| == 4
  {
    [n / 0x100_0000 % 0x100, n / 0x1_0000 % 0x100, n / 0x100 % 0x100, n % 0x100]
  }

  lemma PaddingIsPad(n: nat, padn: nat)
    requires padn == if n % 64 < 56 then 56 - n % 64 else 120 - n % 64
    ensures padn <= 64 && Padding()[..padn] == PadBytes(n)
  {
  }

  lemma PutLengthIsBigEndian(n: nat)
    ensures PutLength(n) == BigEndian(n, 4)
  {
    var a, b, c := n / 0x100, n / 0x100 / 0x100, n / 0x100 / 0x100 / 0x100;
    assert BigEndian(c, 1) == [c % 0x100] by { assert BigEndian(c / 0x100, 0) == []; }
    assert BigEndian(b, 2) == [c % 0x100, b % 0x100];
    assert BigEndian(a, 3) == [c % 0x100, b % 0x100, a % 0x100];
  }

  lemma BitsSplit(total0: nat, total1: nat)
    requires total0 < TWO32
    ensures 8 * (total1 * TWO32 + total0)
         == TWO32 * (total0 / 0x2000_0000 + total1 * 8) + total0 * 8 % TWO32
  {
  }

  /** Four bytes do not see what lies above them. */
  lemma FourBytes(v: nat, k: nat)
    ensures BigEndian(v + TWO32 * k, 4) == BigEndian(v, 4)
  {
    hide BigEndian;
    assert Pow256(4) == TWO32 by { assert Pow256(2) == 0x1_0000; }
    BigEndianModulo(v, k, 4);
  }

  lemma DropFour(v: nat, h: nat, l: nat)
    requires v == TWO32 * h + l && l < TWO32
    ensures Drop256(v, 4) == h
  {
    var a, b, c := v / 0x100, v / 0x1_0000, v / 0x100_0000;
    assert a / 0x100 == b && b / 0x100 == c && c / 0x100 == h;
    assert Drop256(c, 1) == h by { assert Drop256(h, 0) == h; }
    assert Drop256(b, 2) == h && Drop256(a, 3) == h;
  }

  /** The two length words are the 64-bit number of bits. */
  lemma LengthInBits(total0: nat, total1: nat)
    requires total0 < TWO32 && total1 < TWO32
    ensures PutLength((total0 / 0x2000_0000 + total1 * 8) % TWO32) + PutLength(total0 * 8 % TWO32)
         == BigEndian(8 * (total1 * TWO32 + total0), 8)
  {
    hide BigEndian, PutLength, Drop256;
    var v := 8 * (total1 * TWO32 + total0);
    var h, l := total0 / 0x2000_0000 + total1 * 8, total0 * 8 % TWO32;
    BitsSplit(total0, total1);
    PutLengthIsBigEndian(h % TWO32);
    PutLengthIsBigEndian(l);
    BigEndianSplits(v, 4, 4);
    DropFour(v, h, l);
    FourBytes(h % TWO32, h / TWO32);
    FourBytes(l, h);
    assert h == h % TWO32 + TWO32 * (h / TWO32);
  }

  lemma LowBits(total0: nat, total1: nat)
    ensures (total1 * TWO32 + total0) % 64 == total0 % 64
  {
    assert total1 * TWO32 + total0 == 64 * (total1 * 0x400_0000) + total0;
  }

  /** The carry between the words of a byte count shows as a small low word. */
  lemma Carried(low: nat, high: nat, n: nat)
    requires low < TWO32 && high < TWO32 && n < TWO32
    ensures var l := (low + n) % TWO32; var h := if l < n then (high + 1) % TWO32 else high;
            h * TWO32 + l == (high * TWO32 + low + n) % 0x1_0000_0000_0000_0000
  {
    var l := (low + n) % TWO32;
    if low + n < TWO32 {
      assert l == low + n;
    } else {
      assert l == low + n - TWO32;
    }
  }

  class Context {
    var total0: nat
    var total1: nat
    var state: Hash
    const buffer: array<Byte>

    ghost predicate Valid()
      reads this, buffer
    {
      buffer.Length == 64 && total0 < TWO32 && total1 < TWO32
    }

    /** What counts of the context: the buffer only as far as it is filled. */
    ghost function Contents(): (c: Live)
      requires Valid()
      reads this, buffer
      ensures c.Valid()
    {
      Live(total1 * TWO32 + total0, state, buffer[..total0 % 64])
    }

    /** sha1_starts */
    constructor ()
      ensures Valid() && fresh(buffer) && Contents() == START
    {
      total0, total1 := 0, 0;
      state := INITIAL;
      buffer := new Byte[64](_ => 0);
    }

    /** The count of bytes in two words. */
    method Count(ilen: CInt)
      requires Valid() && ilen > 0
      modifies this`total0, this`total1
      ensures Valid()
      ensures total1 * TWO32 + total0 == (old(total1) * TWO32 + old(total0) + ilen) % 0x1_0000_0000_0000_0000
    {
      Carried(total0, total1, ilen);
      total0 := (total0 + ilen) % TWO32;
      if total0 < ilen {
        total1 := (total1 + 1) % TWO32;
      }
    }

    method CopyIn(at: nat, input: seq<Byte>)
      requires Valid() && at + |input| <= 64
      modifies buffer
      ensures buffer[..at + |input|] == old(buffer[..at]) + input
    {
      forall k | 0 <= k < |input| {
        buffer[at + k] := input[k];
      }
    }

    /** The bytes of sha1_update, once they are counted: `left` bytes of a block
        are already there. */
    method Take(left0: nat, input: seq<Byte>) returns (ghost rest: nat)
      requires Valid() && left0 < 64
      modifies this`state, buffer
      ensures rest < 64
      ensures (state, buffer[..rest]) == Absorb(old(state), old(buffer[..left0]) + input)
    {
      hide Absorb, Compress;
      var left := left0;
      var fill := 64 - left;
      var k, ilen := 0, |input|;
      ghost var target := Absorb(state, buffer[..left] + input);
      if left > 0 && ilen >= fill {
        AbsorbBlock(state, buffer[..left] + input);
        CopyIn(left, input[..fill]);
        assert buffer[..] == (old(buffer[..left0]) + input)[..64];
        assert (old(buffer[..left0]) + input)[64..] == input[fill..];
        state := Process(state, buffer[..]);
        k := fill;
        left := 0;
      }
      assert buffer[..left] + input[k..] == if k > 0 then input[k..] else buffer[..left] + input;
      while ilen - k >= 64
        invariant 0 <= k <= ilen && left < 64 && (left > 0 ==> left + (ilen - k) < 64)
        invariant left <= left0 && (left > 0 ==> buffer[..left] == old(buffer[..left0]) && k == 0)
        invariant Absorb(state, buffer[..left] + input[k..]) == target
      {
        assert buffer[..left] + input[k..] == input[k..];
        AbsorbBlock(state, input[k..]);
        assert input[k..][..64] == input[k..k + 64] && input[k..][64..] == input[k + 64..];
        state := Process(state, input[k..k + 64]);
        k := k + 64;
        assert buffer[..left] + input[k..] == input[k..];
      }
      rest := left + (ilen - k);
      AbsorbLess(state, buffer[..left] + input[k..]);
      assert target == (state, buffer[..left] + input[k..]);
      if ilen - k > 0 {
        CopyIn(left, input[k..]);
      } else {
        assert buffer[..left] + input[k..] == buffer[..rest];
      }
    }

    /** sha1_update: fill the block begun, take whole blocks from the input,
        keep the rest. */
    method Update(input: seq<Byte>, ilen: CInt)
      requires Valid() && ilen <= |input|
      modifies this`total0, this`total1, this`state, buffer
      ensures Valid()
      ensures Contents() == if ilen <= 0 then old(Contents()) else Feed(old(Contents()), input[..ilen])
    {
      hide Absorb, Compress;
      if ilen <= 0 {
        return;
      }
      var left := total0 % 64;
      Count(ilen);
      ghost var rest := Take(left, input[..ilen]);
      LowBits(total0, total1);
    }

    /** sha1_finish */
    method Finish() returns (output: seq<Byte>)
      requires Valid()
      modifies this`total0, this`total1, this`state, buffer
      ensures Valid()
      ensures var c := old(Contents());
              output == Digest(Feed(Feed(c, PadBytes(c.total)), BigEndian(8 * c.total, 8)).state)
    {
      hide Feed, BigEndian, PadBytes, PutBe;
      // `|` of two numbers without a common bit
      var high := (total0 / 0x2000_0000 + total1 * 8) % TWO32;
      var low := total0 * 8 % TWO32;
      var msglen := PutLength(high) + PutLength(low);
      LengthInBits(total0, total1);
      LowBits(total0, total1);
      var last := total0 % 64;
      var padn := if last < 56 then 56 - last else 120 - last;
      PaddingIsPad(total1 * TWO32 + total0, padn);
      Update(Padding(), padn);
      Update(msglen, 8);
      assert msglen[..8] == msglen;
      output := PutBe(state.a) + PutBe(state.b) + PutBe(state.c) + PutBe(state.d) + PutBe(state.e);
    }
  }

  lemma TotalOf(msg: seq<Byte>)
    requires |msg| < 0x1_0000_0000_0000_0000
    ensures Feed(START, msg).total == |msg|
  {
    hide Absorb;
  }

  /** get_sha1: the hash of the message, for every length. */
  method GetSha1(input: seq<Byte>, len: CInt) returns (out: seq<Byte>)
    requires len <= |input|
    ensures out == Sha1(input[..if len < 0 then 0 else len])
  {
    hide Feed, BigEndian, PadBytes, Sha1Spec.Sha1, Digest;
    ghost var msg := input[..if len < 0 then 0 else len];
    var ctx := new Context();
    ctx.Update(input, len);
    FeedNothing(START);
    assert ctx.Contents() == Feed(START, msg);
    TotalOf(msg);
    out := ctx.Finish();
    FinishIsSha1(msg);
  }
}
