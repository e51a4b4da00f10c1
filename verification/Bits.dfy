/** Machine words as their bits, lowest first.  The blitter never adds data
    words, so every operation on them is a plain bit operation. */
module Bits {
  import opened Numbers

  function Zeros(n: nat): (z: seq<bool>)
    ensures |z| == n && forall i :: 0 <= i < n ==> !z[i]
  {
    seq(n, i => false)
  }

  type Word = w: seq<bool> | |w| == 16 witness Zeros(16)
  type Long = w: seq<bool> | |w| == 32 witness Zeros(32)

  const ZERO: Word := Zeros(16)

  /** Truncation to 16 bits. */
  function Low(x: Long): Word { x[..16] }

  function Widen(x: Word): Long { x + ZERO }

  function Join(hi: Word, lo: Word): Long { lo + hi }

  function ShiftRight(x: Long, n: nat): Long
    requires n <= 32
  {
    x[n..] + Zeros(n)
  }

  function Mask(x: Word, m: Word): Word {
    seq(16, i requires 0 <= i < 16 => x[i] && m[i])
  }

  function Ones(n: nat): (z: seq<bool>)
    ensures |z| == n && forall i :: 0 <= i < n ==> z[i]
  {
    seq(n, i => true)
  }

  const ONES: Word := Ones(16)

  /** Numbers as bits and back. */
  function BitsOf(n: nat, len: nat): (b: seq<bool>)
    ensures |b| == len
  {
    if len == 0 then [] else [n % 2 == 1] + BitsOf(n / 2, len - 1)
  }

  function Value(b: seq<bool>): nat {
    if b == [] then 0 else (if b[0] then 1 else 0) + 2 * Value(b[1..])
  }

  lemma {:induction false} ValueBound(b: seq<bool>)
    ensures Value(b) < Pow2(|b|)
  {
    if b != [] {
      ValueBound(b[1..]);
    }
  }

  lemma {:induction false} BitsOfValue(b: seq<bool>)
    ensures BitsOf(Value(b), |b|) == b
  {
    if b != [] {
      BitsOfValue(b[1..]);
      assert Value(b) / 2 == Value(b[1..]);
    }
  }
}
