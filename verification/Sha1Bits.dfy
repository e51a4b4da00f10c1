/** What the constants and functions of SHA-1 are: the round constants as square
    roots, the rotations and the logical functions bit by bit. */
module Sha1Bits {
  import opened Words32
  import opened Sha1Spec

  /** The constants are the square roots of 2, 3, 5 and 10, cut off behind 30
      binary places. */
  lemma KIsRoot(t: nat)
    requires t < 80
    ensures var n := if t < 20 then 2 else if t < 40 then 3 else if t < 60 then 5 else 10;
            var k := K(t) as int;
            k * k <= n * 0x1000_0000_0000_0000 < (k + 1) * (k + 1)
  {
  }

  /** Bit `i` of a word, from the low end. */
  predicate Bit(x: Word, i: bv6)
    requires i < 32
  {
    (x >> i) & 1 == 1
  }

  /** A rotation by n moves bit i to bit i + n modulo 32. */
  lemma RotlBits(x: Word, i: bv6)
    requires i < 32
    ensures Bit(Rotl1(x), (i + 1) & 31) == Bit(x, i)
    ensures Bit(Rotl5(x), (i + 5) & 31) == Bit(x, i)
    ensures Bit(Rotl30(x), (i + 30) & 31) == Bit(x, i)
  {
  }

  function And(x: Word, y: Word): Word { x & y }

  function Xor(x: Word, y: Word): Word { x ^ y }

  function Not(x: Word): Word { !x }

  lemma AndBit(x: Word, y: Word, i: bv6)
    requires i < 32
    ensures Bit(And(x, y), i) == (Bit(x, i) && Bit(y, i))
  {
  }

  lemma XorBit(x: Word, y: Word, i: bv6)
    requires i < 32
    ensures Bit(x ^ y, i) == (Bit(x, i) != Bit(y, i))
  {
  }

  lemma NotBit(x: Word, i: bv6)
    requires i < 32
    ensures Bit(Not(x), i) == !Bit(x, i)
  {
  }

  lemma ChIs(x: Word, y: Word, z: Word)
    ensures Ch(x, y, z) == Xor(And(x, y), And(Not(x), z))
  {
  }

  lemma MajIs(x: Word, y: Word, z: Word)
    ensures Maj(x, y, z) == Parity(And(x, y), And(x, z), And(y, z))
  {
  }

  lemma XorIs(x: Word, y: Word, i: bv6)
    requires i < 32
    ensures Bit(Xor(x, y), i) == (Bit(x, i) != Bit(y, i))
  {
    hide Bit;
    XorBit(x, y, i);
  }

  /** Ch chooses the second or the third by the first. */
  lemma ChBits(x: Word, y: Word, z: Word, i: bv6)
    requires i < 32
    ensures Bit(Ch(x, y, z), i) == if Bit(x, i) then Bit(y, i) else Bit(z, i)
  {
    hide Bit, And, Xor, Not, Ch;
    ChIs(x, y, z);
    AndBit(x, y, i);
    NotBit(x, i);
    AndBit(Not(x), z, i);
    XorIs(And(x, y), And(Not(x), z), i);
  }

  /** Parity is set for an odd number of set bits. */
  lemma ParityBits(x: Word, y: Word, z: Word, i: bv6)
    requires i < 32
    ensures Bit(Parity(x, y, z), i) == ((Bit(x, i) != Bit(y, i)) != Bit(z, i))
  {
    hide Bit;
    XorBit(x, y, i);
    XorBit(x ^ y, z, i);
  }

  /** Maj goes with at least two of three. */
  lemma MajBits(x: Word, y: Word, z: Word, i: bv6)
    requires i < 32
    ensures Bit(Maj(x, y, z), i)
         == ((Bit(x, i) && Bit(y, i)) || (Bit(x, i) && Bit(z, i)) || (Bit(y, i) && Bit(z, i)))
  {
    hide Bit, And, Maj, Parity;
    MajIs(x, y, z);
    AndBit(x, y, i);
    AndBit(x, z, i);
    AndBit(y, z, i);
    ParityBits(And(x, y), And(x, z), And(y, z), i);
  }

  /** Which function and which constant a round takes: Ch, Parity, Maj and
      Parity again, twenty rounds each. */
  lemma FBits(t: nat, x: Word, y: Word, z: Word, i: bv6)
    requires t < 80 && i < 32
    ensures var a, b, c := Bit(x, i), Bit(y, i), Bit(z, i);
            Bit(F(t, x, y, z), i)
            == if t < 20 then (if a then b else c)
               else if 40 <= t < 60 then (a && b) || (a && c) || (b && c)
               else (a != b) != c
  {
    hide Bit, Ch, Parity, Maj;
    ChBits(x, y, z, i);
    ParityBits(x, y, z, i);
    MajBits(x, y, z, i);
  }
}
