/** The control registers as numbers: which bit of BLTCON0 and BLTCON1 means
    what. */
module BlitFields {
  import opened Bits
  import opened Modulo
  import opened Numbers
  import opened BlitConfig
  import opened BlitRegisters

  /** The bit of a register that the mask, a power of two, tests. */
  predicate Flag(w: Word, mask: nat)
    requires mask > 0
  {
    Value(w) / mask % 2 == 1
  }

  lemma Halve(w: seq<bool>)
    requires w != []
    ensures Value(w) / 2 == Value(w[1..]) && (Value(w) % 2 == 1) == w[0]
  {
  }

  lemma Regroup(m: nat, q: nat)
    ensures 2 * m * q == 2 * (m * q)
  {
  }

  lemma DivideTwice(n: nat, m: nat)
    requires m > 0
    ensures n / (2 * m) == n / 2 / m
  {
    var q, s := n / 2 / m, n / 2 % m;
    Regroup(m, q);
    Remainder(n, 2 * m, q, 2 * s + n % 2);
  }

  /** Bit `i` of a word, and what is above it, by division. */
  lemma {:induction false} BitByDivision(w: seq<bool>, i: nat)
    requires i < |w|
    ensures Pow2(i) > 0 && Value(w) / Pow2(i) == Value(w[i..])
    ensures (Value(w) / Pow2(i) % 2 == 1) == w[i]
    decreases i
  {
    if i == 0 {
      assert w[0..] == w;
      Halve(w);
    } else {
      BitByDivision(w[1..], i - 1);
      Halve(w);
      assert w[1..][i - 1..] == w[i..];
      DivideTwice(Value(w), Pow2(i - 1));
    }
  }

  lemma PowerUp(i: nat)
    ensures i > 0 ==> Pow2(i) == 2 * Pow2(i - 1)
    ensures Pow2(0) == 1
  {
  }

  lemma FirstBit(w: seq<bool>)
    ensures Value([]) == 0
    ensures w != [] ==> Value(w) == (if w[0] then 1 else 0) + 2 * Value(w[1..])
  {
  }

  lemma {:induction false} LowByRemainder(w: seq<bool>, i: nat)
    requires i <= |w|
    ensures Value(w) == Value(w[..i]) + Pow2(i) * Value(w[i..])
    decreases i
  {
    hide Value, Pow2;
    PowerUp(i);
    FirstBit(w);
    FirstBit(w[..i]);
    if i == 0 {
      assert w[0..] == w && w[..0] == [];
    } else {
      LowByRemainder(w[1..], i - 1);
      assert w[1..][..i - 1] == w[..i][1..] && w[1..][i - 1..] == w[i..];
      Regroup(Pow2(i - 1), Value(w[i..]));
    }
  }

  lemma Powers()
    ensures Pow2(1) == 2 && Pow2(2) == 4 && Pow2(3) == 8 && Pow2(4) == 0x10 && Pow2(8) == 0x100 && Pow2(9) == 0x200
    ensures Pow2(10) == 0x400 && Pow2(11) == 0x800 && Pow2(12) == 0x1000
  {
    assert Pow2(6) == 0x40;
    assert Pow2(8) == 0x100;
    assert Pow2(10) == 0x400;
  }

  lemma FlagIs(w: Word, i: nat)
    requires i < 16
    ensures Pow2(i) > 0 && Flag(w, Pow2(i)) == w[i]
  {
    BitByDivision(w, i);
  }

  lemma LowByte(w: Word)
    ensures Value(w[..8]) == Value(w) % 0x100
  {
    hide Value, Pow2;
    LowByRemainder(w, 8);
    ValueBound(w[..8]);
    Powers();
    Remainder(Value(w), 0x100, Value(w[8..]), Value(w[..8]));
  }

  lemma MinTermIs(r: Registers)
    ensures r.MinTerm() == Value(r.con0) % 0x100
  {
    LowByte(r.con0);
  }

  lemma ShiftIs(w: Word)
    ensures Registers.Shift(w) == Value(w) / 0x1000
  {
    BitByDivision(w, 12);
    Powers();
  }

  /** blit_bltset: the enables, the direction, the fill mode and the carry, the
      minterm byte and the two shifts. */
  lemma FieldsAre(r: Registers)
    requires |r.table| == 1024
    ensures var c := Configure(r);
            && c.useA == Flag(r.con0, 0x800) && c.useB == Flag(r.con0, 0x400)
            && c.useC == Flag(r.con0, 0x200) && c.useD == Flag(r.con0, 0x100)
            && c.desc == r.Desc() == Flag(r.con1, 2) && c.fillCarry == Flag(r.con1, 4)
            && c.fillMode == (Flag(r.con1, 8) || Flag(r.con1, 0x10))
            && r.Inclusive() == (Flag(r.con1, 8) && !Flag(r.con1, 0x10))
    ensures r.MinTerm() == Value(r.con0) % 0x100
    ensures Registers.Shift(r.con0) == Value(r.con0) / 0x1000 && Registers.Shift(r.con1) == Value(r.con1) / 0x1000
  {
    hide Flag, Registers.MinTerm, Registers.Shift, Pow2;
    Powers();
    FlagIs(r.con0, 8);
    FlagIs(r.con0, 9);
    FlagIs(r.con0, 10);
    FlagIs(r.con0, 11);
    FlagIs(r.con1, 1);
    FlagIs(r.con1, 2);
    FlagIs(r.con1, 3);
    FlagIs(r.con1, 4);
    assert r.MinTerm() == Value(r.con0) % 0x100 by { MinTermIs(r); }
    ShiftIs(r.con0);
    ShiftIs(r.con1);
  }
}
