/** A block blit as a programmer sets it up: every bit of every word it writes,
    from the numbers in the control registers, and the memory it leaves. */
module BlitBits {
  import opened ChipMemory
  import opened Bits
  import opened BlitConfig
  import opened BlitFunc
  import opened BlitRegisters
  import opened BlitFields
  import opened BlitExact
  import opened BlitRefine
  import opened BlitChannels
  import opened BlitResult
  import opened BlitRowCarry
  import Fill = BlitFill

  // ----- where the words lie

  /** The address of the word in row `j`, column `i` of a rectangle that starts
      at `p`, with modulo `mod`: upwards, or downwards with BLTCON1 bit 1. */
  function Place(r: Registers, p: nat, mod: int, j: nat, i: nat): nat {
    var n := j * (2 * r.hsize + mod) + 2 * i;
    (if Flag(r.con1, 2) then p - n else p + n) % 0x1_0000_0000
  }

  function CellAt(r: Registers, p: nat, mod: int, j: nat, i: nat): nat
    requires r.span > 0
  {
    Place(r, p, mod, j, i) % r.span / 2
  }

  /** The word there. */
  function Lying(r: Registers, d: Data, p: nat, mod: int, j: nat, i: nat): Word
    requires r.span > 0
  {
    var x := CellAt(r, p, mod, j, i);
    if x < |d.mem| then d.mem[x] else ZERO
  }

  lemma PlaceIs(c: Config, desc: bool, hsize: nat, p: nat, mod: int, j: nat, i: nat)
    requires c.desc == desc && c.hsize == hsize
    ensures var n := j * (2 * hsize + mod) + 2 * i;
            At(c, p, mod, j, i) == (if desc then p - n else p + n) % 0x1_0000_0000
  {
    var m := 2 * hsize + mod;
    if desc {
      assert hsize * c.Stride() + c.Signed(mod) == -m;
      assert j * -m == -(j * m);
    } else {
      assert hsize * c.Stride() + c.Signed(mod) == m;
    }
  }

  lemma SizesAre(r: Registers)
    requires |r.table| == 1024
    ensures var c := Configure(r); c.hsize == r.hsize && c.vsize == r.vsize && c.span == r.span
    ensures var c := Configure(r); c.amod == r.amod && c.bmod == r.bmod && c.cmod == r.cmod && c.dmod == r.dmod
    ensures Configure(r).path == PathOf(r)
  {
  }

  lemma AtIs(r: Registers, p: nat, mod: int, j: nat, i: nat)
    requires r.Valid()
    ensures At(Configure(r), p, mod, j, i) == Place(r, p, mod, j, i)
  {
    hide Configure, At, Flag;
    FieldsAre(r);
    SizesAre(r);
    PlaceIs(Configure(r), Flag(r.con1, 2), r.hsize, p, mod, j, i);
  }

  // ----- the bits

  function AWord(r: Registers, d: Data, j: nat, i: nat): Word
    requires r.span > 0
  {
    if Flag(r.con0, 0x800) then Lying(r, d, d.src.apt, r.amod, j, i) else d.src.adat
  }

  function BWord(r: Registers, d: Data, j: nat, i: nat): Word
    requires r.span > 0
  {
    Lying(r, d, d.src.bpt, r.bmod, j, i)
  }

  function CWord(r: Registers, d: Data, j: nat, i: nat): Word
    requires r.span > 0
  {
    if Flag(r.con0, 0x200) then Lying(r, d, d.src.cpt, r.cmod, j, i) else d.src.cdat
  }

  /** Bit `k` of an A word behind the masks of its column. */
  predicate MaskedA(r: Registers, d: Data, j: nat, i: nat, k: nat)
    requires r.span > 0 && k < 16
  {
    AWord(r, d, j, i)[k] && (i == 0 ==> r.afwm[k]) && (i + 1 == r.hsize ==> r.alwm[k])
  }

  /** The position before row `j`, column `i`. */
  function RowBefore(j: nat, i: nat): int { if i > 0 then j else j - 1 }

  function ColumnBefore(r: Registers, i: nat): int { if i > 0 then i - 1 else r.hsize - 1 }

  /** Bit `k` behind the A shifter: the shift moves bits down, in a descending
      blit up, and the word before supplies those that are missing. */
  predicate ABit(r: Registers, d: Data, j: nat, i: nat, k: nat)
    requires r.span > 0 && r.hsize > 0 && k < 16
  {
    var n := Value(r.con0) / 0x1000;
    var h := if Flag(r.con1, 2) then k - n else k + n;
    if 0 <= h < 16 then MaskedA(r, d, j, i, h)
    else if RowBefore(j, i) < 0 then false
    else MaskedA(r, d, RowBefore(j, i), ColumnBefore(r, i), h % 16)
  }

  /** Bit `k` behind the B shifter, or without B the register that holds one. */
  predicate BBit(r: Registers, d: Data, j: nat, i: nat, k: nat)
    requires r.span > 0 && r.hsize > 0 && k < 16
  {
    var n := Value(r.con1) / 0x1000;
    var h := if Flag(r.con1, 2) then k - n else k + n;
    if !Flag(r.con0, 0x400) then d.src.bhold[k]
    else if 0 <= h < 16 then BWord(r, d, j, i)[h]
    else if RowBefore(j, i) < 0 then false
    else BWord(r, d, RowBefore(j, i), ColumnBefore(r, i))[h % 16]
  }

  /** Bit `k` before the fill: the bit of the minterm byte that A, B and C
      select. */
  predicate RawBit(r: Registers, d: Data, j: nat, i: nat, k: nat)
    requires r.span > 0 && r.hsize > 0 && k < 16
  {
    Selected(Value(r.con0) % 0x100, ABit(r, d, j, i, k), BBit(r, d, j, i, k), CWord(r, d, j, i)[k])
  }

  lemma SourceIs(r: Registers, d: Data, j: nat, i: nat)
    requires r.Valid()
    ensures var c := Configure(r);
            && SourceWord(c, d, A, j, i) == AWord(r, d, j, i) && SourceWord(c, d, C, j, i) == CWord(r, d, j, i)
            && (c.useB ==> SourceWord(c, d, B, j, i) == BWord(r, d, j, i))
  {
    hide Configure, At, Place, Flag;
    FieldsAre(r);
    SizesAre(r);
    AtIs(r, d.src.apt, r.amod, j, i);
    AtIs(r, d.src.bpt, r.bmod, j, i);
    AtIs(r, d.src.cpt, r.cmod, j, i);
  }

  lemma MaskedIs(r: Registers, d: Data, j: nat, i: nat, k: nat)
    requires r.Valid() && k < 16
    ensures Masked(Configure(r), d, j, i)[k] == MaskedA(r, d, j, i, k)
  {
    hide Configure, SourceWord, AWord, ColumnMask;
    SourceIs(r, d, j, i);
    SizesAre(r);
    MaskAt(r, i, AWord(r, d, j, i), k);
  }

  lemma LogicAt(r: Registers, a: Long, b: Long, w: Word, k: nat)
    requires |r.table| == 1024 && k < 16
    ensures PathOf(r).logic(a, b, w)[k] == Selected(Value(r.con0) % 0x100, a[k], b[k], w[k])
  {
    hide FuncBit, Selected, Value, Registers.MinTerm;
    MinTermByte(r);
    MinTermIs(r);
    FuncBitSelects(a[k], b[k], w[k], r.MinTerm());
  }

  lemma StreamIs(desc: bool, n: nat, prev: Word, cur: Word, k: nat)
    requires n < 16 && k < 16
    ensures var h := if desc then k - n else k + n;
            StreamBit(desc, n, prev, cur, k) == if 0 <= h < 16 then cur[h] else prev[h % 16]
  {
  }

  lemma ShiftedA(r: Registers, d: Data, j: nat, i: nat, k: nat)
    requires r.Valid() && k < 16
    ensures var c := Configure(r);
            c.path.shiftA(Previous(c, d, j, i), Masked(c, d, j, i))[k] == ABit(r, d, j, i, k)
  {
    hide Configure, Masked, MaskedA, Barrel, Flag, StreamBit, Value, Registers.Shift;
    SizesAre(r);
    FieldsAre(r);
    var c := Configure(r);
    var n := Registers.Shift(r.con0);
    var prev, cur := Previous(c, d, j, i), Masked(c, d, j, i);
    BarrelAt(r.Desc(), n, prev, cur, k);
    StreamIs(r.Desc(), n, prev, cur, k);
    var h := if r.Desc() then k - n else k + n;
    if 0 <= h < 16 {
      MaskedIs(r, d, j, i, h);
    } else if RowBefore(j, i) >= 0 {
      MaskedIs(r, d, RowBefore(j, i), ColumnBefore(r, i), h % 16);
    }
  }

  lemma ShiftedBIs(r: Registers, d: Data, j: nat, i: nat, k: nat)
    requires r.Valid() && k < 16
    ensures ShiftedB(Configure(r), d, j, i)[k] == BBit(r, d, j, i, k)
  {
    hide Configure, SourceWord, BWord, AWord, CWord, Barrel, Flag, StreamBit, Value, Registers.Shift;
    SizesAre(r);
    FieldsAre(r);
    var c := Configure(r);
    if c.useB {
      var n := Registers.Shift(r.con1);
      var prev, cur := PreviousB(c, d, j, i), SourceWord(c, d, B, j, i);
      BarrelAt(r.Desc(), n, prev, cur, k);
      StreamIs(r.Desc(), n, prev, cur, k);
      SourceIs(r, d, j, i);
      if RowBefore(j, i) >= 0 {
        SourceIs(r, d, RowBefore(j, i), ColumnBefore(r, i));
      }
    }
  }

  /** Every word before the fill, bit by bit. */
  lemma RawIs(r: Registers, d: Data, j: nat, i: nat, k: nat)
    requires r.Valid() && k < 16
    ensures Raw(Configure(r), d, j, i)[k] == RawBit(r, d, j, i, k)
  {
    hide Configure, Previous, Masked, ShiftedB, SourceWord, CWord, ABit, BBit, Selected, Value, Flag;
    SizesAre(r);
    SourceIs(r, d, j, i);
    ShiftedA(r, d, j, i, k);
    ShiftedBIs(r, d, j, i, k);
    var c := Configure(r);
    LogicAt(r, c.path.shiftA(Previous(c, d, j, i), Masked(c, d, j, i)), ShiftedB(c, d, j, i),
            SourceWord(c, d, C, j, i), k);
  }

  // ----- the fill

  /** An odd number of the bits before the fill are set in row `j`, before bit
      `k` of column `i`. */
  predicate OddBefore(r: Registers, d: Data, j: nat, i: nat, k: nat)
    requires r.span > 0 && r.hsize > 0 && k <= 16
    decreases i, k
  {
    if k > 0 then OddBefore(r, d, j, i, k - 1) != RawBit(r, d, j, i, k - 1)
    else if i > 0 then OddBefore(r, d, j, i - 1, 16)
    else false
  }

  /** The same of all rows above row `j`. */
  predicate OddAbove(r: Registers, d: Data, j: nat)
    requires r.span > 0 && r.hsize > 0
  {
    if j == 0 then false else OddAbove(r, d, j - 1) != OddBefore(r, d, j - 1, r.hsize, 0)
  }

  /** Bit `k` of the word in row `j`, column `i`: without fill as it is, with
      BLTCON1 bit 4 flipped inside an outline, with only bit 3 set inside and on
      it.  BLTCON1 bit 2 starts a row inside; `on` if the state runs on. */
  predicate DBit(r: Registers, d: Data, on: bool, j: nat, i: nat, k: nat)
    requires r.span > 0 && r.hsize > 0 && k < 16
  {
    var raw := RawBit(r, d, j, i, k);
    var inside := (Flag(r.con1, 4) != (on && OddAbove(r, d, j))) != OddBefore(r, d, j, i, k);
    if Flag(r.con1, 0x10) then raw != inside else if Flag(r.con1, 8) then raw || inside else raw
  }

  lemma ParityNext(w: Word, k: nat)
    requires k < 16
    ensures Fill.Parity(w[..k + 1]) == (Fill.Parity(w[..k]) != w[k]) && Fill.Parity(w[..0]) == false
  {
    assert w[..k + 1] == w[..k] + [w[k]];
    Fill.ParityAppend(w[..k], [w[k]]);
    assert Fill.Parity([w[k]]) == w[k];
  }

  lemma {:induction false} ParityIs(r: Registers, d: Data, j: nat, i: nat, k: nat)
    requires r.Valid() && k <= 16
    ensures var c := Configure(r);
            OddBefore(r, d, j, i, k) == (RowParity(c, d, j, i) != Fill.Parity(Raw(c, d, j, i)[..k]))
    decreases i, k
  {
    hide Configure, Raw, RawBit;
    SizesAre(r);
    var c := Configure(r);
    if k > 0 {
      ParityIs(r, d, j, i, k - 1);
      RawIs(r, d, j, i, k - 1);
      ParityNext(Raw(c, d, j, i), k - 1);
    } else if i > 0 {
      ParityIs(r, d, j, i - 1, 16);
      assert Raw(c, d, j, i - 1)[..16] == Raw(c, d, j, i - 1);
    }
  }

  lemma {:induction false} AboveIs(r: Registers, d: Data, j: nat)
    requires r.Valid()
    ensures OddAbove(r, d, j) == Odd(Configure(r), d, j)
    decreases j
  {
    hide Configure, Raw, RawBit, RowParity, OddBefore;
    SizesAre(r);
    if j > 0 {
      AboveIs(r, d, j - 1);
      ParityIs(r, d, j - 1, r.hsize, 0);
      ParityNext(Raw(Configure(r), d, j - 1, r.hsize), 0);
    }
  }

  lemma SerialIs(r: Registers)
    requires r.Valid()
    ensures Serial(Configure(r), Flag(r.con1, 8) && !Flag(r.con1, 0x10)) && Configure(r).Valid()
    ensures Bitwise(Configure(r).path)
  {
    hide Configure, Flag, Registers.Inclusive, Bitwise, Serial;
    FieldsAre(r);
    ConfigureIsSerial(r);
  }

  /** Every word that is written, bit by bit. */
  lemma WordIs(r: Registers, d: Data, on: bool, j: nat, i: nat, k: nat)
    requires r.Valid() && k < 16
    ensures DWord(Configure(r), d, on, j, i)[k] == DBit(r, d, on, j, i, k)
  {
    hide Configure, Raw, RawBit, RowParity, Odd, OddAbove, OddBefore, Flag, Fill.Fill;
    SizesAre(r);
    FieldsAre(r);
    SerialIs(r);
    RawIs(r, d, j, i, k);
    var c := Configure(r);
    ParityIs(r, d, j, i, k);
    AboveIs(r, d, j);
    if c.fillMode {
      Fill.FillAt(Raw(c, d, j, i), Flag(r.con1, 8) && !Flag(r.con1, 0x10), Carry(c, d, on, j, i), k);
    }
  }
}
