/** From the control registers to the configuration of a blit (blit_bltset,
    blit_modset). */
module BlitRegisters {
  import opened Bits
  import opened Numbers
  import opened BlitConfig
  import opened BlitFunc
  import Fill = BlitFill

  datatype Registers = Registers(
    con0: Word, con1: Word, afwm: Word, alwm: Word,
    hsize: nat, vsize: nat, amod: int, bmod: int, cmod: int, dmod: int,
    span: nat, table: seq<Fill.Entry>)
  {
    ghost predicate Valid() {
      hsize > 0 && vsize > 0 && span > 0 && Fill.IsFillTable(table)
    }

    /** The low byte of BLTCON0. */
    function MinTerm(): nat { Value(con0[..8]) }

    /** The top four bits of a control register: a shift. */
    static function Shift(con: Word): (n: nat)
      ensures n < 16
    {
      ValueBound(con[12..]);
      assert Pow2(4) == 16;
      Value(con[12..])
    }

    function Desc(): bool { con1[1] }

    function FillMode(): bool { con1[3] || con1[4] }

    /** Both fill bits set select exclusive fill. */
    function Inclusive(): bool { con1[3] && !con1[4] }
  }

  /** The part of BLTAFWM and BLTALWM that applies in column `i`. */
  function ColumnMask(r: Registers, i: nat, w: Word): Word {
    Mask(Mask(w, if i == 0 then r.afwm else ONES), if i + 1 == r.hsize then r.alwm else ONES)
  }

  /** The barrel shifter: the previous word supplies the bits shifted in. */
  function Barrel(desc: bool, shift: nat, prev: Word, cur: Word): Long
    requires shift < 16
  {
    if desc then ShiftRight(Join(cur, prev), 16 - shift) else ShiftRight(Join(prev, cur), shift)
  }

  function PathOf(r: Registers): Datapath
    requires |r.table| == 1024
  {
    Datapath((i, w) => ColumnMask(r, i, w),
             (prev, cur) => Barrel(r.Desc(), Registers.Shift(r.con0), prev, cur),
             (prev, cur) => Barrel(r.Desc(), Registers.Shift(r.con1), prev, cur),
             (a, b, w) => Low(Func(a, b, Widen(w), r.MinTerm())),
             (d, carry) => Fill.FillWord(r.table, d, r.Inclusive(), carry))
  }

  function Configure(r: Registers): Config
    requires |r.table| == 1024
  {
    Config(r.con0[11], r.con0[10], r.con0[9], r.con0[8],
           r.Desc(), r.FillMode(), r.con1[2], r.hsize, r.vsize,
           r.amod, r.bmod, r.cmod, r.dmod, r.span, PathOf(r))
  }

  /** The real datapath meets the promise the refinement relies on. */
  lemma PathIsBitwise(r: Registers)
    requires |r.table| == 1024
    ensures Bitwise(PathOf(r))
  {
    hide FuncBit;
    var p := PathOf(r);
    forall a: Long, b: Long, w: Word
      ensures p.logic(a, b, w) == p.logic(a, Widen(Low(b)), w)
    {
      var x, y := p.logic(a, b, w), p.logic(a, Widen(Low(b)), w);
      forall i | 0 <= i < 16
        ensures x[i] == y[i]
      {
        assert Widen(Low(b))[i] == b[i];
      }
    }
  }

  // ----- one bit at a time

  /** Bit `i` behind the barrel shifter, shift `n`: from the word itself or, at
      its far end, from the word before. */
  predicate StreamBit(desc: bool, n: nat, prev: Word, cur: Word, i: nat)
    requires n < 16 && i < 16
  {
    if desc then (if i >= n then cur[i - n] else prev[16 + i - n])
    else (if i + n < 16 then cur[i + n] else prev[i + n - 16])
  }

  lemma BarrelAt(desc: bool, n: nat, prev: Word, cur: Word, i: nat)
    requires n < 16 && i < 16
    ensures Barrel(desc, n, prev, cur)[i] == StreamBit(desc, n, prev, cur, i)
  {
  }

  /** Bit `i` of an A word behind the masks of column `col`. */
  predicate MaskedBit(r: Registers, col: nat, w: Word, i: nat)
    requires i < 16
  {
    w[i] && (col == 0 ==> r.afwm[i]) && (col + 1 == r.hsize ==> r.alwm[i])
  }

  lemma MaskAt(r: Registers, col: nat, w: Word, i: nat)
    requires i < 16
    ensures ColumnMask(r, col, w)[i] == MaskedBit(r, col, w, i)
  {
  }

  lemma MinTermByte(r: Registers)
    ensures r.MinTerm() < 256
  {
    ValueBound(r.con0[..8]);
    assert Pow2(8) == 256 by { assert Pow2(4) == 16; assert Pow2(6) == 64; }
  }

  /** Every bit of a D word before it is filled is the bit of the minterm byte
      that three bits select: one of A, behind the masks and the shifter, one of
      B, behind its shifter, and one of C. */
  lemma WordAt(r: Registers, col: nat, a0: Word, a: Word, b0: Word, b: Word, w: Word, i: nat)
    requires |r.table| == 1024 && i < 16
    ensures var p := PathOf(r);
            p.logic(p.shiftA(a0, p.mask(col, a)), p.shiftB(b0, b), w)[i]
            == Selected(r.MinTerm(), StreamBit(r.Desc(), Registers.Shift(r.con0), a0, p.mask(col, a), i),
                        StreamBit(r.Desc(), Registers.Shift(r.con1), b0, b, i), w[i])
    ensures PathOf(r).mask(col, a)[i] == MaskedBit(r, col, a, i)
  {
    hide FuncBit, Barrel, ColumnMask, Selected, Registers.MinTerm, StreamBit, Registers.Shift, MaskedBit;
    MaskAt(r, col, a, i);
    var m := ColumnMask(r, col, a);
    var x := Barrel(r.Desc(), Registers.Shift(r.con0), a0, m);
    var y := Barrel(r.Desc(), Registers.Shift(r.con1), b0, b);
    BarrelAt(r.Desc(), Registers.Shift(r.con0), a0, m, i);
    BarrelAt(r.Desc(), Registers.Shift(r.con1), b0, b, i);
    MinTermByte(r);
    FuncBitSelects(x[i], y[i], w[i], r.MinTerm());
  }
}
