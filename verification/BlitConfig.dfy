/** What a blit is started with: the channels, sizes and modulos, and the
    datapath that the immediate form and the cycle-exact machine share. */
module BlitConfig {
  import opened ChipMemory
  import opened Bits

  /** The combinational parts of the blitter, as its control registers set
      them up: the A word masks by column, the two barrel shifters (from the
      previous and the current word), the logic function unit and the fill
      stage (from a word and a carry in). */
  datatype Datapath = Datapath(
    mask: (nat, Word) -> Word,
    shiftA: (Word, Word) -> Long,
    shiftB: (Word, Word) -> Long,
    logic: (Long, Long, Word) -> Word,
    fill: (Word, bool) -> (Word, bool))

  datatype Config = Config(
    useA: bool, useB: bool, useC: bool, useD: bool,
    desc: bool, fillMode: bool, fillCarry: bool,
    hsize: nat, vsize: nat,
    amod: int, bmod: int, cmod: int, dmod: int,
    span: nat, path: Datapath)
  {
    /** Sizes are never zero: a zero written to a size register selects the
        largest size. */
    ghost predicate Valid() {
      hsize > 0 && vsize > 0 && span > 0
    }

    /** The signed distance between neighbouring words. */
    function Stride(): int { if desc then -2 else 2 }

    function Signed(mod: int): int { if desc then -mod else mod }
  }

  /** What the computation of D words carries from word to word: the masked
      A word before, the fill carry, and whether every word so far was zero
      (blitzero). */
  datatype Alu = Alu(preva: Word, carry: bool, zero: bool)

  /** The D word of column `i`: A masked and shifted, the logic unit, and in
      fill mode the fill stage. */
  function Combine(c: Config, u: Alu, i: nat, a: Word, b: Long, w: Word): (Word, Alu) {
    var masked := c.path.mask(i, a);
    var d := c.path.logic(c.path.shiftA(u.preva, masked), b, w);
    var r := if c.fillMode then c.path.fill(d, u.carry) else (d, u.carry);
    (r.0, Alu(masked, r.1, u.zero && r.0 == ZERO))
  }

  /** What the logic unit promises: its result depends only on the low word
      of B. */
  ghost predicate Bitwise(p: Datapath) {
    forall a, b, w :: p.logic(a, b, w) == p.logic(a, Widen(Low(b)), w)
  }

  lemma CombineLow(c: Config, u: Alu, i: nat, a: Word, b: Long, w: Word)
    requires Bitwise(c.path)
    ensures Combine(c, u, i, a, b, w) == Combine(c, u, i, a, Widen(Low(b)), w)
  {
    hide Low, Widen;
    var sa := c.path.shiftA(u.preva, c.path.mask(i, a));
    assert c.path.logic(sa, b, w) == c.path.logic(sa, Widen(Low(b)), w);
  }
}
