/** The immediate block blit as a function: one word at a time, the write of a
    word delayed until the sources of the next one have been read. */
module BlitFast {
  import opened ChipMemory
  import opened Bits
  import opened BlitConfig

  /** Running source pointers and the source data registers. */
  datatype Sources = Sources(
    pa: nat, pb: nat, pc: nat,
    adat: Word, bdat: Word, cdat: Word, bhold: Long, prevb: Word)

  /** The D word that has been computed but not written, and where the next
      one goes. */
  datatype Output = Output(ddat: Word, pending: bool, dstp: nat, pd: nat)

  datatype Fast = Fast(mem: seq<Word>, src: Sources, alu: Alu, dst: Output)

  /** The fetches of one word.  A channel whose running pointer is zero counts
      as switched off; in descending mode the word fetched for C also lands in
      BLTBDAT. */
  function FetchA(c: Config, mem: seq<Word>, s: Sources): Sources
    requires c.Valid()
  {
    if s.pa == 0 then s
    else s.(adat := Get(mem, c.span, s.pa), pa := Wrap(s.pa + c.Stride()))
  }

  function FetchB(c: Config, mem: seq<Word>, s: Sources): Sources
    requires c.Valid()
  {
    if s.pb == 0 then s else
    var b := Get(mem, c.span, s.pb);
    s.(bdat := b, bhold := c.path.shiftB(s.prevb, b), prevb := b,
       pb := Wrap(s.pb + c.Stride()))
  }

  function FetchC(c: Config, mem: seq<Word>, s: Sources): Sources
    requires c.Valid()
  {
    if s.pc == 0 then s else
    var w := Get(mem, c.span, s.pc);
    s.(cdat := w, bdat := if c.desc then w else s.bdat, pc := Wrap(s.pc + c.Stride()))
  }

  function FetchAll(c: Config, mem: seq<Word>, s: Sources): Sources
    requires c.Valid()
  {
    FetchC(c, mem, FetchB(c, mem, FetchA(c, mem, s)))
  }

  function Flush(c: Config, mem: seq<Word>, o: Output): seq<Word>
    requires c.Valid()
  {
    if o.pending then Put(mem, c.span, o.dstp, o.ddat) else mem
  }

  function Aim(c: Config, o: Output, w: Word): Output {
    if o.pd == 0 then o.(ddat := w)
    else Output(w, true, o.pd, Wrap(o.pd + c.Stride()))
  }

  /** One trip of the inner loop, in column `i`. */
  function OneWord(c: Config, s: Fast, i: nat): Fast
    requires c.Valid()
  {
    var src := FetchAll(c, s.mem, s.src);
    var r := Combine(c, s.alu, i, src.adat, src.bhold, src.cdat);
    Fast(Flush(c, s.mem, s.dst), src, r.1, Aim(c, s.dst, r.0))
  }

  function AddMod(c: Config, p: nat, mod: int): nat {
    if p == 0 then 0 else Wrap(p + c.Signed(mod))
  }

  function RowEnd(c: Config, s: Fast): Fast {
    s.(src := s.src.(pa := AddMod(c, s.src.pa, c.amod), pb := AddMod(c, s.src.pb, c.bmod),
                     pc := AddMod(c, s.src.pc, c.cmod)),
       dst := s.dst.(pd := AddMod(c, s.dst.pd, c.dmod)))
  }

  function RowStart(c: Config, s: Fast): Fast {
    s.(alu := s.alu.(carry := c.fillCarry))
  }

  /** The word in column `i` with the row prologue and epilogue that belong
      to it. */
  function Next(c: Config, s: Fast, i: nat): Fast
    requires c.Valid()
  {
    var t := OneWord(c, if i == 0 then RowStart(c, s) else s, i);
    if i + 1 == c.hsize then RowEnd(c, t) else t
  }

  function Succ(c: Config, i: nat): nat {
    if i + 1 == c.hsize then 0 else i + 1
  }

  /** `n` further words, starting in column `i`. */
  function Words(c: Config, s: Fast, i: nat, n: nat): Fast
    requires c.Valid()
    decreases n
  {
    if n == 0 then s else Words(c, Next(c, s, i), Succ(c, i), n - 1)
  }

  /** A whole blit from a state `s` in which nothing has been read yet. */
  function Blit(c: Config, s: Fast): Fast
    requires c.Valid()
  {
    var t := Words(c, s, 0, c.hsize * c.vsize);
    t.(mem := Flush(c, t.mem, t.dst))
  }
}
