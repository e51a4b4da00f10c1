/** The block blit word by word, as the enabled channels make it: the loop of
    the immediate form, but for a channel that is on by its enable bit and not
    by a pointer other than zero. */
module BlitWords {
  import opened ChipMemory
  import opened Bits
  import opened BlitConfig
  import F = BlitFast

  function FetchA(c: Config, mem: seq<Word>, s: F.Sources): F.Sources
    requires c.Valid()
  {
    if !c.useA then s
    else s.(adat := Get(mem, c.span, s.pa), pa := Wrap(s.pa + c.Stride()))
  }

  function FetchB(c: Config, mem: seq<Word>, s: F.Sources): F.Sources
    requires c.Valid()
  {
    if !c.useB then s else
    var b := Get(mem, c.span, s.pb);
    s.(bdat := b, bhold := c.path.shiftB(s.prevb, b), prevb := b, pb := Wrap(s.pb + c.Stride()))
  }

  function FetchC(c: Config, mem: seq<Word>, s: F.Sources): F.Sources
    requires c.Valid()
  {
    if !c.useC then s
    else s.(cdat := Get(mem, c.span, s.pc), pc := Wrap(s.pc + c.Stride()))
  }

  function FetchAll(c: Config, mem: seq<Word>, s: F.Sources): F.Sources
    requires c.Valid()
  {
    FetchC(c, mem, FetchB(c, mem, FetchA(c, mem, s)))
  }

  function Aim(c: Config, o: F.Output, w: Word): F.Output {
    if !c.useD then o.(ddat := w)
    else F.Output(w, true, o.pd, Wrap(o.pd + c.Stride()))
  }

  function OneWord(c: Config, s: F.Fast, i: nat): F.Fast
    requires c.Valid()
  {
    var src := FetchAll(c, s.mem, s.src);
    var r := Combine(c, s.alu, i, src.adat, src.bhold, src.cdat);
    F.Fast(F.Flush(c, s.mem, s.dst), src, r.1, Aim(c, s.dst, r.0))
  }

  function AddMod(c: Config, used: bool, p: nat, mod: int): nat {
    if used then Wrap(p + c.Signed(mod)) else p
  }

  function SourcesEnd(c: Config, s: F.Sources): F.Sources {
    s.(pa := AddMod(c, c.useA, s.pa, c.amod), pb := AddMod(c, c.useB, s.pb, c.bmod),
       pc := AddMod(c, c.useC, s.pc, c.cmod))
  }

  function RowEnd(c: Config, s: F.Fast): F.Fast {
    s.(src := SourcesEnd(c, s.src), dst := s.dst.(pd := AddMod(c, c.useD, s.dst.pd, c.dmod)))
  }

  /** The word in column `i`; `reset` if the fill carry is set anew at a row
      start. */
  function Next(c: Config, s: F.Fast, i: nat, reset: bool): F.Fast
    requires c.Valid()
  {
    var t := OneWord(c, if reset && i == 0 then F.RowStart(c, s) else s, i);
    if i + 1 == c.hsize then RowEnd(c, t) else t
  }

  function Words(c: Config, s: F.Fast, i: nat, n: nat, reset: bool): F.Fast
    requires c.Valid()
    decreases n
  {
    if n == 0 then s else Words(c, Next(c, s, i, reset), F.Succ(c, i), n - 1, reset)
  }

  /** A whole blit from a state `s` in which nothing has been read yet. */
  function Blit(c: Config, s: F.Fast, reset: bool): F.Fast
    requires c.Valid()
  {
    var t := Words(c, s, 0, c.hsize * c.vsize, reset);
    t.(mem := F.Flush(c, t.mem, t.dst))
  }
}
