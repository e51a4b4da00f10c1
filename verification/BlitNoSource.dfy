/** Blits without a source: every D word comes from the registers. */
module BlitNoSource {
  import opened ChipMemory
  import opened Bits
  import opened BlitConfig
  import F = BlitFast
  import W = BlitWords
  import opened BlitExact
  import opened BlitImmediate
  import opened BlitSchedule
  import opened BlitRefine
  import opened BlitTheorem
  import opened BlitOnlyD
  import opened BlitChannels
  import opened BlitResult

  lemma NothingRead(c: Config, s: Data)
    requires c.span > 0 && !HasSource(c)
    ensures ReadsFirst(c, s)
  {
    hide Spot, Cell, Behind;
  }

  /** Without a source, the loops with the carry reset and running on leave
      exactly the words of the registers, and the data registers as they
      were. */
  lemma BlitsAre(c: Config, s: Data, inclusive: bool)
    requires c.Valid() && !HasSource(c) && Serial(c, inclusive) && Pointers(s)
    ensures var f := FastStart(c, s); var x := W.Blit(c, f, true); var y := W.Blit(c, f, false);
            && x.mem == Writes(c, s, false, c.vsize, 0) && y.mem == Writes(c, s, true, c.vsize, 0)
            && x.alu.zero == Zeroes(c, s, false, c.vsize, 0) && y.alu.zero == Zeroes(c, s, true, c.vsize, 0)
            && x.src == f.src && y.src == f.src && x.alu.preva == y.alu.preva
  {
    hide FastStart, W.Blit, Serial, Writes, Zeroes, Previous, ReadsFirst;
    NothingRead(c, s);
    BlitIs(c, s, false, inclusive);
    BlitIs(c, s, true, inclusive);
  }

  // ----- no channel at all

  /** The cycle-exact form computes nothing without channels, the immediate
      form every word: for every sequence of grants they leave the same memory
      and data registers, and the same blitzero exactly when every word that
      the registers give is zero. */
  lemma NoChannelsAgree(c: Config, d: Data, inclusive: bool, copper: bool, stale: bool, gs: seq<Grant>)
    requires c.Valid() && NoChannels(c) && Serial(c, inclusive) && Pointers(d)
    ensures var t := Run(c, Start(c, d, copper, stale), gs); var f := F.Blit(c, FastStart(c, d));
            && f.mem == d.mem && (f.alu.zero <==> AllZero(c, d, false))
            && (t.done ==>
                  && t.d.mem == f.mem && t.d.src.adat == f.src.adat && t.d.src.bdat == f.src.bdat
                  && t.d.src.cdat == f.src.cdat && Widen(t.d.src.bhold) == f.src.bhold
                  && (t.d.alu.zero == f.alu.zero <==> AllZero(c, d, false)))
  {
    hide F.Blit, W.Blit, Run, Serial, DWord, Zeroes, Previous, NoD, Widen;
    ImmediateIsWords(c, d);
    BlitsAre(c, d, inclusive);
    BlitZero(c, d, false);
    NoChannelsDoNothing(c, d, copper, stale, gs);
  }
}
