/** The immediate block blit and the word loop by enable bits: the same as long
    as no running pointer is zero where the immediate form tests it. */
module BlitImmediate {
  import opened ChipMemory
  import opened Bits
  import opened BlitConfig
  import F = BlitFast
  import W = BlitWords
  import opened BlitExact
  import opened BlitSchedule
  import opened BlitRefine
  import opened BlitTheorem

  /** No running pointer of the channel is zero where the immediate form
      tests it: before every word and at the end of every row but the last. */
  ghost predicate Clear(c: Config, p: nat, mod: int) {
    forall j: nat, i: nat :: j < c.vsize && i <= c.hsize && (i < c.hsize || j + 1 < c.vsize)
      ==> At(c, p, mod, j, i) != 0
  }

  ghost predicate AllClear(c: Config, d: Data) {
    && (c.useA ==> Clear(c, d.src.apt, c.amod))
    && (c.useB ==> Clear(c, d.src.bpt, c.bmod))
    && (c.useC ==> Clear(c, d.src.cpt, c.cmod))
    && (c.useD ==> Clear(c, d.dpt, c.dmod))
  }

  lemma ClearAt(c: Config, used: bool, p: nat, mod: int, at: Counter)
    requires c.Valid() && at.v < c.vsize && at.h < c.hsize
    requires used ==> Clear(c, p, mod)
    ensures used ==> At(c, p, mod, at.v, at.h) != 0
    ensures used && at.h + 1 == c.hsize && at.v + 1 < c.vsize ==> At(c, p, mod, at.v, at.h + 1) != 0
    ensures Wrap(At(c, p, mod, at.v, at.h) + c.Stride()) == At(c, p, mod, at.v, at.h + 1)
    ensures Wrap(At(c, p, mod, at.v, c.hsize) + c.Signed(mod)) == At(c, p, mod, at.v + 1, 0)
  {
    hide At;
    NextPointer(c, p, mod, at);
  }

  /** A running pointer of both loops before the word at `at`; behind the last
      row the immediate form may have left it behind. */
  ghost predicate Keeps(c: Config, used: bool, p: nat, mod: int, at: Counter, f: nat, w: nat) {
    at.v < c.vsize ==> f == w == if used then At(c, p, mod, at.v, at.h) else 0
  }

  /** The data registers of both loops.  In descending mode the immediate form
      loads the C word into BLTBDAT, too. */
  ghost predicate SameRegisters(c: Config, at: Counter, f: F.Sources, w: F.Sources) {
    && f.adat == w.adat && f.cdat == w.cdat && f.bhold == w.bhold && f.prevb == w.prevb
    && (if c.desc && c.useC then at != Counter(0, 0) ==> f.bdat == f.cdat else f.bdat == w.bdat)
  }

  ghost predicate SameFetches(c: Config, s: Sources, at: Counter, f: F.Sources, w: F.Sources) {
    && SameRegisters(c, at, f, w)
    && Keeps(c, c.useA, s.apt, c.amod, at, f.pa, w.pa)
    && Keeps(c, c.useB, s.bpt, c.bmod, at, f.pb, w.pb)
    && Keeps(c, c.useC, s.cpt, c.cmod, at, f.pc, w.pc)
  }

  /** Both loops stand before the word at `at` of a blit that started in `s`. */
  ghost predicate Beside(c: Config, s: Data, at: Counter, f: F.Fast, w: F.Fast) {
    && f.mem == w.mem && f.alu == w.alu && f.dst.(pd := 0) == w.dst.(pd := 0)
    && SameFetches(c, s.src, at, f.src, w.src) && Keeps(c, c.useD, s.dpt, c.dmod, at, f.dst.pd, w.dst.pd)
  }

  /** One channel over one word and the end of its row. */
  lemma KeepsNext(c: Config, used: bool, p: nat, mod: int, at: Counter, f: nat, w: nat)
    requires c.Valid() && at.v < c.vsize && at.h < c.hsize && (used ==> Clear(c, p, mod))
    requires Keeps(c, used, p, mod, at, f, w)
    ensures f == w && (f != 0) == used
    ensures var f' := if f == 0 then f else Wrap(f + c.Stride());
            var w' := if used then Wrap(w + c.Stride()) else w;
            if at.h + 1 == c.hsize
              then Keeps(c, used, p, mod, NextAt(c, at), F.AddMod(c, f', mod), W.AddMod(c, used, w', mod))
              else Keeps(c, used, p, mod, NextAt(c, at), f', w')
  {
    hide At, Clear, Wrap;
    ClearAt(c, used, p, mod, at);
  }

  lemma FetchesNext(c: Config, s: Data, at: Counter, mem: seq<Word>, f: F.Sources, w: F.Sources)
    requires c.Valid() && at.v < c.vsize && at.h < c.hsize && AllClear(c, s) && SameFetches(c, s.src, at, f, w)
    ensures var x, y := F.FetchAll(c, mem, f), W.FetchAll(c, mem, w);
            && x.adat == y.adat && x.cdat == y.cdat && x.bhold == y.bhold
            && SameFetches(c, s.src, NextAt(c, at),
                 if at.h + 1 == c.hsize
                   then x.(pa := F.AddMod(c, x.pa, c.amod), pb := F.AddMod(c, x.pb, c.bmod),
                           pc := F.AddMod(c, x.pc, c.cmod))
                   else x,
                 if at.h + 1 == c.hsize then W.SourcesEnd(c, y) else y)
  {
    hide Get, Wrap, Clear, Keeps, F.AddMod, W.AddMod;
    KeepsNext(c, c.useA, s.src.apt, c.amod, at, f.pa, w.pa);
    KeepsNext(c, c.useB, s.src.bpt, c.bmod, at, f.pb, w.pb);
    KeepsNext(c, c.useC, s.src.cpt, c.cmod, at, f.pc, w.pc);
  }

  /** One trip keeps both loops side by side. */
  lemma BesideNext(c: Config, s: Data, at: Counter, f: F.Fast, w: F.Fast)
    requires c.Valid() && at.v < c.vsize && at.h < c.hsize && AllClear(c, s) && Beside(c, s, at, f, w)
    ensures Beside(c, s, NextAt(c, at), F.Next(c, f, at.h), W.Next(c, w, at.h, true))
  {
    hide Clear, Keeps, SameFetches, Put, Wrap, Combine, F.FetchAll, W.FetchAll, W.SourcesEnd, F.AddMod, W.AddMod;
    FetchesNext(c, s, at, f.mem, f.src, w.src);
    KeepsNext(c, c.useD, s.dpt, c.dmod, at, f.dst.pd, w.dst.pd);
  }

  lemma {:induction false} BesideWords(c: Config, s: Data, at: Counter, f: F.Fast, w: F.Fast, n: nat)
    requires c.Valid() && AllClear(c, s) && Beside(c, s, at, f, w)
    requires at.h < c.hsize && at.v * c.hsize + at.h + n == WordCount(c)
    ensures Beside(c, s, Counter(0, c.vsize), F.Words(c, f, at.h, n), W.Words(c, w, at.h, n, true))
    decreases n
  {
    hide Beside, F.Next, W.Next, AllClear;
    Position(c, at, at.v * c.hsize + at.h);
    if n == 0 {
      SamePosition(at.v, at.h, c.vsize, 0, c.hsize);
    } else {
      BesideNext(c, s, at, f, w);
      BesideWords(c, s, NextAt(c, at), F.Next(c, f, at.h), W.Next(c, w, at.h, true), n - 1);
    }
  }

  /** Both loops leave the same memory and registers; only the B data register
      differs if a descending blit uses C. */
  ghost predicate SameBlit(c: Config, f: F.Fast, w: F.Fast) {
    && f.mem == w.mem && f.alu == w.alu
    && f.src.adat == w.src.adat && f.src.cdat == w.src.cdat && f.src.bhold == w.src.bhold
    && f.src.bdat == if c.desc && c.useC then w.src.cdat else w.src.bdat
  }

  lemma BesideStart(c: Config, d: Data)
    requires c.Valid() && Pointers(d)
    ensures Beside(c, d, Counter(0, 0), FastStart(c, d), FastStart(c, d))
  {
  }

  /** With all pointers clear the immediate form is the word loop. */
  lemma ImmediateIsWords(c: Config, d: Data)
    requires c.Valid() && Pointers(d) && AllClear(c, d)
    ensures SameBlit(c, F.Blit(c, FastStart(c, d)), W.Blit(c, FastStart(c, d), true))
  {
    hide F.Words, W.Words, AllClear, Keeps, FastStart;
    BesideStart(c, d);
    BesideWords(c, d, Counter(0, 0), FastStart(c, d), FastStart(c, d), WordCount(c));
    assert WordCount(c) > 0 by { MulMonotone(1, c.vsize, c.hsize); }
  }

  /** What a completed cycle-exact blit has to show for the immediate one. */
  ghost predicate SameAsImmediate(c: Config, s: Data, t: Data, f: F.Fast) {
    SameResult(c, s, t, f.(src := f.src.(bdat := t.src.bdat)))
    && f.src.bdat == if c.desc && c.useC then t.src.cdat else t.src.bdat
  }

  /** For every sequence of grants: a completed cycle-exact blit with a source
      has the result of the immediate one if no pointer is zero where that form
      tests it. */
  lemma ExactRefinesFast(c: Config, d: Data, copper: bool, stale: bool, gs: seq<Grant>)
    requires c.Valid() && Bitwise(c.path) && HasSource(c) && Pointers(d)
    ensures var t := Run(c, Start(c, d, copper, stale), gs);
            && (t.done <==> t.total == TotalSlots(c))
            && (t.done && AllClear(c, d) ==> SameAsImmediate(c, d, t.d, F.Blit(c, FastStart(c, d))))
  {
    hide Run, TotalSlots, FastStart, AllClear, Bitwise, W.Blit, F.Blit, EndPointer, Low;
    ExactRefinesWords(c, d, copper, stale, gs);
    if AllClear(c, d) {
      ImmediateIsWords(c, d);
    }
  }

  /** The B data register of the word loop: the last B word, or what it was. */
  ghost predicate LeftInB(c: Config, b: Word, at: Counter, w: F.Fast) {
    if !c.useB then w.src.bdat == b else at != Counter(0, 0) ==> w.src.bdat == w.src.prevb
  }

  lemma LeftInBNext(c: Config, w: F.Fast, i: nat, reset: bool)
    requires c.Valid()
    ensures var t := W.Next(c, w, i, reset);
            if c.useB then t.src.bdat == t.src.prevb else t.src.bdat == w.src.bdat
  {
    hide Combine, Wrap, Get, F.Flush, W.Aim;
  }

  lemma {:induction false} LeftInBWords(c: Config, b: Word, at: Counter, w: F.Fast, n: nat, reset: bool)
    requires c.Valid() && at.h < c.hsize && LeftInB(c, b, at, w) && at.v * c.hsize + at.h + n == WordCount(c)
    ensures LeftInB(c, b, Counter(0, c.vsize), W.Words(c, w, at.h, n, reset))
    decreases n
  {
    hide W.Next;
    Position(c, at, at.v * c.hsize + at.h);
    if n == 0 {
      SamePosition(at.v, at.h, c.vsize, 0, c.hsize);
    } else {
      var t := W.Next(c, w, at.h, reset);
      assert LeftInB(c, b, NextAt(c, at), t) by { LeftInBNext(c, w, at.h, reset); }
      LeftInBWords(c, b, NextAt(c, at), t, n - 1, reset);
    }
  }

  lemma StartsInB(c: Config, d: Data)
    ensures var s := FastStart(c, d); s.src.bdat == d.src.bdat && LeftInB(c, d.src.bdat, Counter(0, 0), s)
  {
  }

  lemma BesideB(c: Config, s: Data, f: F.Fast, w: F.Fast)
    requires c.Valid() && Beside(c, s, Counter(0, c.vsize), f, w)
    ensures f.src.prevb == w.src.prevb
  {
    hide Keeps;
  }

  lemma LastInB(c: Config, b: Word, w: F.Fast)
    requires c.Valid() && LeftInB(c, b, Counter(0, c.vsize), w)
    ensures if c.useB then w.src.bdat == w.src.prevb else w.src.bdat == b
  {
  }

  /** A descending blit with C, all pointers clear, for every sequence of
      grants: the immediate form leaves the last C word in BLTBDAT, the
      cycle-exact one the last B word, or without B what was there. */
  lemma BRegisterParts(c: Config, d: Data, copper: bool, stale: bool, gs: seq<Grant>)
    requires c.Valid() && Bitwise(c.path) && c.desc && c.useC && Pointers(d) && AllClear(c, d)
    ensures var t := Run(c, Start(c, d, copper, stale), gs).d; var f := F.Blit(c, FastStart(c, d));
            Run(c, Start(c, d, copper, stale), gs).done ==>
              && f.src.bdat == f.src.cdat == t.src.cdat
              && t.src.bdat == if c.useB then f.src.prevb else d.src.bdat
  {
    hide Run, TotalSlots, FastStart, AllClear, Bitwise, W.Words, F.Words, EndPointer, Low, Beside, LeftInB;
    var s := FastStart(c, d);
    assert s.src.bdat == d.src.bdat && LeftInB(c, d.src.bdat, Counter(0, 0), s) by { StartsInB(c, d); }
    ExactRefinesWords(c, d, copper, stale, gs);
    LeftInBWords(c, d.src.bdat, Counter(0, 0), s, WordCount(c), true);
    BesideStart(c, d);
    BesideWords(c, d, Counter(0, 0), s, s, WordCount(c));
    ImmediateIsWords(c, d);
    var f, w := F.Words(c, s, 0, WordCount(c)), W.Words(c, s, 0, WordCount(c), true);
    assert f.src.prevb == w.src.prevb by { BesideB(c, d, f, w); }
    assert if c.useB then w.src.bdat == w.src.prevb else w.src.bdat == d.src.bdat by { LastInB(c, d.src.bdat, w); }
  }
}
