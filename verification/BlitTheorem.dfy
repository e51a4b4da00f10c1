/** The cycle-exact block blit under any bus schedule: the result of the word
    loop, in an exact number of counted slots. */
module BlitTheorem {
  import opened ChipMemory
  import opened Bits
  import opened BlitConfig
  import F = BlitFast
  import W = BlitWords
  import opened BlitExact
  import opened BlitSchedule
  import opened BlitPeriod
  import opened BlitRefine

  function WordCount(c: Config): nat { c.hsize * c.vsize }

  /** Without D, the slot of a period in which the last source arrives. */
  function LastSource(c: Config): nat {
    DiagramShape(c, false);
    if c.useC then MainDiagram(c).Period() - 1 else if c.useB then 1 else 0
  }

  /** Slots that a blit with a source takes: the two start-up slots, one
      period a word, and with D the two final slots; without D it is over as
      soon as the last source has arrived. */
  function TotalSlots(c: Config): nat
    requires c.Valid()
  {
    if c.useD then 2 + WordCount(c) * MainDiagram(c).Period() + 2
    else 2 + (WordCount(c) - 1) * MainDiagram(c).Period() + LastSource(c) + 1
  }

  /** The pointer a channel is left with, as the immediate form computes it. */
  function EndPointer(c: Config, p: nat, mod: int): nat {
    if c.desc then Wrap(p - (c.hsize * 2 + mod) * c.vsize) else Wrap(p + (c.hsize * 2 + mod) * c.vsize)
  }

  lemma EndPointerAt(c: Config, p: nat, mod: int)
    ensures At(c, p, mod, c.vsize, 0) == EndPointer(c, p, mod)
  {
    var n := c.hsize * 2 + mod;
    if c.desc {
      assert c.hsize * c.Stride() + c.Signed(mod) == -n;
      assert c.vsize * -n == -(n * c.vsize);
    } else {
      assert c.hsize * c.Stride() + c.Signed(mod) == n;
      assert c.vsize * n == n * c.vsize;
    }
  }

  /** Memory and registers of a completed cycle-exact blit agree with those of
      a word loop, and its pointers are those the immediate form leaves. */
  ghost predicate SameResult(c: Config, s: Data, t: Data, f: F.Fast) {
    && t.mem == f.mem && t.alu.zero == f.alu.zero && t.alu.preva == f.alu.preva
    && t.src.adat == f.src.adat && t.src.cdat == f.src.cdat && t.src.bhold == Low(f.src.bhold)
    && t.src.bdat == f.src.bdat
    && t.src.apt == (if c.useA then EndPointer(c, s.src.apt, c.amod) else s.src.apt)
    && t.src.bpt == (if c.useB then EndPointer(c, s.src.bpt, c.bmod) else s.src.bpt)
    && t.src.cpt == (if c.useC then EndPointer(c, s.src.cpt, c.cmod) else s.src.cpt)
    && t.dpt == (if c.useD then EndPointer(c, s.dpt, c.dmod) else s.dpt)
  }

  /** Both forms have started `q` words. */
  ghost predicate AtWord(c: Config, s: Data, x: Exact, f: F.Fast, q: nat) {
    && !x.done && !x.wait && !x.final && x.cycle == q * P(c)
    && Related(c, s, x.d, f) && q == x.d.at.v * c.hsize + x.d.at.h
  }

  lemma MulMonotone(a: nat, b: nat, h: nat)
    requires a <= b
    ensures a * h <= b * h
  {
  }

  lemma MulSucc(a: nat, h: nat)
    ensures (a + 1) * h == a * h + h
  {
  }

  lemma SamePosition(v: nat, h: nat, w: nat, i: nat, n: nat)
    requires h < n && i < n && v * n + h == w * n + i
    ensures v == w && h == i
  {
    if v < w {
      MulMonotone(v + 1, w, n);
      MulSucc(v, n);
    } else if w < v {
      MulMonotone(w + 1, v, n);
      MulSucc(w, n);
    }
  }

  lemma Position(c: Config, at: Counter, q: nat)
    requires c.Valid() && at.h < c.hsize && q == at.v * c.hsize + at.h
    ensures q == 0 <==> at == Counter(0, 0)
    ensures q < WordCount(c) <==> at.v < c.vsize
    ensures var n := NextAt(c, at); n.v * c.hsize + n.h == q + 1
  {
    if at.v > 0 {
      MulMonotone(1, at.v, c.hsize);
    }
    if at.v < c.vsize {
      MulMonotone(at.v + 1, c.vsize, c.hsize);
    } else {
      MulMonotone(c.vsize, at.v, c.hsize);
    }
    MulSucc(at.v, c.hsize);
  }

  lemma RelatedBasics(c: Config, s: Data, d: Data, f: F.Fast)
    requires Related(c, s, d, f)
    ensures d.at.h < c.hsize && d.at.v <= c.vsize && (d.at.v == c.vsize ==> d.at.h == 0)
    ensures d.src.fetched == 0
    ensures c.useD ==> d.dst.v < c.vsize
    ensures !c.useD ==> d.dst.v == c.vsize && !d.pipe.use1 && !d.pipe.use2
  {
    hide SameSources, SameAlu;
  }

  /** One period of the free-running machine, when it is not the last one of
      a blit without D. */
  lemma PeriodStep(c: Config, s: Data, x: Exact, f: F.Fast, q: nat)
    requires c.Valid() && Bitwise(c.path) && HasSource(c)
    requires AtWord(c, s, x, f, q) && q < WordCount(c)
    requires c.useD || q + 1 < WordCount(c)
    ensures var t := Ideal(c, x, P(c)); var f' := W.Next(c, f, x.d.at.h, true);
            && t.total == x.total + P(c) && t.d.at == NextAt(c, x.d.at)
            && (if q + 1 < WordCount(c) then AtWord(c, s, t, f', q + 1)
                else Related(c, s, t.d, f') && t.final && t.cycle == 0 && !t.done && !t.wait)
  {
    hide Slots, Period, Related, W.Next, Ideal, Bitwise, MainDiagram;
    var at := x.d.at;
    assert Related(c, s, x.d, f);
    RelatedBasics(c, s, x.d, f);
    Position(c, at, q);
    Position(c, NextAt(c, at), q + 1);
    SlotsArePeriod(c, x.d, q);
    PeriodRefines(c, s, x.d, f);
    var d := Period(c, x.d, q == 0);
    RelatedBasics(c, s, d, W.Next(c, f, at.h, true));
    DiagramShape(c, false);
    StateAndPos(c, q, 0);
    assert PeriodRow(c, q)[0..P(c)] == PeriodRow(c, q);
    RestOfPeriod(c, x, q, 0, P(c));
    assert (q + 1) * P(c) == q * P(c) + P(c);
    CountSources(c);
  }

  lemma IdealZero(c: Config, x: Exact)
    requires c.Valid()
    ensures Ideal(c, x, 0) == x
  {
  }

  /** `n` further periods. */
  lemma {:induction false} MainRun(c: Config, s: Data, x: Exact, f: F.Fast, q: nat, n: nat)
    requires c.Valid() && Bitwise(c.path) && HasSource(c)
    requires AtWord(c, s, x, f, q) && q + n <= WordCount(c)
    requires c.useD || q + n < WordCount(c)
    ensures var t := Ideal(c, x, n * P(c)); var f' := W.Words(c, f, x.d.at.h, n, true);
            && t.total == x.total + n * P(c)
            && W.Words(c, f, x.d.at.h, n + 1, true) == W.Next(c, f', t.d.at.h, true)
            && (if n == 0 || q + n < WordCount(c) then AtWord(c, s, t, f', q + n)
                else Related(c, s, t.d, f') && t.d.at.v == c.vsize
                     && t.final && t.cycle == 0 && !t.done && !t.wait)
    decreases n
  {
    hide Related, W.Next, Ideal, Bitwise, MainDiagram, P;
    if n == 0 {
      assert Ideal(c, x, 0) == x by { IdealZero(c, x); }
      assert W.Words(c, f, x.d.at.h, 1, true) == W.Words(c, W.Next(c, f, x.d.at.h, true), F.Succ(c, x.d.at.h), 0, true);
    } else {
      PeriodStep(c, s, x, f, q);
      var t := Ideal(c, x, P(c));
      var f' := W.Next(c, f, x.d.at.h, true);
      RelatedBasics(c, s, x.d, f);
      Position(c, x.d.at, q);
      Position(c, t.d.at, q + 1);
      assert F.Succ(c, x.d.at.h) == t.d.at.h;
      MulSucc(n - 1, P(c));
      IdealAdd(c, x, P(c), (n - 1) * P(c));
      if q + 1 < WordCount(c) {
        MainRun(c, s, t, f', q + 1, n - 1);
        assert W.Words(c, f, x.d.at.h, n, true) == W.Words(c, f', t.d.at.h, n - 1, true);
        assert W.Words(c, f, x.d.at.h, n + 1, true) == W.Words(c, f', t.d.at.h, n, true);
      } else {
        assert n == 1;
        IdealZero(c, t);
        RelatedBasics(c, s, t.d, f');
        assert W.Words(c, f, x.d.at.h, 2, true) == W.Words(c, f', t.d.at.h, 1, true)
                 == W.Words(c, W.Next(c, f', t.d.at.h, true), F.Succ(c, t.d.at.h), 0, true);
      }
    }
  }

  lemma LowWiden(b: Word)
    ensures Low(Widen(b)) == b
  {
  }

  lemma StartRelated(c: Config, d: Data, t: Data)
    requires c.Valid() && HasSource(c) && Pointers(d) && t == Start(c, d, false, false).d
    ensures Related(c, d, t, FastStart(c, d))
  {
    hide CountIf, MainDiagram, Low, Widen;
    CountSources(c);
    LowWiden(d.src.bhold);
  }

  /** The two start-up slots. */
  lemma StartUp(c: Config, d: Data, stale: bool)
    requires c.Valid() && HasSource(c) && Pointers(d)
    ensures var x := Start(c, d, false, stale); var t := Ideal(c, x, 2);
            Settled(c, x) && t.total == 2 && AtWord(c, d, t, FastStart(c, d), 0) && t.d.at.h == 0
  {
    hide DoDma, DoDdma, CountIf, MainDiagram, FastStart, Related;
    var x := Start(c, d, false, stale);
    DiagramShape(c, false);
    var y := Step(c, x, Free);
    assert y == Idle(c, x);
    var z := Step(c, y, Free);
    assert z == Idle(c, y);
    assert Ideal(c, x, 2) == Ideal(c, y, 1) == Ideal(c, z, 0) == z;
    assert Related(c, d, z.d, FastStart(c, d)) by { StartRelated(c, d, z.d); }
  }

  lemma LastWord(c: Config, dst: Counter, at: Counter)
    requires NextAt(c, dst) == at && at.h == 0 && dst.h < c.hsize
    ensures dst.h + 1 == c.hsize && dst.v + 1 == at.v
  {
  }

  /** The two final slots write the last D word. */
  lemma FinalSlots(c: Config, s: Data, x: Exact, f: F.Fast)
    requires c.Valid() && HasSource(c) && c.useD
    requires x.final && x.cycle == 0 && !x.done && !x.wait
    requires Related(c, s, x.d, f) && x.d.at.v == c.vsize
    ensures var t := Ideal(c, x, 2);
            t.done && t.total == x.total + 2 && t.d.mem == F.Flush(c, f.mem, f.dst)
            && t.d.src == x.d.src && t.d.alu == x.d.alu
            && t.d.dpt == At(c, s.dpt, c.dmod, c.vsize, 0)
  {
    hide DoDma, CountIf, MainDiagram, SameSources, SameAlu, At, Put, Wrap;
    CountSources(c);
    var y := Step(c, x, Free);
    assert ChannelState(c, 0, true) == 0 && ChannelState(c, 1, true) == 4;
    assert y.d == x.d && y.cycle == 1 && y.final && !y.done && y.total == x.total + 1;
    LastWord(c, x.d.dst, x.d.at);
    AtNext(c, s.dpt, c.dmod, x.d.dst.v, x.d.dst.h);
    var z := Step(c, y, Free);
    assert z.d == DoDdma(c, y.d);
    assert z.done;
    assert Ideal(c, x, 2) == Ideal(c, y, 1) == Ideal(c, z, 0) == z;
    AtNext(c, s.dpt, c.dmod, x.d.dst.v, c.hsize);
  }

  /** A fetch that is not the last one of its word. */
  lemma EarlyFetch(c: Config, d: Data, ch: nat)
    requires c.Valid() && ch != 4
    requires ch != 0 ==> d.src.fetched + 1 < SourceCount(c)
    ensures var t := Slot(c, d, ch);
            t.at == d.at && t.src.fetched <= d.src.fetched + (if ch == 0 then 0 else 1)
  {
    hide CountIf, MainDiagram, Wrap, Get, Low;
  }

  /** The slots of a period after its last source are idle. */
  lemma SlotZero(c: Config, d: Data, row: seq<nat>, l: nat)
    requires c.Valid() && l < |row| <= 4
    requires forall i :: l < i < |row| ==> row[i] == 0
    ensures l + 1 < |row| ==> Slot(c, Slot(c, d, row[l]), row[l + 1]) == Slot(c, d, row[l])
    ensures l + 2 < |row| ==> Slot(c, Slot(c, d, row[l]), row[l + 2]) == Slot(c, d, row[l])
  {
    hide DoDma, DoDdma;
  }

  /** Without D, the slots of a period before the last source has arrived
      complete no word. */
  lemma PartialPeriod(c: Config, d: Data, q: nat)
    requires c.Valid() && HasSource(c) && !c.useD && d.src.fetched == 0 && d.at.v < c.vsize
    ensures var row := PeriodRow(c, q); var l := LastSource(c);
            && l < |row| == P(c) && row[l] != 0
            && Slots(c, d, row[..l]).at == d.at
            && Slot(c, Slots(c, d, row[..l]), row[l]) == Slots(c, d, row)
  {
    hide CountIf, Slot;
    CountSources(c);
    var row := PeriodRow(c, q);
    var l := LastSource(c);
    if l > 0 {
      EarlyFetch(c, d, row[0]);
      var t := Slot(c, d, row[0]);
      assert row[..l][0] == row[0] && row[..l][1..] == row[1..l];
      assert Slots(c, d, row[..l]) == Slots(c, t, row[1..l]);
      if l > 1 {
        EarlyFetch(c, t, row[1]);
        assert row[1..l][0] == row[1] && row[1..l][1..] == [];
        assert Slots(c, t, row[1..l]) == Slot(c, t, row[1]);
      } else {
        assert row[1..l] == [];
      }
    }
    UnrollSlots(c, d, row);
    SlotZero(c, Slots(c, d, row[..l]), row, l);
  }

  lemma LastRow(c: Config, at: Counter, q: nat)
    requires c.Valid() && at.h < c.hsize && q == at.v * c.hsize + at.h == WordCount(c) && at.v <= c.vsize
    ensures at.v == c.vsize
  {
    Position(c, at, q);
  }

  lemma SlotsEmpty(c: Config, d: Data)
    requires c.Valid()
    ensures Slots(c, d, []) == d
  {
  }

  lemma IdealOne(c: Config, x: Exact)
    requires c.Valid() && !x.done
    ensures Ideal(c, x, 1) == Step(c, x, Free)
  {
    hide Step;
    IdealZero(c, Step(c, x, Free));
  }

  /** Without D, the last period ends in the slot of its last source. */
  lemma LastPeriodWithoutD(c: Config, s: Data, x: Exact, f: F.Fast, q: nat)
    requires c.Valid() && Bitwise(c.path) && HasSource(c) && !c.useD
    requires AtWord(c, s, x, f, q) && q + 1 == WordCount(c)
    ensures var t := Ideal(c, x, LastSource(c) + 1); var f' := W.Next(c, f, x.d.at.h, true);
            t.done && t.total == x.total + LastSource(c) + 1
            && Related(c, s, t.d, f') && t.d.at.v == c.vsize
  {
    hide Slots, Slot, Period, Related, W.Next, Ideal, Bitwise, MainDiagram, P, LastSource, Step;
    RelatedBasics(c, s, x.d, f);
    Position(c, x.d.at, q);
    Position(c, NextAt(c, x.d.at), q + 1);
    SlotsArePeriod(c, x.d, q);
    PeriodRefines(c, s, x.d, f);
    PartialPeriod(c, x.d, q);
    var l := LastSource(c);
    var row := PeriodRow(c, q);
    var y := Ideal(c, x, l);
    assert row[0..l] == row[..l];
    assert y.d == Slots(c, x.d, row[..l]) && !y.done && !y.wait && !y.final
           && y.cycle == q * P(c) + l && y.total == x.total + l by {
      if l == 0 {
        IdealZero(c, x);
        assert row[..0] == [] && Slots(c, x.d, []) == x.d by { SlotsEmpty(c, x.d); }
      } else {
        RestOfPeriod(c, x, q, 0, l);
      }
    }
    MainStep(c, y, q, l);
    IdealAdd(c, x, l, 1);
    var t := Step(c, y, Free);
    assert Ideal(c, y, 1) == t by { IdealOne(c, y); }
    assert t.d == Period(c, x.d, q == 0);
    RelatedBasics(c, s, t.d, W.Next(c, f, x.d.at.h, true));
    LastRow(c, NextAt(c, x.d.at), WordCount(c));
  }

  lemma TotalSlotsAre(c: Config)
    requires c.Valid()
    ensures TotalSlots(c) == if c.useD then 2 + WordCount(c) * P(c) + 2
                             else 2 + (WordCount(c) - 1) * P(c) + LastSource(c) + 1
  {
    hide MainDiagram, LastSource;
  }

  lemma AtWordRelated(c: Config, s: Data, x: Exact, f: F.Fast, q: nat)
    requires AtWord(c, s, x, f, q)
    ensures Related(c, s, x.d, f)
  {
  }

  /** What `Related` says once all words have been started. */
  lemma EndResult(c: Config, s: Data, d: Data, t: Data, f: F.Fast)
    requires c.Valid() && Related(c, s, d, f) && d.at.v == c.vsize
    requires t.src == d.src && t.alu == d.alu
    requires if c.useD then t.mem == F.Flush(c, f.mem, f.dst) && t.dpt == At(c, s.dpt, c.dmod, c.vsize, 0)
             else t.mem == d.mem && t.dpt == d.dpt
    ensures SameResult(c, s, t, f.(mem := F.Flush(c, f.mem, f.dst)))
  {
    hide At, Low, Put, EndPointer;
    EndPointerAt(c, s.src.apt, c.amod);
    EndPointerAt(c, s.src.bpt, c.bmod);
    EndPointerAt(c, s.src.cpt, c.cmod);
    EndPointerAt(c, s.dpt, c.dmod);
  }

  /** The free-running machine completes after exactly `TotalSlots` slots,
      with the result of the word loop. */
  lemma IdealRefines(c: Config, d: Data, stale: bool)
    requires c.Valid() && Bitwise(c.path) && HasSource(c) && Pointers(d)
    ensures var x := Start(c, d, false, stale); var t := Ideal(c, x, TotalSlots(c));
            && t.done && t.total == TotalSlots(c)
            && SameResult(c, d, t.d, W.Blit(c, FastStart(c, d), true))
  {
    hide Related, W.Next, Ideal, Bitwise, MainDiagram, P, LastSource, Step, Start, AtWord, FastStart;
    var x := Start(c, d, false, stale);
    var f := FastStart(c, d);
    StartUp(c, d, stale);
    var y := Ideal(c, x, 2);
    var n := if c.useD then WordCount(c) else WordCount(c) - 1;
    assert TotalSlots(c) == 2 + n * P(c) + (if c.useD then 2 else LastSource(c) + 1) by { TotalSlotsAre(c); }
    assert WordCount(c) >= 1 by { MulMonotone(1, c.vsize, c.hsize); }
    AtWordRelated(c, d, y, f, 0);
    RelatedBasics(c, d, y.d, f);
    MainRun(c, d, y, f, 0, n);
    IdealAdd(c, x, 2, n * P(c));
    var z := Ideal(c, y, n * P(c));
    var g := W.Words(c, f, 0, n, true);
    if c.useD {
      FinalSlots(c, d, z, g);
      IdealAdd(c, x, 2 + n * P(c), 2);
      EndResult(c, d, z.d, Ideal(c, z, 2).d, g);
    } else {
      LastPeriodWithoutD(c, d, z, g, n);
      IdealAdd(c, x, 2 + n * P(c), LastSource(c) + 1);
      var t := Ideal(c, z, LastSource(c) + 1);
      EndResult(c, d, t.d, t.d, W.Next(c, g, z.d.at.h, true));
    }
  }

  lemma StartSettled(c: Config, d: Data, copper: bool, stale: bool)
    requires c.Valid()
    ensures Settled(c, Start(c, d, copper, stale))
  {
    hide NoD;
    DiagramShape(c, false);
  }

  /** For every sequence of grants and all pointers: the cycle-exact blit is
      done exactly when `TotalSlots` slots have been counted, and then it has
      the result of the word loop. */
  lemma ExactRefinesWords(c: Config, d: Data, copper: bool, stale: bool, gs: seq<Grant>)
    requires c.Valid() && Bitwise(c.path) && HasSource(c) && Pointers(d)
    ensures var t := Run(c, Start(c, d, copper, stale), gs);
            && t.total <= TotalSlots(c)
            && (t.done <==> t.total == TotalSlots(c))
            && (t.done ==> SameResult(c, d, t.d, W.Blit(c, FastStart(c, d), true)))
            && (CountFree(gs) >= TotalSlots(c) + (if copper then 1 else 0) ==> t.done)
  {
    hide Run, Ideal, TotalSlots, SameResult, NoD, FastStart, Bitwise, W.Blit;
    var s := Start(c, d, copper, stale);
    assert Awake(s) == Start(c, d, false, stale);
    assert Settled(c, s) by { StartSettled(c, d, copper, stale); }
    IdealRefines(c, d, stale);
    RunExact(c, s, TotalSlots(c), gs);
  }
}
