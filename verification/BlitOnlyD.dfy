/** Blits without a source: D alone (a word is computed in the slot that
    writes it), and no channel at all (nothing is computed). */
module BlitOnlyD {
  import opened ChipMemory
  import opened Bits
  import opened BlitConfig
  import F = BlitFast
  import W = BlitWords
  import opened BlitExact
  import opened BlitSchedule
  import opened BlitPeriod
  import opened BlitRefine
  import opened BlitTheorem

  /** The machine has written every word the loop has computed. */
  ghost predicate Written(c: Config, s: Data, d: Data, f: F.Fast)
    requires c.Valid()
  {
    && d.mem == F.Flush(c, f.mem, f.dst) && d.src == s.src.(prevb := ZERO, fetched := 0)
    && f.src == FastStart(c, s).src
    && d.alu == f.alu
    && d.at == d.dst && d.at.h < c.hsize
    && !d.pipe.use1 && !d.pipe.use2
    && d.dpt == At(c, s.dpt, c.dmod, d.dst.v, d.dst.h)
    && (d.dst.v < c.vsize ==> f.dst.pd == d.dpt)
  }

  lemma SlotsOfD(c: Config, d: Data, q: nat)
    requires c.Valid() && OnlyD(c)
    ensures Slots(c, d, PeriodRow(c, q)) == if q == 0 then d else DoDdma(c, d)
  {
    hide DoDdma;
    UnrollSlots(c, d, PeriodRow(c, q));
  }

  /** One D slot is one trip of the word loop. */
  lemma WordStep(c: Config, s: Data, d: Data, f: F.Fast)
    requires c.Valid() && Bitwise(c.path) && OnlyD(c)
    requires Written(c, s, d, f) && d.at.v < c.vsize
    ensures var t := DoDdma(c, d);
            t.at == NextAt(c, d.at) && Written(c, s, t, W.Next(c, f, d.at.h, false))
  {
    hide At, Put, Wrap, CountIf, MainDiagram, Combine, Low, Widen, Bitwise;
    CountSources(c);
    NextPointer(c, s.dpt, c.dmod, d.at);
    LowWiden(s.src.bhold);
    assert W.FetchAll(c, f.mem, f.src) == f.src;
  }

  /** Before period `q` the first `q - 1` words have been written. */
  ghost predicate AtPeriod(c: Config, s: Data, x: Exact, f: F.Fast, q: nat)
    requires c.Valid()
  {
    && q > 0 && !x.done && !x.wait && !x.final && x.cycle == q * P(c)
    && Written(c, s, x.d, f) && q - 1 == x.d.at.v * c.hsize + x.d.at.h
  }

  lemma LastRow2(c: Config, at: Counter)
    requires c.Valid() && at.h < c.hsize && at.v < c.vsize
    requires at.v * c.hsize + at.h + 1 == WordCount(c)
    ensures at == Counter(c.hsize - 1, c.vsize - 1)
  {
    if at.v + 1 < c.vsize {
      MulMonotone(at.v + 2, c.vsize, c.hsize);
      MulSucc(at.v, c.hsize);
      MulSucc(at.v + 1, c.hsize);
    } else {
      MulSucc(at.v, c.hsize);
    }
  }

  lemma LastStartedD(c: Config, d: Data, q: nat)
    requires c.Valid() && OnlyD(c) && d.at.h < c.hsize && q == d.at.v * c.hsize + d.at.h < WordCount(c)
    ensures LastStarted(c, d) <==> q + 1 == WordCount(c)
  {
    hide MainDiagram, CountIf;
    CountSources(c);
    Position(c, d.at, q);
    var n := NextAt(c, d.at);
    Position(c, n, q + 1);
    if q + 1 == WordCount(c) {
      LastRow2(c, d.at);
    }
  }

  /** `f` is the loop after `k` words of a blit that started
      as `f0`. */
  ghost predicate Reached(c: Config, f0: F.Fast, f: F.Fast, at: Counter, k: nat)
    requires c.Valid()
  {
    at.h < c.hsize && k == at.v * c.hsize + at.h && f == W.Words(c, f0, 0, k, false)
  }

  ghost function Advance(c: Config, at: Counter, k: nat): Counter
    decreases k
  {
    if k == 0 then at else Advance(c, NextAt(c, at), k - 1)
  }

  lemma {:induction false} WordsAppend(c: Config, f: F.Fast, at: Counter, k: nat)
    requires c.Valid() && at.h < c.hsize
    ensures W.Words(c, f, at.h, k + 1, false) == W.Next(c, W.Words(c, f, at.h, k, false), Advance(c, at, k).h, false)
    decreases k
  {
    hide W.Next;
    if k == 0 {
      assert W.Words(c, f, at.h, 1, false) == W.Words(c, W.Next(c, f, at.h, false), F.Succ(c, at.h), 0, false);
    } else {
      var g := W.Next(c, f, at.h, false);
      WordsAppend(c, g, NextAt(c, at), k - 1);
      assert W.Words(c, f, at.h, k + 1, false) == W.Words(c, g, F.Succ(c, at.h), k, false);
      assert W.Words(c, f, at.h, k, false) == W.Words(c, g, F.Succ(c, at.h), k - 1, false);
    }
  }

  lemma {:induction false} AdvancePosition(c: Config, at: Counter, k: nat, to: Counter)
    requires c.Valid() && at.h < c.hsize && to.h < c.hsize
    requires at.v * c.hsize + at.h + k == to.v * c.hsize + to.h
    ensures Advance(c, at, k) == to
    decreases k
  {
    if k == 0 {
      SamePosition(at.v, at.h, to.v, to.h, c.hsize);
    } else {
      Position(c, at, at.v * c.hsize + at.h);
      AdvancePosition(c, NextAt(c, at), k - 1, to);
    }
  }

  lemma ReachedNext(c: Config, f0: F.Fast, f: F.Fast, at: Counter, k: nat)
    requires c.Valid() && Reached(c, f0, f, at, k)
    ensures Reached(c, f0, W.Next(c, f, at.h, false), NextAt(c, at), k + 1)
  {
    hide W.Next, W.Words;
    WordsAppend(c, f0, Counter(0, 0), k);
    AdvancePosition(c, Counter(0, 0), k, at);
    Position(c, at, k);
  }

  lemma WrittenBasics(c: Config, s: Data, d: Data, f: F.Fast)
    requires c.Valid() && Written(c, s, d, f)
    ensures d.at == d.dst && d.at.h < c.hsize && !d.pipe.use1 && !d.pipe.use2
  {
  }

  /** One period of a D-only blit. */
  lemma PeriodStepD(c: Config, s: Data, x: Exact, f: F.Fast, q: nat)
    requires c.Valid() && Bitwise(c.path) && OnlyD(c)
    requires AtPeriod(c, s, x, f, q) && q < WordCount(c)
    requires Reached(c, FastStart(c, s), f, x.d.at, q - 1)
    ensures var t := Ideal(c, x, P(c)); var f' := W.Next(c, f, x.d.at.h, false);
            && t.total == x.total + P(c) && t.d.at == NextAt(c, x.d.at)
            && Reached(c, FastStart(c, s), f', t.d.at, q)
            && (if q + 1 < WordCount(c) then AtPeriod(c, s, t, f', q + 1)
                else Written(c, s, t.d, f') && t.d.at.v < c.vsize
                     && t.final && t.cycle == 0 && !t.done && !t.wait)
  {
    hide Slots, Written, W.Next, W.Words, FastStart, Ideal, Bitwise, MainDiagram, DoDdma;
    var at := x.d.at;
    assert Written(c, s, x.d, f);
    Position(c, at, q - 1);
    Position(c, NextAt(c, at), q);
    ReachedNext(c, FastStart(c, s), f, at, q - 1);
    WordStep(c, s, x.d, f);
    SlotsOfD(c, x.d, q);
    var d := DoDdma(c, x.d);
    WrittenBasics(c, s, d, W.Next(c, f, at.h, false));
    LastStartedD(c, d, q);
    DiagramShape(c, false);
    StateAndPos(c, q, 0);
    assert PeriodRow(c, q)[0..P(c)] == PeriodRow(c, q);
    RestOfPeriod(c, x, q, 0, P(c));
    assert (q + 1) * P(c) == q * P(c) + P(c);
  }

  lemma {:induction false} MainRunD(c: Config, s: Data, x: Exact, f: F.Fast, q: nat)
    requires c.Valid() && Bitwise(c.path) && OnlyD(c)
    requires AtPeriod(c, s, x, f, q) && q < WordCount(c)
    requires Reached(c, FastStart(c, s), f, x.d.at, q - 1)
    ensures var n := WordCount(c) - q;
            var t := Ideal(c, x, n * P(c));
            var g := W.Words(c, FastStart(c, s), 0, WordCount(c) - 1, false);
            && t.total == x.total + n * P(c)
            && Reached(c, FastStart(c, s), g, t.d.at, WordCount(c) - 1)
            && Written(c, s, t.d, g) && t.d.at.v < c.vsize
            && t.final && t.cycle == 0 && !t.done && !t.wait
    decreases WordCount(c) - q
  {
    hide Written, W.Next, W.Words, FastStart, Ideal, Bitwise, MainDiagram, P;
    PeriodStepD(c, s, x, f, q);
    var n := WordCount(c) - q;
    MulSucc(n - 1, P(c));
    IdealAdd(c, x, P(c), (n - 1) * P(c));
    var t := Ideal(c, x, P(c));
    if q + 1 < WordCount(c) {
      MainRunD(c, s, t, W.Next(c, f, x.d.at.h, false), q + 1);
    } else {
      assert n == 1 && n * P(c) == P(c);
      IdealZero(c, t);
    }
  }

  lemma TwoSteps(c: Config, x: Exact, y: Exact, z: Exact)
    requires c.Valid() && !x.done && !y.done && y == Step(c, x, Free) && z == Step(c, y, Free)
    ensures Ideal(c, x, 2) == z
  {
    hide Step;
    assert Ideal(c, x, 2) == Ideal(c, y, 1) == Ideal(c, z, 0) == z;
  }

  lemma StartWritten(c: Config, d: Data, t: Data)
    requires c.Valid() && OnlyD(c) && Pointers(d) && t == Start(c, d, false, false).d
    ensures Written(c, d, t, FastStart(c, d))
  {
    hide CountIf, MainDiagram, Low, Widen;
    CountSources(c);
    LowWiden(d.src.bhold);
  }

  /** The start-up slots and the first period write nothing. */
  lemma StartUpD(c: Config, d: Data, stale: bool)
    requires c.Valid() && OnlyD(c) && Pointers(d)
    ensures var x := Start(c, d, false, stale); var t := Ideal(c, x, 2 + P(c)); var f := FastStart(c, d);
            && t.total == 2 + P(c) && !t.done && !t.wait
            && Written(c, d, t.d, f) && t.d.at == Counter(0, 0)
            && (if WordCount(c) > 1 then AtPeriod(c, d, t, f, 1) else t.final && t.cycle == 0)
  {
    hide DoDma, DoDdma, CountIf, MainDiagram, FastStart, Written, Ideal;
    var x := Start(c, d, false, stale);
    DiagramShape(c, false);
    CountSources(c);
    var y := Step(c, x, Free);
    assert y == Idle(c, x);
    var z := Step(c, y, Free);
    assert z == Idle(c, y);
    TwoSteps(c, x, y, z);
    IdealAdd(c, x, 2, P(c));
    assert Written(c, d, z.d, FastStart(c, d)) by { StartWritten(c, d, z.d); }
    SlotsOfD(c, z.d, 0);
    StateAndPos(c, 0, 0);
    assert PeriodRow(c, 0)[0..P(c)] == PeriodRow(c, 0);
    RestOfPeriod(c, z, 0, 0, P(c));
    LastStartedD(c, z.d, 0);
  }

  /** The last word is computed and written in the final D slot. */
  lemma FinalSlotsD(c: Config, s: Data, x: Exact, f: F.Fast)
    requires c.Valid() && Bitwise(c.path) && OnlyD(c)
    requires x.final && x.cycle == 0 && !x.done && !x.wait
    requires Written(c, s, x.d, f) && x.d.at.v < c.vsize
    requires Reached(c, FastStart(c, s), f, x.d.at, WordCount(c) - 1)
    ensures var t := Ideal(c, x, 2); var g := W.Next(c, f, x.d.at.h, false);
            t.done && t.total == x.total + 2 && Written(c, s, t.d, g) && t.d.dst == Counter(0, c.vsize)
            && g == W.Words(c, FastStart(c, s), 0, WordCount(c), false)
  {
    hide DoDma, DoDdma, CountIf, MainDiagram, Written, FastStart, W.Next, W.Words, Bitwise, Ideal;
    CountSources(c);
    var y := Step(c, x, Free);
    assert ChannelState(c, 0, true) == 0 && ChannelState(c, 1, true) == 4;
    assert y.d == x.d && y.cycle == 1 && y.final && !y.done && y.total == x.total + 1 && !y.wait;
    WordStep(c, s, x.d, f);
    ReachedNext(c, FastStart(c, s), f, x.d.at, WordCount(c) - 1);
    var d := DoDdma(c, x.d);
    WrittenBasics(c, s, d, W.Next(c, f, x.d.at.h, false));
    LastRow2(c, x.d.at);
    var z := Step(c, y, Free);
    assert z.d == d && z.done;
    TwoSteps(c, x, y, z);
  }

  /** What `Written` says at the end. */
  lemma EndResultD(c: Config, s: Data, t: Data, f: F.Fast)
    requires c.Valid() && OnlyD(c) && Written(c, s, t, f) && t.dst == Counter(0, c.vsize)
    ensures SameResult(c, s, t, f.(mem := F.Flush(c, f.mem, f.dst)))
  {
    hide At, Low, Widen, Put, EndPointer;
    EndPointerAt(c, s.dpt, c.dmod);
    LowWiden(s.src.bhold);
  }

  lemma WordsZero(c: Config, f: F.Fast)
    requires c.Valid()
    ensures W.Words(c, f, 0, 0, false) == f
  {
  }

  /** The free-running machine with D alone. */
  lemma IdealRefinesD(c: Config, d: Data, stale: bool)
    requires c.Valid() && Bitwise(c.path) && OnlyD(c) && Pointers(d)
    ensures var t := Ideal(c, Start(c, d, false, stale), TotalSlots(c));
            && t.done && t.total == TotalSlots(c)
            && SameResult(c, d, t.d, W.Blit(c, FastStart(c, d), false))
  {
    hide Written, W.Next, W.Words, Ideal, Bitwise, MainDiagram, P, Start, AtPeriod, FastStart, Step;
    var x := Start(c, d, false, stale);
    var f := FastStart(c, d);
    StartUpD(c, d, stale);
    var y := Ideal(c, x, 2 + P(c));
    assert TotalSlots(c) == 2 + P(c) + (WordCount(c) - 1) * P(c) + 2 by {
      TotalSlotsAre(c);
      assert WordCount(c) * P(c) == P(c) + (WordCount(c) - 1) * P(c);
    }
    assert WordCount(c) >= 1 by { MulMonotone(1, c.vsize, c.hsize); }
    assert Reached(c, f, f, Counter(0, 0), 0) by { WordsZero(c, f); }
    var n := WordCount(c) - 1;
    var z := Ideal(c, y, n * P(c));
    var g := W.Words(c, f, 0, n, false);
    IdealAdd(c, x, 2 + P(c), n * P(c));
    if WordCount(c) > 1 {
      MainRunD(c, d, y, f, 1);
    } else {
      assert n * P(c) == 0;
      IdealZero(c, y);
      WordsZero(c, f);
    }
    FinalSlotsD(c, d, z, g);
    IdealAdd(c, x, 2 + P(c) + n * P(c), 2);
    var t := Ideal(c, z, 2);
    EndResultD(c, d, t.d, W.Next(c, g, z.d.at.h, false));
  }

  /** For every sequence of grants, D alone: exactly `TotalSlots` counted
      slots, and the result of the word loop with the carry running on. */
  lemma ExactWithDAlone(c: Config, d: Data, copper: bool, stale: bool, gs: seq<Grant>)
    requires c.Valid() && Bitwise(c.path) && OnlyD(c) && Pointers(d)
    ensures var t := Run(c, Start(c, d, copper, stale), gs);
            && t.total <= TotalSlots(c)
            && (t.done <==> t.total == TotalSlots(c))
            && (t.done ==> SameResult(c, d, t.d, W.Blit(c, FastStart(c, d), false)))
            && (CountFree(gs) >= TotalSlots(c) + (if copper then 1 else 0) ==> t.done)
  {
    hide Run, Ideal, TotalSlots, SameResult, NoD, FastStart, Bitwise, W.Blit;
    var s := Start(c, d, copper, stale);
    assert Awake(s) == Start(c, d, false, stale);
    StartSettled(c, d, copper, stale);
    IdealRefinesD(c, d, stale);
    RunExact(c, s, TotalSlots(c), gs);
  }

  // ----- no channel at all

  /** A blit without channels takes two slots more than it has words, after
      the start-up; a single word is counted again in the final diagram. */
  function IdleSlots(c: Config): nat {
    if WordCount(c) == 1 then 7 else WordCount(c) + 4
  }

  lemma NoSlotServes(c: Config, cycle: int, final: bool)
    requires NoChannels(c)
    ensures ChannelState(c, cycle, final) == 0 && NoD(c) && SourceCount(c) == 0
  {
    CountSources(c);
    if cycle >= 2 {
      assert [0, 0][(cycle - 2) % 2] == 0;
    }
  }

  lemma {:induction false} IdleRun(c: Config, x: Exact, n: nat)
    requires c.Valid() && NoChannels(c) && !x.done && !x.wait
    requires x.cycle >= 0 && x.cycle + n == MaxCycles(c) && n > 0
    requires x.final || !LastStarted(c, x.d)
    ensures var t := Ideal(c, x, n); t.done && t.total == x.total + n && t.d == x.d
    decreases n
  {
    hide CountIf, LastStarted, MaxCycles;
    var t := Step(c, x, Free);
    assert ChannelState(c, x.cycle, x.final) == 0 by { NoSlotServes(c, x.cycle, x.final); }
    assert t.d == x.d && t.cycle == x.cycle + 1 && t.total == x.total + 1;
    if n > 1 {
      IdleRun(c, t, n - 1);
      assert Ideal(c, x, n) == Ideal(c, t, n - 1);
    } else {
      assert Ideal(c, x, 1) == Ideal(c, t, 0) == t;
    }
  }

  lemma OneWord(c: Config)
    requires c.Valid() && WordCount(c) == 1
    ensures c.hsize == 1 && c.vsize == 1
  {
    if c.vsize > 1 {
      MulMonotone(2, c.vsize, c.hsize);
    } else if c.hsize > 1 {
      MulMonotone(2, c.hsize, c.vsize);
    }
  }

  lemma IdealIdle(c: Config, d: Data, stale: bool)
    requires c.Valid() && NoChannels(c)
    ensures var x := Start(c, d, false, stale); var t := Ideal(c, x, IdleSlots(c));
            t.done && t.total == IdleSlots(c) && t.d == x.d
  {
    hide Ideal, DoDma, DoDdma, CountIf;
    var x := Start(c, d, false, stale);
    NoSlotServes(c, 0, false);
    NoSlotServes(c, 1, false);
    var y := Step(c, x, Free);
    var z := Step(c, y, Free);
    TwoSteps(c, x, y, z);
    assert z.cycle == 0 && !z.final && z.d == x.d && z.total == 2 && !z.done;
    assert WordCount(c) >= 1 by { MulMonotone(1, c.vsize, c.hsize); }
    assert MaxCycles(c) == WordCount(c) + 2;
    if WordCount(c) == 1 {
      OneWord(c);
      var u := Step(c, z, Free);
      var w := Step(c, u, Free);
      TwoSteps(c, z, u, w);
      IdealAdd(c, x, 2, 2);
      assert w.final && w.cycle == 0 && !w.done && w.total == 4;
      IdleRun(c, w, 3);
      IdealAdd(c, x, 4, 3);
    } else {
      assert !LastStarted(c, z.d);
      IdleRun(c, z, WordCount(c) + 2);
      IdealAdd(c, x, 2, WordCount(c) + 2);
    }
  }

  /** Without channels nothing is read, computed or written, whatever the
      grants; in particular blitzero stays set, whatever the data registers
      hold. */
  lemma NoChannelsDoNothing(c: Config, d: Data, copper: bool, stale: bool, gs: seq<Grant>)
    requires c.Valid() && NoChannels(c)
    ensures var s := Start(c, d, copper, stale); var t := Run(c, s, gs);
            && (t.done <==> t.total == IdleSlots(c))
            && (t.done ==> t.d == s.d && t.d.mem == d.mem && t.d.alu.zero)
            && (CountFree(gs) >= IdleSlots(c) + (if copper then 1 else 0) ==> t.done)
  {
    hide Run, Ideal, NoD, DoDma, DoDdma, MainDiagram, CountIf;
    var s := Start(c, d, copper, stale);
    StartSettled(c, d, copper, stale);
    var x := Awake(s);
    IdealIdle(c, d, stale);
    RunExact(c, s, IdleSlots(c), gs);
  }

  // ----- any channels

  /** A fair schedule completes every blit, whatever its channels and
      pointers. */
  lemma FairScheduleCompletes(c: Config, d: Data, copper: bool, stale: bool, g: int -> Grant)
    requires c.Valid() && Bitwise(c.path) && Pointers(d) && Fair(g)
    ensures exists n: nat :: Run(c, Start(c, d, copper, stale), Prefix(g, n)).done
  {
    hide Run, Start, TotalSlots, SameResult, Bitwise, W.Blit, FastStart;
    if HasSource(c) {
      var n := FairGrantsEnough(g, TotalSlots(c) + 1);
      ExactRefinesWords(c, d, copper, stale, Prefix(g, n));
    } else if c.useD {
      var n := FairGrantsEnough(g, TotalSlots(c) + 1);
      ExactWithDAlone(c, d, copper, stale, Prefix(g, n));
    } else {
      var n := FairGrantsEnough(g, IdleSlots(c) + 1);
      NoChannelsDoNothing(c, d, copper, stale, Prefix(g, n));
    }
  }
}
