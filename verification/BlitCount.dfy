/** How many bus slots a cycle-exact blit takes, as a number of its registers,
    and which channel each of them serves. */
module BlitCount {
  import opened Bits
  import opened BlitConfig
  import opened BlitRegisters
  import opened BlitFields
  import opened BlitExact
  import opened BlitSchedule
  import opened BlitPeriod
  import opened BlitRefine
  import opened BlitTheorem
  import opened BlitOnlyD
  import opened BlitRowCarry

  function One(b: bool): nat { if b then 1 else 0 }

  /** The slots of a word: two, one more for B, one more if both C and D need
      the second, and one more to fill a word that comes without C. */
  function PerWord(b: bool, c: bool, d: bool, fill: bool): nat {
    2 + One(b) + One(c && d) + One(fill && d && !c)
  }

  /** The channel served in slot `i` of a word: A in the first slot, then B, C
      and D as far as they are on; D has no word yet in the first period. */
  function Served(a: bool, b: bool, c: bool, d: bool, first: bool, i: nat): nat {
    if a && i == 0 then 1
    else if b && i == 1 then 2
    else if c && i == 1 + One(b) then 3
    else if d && !first && i == 1 + One(b) + One(c) then 4
    else 0
  }

  lemma DiagramIs(c: Config)
    ensures MainDiagram(c).Period() == PerWord(c.useB, c.useC, c.useD, c.fillMode)
    ensures forall i: nat :: i < MainDiagram(c).Period() ==>
              |MainDiagram(c).first| == |MainDiagram(c).main|
              && MainDiagram(c).first[i] == Served(c.useA, c.useB, c.useC, c.useD, true, i)
              && MainDiagram(c).main[i] == Served(c.useA, c.useB, c.useC, c.useD, false, i)
  {
  }

  /** Slot `i` of word `q`, counted from the end of the start-up. */
  lemma ChannelIs(c: Config, q: nat, i: nat)
    requires i < PerWord(c.useB, c.useC, c.useD, c.fillMode)
    ensures ChannelState(c, q * PerWord(c.useB, c.useC, c.useD, c.fillMode) + i, false)
         == Served(c.useA, c.useB, c.useC, c.useD, q == 0, i)
  {
    hide Served, PerWord, ChannelState, MainDiagram;
    DiagramIs(c);
    StateAndPos(c, q, i);
  }

  /** The two slots behind the last word: idle, and the last D word. */
  lemma FinalIs(c: Config)
    ensures ChannelState(c, 0, true) == 0 && ChannelState(c, 1, true) == if c.useD then 4 else 0
  {
    hide CountIf, MainDiagram;
    CountSources(c);
  }

  /** The slots of a blit of `n` words.  With D: two to start, those of every
      word, and two to finish.  Without D the blit is over with the last source
      of the last word.  Without any channel it takes one slot a word and two
      more, a single word three more than that. */
  function SlotsOf(a: bool, b: bool, c: bool, d: bool, fill: bool, n: nat): int {
    if d then 2 + n * PerWord(b, c, d, fill) + 2
    else if c then 2 + n * (2 + One(b))
    else if b then 2 + (n - 1) * 3 + 2
    else if a then 2 + (n - 1) * 2 + 1
    else if n == 1 then 7 else n + 4
  }

  lemma TotalIs(c: Config)
    requires c.Valid() && (HasSource(c) || c.useD)
    ensures TotalSlots(c) == SlotsOf(c.useA, c.useB, c.useC, c.useD, c.fillMode, c.hsize * c.vsize)
  {
    hide MainDiagram;
    DiagramIs(c);
    var n, p := WordCount(c), PerWord(c.useB, c.useC, c.useD, c.fillMode);
    assert (n - 1) * p + p == n * p;
  }

  lemma IdleIs(c: Config)
    ensures IdleSlots(c) == SlotsOf(false, false, false, false, c.fillMode, c.hsize * c.vsize)
  {
  }

  lemma CountOf(c: Config, d: Data, copper: bool, stale: bool, gs: seq<Grant>)
    requires c.Valid() && Bitwise(c.path) && Pointers(d)
    ensures var t := Run(c, Start(c, d, copper, stale), gs);
            var n := SlotsOf(c.useA, c.useB, c.useC, c.useD, c.fillMode, c.hsize * c.vsize);
            (t.done <==> t.total == n) && (CountFree(gs) >= n + One(copper) ==> t.done)
  {
    hide Run, Start, TotalSlots, SameResult, SlotsOf, Bitwise;
    if HasSource(c) {
      TotalIs(c);
      ExactRefinesWords(c, d, copper, stale, gs);
    } else if c.useD {
      TotalIs(c);
      ExactWithDAlone(c, d, copper, stale, gs);
    } else {
      NoChannelsDoNothing(c, d, copper, stale, gs);
      assert SlotsOf(false, false, false, false, c.fillMode, c.hsize * c.vsize) == IdleSlots(c) by {
        IdleIs(c);
      }
    }
  }

  lemma SizesAre(r: Registers)
    requires |r.table| == 1024
    ensures Configure(r).hsize == r.hsize && Configure(r).vsize == r.vsize
  {
  }

  /** For every sequence of grants: the blit is done exactly when the number of
      slots that its registers give have been counted, and it is done once as
      many were free. */
  lemma SlotCount(r: Registers, d: Data, copper: bool, stale: bool, gs: seq<Grant>)
    requires r.Valid() && Pointers(d)
    ensures var c := Configure(r); var t := Run(c, Start(c, d, copper, stale), gs);
            var n := SlotsOf(Flag(r.con0, 0x800), Flag(r.con0, 0x400), Flag(r.con0, 0x200), Flag(r.con0, 0x100),
                             Flag(r.con1, 8) || Flag(r.con1, 0x10), r.hsize * r.vsize);
            (t.done <==> t.total == n) && (CountFree(gs) >= n + One(copper) ==> t.done)
  {
    hide Configure, Run, Start, SlotsOf, Flag, Bitwise;
    ConfigureIsSerial(r);
    FieldsAre(r);
    SizesAre(r);
    CountOf(Configure(r), d, copper, stale, gs);
  }

  // ----- which slots are counted

  /** A slot counts if and only if the bus is free in it; only the idle slot
      behind the last word counts in any case, unless a fill needs its bus. */
  lemma CountedWhen(c: Config, s: Exact, g: Grant)
    requires c.Valid() && !s.done && !s.wait
    ensures Step(c, s, g).total
         == s.total + One(g == Free || (s.final && s.cycle >= 0 && ChannelState(c, s.cycle, true) == 0
                                        && !(c.fillMode && c.useD && !c.useC)))
  {
    hide DoDma, DoDdma, LastStarted, ChannelState, ChannelPos;
  }

  /** Still at its words. */
  predicate Working(s: Exact) { s.cycle < 0 || !s.final }

  /** A slot is wanted by a channel, unless DMA is off while words are left, or
      by the idle slot behind the last word of a fill, if that has to wait; each
      slot that is not counted is missed. */
  lemma WantedWhen(c: Config, s: Exact, g: Grant)
    requires c.Valid() && !s.done && !s.wait
    ensures var ch := ChannelState(c, s.cycle, s.final); var t := Step(c, s, g);
            && t.nasty == s.nasty + (if ch != 0 then One(g != DmaOff || !Working(s))
                                     else One(!Working(s) && g != Free && c.fillMode && c.useD && !c.useC))
            && t.missed + t.total == s.missed + s.total + 1
  {
    hide DoDma, DoDdma, LastStarted, ChannelState, ChannelPos;
  }

  lemma WorkingBefore(c: Config, s: Exact, g: Grant)
    requires c.Valid() && !s.done && Working(Step(c, s, g))
    ensures Working(s)
  {
    hide DoDma, DoDdma, LastStarted, ChannelState, ChannelPos;
  }

  lemma CountsFree(c: Config, s: Exact, g: Grant)
    requires c.Valid() && !s.done && !s.wait && Working(s)
    ensures Step(c, s, g).total == s.total + One(g == Free)
  {
    hide Step;
    CountedWhen(c, s, g);
  }

  lemma StaysAwake(c: Config, s: Exact, g: Grant)
    requires c.Valid()
    ensures !Step(c, s, g).wait
  {
    hide DoDma, DoDdma, LastStarted, ChannelState, ChannelPos;
  }

  lemma {:induction false} RunCounts(c: Config, s: Exact, gs: seq<Grant>)
    requires c.Valid() && !s.wait && !s.done
    ensures var t := Run(c, s, gs); Working(t) && !t.done ==> Working(s) && t.total == s.total + CountFree(gs)
    decreases |gs|
  {
    hide Step, Working;
    if gs != [] {
      var u := Step(c, s, gs[0]);
      StaysAwake(c, s, gs[0]);
      if !u.done {
        RunCounts(c, u, gs[1..]);
        if Working(u) {
          WorkingBefore(c, s, gs[0]);
          CountsFree(c, s, gs[0]);
        }
      }
    }
  }

  lemma FirstTrip(c: Config, s: Exact, g: Grant)
    requires c.Valid() && s.wait && Settled(c, s)
    ensures var t := Step(c, s, g); t == s.(wait := false) || t.done
  {
    hide DoDma, DoDdma, LastStarted, ChannelState, ChannelPos;
  }

  /** As long as a blit is at its words, it has counted exactly the free slots;
      one the copper started loses its first slot. */
  lemma FreeSlotsCount(c: Config, d: Data, copper: bool, stale: bool, gs: seq<Grant>)
    requires c.Valid() && (copper ==> gs != [])
    ensures var t := Run(c, Start(c, d, copper, stale), gs);
            Working(t) && !t.done ==> t.total == CountFree(if copper then gs[1..] else gs)
  {
    hide Step, Working, NoD, Settled;
    var s := Start(c, d, copper, stale);
    if copper {
      StartSettled(c, d, copper, stale);
      FirstTrip(c, s, gs[0]);
      RunCounts(c, s.(wait := false), gs[1..]);
    } else {
      RunCounts(c, s, gs);
    }
  }
}
