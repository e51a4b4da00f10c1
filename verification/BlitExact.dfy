/** The cycle-exact block blit as a state machine: one step per bus slot, any
    of which may be refused. */
module BlitExact {
  import opened ChipMemory
  import opened Bits
  import opened BlitConfig

  /** Who owns a bus slot: blitter DMA is off, someone else has the bus, or the
      blitter may use it. */
  datatype Grant = DmaOff | Busy | Free

  /** How many slots of a run the blitter may use. */
  ghost function CountFree(gs: seq<Grant>): nat {
    if gs == [] then 0 else (if gs[0] == Free then 1 else 0) + CountFree(gs[1..])
  }

  /** The grants of the positions from `lo` to `hi` of a line. */
  ghost function Grants(line: int -> Grant, lo: nat, hi: nat): seq<Grant>
    requires lo <= hi
  {
    seq(hi - lo, i => line(lo + i))
  }

  /** Which channel each slot of a period belongs to: 0 idle, 1-3 the sources
      A-C, 4 D.  The first period has no D word to write yet. */
  datatype Diagram = Diagram(first: seq<nat>, main: seq<nat>)
  {
    function Period(): nat { |main| }
  }

  /** blit_cycle_diagram, indexed by the four channel enable bits. */
  function PlainDiagram(a: bool, b: bool, c: bool, d: bool): Diagram {
    match (a, b, c, d)
    case (false, false, false, false) => Diagram([0, 0], [0, 0])
    case (false, false, false, true) => Diagram([0, 0], [0, 4])
    case (false, false, true, false) => Diagram([0, 3], [0, 3])
    case (false, false, true, true) => Diagram([0, 3, 0], [0, 3, 4])
    case (false, true, false, false) => Diagram([0, 2, 0], [0, 2, 0])
    case (false, true, false, true) => Diagram([0, 2, 0], [0, 2, 4])
    case (false, true, true, false) => Diagram([0, 2, 3], [0, 2, 3])
    case (false, true, true, true) => Diagram([0, 2, 3, 0], [0, 2, 3, 4])
    case (true, false, false, false) => Diagram([1, 0], [1, 0])
    case (true, false, false, true) => Diagram([1, 0], [1, 4])
    case (true, false, true, false) => Diagram([1, 3], [1, 3])
    case (true, false, true, true) => Diagram([1, 3, 0], [1, 3, 4])
    case (true, true, false, false) => Diagram([1, 2, 0], [1, 2, 0])
    case (true, true, false, true) => Diagram([1, 2, 0], [1, 2, 4])
    case (true, true, true, false) => Diagram([1, 2, 3], [1, 2, 3])
    case (true, true, true, true) => Diagram([1, 2, 3, 0], [1, 2, 3, 4])
  }

  /** The four channel combinations that need an extra idle slot in fill mode
      (blit_cycle_diagram_fill). */
  predicate ExtraIdle(c: bool, d: bool) {
    d && !c
  }

  function FillDiagram(a: bool, b: bool): Diagram {
    match (a, b)
    case (false, false) => Diagram([0, 0, 0], [0, 4, 0])
    case (false, true) => Diagram([0, 2, 0, 0], [0, 2, 4, 0])
    case (true, false) => Diagram([1, 0, 0], [1, 4, 0])
    case (true, true) => Diagram([1, 2, 0, 0], [1, 2, 4, 0])
  }

  predicate FillExtra(c: Config) {
    c.fillMode && ExtraIdle(c.useC, c.useD)
  }

  function MainDiagram(c: Config): Diagram {
    if FillExtra(c) then FillDiagram(c.useA, c.useB)
    else PlainDiagram(c.useA, c.useB, c.useC, c.useD)
  }

  const FINAL_D := Diagram([0, 4], [0, 4])
  const FINAL_IDLE := Diagram([0, 0], [0, 0])

  function CountIf(s: seq<nat>, lo: nat, hi: nat): nat {
    if s == [] then 0
    else (if lo <= s[0] <= hi then 1 else 0) + CountIf(s[1..], lo, hi)
  }

  /** blit_dmacount2: source fetches in one period. */
  function SourceCount(c: Config): nat {
    CountIf(MainDiagram(c).main, 1, 3)
  }

  /** blit_nod: no slot of the period writes D. */
  predicate NoD(c: Config) {
    CountIf(MainDiagram(c).main, 4, 4) == 0
  }

  /** Source pointers, source data registers, and how many sources of the
      current word have arrived. */
  datatype Sources = Sources(
    apt: nat, bpt: nat, cpt: nat,
    adat: Word, bdat: Word, cdat: Word, bhold: Word, prevb: Word, fetched: nat)

  /** The two-deep pipeline of D words. */
  datatype Pipe = Pipe(ddat1: Word, ddat2: Word, use1: bool, use2: bool)

  /** A word and row counter. */
  datatype Counter = Counter(h: nat, v: nat)

  /** The datapath, with a counter for the source side and one for the
      destination side. */
  datatype Data = Data(
    mem: seq<Word>, src: Sources, alu: Alu, pipe: Pipe, at: Counter, dpt: nat, dst: Counter)

  /** The whole machine: the datapath, the position in the diagram and the
      bookkeeping counters. */
  datatype Exact = Exact(
    d: Data, cycle: int, final: bool, done: bool,
    wait: bool, total: nat, missed: nat, nasty: nat)

  function CurrentDiagram(c: Config, final: bool): Diagram {
    if !final then MainDiagram(c) else if NoD(c) then FINAL_IDLE else FINAL_D
  }

  /** Every diagram has both rows of one, nonzero, length. */
  lemma DiagramShape(c: Config, final: bool)
    ensures var g := CurrentDiagram(c, final);
            |g.first| == |g.main| && 2 <= g.Period() <= 4
  {
  }

  function ChannelState(c: Config, cycle: int, final: bool): nat {
    if cycle < 0 then 0 else
    var g := CurrentDiagram(c, final);
    DiagramShape(c, final);
    if cycle < g.Period() then g.first[cycle] else g.main[(cycle - g.Period()) % g.Period()]
  }

  function ChannelPos(c: Config, cycle: int, final: bool): int {
    if cycle < 0 then 0 else
    var g := CurrentDiagram(c, final);
    DiagramShape(c, final);
    if cycle < g.Period() then cycle else (cycle - g.Period()) % g.Period()
  }

  /** blitter_doblit: the D word of column `h`. */
  function DoBlit(c: Config, s: Sources, u: Alu, h: nat): (Word, Alu)
    requires c.Valid()
  {
    Combine(c, u, h, s.adat, Widen(s.bhold), s.cdat)
  }

  /** The word fetch of blitter_dodma. */
  function Fetch(c: Config, mem: seq<Word>, s: Sources, ch: nat): Sources
    requires c.Valid()
  {
    if ch == 1 then
      s.(adat := Get(mem, c.span, s.apt), apt := Wrap(s.apt + c.Stride()))
    else if ch == 2 then
      var b := Get(mem, c.span, s.bpt);
      s.(bdat := b, bpt := Wrap(s.bpt + c.Stride()),
         bhold := Low(c.path.shiftB(s.prevb, b)), prevb := b)
    else
      s.(cdat := Get(mem, c.span, s.cpt), cpt := Wrap(s.cpt + c.Stride()))
  }

  /** The source pointers at the end of a row. */
  function SourceRowEnd(c: Config, s: Sources): Sources {
    s.(apt := if c.useA then Wrap(s.apt + c.Signed(c.amod)) else s.apt,
       bpt := if c.useB then Wrap(s.bpt + c.Signed(c.bmod)) else s.bpt,
       cpt := if c.useC then Wrap(s.cpt + c.Signed(c.cmod)) else s.cpt)
  }

  /** All sources of a word have arrived: compute it and push it into the
      D pipeline. */
  function Push(c: Config, d: Data): Data
    requires c.Valid()
  {
    var r := DoBlit(c, d.src, d.alu, d.at.h);
    var p := Pipe(r.0, d.pipe.ddat1, c.useD, d.pipe.use1);
    var s := d.src.(fetched := 0);
    if d.at.h + 1 == c.hsize then
      d.(src := SourceRowEnd(c, s), alu := r.1.(carry := c.fillCarry), pipe := p,
         at := Counter(0, d.at.v + 1))
    else
      d.(src := s, alu := r.1, pipe := p, at := Counter(d.at.h + 1, d.at.v))
  }

  function DoDma(c: Config, d: Data, ch: nat): Data
    requires c.Valid()
  {
    var s := Fetch(c, d.mem, d.src, ch);
    var t := d.(src := s.(fetched := s.fetched + 1));
    if t.src.fetched >= SourceCount(c) then Push(c, t) else t
  }

  /** One D write and the advance of the destination side. */
  function WriteD(c: Config, d: Data, w: Word): Data
    requires c.Valid()
  {
    var mem := Put(d.mem, c.span, d.dpt, w);
    var dpt := Wrap(d.dpt + c.Stride());
    if d.dst.h + 1 != c.hsize then
      d.(mem := mem, dpt := dpt, dst := Counter(d.dst.h + 1, d.dst.v))
    else
      var v1 := if SourceCount(c) == 0 then d.at.v + 1 else d.at.v;
      d.(mem := mem, dpt := Wrap(dpt + c.Signed(c.dmod)), dst := Counter(0, d.dst.v + 1),
         at := d.at.(v := if d.dst.v + 1 > v1 then d.dst.v + 1 else v1))
  }

  predicate OnlyD(c: Config) {
    !c.useA && !c.useB && !c.useC && c.useD
  }

  /** blitter_doddma. */
  function DoDdma(c: Config, d: Data): Data
    requires c.Valid()
  {
    if SourceCount(c) == 0 then
      var r := DoBlit(c, d.src, d.alu, d.at.h);
      var t := WriteD(c, d.(alu := r.1), r.0);
      if OnlyD(c) then t.(at := t.at.(h := t.dst.h)) else t
    else if d.pipe.use2 then WriteD(c, d.(pipe := d.pipe.(use2 := false)), d.pipe.ddat2)
    else if d.pipe.use1 then WriteD(c, d.(pipe := d.pipe.(use1 := false)), d.pipe.ddat1)
    else d
  }

  /** No word is left to be read, computed or written. */
  predicate Finished(c: Config, d: Data) {
    d.at.v >= c.vsize && d.dst.v >= c.vsize && !d.pipe.use1 && !d.pipe.use2
  }

  function MaxCycles(c: Config): nat {
    c.hsize * c.vsize + 2
  }

  predicate NoChannels(c: Config) {
    !c.useA && !c.useB && !c.useC && !c.useD
  }

  /** The slot is used: the effect of channel `ch`. */
  function Serve(c: Config, s: Exact, ch: nat): Exact
    requires c.Valid()
  {
    var d := if ch == 4 then DoDdma(c, s.d)
             else if s.d.at.v < c.vsize then DoDma(c, s.d, ch)
             else s.d;
    s.(d := d, cycle := s.cycle + 1, total := s.total + 1,
       done := Finished(c, d))
  }

  /** An idle slot goes by. */
  function Idle(c: Config, s: Exact): Exact {
    s.(cycle := s.cycle + 1, total := s.total + 1,
       final := if s.cycle + 1 == 0 then false else s.final,
       done := NoChannels(c) && s.cycle + 1 >= MaxCycles(c))
  }

  /** The body of the inner `for`: what one slot does under grant `g`. */
  function Trip(c: Config, s: Exact, g: Grant): Exact
    requires c.Valid()
  {
    var ch := ChannelState(c, s.cycle, s.final);
    if s.wait then s.(wait := false)
    else if ((ch == 0 && g == Busy) || g == DmaOff) && (s.cycle < 0 || !s.final) then
      s.(missed := s.missed + 1)
    else if ((ch == 0 && g == Busy) || g == DmaOff) && FillExtra(c) then
      s.(missed := s.missed + 1, nasty := s.nasty + 1)
    else if ch == 0 then Idle(c, s)
    else if g != Free then s.(missed := s.missed + 1, nasty := s.nasty + 1)
    else Serve(c, s.(nasty := s.nasty + 1), ch)
  }

  /** The last word has been started (without sources: all but it have been
      written). */
  predicate LastStarted(c: Config, d: Data)
    requires c.Valid()
  {
    d.at.v == c.vsize || (d.at == Counter(c.hsize - 1, c.vsize - 1) && SourceCount(c) == 0)
  }

  /** The last word has been started and its period is over. */
  predicate MainOver(c: Config, s: Exact)
    requires c.Valid()
  {
    && !s.final
    && LastStarted(c, s.d)
    && ChannelPos(c, s.cycle - 1, s.final) == MainDiagram(c).Period() - 1
  }

  /** The switch to the two final slots. */
  function Settle(c: Config, s: Exact, g: Grant): Exact
    requires c.Valid()
  {
    if g != DmaOff && MainOver(c, s) then s.(cycle := 0, final := true) else s
  }

  function Step(c: Config, s: Exact, g: Grant): Exact
    requires c.Valid()
  {
    var t := Trip(c, s, g);
    if t.done then t else Settle(c, t, g)
  }

  /** A run stops at the slot in which the blit completes. */
  function Run(c: Config, s: Exact, gs: seq<Grant>): Exact
    requires c.Valid()
    decreases |gs|
  {
    if gs == [] || s.done then s else Run(c, Step(c, s, gs[0]), gs[1..])
  }

  /** Where do_blitter2 leaves the machine.  The memory, the pointers and the
      data registers in `d` are what the program set up; a final flag left
      over from an earlier blit is harmless. */
  function Start(c: Config, d: Data, copper: bool, stale: bool): Exact {
    Exact(d.(src := d.src.(prevb := ZERO, fetched := 0), alu := Alu(ZERO, c.fillCarry, true),
             pipe := d.pipe.(use1 := false, use2 := false),
             at := Counter(0, 0), dst := Counter(0, if NoD(c) then c.vsize else 0)),
          -2, stale, false, copper, 0, 0, 0)
  }
}
