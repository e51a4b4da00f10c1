/** Line drawing: what happens at one pixel, the immediate loop over the
    pixels, and the cycle-exact machine that draws the same line. */
module BlitLine {
  import opened ChipMemory
  import opened Bits
  import opened BlitExact

  /** The registers that stay fixed while a line is drawn. */
  datatype Config = Config(
    useA: bool, useC: bool,
    xMajor: bool, minorBack: bool, majorBack: bool,   // SUD, SUL, AUL of BLTCON1
    single: bool,                                     // one dot per row
    amod: int, bmod: int, cmod: int,
    texture: Word, afwm: Word, span: nat,
    logic: (Word, Word, Word) -> Word)

  /** The state of the drawer. */
  datatype Pen = Pen(
    mem: seq<Word>, apt: nat, cpt: nat, dpt: nat, cdat: Word, ddat: Word,
    shift: int, pattern: Word, dots: nat, sign: bool, pixel: bool,
    started: bool, zero: bool, left: nat)

  function Shifted(w: Word, n: int): Word {
    if 0 <= n <= 16 then w[n..] + Zeros(n) else ZERO
  }

  function Rotate(w: Word): Word { [w[15]] + w[..15] }

  /** blitter_read. */
  function Read(c: Config, p: Pen): Pen
    requires c.span > 0
  {
    if c.useC then p.(cdat := Get(p.mem, c.span, p.cpt)) else p
  }

  /** From the second pixel on, D follows C. */
  function Follow(p: Pen): Pen {
    p.(dpt := if p.started then p.cpt else p.dpt, started := true)
  }

  /** blitter_line: the word to write, and whether to write it. */
  function Plot(c: Config, p: Pen): Pen {
    var a := Shifted(Mask(c.texture, c.afwm), p.shift);
    var b := if p.pattern[0] then ONES else ZERO;
    p.(ddat := c.logic(a, b, p.cdat), pixel := !c.single || p.dots == 0, dots := p.dots + 1)
  }

  function StepX(p: Pen, back: bool): Pen {
    if back then
      if p.shift == 0 then p.(shift := 15, cpt := Wrap(p.cpt - 2)) else p.(shift := p.shift - 1)
    else
      if p.shift + 1 == 16 then p.(shift := 0, cpt := Wrap(p.cpt + 2)) else p.(shift := p.shift + 1)
  }

  function StepY(c: Config, p: Pen, back: bool): Pen {
    p.(cpt := Wrap(if back then p.cpt - c.cmod else p.cpt + c.cmod), dots := 0)
  }

  /** The sign of the low 16 bits of the accumulator. */
  predicate Negative(apt: nat) { apt % 0x1_0000 >= 0x8000 }

  /** blitter_line_proc: accumulator, minor step, major step, sign. */
  function Advance(c: Config, p: Pen): Pen {
    var q := if c.useA then p.(apt := Wrap(p.apt + if p.sign then c.bmod else c.amod)) else p;
    var q := if p.sign then q
             else if c.xMajor then StepY(c, q, c.minorBack) else StepX(q, c.minorBack);
    var q := if c.xMajor then StepX(q, c.majorBack) else StepY(c, q, c.majorBack);
    q.(sign := Negative(q.apt))
  }

  /** blitter_nxline. */
  function NextLine(p: Pen): Pen
    requires p.left > 0
  {
    p.(pattern := Rotate(p.pattern), left := p.left - 1)
  }

  /** The internal processing of one pixel. */
  function Process(c: Config, p: Pen): Pen
    requires p.left > 0
  {
    NextLine(Advance(c, Plot(c, Follow(p))))
  }

  /** blitter_write; with C off nothing is drawn. */
  function Write(c: Config, p: Pen): Pen
    requires c.span > 0
  {
    p.(zero := p.zero && p.ddat == ZERO, mem := if c.useC then Put(p.mem, c.span, p.dpt, p.ddat) else p.mem)
  }

  function WriteIfPixel(c: Config, p: Pen): Pen
    requires c.span > 0
  {
    if p.pixel then Write(c, p).(pixel := false) else p
  }

  /** One pixel of the immediate form. */
  function Pixel(c: Config, p: Pen): Pen
    requires c.span > 0 && p.left > 0
  {
    WriteIfPixel(c, Process(c, Read(c, p)))
  }

  lemma AdvanceLeft(c: Config, p: Pen)
    ensures Advance(c, p).left == p.left
  {
    hide Wrap;
  }

  lemma PixelLeft(c: Config, p: Pen)
    requires c.span > 0 && p.left > 0
    ensures Pixel(c, p).left == p.left - 1
  {
    hide Shifted, Mask, Put, Get, Wrap, Rotate;
    var q := Advance(c, Plot(c, Follow(Read(c, p))));
    assert q.left == p.left by { AdvanceLeft(c, Plot(c, Follow(Read(c, p)))); }
  }

  /** All pixels. */
  function Pixels(c: Config, p: Pen): Pen
    requires c.span > 0
    decreases p.left
  {
    if p.left == 0 then p else PixelLeft(c, p); Pixels(c, Pixel(c, p))
  }

  /** actually_do_blit for a line. */
  function Draw(c: Config, p: Pen): Pen
    requires c.span > 0
  {
    var q := Pixels(c, p);
    q.(dpt := q.cpt)
  }

  // ----- the cycle-exact machine

  datatype Liner = Liner(
    pen: Pen, cycle: int, final: bool, done: bool, wait: bool, total: nat, missed: nat, nasty: nat)

  /** blit_cycle_diagram_line: idle, read C, process, write D. */
  const LINE_DIAGRAM: seq<nat> := [0, 3, 5, 4]

  function LineChannel(cycle: int, final: bool): nat {
    if cycle < 0 || final then 0 else LINE_DIAGRAM[cycle % 4]
  }

  function ReadSlot(c: Config, s: Liner): Liner
    requires c.span > 0
  {
    s.(pen := Read(c, s.pen), nasty := s.nasty + 1)
  }

  function ProcessSlot(c: Config, s: Liner): Liner {
    if s.pen.left > 0 then s.(pen := Process(c, s.pen)) else s
  }

  /** The write slot; after the last pixel the final slots follow. */
  function WriteSlot(c: Config, s: Liner): Liner
    requires c.span > 0
  {
    var t := s.(pen := WriteIfPixel(c, s.pen), nasty := s.nasty + if s.pen.pixel then 1 else 0);
    if t.pen.left == 0 then
      t.(pen := t.pen.(dpt := t.pen.cpt), final := true, cycle := 0, wait := false)
    else t
  }

  /** The counted slot of channel `ch`. */
  function ServeLine(c: Config, s: Liner, ch: nat): Liner
    requires c.span > 0
  {
    var s := s.(cycle := s.cycle + 1, total := s.total + 1);
    if ch == 3 then ReadSlot(c, s)
    else if ch == 5 then ProcessSlot(c, s)
    else if ch == 4 then WriteSlot(c, s)
    else s
  }

  /** One trip of the loop of decide_blitter_line.  The two final slots need no
      free bus. */
  function LineStep(c: Config, s: Liner, g: Grant): Liner
    requires c.span > 0
  {
    if s.wait then s.(wait := false)
    else if s.final then
      s.(cycle := s.cycle + 1, total := s.total + 1, done := s.cycle + 1 >= 2)
    else if g != Free then s.(missed := s.missed + 1, nasty := s.nasty + 1)
    else ServeLine(c, s, LineChannel(s.cycle, s.final))
  }

  /** While pixels are left: a refused slot is missed and was wanted; of the
      four slots of a pixel that are granted, the second is wanted, and the
      fourth if there is a word to write. */
  lemma LineWantedWhen(c: Config, s: Liner, g: Grant)
    requires c.span > 0 && !s.wait && !s.final && !s.done
    ensures var t := LineStep(c, s, g);
            && t.missed == s.missed + (if g == Free then 0 else 1)
            && t.total == s.total + (if g == Free then 1 else 0)
            && t.nasty == s.nasty + (if g != Free then 1
                                     else if s.cycle < 0 then 0
                                     else if s.cycle % 4 == 1 || (s.cycle % 4 == 3 && s.pen.pixel) then 1
                                     else 0)
  {
    hide Read, Process, WriteIfPixel;
    assert s.cycle >= 0 ==> s.cycle % 4 == 0 || s.cycle % 4 == 1 || s.cycle % 4 == 2 || s.cycle % 4 == 3;
  }

  /** Behind the last pixel two slots go by whatever the bus does. */
  lemma LineLasts(c: Config, s: Liner, g: Grant, h: Grant)
    requires c.span > 0 && !s.wait && s.final && s.cycle == 0 && !s.done
    ensures var t := LineStep(c, s, g); var u := LineStep(c, t, h);
            !t.done && u.done && u.total == s.total + 2 && u.missed == s.missed && u.nasty == s.nasty && u.pen == s.pen
  {
  }

  function LineRun(c: Config, s: Liner, gs: seq<Grant>): Liner
    requires c.span > 0
    decreases |gs|
  {
    if gs == [] || s.done then s else LineRun(c, LineStep(c, s, gs[0]), gs[1..])
  }

  /** The start of a line: two start-up slots; the final flag of an earlier blit
      is dropped because there are pixels left. */
  function LineStart(p: Pen, copper: bool): Liner {
    Liner(p, -2, false, false, copper, 0, 0, 0)
  }

  // ----- what a run keeps

  /** Two slots to start, four a pixel, two to finish. */
  function LineSlots(p: Pen): nat { 2 + 4 * p.left + 2 }

  /** How far the machine is: `total` slots counted, and after the pen's state
      the line would end as `end`. */
  ghost predicate OnTrack(c: Config, s: Liner, end: Pen, slots: nat)
    requires c.span > 0
  {
    if s.done then s.final && s.cycle == 2 && s.total == slots && s.pen == end
    else if s.final then
      0 <= s.cycle < 2 && s.total + 2 == slots + s.cycle && s.pen == end
    else
      && -2 <= s.cycle
      && (s.cycle < 0 || s.cycle % 4 <= 1 ==> s.pen.left > 0 && Draw(c, s.pen) == end)
      && (s.cycle >= 0 && s.cycle % 4 == 2 ==>
            s.pen.left > 0 && Draw(c, WriteIfPixel(c, Process(c, s.pen))) == end)
      && (s.cycle >= 0 && s.cycle % 4 == 3 ==> Draw(c, WriteIfPixel(c, s.pen)) == end)
      && s.total + 2 + 4 * s.pen.left
         + (if s.cycle < 0 then -s.cycle else if s.cycle % 4 == 3 then 1 else - (s.cycle % 4)) == slots
  }

  lemma DrawAfterRead(c: Config, p: Pen)
    requires c.span > 0 && p.left > 0
    ensures Read(c, p).left == p.left && Draw(c, p) == Draw(c, WriteIfPixel(c, Process(c, Read(c, p))))
  {
    hide Process, WriteIfPixel;
    PixelLeft(c, p);
  }

  lemma PlotLeft(c: Config, p: Pen)
    ensures Plot(c, p).left == p.left
  {
    hide Shifted, Mask;
  }

  lemma ProcessLeft(c: Config, p: Pen)
    requires p.left > 0
    ensures Process(c, p).left == p.left - 1
  {
    hide Advance, Plot, Rotate;
    AdvanceLeft(c, Plot(c, Follow(p)));
    assert Plot(c, Follow(p)).left == p.left by { PlotLeft(c, Follow(p)); }
  }

  lemma WriteKeeps(c: Config, p: Pen)
    requires c.span > 0
    ensures var q := WriteIfPixel(c, p); q.left == p.left && q.cpt == p.cpt
  {
    hide Put;
  }

  lemma DrawEnds(c: Config, p: Pen)
    requires c.span > 0 && p.left == 0
    ensures Draw(c, p) == p.(dpt := p.cpt)
  {
  }

  /** Every slot, granted or not, keeps the machine on track. */
  lemma StepKeepsTrack(c: Config, s: Liner, g: Grant, end: Pen, slots: nat)
    requires c.span > 0 && !s.done && OnTrack(c, s, end, slots)
    ensures OnTrack(c, LineStep(c, s, g), end, slots)
    ensures LineStep(c, s, g).total >= s.total
    ensures g == Free && !s.wait ==> LineStep(c, s, g).total == s.total + 1
    ensures !LineStep(c, s, g).wait
  {
    hide Draw, Process, WriteIfPixel, Read;
    if !s.wait && !s.final && g == Free && s.cycle >= 0 {
      var m := s.cycle % 4;
      assert (s.cycle + 1) % 4 == if m == 3 then 0 else m + 1;
      if m == 1 {
        DrawAfterRead(c, s.pen);
      } else if m == 2 {
        ProcessLeft(c, s.pen);
      } else if m == 3 {
        WriteKeeps(c, s.pen);
        if s.pen.left == 0 {
          DrawEnds(c, WriteIfPixel(c, s.pen));
        }
      }
    }
  }

  lemma {:induction false} RunKeepsTrack(c: Config, s: Liner, gs: seq<Grant>, end: Pen, slots: nat)
    requires c.span > 0 && OnTrack(c, s, end, slots)
    ensures var t := LineRun(c, s, gs);
            OnTrack(c, t, end, slots)
            && (t.done || t.total + (if s.wait then 1 else 0) >= s.total + CountFree(gs))
    decreases |gs|
  {
    hide LineStep, OnTrack;
    if gs != [] && !s.done {
      StepKeepsTrack(c, s, gs[0], end, slots);
      RunKeepsTrack(c, LineStep(c, s, gs[0]), gs[1..], end, slots);
    }
  }

  /** For every sequence of grants the cycle-exact line is complete exactly when
      `LineSlots` slots have been counted, and then memory, pointers, blitzero,
      sign and every other part of the drawer are those of the immediate
      loop. */
  lemma LineRefinesImmediate(c: Config, p: Pen, copper: bool, gs: seq<Grant>)
    requires c.span > 0 && p.left > 0
    ensures var t := LineRun(c, LineStart(p, copper), gs);
            && t.total <= LineSlots(p)
            && (t.done <==> t.total == LineSlots(p))
            && (t.done ==> t.pen == Draw(c, p))
            && (CountFree(gs) >= LineSlots(p) + (if copper then 1 else 0) ==> t.done)
  {
    hide Draw, Process, WriteIfPixel, LineRun;
    var s := LineStart(p, copper);
    assert OnTrack(c, s, Draw(c, p), LineSlots(p));
    RunKeepsTrack(c, s, gs, Draw(c, p), LineSlots(p));
    var t := LineRun(c, s, gs);
    assert !t.done ==> t.total < LineSlots(p);
  }

  // ----- the width of a line

  /** blitter_doit for a line: only the width that the hardware manual asks for
      is drawn. */
  function DoIt(c: Config, width: nat, p: Pen): Pen
    requires c.span > 0
  {
    if p.left == 0 || width != 2 then p else Draw(c, p)
  }

  lemma {:induction false} DrawDone(c: Config, p: Pen)
    requires c.span > 0
    ensures Draw(c, p).left == 0
    decreases p.left
  {
    hide Pixel;
    if p.left > 0 {
      PixelLeft(c, p);
      DrawDone(c, Pixel(c, p));
    }
  }

  /** The cycle-exact form draws lines of every width: it ends as the immediate
      form if and only if the width is 2, with the same memory if and only if
      the width is 2 or the line leaves no trace. */
  lemma WidthParts(c: Config, width: nat, p: Pen, copper: bool, gs: seq<Grant>)
    requires c.span > 0 && p.left > 0
    ensures var t := LineRun(c, LineStart(p, copper), gs);
            t.done ==>
              && (t.pen == DoIt(c, width, p) <==> width == 2)
              && (t.pen.mem == DoIt(c, width, p).mem <==> width == 2 || Draw(c, p).mem == p.mem)
  {
    hide Draw, LineRun;
    LineRefinesImmediate(c, p, copper, gs);
    DrawDone(c, p);
  }
}
