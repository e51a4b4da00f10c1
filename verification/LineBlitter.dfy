/** The line drawer as the program text has it: registers and chip memory
    updated in place, in the immediate and in the cycle-exact form. */
module LineBlitter {
  import opened ChipMemory
  import opened Bits
  import opened BlitExact
  import opened BlitLine

  class LineBlitter {
    const c: BlitLine.Config
    const chip: array<Word>

    var apt: nat
    var cpt: nat
    var dpt: nat
    var cdat: Word
    var ddat: Word
    var shift: int
    var pattern: Word
    var dots: nat
    var sign: bool
    var pixel: bool
    var started: bool
    var zero: bool
    var left: nat

    var cycle: int
    var final: bool
    var done: bool
    var wait: bool
    var total: nat
    var missed: nat
    var nasty: nat
    var lastHpos: nat

    /** The drawer as one value. */
    ghost function Drawer(): Pen
      reads this`apt, this`cpt, this`dpt, this`cdat, this`ddat, this`shift, this`pattern, this`dots, this`sign,
            this`pixel, this`started, this`zero, this`left, chip
    {
      Pen(chip[..], apt, cpt, dpt, cdat, ddat, shift, pattern, dots, sign, pixel, started, zero, left)
    }

    constructor (c: BlitLine.Config, chip: array<Word>, apt: nat, cpt: nat, dpt: nat, shift: int,
                 pattern: Word, sign: bool, left: nat)
      ensures this.c == c && this.chip == chip
      ensures Drawer() == Pen(chip[..], apt, cpt, dpt, ZERO, ZERO, shift, pattern, 0, sign, false, false, true, left)
    {
      this.c, this.chip := c, chip;
      this.apt, this.cpt, this.dpt := apt, cpt, dpt;
      cdat, ddat := ZERO, ZERO;
      this.shift, this.pattern, this.sign, this.left := shift, pattern, sign, left;
      dots, pixel, started, zero := 0, false, false, true;
      cycle, final, done, wait, total, missed, nasty, lastHpos := 0, false, true, false, 0, 0, 0, 0;
    }

    /** The cycle-exact machine as one value. */
    ghost function Machine(): Liner
      reads this, chip
    {
      Liner(Drawer(), cycle, final, done, wait, total, missed, nasty)
    }

    method BlitterRead()
      requires c.span > 0
      modifies this`cdat
      ensures Drawer() == Read(c, old(Drawer()))
    {
      if c.useC {
        var i := (cpt % c.span) / 2;
        cdat := if i < chip.Length then chip[i] else ZERO;
      }
    }

    method BlitterWrite()
      requires c.span > 0
      modifies this`zero, chip
      ensures Drawer() == Write(c, old(Drawer()))
    {
      if ddat != ZERO {
        zero := false;
      }
      if c.useC {
        var i := (dpt % c.span) / 2;
        if i < chip.Length {
          chip[i] := ddat;
        }
      }
    }

    method BlitterLine()
      modifies this`ddat, this`pixel, this`dots
      ensures Drawer() == Plot(c, old(Drawer()))
    {
      var blitahold := Shifted(Mask(c.texture, c.afwm), shift);
      var bhold := if pattern[0] then ONES else ZERO;
      pixel := !c.single || dots == 0;
      ddat := c.logic(blitahold, bhold, cdat);
      dots := dots + 1;
    }

    method IncX()
      modifies this`shift, this`cpt
      ensures Drawer() == StepX(old(Drawer()), false)
    {
      hide Wrap;
      shift := shift + 1;
      if shift == 16 {
        shift := 0;
        cpt := Wrap(cpt + 2);
      }
    }

    method DecX()
      modifies this`shift, this`cpt
      ensures Drawer() == StepX(old(Drawer()), true)
    {
      hide Wrap;
      shift := shift - 1;
      if shift == -1 {
        shift := 15;
        cpt := Wrap(cpt - 2);
      }
    }

    method MoveY(back: bool)
      modifies this`cpt, this`dots
      ensures Drawer() == StepY(c, old(Drawer()), back)
    {
      cpt := Wrap(if back then cpt - c.cmod else cpt + c.cmod);
      dots := 0;
    }

    method MoveX(back: bool)
      modifies this`shift, this`cpt
      ensures Drawer() == StepX(old(Drawer()), back)
    {
      hide StepX;
      if back {
        DecX();
      } else {
        IncX();
      }
    }

    method Accumulate()
      modifies this`apt
      ensures Drawer() == (var p := old(Drawer());
                           if c.useA then p.(apt := Wrap(p.apt + if p.sign then c.bmod else c.amod)) else p)
    {
      hide Wrap;
      if c.useA {
        apt := Wrap(apt + if sign then c.bmod else c.amod);
      }
    }

    method MinorStep()
      modifies this`shift, this`cpt, this`dots
      ensures Drawer() == (var p := old(Drawer());
                           if p.sign then p else if c.xMajor then StepY(c, p, c.minorBack) else StepX(p, c.minorBack))
    {
      hide StepX, StepY;
      if !sign {
        if c.xMajor {
          MoveY(c.minorBack);
        } else {
          MoveX(c.minorBack);
        }
      }
    }

    method MajorStep()
      modifies this`shift, this`cpt, this`dots
      ensures Drawer() == (var p := old(Drawer());
                           if c.xMajor then StepX(p, c.majorBack) else StepY(c, p, c.majorBack))
    {
      hide StepX, StepY;
      if c.xMajor {
        MoveX(c.majorBack);
      } else {
        MoveY(c.majorBack);
      }
    }

    method BlitterLineProc()
      modifies this`apt, this`shift, this`cpt, this`dots, this`sign
      ensures Drawer() == Advance(c, old(Drawer()))
    {
      hide Wrap, StepX, StepY, Negative;
      Accumulate();
      MinorStep();
      MajorStep();
      sign := Negative(apt);
    }

    method BlitterNxLine()
      requires left > 0
      modifies this`pattern, this`left
      ensures Drawer() == NextLine(old(Drawer()))
    {
      pattern := Rotate(pattern);
      left := left - 1;
    }

    method FollowC()
      modifies this`dpt, this`started
      ensures Drawer() == Follow(old(Drawer()))
    {
      if started {
        dpt := cpt;
      }
      started := true;
    }

    /** The processing slot: D follows C from the second pixel on. */
    method BlitterProcess()
      requires left > 0
      modifies this`apt, this`cpt, this`dpt, this`ddat, this`shift, this`pattern, this`dots, this`sign, this`pixel,
               this`started, this`left
      ensures Drawer() == Process(c, old(Drawer()))
    {
      hide Advance, Plot, NextLine, Follow;
      ghost var p := Drawer();
      FollowC();
      BlitterLine();
      AdvanceLeft(c, Plot(c, Follow(p)));
      assert Plot(c, Follow(p)).left == p.left by { PlotLeft(c, Follow(p)); }
      BlitterLineProc();
      BlitterNxLine();
    }

    method WritePixel()
      requires c.span > 0
      modifies this`zero, this`pixel, chip
      ensures Drawer() == WriteIfPixel(c, old(Drawer()))
    {
      hide Write;
      ghost var p := Drawer();
      if pixel {
        BlitterWrite();
        pixel := false;
        assert Write(c, p).(pixel := false) == Drawer();
      }
    }

    method DrawPixel()
      requires c.span > 0 && left > 0
      modifies this, chip
      ensures Drawer() == Pixel(c, old(Drawer()))
    {
      hide Read, Process, WriteIfPixel;
      BlitterRead();
      BlitterProcess();
      WritePixel();
    }

    /** actually_do_blit for a line. */
    method DrawLine()
      requires c.span > 0 && left > 0
      modifies this, chip
      ensures Drawer() == Draw(c, old(Drawer()))
    {
      hide Pixel;
      ghost var end := Pixels(c, Drawer());
      while left > 0
        invariant Pixels(c, Drawer()) == end
      {
        ghost var p := Drawer();
        DrawPixel();
        PixelLeft(c, p);
      }
      dpt := cpt;
    }

    /** The end of the line after its last pixel. */
    method FinishIfLast()
      modifies this`dpt, this`final, this`cycle, this`wait
      ensures Machine() == (var t := old(Machine());
                            if t.pen.left == 0
                            then t.(pen := t.pen.(dpt := t.pen.cpt), final := true, cycle := 0, wait := false)
                            else t)
    {
      if left == 0 {
        dpt := cpt;
        final, cycle, wait := true, 0, false;
      }
    }

    method DoReadSlot()
      requires c.span > 0
      modifies this`cdat, this`nasty
      ensures Machine() == ReadSlot(c, old(Machine()))
    {
      hide Read;
      BlitterRead();
      nasty := nasty + 1;
    }

    method DoProcessSlot()
      modifies this`apt, this`cpt, this`dpt, this`ddat, this`shift, this`pattern, this`dots, this`sign, this`pixel,
               this`started, this`left
      ensures Machine() == ProcessSlot(c, old(Machine()))
    {
      hide Process;
      if left > 0 {
        BlitterProcess();
      }
    }

    method DoWriteSlot()
      requires c.span > 0
      modifies this`zero, this`pixel, this`dpt, this`final, this`cycle, this`wait, this`nasty, chip
      ensures Machine() == WriteSlot(c, old(Machine()))
    {
      hide WriteIfPixel;
      nasty := nasty + if pixel then 1 else 0;
      WritePixel();
      FinishIfLast();
    }

    method CountSlot()
      modifies this`cycle, this`total
      ensures var s := old(Machine()); Machine() == s.(cycle := s.cycle + 1, total := s.total + 1)
    {
      hide Drawer;
      cycle, total := cycle + 1, total + 1;
    }

    /** A counted slot of the line diagram. */
    method ServeSlot(ch: nat)
      requires c.span > 0
      modifies this, chip
      ensures Machine() == ServeLine(c, old(Machine()), ch) && lastHpos == old(lastHpos)
    {
      hide ReadSlot, ProcessSlot, WriteSlot, Machine;
      CountSlot();
      if ch == 3 {
        DoReadSlot();
      } else if ch == 5 {
        DoProcessSlot();
      } else if ch == 4 {
        DoWriteSlot();
      }
    }

    /** One trip of the loop of decide_blitter_line. */
    method StepSlot(g: Grant)
      requires c.span > 0 && !done
      modifies this, chip
      ensures Machine() == LineStep(c, old(Machine()), g) && lastHpos == old(lastHpos)
    {
      hide ServeLine, Drawer;
      var ch := LineChannel(cycle, final);
      if wait {
        wait := false;
      } else if final {
        cycle, total := cycle + 1, total + 1;
        if cycle >= 2 {
          done := true;
        }
      } else if g != Free {
        missed, nasty := missed + 1, nasty + 1;
      } else {
        ServeSlot(ch);
      }
    }

    lemma RunEmpty(s: Liner)
      requires c.span > 0
      ensures LineRun(c, s, []) == s
    {
    }

    lemma RunUnfolds(s: Liner, gs: seq<Grant>)
      requires c.span > 0 && !s.done && gs != []
      ensures LineRun(c, s, gs) == LineRun(c, LineStep(c, s, gs[0]), gs[1..])
      ensures LineStep(c, s, gs[0]).done ==> LineRun(c, s, gs) == LineStep(c, s, gs[0])
    {
      hide LineStep;
    }

    /** A line that still has pixels leaves the final slots again. */
    method Resume()
      modifies this`final
      ensures var s := old(Machine()); Machine() == if s.final && s.pen.left > 0 then s.(final := false) else s
    {
      if final && left > 0 {
        final := false;
      }
    }

    /** decide_blitter_line up to position `hpos` of the line. */
    method DecideLine(hpos: nat, line: int -> Grant)
      requires c.span > 0 && !done && lastHpos <= hpos
      modifies this, chip
      ensures var s := old(Machine());
              Machine() == LineRun(c, if s.final && s.pen.left > 0 then s.(final := false) else s,
                                   Grants(line, old(lastHpos), hpos))
      ensures if done then lastHpos <= hpos else lastHpos == hpos
    {
      hide LineStep, LineRun, Drawer;
      Resume();
      ghost var target := LineRun(c, Machine(), Grants(line, lastHpos, hpos));
      while lastHpos < hpos
        invariant lastHpos <= hpos && !done
        invariant LineRun(c, Machine(), Grants(line, lastHpos, hpos)) == target
      {
        ghost var was := Machine();
        ghost var gs := Grants(line, lastHpos, hpos);
        var g := line(lastHpos);
        assert gs[0] == g && gs[1..] == Grants(line, lastHpos + 1, hpos);
        StepSlot(g);
        RunUnfolds(was, gs);
        if done {
          return;
        }
        lastHpos := lastHpos + 1;
      }
      assert Grants(line, lastHpos, hpos) == [];
      RunEmpty(Machine());
    }
  }
}
