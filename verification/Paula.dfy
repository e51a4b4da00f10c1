/** One Paula audio channel (audio.cpp): the state machine behind AUDxDAT,
    AUDxLEN and the DMA requests, without attached channels and without the
    hacks for fast processors. */
module Paula {
  type Word = n: nat | n < 0x1_0000
  type Pointer = n: nat | n < 0x1_0000_0000

  /** When the channel's period ends: never, or after so many cycles. */
  datatype Timer = Off | After(cycles: nat)

  /** AUDxLEN, AUDxLC, AUDxPER. */
  datatype Registers = Registers(len: Word, lc: Pointer, per: nat)

  /** The channel. `played` lists the samples it has put out, `irqs` counts the
      interrupts it has raised. */
  datatype Chan = Chan(
    state: nat, ena: bool, wlen: Word, pt: Pointer, dat: Word, dat2: Word, written: bool,
    dr: bool, dsr: bool, intreq2: bool, pbufldl: bool, evtime: Timer, played: seq<nat>, irqs: nat)

  // ----- the small routines

  function ZeroState(c: Chan): Chan {
    c.(state := 0, evtime := Off, intreq2 := false, ena := false)
  }

  function SetIrq(c: Chan): Chan { c.(irqs := c.irqs + 1) }

  function NewSample(c: Chan, b: nat): Chan { c.(played := c.played + [b]) }

  function SetDr(c: Chan): Chan { c.(dr := true, dsr := c.dsr || c.wlen == 1) }

  function LoadDat(c: Chan): Chan { c.(dat2 := c.dat) }

  function Down(w: Word): Word { (w - 1) % 0x1_0000 }

  function High(w: Word): nat { w / 0x100 }

  function Low(w: Word): nat { w % 0x100 }

  /** The first part of states 2 and 3: a sample is due. */
  function Play(r: Registers, c: Chan): Chan {
    if !c.pbufldl then c
    else NewSample(c, if c.state == 2 then High(c.dat2) else Low(c.dat2)).(evtime := After(r.per), pbufldl := false)
  }

  /** A new word is in dat2: its high byte is due. */
  function EnterHigh(r: Registers, c: Chan): Chan {
    Play(r, c.(intreq2 := false, pbufldl := true, state := 2))
  }

  // ----- audio_state_channel2, by state

  function StartDma(r: Registers, c: Chan): Chan {
    c.(evtime := Off, state := 1, dr := true, wlen := r.len, dsr := true)
  }

  function StartManual(r: Registers, c: Chan): Chan {
    Play(r, LoadDat(SetIrq(c.(state := 2))).(pbufldl := true))
  }

  function Idle(r: Registers, c: Chan, ena: bool, irq: bool): Chan {
    if ena then StartDma(r, c) else if c.written && !irq then StartManual(r, c) else ZeroState(c)
  }

  function Starting(c: Chan, ena: bool): Chan {
    var d := c.(evtime := Off);
    if !ena then ZeroState(d)
    else if !d.written then d
    else
      var e := SetDr(SetIrq(d));
      e.(wlen := if e.wlen != 1 then Down(e.wlen) else e.wlen, state := 5)
  }

  function First(r: Registers, c: Chan, ena: bool): Chan {
    var d := c.(evtime := Off);
    if !ena then ZeroState(d)
    else if !d.written then d
    else EnterHigh(r, SetDr(LoadDat(d)).(evtime := After(r.per)))
  }

  function HighByte(r: Registers, c: Chan, perfin: bool): Chan {
    var d := Play(r, c);
    if !perfin then d else Play(r, d.(pbufldl := true, state := 3))
  }

  /** The end of a word: with DMA, an interrupt if its block ended, and a request. */
  function NextWord(c: Chan, ena: bool): Chan {
    if ena then SetDr(if c.intreq2 then SetIrq(c) else c) else SetIrq(c)
  }

  function LowByte(r: Registers, c: Chan, ena: bool, irq: bool, perfin: bool): Chan {
    var d := Play(r, c);
    if !perfin then d
    else if !ena && irq then ZeroState(d)
    else EnterHigh(r, NextWord(LoadDat(d), ena))
  }

  function StateChannel2(r: Registers, c0: Chan, ena: bool, irq: bool, perfin: bool): Chan {
    var c := c0.(ena := ena);
    if c.state == 0 then Idle(r, c, ena, irq)
    else if c.state == 1 then Starting(c, ena)
    else if c.state == 5 then First(r, c, ena)
    else if c.state == 2 then HighByte(r, c, perfin)
    else if c.state == 3 then LowByte(r, c, ena, irq, perfin)
    else c
  }

  function Arrived(c: Chan, v: Word): Chan { c.(dat := v, written := true) }

  /** A word has come by DMA: the last one of the block starts the count anew. */
  function CountWord(r: Registers, c: Chan): Chan {
    if c.wlen == 1 then c.(wlen := r.len, intreq2 := true) else c.(wlen := Down(c.wlen))
  }

  /** AUDxDAT */
  function AudxDat(r: Registers, c: Chan, ena: bool, irq: bool, v: Word): Chan {
    var d := Arrived(c, v);
    (if d.state == 2 || d.state == 3 then if ena then CountWord(r, d) else d
     else StateChannel2(r, d, ena, irq, false)).(written := false)
  }

  /** The pointer after audio_getpt. */
  function NextPointer(r: Registers, c: Chan, reset: bool): Pointer {
    if reset then r.lc else (c.pt + 2) % 0x1_0000_0000
  }

  // ----- the channel in place

  class Channel {
    var state: nat
    var dmaenstore: bool
    var wlen: Word
    var pt: Pointer
    var dat: Word
    var dat2: Word
    var datWritten: bool
    var dr: bool
    var dsr: bool
    var intreq2: bool
    var pbufldl: bool
    var evtime: Timer
    var len: Word
    var lc: Pointer
    var per: nat
    /** What the channel has put out. */
    var played: seq<nat>
    var irqs: nat

    function Contents(): Chan
      reads this
    {
      Chan(state, dmaenstore, wlen, pt, dat, dat2, datWritten, dr, dsr, intreq2, pbufldl, evtime, played, irqs)
    }

    function Regs(): Registers
      reads this
    {
      Registers(len, lc, per)
    }

    method Zero()
      modifies this`state, this`evtime, this`intreq2, this`dmaenstore
      ensures Contents() == ZeroState(old(Contents()))
    {
      state := 0;
      evtime := Off;
      intreq2 := false;
      dmaenstore := false;
    }

    method Irq()
      modifies this`irqs
      ensures Contents() == SetIrq(old(Contents()))
    {
      irqs := irqs + 1;
    }

    method Sample(b: nat)
      modifies this`played
      ensures Contents() == NewSample(old(Contents()), b)
    {
      played := played + [b];
    }

    method Request()
      modifies this`dr, this`dsr
      ensures Contents() == SetDr(old(Contents()))
    {
      dr := true;
      if wlen == 1 {
        dsr := true;
      }
    }

    method Load()
      modifies this`dat2
      ensures Contents() == LoadDat(old(Contents()))
    {
      dat2 := dat;
    }

    method PlayDue()
      requires state == 2 || state == 3
      modifies this`played, this`evtime, this`pbufldl
      ensures Contents() == Play(Regs(), old(Contents()))
    {
      hide High, Low;
      if pbufldl {
        Sample(if state == 2 then High(dat2) else Low(dat2));
        evtime := After(per);
        pbufldl := false;
      }
    }

    method ToHigh()
      modifies this`state, this`intreq2, this`pbufldl, this`evtime, this`played
      ensures Contents() == EnterHigh(Regs(), old(Contents()))
    {
      hide Play;
      intreq2 := false;
      pbufldl := true;
      state := 2;
      PlayDue();
    }

    // In these parts of audio_state_channel2 PlayDue stands for the call of
    // the routine by itself: see CallOfItself.

    method DmaInPlace()
      modifies this`state, this`wlen, this`dr, this`dsr, this`evtime
      ensures Contents() == StartDma(Regs(), old(Contents()))
    {
      evtime := Off;
      state := 1;
      dr := true;
      wlen := len;
      dsr := true;
    }

    method ManualInPlace()
      modifies this`state, this`dat2, this`pbufldl, this`evtime, this`played, this`irqs
      ensures Contents() == StartManual(Regs(), old(Contents()))
    {
      hide Play;
      state := 2;
      Irq();
      Load();
      pbufldl := true;
      PlayDue();
    }

    method IdleInPlace(chanEna: bool, irq: bool)
      requires state == 0
      modifies this`state, this`dmaenstore, this`wlen, this`dat2, this`dr, this`dsr, this`intreq2, this`pbufldl,
        this`evtime, this`played, this`irqs
      ensures Contents() == Idle(Regs(), old(Contents()), chanEna, irq)
    {
      hide StartDma, StartManual, ZeroState;
      if chanEna {
        DmaInPlace();
      } else if datWritten && !irq {
        ManualInPlace();
      } else {
        Zero();
      }
    }

    method StartingInPlace(chanEna: bool)
      modifies this`state, this`dmaenstore, this`wlen, this`dr, this`dsr, this`intreq2, this`evtime, this`irqs
      ensures Contents() == Starting(old(Contents()), chanEna)
    {
      hide Down;
      evtime := Off;
      if !chanEna {
        Zero();
        return;
      }
      if !datWritten {
        return;
      }
      Irq();
      Request();
      if wlen != 1 {
        wlen := Down(wlen);
      }
      state := 5;
    }

    method FirstInPlace(chanEna: bool)
      modifies this`state, this`dmaenstore, this`dat2, this`dr, this`dsr, this`intreq2, this`pbufldl, this`evtime,
        this`played
      ensures Contents() == First(Regs(), old(Contents()), chanEna)
    {
      hide EnterHigh;
      evtime := Off;
      if !chanEna {
        Zero();
        return;
      }
      if !datWritten {
        return;
      }
      Load();
      Request();
      evtime := After(per);
      ToHigh();
    }

    method HighInPlace(perfin: bool)
      requires state == 2
      modifies this`state, this`pbufldl, this`evtime, this`played
      ensures Contents() == HighByte(Regs(), old(Contents()), perfin)
    {
      hide Play;
      PlayDue();
      if !perfin {
        return;
      }
      pbufldl := true;
      state := 3;
      PlayDue();
    }

    method LowIrq(chanEna: bool)
      modifies this`irqs, this`dr, this`dsr
      ensures Contents() == NextWord(old(Contents()), chanEna)
    {
      if chanEna {
        if intreq2 {
          Irq();
        }
        Request();
      } else {
        Irq();
      }
    }

    method LowInPlace(chanEna: bool, irq: bool, perfin: bool)
      requires state == 3
      modifies this`state, this`dmaenstore, this`dat2, this`dr, this`dsr, this`intreq2, this`pbufldl, this`evtime,
        this`played, this`irqs
      ensures Contents() == LowByte(Regs(), old(Contents()), chanEna, irq, perfin)
    {
      hide Play, EnterHigh, NextWord, ZeroState, LoadDat;
      PlayDue();
      if !perfin {
        return;
      }
      if !chanEna && irq {
        Zero();
        return;
      }
      Load();
      LowIrq(chanEna);
      ToHigh();
    }

    /** audio_state_channel2 */
    method AudioStateChannel2(chanEna: bool, irq: bool, perfin: bool)
      modifies this`state, this`dmaenstore, this`wlen, this`dat2, this`dr, this`dsr, this`intreq2, this`pbufldl,
        this`evtime, this`played, this`irqs
      ensures Contents() == StateChannel2(Regs(), old(Contents()), chanEna, irq, perfin)
    {
      hide Idle, Starting, First, HighByte, LowByte;
      dmaenstore := chanEna;
      match state
      case 0 => IdleInPlace(chanEna, irq);
      case 1 => StartingInPlace(chanEna);
      case 5 => FirstInPlace(chanEna);
      case 2 => HighInPlace(perfin);
      case 3 => LowInPlace(chanEna, irq, perfin);
      case _ =>
    }

    method Count()
      modifies this`wlen, this`intreq2
      ensures Contents() == CountWord(Regs(), old(Contents()))
    {
      if wlen == 1 {
        wlen := len;
        intreq2 := true;
      } else {
        wlen := Down(wlen);
      }
    }

    method Arrive(v: Word)
      modifies this`dat, this`datWritten
      ensures Contents() == Arrived(old(Contents()), v)
    {
      dat := v;
      datWritten := true;
    }

    method Take()
      modifies this`datWritten
      ensures Contents() == old(Contents()).(written := false)
    {
      datWritten := false;
    }

    /** AUDxDAT */
    method WriteDat(chanEna: bool, irq: bool, v: Word)
      modifies this`state, this`dmaenstore, this`wlen, this`dat, this`dat2, this`datWritten, this`dr, this`dsr,
        this`intreq2, this`pbufldl, this`evtime, this`played, this`irqs
      ensures Contents() == AudxDat(Regs(), old(Contents()), chanEna, irq, v)
    {
      hide StateChannel2, CountWord;
      Arrive(v);
      if state == 2 || state == 3 {
        if chanEna {
          Count();
        }
      } else {
        AudioStateChannel2(chanEna, irq, false);
      }
      Take();
    }

    /** audio_getpt */
    method GetPt(reset: bool) returns (p: Pointer)
      modifies this`pt
      ensures p == old(pt) && Contents() == old(Contents()).(pt := NextPointer(Regs(), old(Contents()), reset))
    {
      p := pt;
      pt := (pt + 2) % 0x1_0000_0000;
      if reset {
        pt := lc;
      }
    }

    /** audio_state_channel, for the end of a period and for a look at the
        state machine */
    method AudioStateChannel(chanEna: bool, irq: bool, perfin: bool)
      modifies this`state, this`dmaenstore, this`wlen, this`dat2, this`datWritten, this`dr, this`dsr, this`intreq2,
        this`pbufldl, this`evtime, this`played, this`irqs
      ensures Contents() == StateChannel2(Regs(), old(Contents()), chanEna, irq, perfin).(written := false)
    {
      hide StateChannel2;
      AudioStateChannel2(chanEna, irq, perfin);
      Take();
    }

    /** The channel's two bits of audio_dmal. */
    method AudioDmal() returns (request: bool, reset: bool)
      modifies this`dr, this`dsr
      ensures request == old(dr) && reset == old(dsr)
      ensures Contents() == old(Contents()).(dr := false, dsr := false)
    {
      request, reset := dr, dsr;
      dr := false;
      dsr := false;
    }

    /** dmal_emu for this channel: fetch a word and write it to AUDxDAT. */
    method DmalEmu(mem: Pointer -> Word, chanEna: bool, irq: bool, reset: bool) returns (p: Pointer)
      modifies this`state, this`dmaenstore, this`wlen, this`pt, this`dat, this`dat2, this`datWritten, this`dr,
        this`dsr, this`intreq2, this`pbufldl, this`evtime, this`played, this`irqs
      ensures p == old(pt)
      ensures Contents() == var c := old(Contents());
                            AudxDat(Regs(), c.(pt := NextPointer(Regs(), c, reset)), chanEna, irq, mem(c.pt))
    {
      hide AudxDat, NextPointer;
      p := GetPt(reset);
      WriteDat(chanEna, irq, mem(p));
    }
  }

  /** The calls audio_state_channel2 makes of itself find state 2 or 3 and no
      period end: they only play a sample that is due. */
  lemma CallOfItself(r: Registers, c: Chan, irq: bool)
    requires c.state == 2 || c.state == 3
    ensures StateChannel2(r, c, c.ena, irq, false) == Play(r, c)
  {
  }

  /** DMA switched off: a channel that waits for its first words stops at once,
      one that plays goes on, and stops at the end of a word whose interrupt
      still waits. */
  lemma SwitchedOff(r: Registers, c: Chan, irq: bool)
    ensures c.state == 1 || c.state == 5 ==>
              StateChannel2(r, c, false, irq, false) == c.(state := 0, evtime := Off, intreq2 := false, ena := false)
    ensures (c.state == 2 || c.state == 3) && !c.pbufldl ==> StateChannel2(r, c, false, irq, false) == c.(ena := false)
    ensures c.state == 3 && !c.pbufldl ==>
              StateChannel2(r, c, false, true, true) == c.(state := 0, evtime := Off, intreq2 := false, ena := false)
  {
  }
}
