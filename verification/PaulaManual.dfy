/** A Paula channel whose words the processor writes, DMA off: over every run of
    writes and period ends, what it plays and when it interrupts and stops. */
module PaulaManual {
  import opened Paula

  /** What can happen.  `irq` says whether the channel's interrupt is still
      waiting for the processor. */
  datatype Event = Poll(irq: bool) | PeriodEnd(irq: bool) | Write(irq: bool, v: Word)

  function Step(r: Registers, c: Chan, ev: Event): Chan {
    match ev
    case Poll(irq) => StateChannel2(r, c, false, irq, false).(written := false)
    case PeriodEnd(irq) => StateChannel2(r, c, false, irq, true).(written := false)
    case Write(irq, v) => AudxDat(r, c, false, irq, v)
  }

  function Run(r: Registers, c: Chan, evs: seq<Event>): Chan {
    if evs == [] then c else Step(r, Run(r, c, evs[..|evs| - 1]), evs[|evs| - 1])
  }

  // ----- what is heard

  datatype Phase = Silent | HighHalf | LowHalf

  /** A player: the word written last, and the words it has taken up. */
  datatype Player = Player(phase: Phase, latest: Word, taken: seq<Word>)

  /** A silent player takes up a word that is written while no interrupt waits.
      At the end of a word it stops if the interrupt still waits, and else takes
      up the word written last. */
  function Next(p: Player, ev: Event): Player {
    match ev
    case Poll(_) => p
    case Write(irq, v) =>
      if p.phase.Silent? && !irq then Player(HighHalf, v, p.taken + [v]) else p.(latest := v)
    case PeriodEnd(irq) =>
      match p.phase
      case Silent => p
      case HighHalf => p.(phase := LowHalf)
      case LowHalf => if irq then p.(phase := Silent) else Player(HighHalf, p.latest, p.taken + [p.latest])
  }

  function After(p: Player, evs: seq<Event>): Player {
    if evs == [] then p else Next(After(p, evs[..|evs| - 1]), evs[|evs| - 1])
  }

  /** Both bytes of every word. */
  function Bytes(ws: seq<Word>): (bs: seq<nat>)
    ensures |bs| == 2 * |ws|
  {
    if ws == [] then [] else Bytes(ws[..|ws| - 1]) + [ws[|ws| - 1] / 0x100, ws[|ws| - 1] % 0x100]
  }

  /** Both bytes of every word taken up, of the last one only the high byte in
      its first half. */
  function Heard(p: Player): seq<nat> {
    if p.phase.HighHalf? && p.taken != [] then Bytes(p.taken)[..|Bytes(p.taken)| - 1] else Bytes(p.taken)
  }

  // ----- the channel is that player

  ghost predicate Plays(r: Registers, c: Chan, p: Player) {
    && !c.written && c.dat == p.latest && c.played == Heard(p) && c.irqs == |p.taken|
    && c.state == (match p.phase case Silent => 0 case HighHalf => 2 case LowHalf => 3)
    && (p.phase.Silent? || (p.taken != [] && !c.pbufldl && c.dat2 == p.taken[|p.taken| - 1]))
    && c.evtime == if p.phase.Silent? then Off else Timer.After(r.per)
  }

  lemma BytesMore(ws: seq<Word>, v: Word)
    ensures Bytes(ws + [v]) == Bytes(ws) + [v / 0x100, v % 0x100]
    ensures Bytes(ws + [v])[..|Bytes(ws + [v])| - 1] == Bytes(ws) + [v / 0x100]
  {
    assert (ws + [v])[..|ws|] == ws;
  }

  lemma PollPlays(r: Registers, c: Chan, p: Player, irq: bool)
    requires Plays(r, c, p)
    ensures Plays(r, Step(r, c, Poll(irq)), p)
  {
    hide Bytes;
  }

  lemma WritePlays(r: Registers, c: Chan, p: Player, irq: bool, v: Word)
    requires Plays(r, c, p)
    ensures Plays(r, Step(r, c, Write(irq, v)), Next(p, Write(irq, v)))
  {
    hide Bytes;
    if p.phase.Silent? && !irq {
      BytesMore(p.taken, v);
    }
  }

  lemma FirstHalfEnds(r: Registers, c: Chan, p: Player, irq: bool)
    requires Plays(r, c, p) && p.phase.HighHalf?
    ensures Plays(r, Step(r, c, PeriodEnd(irq)), Next(p, PeriodEnd(irq)))
  {
    hide Bytes;
    var n := |p.taken| - 1;
    BytesMore(p.taken[..n], p.taken[n]);
    assert p.taken[..n] + [p.taken[n]] == p.taken;
    assert Bytes(p.taken) == Bytes(p.taken)[..|Bytes(p.taken)| - 1] + [p.taken[n] % 0x100];
  }

  lemma SecondHalfEnds(r: Registers, c: Chan, p: Player, irq: bool)
    requires Plays(r, c, p) && !p.phase.HighHalf?
    ensures Plays(r, Step(r, c, PeriodEnd(irq)), Next(p, PeriodEnd(irq)))
  {
    hide Bytes;
    if p.phase.LowHalf? && !irq {
      BytesMore(p.taken, p.latest);
    }
  }

  /** Every event keeps channel and player together. */
  lemma StepPlays(r: Registers, c: Chan, p: Player, ev: Event)
    requires Plays(r, c, p)
    ensures Plays(r, Step(r, c, ev), Next(p, ev))
  {
    hide Plays, Step;
    match ev
    case Poll(irq) => PollPlays(r, c, p, irq);
    case Write(irq, v) => WritePlays(r, c, p, irq, v);
    case PeriodEnd(irq) =>
      if p.phase.HighHalf? {
        FirstHalfEnds(r, c, p, irq);
      } else {
        SecondHalfEnds(r, c, p, irq);
      }
  }

  /** Every run, from a channel at rest: both bytes of every word taken up are
      played, high byte first, each word raises one interrupt when it is taken
      up, and a channel whose interrupt still waits at the end of a word
      stops. */
  lemma {:induction false} RunPlays(r: Registers, c: Chan, evs: seq<Event>)
    requires c.state == 0 && !c.written && c.played == [] && c.irqs == 0 && c.evtime == Off
    ensures Plays(r, Run(r, c, evs), After(Player(Silent, c.dat, []), evs))
    decreases |evs|
  {
    hide Step, Next;
    if evs == [] {
      assert Plays(r, c, Player(Silent, c.dat, []));
    } else {
      RunPlays(r, c, evs[..|evs| - 1]);
      StepPlays(r, Run(r, c, evs[..|evs| - 1]), After(Player(Silent, c.dat, []), evs[..|evs| - 1]), evs[|evs| - 1]);
    }
  }

  // ----- a processor that keeps up

  /** A processor that answers every interrupt with the next word in time. */
  function Answers(ws: seq<Word>): seq<Event>
    requires ws != []
  {
    var v := ws[|ws| - 1];
    if |ws| == 1 then [Write(false, v)]
    else Answers(ws[..|ws| - 1]) + [Write(false, v)] + [PeriodEnd(false)] + [PeriodEnd(false)]
  }

  lemma AfterMore(p: Player, evs: seq<Event>, ev: Event)
    ensures After(p, evs + [ev]) == Next(After(p, evs), ev)
  {
    assert (evs + [ev])[..|evs|] == evs;
  }

  lemma AfterNothing(p: Player)
    ensures After(p, []) == p
  {
  }

  lemma {:induction false} AnswersTaken(p: Player, ws: seq<Word>)
    requires ws != [] && p.phase.Silent?
    ensures After(p, Answers(ws)) == Player(HighHalf, ws[|ws| - 1], p.taken + ws)
    decreases |ws|
  {
    hide After;
    var v := ws[|ws| - 1];
    if |ws| == 1 {
      AfterMore(p, [], Write(false, v));
      assert [] + [Write(false, v)] == [Write(false, v)] && ws == [v];
      assert After(p, []) == p by { AfterNothing(p); }
    } else {
      var us := ws[..|ws| - 1];
      AnswersTaken(p, us);
      var evs := Answers(us);
      AfterMore(p, evs, Write(false, v));
      AfterMore(p, evs + [Write(false, v)], PeriodEnd(false));
      AfterMore(p, evs + [Write(false, v)] + [PeriodEnd(false)], PeriodEnd(false));
      assert p.taken + us + [v] == p.taken + ws;
    }
  }

  lemma AnswersStop(p: Player, ws: seq<Word>)
    requires ws != [] && p.phase.Silent?
    ensures After(p, Answers(ws) + [PeriodEnd(true)] + [PeriodEnd(true)]) == Player(Silent, ws[|ws| - 1], p.taken + ws)
  {
    hide After, Answers;
    AnswersTaken(p, ws);
    AfterMore(p, Answers(ws), PeriodEnd(true));
    AfterMore(p, Answers(ws) + [PeriodEnd(true)], PeriodEnd(true));
  }

  /** Then the words are heard in their order, without a gap: with the last one
      taken up all but its low byte has been played, and every word has raised
      one interrupt. */
  lemma AnswersHeard(r: Registers, c: Chan, ws: seq<Word>)
    requires c.state == 0 && !c.written && c.played == [] && c.irqs == 0 && c.evtime == Off && ws != []
    ensures var t := Run(r, c, Answers(ws));
            t.played == Bytes(ws)[..2 * |ws| - 1] && t.irqs == |ws| && t.evtime == Timer.After(r.per)
  {
    hide Run, After, Answers, Bytes;
    AnswersTaken(Player(Silent, c.dat, []), ws);
    assert [] + ws == ws;
    RunPlays(r, c, Answers(ws));
  }

  /** Left alone, the channel plays that byte too and stops at the end of the
      word. */
  lemma StopHeard(r: Registers, c: Chan, ws: seq<Word>)
    requires c.state == 0 && !c.written && c.played == [] && c.irqs == 0 && c.evtime == Off && ws != []
    ensures var t := Run(r, c, Answers(ws) + [PeriodEnd(true)] + [PeriodEnd(true)]);
            t.played == Bytes(ws) && t.irqs == |ws| && t.state == 0 && t.evtime == Off
  {
    hide Run, After, Answers, Bytes;
    AnswersStop(Player(Silent, c.dat, []), ws);
    assert [] + ws == ws;
    RunPlays(r, c, Answers(ws) + [PeriodEnd(true)] + [PeriodEnd(true)]);
  }
}
