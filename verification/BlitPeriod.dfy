/** One period of the diagram at a time: what the slots of a period do to the
    datapath, and when they do it. */
module BlitPeriod {
  import opened BlitConfig
  import opened BlitExact
  import opened BlitSchedule
  import opened Modulo

  /** The effect of a slot of the main part on the datapath. */
  ghost function Slot(c: Config, d: Data, ch: nat): Data
    requires c.Valid()
  {
    if ch == 0 then d
    else if ch == 4 then DoDdma(c, d)
    else if d.at.v < c.vsize then DoDma(c, d, ch)
    else d
  }

  ghost function Slots(c: Config, d: Data, chs: seq<nat>): Data
    requires c.Valid()
    decreases |chs|
  {
    if chs == [] then d else Slots(c, Slot(c, d, chs[0]), chs[1..])
  }

  /** The slots of period `q`. */
  ghost function PeriodRow(c: Config, q: nat): seq<nat> {
    if q == 0 then MainDiagram(c).first else MainDiagram(c).main
  }

  ghost function P(c: Config): nat { MainDiagram(c).Period() }

  lemma PeriodPosition(p: nat, q: nat, i: nat)
    requires 2 <= p <= 4 && i < p
    ensures q > 0 ==> q * p + i - p >= 0 && (q * p + i - p) % p == i
    ensures q == 0 ==> q * p + i == i
    ensures q > 0 ==> q * p >= p
  {
    if q > 0 {
      Distributes(p, q - 1, 1);
      Remainder((q - 1) * p + i, p, q - 1, i);
    }
  }

  /** In slot `i` of period `q` the machine serves the channel the diagram
      names. */
  lemma StateAndPos(c: Config, q: nat, i: nat)
    requires i < P(c)
    ensures |PeriodRow(c, q)| == P(c) && 2 <= P(c) <= 4
    ensures ChannelState(c, q * P(c) + i, false) == PeriodRow(c, q)[i]
    ensures ChannelPos(c, q * P(c) + i, false) == i
  {
    DiagramShape(c, false);
    PeriodPosition(P(c), q, i);
  }

  /** What a free slot of the main part does. */
  lemma MainStep(c: Config, s: Exact, q: nat, i: nat)
    requires c.Valid() && i < P(c) && !NoChannels(c)
    requires s.cycle == q * P(c) + i && !s.final && !s.done && !s.wait
    ensures |PeriodRow(c, q)| == P(c)
    ensures var ch := PeriodRow(c, q)[i]; var t := Step(c, s, Free); var d := Slot(c, s.d, ch);
            && t.d == d && t.total == s.total + 1 && !t.wait
            && t.done == (ch != 0 && Finished(c, d))
            && (!t.done && (i + 1 < P(c) || !LastStarted(c, d)) ==>
                  t.cycle == s.cycle + 1 && !t.final)
            && (!t.done && i + 1 == P(c) && LastStarted(c, d) ==> t.cycle == 0 && t.final)
  {
    hide DoDma, DoDdma, ChannelState, ChannelPos, MainDiagram, CountIf;
    StateAndPos(c, q, i);
    assert q * P(c) >= 0;
  }

  lemma SlotAdvances(c: Config, d: Data, ch: nat)
    requires c.Valid()
    ensures var t := Slot(c, d, ch); t.dst.v >= d.dst.v && t.at.v >= d.at.v
  {
    hide DoBlit, CountIf, MainDiagram, Fetch;
  }

  /** The row counters never go back. */
  lemma {:induction false} SlotsAdvance(c: Config, d: Data, chs: seq<nat>)
    requires c.Valid()
    ensures var t := Slots(c, d, chs); t.dst.v >= d.dst.v && t.at.v >= d.at.v
    decreases |chs|
  {
    hide Slot;
    if chs != [] {
      SlotAdvances(c, d, chs[0]);
      SlotsAdvance(c, Slot(c, d, chs[0]), chs[1..]);
    }
  }

  /** Slots `i` to `m` of period `q`, when they do not complete the blit. */
  lemma {:induction false} RestOfPeriod(c: Config, s: Exact, q: nat, i: nat, m: nat)
    requires c.Valid() && i < m <= P(c) && !NoChannels(c)
    requires s.cycle == q * P(c) + i && !s.final && !s.done && !s.wait
    requires |PeriodRow(c, q)| == P(c)
    requires var d := Slots(c, s.d, PeriodRow(c, q)[i..m]); d.dst.v < c.vsize || d.at.v < c.vsize
    ensures var t := Ideal(c, s, m - i); var d := Slots(c, s.d, PeriodRow(c, q)[i..m]);
            && t.d == d && !t.done && !t.wait && t.total == s.total + m - i
            && (if m == P(c) && LastStarted(c, d) then t.final && t.cycle == 0
                else !t.final && t.cycle == q * P(c) + m)
    decreases m - i
  {
    hide DoDma, DoDdma, ChannelState, ChannelPos, MainDiagram, CountIf, Step, LastStarted, Slot;
    var row := PeriodRow(c, q);
    var t := Step(c, s, Free);
    MainStep(c, s, q, i);
    var d := Slot(c, s.d, row[i]);
    assert row[i..m][0] == row[i] && row[i..m][1..] == row[i + 1..m];
    assert Slots(c, s.d, row[i..m]) == Slots(c, d, row[i + 1..m]);
    SlotsAdvance(c, d, row[i + 1..m]);
    assert !t.done;
    if i + 1 == m {
      assert row[i + 1..m] == [];
      assert Ideal(c, s, 1) == Ideal(c, t, 0) == t;
    } else {
      RestOfPeriod(c, t, q, i + 1, m);
      assert Ideal(c, s, m - i) == Ideal(c, t, m - (i + 1));
    }
  }
}
