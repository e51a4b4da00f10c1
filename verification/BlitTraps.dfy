/** Where the two forms part, by example. */
module BlitTraps {
  import opened ChipMemory
  import opened Bits
  import opened BlitConfig
  import opened BlitFunc
  import opened BlitRegisters
  import opened BlitFields
  import opened BlitBits
  import opened BlitExact
  import opened BlitImmediate
  import opened BlitSchedule
  import opened BlitPeriod
  import opened BlitRefine
  import opened BlitTheorem
  import opened BlitOnlyD
  import opened BlitResult
  import opened BlitNoSource
  import opened BlitStuck
  import opened BlitChannels
  import F = BlitFast
  import W = BlitWords
  import Fill = BlitFill

  /** A word with only its lowest bit set. */
  const EDGE: Word := [true] + Zeros(15)

  lemma {:induction false} ParityOfZeros(n: nat)
    ensures !Fill.Parity(Zeros(n))
  {
    if n > 0 {
      assert Zeros(n)[1..] == Zeros(n - 1);
      ParityOfZeros(n - 1);
    }
  }

  /** Filled exclusively, one edge sets or clears all the bits above it. */
  lemma FillEdge(carry: bool)
    ensures Fill.Fill(EDGE, false, carry) == (if carry then ZERO else ONES, !carry)
  {
    var r := Fill.Fill(EDGE, false, carry);
    forall k | 0 <= k < 16
      ensures r.0[k] == !carry && Fill.Parity(EDGE[..k + 1])
    {
      Fill.ExclusiveIsRunningParity(EDGE, carry, k);
      assert EDGE[..k + 1][1..] == Zeros(k);
      ParityOfZeros(k);
    }
    assert EDGE[..16] == EDGE;
    assert EDGE[1..] == Zeros(15);
    ParityOfZeros(15);
    Fill.CarryIsParity(EDGE, false, carry);
    assert r.0 == if carry then ZERO else ONES;
  }

  /** An exclusive fill of D alone, one column by two rows, in which every
      word is EDGE before it is filled. */
  ghost predicate EdgeFill(r: Registers, d: Data) {
    && r.Valid() && OnlyD(Configure(r)) && r.FillMode() && !r.Inclusive() && !r.con1[2] && !r.Desc()
    && r.hsize == 1 && r.vsize == 2 && r.dmod == 0 && r.span == 8
    && r.MinTerm() == 0xF0 && Registers.Shift(r.con0) == 0 && r.afwm == ONES && r.alwm == ONES
    && d.src.adat == EDGE && |d.mem| == 4 && d.dpt == 2 && Pointers(d)
  }

  function Entries(): (t: seq<Fill.Entry>)
    ensures |t| == 1024
  {
    seq(1024, k requires 0 <= k < 1024 => Fill.EntryOf(k / 4, k % 4))
  }

  lemma EntriesAreTable()
    ensures Fill.IsFillTable(Entries())
  {
    hide Fill.EntryOf;
    forall d: nat, mode: nat | d < 256 && mode < 4
      ensures Entries()[d * 4 + mode] == Fill.EntryOf(d, mode)
    {
      var k := d * 4 + mode;
      assert k / 4 == d && k % 4 == mode;
    }
  }

  function FillTable(): (t: seq<Fill.Entry>)
    ensures Fill.IsFillTable(t)
  {
    EntriesAreTable();
    Entries()
  }

  /** BLTCON0 with D and minterm 0xF0, BLTCON1 with exclusive fill. */
  const CON0: Word := Zeros(4) + Ones(5) + Zeros(7)
  const CON1: Word := Zeros(4) + [true] + Zeros(11)

  function EdgeRegisters(): (r: Registers)
    ensures r.Valid()
  {
    Registers(CON0, CON1, ONES, ONES, 1, 2, 0, 0, 0, 0, 8, FillTable())
  }

  function EdgeData(mem: seq<Word>): Data {
    Data(mem, Sources(0, 0, 0, EDGE, ZERO, ZERO, ZERO, ZERO, 0), Alu(ZERO, false, true),
         Pipe(ZERO, ZERO, false, false), Counter(0, 0), 2, Counter(0, 0))
  }

  lemma ValueOfFour(b: seq<bool>)
    requires |b| >= 4
    ensures Value(b) == (if b[0] then 1 else 0) + (if b[1] then 2 else 0) + (if b[2] then 4 else 0)
                        + (if b[3] then 8 else 0) + 16 * Value(b[4..])
  {
    assert Value(b) == (if b[0] then 1 else 0) + 2 * Value(b[1..]);
    assert b[1..][1..] == b[2..] && b[2..][1..] == b[3..] && b[3..][1..] == b[4..];
    assert Value(b[1..]) == (if b[1] then 1 else 0) + 2 * Value(b[2..]);
    assert Value(b[2..]) == (if b[2] then 1 else 0) + 2 * Value(b[3..]);
    assert Value(b[3..]) == (if b[3] then 1 else 0) + 2 * Value(b[4..]);
  }

  lemma ValueOfEight(b: seq<bool>)
    requires |b| == 8
    ensures Value(b) == (if b[0] then 1 else 0) + (if b[1] then 2 else 0) + (if b[2] then 4 else 0)
                        + (if b[3] then 8 else 0) + 16 * Value(b[4..])
    ensures Value(b[4..]) == (if b[4] then 1 else 0) + (if b[5] then 2 else 0) + (if b[6] then 4 else 0)
                             + (if b[7] then 8 else 0)
  {
    ValueOfFour(b);
    ValueOfFour(b[4..]);
  }

  lemma EdgeMinTerm()
    ensures Value(CON0[..8]) == 0xF0
  {
    var b := CON0[..8];
    assert b == [false, false, false, false, true, true, true, true];
    ValueOfEight(b);
  }

  lemma NoShift()
    ensures Value(CON0[12..]) == 0
  {
    var b := CON0[12..];
    assert b == [false, false, false, false];
    ValueOfFour(b);
    assert b[4..] == [];
  }

  lemma Edges(mem: seq<Word>)
    requires |mem| == 4
    ensures EdgeFill(EdgeRegisters(), EdgeData(mem))
  {
    var r := EdgeRegisters();
    assert r.MinTerm() == 0xF0 by { EdgeMinTerm(); }
    assert Registers.Shift(CON0) == 0 by { NoShift(); }
  }

  lemma Minterms(a: bool, b: bool, w: bool)
    ensures Selected(0xF0, a, b, w) == a && Selected(0xFF, a, b, w)
  {
  }

  lemma EdgeBit(r: Registers, d: Data, j: nat, i: nat)
    requires EdgeFill(r, d) && i < 16
    ensures RawBit(r, d, j, 0, i) == EDGE[i]
  {
    hide Value, Registers.MinTerm, Registers.Shift, Flag, BBit, CWord, Selected;
    FieldsAre(r);
    assert r.con0[11] == Flag(r.con0, 0x800);
    Minterms(ABit(r, d, j, 0, i), BBit(r, d, j, 0, i), CWord(r, d, j, 0)[i]);
  }

  /** Every word is EDGE before it is filled. */
  lemma EdgeRaw(r: Registers, d: Data, j: nat)
    requires EdgeFill(r, d)
    ensures Raw(Configure(r), d, j, 0) == EDGE
  {
    hide Configure, Raw, RawBit, Registers.MinTerm;
    SizesAre(r);
    var w := Raw(Configure(r), d, j, 0);
    forall i | 0 <= i < 16
      ensures w[i] == EDGE[i]
    {
      RawIs(r, d, j, 0, i);
      EdgeBit(r, d, j, i);
    }
  }

  lemma BitwisePath(r: Registers)
    requires r.Valid()
    ensures Bitwise(Configure(r).path) && Configure(r).Valid()
  {
    PathIsBitwise(r);
  }

  lemma ConfigureEdge(r: Registers, d: Data)
    requires EdgeFill(r, d)
    ensures var c := Configure(r);
            c.hsize == 1 && c.vsize == 2 && c.dmod == 0 && c.span == 8 && !c.desc && !c.fillCarry && c.useD
  {
    hide Registers.MinTerm;
  }

  lemma EdgePath(r: Registers, d: Data)
    requires EdgeFill(r, d)
    ensures var c := Configure(r); c.Valid() && Bitwise(c.path) && OnlyD(c) && Pointers(d) && AllClear(c, d)
  {
    hide Configure, Registers.MinTerm;
    ConfigureEdge(r, d);
    var c := Configure(r);
    assert At(c, 2, c.dmod, 0, 0) == 2 && At(c, 2, c.dmod, 0, 1) == 4 && At(c, 2, c.dmod, 1, 0) == 4;
    assert Clear(c, 2, c.dmod);
    assert Bitwise(c.path) by { BitwisePath(r); }
  }

  lemma EdgeStage(r: Registers, d: Data)
    requires EdgeFill(r, d)
    ensures var c := Configure(r); c.hsize == 1 && c.span == 8 && !c.fillCarry && c.fillMode && Serial(c, false)
  {
    hide Registers.MinTerm, Fill.Fill, Fill.FillWord, Registers.Shift;
    forall w: Word, k: bool
      ensures Fill.FillWord(r.table, w, false, k) == Fill.Fill(w, false, k)
    {
      Fill.FillWordFills(r.table, w, false, k);
    }
  }

  lemma EdgeIsOdd()
    ensures Fill.Parity(EDGE)
  {
    assert EDGE[1..] == Zeros(15);
    ParityOfZeros(15);
  }

  /** What comes out of the fill stage. */
  lemma EdgeWord(r: Registers, d: Data, on: bool, j: nat)
    requires EdgeFill(r, d) && j < 2
    ensures DWord(Configure(r), d, on, j, 0) == if on && j == 1 then ZERO else ONES
  {
    hide Configure, Raw, Registers.MinTerm, Fill.Fill, Fill.FillWord;
    var c := Configure(r);
    assert c.hsize == 1 && c.span == 8 && !c.fillCarry && c.fillMode && Serial(c, false) by { EdgeStage(r, d); }
    EdgeRaw(r, d, 0);
    EdgeRaw(r, d, j);
    assert RowParity(c, d, 0, 1) == Fill.Parity(EDGE) by { assert !RowParity(c, d, 0, 0); }
    assert Fill.Parity(EDGE) by { EdgeIsOdd(); }
    assert Carry(c, d, on, j, 0) == (on && j == 1) by { assert !Odd(c, d, 0); }
    FillEdge(on && j == 1);
  }

  lemma EdgePlaces(c: Config)
    requires c.hsize == 1 && c.dmod == 0 && !c.desc
    ensures At(c, 2, c.dmod, 0, 0) == 2 && At(c, 2, c.dmod, 1, 0) == 4
  {
  }

  /** Both rows, one cell each. */
  lemma EdgeWrites(r: Registers, d: Data, on: bool)
    requires EdgeFill(r, d)
    ensures Writes(Configure(r), d, on, 2, 0) == d.mem[1 := ONES][2 := if on then ZERO else ONES]
  {
    hide Configure, Registers.MinTerm, DWord, At;
    var c := Configure(r);
    ConfigureEdge(r, d);
    EdgeWord(r, d, on, 0);
    EdgeWord(r, d, on, 1);
    assert At(c, 2, c.dmod, 0, 0) == 2 && At(c, 2, c.dmod, 1, 0) == 4 by { EdgePlaces(c); }
    assert Writes(c, d, on, 0, 0) == d.mem;
    assert Writes(c, d, on, 0, 1) == Put(d.mem, 8, 2, DWord(c, d, on, 0, 0));
    assert Writes(c, d, on, 1, 0) == Writes(c, d, on, 0, 1);
    assert Writes(c, d, on, 1, 1) == Put(Writes(c, d, on, 1, 0), 8, 4, DWord(c, d, on, 1, 0));
  }

  lemma EdgeRows(r: Registers, d: Data)
    requires EdgeFill(r, d)
    ensures F.Blit(Configure(r), FastStart(Configure(r), d)).mem == d.mem[1 := ONES][2 := ONES]
    ensures W.Blit(Configure(r), FastStart(Configure(r), d), false).mem == d.mem[1 := ONES][2 := ZERO]
  {
    hide Configure, Registers.MinTerm, F.Blit, W.Blit, FastStart, AllClear, Writes, Zeroes, Previous, Serial, Bitwise;
    var c := Configure(r);
    EdgePath(r, d);
    EdgeStage(r, d);
    ConfigureEdge(r, d);
    ImmediateIsWords(c, d);
    BlitsAre(c, d, false);
    EdgeWrites(r, d, true);
    EdgeWrites(r, d, false);
  }

  lemma ConfigureIsValid(r: Registers)
    requires r.Valid()
    ensures Configure(r).Valid()
  {
    hide Registers.Shift, Registers.MinTerm;
  }

  function EdgeConfig(): (c: Config)
    ensures c.Valid() && c == Configure(EdgeRegisters())
  {
    ConfigureIsValid(EdgeRegisters());
    Configure(EdgeRegisters())
  }

  /** A run of the cycle-exact machine, and what the immediate form leaves. */
  ghost function EdgeRun(mem: seq<Word>, copper: bool, stale: bool, gs: seq<Grant>): Exact {
    Run(EdgeConfig(), Start(EdgeConfig(), EdgeData(mem), copper, stale), gs)
  }

  ghost function EdgeBlit(mem: seq<Word>): seq<Word> {
    F.Blit(EdgeConfig(), FastStart(EdgeConfig(), EdgeData(mem))).mem
  }

  /** On any memory of four words and under any grants: the immediate form
      fills both rows, the cycle-exact one leaves the second row empty. */
  lemma CarryRunsOn(mem: seq<Word>, copper: bool, stale: bool, gs: seq<Grant>)
    requires |mem| == 4
    ensures EdgeBlit(mem) == mem[1 := ONES][2 := ONES]
    ensures var t := EdgeRun(mem, copper, stale, gs);
            && (t.done ==> t.d.mem == mem[1 := ONES][2 := ZERO] != EdgeBlit(mem))
            && (CountFree(gs) >= TotalSlots(EdgeConfig()) + (if copper then 1 else 0) ==> t.done)
  {
    hide Configure, F.Blit, W.Blit, EdgeFill, EdgeRegisters, EdgeConfig, TotalSlots, Run, Start, Bitwise, Clear,
         FastStart;
    var r, d := EdgeRegisters(), EdgeData(mem);
    Edges(mem);
    EdgeRows(r, d);
    EdgePath(r, d);
    ExactWithDAlone(Configure(r), d, copper, stale, gs);
    assert mem[1 := ONES][2 := ONES][2] != mem[1 := ONES][2 := ZERO][2] by { assert ONES[0] != ZERO[0]; }
  }

  /** No channel, no fill, and a minterm that is 1 everywhere. */
  function OnesRegisters(): (r: Registers)
    ensures r.Valid()
  {
    Registers(Ones(8) + Zeros(8), ZERO, ONES, ONES, 1, 1, 0, 0, 0, 0, 8, FillTable())
  }

  lemma OnesPath()
    ensures var c := Configure(OnesRegisters());
            c.Valid() && NoChannels(c) && Serial(c, false) && c.hsize == 1 && c.vsize == 1
  {
  }

  lemma OnesMinTerm()
    ensures OnesRegisters().MinTerm() == 0xFF
  {
    var b := OnesRegisters().con0[..8];
    assert b == [true, true, true, true, true, true, true, true];
    ValueOfEight(b);
  }

  lemma OnesBit(d: Data)
    ensures DBit(OnesRegisters(), d, false, 0, 0, 0)
  {
    hide Value, Registers.MinTerm, Registers.Shift, Flag, ABit, BBit, CWord, Selected, OddBefore;
    var r := OnesRegisters();
    OnesMinTerm();
    FieldsAre(r);
    Minterms(ABit(r, d, 0, 0, 0), BBit(r, d, 0, 0, 0), CWord(r, d, 0, 0)[0]);
  }

  lemma OnesWord(d: Data)
    ensures DWord(Configure(OnesRegisters()), d, false, 0, 0) != ZERO
  {
    hide Configure, DWord, DBit, OnesRegisters;
    var r := OnesRegisters();
    SizesAre(r);
    WordIs(r, d, false, 0, 0, 0);
    OnesBit(d);
    assert !ZERO[0];
  }

  /** Without channels the two forms can leave a different blitzero: whatever
      the data registers hold, the immediate one clears it here. */
  lemma BlitzeroParts(d: Data, copper: bool, stale: bool, gs: seq<Grant>)
    requires Pointers(d)
    ensures var c := Configure(OnesRegisters()); var t := Run(c, Start(c, d, copper, stale), gs);
            && !F.Blit(c, FastStart(c, d)).alu.zero && (t.done ==> t.d.alu.zero)
            && (CountFree(gs) >= IdleSlots(c) + (if copper then 1 else 0) ==> t.done)
  {
    hide Configure, F.Blit, Run, Start, FastStart, DWord, Serial, IdleSlots;
    var r := OnesRegisters();
    var c := Configure(r);
    assert c.Valid() && NoChannels(c) && Serial(c, false) && c.hsize == 1 && c.vsize == 1 by { OnesPath(); }
    NoChannelsAgree(c, d, false, copper, stale, gs);
    NoChannelsDoNothing(c, d, copper, stale, gs);
    OnesWord(d);
  }

  /** A destination pointer of zero: the immediate form takes the channel to
      be off and writes nothing, whatever the channels and sizes; with D alone
      the cycle-exact one writes every word. */
  lemma ZeroPointer(c: Config, d: Data, inclusive: bool, copper: bool, stale: bool, gs: seq<Grant>)
    requires c.Valid() && Bitwise(c.path) && c.useD && Pointers(d) && d.dpt == 0
    ensures F.Blit(c, FastStart(c, d)).mem == d.mem
    ensures var t := Run(c, Start(c, d, copper, stale), gs);
            OnlyD(c) && Serial(c, inclusive) && t.done ==> t.d.mem == Writes(c, d, true, c.vsize, 0)
  {
    hide F.Words, Run, TotalSlots, Bitwise, W.Blit, Zeroes, Previous, Serial, Writes;
    NothingWritten(c, FastStart(c, d), 0, WordCount(c));
    if OnlyD(c) && Serial(c, inclusive) {
      ExactWithDAlone(c, d, copper, stale, gs);
      BlitsAre(c, d, inclusive);
    }
  }

  lemma TwoWrites(c: Config, d: Data)
    requires c.Valid() && c.useD && c.hsize == 2 && c.vsize == 1 && !c.desc && d.dpt == 0xffff_fffe
    ensures Writes(c, d, true, 1, 0)
         == Put(Put(d.mem, c.span, 0xffff_fffe, DWord(c, d, true, 0, 0)), c.span, 0, DWord(c, d, true, 0, 1))
  {
    hide DWord, Put;
    assert At(c, d.dpt, c.dmod, 0, 0) == 0xffff_fffe && At(c, d.dpt, c.dmod, 0, 1) == 0 by {
      assert 0 * (c.hsize * c.Stride() + c.Signed(c.dmod)) == 0;
    }
    assert Writes(c, d, true, 0, 0) == d.mem;
    assert Writes(c, d, true, 1, 0) == Writes(c, d, true, 0, 2);
  }

  lemma NoFetch(c: Config, mem: seq<Word>, s: F.Sources)
    requires c.Valid() && s.pa == 0 && s.pb == 0 && s.pc == 0
    ensures F.FetchAll(c, mem, s) == s
  {
  }

  lemma FirstAlu(c: Config, d: Data)
    requires c.Valid()
    ensures var u := FastStart(c, d).alu;
            u.preva == Previous(c, d, 0, 0) && u.zero == Zeroes(c, d, true, 0, 0) && u.carry == Carry(c, d, true, 0, 0)
  {
  }

  lemma SecondPrevious(c: Config, d: Data)
    requires c.Valid()
    ensures Previous(c, d, 0, 1) == Masked(c, d, 0, 0)
  {
  }

  /** Without a source the words come from the registers. */
  lemma RegisterWords(c: Config, d: Data, i: nat)
    requires c.Valid() && !HasSource(c)
    ensures var f := FastStart(c, d).src;
            SourceWord(c, d, A, 0, i) == f.adat && ShiftedB(c, d, 0, i) == f.bhold
            && SourceWord(c, d, C, 0, i) == f.cdat
  {
  }

  lemma SecondOverFirst(c: Config, d: Data, inclusive: bool)
    requires c.Valid() && OnlyD(c) && Serial(c, inclusive) && Pointers(d)
    requires c.hsize == 2 && c.vsize == 1 && !c.desc && d.dpt == 0xffff_fffe
    ensures F.Blit(c, FastStart(c, d)).mem == Put(d.mem, c.span, 0xffff_fffe, DWord(c, d, true, 0, 1))
  {
    hide F.FetchAll, Combine, Put, DWord, Serial, Zeroes, Carry, Previous, Masked, SourceWord, ShiftedB;
    var f := FastStart(c, d);
    RegisterWords(c, d, 0);
    RegisterWords(c, d, 1);
    FirstAlu(c, d);
    TripWord(c, d, f.alu, true, inclusive, 0, 0);
    var g := F.Next(c, f, 0);
    assert F.FetchAll(c, f.mem, f.src) == f.src by { NoFetch(c, f.mem, f.src); }
    assert g.dst == F.Output(DWord(c, d, true, 0, 0), true, 0xffff_fffe, 0) && g.mem == d.mem && g.src == f.src;
    assert Previous(c, d, 0, 1) == Masked(c, d, 0, 0) by { SecondPrevious(c, d); }
    TripWord(c, d, g.alu, true, inclusive, 0, 1);
    var h := F.Next(c, g, 1);
    assert F.FetchAll(c, g.mem, g.src) == g.src by { NoFetch(c, g.mem, g.src); }
    assert h.dst.ddat == DWord(c, d, true, 0, 1);
    assert F.Words(c, f, 0, 2) == F.Words(c, g, 1, 1) == F.Words(c, h, 0, 0) == h;
    StuckOverwrites(c, g, 1, 1);
    assert F.Words(c, g, 1, 1) == h;
  }

  /** Two words of D alone, the second at address 0: the immediate form writes
      it over the first one, the cycle-exact one to address 0. */
  lemma StuckPointer(c: Config, d: Data, inclusive: bool, copper: bool, stale: bool, gs: seq<Grant>)
    requires c.Valid() && Bitwise(c.path) && OnlyD(c) && Serial(c, inclusive) && Pointers(d)
    requires c.hsize == 2 && c.vsize == 1 && !c.desc && d.dpt == 0xffff_fffe
    ensures var v, w := DWord(c, d, true, 0, 0), DWord(c, d, true, 0, 1);
            var t := Run(c, Start(c, d, copper, stale), gs);
            && F.Blit(c, FastStart(c, d)).mem == Put(d.mem, c.span, 0xffff_fffe, w)
            && (t.done ==> t.d.mem == Put(Put(d.mem, c.span, 0xffff_fffe, v), c.span, 0, w))
  {
    hide Run, TotalSlots, Bitwise, F.Blit, W.Blit, Zeroes, Previous, Serial, Writes, Put, FastStart, DWord, Start;
    ExactWithDAlone(c, d, copper, stale, gs);
    BlitsAre(c, d, inclusive);
    TwoWrites(c, d);
    SecondOverFirst(c, d, inclusive);
  }
}
