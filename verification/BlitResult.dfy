/** The whole result of a block blit, from its registers and the memory it
    starts on: every D word, where it goes, and blitzero.  It holds for both
    forms of the loop, with the fill carry reset at every row start and with
    the carry running on, if no source word is overwritten before it is read. */
module BlitResult {
  import opened ChipMemory
  import opened Bits
  import opened BlitConfig
  import F = BlitFast
  import W = BlitWords
  import opened BlitExact
  import opened BlitRefine
  import opened BlitTheorem
  import opened BlitChannels
  import Fill = BlitFill

  // ----- the words, from the registers and the memory

  /** The word of source `ch` for row `j`, column `i`: the one that lies there
      when the blit starts, or without the channel its data register. */
  function SourceWord(c: Config, s: Data, ch: Channel, j: nat, i: nat): Word
    requires c.span > 0
  {
    if Used(c, ch) then Get(s.mem, c.span, At(c, Base(s, ch), Mod(c, ch), j, i))
    else if ch == A then s.src.adat
    else s.src.cdat
  }

  /** The masked A word of row `j`, column `i`. */
  function Masked(c: Config, s: Data, j: nat, i: nat): Word
    requires c.span > 0
  {
    c.path.mask(i, SourceWord(c, s, A, j, i))
  }

  /** The masked A word before it. */
  function Previous(c: Config, s: Data, j: nat, i: nat): Word
    requires c.hsize > 0 && c.span > 0
  {
    if i > 0 then Masked(c, s, j, i - 1) else if j > 0 then Masked(c, s, j - 1, c.hsize - 1) else ZERO
  }

  /** The B word before row `j`, column `i`. */
  function PreviousB(c: Config, s: Data, j: nat, i: nat): Word
    requires c.hsize > 0 && c.span > 0
  {
    if i > 0 then SourceWord(c, s, B, j, i - 1) else if j > 0 then SourceWord(c, s, B, j - 1, c.hsize - 1) else ZERO
  }

  /** The shifted B word, or without B the register that holds one. */
  function ShiftedB(c: Config, s: Data, j: nat, i: nat): Long
    requires c.hsize > 0 && c.span > 0
  {
    if c.useB then c.path.shiftB(PreviousB(c, s, j, i), SourceWord(c, s, B, j, i)) else Widen(s.src.bhold)
  }

  /** The word of row `j`, column `i` before it is filled. */
  function Raw(c: Config, s: Data, j: nat, i: nat): Word
    requires c.hsize > 0 && c.span > 0
  {
    c.path.logic(c.path.shiftA(Previous(c, s, j, i), Masked(c, s, j, i)), ShiftedB(c, s, j, i),
                 SourceWord(c, s, C, j, i))
  }

  /** The parity of the first `n` words of row `j`. */
  function RowParity(c: Config, s: Data, j: nat, n: nat): bool
    requires c.hsize > 0 && c.span > 0
  {
    if n == 0 then false else RowParity(c, s, j, n - 1) != Fill.Parity(Raw(c, s, j, n - 1))
  }

  /** The parity of all words of the rows above row `j`. */
  function Odd(c: Config, s: Data, j: nat): bool
    requires c.hsize > 0 && c.span > 0
  {
    if j == 0 then false else Odd(c, s, j - 1) != RowParity(c, s, j - 1, c.hsize)
  }

  /** The fill stage is the serial fill, inclusive or exclusive. */
  ghost predicate Serial(c: Config, inclusive: bool) {
    c.fillMode ==> forall w: Word, k: bool :: c.path.fill(w, k) == Fill.Fill(w, inclusive, k)
  }

  /** The fill carry in front of a word; `on` if it runs on from row to row. */
  function Carry(c: Config, s: Data, on: bool, j: nat, i: nat): bool
    requires c.hsize > 0 && c.span > 0
  {
    (c.fillCarry != (on && Odd(c, s, j))) != RowParity(c, s, j, i)
  }

  /** The word of row `j`, column `i`. */
  function DWord(c: Config, s: Data, on: bool, j: nat, i: nat): Word
    requires c.hsize > 0 && c.span > 0
  {
    if c.fillMode then c.path.fill(Raw(c, s, j, i), Carry(c, s, on, j, i)).0 else Raw(c, s, j, i)
  }

  /** Every word in front of row `j`, column `i` is zero. */
  function Zeroes(c: Config, s: Data, on: bool, j: nat, i: nat): bool
    requires c.hsize > 0 && c.span > 0
    decreases j, i
  {
    if i > 0 then Zeroes(c, s, on, j, i - 1) && DWord(c, s, on, j, i - 1) == ZERO
    else if j > 0 then Zeroes(c, s, on, j - 1, c.hsize)
    else true
  }

  /** The memory with every word in front of row `j`, column `i` written. */
  function Writes(c: Config, s: Data, on: bool, j: nat, i: nat): (m: seq<Word>)
    requires c.hsize > 0 && c.span > 0
    ensures |m| == |s.mem|
    decreases j, i
  {
    if !c.useD then s.mem
    else if i > 0 then
      Put(Writes(c, s, on, j, i - 1), c.span, At(c, s.dpt, c.dmod, j, i - 1), DWord(c, s, on, j, i - 1))
    else if j > 0 then Writes(c, s, on, j - 1, c.hsize)
    else s.mem
  }

  /** The same but for the last of these words. */
  function WritesBut(c: Config, s: Data, on: bool, j: nat, i: nat): (m: seq<Word>)
    requires c.hsize > 0 && c.span > 0
    ensures |m| == |s.mem|
  {
    if i > 0 then Writes(c, s, on, j, i - 1) else if j > 0 then Writes(c, s, on, j - 1, c.hsize - 1) else s.mem
  }

  // ----- cells

  /** The cell a D word goes to. */
  function Cell(c: Config, s: Data, j: nat, i: nat): nat
    requires c.span > 0
  {
    Spot(c, s, D, j, i)
  }

  datatype Writer = Nobody | Word(j: nat, i: nat)

  /** The last word in front of row `j`, column `i` that goes to cell `x`. */
  function LastTo(c: Config, s: Data, x: nat, j: nat, i: nat): Writer
    requires c.hsize > 0 && c.span > 0
    decreases j, i
  {
    if i > 0 then (if Cell(c, s, j, i - 1) == x then Writer.Word(j, i - 1) else LastTo(c, s, x, j, i - 1))
    else if j > 0 then LastTo(c, s, x, j - 1, c.hsize)
    else Nobody
  }

  /** A cell holds the last word that went to it. */
  lemma {:induction false} Lands(c: Config, s: Data, on: bool, x: nat, j: nat, i: nat)
    requires c.Valid() && c.useD && x < |s.mem|
    ensures Writes(c, s, on, j, i)[x]
         == match LastTo(c, s, x, j, i) case Nobody => s.mem[x] case Word(p, q) => DWord(c, s, on, p, q)
    decreases j, i
  {
    hide DWord, At;
    if i > 0 {
      Lands(c, s, on, x, j, i - 1);
    } else if j > 0 {
      Lands(c, s, on, x, j - 1, c.hsize);
    }
  }

  /** Every word goes to a fitted cell that no other word goes to. */
  ghost predicate Separate(c: Config, s: Data)
    requires c.span > 0
  {
    && (forall j: nat, i: nat :: j < c.vsize && i < c.hsize ==> Cell(c, s, j, i) < |s.mem|)
    && (forall j: nat, i: nat, p: nat, q: nat ::
          j < c.vsize && i < c.hsize && p < c.vsize && q < c.hsize && Cell(c, s, j, i) == Cell(c, s, p, q)
          ==> j == p && i == q)
  }

  lemma {:induction false} LastOfSeparate(c: Config, s: Data, j: nat, i: nat, p: nat, q: nat)
    requires c.Valid() && Separate(c, s) && j < c.vsize && i < c.hsize
    requires j < p || (j == p && i < q)
    requires (p < c.vsize && q <= c.hsize) || (p == c.vsize && q == 0)
    ensures LastTo(c, s, Cell(c, s, j, i), p, q) == Writer.Word(j, i)
    decreases p, q
  {
    hide Cell;
    if q == 0 {
      LastOfSeparate(c, s, j, i, p - 1, c.hsize);
    } else if q - 1 > i || p > j {
      LastOfSeparate(c, s, j, i, p, q - 1);
      assert Cell(c, s, p, q - 1) != Cell(c, s, j, i);
    }
  }

  /** Words with cells of their own are what the cells hold in the end. */
  lemma CellHolds(c: Config, s: Data, on: bool, j: nat, i: nat)
    requires c.Valid() && c.useD && Separate(c, s) && j < c.vsize && i < c.hsize
    ensures Writes(c, s, on, c.vsize, 0)[Cell(c, s, j, i)] == DWord(c, s, on, j, i)
  {
    hide Cell, Writes, LastTo, DWord;
    LastOfSeparate(c, s, j, i, c.vsize, 0);
    Lands(c, s, on, Cell(c, s, j, i), c.vsize, 0);
  }

  // ----- sources read before they are overwritten

  /** The word of row `p`, column `q` is on its way to memory when that of row
      `j`, column `i` is read: it comes before it, with another one between. */
  predicate Behind(c: Config, p: nat, q: nat, j: nat, i: nat) {
    (p < j || (p == j && q < i)) && NextAt(c, Counter(q, p)) != Counter(i, j)
  }

  /** No source word is overwritten before it is read.  Source and destination
      may overlap. */
  ghost predicate ReadsFirst(c: Config, s: Data)
    requires c.span > 0
  {
    c.useD ==>
      forall ch: Channel, j: nat, i: nat, p: nat, q: nat ::
        Used(c, ch) && ch != D && j < c.vsize && i < c.hsize && p < c.vsize && q < c.hsize && Behind(c, p, q, j, i)
        ==> Spot(c, s, ch, j, i) != Cell(c, s, p, q)
  }

  /** No word in front of row `j`, column `i` goes to cell `x`. */
  lemma {:induction false} NobodyYet(c: Config, s: Data, x: nat, j: nat, i: nat)
    requires c.Valid() && i <= c.hsize
    requires forall p: nat, q: nat :: q < c.hsize && (p < j || (p == j && q < i)) ==> Cell(c, s, p, q) != x
    ensures LastTo(c, s, x, j, i) == Nobody
    decreases j, i
  {
    hide Cell;
    if i > 0 {
      NobodyYet(c, s, x, j, i - 1);
    } else if j > 0 {
      NobodyYet(c, s, x, j - 1, c.hsize);
    }
  }

  lemma StaysPut(c: Config, s: Data, on: bool, x: nat, j: nat, i: nat)
    requires c.Valid() && c.useD && i <= c.hsize && x < |s.mem|
    requires forall p: nat, q: nat :: q < c.hsize && (p < j || (p == j && q < i)) ==> Cell(c, s, p, q) != x
    ensures Writes(c, s, on, j, i)[x] == s.mem[x]
  {
    hide Cell, Writes, LastTo, DWord;
    NobodyYet(c, s, x, j, i);
    Lands(c, s, on, x, j, i);
  }

  lemma NoWrites(c: Config, s: Data, on: bool, j: nat, i: nat)
    requires c.Valid() && !c.useD
    ensures WritesBut(c, s, on, j, i) == s.mem && Writes(c, s, on, j, i) == s.mem
  {
  }

  /** What is read for row `j`, column `i` is what lay there at the start. */
  lemma ReadsOriginal(c: Config, s: Data, on: bool, ch: Channel, j: nat, i: nat)
    requires c.Valid() && ReadsFirst(c, s) && Used(c, ch) && ch != D && j < c.vsize && i < c.hsize
    ensures var a := At(c, Base(s, ch), Mod(c, ch), j, i);
            Get(WritesBut(c, s, on, j, i), c.span, a) == Get(s.mem, c.span, a)
  {
    hide At, Writes, Cell;
    var x := Spot(c, s, ch, j, i);
    if c.useD && x < |s.mem| && (i > 0 || j > 0) {
      var v, h := if i > 0 then j else j - 1, if i > 0 then i - 1 else c.hsize - 1;
      forall p: nat, q: nat | q < c.hsize && (p < v || (p == v && q < h))
        ensures Cell(c, s, p, q) != x
      {
        assert Behind(c, p, q, j, i);
      }
      StaysPut(c, s, on, x, v, h);
    } else if !c.useD {
      NoWrites(c, s, on, j, i);
    }
  }

  // ----- what the loops compute

  /** The sources in front of row `j`, column `i`. */
  ghost predicate Fetching(c: Config, s: Data, f: F.Sources, j: nat, i: nat)
    requires c.Valid()
  {
    && (forall ch: Channel :: Used(c, ch) && ch != D && j < c.vsize ==>
          PointerOf(f, ch) == At(c, Base(s, ch), Mod(c, ch), j, i))
    && (!c.useA ==> f.adat == s.src.adat) && (!c.useC ==> f.cdat == s.src.cdat)
    && if c.useB then f.prevb == PreviousB(c, s, j, i) else f.bhold == Widen(s.src.bhold)
  }

  /** The loop stands in front of row `j`, column `i`. */
  ghost predicate Stands(c: Config, s: Data, g: F.Fast, on: bool, j: nat, i: nat)
    requires c.Valid()
  {
    && Fetching(c, s, g.src, j, i) && (!HasSource(c) ==> g.src == FastStart(c, s).src)
    && g.alu.preva == Previous(c, s, j, i) && g.alu.zero == Zeroes(c, s, on, j, i)
    && (c.fillMode && (on || i > 0) ==> g.alu.carry == Carry(c, s, on, j, i))
    && F.Flush(c, g.mem, g.dst) == Writes(c, s, on, j, i) && g.mem == WritesBut(c, s, on, j, i)
    && if c.useD then j < c.vsize ==> g.dst.pd == At(c, s.dpt, c.dmod, j, i)
       else g.dst.pd == 0 && !g.dst.pending
  }

  /** The word of one trip and what is carried on from it. */
  lemma TripWord(c: Config, s: Data, u: Alu, on: bool, inclusive: bool, j: nat, i: nat)
    requires c.Valid() && Serial(c, inclusive)
    requires u.preva == Previous(c, s, j, i) && u.zero == Zeroes(c, s, on, j, i)
    requires c.fillMode ==> u.carry == Carry(c, s, on, j, i)
    ensures var r := Combine(c, u, i, SourceWord(c, s, A, j, i), ShiftedB(c, s, j, i), SourceWord(c, s, C, j, i));
            && r.0 == DWord(c, s, on, j, i)
            && r.1.preva == Masked(c, s, j, i) && r.1.zero == Zeroes(c, s, on, j, i + 1)
            && (c.fillMode ==> r.1.carry == Carry(c, s, on, j, i + 1))
  {
    hide Widen, Fill.Fill, Fill.Parity, Odd, SourceWord, ShiftedB;
    var raw, carry := Raw(c, s, j, i), Carry(c, s, on, j, i);
    Fill.CarryIsParity(raw, inclusive, carry);
    assert RowParity(c, s, j, i + 1) == (RowParity(c, s, j, i) != Fill.Parity(raw));
  }

  /** The next word starts the next row, or follows in this one. */
  lemma TripEnd(c: Config, s: Data, on: bool, j: nat, i: nat)
    requires c.Valid() && i < c.hsize
    ensures var n := NextAt(c, Counter(i, j));
            && Previous(c, s, n.v, n.h) == Masked(c, s, j, i) && PreviousB(c, s, n.v, n.h) == SourceWord(c, s, B, j, i)
            && Zeroes(c, s, on, n.v, n.h) == Zeroes(c, s, on, j, i + 1)
            && (on || n.h > 0 ==> Carry(c, s, on, n.v, n.h) == Carry(c, s, on, j, i + 1))
            && Writes(c, s, on, n.v, n.h) == Writes(c, s, on, j, i + 1)
            && WritesBut(c, s, on, n.v, n.h) == Writes(c, s, on, j, i)
  {
    hide DWord, At, Put, Raw, Masked, SourceWord;
    assert i + 1 == c.hsize ==> Odd(c, s, j + 1) == (Odd(c, s, j) != RowParity(c, s, j, c.hsize));
  }

  lemma FirstCarry(c: Config, s: Data, on: bool, j: nat)
    requires c.Valid() && !on
    ensures Carry(c, s, on, j, 0) == c.fillCarry
  {
  }

  /** The fetches of one word. */
  lemma FetchIs(c: Config, s: Data, on: bool, f: F.Sources, j: nat, i: nat)
    requires c.Valid() && ReadsFirst(c, s) && Fetching(c, s, f, j, i) && j < c.vsize && i < c.hsize
    ensures var t := W.FetchAll(c, WritesBut(c, s, on, j, i), f); var n := NextAt(c, Counter(i, j));
            && t.adat == SourceWord(c, s, A, j, i) && t.bhold == ShiftedB(c, s, j, i)
            && t.cdat == SourceWord(c, s, C, j, i)
            && Fetching(c, s, if i + 1 == c.hsize then W.SourcesEnd(c, t) else t, n.v, n.h)
  {
    hide At, Get, Wrap, WritesBut, Writes, ReadsFirst, Widen;
    TripEnd(c, s, on, j, i);
    var m := WritesBut(c, s, on, j, i);
    if c.useA {
      ReadsOriginal(c, s, on, A, j, i);
      NextPointer(c, s.src.apt, c.amod, Counter(i, j));
    }
    if c.useB {
      ReadsOriginal(c, s, on, B, j, i);
      NextPointer(c, s.src.bpt, c.bmod, Counter(i, j));
    }
    if c.useC {
      ReadsOriginal(c, s, on, C, j, i);
      NextPointer(c, s.src.cpt, c.cmod, Counter(i, j));
    }
  }

  lemma WritesNext(c: Config, s: Data, on: bool, j: nat, i: nat)
    requires c.Valid()
    ensures Writes(c, s, on, j, i + 1)
         == if !c.useD then s.mem
            else Put(Writes(c, s, on, j, i), c.span, At(c, s.dpt, c.dmod, j, i), DWord(c, s, on, j, i))
    ensures !c.useD ==> Writes(c, s, on, j, i) == s.mem
  {
    hide At, Put, DWord;
  }

  lemma NoFetches(c: Config, s: Data, m: seq<Word>, f: F.Sources)
    requires c.Valid()
    ensures !HasSource(c) ==> W.FetchAll(c, m, f) == f && (f == FastStart(c, s).src ==> W.SourcesEnd(c, f) == f)
  {
  }

  /** One trip of the loop. */
  lemma Trip(c: Config, s: Data, g: F.Fast, on: bool, inclusive: bool, j: nat, i: nat)
    requires c.Valid() && Serial(c, inclusive) && ReadsFirst(c, s)
    requires Stands(c, s, g, on, j, i) && j < c.vsize && i < c.hsize
    ensures var n := NextAt(c, Counter(i, j)); Stands(c, s, W.Next(c, g, i, !on), on, n.v, n.h)
  {
    hide At, Put, Wrap, Serial, DWord, Carry, Combine, Zeroes, Previous, PreviousB, Masked, Fetching, SourceWord,
         ShiftedB, W.FetchAll, W.SourcesEnd, ReadsFirst, Writes;
    NextPointer(c, s.dpt, c.dmod, Counter(i, j));
    FetchIs(c, s, on, g.src, j, i);
    NoFetches(c, s, g.mem, g.src);
    var u := (if i == 0 && !on then F.RowStart(c, g) else g).alu;
    assert c.fillMode ==> u.carry == Carry(c, s, on, j, i) by {
      if !on {
        FirstCarry(c, s, on, j);
      }
    }
    TripWord(c, s, u, on, inclusive, j, i);
    TripEnd(c, s, on, j, i);
    WritesNext(c, s, on, j, i);
  }

  /** `n` further trips. */
  lemma {:induction false} Trips(c: Config, s: Data, g: F.Fast, on: bool, inclusive: bool, at: Counter, n: nat)
    requires c.Valid() && Serial(c, inclusive) && ReadsFirst(c, s)
    requires at.h < c.hsize && at.v * c.hsize + at.h + n == WordCount(c) && Stands(c, s, g, on, at.v, at.h)
    ensures Stands(c, s, W.Words(c, g, at.h, n, !on), on, c.vsize, 0)
    decreases n
  {
    hide Stands, W.Next, Serial, ReadsFirst;
    Position(c, at, at.v * c.hsize + at.h);
    if n == 0 {
      SamePosition(at.v, at.h, c.vsize, 0, c.hsize);
    } else {
      Trip(c, s, g, on, inclusive, at.v, at.h);
      Trips(c, s, W.Next(c, g, at.h, !on), on, inclusive, NextAt(c, at), n - 1);
    }
  }

  lemma AtFirst(c: Config, p: nat, mod: int)
    requires p < 0x1_0000_0000
    ensures At(c, p, mod, 0, 0) == p
  {
    assert 0 * (c.hsize * c.Stride() + c.Signed(mod)) == 0;
  }

  /** Before the first word. */
  lemma StandsFirst(c: Config, s: Data, on: bool)
    requires c.Valid() && Pointers(s)
    ensures Stands(c, s, FastStart(c, s), on, 0, 0)
  {
    hide At;
    AtFirst(c, s.src.apt, c.amod);
    AtFirst(c, s.src.bpt, c.bmod);
    AtFirst(c, s.src.cpt, c.cmod);
    AtFirst(c, s.dpt, c.dmod);
  }

  /** The loop leaves exactly these words in memory, and this blitzero; without
      a source the data registers stay as they were. */
  lemma BlitIs(c: Config, s: Data, on: bool, inclusive: bool)
    requires c.Valid() && Serial(c, inclusive) && ReadsFirst(c, s) && Pointers(s)
    ensures var f := FastStart(c, s); var x := W.Blit(c, f, !on);
            && x.mem == Writes(c, s, on, c.vsize, 0) && x.alu.zero == Zeroes(c, s, on, c.vsize, 0)
            && x.alu.preva == Previous(c, s, c.vsize, 0) && (!HasSource(c) ==> x.src == f.src)
  {
    hide FastStart, W.Words, Serial, Writes, Zeroes, Previous, At, F.Flush, Carry, Fetching, ReadsFirst, WritesBut;
    StandsFirst(c, s, on);
    Trips(c, s, FastStart(c, s), on, inclusive, Counter(0, 0), WordCount(c));
  }

  // ----- blitzero

  /** blitzero says that no word was other than zero. */
  lemma {:induction false} ZeroesAre(c: Config, s: Data, on: bool, j: nat, i: nat)
    requires c.Valid() && i <= c.hsize
    ensures Zeroes(c, s, on, j, i)
       <==> forall p: nat, q: nat :: (p < j && q < c.hsize) || (p == j && q < i) ==> DWord(c, s, on, p, q) == ZERO
    decreases j, i
  {
    hide DWord;
    if i > 0 {
      ZeroesAre(c, s, on, j, i - 1);
    } else if j > 0 {
      ZeroesAre(c, s, on, j - 1, c.hsize);
    }
  }

  /** Every word is zero. */
  ghost predicate AllZero(c: Config, s: Data, on: bool)
    requires c.hsize > 0 && c.span > 0
  {
    forall j: nat, i: nat :: j < c.vsize && i < c.hsize ==> DWord(c, s, on, j, i) == ZERO
  }

  lemma BlitZero(c: Config, s: Data, on: bool)
    requires c.Valid()
    ensures Zeroes(c, s, on, c.vsize, 0) <==> AllZero(c, s, on)
  {
    hide Zeroes, DWord;
    ZeroesAre(c, s, on, c.vsize, 0);
  }
}
