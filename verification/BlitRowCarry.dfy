/** When a fill carry that runs on from row to row, as with D alone in the
    cycle-exact machine, leaves what the reset at every row start leaves. */
module BlitRowCarry {
  import opened ChipMemory
  import opened Bits
  import opened BlitConfig
  import F = BlitFast
  import W = BlitWords
  import opened BlitRegisters
  import opened BlitExact
  import opened BlitImmediate
  import opened BlitSchedule
  import opened BlitRefine
  import opened BlitTheorem
  import opened BlitOnlyD
  import opened BlitChannels
  import opened BlitResult
  import opened BlitNoSource
  import Fill = BlitFill

  /** The carry in matters to a word unless it is filled inclusively and has
      every bit set. */
  lemma FillFlip(w: Word, inclusive: bool, k: bool)
    ensures Fill.Fill(w, inclusive, k).0 == Fill.Fill(w, inclusive, !k).0 <==> inclusive && w == ONES
  {
    hide Fill.Fill, Fill.Parity;
    var x, y := Fill.Fill(w, inclusive, k).0, Fill.Fill(w, inclusive, !k).0;
    forall i | 0 <= i < 16
      ensures x[i] == y[i] <==> inclusive && w[i]
    {
      Fill.FillAt(w, inclusive, k, i);
      Fill.FillAt(w, inclusive, !k, i);
    }
    if inclusive && w == ONES {
      assert x == y;
    }
    if x == y {
      assert x[0] == y[0];
      assert w == ONES;
    }
  }

  /** The running carry leaves this word alone: the rows above have an even
      number of edges, or the word is all ones before inclusive fill. */
  predicate Untouched(c: Config, s: Data, inclusive: bool, j: nat, i: nat)
    requires c.hsize > 0 && c.span > 0
  {
    !c.fillMode || !Odd(c, s, j) || (inclusive && Raw(c, s, j, i) == ONES)
  }

  lemma SameWords(c: Config, s: Data, inclusive: bool, j: nat, i: nat)
    requires c.Valid() && Serial(c, inclusive)
    ensures DWord(c, s, true, j, i) == DWord(c, s, false, j, i) <==> Untouched(c, s, inclusive, j, i)
  {
    hide Raw, Odd, RowParity, Fill.Fill;
    FillFlip(Raw(c, s, j, i), inclusive, Carry(c, s, false, j, i));
  }

  /** The last word to cell `x`, if there is one, is untouched. */
  predicate LastUntouched(c: Config, s: Data, inclusive: bool, x: nat)
    requires c.Valid()
  {
    match LastTo(c, s, x, c.vsize, 0)
    case Nobody => true
    case Word(j, i) => Untouched(c, s, inclusive, j, i)
  }

  lemma SameCell(c: Config, s: Data, inclusive: bool, x: nat)
    requires c.Valid() && c.useD && Serial(c, inclusive) && x < |s.mem|
    ensures Writes(c, s, false, c.vsize, 0)[x] == Writes(c, s, true, c.vsize, 0)[x]
       <==> LastUntouched(c, s, inclusive, x)
  {
    hide Serial, Writes, Untouched, LastTo, DWord;
    Lands(c, s, false, x, c.vsize, 0);
    Lands(c, s, true, x, c.vsize, 0);
    match LastTo(c, s, x, c.vsize, 0)
    case Nobody =>
    case Word(j, i) => SameWords(c, s, inclusive, j, i);
  }

  /** For any destination addresses: the memories agree exactly when the last
      word to every cell is untouched by the running carry. */
  lemma MemoryAgrees(c: Config, s: Data, inclusive: bool)
    requires c.Valid() && OnlyD(c) && Serial(c, inclusive) && Pointers(s)
    ensures W.Blit(c, FastStart(c, s), true).mem == W.Blit(c, FastStart(c, s), false).mem
       <==> forall x: nat :: x < |s.mem| ==> LastUntouched(c, s, inclusive, x)
  {
    hide Serial, FastStart, W.Blit, Writes, LastUntouched, Zeroes;
    BlitsAre(c, s, inclusive);
    var m, n := Writes(c, s, false, c.vsize, 0), Writes(c, s, true, c.vsize, 0);
    forall x: nat | x < |s.mem|
      ensures m[x] == n[x] <==> LastUntouched(c, s, inclusive, x)
    {
      SameCell(c, s, inclusive, x);
    }
    if forall x: nat :: x < |s.mem| ==> LastUntouched(c, s, inclusive, x) {
      assert m == n;
    }
  }

  // ----- in closed form

  /** All rows after the first are alike. */
  lemma {:induction false} RowsAlike(c: Config, s: Data, j: nat, n: nat)
    requires c.Valid() && !HasSource(c) && j > 0
    ensures RowParity(c, s, j, n) == RowParity(c, s, 1, n) && Raw(c, s, j, n) == Raw(c, s, 1, n)
    decreases n
  {
    hide Fill.Parity;
    if n > 0 {
      RowsAlike(c, s, j, n - 1);
    }
  }

  /** The first row has an even number of edges, and so do the rows between
      it and the last one. */
  predicate RowsEven(c: Config, s: Data)
    requires c.hsize > 0 && c.span > 0
  {
    c.vsize == 1 || (!RowParity(c, s, 0, c.hsize) && (c.vsize == 2 || !RowParity(c, s, 1, c.hsize)))
  }

  lemma {:induction false} NeverOdd(c: Config, s: Data, j: nat)
    requires c.Valid() && !HasSource(c) && j < c.vsize && RowsEven(c, s)
    ensures !Odd(c, s, j)
  {
    hide RowParity;
    if j > 1 {
      NeverOdd(c, s, j - 1);
      RowsAlike(c, s, j - 1, c.hsize);
    }
  }

  lemma OddSomewhere(c: Config, s: Data) returns (j: nat)
    requires c.Valid() && !RowsEven(c, s)
    ensures 0 < j < c.vsize && Odd(c, s, j)
  {
    hide RowParity;
    assert Odd(c, s, 1) == RowParity(c, s, 0, c.hsize);
    assert Odd(c, s, 2) == (Odd(c, s, 1) != RowParity(c, s, 1, c.hsize));
    j := if Odd(c, s, 1) then 1 else 2;
  }

  /** What can be read off the registers before a blit with D alone. */
  predicate Harmless(c: Config, s: Data, inclusive: bool)
    requires c.hsize > 0 && c.span > 0
  {
    !c.fillMode || RowsEven(c, s) || (inclusive && forall i: nat :: i < c.hsize ==> Raw(c, s, 1, i) == ONES)
  }

  /** The running carry changes no word at all. */
  ghost predicate AllUntouched(c: Config, s: Data, inclusive: bool)
    requires c.hsize > 0 && c.span > 0
  {
    forall j: nat, i: nat :: j < c.vsize && i < c.hsize ==> Untouched(c, s, inclusive, j, i)
  }

  lemma OddFirst(c: Config, s: Data)
    requires c.Valid()
    ensures !Odd(c, s, 0)
  {
  }

  lemma HarmlessIs(c: Config, s: Data, inclusive: bool)
    requires c.Valid() && !HasSource(c)
    ensures AllUntouched(c, s, inclusive) <==> Harmless(c, s, inclusive)
  {
    hide RowParity, Raw, Odd, RowsEven;
    if Harmless(c, s, inclusive) {
      forall j: nat, i: nat | j < c.vsize && i < c.hsize
        ensures Untouched(c, s, inclusive, j, i)
      {
        if RowsEven(c, s) {
          NeverOdd(c, s, j);
        } else if j > 0 {
          RowsAlike(c, s, j, i);
        } else {
          assert !Odd(c, s, 0) by { OddFirst(c, s); }
        }
      }
    } else {
      var j := OddSomewhere(c, s);
      var i: nat :| i < c.hsize && !(inclusive && Raw(c, s, 1, i) == ONES);
      RowsAlike(c, s, j, i);
      assert !Untouched(c, s, inclusive, j, i);
    }
  }

  // ----- words that each have a cell of their own

  lemma {:induction false} LastInside(c: Config, s: Data, x: nat, p: nat, q: nat)
    requires c.Valid()
    requires (p < c.vsize && q <= c.hsize) || (p == c.vsize && q == 0)
    ensures match LastTo(c, s, x, p, q) case Nobody => true case Word(j, i) => j < c.vsize && i < c.hsize
    decreases p, q
  {
    hide Cell;
    if q > 0 {
      LastInside(c, s, x, p, q - 1);
    } else if p > 0 {
      LastInside(c, s, x, p - 1, c.hsize);
    }
  }

  lemma CellsAreWords(c: Config, s: Data, inclusive: bool)
    requires c.Valid()
    ensures AllUntouched(c, s, inclusive) ==> forall x: nat :: LastUntouched(c, s, inclusive, x)
    ensures Separate(c, s) && (forall x: nat :: x < |s.mem| ==> LastUntouched(c, s, inclusive, x))
        ==> AllUntouched(c, s, inclusive)
  {
    hide Untouched, LastTo, Cell;
    if AllUntouched(c, s, inclusive) {
      forall x: nat
        ensures LastUntouched(c, s, inclusive, x)
      {
        LastInside(c, s, x, c.vsize, 0);
      }
    }
    if Separate(c, s) && forall x: nat :: x < |s.mem| ==> LastUntouched(c, s, inclusive, x) {
      forall j: nat, i: nat | j < c.vsize && i < c.hsize
        ensures Untouched(c, s, inclusive, j, i)
      {
        LastOfSeparate(c, s, j, i, c.vsize, 0);
        assert LastUntouched(c, s, inclusive, Cell(c, s, j, i));
      }
    }
  }

  // ----- the two forms

  /** Words that are all the same make blitzero the same. */
  lemma SameZero(c: Config, s: Data, inclusive: bool)
    requires c.Valid() && Serial(c, inclusive) && AllUntouched(c, s, inclusive)
    ensures AllZero(c, s, true) <==> AllZero(c, s, false)
  {
    hide Serial, Untouched, DWord;
    forall j: nat, i: nat | j < c.vsize && i < c.hsize
      ensures DWord(c, s, true, j, i) == DWord(c, s, false, j, i)
    {
      SameWords(c, s, inclusive, j, i);
    }
  }

  /** The loops with the carry reset and running on. */
  lemma RunningCarryIsHarmless(c: Config, s: Data, inclusive: bool)
    requires c.Valid() && OnlyD(c) && Serial(c, inclusive) && Pointers(s)
    ensures var f, g := W.Blit(c, FastStart(c, s), true), W.Blit(c, FastStart(c, s), false);
            && f.src == g.src && f.alu.preva == g.alu.preva
            && (f.alu.zero == g.alu.zero <==> (AllZero(c, s, true) <==> AllZero(c, s, false)))
            && (Harmless(c, s, inclusive) ==> f.mem == g.mem && f.alu.zero == g.alu.zero)
            && (Separate(c, s) && f.mem == g.mem ==> Harmless(c, s, inclusive))
  {
    hide Serial, FastStart, W.Blit, Writes, LastUntouched, Zeroes, Separate, AllUntouched, Harmless, AllZero;
    BlitsAre(c, s, inclusive);
    BlitZero(c, s, true);
    BlitZero(c, s, false);
    MemoryAgrees(c, s, inclusive);
    HarmlessIs(c, s, inclusive);
    CellsAreWords(c, s, inclusive);
    if AllUntouched(c, s, inclusive) {
      SameZero(c, s, inclusive);
    }
  }

  lemma ConfigureIsSerial(r: Registers)
    requires r.Valid()
    ensures Serial(Configure(r), r.Inclusive()) && Configure(r).Valid() && Bitwise(Configure(r).path)
  {
    hide Fill.Fill, Fill.FillWord;
    PathIsBitwise(r);
    var c := Configure(r);
    forall w: Word, k: bool
      ensures c.path.fill(w, k) == Fill.Fill(w, r.Inclusive(), k)
    {
      Fill.FillWordFills(r.table, w, r.Inclusive(), k);
    }
  }

  lemma ModuloOf(r: Registers)
    requires |r.table| == 1024
    ensures Configure(r).dmod == r.dmod
  {
  }

  /** The last word to every fitted cell is untouched by the running carry. */
  ghost predicate LastOnesUntouched(c: Config, s: Data, inclusive: bool)
    requires c.Valid()
  {
    forall x: nat :: x < |s.mem| ==> LastUntouched(c, s, inclusive, x)
  }

  /** For every sequence of grants, the cycle-exact blit with D alone, as the
      registers set it up, against the immediate one, all pointers clear.
      Wherever the words go: the memories agree exactly when the last word to
      every cell is untouched, and all of the result exactly when moreover both
      carries leave some word that is not zero, or neither does.  In closed
      form, the carry is harmless; where the words have cells of their own,
      nothing else will do. */
  lemma DAloneAgrees(r: Registers, d: Data, copper: bool, stale: bool, gs: seq<Grant>)
    requires r.Valid() && OnlyD(Configure(r)) && Pointers(d) && Clear(Configure(r), d.dpt, r.dmod)
    ensures var c := Configure(r); var t := Run(c, Start(c, d, copper, stale), gs); var f := F.Blit(c, FastStart(c, d));
            t.done ==>
              && (t.d.mem == f.mem <==> LastOnesUntouched(c, d, r.Inclusive()))
              && (SameResult(c, d, t.d, f)
                  <==> LastOnesUntouched(c, d, r.Inclusive()) && (AllZero(c, d, true) <==> AllZero(c, d, false)))
              && (Harmless(c, d, r.Inclusive()) ==> SameResult(c, d, t.d, f))
              && (Separate(c, d) ==> (t.d.mem == f.mem <==> Harmless(c, d, r.Inclusive())))
  {
    hide Configure, Registers.Inclusive, Clear, Serial, Bitwise, FastStart, F.Blit, W.Blit, Run, Start, Harmless,
         Separate, LastUntouched, AllZero, Low, EndPointer;
    var c := Configure(r);
    assert c.dmod == r.dmod by { ModuloOf(r); }
    ConfigureIsSerial(r);
    ExactWithDAlone(c, d, copper, stale, gs);
    ImmediateIsWords(c, d);
    RunningCarryIsHarmless(c, d, r.Inclusive());
    MemoryAgrees(c, d, r.Inclusive());
  }
}
