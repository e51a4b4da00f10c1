/** A running pointer that comes to zero stays zero in the immediate form.
    Where words do not share cells, that always shows: for some memory and data
    registers the two loops end differently. */
module BlitStuck {
  import opened ChipMemory
  import opened Bits
  import opened BlitConfig
  import F = BlitFast
  import W = BlitWords
  import opened BlitExact
  import opened BlitImmediate
  import opened BlitRefine
  import opened BlitTheorem
  import opened BlitChannels

  // ----- pointers

  /** A position at which the immediate form tests the pointer. */
  predicate Tested(c: Config, j: nat, i: nat) {
    j < c.vsize && i <= c.hsize && (i < c.hsize || j + 1 < c.vsize)
  }

  /** The pointer was zero at a test up to the word in row `j`, column `i`. */
  ghost predicate ZeroUpTo(c: Config, p: nat, mod: int, j: nat, i: nat) {
    exists k: nat, h: nat :: Tested(c, k, h) && (k < j || (k == j && h <= i)) && At(c, p, mod, k, h) == 0
  }

  /** The immediate form's running pointer before the word at `at`: where it
      should be, until it comes to zero. */
  ghost predicate Runs(c: Config, used: bool, p: nat, mod: int, at: Counter, f: nat) {
    at.v < c.vsize ==>
      && (f == 0 || (used && f == At(c, p, mod, at.v, at.h)))
      && (ZeroUpTo(c, p, mod, at.v, at.h) ==> f == 0)
  }

  lemma RunsNext(c: Config, used: bool, p: nat, mod: int, at: Counter, f: nat)
    requires c.Valid() && at.v < c.vsize && at.h < c.hsize && Runs(c, used, p, mod, at, f)
    ensures var g := if f == 0 then f else Wrap(f + c.Stride());
            Runs(c, used, p, mod, NextAt(c, at), if at.h + 1 == c.hsize then F.AddMod(c, g, mod) else g)
  {
    hide At, Wrap;
    NextPointer(c, p, mod, at);
    var n := NextAt(c, at);
    var g := if f == 0 then f else Wrap(f + c.Stride());
    if n.v < c.vsize && ZeroUpTo(c, p, mod, n.v, n.h) && !ZeroUpTo(c, p, mod, at.v, at.h) && f != 0 {
      var k: nat, h: nat :| Tested(c, k, h) && (k < n.v || (k == n.v && h <= n.h)) && At(c, p, mod, k, h) == 0;
      assert !(k < at.v || (k == at.v && h <= at.h));
      if at.h + 1 < c.hsize {
        assert k == at.v && h == at.h + 1;
      } else {
        assert (k == at.v && h == c.hsize) || (k == n.v && h == 0);
      }
    }
  }

  /** If the channel is not clear, the immediate form's pointer is zero before
      the last word. */
  lemma StuckAtLast(c: Config, used: bool, p: nat, mod: int, f: nat)
    requires c.Valid() && !Clear(c, p, mod) && Runs(c, used, p, mod, Counter(c.hsize - 1, c.vsize - 1), f)
    ensures f == 0
  {
    hide At;
    var j: nat, i: nat :| Tested(c, j, i) && At(c, p, mod, j, i) == 0;
  }

  // ----- channels and cells

  /** The running pointer of any channel. */
  function Running(f: F.Fast, ch: Channel): nat { if ch == D then f.dst.pd else PointerOf(f.src, ch) }

  /** The words of a channel have fitted cells of their own. */
  ghost predicate OwnCells(c: Config, d: Data, ch: Channel)
    requires c.span > 0
  {
    && (forall j: nat, i: nat :: j < c.vsize && i < c.hsize ==> Spot(c, d, ch, j, i) < |d.mem|)
    && (forall j: nat, i: nat, p: nat, q: nat ::
          j < c.vsize && i < c.hsize && p < c.vsize && q < c.hsize && Spot(c, d, ch, j, i) == Spot(c, d, ch, p, q)
          ==> j == p && i == q)
  }

  /** No cell is both read by a channel and written. */
  ghost predicate NotWritten(c: Config, d: Data, ch: Channel)
    requires c.span > 0
  {
    forall j: nat, i: nat, p: nat, q: nat ::
      j < c.vsize && i < c.hsize && p < c.vsize && q < c.hsize ==> Spot(c, d, ch, j, i) != Spot(c, d, D, p, q)
  }

  /** Fitted addresses that do not alias; sources may share cells. */
  ghost predicate Apart(c: Config, d: Data)
    requires c.span > 0
  {
    && (forall ch: Channel :: Used(c, ch) ==> OwnCells(c, d, ch))
    && (c.useD ==> forall ch: Channel :: Used(c, ch) && ch != D ==> NotWritten(c, d, ch))
  }

  lemma ClearIs(c: Config, d: Data)
    ensures AllClear(c, d) <==> forall ch: Channel :: Used(c, ch) ==> Clear(c, Base(d, ch), Mod(c, ch))
  {
    hide Clear;
    if forall ch: Channel :: Used(c, ch) ==> Clear(c, Base(d, ch), Mod(c, ch)) {
      assert Used(c, A) == c.useA && Used(c, B) == c.useB && Used(c, C) == c.useC && Used(c, D) == c.useD;
    }
  }

  // ----- what the immediate form writes

  /** Cell `y` gets a word of the immediate form. */
  ghost predicate Hit(c: Config, d: Data, y: nat)
    requires c.span > 0
  {
    exists j: nat, i: nat :: j < c.vsize && i < c.hsize && !ZeroUpTo(c, d.dpt, c.dmod, j, i) && Spot(c, d, D, j, i) == y
  }

  /** The D side of the immediate form before the word at `at`. */
  ghost predicate Writing(c: Config, d: Data, at: Counter, f: F.Fast)
    requires c.span > 0
  {
    && |f.mem| == |d.mem|
    && Runs(c, c.useD, d.dpt, c.dmod, at, f.dst.pd)
    && (f.dst.pending ==> c.useD && Hit(c, d, (f.dst.dstp % c.span) / 2))
    && forall y: nat :: y < |d.mem| && !(c.useD && Hit(c, d, y)) ==> f.mem[y] == d.mem[y]
  }

  lemma AimHits(c: Config, d: Data, at: Counter, pd: nat)
    requires c.Valid() && at.v < c.vsize && at.h < c.hsize && Runs(c, c.useD, d.dpt, c.dmod, at, pd) && pd != 0
    ensures c.useD && Hit(c, d, (pd % c.span) / 2)
  {
    hide ZeroUpTo, At;
    assert Spot(c, d, D, at.v, at.h) == (pd % c.span) / 2;
  }

  /** The D side after one trip. */
  lemma OutputNext(c: Config, f: F.Fast, i: nat)
    requires c.Valid()
    ensures var t := F.Next(c, f, i);
            var g := if f.dst.pd == 0 then f.dst.pd else Wrap(f.dst.pd + c.Stride());
            && t.mem == F.Flush(c, f.mem, f.dst)
            && t.dst.pd == (if i + 1 == c.hsize then F.AddMod(c, g, c.dmod) else g)
            && t.dst.pending == (f.dst.pending || f.dst.pd != 0)
            && t.dst.dstp == if f.dst.pd == 0 then f.dst.dstp else f.dst.pd
  {
    hide Wrap, Combine, F.FetchAll, F.Flush;
  }

  lemma WritingNext(c: Config, d: Data, at: Counter, f: F.Fast)
    requires c.Valid() && at.v < c.vsize && at.h < c.hsize && Writing(c, d, at, f)
    ensures Writing(c, d, NextAt(c, at), F.Next(c, f, at.h))
  {
    hide ZeroUpTo, Hit, At, Wrap, F.Next, Runs, F.AddMod;
    RunsNext(c, c.useD, d.dpt, c.dmod, at, f.dst.pd);
    OutputNext(c, f, at.h);
    if f.dst.pd != 0 {
      AimHits(c, d, at, f.dst.pd);
    }
  }

  // ----- a source that gets stuck

  /** Every register zero, and every cell but `x`. */
  function Probe(d: Data, x: nat): (e: Data)
    ensures |e.mem| == |d.mem|
  {
    d.(mem := seq(|d.mem|, i => if i == x then ONES else ZERO),
       src := d.src.(adat := ZERO, bdat := ZERO, cdat := ZERO, bhold := ZERO))
  }

  /** The barrel shifter keeps zeros, and does not lose a word of ones. */
  ghost predicate Shifts(c: Config) {
    Low(c.path.shiftB(ZERO, ZERO)) == ZERO && forall p: Word :: Low(c.path.shiftB(p, ONES)) != ZERO
  }

  /** What is seen of a source in the registers. */
  function Shown(f: F.Sources, ch: Channel): Word {
    match ch case A => f.adat case B => Low(f.bhold) case C => f.cdat case D => ZERO
  }

  /** Only zeros have come in from the channel. */
  predicate Quiet(f: F.Sources, ch: Channel) {
    Shown(f, ch) == ZERO && (ch == B ==> f.prevb == ZERO)
  }

  /** The channel `ch` in the immediate form's run on `Probe(d, x)`. */
  ghost predicate Silent(c: Config, e: Data, ch: Channel, at: Counter, f: F.Fast)
    requires c.span > 0
  {
    Writing(c, e, at, f) && Runs(c, Used(c, ch), Base(e, ch), Mod(c, ch), at, Running(f, ch)) && Quiet(f.src, ch)
  }

  lemma NotHit(c: Config, d: Data, e: Data, ch: Channel, at: Counter)
    requires c.Valid() && at.v < c.vsize && at.h < c.hsize && NotWritten(c, d, ch) && e.dpt == d.dpt
    ensures !Hit(c, e, Spot(c, d, ch, at.v, at.h))
  {
    hide ZeroUpTo, At;
    forall j: nat, i: nat | j < c.vsize && i < c.hsize
      ensures Spot(c, e, D, j, i) != Spot(c, d, ch, at.v, at.h)
    {
      assert Spot(c, e, D, j, i) == Spot(c, d, D, j, i);
    }
  }

  lemma ReadsZero(c: Config, d: Data, ch: Channel, at: Counter, f: F.Fast)
    requires c.Valid() && at.v < c.vsize && at.h < c.hsize
    requires Apart(c, d) && Used(c, ch) && ch != D && !Clear(c, Base(d, ch), Mod(c, ch))
    requires Silent(c, Probe(d, Spot(c, d, ch, c.vsize - 1, c.hsize - 1)), ch, at, f) && Running(f, ch) != 0
    ensures Get(f.mem, c.span, Running(f, ch)) == ZERO
  {
    hide ZeroUpTo, At;
    var x := Spot(c, d, ch, c.vsize - 1, c.hsize - 1);
    var e := Probe(d, x);
    if at == Counter(c.hsize - 1, c.vsize - 1) {
      StuckAtLast(c, true, Base(d, ch), Mod(c, ch), Running(f, ch));
    }
    var y := Spot(c, d, ch, at.v, at.h);
    assert y == (Running(f, ch) % c.span) / 2;
    assert y != x && y < |d.mem|;
    assert !(c.useD && Hit(c, e, y)) by {
      if c.useD {
        NotHit(c, d, e, ch, at);
      }
    }
  }

  /** A word that comes in from the channel. */
  ghost predicate TakesWord(c: Config, w: Word, ch: Channel, s: F.Sources, t: F.Sources) {
    Shown(t, ch) == (if ch == B then Low(c.path.shiftB(s.prevb, w)) else w) && (ch == B ==> t.prevb == w)
  }

  /** A word that comes in, or none from a pointer of zero. */
  ghost predicate TakesIn(c: Config, mem: seq<Word>, ch: Channel, p: nat, s: F.Sources, t: F.Sources)
    requires c.span > 0
  {
    if p == 0 then Shown(t, ch) == Shown(s, ch) && (ch == B ==> t.prevb == s.prevb)
    else TakesWord(c, Get(mem, c.span, p), ch, s, t)
  }

  /** The fetches of the immediate form, one channel at a time. */
  lemma FetchTakesIn(c: Config, mem: seq<Word>, s: F.Sources, ch: Channel)
    requires c.Valid() && ch != D
    ensures var t := F.FetchAll(c, mem, s);
            var p := PointerOf(s, ch);
            TakesIn(c, mem, ch, p, s, t) && PointerOf(t, ch) == if p == 0 then p else Wrap(p + c.Stride())
  {
    hide Wrap, Get, Low;
    match ch
    case A =>
    case B =>
    case C =>
  }

  /** The source side after one trip. */
  lemma SourcesNext(c: Config, f: F.Fast, i: nat, ch: Channel)
    requires c.Valid() && ch != D
    ensures var t := F.Next(c, f, i);
            var p := Running(f, ch);
            var g := if p == 0 then p else Wrap(p + c.Stride());
            && Running(t, ch) == (if i + 1 == c.hsize then F.AddMod(c, g, Mod(c, ch)) else g)
            && TakesIn(c, f.mem, ch, p, f.src, t.src)
  {
    hide Wrap, Combine, F.Flush, F.Aim, F.AddMod, Get, Low, F.FetchAll;
    FetchTakesIn(c, f.mem, f.src, ch);
  }

  lemma SilentNext(c: Config, d: Data, ch: Channel, at: Counter, f: F.Fast)
    requires c.Valid() && at.v < c.vsize && at.h < c.hsize && Shifts(c)
    requires Apart(c, d) && Used(c, ch) && ch != D && !Clear(c, Base(d, ch), Mod(c, ch))
    requires Silent(c, Probe(d, Spot(c, d, ch, c.vsize - 1, c.hsize - 1)), ch, at, f)
    ensures Silent(c, Probe(d, Spot(c, d, ch, c.vsize - 1, c.hsize - 1)), ch, NextAt(c, at), F.Next(c, f, at.h))
  {
    hide ZeroUpTo, At, Wrap, F.Next, Runs, F.AddMod, Writing, Clear, Apart, Low, Get;
    var e := Probe(d, Spot(c, d, ch, c.vsize - 1, c.hsize - 1));
    WritingNext(c, e, at, f);
    SourcesNext(c, f, at.h, ch);
    RunsNext(c, true, Base(d, ch), Mod(c, ch), at, Running(f, ch));
    if Running(f, ch) != 0 {
      ReadsZero(c, d, ch, at, f);
    }
  }

  lemma {:induction false} SilentWords(c: Config, d: Data, ch: Channel, at: Counter, f: F.Fast, n: nat)
    requires c.Valid() && Shifts(c)
    requires Apart(c, d) && Used(c, ch) && ch != D && !Clear(c, Base(d, ch), Mod(c, ch))
    requires Silent(c, Probe(d, Spot(c, d, ch, c.vsize - 1, c.hsize - 1)), ch, at, f)
    requires at.h < c.hsize && at.v * c.hsize + at.h + n == WordCount(c)
    ensures Quiet(F.Words(c, f, at.h, n).src, ch)
    decreases n
  {
    hide Writing, Runs, Apart, Clear, Shifts, F.Next, Spot, Quiet;
    Position(c, at, at.v * c.hsize + at.h);
    if n > 0 {
      SilentNext(c, d, ch, at, f);
      SilentWords(c, d, ch, NextAt(c, at), F.Next(c, f, at.h), n - 1);
    }
  }

  lemma RunsFirst(c: Config, used: bool, p: nat, mod: int)
    requires c.Valid() && p < 0x1_0000_0000
    ensures Runs(c, used, p, mod, Counter(0, 0), if used then p else 0)
  {
    assert At(c, p, mod, 0, 0) == p by { assert 0 * (c.hsize * c.Stride() + c.Signed(mod)) == 0; }
  }

  lemma SilentFirst(c: Config, d: Data, ch: Channel, x: nat)
    requires c.Valid() && Pointers(d) && ch != D && Used(c, ch)
    ensures Silent(c, Probe(d, x), ch, Counter(0, 0), FastStart(c, Probe(d, x)))
  {
    hide Runs, Hit;
    RunsFirst(c, c.useD, d.dpt, c.dmod);
    RunsFirst(c, Used(c, ch), Base(d, ch), Mod(c, ch));
  }

  /** In the immediate form nothing is seen of the one word of ones. */
  lemma ImmediateSilent(c: Config, d: Data, ch: Channel)
    requires c.Valid() && Shifts(c) && Pointers(d)
    requires Apart(c, d) && Used(c, ch) && ch != D && !Clear(c, Base(d, ch), Mod(c, ch))
    ensures var e := Probe(d, Spot(c, d, ch, c.vsize - 1, c.hsize - 1));
            Shown(F.Blit(c, FastStart(c, e)).src, ch) == ZERO
  {
    hide F.Words, Apart, Clear, Silent, Shifts, FastStart, Spot, Shown;
    var x := Spot(c, d, ch, c.vsize - 1, c.hsize - 1);
    SilentFirst(c, d, ch, x);
    SilentWords(c, d, ch, Counter(0, 0), FastStart(c, Probe(d, x)), WordCount(c));
  }

  // ----- the word loop

  /** Cell `y` gets a word of the word loop. */
  ghost predicate Struck(c: Config, d: Data, y: nat)
    requires c.span > 0
  {
    exists j: nat, i: nat :: j < c.vsize && i < c.hsize && Spot(c, d, D, j, i) == y
  }

  /** The word loop before the word at `at`: every pointer where it should be,
      and only struck cells changed. */
  ghost predicate OnCourse(c: Config, d: Data, at: Counter, w: F.Fast)
    requires c.span > 0
  {
    && |w.mem| == |d.mem|
    && (at.v < c.vsize ==>
          forall ch: Channel :: Used(c, ch) ==> Running(w, ch) == At(c, Base(d, ch), Mod(c, ch), at.v, at.h))
    && (w.dst.pending ==> c.useD && Struck(c, d, (w.dst.dstp % c.span) / 2))
    && forall y: nat :: y < |d.mem| && !(c.useD && Struck(c, d, y)) ==> w.mem[y] == d.mem[y]
  }

  lemma WordsTakeIn(c: Config, mem: seq<Word>, s: F.Sources, ch: Channel)
    requires c.Valid() && ch != D && Used(c, ch)
    ensures var t := W.FetchAll(c, mem, s);
            && TakesWord(c, Get(mem, c.span, PointerOf(s, ch)), ch, s, t)
            && PointerOf(t, ch) == Wrap(PointerOf(s, ch) + c.Stride())
  {
    hide Wrap, Get, Low;
    match ch
    case A =>
    case B =>
    case C =>
  }

  /** A used channel over one trip of the word loop. */
  lemma TripOf(c: Config, w: F.Fast, i: nat, reset: bool, ch: Channel)
    requires c.Valid() && Used(c, ch)
    ensures var t := W.Next(c, w, i, reset);
            var g := Wrap(Running(w, ch) + c.Stride());
            && Running(t, ch) == (if i + 1 == c.hsize then Wrap(g + c.Signed(Mod(c, ch))) else g)
            && (ch != D ==> TakesWord(c, Get(w.mem, c.span, Running(w, ch)), ch, w.src, t.src))
  {
    hide Wrap, Combine, F.Flush, Get, Low, W.FetchAll;
    if ch != D {
      WordsTakeIn(c, w.mem, w.src, ch);
    }
  }

  lemma TripWrites(c: Config, w: F.Fast, i: nat, reset: bool)
    requires c.Valid()
    ensures var t := W.Next(c, w, i, reset);
            && t.mem == F.Flush(c, w.mem, w.dst)
            && t.dst.pending == (w.dst.pending || c.useD) && t.dst.dstp == if c.useD then w.dst.pd else w.dst.dstp
  {
    hide Wrap, Combine, F.Flush, W.FetchAll;
  }

  lemma SpotIs(c: Config, d: Data, at: Counter)
    requires c.span > 0
    ensures Spot(c, d, D, at.v, at.h) == (At(c, Base(d, D), Mod(c, D), at.v, at.h) % c.span) / 2
  {
  }

  lemma CourseNext(c: Config, d: Data, at: Counter, w: F.Fast, reset: bool)
    requires c.Valid() && at.v < c.vsize && at.h < c.hsize && OnCourse(c, d, at, w)
    ensures OnCourse(c, d, NextAt(c, at), W.Next(c, w, at.h, reset))
  {
    hide At, Wrap, W.Next, Mod, Base;
    forall ch: Channel | Used(c, ch)
      ensures var n := NextAt(c, at); var p := At(c, Base(d, ch), Mod(c, ch), n.v, n.h);
              n.v < c.vsize ==> Running(W.Next(c, w, at.h, reset), ch) == p
    {
      TripOf(c, w, at.h, reset, ch);
      NextPointer(c, Base(d, ch), Mod(c, ch), at);
    }
    TripWrites(c, w, at.h, reset);
    if c.useD {
      assert Used(c, D) && Running(w, D) == w.dst.pd;
      assert Spot(c, d, D, at.v, at.h) == (w.dst.pd % c.span) / 2 by { SpotIs(c, d, at); }
    }
  }

  lemma CourseFirst(c: Config, d: Data)
    requires c.Valid() && Pointers(d)
    ensures OnCourse(c, d, Counter(0, 0), FastStart(c, d))
  {
    hide Struck;
    assert forall p: nat, mod: int :: p < 0x1_0000_0000 ==> At(c, p, mod, 0, 0) == p by {
      forall p: nat, mod: int | p < 0x1_0000_0000
        ensures At(c, p, mod, 0, 0) == p
      {
        assert 0 * (c.hsize * c.Stride() + c.Signed(mod)) == 0;
      }
    }
  }

  /** The state before the last word. */
  lemma {:induction false} LastTrip(c: Config, d: Data, at: Counter, w: F.Fast, n: nat, reset: bool) returns (g: F.Fast)
    requires c.Valid() && at.v < c.vsize && at.h < c.hsize && OnCourse(c, d, at, w)
    requires at.v * c.hsize + at.h + n == WordCount(c)
    ensures OnCourse(c, d, Counter(c.hsize - 1, c.vsize - 1), g)
    ensures W.Words(c, w, at.h, n, reset) == W.Next(c, g, c.hsize - 1, reset)
    decreases n
  {
    hide OnCourse, W.Next;
    Position(c, at, at.v * c.hsize + at.h);
    var t := W.Next(c, w, at.h, reset);
    CourseNext(c, d, at, w, reset);
    var to := NextAt(c, at);
    Position(c, to, to.v * c.hsize + to.h);
    assert W.Words(c, w, at.h, n, reset) == W.Words(c, t, to.h, n - 1, reset);
    if to.v < c.vsize {
      g := LastTrip(c, d, to, t, n - 1, reset);
    } else {
      g := w;
    }
  }

  lemma NotStruck(c: Config, d: Data, e: Data, ch: Channel, at: Counter)
    requires c.Valid() && at.v < c.vsize && at.h < c.hsize && NotWritten(c, d, ch) && e.dpt == d.dpt
    ensures !Struck(c, e, Spot(c, d, ch, at.v, at.h))
  {
    hide At;
    forall j: nat, i: nat | j < c.vsize && i < c.hsize
      ensures Spot(c, e, D, j, i) != Spot(c, d, ch, at.v, at.h)
    {
      assert Spot(c, e, D, j, i) == Spot(c, d, D, j, i);
    }
  }

  /** In the word loop the word of ones is seen. */
  lemma WordsShow(c: Config, d: Data, ch: Channel, reset: bool)
    requires c.Valid() && Shifts(c) && Pointers(d) && Apart(c, d) && Used(c, ch) && ch != D
    ensures var e := Probe(d, Spot(c, d, ch, c.vsize - 1, c.hsize - 1));
            Shown(W.Blit(c, FastStart(c, e), reset).src, ch) != ZERO
  {
    hide W.Words, W.Next, FastStart, At, Low;
    var x := Spot(c, d, ch, c.vsize - 1, c.hsize - 1);
    var e := Probe(d, x);
    CourseFirst(c, e);
    var g := LastTrip(c, e, Counter(0, 0), FastStart(c, e), WordCount(c), reset);
    TripOf(c, g, c.hsize - 1, reset, ch);
    assert !(c.useD && Struck(c, e, x)) by {
      if c.useD {
        NotStruck(c, d, e, ch, Counter(c.hsize - 1, c.vsize - 1));
      }
    }
    assert Get(g.mem, c.span, Running(g, ch)) == g.mem[x] == e.mem[x] == ONES;
    assert ONES[0] != ZERO[0];
  }

  // ----- a D pointer that gets stuck

  lemma {:induction false} WritingWords(c: Config, d: Data, at: Counter, f: F.Fast, n: nat)
    requires c.Valid() && Writing(c, d, at, f)
    requires at.h < c.hsize && at.v * c.hsize + at.h + n == WordCount(c)
    ensures Writing(c, d, Counter(0, c.vsize), F.Words(c, f, at.h, n))
    decreases n
  {
    hide Writing, F.Next;
    Position(c, at, at.v * c.hsize + at.h);
    if n == 0 {
      SamePosition(at.v, at.h, c.vsize, 0, c.hsize);
    } else {
      WritingNext(c, d, at, f);
      WritingWords(c, d, NextAt(c, at), F.Next(c, f, at.h), n - 1);
    }
  }

  lemma ZeroAtLast(c: Config, p: nat, mod: int)
    requires c.Valid() && !Clear(c, p, mod)
    ensures ZeroUpTo(c, p, mod, c.vsize - 1, c.hsize - 1)
  {
    hide At;
    var j: nat, i: nat :| Tested(c, j, i) && At(c, p, mod, j, i) == 0;
  }

  /** The immediate form never writes the last cell. */
  lemma ImmediateMisses(c: Config, d: Data)
    requires c.Valid() && c.useD && Pointers(d) && OwnCells(c, d, D) && !Clear(c, d.dpt, c.dmod)
    ensures var x := Spot(c, d, D, c.vsize - 1, c.hsize - 1);
            var m := F.Blit(c, FastStart(c, d)).mem;
            x < |m| == |d.mem| && m[x] == d.mem[x]
  {
    hide F.Words, At, ZeroUpTo, Runs;
    var x := Spot(c, d, D, c.vsize - 1, c.hsize - 1);
    RunsFirst(c, c.useD, d.dpt, c.dmod);
    WritingWords(c, d, Counter(0, 0), FastStart(c, d), WordCount(c));
    if Hit(c, d, x) {
      var j: nat, i: nat :| j < c.vsize && i < c.hsize && !ZeroUpTo(c, d.dpt, c.dmod, j, i) && Spot(c, d, D, j, i) == x;
      assert j == c.vsize - 1 && i == c.hsize - 1;
      ZeroAtLast(c, d.dpt, c.dmod);
    }
  }

  /** The memories differ at most in cell `x`. */
  ghost predicate SameElsewhere(x: nat, m: seq<Word>, n: seq<Word>) {
    |m| == |n| && forall y: nat :: y < |m| && y != x ==> m[y] == n[y]
  }

  /** Two runs of the word loop whose states differ at most in cell `x`. */
  ghost predicate Twins(x: nat, v: F.Fast, w: F.Fast) {
    v.src == w.src && v.alu == w.alu && v.dst == w.dst && SameElsewhere(x, v.mem, w.mem)
  }

  lemma FetchDepends(c: Config, m: seq<Word>, n: seq<Word>, s: F.Sources)
    requires c.Valid()
    requires c.useA ==> Get(m, c.span, s.pa) == Get(n, c.span, s.pa)
    requires c.useB ==> Get(m, c.span, s.pb) == Get(n, c.span, s.pb)
    requires c.useC ==> Get(m, c.span, s.pc) == Get(n, c.span, s.pc)
    ensures W.FetchAll(c, m, s) == W.FetchAll(c, n, s)
  {
    hide Get, Wrap;
  }

  lemma FlushElsewhere(c: Config, x: nat, m: seq<Word>, n: seq<Word>, o: F.Output)
    requires c.Valid() && SameElsewhere(x, m, n)
    ensures SameElsewhere(x, F.Flush(c, m, o), F.Flush(c, n, o))
  {
  }

  /** No source is read from cell `x`. */
  ghost predicate Unread(c: Config, d: Data, x: nat)
    requires c.span > 0
  {
    forall ch: Channel, j: nat, i: nat :: Used(c, ch) && ch != D && j < c.vsize && i < c.hsize
      ==> Spot(c, d, ch, j, i) != x
  }

  lemma SameReads(c: Config, d: Data, at: Counter, x: nat, v: F.Fast, n: seq<Word>, ch: Channel)
    requires c.Valid() && at.v < c.vsize && at.h < c.hsize && OnCourse(c, d, at, v) && SameElsewhere(x, v.mem, n)
    requires Unread(c, d, x) && Used(c, ch) && ch != D
    ensures Get(v.mem, c.span, PointerOf(v.src, ch)) == Get(n, c.span, PointerOf(v.src, ch))
  {
    hide At;
    assert Spot(c, d, ch, at.v, at.h) == (Running(v, ch) % c.span) / 2;
  }

  lemma TwinsNext(c: Config, d: Data, at: Counter, x: nat, v: F.Fast, w: F.Fast, reset: bool)
    requires c.Valid() && at.v < c.vsize && at.h < c.hsize && OnCourse(c, d, at, v) && Twins(x, v, w)
    requires Unread(c, d, x)
    ensures Twins(x, W.Next(c, v, at.h, reset), W.Next(c, w, at.h, reset))
  {
    hide OnCourse, Wrap, Combine, W.FetchAll, W.SourcesEnd, W.Aim, SameElsewhere, F.Flush, Unread, Get;
    if c.useA {
      SameReads(c, d, at, x, v, w.mem, A);
    }
    if c.useB {
      SameReads(c, d, at, x, v, w.mem, B);
    }
    if c.useC {
      SameReads(c, d, at, x, v, w.mem, C);
    }
    FetchDepends(c, v.mem, w.mem, v.src);
    FlushElsewhere(c, x, v.mem, w.mem, v.dst);
  }

  /** The word that goes to cell `x` last does not depend on what was there. */
  lemma {:induction false} TwinsEnd(c: Config, d: Data, at: Counter, x: nat, v: F.Fast, w: F.Fast, n: nat, reset: bool)
    requires c.Valid() && at.h < c.hsize && at.v * c.hsize + at.h + n == WordCount(c)
    requires OnCourse(c, d, at, v) && Twins(x, v, w) && Unread(c, d, x)
    ensures Twins(x, W.Words(c, v, at.h, n, reset), W.Words(c, w, at.h, n, reset))
    decreases n
  {
    hide OnCourse, Twins, Unread, W.Next;
    Position(c, at, at.v * c.hsize + at.h);
    if n > 0 {
      CourseNext(c, d, at, v, reset);
      TwinsNext(c, d, at, x, v, w, reset);
      TwinsEnd(c, d, NextAt(c, at), x, W.Next(c, v, at.h, reset), W.Next(c, w, at.h, reset), n - 1, reset);
    }
  }

  lemma StartTwins(c: Config, d: Data, m: seq<Word>, x: nat)
    requires SameElsewhere(x, d.mem, m)
    ensures Twins(x, FastStart(c, d), FastStart(c, d.(mem := m)))
  {
  }

  lemma LastUnread(c: Config, d: Data)
    requires c.Valid() && c.useD && Apart(c, d)
    ensures Unread(c, d, Spot(c, d, D, c.vsize - 1, c.hsize - 1))
  {
    hide Spot;
  }

  /** The word loop writes the last cell, whatever it held. */
  lemma WordsOverwrite(c: Config, d: Data, m: seq<Word>, reset: bool)
    requires c.Valid() && c.useD && Pointers(d) && Apart(c, d)
    requires SameElsewhere(Spot(c, d, D, c.vsize - 1, c.hsize - 1), d.mem, m)
    ensures var x := Spot(c, d, D, c.vsize - 1, c.hsize - 1);
            var v, w := W.Blit(c, FastStart(c, d), reset).mem, W.Blit(c, FastStart(c, d.(mem := m)), reset).mem;
            x < |v| == |w| == |d.mem| && v[x] == w[x]
  {
    hide W.Words, W.Next, FastStart, At, Wrap;
    var x := Spot(c, d, D, c.vsize - 1, c.hsize - 1);
    var f, h := FastStart(c, d), FastStart(c, d.(mem := m));
    assert Twins(x, f, h) by { StartTwins(c, d, m, x); }
    CourseFirst(c, d);
    assert Unread(c, d, x) by { LastUnread(c, d); }
    var v, w := W.Words(c, f, 0, WordCount(c), reset), W.Words(c, h, 0, WordCount(c), reset);
    TwinsEnd(c, d, Counter(0, 0), x, f, h, WordCount(c), reset);
    var g := LastTrip(c, d, Counter(0, 0), f, WordCount(c), reset);
    TripWrites(c, g, c.hsize - 1, reset);
    assert Used(c, D) && Running(g, D) == g.dst.pd;
    assert (v.dst.dstp % c.span) / 2 == x && v.dst.pending;
    assert |v.mem| == |d.mem|;
  }

  // ----- the converse

  /** The same pointers into as much memory. */
  ghost predicate SamePlaces(d: Data, e: Data) {
    |e.mem| == |d.mem| && e.src.apt == d.src.apt && e.src.bpt == d.src.bpt && e.src.cpt == d.src.cpt && e.dpt == d.dpt
  }

  /** What memory and data registers show of two loops. */
  ghost predicate LookAlike(f: F.Fast, w: F.Fast) {
    f.mem == w.mem && f.src.adat == w.src.adat && f.src.cdat == w.src.cdat && Low(f.src.bhold) == Low(w.src.bhold)
  }

  lemma ProbeApart(c: Config, d: Data, x: nat)
    requires c.Valid() && Apart(c, d)
    ensures Apart(c, Probe(d, x))
  {
    hide At;
    forall ch: Channel, j: nat, i: nat
      ensures Spot(c, Probe(d, x), ch, j, i) == Spot(c, d, ch, j, i)
    {
    }
  }

  /** A source that gets stuck. */
  lemma StuckSource(c: Config, d: Data, ch: Channel, reset: bool) returns (e: Data)
    requires c.Valid() && Shifts(c) && Pointers(d) && Apart(c, d)
    requires Used(c, ch) && ch != D && !Clear(c, Base(d, ch), Mod(c, ch))
    ensures SamePlaces(d, e) && !LookAlike(F.Blit(c, FastStart(c, e)), W.Blit(c, FastStart(c, e), reset))
  {
    hide Clear, F.Blit, W.Blit, FastStart, Shifts, Low, Spot, Apart;
    e := Probe(d, Spot(c, d, ch, c.vsize - 1, c.hsize - 1));
    ImmediateSilent(c, d, ch);
    WordsShow(c, d, ch, reset);
  }

  lemma Probes(d: Data, x: nat)
    requires x < |d.mem|
    ensures var e, z := Probe(d, x), Probe(d, |d.mem|);
            z == e.(mem := z.mem) && SameElsewhere(x, e.mem, z.mem) && e.mem[x] != z.mem[x]
  {
    assert ONES[0] != ZERO[0];
  }

  lemma SpotStays(c: Config, d: Data, x: nat, j: nat, i: nat)
    requires c.span > 0
    ensures Spot(c, Probe(d, x), D, j, i) == Spot(c, d, D, j, i)
  {
    hide At;
  }

  lemma OwnD(c: Config, d: Data)
    requires c.Valid() && Apart(c, d) && c.useD
    ensures OwnCells(c, d, D)
  {
    hide Spot, OwnCells;
    assert Used(c, D);
  }

  lemma LastFitted(c: Config, d: Data)
    requires c.Valid() && Apart(c, d) && c.useD
    ensures Spot(c, d, D, c.vsize - 1, c.hsize - 1) < |d.mem|
  {
    hide Spot;
    OwnD(c, d);
  }

  lemma ProbePlaces(d: Data, x: nat)
    ensures SamePlaces(d, Probe(d, x))
  {
  }

  /** The destination gets stuck: what is left in the last cell would have to
      be the word that goes there. */
  lemma StuckD(c: Config, d: Data, reset: bool) returns (e: Data)
    requires c.Valid() && Pointers(d) && Apart(c, d) && c.useD && !Clear(c, d.dpt, c.dmod)
    ensures SamePlaces(d, e)
    ensures F.Blit(c, FastStart(c, e)).mem != W.Blit(c, FastStart(c, e), reset).mem
  {
    hide Clear, F.Blit, W.Blit, FastStart, Spot, Apart, OwnCells, SameElsewhere, Probe;
    var h, v := c.hsize - 1, c.vsize - 1;
    var x := Spot(c, d, D, v, h);
    assert x < |d.mem| by { LastFitted(c, d); }
    var z := Probe(d, |d.mem|);
    e := Probe(d, x);
    ProbePlaces(d, x);
    ProbePlaces(d, |d.mem|);
    Probes(d, x);
    ProbeApart(c, d, x);
    ProbeApart(c, d, |d.mem|);
    SpotStays(c, d, x, v, h);
    SpotStays(c, d, |d.mem|, v, h);
    WordsOverwrite(c, e, z.mem, reset);
    OwnD(c, e);
    OwnD(c, z);
    ImmediateMisses(c, e);
    ImmediateMisses(c, z);
    if F.Blit(c, FastStart(c, e)).mem == W.Blit(c, FastStart(c, e), reset).mem {
      e := z;
    }
  }

  /** If some pointer is not clear, then for some memory and data registers the
      immediate form ends differently from the word loop. */
  lemma StuckShows(c: Config, d: Data, reset: bool) returns (e: Data)
    requires c.Valid() && Shifts(c) && Pointers(d) && Apart(c, d) && !AllClear(c, d)
    ensures SamePlaces(d, e) && !LookAlike(F.Blit(c, FastStart(c, e)), W.Blit(c, FastStart(c, e), reset))
  {
    hide Clear, F.Blit, W.Blit, FastStart, Shifts, Low, Apart;
    ClearIs(c, d);
    var ch: Channel :| Used(c, ch) && !Clear(c, Base(d, ch), Mod(c, ch));
    if ch != D {
      e := StuckSource(c, d, ch, reset);
    } else {
      e := StuckD(c, d, reset);
    }
  }

  // ----- what a stuck D pointer does

  lemma StuckTrip(c: Config, f: F.Fast, i: nat)
    requires c.Valid() && f.dst.pd == 0
    ensures var t := F.Next(c, f, i); t.mem == F.Flush(c, f.mem, f.dst) && t.dst == f.dst.(ddat := t.dst.ddat)
  {
    hide F.FetchAll, Combine, F.Flush;
  }

  lemma PutTwice(m: seq<Word>, span: nat, a: nat, v: Word, w: Word)
    requires span > 0
    ensures Put(Put(m, span, a, v), span, a, w) == Put(m, span, a, w)
  {
  }

  /** From there on every word goes over the last address. */
  lemma {:induction false} StuckOverwrites(c: Config, f: F.Fast, i: nat, n: nat)
    requires c.Valid() && f.dst.pd == 0 && f.dst.pending
    ensures var t := F.Words(c, f, i, n);
            && t.dst == F.Output(t.dst.ddat, true, f.dst.dstp, 0)
            && F.Flush(c, t.mem, t.dst) == Put(f.mem, c.span, f.dst.dstp, t.dst.ddat)
    decreases n
  {
    hide F.Next, Wrap;
    if n > 0 {
      StuckTrip(c, f, i);
      StuckOverwrites(c, F.Next(c, f, i), F.Succ(c, i), n - 1);
      PutTwice(f.mem, c.span, f.dst.dstp, f.dst.ddat, F.Words(c, f, i, n).dst.ddat);
    }
  }

  /** A D pointer of zero to begin with: the immediate form writes nothing. */
  lemma {:induction false} NothingWritten(c: Config, f: F.Fast, i: nat, n: nat)
    requires c.Valid() && f.dst.pd == 0 && !f.dst.pending
    ensures var t := F.Words(c, f, i, n); F.Flush(c, t.mem, t.dst) == f.mem
    decreases n
  {
    hide F.Next;
    if n > 0 {
      StuckTrip(c, f, i);
      NothingWritten(c, F.Next(c, f, i), F.Succ(c, i), n - 1);
    }
  }
}
