/** The block blitter as the program text has it: registers, counters and chip
    memory updated in place, in the immediate and in the cycle-exact form. */
module Blitter {
  import opened ChipMemory
  import opened Bits
  import opened BlitConfig
  import opened BlitRegisters
  import opened BlitExact
  import opened BlitRefine
  import opened BlitTheorem
  import F = BlitFast
  import S = BlitSpecial

  lemma MaskTwice(w: Word, a: Word, b: Word)
    ensures Mask(w, Mask(a, b)) == Mask(Mask(w, a), b)
  {
    var x, y := Mask(w, Mask(a, b)), Mask(Mask(w, a), b);
    assert forall i :: 0 <= i < 16 ==> x[i] == y[i];
  }

  lemma MaskOnes(w: Word)
    ensures Mask(w, ONES) == w && Mask(ONES, w) == w
  {
    var x, y := Mask(w, ONES), Mask(ONES, w);
    assert forall i :: 0 <= i < 16 ==> x[i] == w[i] == y[i];
  }

  lemma RunUnfolds(c: Config, s: Exact, gs: seq<Grant>)
    requires c.Valid() && !s.done && gs != []
    ensures Run(c, s, gs) == Run(c, Step(c, s, gs[0]), gs[1..])
    ensures Step(c, s, gs[0]).done ==> Run(c, s, gs) == Step(c, s, gs[0])
  {
    hide Step;
  }

  /** One position of a line. */
  lemma LineUnfolds(c: Config, s: Exact, line: int -> Grant, lo: nat, hi: nat)
    requires c.Valid() && !s.done && lo < hi
    ensures var t := Step(c, s, line(lo));
            Run(c, s, Grants(line, lo, hi)) == if t.done then t else Run(c, t, Grants(line, lo + 1, hi))
  {
    hide Step, Run;
    var gs := Grants(line, lo, hi);
    assert gs[0] == line(lo) && gs[1..] == Grants(line, lo + 1, hi);
    RunUnfolds(c, s, gs);
  }

  lemma LineEnds(c: Config, s: Exact, line: int -> Grant, hi: nat)
    requires c.Valid()
    ensures Run(c, s, Grants(line, hi, hi)) == s
  {
    assert Grants(line, hi, hi) == [];
  }

  lemma ChannelBound(c: Config, cycle: int, final: bool)
    ensures ChannelState(c, cycle, final) <= 4
  {
    hide CountIf;
    DiagramShape(c, final);
  }

  class Blitter {
    const r: Registers
    const c: Config
    const chip: array<Word>
    /** blit_masktable: all ones between blits. */
    const masktable: array<Word>

    // The registers and counters, grouped as the data they belong to.
    var src: Sources
    var alu: Alu
    var pipe: Pipe
    var at: Counter
    var dpt: nat
    var dst: Counter

    var cycle: int
    var final: bool
    var done: bool
    var wait: bool
    var total: nat
    var missed: nat
    var nasty: nat
    var lastHpos: nat

    /** The part of the invariant that no method changes. */
    ghost predicate Ready() {
      r.Valid() && c == Configure(r) && c.hsize <= masktable.Length && chip != masktable
    }

    ghost predicate Valid()
      reads this, chip, masktable
    {
      && Ready()
      && forall i :: 0 <= i < masktable.Length ==> masktable[i] == ONES
    }

    constructor (r: Registers, chip: array<Word>, masktable: array<Word>,
                 src: Sources, alu: Alu, dpt: nat)
      requires r.Valid() && r.hsize <= masktable.Length && chip != masktable
      requires forall i :: 0 <= i < masktable.Length ==> masktable[i] == ONES
      ensures Valid() && this.r == r && this.chip == chip && this.masktable == masktable
      ensures this.src == src && this.alu == alu && this.dpt == dpt && done
    {
      this.r, c, this.chip, this.masktable := r, Configure(r), chip, masktable;
      this.src, this.alu, this.dpt := src, alu, dpt;
      pipe, at, dst := Pipe(ZERO, ZERO, false, false), Counter(0, 0), Counter(0, 0);
      cycle, final, done, wait, total, missed, nasty, lastHpos := 0, false, true, false, 0, 0, 0, 0;
    }

    /** The datapath as one value. */
    ghost function Path(): Data
      reads this, chip
    {
      Data(chip[..], src, alu, pipe, at, dpt, dst)
    }

    /** The whole cycle-exact machine as one value. */
    ghost function Machine(): Exact
      reads this, chip
    {
      Exact(Path(), cycle, final, done, wait, total, missed, nasty)
    }

    function Wget(a: nat): (w: Word)
      requires c.Valid()
      reads chip
      ensures w == Get(chip[..], c.span, a)
    {
      var i := (a % c.span) / 2;
      if i < chip.Length then chip[i] else ZERO
    }

    method Wput(a: nat, w: Word)
      requires c.Valid()
      modifies chip
      ensures chip[..] == Put(old(chip[..]), c.span, a, w)
    {
      var i := (a % c.span) / 2;
      if i < chip.Length {
        chip[i] := w;
      }
    }

    // ----- the immediate form

    /** The fetches of one word, in either direction. */
    method FastFetch(s0: F.Sources) returns (s: F.Sources)
      requires c.Valid()
      ensures s == F.FetchAll(c, chip[..], s0)
    {
      hide Get, Wrap;
      s := s0;
      if s.pa != 0 {
        s := s.(adat := Wget(s.pa), pa := Wrap(s.pa + c.Stride()));
      }
      if s.pb != 0 {
        var bdat := Wget(s.pb);
        s := s.(bdat := bdat, bhold := c.path.shiftB(s.prevb, bdat), prevb := bdat,
                pb := Wrap(s.pb + c.Stride()));
      }
      if s.pc != 0 {
        var cdat := Wget(s.pc);
        s := s.(cdat := cdat, bdat := if c.desc then cdat else s.bdat, pc := Wrap(s.pc + c.Stride()));
      }
    }

    /** The mask table entry `m` applies the masks of column `i`. */
    ghost predicate Masks(i: nat, m: Word) {
      forall w :: Mask(w, m) == c.path.mask(i, w)
    }

    /** One trip of the generic inner loop, in column `i`. */
    method FastWord(i: nat, s0: F.Sources, u0: Alu, o0: F.Output)
      returns (s: F.Sources, u: Alu, o: F.Output)
      requires c.Valid() && i < masktable.Length && chip != masktable
      requires Masks(i, masktable[i])
      modifies chip
      ensures F.Fast(chip[..], s, u, o) == F.OneWord(c, F.Fast(old(chip[..]), s0, u0, o0), i)
    {
      hide Mask, Put, Wrap, F.FetchAll;
      s := FastFetch(s0);
      var bltadat := Mask(s.adat, masktable[i]);
      var ahold := c.path.shiftA(u0.preva, bltadat);
      if o0.pending {
        Wput(o0.dstp, o0.ddat);
      }
      var ddat, carry := c.path.logic(ahold, s.bhold, s.cdat), u0.carry;
      if c.fillMode {
        var f := c.path.fill(ddat, carry);
        ddat, carry := f.0, f.1;
      }
      u := Alu(bltadat, carry, u0.zero && ddat == ZERO);
      o := o0.(ddat := ddat);
      if o.pd != 0 {
        o := o.(pending := true, dstp := o.pd, pd := Wrap(o.pd + c.Stride()));
      }
    }

    /** The mask table for this blit, and back to all ones. */
    method SetMasks()
      requires Valid() && c.Valid()
      modifies masktable
      ensures forall i :: 0 <= i < c.hsize ==> Masks(i, masktable[i])
      ensures forall i :: c.hsize <= i < masktable.Length || 0 < i < c.hsize - 1 ==> masktable[i] == ONES
    {
      hide Mask;
      masktable[0] := r.afwm;
      masktable[c.hsize - 1] := Mask(masktable[c.hsize - 1], r.alwm);
      forall i | 0 <= i < c.hsize
        ensures Masks(i, masktable[i])
      {
        forall w: Word
          ensures Mask(w, masktable[i]) == c.path.mask(i, w)
        {
          MaskOnes(w);
          MaskOnes(r.alwm);
          MaskOnes(Mask(w, r.afwm));
          MaskTwice(w, r.afwm, r.alwm);
          MaskTwice(w, ONES, r.alwm);
        }
      }
    }

    method ClearMasks()
      requires Ready() && c.Valid()
      requires forall i :: c.hsize <= i < masktable.Length || 0 < i < c.hsize - 1 ==> masktable[i] == ONES
      modifies masktable
      ensures forall i :: 0 <= i < masktable.Length ==> masktable[i] == ONES
    {
      masktable[0] := ONES;
      masktable[c.hsize - 1] := ONES;
    }

    lemma RowEndIs(f: F.Fast, s: F.Sources, o: F.Output)
      requires s == f.src.(pa := F.AddMod(c, f.src.pa, c.amod), pb := F.AddMod(c, f.src.pb, c.bmod),
                           pc := F.AddMod(c, f.src.pc, c.cmod))
      requires o == f.dst.(pd := F.AddMod(c, f.dst.pd, c.dmod))
      ensures f.(src := s, dst := o) == F.RowEnd(c, f)
    {
    }

    /** One row of the generic loop; `n` words are left before it. */
    method FastRow(s0: F.Sources, u0: Alu, o0: F.Output, n: nat)
      returns (s: F.Sources, u: Alu, o: F.Output)
      requires c.Valid() && c.hsize <= masktable.Length && chip != masktable && n >= c.hsize
      requires forall i :: 0 <= i < c.hsize ==> Masks(i, masktable[i])
      modifies chip
      ensures F.Words(c, F.Fast(chip[..], s, u, o), 0, n - c.hsize)
           == F.Words(c, F.Fast(old(chip[..]), s0, u0, o0), 0, n)
    {
      hide F.OneWord, F.RowEnd, Masks;
      s, u, o := s0, u0.(carry := c.fillCarry), o0;
      ghost var start := F.Fast(chip[..], s0, u0, o0);
      ghost var target := F.Words(c, start, 0, n);
      var i := 0;
      while i < c.hsize
        invariant 0 <= i <= c.hsize
        invariant i == 0 ==> F.Fast(chip[..], s, u, o) == F.RowStart(c, start)
        invariant 0 < i < c.hsize ==> F.Words(c, F.Fast(chip[..], s, u, o), i, n - i) == target
        invariant i == c.hsize ==> F.Words(c, F.RowEnd(c, F.Fast(chip[..], s, u, o)), 0, n - i) == target
      {
        ghost var was := F.Fast(chip[..], s, u, o);
        s, u, o := FastWord(i, s, u, o);
        ghost var now := F.Fast(chip[..], s, u, o);
        ghost var next := if i + 1 == c.hsize then F.RowEnd(c, now) else now;
        assert F.Words(c, next, F.Succ(c, i), n - i - 1) == target by {
          if i == 0 {
            assert F.Next(c, start, 0) == next;
          } else {
            assert F.Next(c, was, i) == next;
          }
        }
        i := i + 1;
      }
      ghost var full := F.Fast(chip[..], s, u, o);
      if s.pa != 0 { s := s.(pa := Wrap(s.pa + c.Signed(c.amod))); }
      if s.pb != 0 { s := s.(pb := Wrap(s.pb + c.Signed(c.bmod))); }
      if s.pc != 0 { s := s.(pc := Wrap(s.pc + c.Signed(c.cmod))); }
      if o.pd != 0 { o := o.(pd := Wrap(o.pd + c.Signed(c.dmod))); }
      assert F.Fast(chip[..], s, u, o) == F.RowEnd(c, full) by { RowEndIs(full, s, o); }
    }

    /** All rows of the generic loop. */
    method FastRows(s0: F.Sources, u0: Alu, o0: F.Output)
      returns (s: F.Sources, u: Alu, o: F.Output)
      requires c.Valid() && c.hsize <= masktable.Length && chip != masktable
      requires forall i :: 0 <= i < c.hsize ==> Masks(i, masktable[i])
      modifies chip
      ensures F.Fast(chip[..], s, u, o)
           == F.Words(c, F.Fast(old(chip[..]), s0, u0, o0), 0, c.hsize * c.vsize)
    {
      hide F.Next, Masks;
      s, u, o := s0, u0, o0;
      ghost var target := F.Words(c, F.Fast(chip[..], s, u, o), 0, c.hsize * c.vsize);
      var j := 0;
      while j < c.vsize
        invariant 0 <= j <= c.vsize
        invariant F.Words(c, F.Fast(chip[..], s, u, o), 0, (c.vsize - j) * c.hsize) == target
      {
        MulSucc(c.vsize - j - 1, c.hsize);
        s, u, o := FastRow(s, u, o, (c.vsize - j) * c.hsize);
        j := j + 1;
      }
    }

    /** The running pointers: zero for a channel that is off. */
    method Channels() returns (s: F.Sources, o: F.Output)
      requires alu == Alu(ZERO, c.fillCarry, true)
      ensures F.Fast(chip[..], s, alu, o) == FastStart(c, Path())
    {
      hide Widen;
      s := F.Sources(if c.useA then src.apt else 0, if c.useB then src.bpt else 0,
                     if c.useC then src.cpt else 0,
                     src.adat, src.bdat, src.cdat, Widen(src.bhold), ZERO);
      o := F.Output(ZERO, false, 0, if c.useD then dpt else 0);
    }

    /** A specialised routine is used for this blit. */
    predicate Special(mt: nat) { mt in S.SPECIALISED && !c.fillMode }

    lemma FlushIs(mem: seq<Word>, o: F.Output)
      requires c.Valid()
      ensures F.Flush(c, mem, o) == if o.pending then Put(mem, c.span, o.dstp, o.ddat) else mem
    {
      hide Put;
    }

    method DoGeneric(s0: F.Sources, u0: Alu, o0: F.Output)
      returns (s: F.Sources, u: Alu, o: F.Output)
      requires c.Valid() && c.hsize <= masktable.Length && chip != masktable
      requires forall i :: 0 <= i < c.hsize ==> Masks(i, masktable[i])
      modifies chip
      ensures F.Fast(chip[..], s, u, o) == F.Blit(c, F.Fast(old(chip[..]), s0, u0, o0))
    {
      hide F.Words, Masks, Put, F.Flush;
      s, u, o := FastRows(s0, u0, o0);
      FlushIs(chip[..], o);
      if o.pending {
        Wput(o.dstp, o.ddat);
      }
    }

    method SpecialFetch(mt: nat, s0: F.Sources) returns (s: F.Sources)
      requires c.Valid()
      ensures s == S.Fetch(c, mt, chip[..], s0)
    {
      hide Get, Wrap, S.UsesA, S.UsesB, S.UsesC;
      s := s0;
      if S.UsesC(mt) && s.pc != 0 {
        s := s.(cdat := Wget(s.pc), pc := Wrap(s.pc + c.Stride()));
      }
      if S.UsesB(mt) && s.pb != 0 {
        var bdat := Wget(s.pb);
        s := s.(bdat := bdat, bhold := c.path.shiftB(s.prevb, bdat), prevb := bdat,
                pb := Wrap(s.pb + c.Stride()));
      }
      if S.UsesA(mt) && s.pa != 0 {
        s := s.(adat := Wget(s.pa), pa := Wrap(s.pa + c.Stride()));
      }
    }

    /** One trip of the inner loop of the routine for minterm `mt`. */
    method SpecialWord(mt: nat, i: nat, s0: F.Sources, u0: Alu, o0: F.Output)
      returns (s: F.Sources, u: Alu, o: F.Output)
      requires c.Valid() && i < masktable.Length && chip != masktable
      requires Masks(i, masktable[i])
      modifies chip
      ensures F.Fast(chip[..], s, u, o) == S.SpecialWord(c, mt, F.Fast(old(chip[..]), s0, u0, o0), i)
    {
      hide Mask, Put, Wrap, S.SpecialFunc, S.Fetch, S.UsesA;
      s := SpecialFetch(mt, s0);
      u := u0;
      if S.UsesA(mt) {
        u := u.(preva := Mask(s.adat, masktable[i]));
      }
      var srca := c.path.shiftA(u0.preva, u.preva);
      if o0.pending {
        Wput(o0.dstp, o0.ddat);
      }
      var dstd := Low(S.SpecialFunc(srca, s.bhold, Widen(s.cdat), mt));
      u := u.(zero := u.zero && dstd == ZERO);
      o := o0.(ddat := dstd);
      if o.pd != 0 {
        o := o.(pending := true, dstp := o.pd, pd := Wrap(o.pd + c.Stride()));
      }
    }

    lemma SpecialRowEndIs(mt: nat, f: F.Fast, s: F.Sources, o: F.Output)
      requires s == f.src.(pa := if S.UsesA(mt) then F.AddMod(c, f.src.pa, c.amod) else f.src.pa,
                           pb := if S.UsesB(mt) then F.AddMod(c, f.src.pb, c.bmod) else f.src.pb,
                           pc := if S.UsesC(mt) then F.AddMod(c, f.src.pc, c.cmod) else f.src.pc)
      requires o == f.dst.(pd := F.AddMod(c, f.dst.pd, c.dmod))
      ensures f.(src := s, dst := o) == S.SpecialRowEnd(c, mt, f)
    {
      hide S.UsesA, S.UsesB, S.UsesC, F.AddMod;
    }

    /** One row of the routine for minterm `mt`; `n` words are left before it. */
    method SpecialRow(mt: nat, s0: F.Sources, u0: Alu, o0: F.Output, n: nat)
      returns (s: F.Sources, u: Alu, o: F.Output)
      requires c.Valid() && c.hsize <= masktable.Length && chip != masktable && n >= c.hsize
      requires forall i :: 0 <= i < c.hsize ==> Masks(i, masktable[i])
      modifies chip
      ensures S.SpecialWords(c, mt, F.Fast(chip[..], s, u, o), 0, n - c.hsize)
           == S.SpecialWords(c, mt, F.Fast(old(chip[..]), s0, u0, o0), 0, n)
    {
      hide S.SpecialWord, S.SpecialRowEnd, Masks, S.UsesA, S.UsesB, S.UsesC;
      s, u, o := s0, u0, o0;
      ghost var target := S.SpecialWords(c, mt, F.Fast(chip[..], s, u, o), 0, n);
      var i := 0;
      while i < c.hsize
        invariant 0 <= i <= c.hsize
        invariant i < c.hsize ==> S.SpecialWords(c, mt, F.Fast(chip[..], s, u, o), i, n - i) == target
        invariant i == c.hsize ==>
          S.SpecialWords(c, mt, S.SpecialRowEnd(c, mt, F.Fast(chip[..], s, u, o)), 0, n - i) == target
      {
        ghost var was := F.Fast(chip[..], s, u, o);
        s, u, o := SpecialWord(mt, i, s, u, o);
        ghost var now := F.Fast(chip[..], s, u, o);
        ghost var next := if i + 1 == c.hsize then S.SpecialRowEnd(c, mt, now) else now;
        assert S.SpecialNext(c, mt, was, i) == next;
        assert S.SpecialWords(c, mt, next, F.Succ(c, i), n - i - 1) == target;
        i := i + 1;
      }
      ghost var full := F.Fast(chip[..], s, u, o);
      if S.UsesA(mt) && s.pa != 0 { s := s.(pa := Wrap(s.pa + c.Signed(c.amod))); }
      if S.UsesB(mt) && s.pb != 0 { s := s.(pb := Wrap(s.pb + c.Signed(c.bmod))); }
      if S.UsesC(mt) && s.pc != 0 { s := s.(pc := Wrap(s.pc + c.Signed(c.cmod))); }
      if o.pd != 0 { o := o.(pd := Wrap(o.pd + c.Signed(c.dmod))); }
      SpecialRowEndIs(mt, full, s, o);
    }

    lemma SpecialNone(mt: nat, s: F.Fast, n: nat)
      requires c.Valid() && n == 0
      ensures S.SpecialWords(c, mt, s, 0, n) == s
    {
    }

    /** The double loop of the routine for minterm `mt`. */
    method DoSpecial(mt: nat, s0: F.Sources, u0: Alu, o0: F.Output)
      returns (s: F.Sources, u: Alu, o: F.Output)
      requires c.Valid() && c.hsize <= masktable.Length && chip != masktable
      requires forall i :: 0 <= i < c.hsize ==> Masks(i, masktable[i])
      modifies chip
      ensures F.Fast(chip[..], s, u, o) == S.SpecialBlit(c, mt, F.Fast(old(chip[..]), s0, u0, o0))
    {
      hide S.SpecialWords, S.UsesA, S.UsesB, S.UsesC, Masks, Put, Wrap, F.Flush;
      s, u, o := s0, u0, o0;
      ghost var n := c.hsize * c.vsize;
      ghost var target := S.SpecialWords(c, mt, F.Fast(chip[..], s, u, o), 0, n);
      var j := 0;
      while j < c.vsize
        invariant 0 <= j <= c.vsize
        invariant S.SpecialWords(c, mt, F.Fast(chip[..], s, u, o), 0, (c.vsize - j) * c.hsize) == target
      {
        MulSucc(c.vsize - j - 1, c.hsize);
        s, u, o := SpecialRow(mt, s, u, o, (c.vsize - j) * c.hsize);
        j := j + 1;
      }
      SpecialNone(mt, F.Fast(chip[..], s, u, o), (c.vsize - j) * c.hsize);
      FlushIs(chip[..], o);
      if o.pending {
        Wput(o.dstp, o.ddat);
      }
    }

    method Dispatch(s0: F.Sources, u0: Alu, o0: F.Output)
      returns (s: F.Sources, u: Alu, o: F.Output)
      requires Ready() && c.Valid()
      requires forall i :: 0 <= i < c.hsize ==> Masks(i, masktable[i])
      modifies chip
      ensures var f := F.Blit(c, F.Fast(old(chip[..]), s0, u0, o0));
              && chip[..] == f.mem && u.zero == f.alu.zero
              && (!Special(r.MinTerm()) ==> F.Fast(chip[..], s, u, o) == f)
    {
      hide Masks, S.SPECIALISED, Registers.MinTerm, F.Blit, S.SpecialBlit;
      var mt := r.MinTerm();
      if Special(mt) {
        S.RegistersCompute(r);
        S.SpecialisedIsGeneric(c, mt, F.Fast(chip[..], s0, u0, o0));
        s, u, o := DoSpecial(mt, s0, u0, o0);
      } else {
        s, u, o := DoGeneric(s0, u0, o0);
      }
    }

    /** The pointers after a blit that started from `d`. */
    ghost predicate SamePointers(d: Data)
      reads this
    {
      && src.apt == (if c.useA then EndPointer(c, d.src.apt, c.amod) else d.src.apt)
      && src.bpt == (if c.useB then EndPointer(c, d.src.bpt, c.bmod) else d.src.bpt)
      && src.cpt == (if c.useC then EndPointer(c, d.src.cpt, c.cmod) else d.src.cpt)
      && dpt == (if c.useD then EndPointer(c, d.dpt, c.dmod) else d.dpt)
    }

    /** The final pointers are known before the loop starts. */
    method MovePointers()
      modifies this`src, this`dpt
      ensures SamePointers(old(Path()))
      ensures src == old(src).(apt := src.apt, bpt := src.bpt, cpt := src.cpt)
    {
      hide EndPointer;
      if c.useA { src := src.(apt := EndPointer(c, src.apt, c.amod)); }
      if c.useB { src := src.(bpt := EndPointer(c, src.bpt, c.bmod)); }
      if c.useC { src := src.(cpt := EndPointer(c, src.cpt, c.cmod)); }
      if c.useD { dpt := EndPointer(c, dpt, c.dmod); }
    }

    /** The data registers after an immediate blit that ended as `f`. */
    ghost predicate SameData(f: F.Fast)
      reads this
    {
      && alu == f.alu && src.adat == f.src.adat && src.bdat == f.src.bdat && src.cdat == f.src.cdat
      && src.bhold == Low(f.src.bhold)
    }

    /** blitter_dofast and blitter_dofast_desc: a specialised routine where the
        tables have one and no fill is wanted, the generic word loop otherwise.
        Either way memory and blitzero are those of the generic loop. */
    method DoFast()
      requires Valid() && c.Valid() && Pointers(Path()) && alu == Alu(ZERO, c.fillCarry, true)
      modifies this`src, this`alu, this`dpt, chip, masktable
      ensures Valid()
      ensures var f := F.Blit(c, FastStart(c, old(Path())));
              && chip[..] == f.mem && alu.zero == f.alu.zero
              && (!Special(r.MinTerm()) ==> SameData(f))
      ensures SamePointers(old(Path()))
    {
      hide F.Words, Masks, Low, Widen, EndPointer, S.SPECIALISED, F.Blit, S.UsesB, S.UsesC, FastStart, Configure,
           Registers.MinTerm;
      SetMasks();
      var s, o := Channels();
      MovePointers();
      var u;
      s, u, o := Dispatch(s, alu, o);
      ClearMasks();
      alu := u;
      var mt := r.MinTerm();
      src := src.(adat := s.adat, bdat := s.bdat,
                  bhold := if Special(mt) && !S.UsesB(mt) then src.bhold else Low(s.bhold),
                  cdat := if Special(mt) && !S.UsesC(mt) then src.cdat else s.cdat);
    }

    // ----- the cycle-exact form

    /** The loop of blit_bltset over the slots of a period. */
    method CountSlots() returns (sources: nat, noD: bool)
      requires c.Valid()
      ensures sources == SourceCount(c) && noD == NoD(c)
    {
      hide MainDiagram;
      var row := MainDiagram(c).main;
      var i := 0;
      sources, noD := 0, true;
      while i < |row|
        invariant 0 <= i <= |row|
        invariant sources + CountIf(row[i..], 1, 3) == CountIf(row, 1, 3)
        invariant (if noD then 0 else 1) + CountIf(row[i..], 4, 4) > 0 <==> CountIf(row, 4, 4) > 0
      {
        assert row[i..][0] == row[i] && row[i..][1..] == row[i + 1..];
        if 0 < row[i] < 4 {
          sources := sources + 1;
        }
        if row[i] == 4 {
          noD := false;
        }
        i := i + 1;
      }
    }

    /** blitter_start_init and the counters of a block blit. */
    method ClearData()
      requires c.Valid()
      modifies this`src, this`alu, this`pipe, this`at, this`dst
      ensures Path() == Start(c, old(Path()), false, false).d
    {
      hide NoD, CountIf, MainDiagram;
      var sources, noD := CountSlots();
      alu := Alu(ZERO, c.fillCarry, true);
      src := src.(prevb := ZERO, fetched := 0);
      pipe := pipe.(use1 := false, use2 := false);
      at, dst := Counter(0, 0), Counter(0, if noD then c.vsize else 0);
    }

    /** do_blitter2 for a cycle-exact block blit. */
    method StartBlit(hpos: nat, copper: bool)
      requires c.Valid()
      modifies this
      ensures Machine() == Start(c, old(Path()), copper, old(final)) && lastHpos == hpos + 1
    {
      hide NoD, Valid;
      ClearData();
      lastHpos, missed, nasty, total := hpos + 1, 0, 0, 0;
      cycle, wait, done := -2, copper, false;
    }

    /** blitter_doblit. */
    method Combine1() returns (ddat: Word)
      requires c.Valid()
      modifies this`alu
      ensures (ddat, alu) == DoBlit(c, old(src), old(alu), old(at.h))
    {
      var bltadat := c.path.mask(at.h, src.adat);
      var blitahold := c.path.shiftA(alu.preva, bltadat);
      ddat := c.path.logic(blitahold, Widen(src.bhold), src.cdat);
      var carry := alu.carry;
      if c.fillMode {
        var f := c.path.fill(ddat, carry);
        ddat, carry := f.0, f.1;
      }
      alu := Alu(bltadat, carry, alu.zero && ddat == ZERO);
    }

    /** A D write and the advance of the destination side. */
    method WriteWord(d: Word)
      requires c.Valid()
      modifies this`at, this`dpt, this`dst, chip
      ensures Path() == WriteD(c, old(Path()), d)
    {
      hide Put, Wrap, CountIf, MainDiagram;
      Wput(dpt, d);
      dpt := Wrap(dpt + c.Stride());
      dst := dst.(h := dst.h + 1);
      if dst.h == c.hsize {
        dpt := Wrap(dpt + c.Signed(c.dmod));
        dst := Counter(0, dst.v + 1);
        if SourceCount(c) == 0 {
          at := at.(v := at.v + 1);
        }
        if dst.v > at.v {
          at := at.(v := dst.v);
        }
      }
    }

    /** blitter_doddma. */
    method WriteSlot()
      requires c.Valid()
      modifies this`alu, this`pipe, this`at, this`dpt, this`dst, chip
      ensures Path() == DoDdma(c, old(Path()))
    {
      hide DoBlit, WriteD, CountIf, MainDiagram;
      CountSources(c);
      var d;
      if SourceCount(c) == 0 {
        d := Combine1();
      } else if pipe.use2 {
        d := pipe.ddat2;
        pipe := pipe.(use2 := false);
      } else if pipe.use1 {
        d := pipe.ddat1;
        pipe := pipe.(use1 := false);
      } else {
        return;
      }
      WriteWord(d);
      if OnlyD(c) {
        at := at.(h := dst.h);
      }
    }

    /** A source fetch. */
    method FetchWord(ch: nat)
      requires c.Valid() && 1 <= ch <= 3
      modifies this`src
      ensures src == Fetch(c, chip[..], old(src), ch)
    {
      hide Get, Wrap, Low;
      if ch == 1 {
        src := src.(adat := Wget(src.apt), apt := Wrap(src.apt + c.Stride()));
      } else if ch == 2 {
        var b := Wget(src.bpt);
        src := src.(bdat := b, bpt := Wrap(src.bpt + c.Stride()),
                    bhold := Low(c.path.shiftB(src.prevb, b)), prevb := b);
      } else {
        src := src.(cdat := Wget(src.cpt), cpt := Wrap(src.cpt + c.Stride()));
      }
    }

    method RowEnd()
      modifies this`src
      ensures src == SourceRowEnd(c, old(src))
    {
      hide Wrap;
      if c.useA { src := src.(apt := Wrap(src.apt + c.Signed(c.amod))); }
      if c.useB { src := src.(bpt := Wrap(src.bpt + c.Signed(c.bmod))); }
      if c.useC { src := src.(cpt := Wrap(src.cpt + c.Signed(c.cmod))); }
    }

    /** The computation of a word whose sources have all arrived. */
    method PushWord()
      requires c.Valid()
      modifies this`src, this`alu, this`pipe, this`at
      ensures Path() == Push(c, old(Path()))
    {
      hide DoBlit, Wrap;
      pipe := Pipe(pipe.ddat1, pipe.ddat1, false, pipe.use1);
      var d := Combine1();
      pipe := pipe.(ddat1 := d, use1 := c.useD);
      src := src.(fetched := 0);
      at := at.(h := at.h + 1);
      if at.h == c.hsize {
        at := Counter(0, at.v + 1);
        RowEnd();
        alu := alu.(carry := c.fillCarry);
      }
    }

    /** blitter_dodma. */
    method FetchSlot(ch: nat)
      requires c.Valid() && 1 <= ch <= 3
      modifies this`src, this`alu, this`pipe, this`at
      ensures Path() == DoDma(c, old(Path()), ch)
    {
      hide Fetch, Push, CountIf, MainDiagram;
      FetchWord(ch);
      src := src.(fetched := src.fetched + 1);
      if src.fetched >= SourceCount(c) {
        PushWord();
      }
    }

    method CountSlot()
      modifies this`cycle, this`total, this`done
      ensures var s := old(Machine());
              Machine() == s.(cycle := s.cycle + 1, total := s.total + 1, done := Finished(c, s.d))
    {
      cycle, total := cycle + 1, total + 1;
      done := at.v >= c.vsize && dst.v >= c.vsize && !pipe.use1 && !pipe.use2;
    }

    /** A slot in which the blitter serves channel `ch`. */
    method ServeSlot(ch: nat)
      requires c.Valid() && 1 <= ch <= 4
      modifies this, chip
      ensures Machine() == Serve(c, old(Machine()), ch) && lastHpos == old(lastHpos)
    {
      hide DoDma, DoDdma, Valid;
      if ch == 4 {
        WriteSlot();
      } else if at.v < c.vsize {
        FetchSlot(ch);
      }
      CountSlot();
    }

    method IdleSlot()
      requires c.Valid()
      modifies this`cycle, this`final, this`total, this`done
      ensures Machine() == Idle(c, old(Machine()))
    {
      hide MaxCycles, Valid;
      cycle := cycle + 1;
      if cycle == 0 {
        final := false;
      }
      total := total + 1;
      done := NoChannels(c) && cycle >= MaxCycles(c);
    }

    /** One trip of the inner loop of decide_blitter, under grant `g`. */
    method Slot(g: Grant)
      requires c.Valid()
      modifies this, chip
      ensures Machine() == Trip(c, old(Machine()), g) && lastHpos == old(lastHpos)
    {
      hide ChannelState, MainDiagram, CountIf, Serve, Idle, Valid;
      var ch := ChannelState(c, cycle, final);
      ChannelBound(c, cycle, final);
      if wait {
        wait := false;
        return;
      }
      if (ch == 0 && g == Busy) || g == DmaOff {
        if cycle < 0 || !final {
          missed := missed + 1;
          return;
        }
        if FillExtra(c) {
          missed, nasty := missed + 1, nasty + 1;
          return;
        }
      }
      if ch == 0 {
        IdleSlot();
        return;
      }
      nasty := nasty + 1;
      if g != Free {
        missed := missed + 1;
        return;
      }
      ServeSlot(ch);
    }

    /** The switch to the final slots. */
    method SettleSlot(g: Grant)
      requires c.Valid()
      modifies this`cycle, this`final
      ensures Machine() == Settle(c, old(Machine()), g)
    {
      hide ChannelPos, MainDiagram, CountIf;
      var lastStarted := at.v == c.vsize
                         || (at.v == c.vsize - 1 && at.h == c.hsize - 1 && SourceCount(c) == 0);
      if g != DmaOff && !final && lastStarted
         && ChannelPos(c, cycle - 1, final) == MainDiagram(c).Period() - 1 {
        cycle, final := 0, true;
      }
    }

    /** One trip of the outer loop of decide_blitter. */
    method StepSlot(g: Grant)
      requires c.Valid()
      modifies this, chip
      ensures Machine() == Step(c, old(Machine()), g) && lastHpos == old(lastHpos)
    {
      hide Trip, Settle, Valid;
      Slot(g);
      if !done {
        SettleSlot(g);
      }
    }

    /** decide_blitter up to position `hpos` of the line, under the grants of
        that line: a run of the machine that stops where the blit completes. */
    method DecideBlitter(hpos: nat, line: int -> Grant)
      requires c.Valid() && !done && lastHpos <= hpos
      modifies this, chip
      ensures Machine() == Run(c, old(Machine()), Grants(line, old(lastHpos), hpos))
      ensures if done then lastHpos <= hpos else lastHpos == hpos
    {
      hide Step, Valid, Run, Grants;
      ghost var target := Run(c, Machine(), Grants(line, lastHpos, hpos));
      while lastHpos < hpos
        invariant lastHpos <= hpos && !done
        invariant Run(c, Machine(), Grants(line, lastHpos, hpos)) == target
      {
        LineUnfolds(c, Machine(), line, lastHpos, hpos);
        StepSlot(line(lastHpos));
        if done {
          return;
        }
        lastHpos := lastHpos + 1;
      }
      LineEnds(c, Machine(), line, hpos);
    }
  }
}
