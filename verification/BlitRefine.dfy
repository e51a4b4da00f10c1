/** The cycle-exact block blit refines the word loop: a period of the diagram
    does to memory, pointers and registers what one trip of the loop does. */
module BlitRefine {
  import opened ChipMemory
  import opened Bits
  import opened BlitConfig
  import F = BlitFast
  import W = BlitWords
  import opened BlitExact
  import opened BlitSchedule
  import opened BlitPeriod

  predicate HasSource(c: Config) { c.useA || c.useB || c.useC }

  /** Where a channel that starts at `p` stands before the word in row `j`,
      column `i`. */
  function At(c: Config, p: nat, mod: int, j: nat, i: nat): nat {
    Wrap(p + j * (c.hsize * c.Stride() + c.Signed(mod)) + i * c.Stride())
  }

  /** Register values as the program leaves them. */
  ghost predicate Pointers(d: Data) {
    d.src.apt < 0x1_0000_0000 && d.src.bpt < 0x1_0000_0000 && d.src.cpt < 0x1_0000_0000
    && d.dpt < 0x1_0000_0000
  }

  /** A word loop started from the same registers and memory: a channel that is
      off has a pointer of zero. */
  function FastStart(c: Config, d: Data): F.Fast {
    var s := d.src;
    F.Fast(d.mem,
           F.Sources(if c.useA then s.apt else 0, if c.useB then s.bpt else 0, if c.useC then s.cpt else 0,
                     s.adat, s.bdat, s.cdat, Widen(s.bhold), ZERO),
           Alu(ZERO, c.fillCarry, true),
           F.Output(ZERO, false, 0, if c.useD then d.dpt else 0))
  }

  lemma AtNext(c: Config, p: nat, mod: int, j: nat, i: nat)
    ensures Wrap(At(c, p, mod, j, i) + c.Stride()) == At(c, p, mod, j, i + 1)
    ensures i == c.hsize ==> Wrap(At(c, p, mod, j, i) + c.Signed(mod)) == At(c, p, mod, j + 1, 0)
  {
    var r := c.hsize * c.Stride() + c.Signed(mod);
    WrapAdd(p + j * r + i * c.Stride(), c.Stride());
    WrapAdd(p + j * r + i * c.Stride(), c.Signed(mod));
    assert (i + 1) * c.Stride() == i * c.Stride() + c.Stride();
    assert (j + 1) * r == j * r + r;
  }

  /** The pointer of one channel in both forms before the word at `at`. */
  ghost predicate SamePointer(c: Config, used: bool, p: nat, mod: int, at: Counter, e: nat, f: nat) {
    && e == (if used then At(c, p, mod, at.v, at.h) else p)
    && (at.v < c.vsize ==> f == if used then e else 0)
  }

  ghost predicate SameSources(c: Config, p: Sources, at: Counter, e: Sources, f: F.Sources) {
    && SamePointer(c, c.useA, p.apt, c.amod, at, e.apt, f.pa)
    && SamePointer(c, c.useB, p.bpt, c.bmod, at, e.bpt, f.pb)
    && SamePointer(c, c.useC, p.cpt, c.cmod, at, e.cpt, f.pc)
    && e.adat == f.adat && e.cdat == f.cdat && e.bhold == Low(f.bhold) && e.prevb == f.prevb
    && e.bdat == f.bdat
  }

  /** The counter after `at`. */
  function NextAt(c: Config, at: Counter): Counter {
    if at.h + 1 == c.hsize then Counter(0, at.v + 1) else Counter(at.h + 1, at.v)
  }

  /** The D side before the word at `at`: the cycle-exact machine holds the
      word before it in `ddat1`, the word loop in its pending write. */
  ghost predicate SameOutput(c: Config, p: nat, d: Data, o: F.Output) {
    var first := d.at == Counter(0, 0);
    && !d.pipe.use2
    && (if c.useD then
          && d.pipe.use1 == !first && o.pending == !first
          && d.dst.v < c.vsize
          && (first ==> d.dst == Counter(0, 0))
          && (!first ==> d.dst.h < c.hsize && NextAt(c, d.dst) == d.at
                         && d.pipe.ddat1 == o.ddat && o.dstp == d.dpt)
          && d.dpt == At(c, p, c.dmod, d.dst.v, d.dst.h)
          && (d.at.v < c.vsize ==> o.pd == At(c, p, c.dmod, d.at.v, d.at.h))
        else
          !d.pipe.use1 && d.dst == Counter(0, c.vsize) && d.dpt == p && !o.pending && o.pd == 0)
  }

  ghost predicate SameAlu(c: Config, at: Counter, e: Alu, f: Alu) {
    e.preva == f.preva && e.zero == f.zero && e.carry == if at.h == 0 then c.fillCarry else f.carry
  }

  /** Both forms stand before the word at `d.at`; `s` is how they started. */
  ghost predicate Related(c: Config, s: Data, d: Data, f: F.Fast)
  {
    && d.mem == f.mem
    && d.at.h < c.hsize && d.at.v <= c.vsize && (d.at.v == c.vsize ==> d.at.h == 0)
    && d.src.fetched == 0
    && SameSources(c, s.src, d.at, d.src, f.src)
    && SameAlu(c, d.at, d.alu, f.alu)
    && SameOutput(c, s.dpt, d, f.dst)
  }

  /** The fetches of one word, in slot order. */
  ghost function FetchUsed(c: Config, mem: seq<Word>, s: Sources): Sources
    requires c.Valid()
  {
    var s := if c.useA then Fetch(c, mem, s, 1) else s;
    var s := if c.useB then Fetch(c, mem, s, 2) else s;
    if c.useC then Fetch(c, mem, s, 3) else s
  }

  /** One period: fetch and compute a word, and write the word before it. */
  ghost function Period(c: Config, d: Data, first: bool): Data
    requires c.Valid()
  {
    var t := Push(c, d.(src := FetchUsed(c, d.mem, d.src)));
    if c.useD && !first then DoDdma(c, t) else t
  }

  lemma CountRow(s: seq<nat>)
    requires 2 <= |s| <= 4
    ensures forall lo: nat, hi: nat :: CountIf(s, lo, hi) ==
              (if lo <= s[0] <= hi then 1 else 0) + (if lo <= s[1] <= hi then 1 else 0)
              + (if |s| > 2 && lo <= s[2] <= hi then 1 else 0)
              + (if |s| > 3 && lo <= s[3] <= hi then 1 else 0)
  {
    forall lo: nat, hi: nat
      ensures CountIf(s, lo, hi) ==
              (if lo <= s[0] <= hi then 1 else 0) + (if lo <= s[1] <= hi then 1 else 0)
              + (if |s| > 2 && lo <= s[2] <= hi then 1 else 0)
              + (if |s| > 3 && lo <= s[3] <= hi then 1 else 0)
    {
      assert CountIf(s[1..], lo, hi) == (if lo <= s[1] <= hi then 1 else 0) + CountIf(s[2..], lo, hi) by {
        assert s[1..][1..] == s[2..];
      }
      if |s| > 2 {
        assert s[2..][1..] == s[3..];
        if |s| > 3 {
          assert s[3..][1..] == s[4..] == [];
        }
      }
    }
  }

  lemma CountSources(c: Config)
    ensures SourceCount(c) == (if c.useA then 1 else 0) + (if c.useB then 1 else 0) + (if c.useC then 1 else 0)
    ensures NoD(c) == !c.useD
  {
    CountRow(MainDiagram(c).main);
  }

  lemma FirstSlot(c: Config, d: Data, r: seq<nat>)
    requires c.Valid()
    ensures Slots(c, d, r) == if r == [] then d else Slots(c, Slot(c, d, r[0]), r[1..])
  {
    hide Slot;
  }

  lemma UnrollSlots(c: Config, d: Data, r: seq<nat>)
    requires c.Valid() && 2 <= |r| <= 4
    ensures Slots(c, d, r) ==
            (var t := Slot(c, Slot(c, d, r[0]), r[1]);
             var t := if |r| > 2 then Slot(c, t, r[2]) else t;
             if |r| > 3 then Slot(c, t, r[3]) else t)
  {
    hide Slot, Slots;
    var t0 := Slot(c, d, r[0]);
    var t1 := Slot(c, t0, r[1]);
    FirstSlot(c, d, r);
    FirstSlot(c, t0, r[1..]);
    FirstSlot(c, t1, r[2..]);
    assert r[1..][0] == r[1] && r[1..][1..] == r[2..];
    if |r| > 2 {
      var t2 := Slot(c, t1, r[2]);
      FirstSlot(c, t2, r[3..]);
      assert r[2..][0] == r[2] && r[2..][1..] == r[3..];
      if |r| > 3 {
        FirstSlot(c, Slot(c, t2, r[3]), []);
        assert r[3..][0] == r[3] && r[3..][1..] == [];
      }
    }
  }

  lemma DoBlitIgnoresCount(c: Config, s: Sources, u: Alu, h: nat, n: nat)
    requires c.Valid()
    ensures DoBlit(c, s.(fetched := n), u, h) == DoBlit(c, s, u, h)
  {
    hide Combine;
  }

  lemma PushIgnoresCount(c: Config, d: Data, n: nat)
    requires c.Valid()
    ensures Push(c, d.(src := d.src.(fetched := n))) == Push(c, d)
  {
    hide DoBlit, SourceRowEnd;
    var e := d.(src := d.src.(fetched := n));
    assert e.src.(fetched := 0) == d.src.(fetched := 0);
    assert DoBlit(c, e.src, e.alu, e.at.h) == DoBlit(c, d.src, d.alu, d.at.h) by {
      DoBlitIgnoresCount(c, d.src, d.alu, d.at.h, n);
    }
  }

  lemma PushKeeps(c: Config, d: Data)
    requires c.Valid()
    ensures var t := Push(c, d);
            t.mem == d.mem && t.dpt == d.dpt && t.dst == d.dst && t.at == NextAt(c, d.at)
            && t.src.fetched == 0 && t.pipe.use1 == c.useD && t.pipe.use2 == d.pipe.use1
  {
    hide Combine, Wrap;
  }

  /** The source slots of a period fetch the word and compute it. */
  lemma SourceSlots(c: Config, d: Data, x: bool, y: bool, z: bool)
    requires c.Valid() && HasSource(c) && d.src.fetched == 0 && d.at.v < c.vsize
    requires x == c.useA && y == c.useB && z == c.useC
    ensures var t := Slot(c, d, if x then 1 else 0);
            var t := Slot(c, t, if y then 2 else 0);
            Slot(c, t, if z then 3 else 0) == Push(c, d.(src := FetchUsed(c, d.mem, d.src)))
  {
    hide Push, Get, Wrap, Low, CountIf, MainDiagram;
    CountSources(c);
    var u := d.(src := FetchUsed(c, d.mem, d.src));
    PushIgnoresCount(c, u, SourceCount(c));
  }

  /** The slots of a period do what `Period` says. */
  lemma SlotsArePeriod(c: Config, d: Data, q: nat)
    requires c.Valid() && HasSource(c) && d.src.fetched == 0 && d.at.v < c.vsize
    ensures Slots(c, d, PeriodRow(c, q)) == Period(c, d, q == 0)
  {
    hide Push, FetchUsed, DoDdma, DoDma, CountIf;
    DiagramShape(c, false);
    UnrollSlots(c, d, PeriodRow(c, q));
    SourceSlots(c, d, c.useA, c.useB, c.useC);
  }

  /** The pointer of a channel after the word at `at`, and at the end of its
      row. */
  lemma NextPointer(c: Config, p: nat, mod: int, at: Counter)
    ensures Wrap(At(c, p, mod, at.v, at.h) + c.Stride()) == At(c, p, mod, at.v, at.h + 1)
    ensures Wrap(At(c, p, mod, at.v, c.hsize) + c.Signed(mod)) == At(c, p, mod, at.v + 1, 0)
  {
    hide At;
    AtNext(c, p, mod, at.v, at.h);
    AtNext(c, p, mod, at.v, c.hsize);
  }

  /** The fetches of one word in both forms. */
  lemma SameFetch(c: Config, mem: seq<Word>, p: Sources, at: Counter, e: Sources, f: F.Sources)
    requires c.Valid() && at.v < c.vsize && at.h < c.hsize
    requires SameSources(c, p, at, e, f)
    ensures var e' := FetchUsed(c, mem, e); var f' := W.FetchAll(c, mem, f);
            && e'.adat == f'.adat && e'.cdat == f'.cdat && e'.bhold == Low(f'.bhold) && e'.prevb == f'.prevb
            && e'.bdat == f'.bdat
            && e'.apt == (if c.useA then At(c, p.apt, c.amod, at.v, at.h + 1) else p.apt)
            && e'.bpt == (if c.useB then At(c, p.bpt, c.bmod, at.v, at.h + 1) else p.bpt)
            && e'.cpt == (if c.useC then At(c, p.cpt, c.cmod, at.v, at.h + 1) else p.cpt)
            && f'.pa == (if c.useA then e'.apt else 0)
            && f'.pb == (if c.useB then e'.bpt else 0)
            && f'.pc == (if c.useC then e'.cpt else 0)
  {
    hide Low, Get, At;
    NextPointer(c, p.apt, c.amod, at);
    NextPointer(c, p.bpt, c.bmod, at);
    NextPointer(c, p.cpt, c.cmod, at);
  }

  /** The source side after one word, row end included. */
  lemma SameSourcesNext(c: Config, mem: seq<Word>, p: Sources, at: Counter, e: Sources, f: F.Sources)
    requires c.Valid() && at.v < c.vsize && at.h < c.hsize
    requires SameSources(c, p, at, e, f)
    ensures var last := at.h + 1 == c.hsize;
            var e' := FetchUsed(c, mem, e).(fetched := 0);
            var f' := W.FetchAll(c, mem, f);
            SameSources(c, p, NextAt(c, at), if last then SourceRowEnd(c, e') else e',
                        if last then W.SourcesEnd(c, f') else f')
  {
    hide Low, At, FetchUsed, W.FetchAll, Wrap;
    SameFetch(c, mem, p, at, e, f);
    NextPointer(c, p.apt, c.amod, at);
    NextPointer(c, p.bpt, c.bmod, at);
    NextPointer(c, p.cpt, c.cmod, at);
  }

  /** The D word both forms compute. */
  lemma SameWord(c: Config, mem: seq<Word>, p: Sources, at: Counter, e: Sources, f: F.Sources, u: Alu, w: Alu)
    requires c.Valid() && Bitwise(c.path) && at.v < c.vsize && at.h < c.hsize
    requires SameSources(c, p, at, e, f) && SameAlu(c, at, u, w)
    ensures var e' := FetchUsed(c, mem, e);
            var f' := W.FetchAll(c, mem, f);
            var w' := if at.h == 0 then w.(carry := c.fillCarry) else w;
            DoBlit(c, e', u, at.h) == Combine(c, w', at.h, f'.adat, f'.bhold, f'.cdat)
  {
    hide Low, At, FetchUsed, W.FetchAll, Wrap, Widen, Combine, Bitwise;
    SameFetch(c, mem, p, at, e, f);
    var f' := W.FetchAll(c, mem, f);
    CombineLow(c, u, at.h, f'.adat, f'.bhold, f'.cdat);
  }

  /** Writing the word before and aiming at the next destination. */
  lemma SameOutputNext(c: Config, p: nat, d: Data, t: Data, o: F.Output, w: Word)
    requires c.Valid() && d.at.v < c.vsize && d.at.h < c.hsize && HasSource(c)
    requires SameOutput(c, p, d, o)
    requires t.mem == d.mem && t.dpt == d.dpt && t.dst == d.dst && t.at == NextAt(c, d.at)
    requires t.pipe == Pipe(w, d.pipe.ddat1, c.useD, d.pipe.use1)
    ensures var first := d.at == Counter(0, 0);
            var t' := if c.useD && !first then DoDdma(c, t) else t;
            var o' := W.Aim(c, o, w);
            var o' := if d.at.h + 1 == c.hsize then o'.(pd := W.AddMod(c, c.useD, o'.pd, c.dmod)) else o';
            && SameOutput(c, p, t', o')
            && t'.mem == F.Flush(c, d.mem, o)
            && t'.src == t.src && t'.alu == t.alu && t'.at == t.at
  {
    hide At, Put, Wrap, CountIf, MainDiagram;
    CountSources(c);
    if c.useD {
      NextPointer(c, p, c.dmod, d.at);
      if d.at != Counter(0, 0) {
        AtNext(c, p, c.dmod, d.dst.v, d.dst.h);
        AtNext(c, p, c.dmod, d.dst.v, c.hsize);
      }
    }
  }

  /** One period keeps the two forms related. */
  lemma PeriodRefines(c: Config, s: Data, d: Data, f: F.Fast)
    requires c.Valid() && Bitwise(c.path) && HasSource(c)
    requires Related(c, s, d, f) && d.at.v < c.vsize
    ensures var t := Period(c, d, d.at == Counter(0, 0));
            t.at == NextAt(c, d.at) && Related(c, s, t, W.Next(c, f, d.at.h, true))
  {
    hide Low, At, FetchUsed, W.FetchAll, Wrap, Widen, Combine, Bitwise, SameSources, SameOutput,
         SourceRowEnd, W.SourcesEnd, W.Aim, F.Flush, DoDdma, DoBlit;
    SameSourcesNext(c, d.mem, s.src, d.at, d.src, f.src);
    SameWord(c, d.mem, s.src, d.at, d.src, f.src, d.alu, f.alu);
    var u := Push(c, d.(src := FetchUsed(c, d.mem, d.src)));
    PushKeeps(c, d.(src := FetchUsed(c, d.mem, d.src)));
    var r := DoBlit(c, FetchUsed(c, d.mem, d.src), d.alu, d.at.h);
    SameOutputNext(c, s.dpt, d, u, f.dst, r.0);
  }
}
