/** The specialised word loops (blitfunc.cpp, blittable.cpp): one for each of
    22 minterms and each direction.  A specialised loop touches only the
    sources its formula mentions. */
module BlitSpecial {
  import opened ChipMemory
  import opened Bits
  import opened BlitConfig
  import opened BlitFunc
  import opened BlitRegisters
  import F = BlitFast

  /** The minterms that the dispatch tables map to a specialised loop. */
  const SPECIALISED: set<nat> := {
    0x00, 0x0a, 0x2a, 0x30, 0x3a, 0x3c, 0x4a, 0x6a, 0x8a, 0x8c, 0x9a,
    0xa8, 0xaa, 0xb1, 0xca, 0xcc, 0xd8, 0xe2, 0xea, 0xf0, 0xfa, 0xfc }

  /** The formula of the loop, at one bit position. */
  predicate SpecialBit(a: bool, b: bool, c: bool, mt: nat) {
    match mt
    case 0x0a => !a && c
    case 0x2a => c && !(a && b)
    case 0x30 => a && !b
    case 0x3a => b != (a || (b != c))
    case 0x3c => a != b
    case 0x4a => c != (a && (b || c))
    case 0x6a => c != (a && b)
    case 0x8a => c && (!a || b)
    case 0x8c => b && (!a || c)
    case 0x9a => c != (a && !b)
    case 0xa8 => c && (a || b)
    case 0xaa => c
    case 0xb1 => !(a != (c || (a != b)))
    case 0xca => c != (a && (b != c))
    case 0xcc => b
    case 0xd8 => a != (c && (a != b))
    case 0xe2 => c != (b && (a != c))
    case 0xea => c || (a && b)
    case 0xf0 => a
    case 0xfa => a || c
    case 0xfc => a || b
    case _ => false
  }

  /** The sources the loop reads. */
  predicate UsesA(mt: nat) { mt !in {0x00, 0xaa, 0xcc} }
  predicate UsesB(mt: nat) { mt !in {0x00, 0x0a, 0xaa, 0xf0, 0xfa} }
  predicate UsesC(mt: nat) { mt !in {0x00, 0x30, 0x3c, 0xcc, 0xf0, 0xfc} }

  /** Each loop is filed under the minterm it computes. */
  lemma SpecialBitIsFuncBit(a: bool, b: bool, c: bool, mt: nat)
    requires mt in SPECIALISED
    ensures SpecialBit(a, b, c, mt) == FuncBit(a, b, c, mt)
  {
  }

  /** A loop leaves out only sources that its formula ignores. */
  lemma UnusedSources(a: bool, b: bool, c: bool, x: bool, y: bool, z: bool, mt: nat)
    requires mt in SPECIALISED
    requires (UsesA(mt) ==> a == x) && (UsesB(mt) ==> b == y) && (UsesC(mt) ==> c == z)
    ensures SpecialBit(a, b, c, mt) == SpecialBit(x, y, z, mt)
  {
  }

  /** And it leaves out every source that its formula ignores. */
  lemma SourcesNeeded(mt: nat)
    requires mt in SPECIALISED
    ensures UsesA(mt) <==> SpecialBit(false, false, false, mt) != SpecialBit(true, false, false, mt)
                           || SpecialBit(false, false, true, mt) != SpecialBit(true, false, true, mt)
                           || SpecialBit(false, true, false, mt) != SpecialBit(true, true, false, mt)
                           || SpecialBit(false, true, true, mt) != SpecialBit(true, true, true, mt)
    ensures UsesB(mt) <==> SpecialBit(false, false, false, mt) != SpecialBit(false, true, false, mt)
                           || SpecialBit(false, false, true, mt) != SpecialBit(false, true, true, mt)
                           || SpecialBit(true, false, false, mt) != SpecialBit(true, true, false, mt)
                           || SpecialBit(true, false, true, mt) != SpecialBit(true, true, true, mt)
    ensures UsesC(mt) <==> SpecialBit(false, false, false, mt) != SpecialBit(false, false, true, mt)
                           || SpecialBit(false, true, false, mt) != SpecialBit(false, true, true, mt)
                           || SpecialBit(true, false, false, mt) != SpecialBit(true, false, true, mt)
                           || SpecialBit(true, true, false, mt) != SpecialBit(true, true, true, mt)
  {
  }

  // ----- the loops

  /** The fetches of one word: C, then B, then A, of the sources in use. */
  function Fetch(c: Config, mt: nat, mem: seq<Word>, s: F.Sources): F.Sources
    requires c.Valid()
  {
    var s := if UsesC(mt) && s.pc != 0
             then s.(cdat := Get(mem, c.span, s.pc), pc := Wrap(s.pc + c.Stride())) else s;
    var s := if UsesB(mt) then F.FetchB(c, mem, s) else s;
    if UsesA(mt) then F.FetchA(c, mem, s) else s
  }

  /** The formula applied at every bit position. */
  function SpecialFunc(a: Long, b: Long, w: Long, mt: nat): Long {
    seq(32, i requires 0 <= i < 32 => SpecialBit(a[i], b[i], w[i], mt))
  }

  /** The word of column `i`; the A register takes part only if A is in use. */
  function Special(c: Config, mt: nat, u: Alu, i: nat, s: F.Sources): (Word, Alu) {
    var masked := if UsesA(mt) then c.path.mask(i, s.adat) else u.preva;
    var d := Low(SpecialFunc(c.path.shiftA(u.preva, masked), s.bhold, Widen(s.cdat), mt));
    (d, Alu(masked, u.carry, u.zero && d == ZERO))
  }

  function SpecialWord(c: Config, mt: nat, s: F.Fast, i: nat): F.Fast
    requires c.Valid()
  {
    var src := Fetch(c, mt, s.mem, s.src);
    var r := Special(c, mt, s.alu, i, src);
    F.Fast(F.Flush(c, s.mem, s.dst), src, r.1, F.Aim(c, s.dst, r.0))
  }

  /** Only the pointers in use advance at a row end. */
  function SpecialRowEnd(c: Config, mt: nat, s: F.Fast): F.Fast {
    s.(src := s.src.(pa := if UsesA(mt) then F.AddMod(c, s.src.pa, c.amod) else s.src.pa,
                     pb := if UsesB(mt) then F.AddMod(c, s.src.pb, c.bmod) else s.src.pb,
                     pc := if UsesC(mt) then F.AddMod(c, s.src.pc, c.cmod) else s.src.pc),
       dst := s.dst.(pd := F.AddMod(c, s.dst.pd, c.dmod)))
  }

  function SpecialNext(c: Config, mt: nat, s: F.Fast, i: nat): F.Fast
    requires c.Valid()
  {
    var t := SpecialWord(c, mt, s, i);
    if i + 1 == c.hsize then SpecialRowEnd(c, mt, t) else t
  }

  function SpecialWords(c: Config, mt: nat, s: F.Fast, i: nat, n: nat): F.Fast
    requires c.Valid()
    decreases n
  {
    if n == 0 then s else SpecialWords(c, mt, SpecialNext(c, mt, s, i), F.Succ(c, i), n - 1)
  }

  function SpecialBlit(c: Config, mt: nat, s: F.Fast): F.Fast
    requires c.Valid()
  {
    var t := SpecialWords(c, mt, s, 0, c.hsize * c.vsize);
    t.(mem := F.Flush(c, t.mem, t.dst))
  }

  // ----- and the generic loop

  /** The configuration's logic unit computes minterm `mt`. */
  ghost predicate Computes(c: Config, mt: nat) {
    forall a, b, w :: c.path.logic(a, b, w) == Low(Func(a, b, Widen(w), mt))
  }

  /** Equal in everything the loop for `mt` touches. */
  ghost predicate Alike(mt: nat, x: F.Fast, y: F.Fast) {
    && x.mem == y.mem && x.dst == y.dst && x.alu.zero == y.alu.zero
    && (UsesA(mt) ==> x.src.pa == y.src.pa && x.src.adat == y.src.adat && x.alu.preva == y.alu.preva)
    && (UsesB(mt) ==> x.src.pb == y.src.pb && x.src.bhold == y.src.bhold && x.src.prevb == y.src.prevb)
    && (UsesC(mt) ==> x.src.pc == y.src.pc && x.src.cdat == y.src.cdat)
  }

  /** The low word of the formula ignores unused sources. */
  lemma SameD(mt: nat, a: Long, b: Long, w: Word, x: Long, y: Long, z: Word)
    requires mt in SPECIALISED
    requires (UsesA(mt) ==> a == x) && (UsesB(mt) ==> b == y) && (UsesC(mt) ==> w == z)
    ensures Low(SpecialFunc(a, b, Widen(w), mt)) == Low(Func(x, y, Widen(z), mt))
  {
    var l, r := Low(SpecialFunc(a, b, Widen(w), mt)), Low(Func(x, y, Widen(z), mt));
    forall i | 0 <= i < 16
      ensures l[i] == r[i]
    {
      hide SpecialBit, FuncBit, UsesA, UsesB, UsesC;
      UnusedSources(a[i], b[i], w[i], x[i], y[i], z[i], mt);
      SpecialBitIsFuncBit(x[i], y[i], z[i], mt);
    }
  }

  lemma ComputesAt(c: Config, mt: nat, a: Long, b: Long, w: Word)
    requires Computes(c, mt)
    ensures c.path.logic(a, b, w) == Low(Func(a, b, Widen(w), mt))
  {
    hide Func, Low, Widen;
  }

  /** The fetches of the three channels do not touch each other's fields. */
  lemma FetchFields(c: Config, mt: nat, mem: seq<Word>, x: F.Sources)
    requires c.Valid()
    ensures var s := Fetch(c, mt, mem, x);
            && (UsesA(mt) ==> s.pa == F.FetchA(c, mem, x).pa && s.adat == F.FetchA(c, mem, x).adat)
            && (UsesB(mt) ==> s.pb == F.FetchB(c, mem, x).pb && s.bhold == F.FetchB(c, mem, x).bhold
                              && s.prevb == F.FetchB(c, mem, x).prevb)
            && (UsesC(mt) ==> s.pc == F.FetchC(c, mem, x).pc && s.cdat == F.FetchC(c, mem, x).cdat)
  {
    hide UsesA, UsesB, UsesC, Get, Wrap;
  }

  lemma FetchAllFields(c: Config, mem: seq<Word>, y: F.Sources)
    requires c.Valid()
    ensures var f := F.FetchAll(c, mem, y);
            && f.pa == F.FetchA(c, mem, y).pa && f.adat == F.FetchA(c, mem, y).adat
            && f.pb == F.FetchB(c, mem, y).pb && f.bhold == F.FetchB(c, mem, y).bhold
            && f.prevb == F.FetchB(c, mem, y).prevb
            && f.pc == F.FetchC(c, mem, y).pc && f.cdat == F.FetchC(c, mem, y).cdat
  {
    hide Get, Wrap;
  }

  lemma FetchAlike(c: Config, mt: nat, mem: seq<Word>, x: F.Sources, y: F.Sources)
    requires c.Valid()
    requires UsesA(mt) ==> x.pa == y.pa && x.adat == y.adat
    requires UsesB(mt) ==> x.pb == y.pb && x.bhold == y.bhold && x.prevb == y.prevb
    requires UsesC(mt) ==> x.pc == y.pc && x.cdat == y.cdat
    ensures var s := Fetch(c, mt, mem, x); var f := F.FetchAll(c, mem, y);
            && (UsesA(mt) ==> s.pa == f.pa && s.adat == f.adat)
            && (UsesB(mt) ==> s.pb == f.pb && s.bhold == f.bhold && s.prevb == f.prevb)
            && (UsesC(mt) ==> s.pc == f.pc && s.cdat == f.cdat)
  {
    hide UsesA, UsesB, UsesC, Get, Wrap, Fetch, F.FetchAll;
    FetchFields(c, mt, mem, x);
    FetchAllFields(c, mem, y);
  }

  /** One word, before any row end. */
  lemma WordAlike(c: Config, mt: nat, x: F.Fast, y: F.Fast, i: nat)
    requires c.Valid() && Computes(c, mt) && mt in SPECIALISED && !c.fillMode && Alike(mt, x, y)
    ensures Alike(mt, SpecialWord(c, mt, x, i), F.OneWord(c, y, i))
  {
    hide SpecialFunc, Func, UsesA, UsesB, UsesC, Low, Widen, F.Flush, F.Aim, Computes, Fetch, F.FetchAll;
    var f := F.FetchAll(c, y.mem, y.src);
    var s := Fetch(c, mt, x.mem, x.src);
    FetchAlike(c, mt, x.mem, x.src, y.src);
    var ma := if UsesA(mt) then c.path.mask(i, s.adat) else x.alu.preva;
    var sa := c.path.shiftA(x.alu.preva, ma);
    var sb := c.path.shiftA(y.alu.preva, c.path.mask(i, f.adat));
    SameD(mt, sa, s.bhold, s.cdat, sb, f.bhold, f.cdat);
    ComputesAt(c, mt, sb, f.bhold, f.cdat);
  }

  lemma NextAlike(c: Config, mt: nat, x: F.Fast, y: F.Fast, i: nat)
    requires c.Valid() && Computes(c, mt) && mt in SPECIALISED && !c.fillMode && Alike(mt, x, y)
    ensures Alike(mt, SpecialNext(c, mt, x, i), F.Next(c, y, i))
  {
    hide UsesA, UsesB, UsesC, F.AddMod, Computes, SpecialWord, F.OneWord;
    WordAlike(c, mt, x, if i == 0 then F.RowStart(c, y) else y, i);
  }

  lemma {:induction false} WordsAlike(c: Config, mt: nat, x: F.Fast, y: F.Fast, i: nat, n: nat)
    requires c.Valid() && Computes(c, mt) && mt in SPECIALISED && !c.fillMode && Alike(mt, x, y)
    ensures Alike(mt, SpecialWords(c, mt, x, i, n), F.Words(c, y, i, n))
    decreases n
  {
    hide SpecialNext, F.Next, Alike, Computes;
    if n > 0 {
      NextAlike(c, mt, x, y, i);
      WordsAlike(c, mt, SpecialNext(c, mt, x, i), F.Next(c, y, i), F.Succ(c, i), n - 1);
    } else {
      assert SpecialWords(c, mt, x, i, 0) == x && F.Words(c, y, i, 0) == y;
    }
  }

  /** For all sizes, data, modulos, overlaps and both directions, the loop the
      tables select leaves the same memory and blitzero as the generic one. */
  lemma SpecialisedIsGeneric(c: Config, mt: nat, s: F.Fast)
    requires c.Valid() && Computes(c, mt) && mt in SPECIALISED && !c.fillMode
    ensures var x := SpecialBlit(c, mt, s); var y := F.Blit(c, s);
            x.mem == y.mem && x.alu.zero == y.alu.zero
  {
    hide SpecialWords, F.Words, Computes, UsesA, UsesB, UsesC;
    WordsAlike(c, mt, s, s, 0, c.hsize * c.vsize);
  }

  /** The registers select the formula that is dispatched on. */
  lemma RegistersCompute(r: Registers)
    requires |r.table| == 1024
    ensures Computes(Configure(r), r.MinTerm())
  {
    hide Func, Low, Widen;
  }
}
