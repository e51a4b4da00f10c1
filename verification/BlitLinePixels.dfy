/** What a line draws: every word it writes, bit by bit from the registers, and
    for an ordinary line the pixels it sets and clears. */
module BlitLinePixels {
  import opened ChipMemory
  import opened Bits
  import opened BlitExact
  import opened BlitFunc
  import opened BlitFields
  import opened BlitLine
  import opened BlitLineGeometry

  datatype LineRegisters = LineRegisters(
    con0: Word, con1: Word, amod: int, bmod: int, cmod: int, texture: Word, afwm: Word, span: nat)
  {
    /** The low byte of BLTCON0. */
    function MinTerm(): nat { Value(con0[..8]) }
  }

  /** The configuration of a line. */
  function LineConfig(r: LineRegisters): Config {
    Config(r.con0[11], r.con0[9], r.con1[4], r.con1[3], r.con1[2], r.con1[1],
           r.amod, r.bmod, r.cmod, r.texture, r.afwm, r.span,
           (a, b, w) => Low(Func(Widen(a), Widen(b), Widen(w), r.MinTerm())))
  }

  /** Where a line stands after `k` pixels and `m` minor steps: to the right and
      down, by the three octant bits of BLTCON1. */
  function Displacement(con1: Word, k: int, m: int): (int, int) {
    match Value(con1) / 4 % 8
    case 0 => (m, k)
    case 1 => (m, -k)
    case 2 => (-m, k)
    case 3 => (-m, -k)
    case 4 => (k, m)
    case 5 => (-k, m)
    case 6 => (k, -m)
    case _ => (-k, -m)
  }

  lemma OctantIs(con1: Word)
    ensures Value(con1) / 4 % 8 == (if con1[2] then 1 else 0) + (if con1[3] then 2 else 0) + (if con1[4] then 4 else 0)
  {
    hide Value;
    Powers();
    BitByDivision(con1, 2);
    Halve(con1[2..]);
    Halve(con1[3..]);
    Halve(con1[4..]);
    assert con1[2..][1..] == con1[3..] && con1[3..][1..] == con1[4..] && con1[4..][1..] == con1[5..];
  }

  lemma DisplacementIs(r: LineRegisters, k: nat, m: nat)
    ensures var c := LineConfig(r); Displacement(r.con1, k, m) == (Column(c, k, m), Row(c, k, m))
  {
    hide Value, LineRegisters.MinTerm;
    OctantIs(r.con1);
  }

  // ----- one word

  /** Bit `i` of the texture behind its mask, moved down by the shift. */
  predicate TextureBit(r: LineRegisters, shift: int, i: nat)
    requires 0 <= shift < 16
  {
    i + shift < 16 && r.texture[i + shift] && r.afwm[i + shift]
  }

  /** The word that a pixel makes of the C word `w`. */
  function LineWord(r: LineRegisters, shift: int, b: bool, w: Word): Word
    requires 0 <= shift < 16
  {
    seq(16, i requires 0 <= i < 16 => Selected(Value(r.con0) % 0x100, TextureBit(r, shift, i), b, w[i]))
  }

  lemma LineMinTerm(r: LineRegisters)
    ensures r.MinTerm() == Value(r.con0) % 0x100
  {
    LowByte(r.con0);
  }

  lemma LogicBit(r: LineRegisters, a: Word, b: Word, w: Word, i: nat)
    requires i < 16
    ensures LineConfig(r).logic(a, b, w)[i] == Selected(Value(r.con0) % 0x100, a[i], b[i], w[i])
  {
    hide FuncBit, Selected, Value;
    LineMinTerm(r);
    FuncBitSelects(a[i], b[i], w[i], r.MinTerm());
    assert Widen(a)[i] == a[i] && Widen(b)[i] == b[i] && Widen(w)[i] == w[i];
    var x, y, z := Widen(a), Widen(b), Widen(w);
    assert LineConfig(r).logic(a, b, w) == Low(Func(x, y, z, r.MinTerm()));
    assert Func(x, y, z, r.MinTerm())[i] == FuncBit(x[i], y[i], z[i], r.MinTerm());
  }

  lemma TextureIs(r: LineRegisters)
    ensures var c := LineConfig(r); c.texture == r.texture && c.afwm == r.afwm && c.span == r.span && c.cmod == r.cmod
  {
  }

  /** Bit by bit: the minterm byte at the masked texture moved down by the
      shift, the pattern bit, and the C word. */
  lemma PlottedWord(r: LineRegisters, p: Pen)
    requires 0 <= p.shift < 16
    ensures Plot(LineConfig(r), p).ddat == LineWord(r, p.shift, p.pattern[0], p.cdat)
  {
    hide Selected, LineConfig, Value;
    var c := LineConfig(r);
    assert c.texture == r.texture && c.afwm == r.afwm by { TextureIs(r); }
    var a := Shifted(Mask(c.texture, c.afwm), p.shift);
    var b := if p.pattern[0] then ONES else ZERO;
    var d, e := c.logic(a, b, p.cdat), LineWord(r, p.shift, p.pattern[0], p.cdat);
    forall i | 0 <= i < 16
      ensures d[i] == e[i]
    {
      LogicBit(r, a, b, p.cdat, i);
    }
    assert d == e;
  }

  // ----- the whole line

  /** A pen as a line is started with it: before the first pixel. */
  ghost predicate Fresh(p: Pen, bdat: Word, bshift: nat) {
    && bshift < 16 && Turned(p.pattern, bdat, bshift)
    && p.dots == 0 && !p.started && 0 <= p.shift < 16 && p.cpt < 0x1_0000_0000
  }

  /** Where pixel `k` stands. */
  ghost function Stand(r: LineRegisters, p: Pen, k: nat): (int, int)
    requires r.span > 0 && k <= p.left
  {
    Displacement(r.con1, k, MinorSteps(LineConfig(r), p, k))
  }

  /** The column of pixel `k` in its word. */
  ghost function ColumnOf(r: LineRegisters, p: Pen, k: nat): (x: int)
    requires r.span > 0 && k <= p.left
    ensures 0 <= x < 16
  {
    (p.shift + Stand(r, p, k).0) % 16
  }

  /** The address of its word. */
  ghost function PlaceOf(r: LineRegisters, p: Pen, k: nat): nat
    requires r.span > 0 && k <= p.left
  {
    var s := Stand(r, p, k);
    (p.cpt + 2 * ((p.shift + s.0) / 16) + s.1 * r.cmod) % 0x1_0000_0000
  }

  /** Whether pixel `k` gives a word: in one-dot mode only the first one of a
      row. */
  ghost predicate Dotted(r: LineRegisters, p: Pen, k: nat)
    requires r.span > 0 && k <= p.left
  {
    Flag(r.con1, 2) && k > 0 ==> Stand(r, p, k).1 != Stand(r, p, k - 1).1
  }

  /** Whether it is written: only with C on. */
  ghost predicate Drawn(r: LineRegisters, p: Pen, k: nat)
    requires r.span > 0 && k <= p.left
  {
    Flag(r.con0, 0x200) && Dotted(r, p, k)
  }

  /** The word of pixel `k` over the memory `m`. */
  ghost function WordOf(r: LineRegisters, p: Pen, bdat: Word, bshift: nat, m: seq<Word>, k: nat): Word
    requires r.span > 0 && k <= p.left
  {
    LineWord(r, ColumnOf(r, p, k), BitOf(bdat, bshift - k),
             if Flag(r.con0, 0x200) then Get(m, r.span, PlaceOf(r, p, k)) else p.cdat)
  }

  /** The memory after `k` pixels.  The first word goes where BLTDPT points, the
      others where they came from. */
  ghost function Canvas(r: LineRegisters, p: Pen, bdat: Word, bshift: nat, k: nat): seq<Word>
    requires r.span > 0 && k <= p.left
  {
    if k == 0 then p.mem
    else
      var m := Canvas(r, p, bdat, bshift, k - 1);
      if Drawn(r, p, k - 1) then
        Put(m, r.span, if k == 1 then p.dpt else PlaceOf(r, p, k - 1), WordOf(r, p, bdat, bshift, m, k - 1))
      else m
  }

  /** Every word of the first `k` pixels is zero. */
  ghost predicate Blank(r: LineRegisters, p: Pen, bdat: Word, bshift: nat, k: nat)
    requires r.span > 0 && k <= p.left
  {
    forall h: nat :: h < k && Dotted(r, p, h) ==> WordOf(r, p, bdat, bshift, Canvas(r, p, bdat, bshift, h), h) == ZERO
  }

  /** Only position and dot count differ. */
  ghost predicate SamePlot(p: Pen, q: Pen) {
    q.mem == p.mem && q.dpt == p.dpt && q.ddat == p.ddat && q.pixel == p.pixel && q.started == p.started
    && q.cdat == p.cdat && q.zero == p.zero
  }

  lemma StepsKeep(c: Config, p: Pen, back: bool)
    ensures SamePlot(p, StepX(p, back)) && StepX(p, back).dots == p.dots
    ensures SamePlot(p, StepY(c, p, back)) && StepY(c, p, back).dots == 0
  {
    hide Wrap;
  }

  lemma SamePlots(p: Pen, q0: Pen, q1: Pen, q2: Pen)
    requires q0 == p.(apt := q0.apt) && (q1 == q0 || SamePlot(q0, q1)) && SamePlot(q1, q2)
    ensures forall sign: bool :: SamePlot(p, q2.(sign := sign))
  {
  }

  lemma AdvanceKeeps(c: Config, p: Pen)
    ensures var q := Advance(c, p); SamePlot(p, q) && q.dots == if c.xMajor && p.sign then p.dots else 0
  {
    hide Wrap, Negative, StepX, StepY, SamePlot;
    var q0 := if c.useA then p.(apt := Wrap(p.apt + if p.sign then c.bmod else c.amod)) else p;
    StepsKeep(c, q0, c.minorBack);
    var q1 := if p.sign then q0 else if c.xMajor then StepY(c, q0, c.minorBack) else StepX(q0, c.minorBack);
    StepsKeep(c, q1, c.majorBack);
    var q2 := if c.xMajor then StepX(q1, c.majorBack) else StepY(c, q1, c.majorBack);
    SamePlots(p, q0, q1, q2);
  }

  /** What a pixel writes, and what it leaves for the next. */
  lemma PixelParts(c: Config, p: Pen)
    requires c.span > 0 && p.left > 0
    ensures var u := Plot(c, Follow(Read(c, p))); var t := Pixel(c, p);
            && t.mem == (if u.pixel && c.useC then Put(p.mem, c.span, u.dpt, u.ddat) else p.mem)
            && u.pixel == (!c.single || p.dots == 0) && u.dpt == (if p.started then p.cpt else p.dpt)
            && t.started && t.dots == (if c.xMajor && p.sign then p.dots + 1 else 0) && (!p.pixel ==> !t.pixel)
            && t.cdat == (if c.useC then Get(p.mem, c.span, p.cpt) else p.cdat)
            && t.zero == (p.zero && (u.pixel ==> u.ddat == ZERO))
  {
    hide Advance, Shifted, Mask, Put, Get, Rotate;
    FollowLeft(c, p);
    var u := Plot(c, Follow(Read(c, p)));
    AdvanceKeeps(c, u);
    AdvanceLeft(c, u);
  }

  lemma PixelWord(r: LineRegisters, p: Pen)
    requires r.span > 0 && p.left > 0 && 0 <= p.shift < 16
    ensures var c := LineConfig(r);
            Plot(c, Follow(Read(c, p))).ddat
            == LineWord(r, p.shift, p.pattern[0], if c.useC then Get(p.mem, r.span, p.cpt) else p.cdat)
  {
    hide Plot, Get, LineWord;
    PlottedWord(r, Follow(Read(LineConfig(r), p)));
  }

  /** The state before pixel `k`. */
  ghost predicate Standing(r: LineRegisters, p: Pen, bdat: Word, bshift: nat, k: nat)
    requires r.span > 0 && k <= p.left
  {
    var c := LineConfig(r); var q := After(c, p, k);
    && q.started == (k > 0) && (k == 0 ==> q.dpt == p.dpt)
    && q.mem == Canvas(r, p, bdat, bshift, k)
    && (q.dots == 0 <==> (k > 0 ==> Stand(r, p, k).1 != Stand(r, p, k - 1).1))
    && (!c.useC ==> q.cdat == p.cdat) && q.zero == (p.zero && Blank(r, p, bdat, bshift, k))
  }

  lemma RowMoves(r: LineRegisters, p: Pen, k: nat)
    requires r.span > 0 && k < p.left
    ensures var c := LineConfig(r);
            Stand(r, p, k + 1).1 != Stand(r, p, k).1 <==> !(c.xMajor && After(c, p, k).sign)
  {
    hide After, LineConfig, Displacement;
    var c := LineConfig(r);
    TextureIs(r);
    var m := MinorSteps(c, p, k);
    assert MinorSteps(c, p, k + 1) == m + if After(c, p, k).sign then 0 else 1;
    DisplacementIs(r, k, m);
    DisplacementIs(r, k + 1, MinorSteps(c, p, k + 1));
  }

  lemma StandsWhere(r: LineRegisters, p: Pen, bdat: Word, bshift: nat, k: nat)
    requires r.span > 0 && k <= p.left && Fresh(p, bdat, bshift)
    ensures var q := After(LineConfig(r), p, k);
            q.shift == ColumnOf(r, p, k) && q.cpt == PlaceOf(r, p, k) && q.pattern[0] == BitOf(bdat, bshift - k)
  {
    hide After, MinorSteps, LineConfig, Displacement, BitOf, Rotate;
    var c := LineConfig(r);
    assert c.cmod == r.cmod && c.span == r.span by { TextureIs(r); }
    DisplacementIs(r, k, MinorSteps(c, p, k));
    PathOfLine(c, p, k);
    PatternTurns(c, p, bdat, bshift, k);
  }

  lemma BlankFirst(r: LineRegisters, p: Pen, bdat: Word, bshift: nat)
    requires r.span > 0
    ensures Blank(r, p, bdat, bshift, 0)
  {
  }

  lemma BlankNext(r: LineRegisters, p: Pen, bdat: Word, bshift: nat, k: nat)
    requires r.span > 0 && k < p.left
    ensures Blank(r, p, bdat, bshift, k + 1)
       <==> Blank(r, p, bdat, bshift, k)
            && (Dotted(r, p, k) ==> WordOf(r, p, bdat, bshift, Canvas(r, p, bdat, bshift, k), k) == ZERO)
  {
    hide Canvas, WordOf, Dotted;
  }

  lemma DrawnIs(r: LineRegisters)
    ensures LineConfig(r).useC == Flag(r.con0, 0x200) && LineConfig(r).single == Flag(r.con1, 2)
  {
    hide Flag, LineRegisters.MinTerm;
    Powers();
    FlagIs(r.con0, 9);
    FlagIs(r.con1, 1);
  }

  lemma {:induction false} CanvasIs(r: LineRegisters, p: Pen, bdat: Word, bshift: nat, k: nat)
    requires r.span > 0 && k <= p.left && Fresh(p, bdat, bshift)
    ensures Standing(r, p, bdat, bshift, k)
    decreases k
  {
    hide Pixel, MinorSteps, LineConfig, Displacement, Plot, Get, Put, LineWord, BitOf, Blank;
    BlankFirst(r, p, bdat, bshift);
    if k > 0 {
      CanvasIs(r, p, bdat, bshift, k - 1);
      TextureIs(r);
      var c := LineConfig(r);
      var q := After(c, p, k - 1);
      StandsWhere(r, p, bdat, bshift, k - 1);
      PixelParts(c, q);
      PixelWord(r, q);
      RowMoves(r, p, k - 1);
      DrawnIs(r);
      BlankNext(r, p, bdat, bshift, k - 1);
    }
  }

  lemma {:induction false} PixelsFrom(c: Config, p: Pen, k: nat)
    requires c.span > 0 && k <= p.left
    ensures Pixels(c, After(c, p, k)) == After(c, p, p.left)
    decreases p.left - k
  {
    hide Pixel;
    if k < p.left {
      PixelsFrom(c, p, k + 1);
    }
  }

  lemma DrawIs(c: Config, p: Pen)
    requires c.span > 0
    ensures Draw(c, p).mem == After(c, p, p.left).mem && Draw(c, p).zero == After(c, p, p.left).zero
  {
    hide Pixels;
    PixelsFrom(c, p, 0);
  }

  /** The start of a line, the pattern turned by the B shift. */
  lemma StartIsFresh(mem: seq<Word>, apt: nat, cpt: nat, dpt: nat, bdat: Word, cdat: Word, ddat: Word,
                     ashift: nat, bshift: nat, sign: bool, left: nat)
    requires ashift < 16 && bshift < 16 && cpt < 0x1_0000_0000
    ensures var p := StartPen(mem, apt, cpt, dpt, bdat, cdat, ddat, ashift, bshift, sign, left);
            Fresh(p, bdat, bshift) && p.zero && p.left == left && p.sign == sign && p.shift == ashift
            && p.mem == mem && p.apt == apt && p.cpt == cpt && p.dpt == dpt && p.cdat == cdat
  {
    hide StartPattern, BitOf;
    forall h | 0 <= h < 16
      ensures StartPattern(bdat, bshift)[h] == BitOf(bdat, h + bshift)
    {
      StartBit(bdat, bshift, h);
    }
  }

  /** For every sequence of grants: a completed line leaves exactly the words
      that its registers give, and blitzero if all of them are zero, in the
      cycle-exact form and in the immediate one. */
  lemma LineDraws(r: LineRegisters, p: Pen, bdat: Word, bshift: nat, copper: bool, gs: seq<Grant>)
    requires r.span > 0 && p.left > 0 && Fresh(p, bdat, bshift)
    ensures var c := LineConfig(r); var t := LineRun(c, LineStart(p, copper), gs); var q := DoIt(c, 2, p);
            && q.mem == Canvas(r, p, bdat, bshift, p.left) && q.zero == (p.zero && Blank(r, p, bdat, bshift, p.left))
            && (t.done ==> t.pen.mem == q.mem && t.pen.zero == q.zero)
  {
    hide Draw, LineRun, Canvas, LineConfig, After, Fresh, Blank;
    TextureIs(r);
    LineRefinesImmediate(LineConfig(r), p, copper, gs);
    DrawIs(LineConfig(r), p);
    CanvasIs(r, p, bdat, bshift, p.left);
  }

  // ----- ordinary lines

  /** Minterm 0xCA, one dot of texture. */
  ghost predicate Ordinary(r: LineRegisters) {
    Value(r.con0) % 0x100 == 0xCA && r.texture == Zeros(15) + [true] && r.afwm[15]
  }

  lemma CookieCut(a: bool, b: bool, w: bool)
    ensures Selected(0xCA, a, b, w) == if a then b else w
  {
  }

  /** An ordinary line changes one bit of the word: the one of its column, to
      the pattern bit. */
  lemma OneBit(r: LineRegisters, shift: int, b: bool, w: Word)
    requires 0 <= shift < 16 && Ordinary(r)
    ensures LineWord(r, shift, b, w) == w[15 - shift := b]
  {
    hide Selected, Value;
    var d := LineWord(r, shift, b, w);
    forall i | 0 <= i < 16
      ensures d[i] == w[15 - shift := b][i]
    {
      CookieCut(TextureBit(r, shift, i), b, w[i]);
    }
  }

  /** Pixel `k` is drawn on bit `i` of cell `x`. */
  ghost predicate Hits(r: LineRegisters, p: Pen, k: nat, x: nat, i: nat)
    requires r.span > 0 && k <= p.left
  {
    Drawn(r, p, k) && (PlaceOf(r, p, k) % r.span) / 2 == x && ColumnOf(r, p, k) == 15 - i
  }

  /** The bit after `k` pixels: the pattern bit of the last one on it. */
  ghost function Shade(r: LineRegisters, p: Pen, bdat: Word, bshift: nat, x: nat, i: nat, k: nat): bool
    requires r.span > 0 && k <= p.left && x < |p.mem| && i < 16
  {
    if k == 0 then p.mem[x][i]
    else if Hits(r, p, k - 1, x, i) then BitOf(bdat, bshift - (k - 1))
    else Shade(r, p, bdat, bshift, x, i, k - 1)
  }

  lemma FirstPlace(r: LineRegisters, p: Pen)
    requires r.span > 0 && 0 <= p.shift < 16 && p.cpt < 0x1_0000_0000
    ensures PlaceOf(r, p, 0) == p.cpt
  {
    hide Value, LineConfig;
    assert MinorSteps(LineConfig(r), p, 0) == 0 by { TextureIs(r); }
    assert Displacement(r.con1, 0, 0) == (0, 0);
  }

  lemma PutBit(m: seq<Word>, span: nat, a: nat, b: bool, s: int, x: nat, i: nat)
    requires span > 0 && 0 <= s < 16 && x < |m| && i < 16
    ensures var n := Put(m, span, a, Get(m, span, a)[15 - s := b]);
            |n| == |m| && n[x][i] == if (a % span) / 2 == x && s == 15 - i then b else m[x][i]
  {
  }

  /** In an ordinary line whose C and D pointers start equal, every bit of the
      memory is the pattern bit of the last pixel drawn on it, and the bits no
      pixel is drawn on stay. */
  lemma {:induction false} Shades(r: LineRegisters, p: Pen, bdat: Word, bshift: nat, x: nat, i: nat, k: nat)
    requires r.span > 0 && k <= p.left && Fresh(p, bdat, bshift) && Ordinary(r) && p.dpt == p.cpt
    requires x < |p.mem| && i < 16
    ensures var m := Canvas(r, p, bdat, bshift, k);
            |m| == |p.mem| && m[x][i] == Shade(r, p, bdat, bshift, x, i, k)
    decreases k
  {
    hide Put, Get, LineWord, Ordinary, PlaceOf, ColumnOf, Dotted, Flag, BitOf;
    if k > 0 {
      Shades(r, p, bdat, bshift, x, i, k - 1);
      FirstPlace(r, p);
      var m := Canvas(r, p, bdat, bshift, k - 1);
      var a, s, b := PlaceOf(r, p, k - 1), ColumnOf(r, p, k - 1), BitOf(bdat, bshift - (k - 1));
      OneBit(r, s, b, Get(m, r.span, a));
      PutBit(m, r.span, a, b, s, x, i);
    }
  }
}
