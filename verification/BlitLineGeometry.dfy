/** Where the line goes: the pixel address moves one column or one row at a
    time, and stays within half a pixel of the ideal line. */
module BlitLineGeometry {
  import opened ChipMemory
  import opened Bits
  import opened BlitLine

  /** The pixel at a displacement of `x` columns and `y` rows from column `s0`
      of the word at `base`. */
  ghost predicate At(c: Config, p: Pen, base: nat, s0: int, x: int, y: int) {
    && p.shift == (s0 + x) % 16
    && p.cpt == Wrap(base + 2 * ((s0 + x) / 16) + y * c.cmod)
  }

  function Direction(back: bool): int { if back then -1 else 1 }

  function Toward(back: bool, n: int): int { if back then -n else n }

  lemma Neighbours(v: int)
    ensures if v % 16 == 15 then (v + 1) % 16 == 0 && (v + 1) / 16 == v / 16 + 1
            else (v + 1) % 16 == v % 16 + 1 && (v + 1) / 16 == v / 16
    ensures if v % 16 == 0 then (v - 1) % 16 == 15 && (v - 1) / 16 == v / 16 - 1
            else (v - 1) % 16 == v % 16 - 1 && (v - 1) / 16 == v / 16
  {
  }

  lemma StepXMoves(c: Config, p: Pen, back: bool, base: nat, s0: int, x: int, y: int)
    requires At(c, p, base, s0, x, y)
    ensures At(c, StepX(p, back), base, s0, x + Direction(back), y)
  {
    hide Wrap;
    var a := base + 2 * ((s0 + x) / 16) + y * c.cmod;
    WrapAdd(a, 2);
    WrapAdd(a, -2);
    Neighbours(s0 + x);
  }

  lemma StepYMoves(c: Config, p: Pen, back: bool, base: nat, s0: int, x: int, y: int)
    requires At(c, p, base, s0, x, y)
    ensures At(c, StepY(c, p, back), base, s0, x, y + Direction(back))
  {
    var a := base + 2 * ((s0 + x) / 16) + y * c.cmod;
    WrapAdd(a, c.cmod);
    WrapAdd(a, -c.cmod);
    assert (y + 1) * c.cmod == y * c.cmod + c.cmod;
    assert (y - 1) * c.cmod == y * c.cmod - c.cmod;
  }

  /** The displacement after `n` major and `m` minor steps. */
  function Column(c: Config, n: int, m: int): int {
    if c.xMajor then Toward(c.majorBack, n) else Toward(c.minorBack, m)
  }

  function Row(c: Config, n: int, m: int): int {
    if c.xMajor then Toward(c.minorBack, m) else Toward(c.majorBack, n)
  }

  lemma FollowLeft(c: Config, p: Pen)
    requires c.span > 0
    ensures Follow(Read(c, p)).left == p.left
  {
    hide Get;
  }

  lemma PixelIs(c: Config, p: Pen)
    requires c.span > 0 && p.left > 0
    ensures var q := Advance(c, Plot(c, Follow(Read(c, p)))); var t := Pixel(c, p);
            t.cpt == q.cpt && t.shift == q.shift && t.apt == q.apt && t.sign == q.sign
  {
    hide Advance, Plot, Follow, Read, Put, Rotate;
    AdvanceLeft(c, Plot(c, Follow(Read(c, p))));
    PlotLeft(c, Follow(Read(c, p)));
    assert Follow(Read(c, p)).left == p.left by { FollowLeft(c, p); }
  }

  lemma AtDepends(c: Config, p: Pen, q: Pen, base: nat, s0: int, x: int, y: int)
    requires p.cpt == q.cpt && p.shift == q.shift
    ensures At(c, p, base, s0, x, y) == At(c, q, base, s0, x, y)
  {
    hide Wrap;
  }

  lemma AdvanceAccumulates(c: Config, p: Pen)
    ensures var q := Advance(c, p);
            && q.apt == (if c.useA then Wrap(p.apt + if p.sign then c.bmod else c.amod) else p.apt)
            && q.sign == Negative(q.apt)
  {
    hide Wrap, Negative;
  }

  lemma AdvanceMoves(c: Config, p: Pen, base: nat, s0: int, n: int, m: int)
    requires At(c, p, base, s0, Column(c, n, m), Row(c, n, m))
    ensures var q := Advance(c, p); var m' := if p.sign then m else m + 1;
            && At(c, q, base, s0, Column(c, n + 1, m'), Row(c, n + 1, m'))
            && q.apt == (if c.useA then Wrap(p.apt + if p.sign then c.bmod else c.amod) else p.apt)
            && q.sign == Negative(q.apt)
  {
    hide At, Wrap, Negative, StepX, StepY;
    AdvanceAccumulates(c, p);
    var q0 := if c.useA then p.(apt := Wrap(p.apt + if p.sign then c.bmod else c.amod)) else p;
    AtDepends(c, p, q0, base, s0, Column(c, n, m), Row(c, n, m));
    var x, y := Column(c, n, m), Row(c, n, m);
    var q1 := if p.sign then q0 else if c.xMajor then StepY(c, q0, c.minorBack) else StepX(q0, c.minorBack);
    var q2 := if c.xMajor then StepX(q1, c.majorBack) else StepY(c, q1, c.majorBack);
    var m' := if p.sign then m else m + 1;
    var x', y' := Column(c, n + 1, m'), Row(c, n + 1, m');
    if c.xMajor {
      if !p.sign {
        StepYMoves(c, q0, c.minorBack, base, s0, x, y);
      }
      StepXMoves(c, q1, c.majorBack, base, s0, x, y');
    } else {
      if !p.sign {
        StepXMoves(c, q0, c.minorBack, base, s0, x, y);
      }
      StepYMoves(c, q1, c.majorBack, base, s0, x', y);
    }
    assert Advance(c, p) == q2.(sign := Negative(q2.apt));
    AtDepends(c, q2, Advance(c, p), base, s0, x', y');
  }

  /** One pixel is one major step, and a minor step unless the accumulator was
      negative. */
  lemma PixelMoves(c: Config, p: Pen, base: nat, s0: int, n: int, m: int)
    requires c.span > 0 && p.left > 0 && At(c, p, base, s0, Column(c, n, m), Row(c, n, m))
    ensures var q := Pixel(c, p); var m' := if p.sign then m else m + 1;
            && At(c, q, base, s0, Column(c, n + 1, m'), Row(c, n + 1, m'))
            && q.apt == (if c.useA then Wrap(p.apt + if p.sign then c.bmod else c.amod) else p.apt)
            && q.sign == Negative(q.apt) && q.left == p.left - 1
  {
    hide At, Wrap, Shifted, Mask, Put, Get, Rotate, Negative;
    PixelLeft(c, p);
    var r := Plot(c, Follow(Read(c, p)));
    assert r.cpt == p.cpt && r.shift == p.shift && r.apt == p.apt && r.sign == p.sign;
    AtDepends(c, p, r, base, s0, Column(c, n, m), Row(c, n, m));
    AdvanceMoves(c, r, base, s0, n, m);
    var q := Advance(c, r);
    var t := Pixel(c, p);
    assert t.cpt == q.cpt && t.shift == q.shift && t.apt == q.apt && t.sign == q.sign by { PixelIs(c, p); }
    var m' := if p.sign then m else m + 1;
    AtDepends(c, q, t, base, s0, Column(c, n + 1, m'), Row(c, n + 1, m'));
  }

  /** The accumulator's part of one pixel. */
  lemma PixelAccumulates(c: Config, p: Pen)
    requires c.span > 0 && p.left > 0
    ensures var q := Pixel(c, p);
            && q.apt == (if c.useA then Wrap(p.apt + if p.sign then c.bmod else c.amod) else p.apt)
            && q.sign == Negative(q.apt)
  {
    hide Wrap, Shifted, Mask, Put, Get, Rotate, Negative;
    var r := Plot(c, Follow(Read(c, p)));
    assert r.apt == p.apt && r.sign == p.sign;
    AdvanceAccumulates(c, r);
    PixelIs(c, p);
  }

  /** The pen after `k` pixels. */
  ghost function After(c: Config, p: Pen, k: nat): (q: Pen)
    requires c.span > 0 && k <= p.left
    ensures q.left == p.left - k
  {
    if k == 0 then p else
    var q := After(c, p, k - 1);
    PixelLeft(c, q);
    Pixel(c, q)
  }

  /** The minor steps taken in `k` pixels. */
  ghost function MinorSteps(c: Config, p: Pen, k: nat): nat
    requires c.span > 0 && k <= p.left
  {
    if k == 0 then 0
    else MinorSteps(c, p, k - 1) + if After(c, p, k - 1).sign then 0 else 1
  }

  /** After `k` pixels the drawer stands `k` major and `MinorSteps` minor steps
      from where it started, with the shift within the word. */
  lemma {:induction false} PathOfLine(c: Config, p: Pen, k: nat)
    requires c.span > 0 && k <= p.left && 0 <= p.shift < 16 && p.cpt < 0x1_0000_0000
    ensures var q := After(c, p, k); var m := MinorSteps(c, p, k);
            At(c, q, p.cpt, p.shift, Column(c, k, m), Row(c, k, m)) && 0 <= q.shift < 16
  {
    hide Pixel;
    if k > 0 {
      PathOfLine(c, p, k - 1);
      PixelMoves(c, After(c, p, k - 1), p.cpt, p.shift, k - 1, MinorSteps(c, p, k - 1));
    }
  }

  /** The registers are set up for a line of slope dmin/dmaj, and every value
      the accumulator takes fits in 16 bits. */
  ghost predicate Slope(c: Config, p: Pen, dmaj: nat, dmin: nat) {
    && dmin <= dmaj && 4 * dmin < 0x8000 && 4 * (dmaj - dmin) <= 0x8000
    && c.useA && c.bmod == 4 * dmin && c.amod == 4 * (dmin - dmaj)
    && p.apt % 0x1_0000 == (4 * dmin - 2 * dmaj) % 0x1_0000 && p.sign == Negative(p.apt)
  }

  /** The accumulator after `k` pixels, exactly. */
  ghost function Error(dmaj: nat, dmin: nat, k: nat, m: nat): int {
    4 * ((k + 1) * dmin) - 4 * (m * dmaj) - 2 * dmaj
  }

  /** The sign of the low 16 bits of a small number. */
  lemma SignOf(a: nat, e: int)
    requires a % 0x1_0000 == e % 0x1_0000 && -0x8000 <= e < 0x8000
    ensures Negative(a) == (e < 0)
  {
  }

  lemma ErrorStep(dmaj: nat, dmin: nat, k: nat, m: nat)
    ensures Error(dmaj, dmin, k + 1, m) == Error(dmaj, dmin, k, m) + 4 * dmin
    ensures Error(dmaj, dmin, k + 1, m + 1) == Error(dmaj, dmin, k, m) + 4 * (dmin - dmaj)
  {
    assert (k + 2) * dmin == (k + 1) * dmin + dmin;
    assert (m + 1) * dmaj == m * dmaj + dmaj;
  }

  lemma ModAdd(a: int, b: int, d: int)
    requires a % 0x1_0000 == b % 0x1_0000
    ensures (a + d) % 0x1_0000 == (b + d) % 0x1_0000
  {
  }

  lemma WrapLow(a: int)
    ensures Wrap(a) % 0x1_0000 == a % 0x1_0000
  {
  }

  lemma NextError(dmaj: nat, dmin: nat, k: nat, m: nat, a: nat, sign: bool)
    requires dmin <= dmaj && 4 * dmin < 0x8000 && 4 * (dmaj - dmin) <= 0x8000
    requires var e := Error(dmaj, dmin, k, m);
             a % 0x1_0000 == e % 0x1_0000 && 4 * dmin - 4 * dmaj <= e <= 4 * dmin && sign == (e < 0)
    ensures var e := Error(dmaj, dmin, k + 1, if sign then m else m + 1);
            var a' := Wrap(a + if sign then 4 * dmin else 4 * (dmin - dmaj));
            a' % 0x1_0000 == e % 0x1_0000 && 4 * dmin - 4 * dmaj <= e <= 4 * dmin && Negative(a') == (e < 0)
  {
    hide Negative, Wrap;
    var d := if sign then 4 * dmin else 4 * (dmin - dmaj);
    ErrorStep(dmaj, dmin, k, m);
    var e := Error(dmaj, dmin, k, m);
    WrapLow(a + d);
    assert (a + d) % 0x1_0000 == (e + d) % 0x1_0000 by { ModAdd(a, e, d); }
    SignOf(Wrap(a + d), e + d);
  }

  lemma {:induction false} Accumulator(c: Config, p: Pen, k: nat, dmaj: nat, dmin: nat)
    requires c.span > 0 && k <= p.left && Slope(c, p, dmaj, dmin)
    ensures var q := After(c, p, k); var e := Error(dmaj, dmin, k, MinorSteps(c, p, k));
            q.apt % 0x1_0000 == e % 0x1_0000 && 4 * dmin - 4 * dmaj <= e <= 4 * dmin && q.sign == (e < 0)
  {
    hide Pixel, At;
    if k > 0 {
      Accumulator(c, p, k - 1, dmaj, dmin);
      var q := After(c, p, k - 1);
      var m := MinorSteps(c, p, k - 1);
      PixelAccumulates(c, q);
      NextError(dmaj, dmin, k - 1, m, q.apt, q.sign);
    } else {
      assert Error(dmaj, dmin, 0, 0) == 4 * dmin - 2 * dmaj;
      SignOf(p.apt, 4 * dmin - 2 * dmaj);
    }
  }

  lemma SlopeOrder(c: Config, p: Pen, dmaj: nat, dmin: nat)
    requires Slope(c, p, dmaj, dmin)
    ensures dmin <= dmaj
  {
  }

  /** A Bresenham line: after `k` major steps the minor displacement is within
      half a pixel of the ideal k * dmin / dmaj. */
  lemma WithinHalfAPixel(c: Config, p: Pen, k: nat, dmaj: nat, dmin: nat)
    requires c.span > 0 && k <= p.left && Slope(c, p, dmaj, dmin)
    ensures var m := MinorSteps(c, p, k);
            2 * (k * dmin - m * dmaj) <= dmaj && 2 * (m * dmaj - k * dmin) <= dmaj
  {
    hide Slope;
    assert dmin <= dmaj by { SlopeOrder(c, p, dmaj, dmin); }
    Accumulator(c, p, k, dmaj, dmin);
    assert (k + 1) * dmin == k * dmin + dmin;
  }

  // ----- the start of a line and its pattern

  /** blineb at the start: the B data register turned right by its shift. */
  function StartPattern(bdat: Word, shift: nat): Word
    requires shift < 16
  {
    seq(16, i requires 0 <= i < 16 => (i + shift < 16 && bdat[i + shift]) || (i >= 16 - shift && bdat[i + shift - 16]))
  }

  /** blitter_start_init for a line. */
  function StartPen(mem: seq<Word>, apt: nat, cpt: nat, dpt: nat, bdat: Word, cdat: Word, ddat: Word,
                    ashift: nat, bshift: nat, sign: bool, left: nat): Pen
    requires bshift < 16
  {
    Pen(mem, apt, cpt, dpt, cdat, ddat, ashift, StartPattern(bdat, bshift), 0, sign, false, false, true, left)
  }

  /** Bit `i` of a word, counted round it. */
  function BitOf(w: Word, i: int): bool { w[i % 16] }

  lemma AdvancePattern(c: Config, p: Pen)
    ensures Advance(c, p).pattern == p.pattern
  {
    hide Wrap, Negative;
  }

  lemma PlotPattern(c: Config, p: Pen)
    requires c.span > 0
    ensures Plot(c, Follow(Read(c, p))).pattern == p.pattern
  {
    hide Shifted, Mask, Get;
  }

  lemma PixelTurns(c: Config, p: Pen)
    requires c.span > 0 && p.left > 0
    ensures Pixel(c, p).pattern == Rotate(p.pattern)
  {
    hide Advance, Plot, Follow, Read, Put, Rotate;
    var q := Plot(c, Follow(Read(c, p)));
    AdvanceLeft(c, q);
    PlotLeft(c, Follow(Read(c, p)));
    assert Follow(Read(c, p)).left == p.left by { FollowLeft(c, p); }
    PlotPattern(c, p);
    AdvancePattern(c, q);
  }

  lemma TurnedBit(w: Word, i: nat)
    requires i < 16
    ensures Rotate(w)[i] == BitOf(w, i - 1)
  {
  }

  lemma StartBit(bdat: Word, shift: nat, i: nat)
    requires shift < 16 && i < 16
    ensures StartPattern(bdat, shift)[i] == BitOf(bdat, i + shift)
  {
  }

  /** A pattern that is the B data register turned. */
  ghost predicate Turned(p: Word, bdat: Word, s: int) {
    forall h | 0 <= h < 16 :: p[h] == BitOf(bdat, h + s)
  }

  /** Places that are a whole turn apart. */
  lemma BitAround(w: Word, a: int, b: int)
    requires a == b || a + 16 == b
    ensures BitOf(w, a) == BitOf(w, b)
    ensures 0 <= b < 16 ==> BitOf(w, b) == w[b]
  {
    assert (a + 16) % 16 == a % 16;
  }

  lemma TurnsOn(p: Word, bdat: Word, s: int)
    requires Turned(p, bdat, s)
    ensures Turned(Rotate(p), bdat, s - 1)
  {
    hide Rotate, BitOf;
    forall h | 0 <= h < 16
      ensures Rotate(p)[h] == BitOf(bdat, h + s - 1)
    {
      TurnedBit(p, h);
      var g := if h == 0 then 15 else h - 1;
      assert BitOf(p, h - 1) == p[g] by { BitAround(p, h - 1, g); }
      BitAround(bdat, h + s - 1, g + s);
    }
  }

  lemma {:induction false} PatternTurns(c: Config, p: Pen, bdat: Word, s: int, k: nat)
    requires c.span > 0 && k <= p.left && Turned(p.pattern, bdat, s)
    ensures Turned(After(c, p, k).pattern, bdat, s - k)
    decreases k
  {
    hide Pixel, Rotate, Turned;
    if k > 0 {
      var q := After(c, p, k - 1);
      PixelLeft(c, q);
      PixelTurns(c, q);
      PatternTurns(c, p, bdat, s, k - 1);
      TurnsOn(q.pattern, bdat, s - (k - 1));
    }
  }

  /** The pattern bit of the k-th pixel of a line: one bit lower in the
      B data register for every pixel, round and round, starting from the bit
      that the shift points at. */
  lemma PatternBit(c: Config, mem: seq<Word>, apt: nat, cpt: nat, dpt: nat, bdat: Word, cdat: Word, ddat: Word,
                   ashift: nat, bshift: nat, sign: bool, left: nat, k: nat)
    requires c.span > 0 && bshift < 16 && k < left
    ensures var p := StartPen(mem, apt, cpt, dpt, bdat, cdat, ddat, ashift, bshift, sign, left);
            After(c, p, k).pattern[0] == BitOf(bdat, bshift - k)
  {
    hide StartPattern, BitOf, After;
    var p := StartPen(mem, apt, cpt, dpt, bdat, cdat, ddat, ashift, bshift, sign, left);
    forall h | 0 <= h < 16
      ensures p.pattern[h] == BitOf(bdat, h + bshift)
    {
      StartBit(bdat, bshift, h);
    }
    PatternTurns(c, p, bdat, bshift, k);
    assert Turned(After(c, p, k).pattern, bdat, bshift - k);
  }
}
