/** The Reed-Solomon product code of a CD sector (Annex A of ECMA-130): parity
    words for every column (P) and every diagonal (Q) of the sector, and what
    they are good for. */
module CdCode {
  import opened XorNat
  import opened Gf256

  /** The two codes: 24 data bytes in a P column, 43 in a Q diagonal. */
  datatype Code = P | Q
  {
    function Length(): nat { if P? then 24 else 43 }
  }

  /** DP[0] */
  function DP0(i: nat): nat {
    match i
    case 0 => 231 case 1 => 229 case 2 => 171 case 3 => 210
    case 4 => 240 case 5 => 17 case 6 => 67 case 7 => 215
    case 8 => 43 case 9 => 120 case 10 => 8 case 11 => 199
    case 12 => 74 case 13 => 102 case 14 => 220 case 15 => 251
    case 16 => 95 case 17 => 175 case 18 => 87 case 19 => 166
    case 20 => 113 case 21 => 75 case 22 => 198
    case _ => 25
  }

  /** DP[1] */
  function DP1(i: nat): nat {
    match i
    case 0 => 230 case 1 => 172 case 2 => 211 case 3 => 241
    case 4 => 18 case 5 => 68 case 6 => 216 case 7 => 44
    case 8 => 121 case 9 => 9 case 10 => 200 case 11 => 75
    case 12 => 103 case 13 => 221 case 14 => 252 case 15 => 96
    case 16 => 176 case 17 => 88 case 18 => 167 case 19 => 114
    case 20 => 76 case 21 => 199 case 22 => 26
    case _ => 1
  }

  /** DQ[0] */
  function DQ0(i: nat): nat {
    match i
    case 0 => 190 case 1 => 96 case 2 => 250 case 3 => 132
    case 4 => 59 case 5 => 81 case 6 => 159 case 7 => 154
    case 8 => 200 case 9 => 7 case 10 => 111 case 11 => 245
    case 12 => 10 case 13 => 20 case 14 => 41 case 15 => 156
    case 16 => 168 case 17 => 79 case 18 => 173 case 19 => 231
    case 20 => 229 case 21 => 171 case 22 => 210 case 23 => 240
    case 24 => 17 case 25 => 67 case 26 => 215 case 27 => 43
    case 28 => 120 case 29 => 8 case 30 => 199 case 31 => 74
    case 32 => 102 case 33 => 220 case 34 => 251 case 35 => 95
    case 36 => 175 case 37 => 87 case 38 => 166 case 39 => 113
    case 40 => 75 case 41 => 198
    case _ => 25
  }

  /** DQ[1] */
  function DQ1(i: nat): nat {
    match i
    case 0 => 97 case 1 => 251 case 2 => 133 case 3 => 60
    case 4 => 82 case 5 => 160 case 6 => 155 case 7 => 201
    case 8 => 8 case 9 => 112 case 10 => 246 case 11 => 11
    case 12 => 21 case 13 => 42 case 14 => 157 case 15 => 169
    case 16 => 80 case 17 => 174 case 18 => 232 case 19 => 230
    case 20 => 172 case 21 => 211 case 22 => 241 case 23 => 18
    case 24 => 68 case 25 => 216 case 26 => 44 case 27 => 121
    case 28 => 9 case 29 => 200 case 30 => 75 case 31 => 103
    case 32 => 221 case 33 => 252 case 34 => 96 case 35 => 176
    case 36 => 88 case 37 => 167 case 38 => 114 case 39 => 76
    case 40 => 199 case 41 => 26
    case _ => 1
  }

  /** The logarithm by which data byte `i` enters parity byte 0 or 1. */
  function Weight(c: Code, second: bool, i: nat): nat {
    if c.P? then (if second then DP1(i) else DP0(i)) else (if second then DQ1(i) else DQ0(i))
  }

  /** Exclusive or with 1. */
  function FlipLow(v: nat): nat { if v % 2 == 0 then v + 1 else v - 1 }

  lemma FlipLowIsXor(v: nat)
    ensures Xor(v, 1) == FlipLow(v)
  {
    XorUnfold(v, 1);
    XorZero(v / 2);
  }

  /** The table entries have logarithms whose powers differ by 1. */
  predicate Neighbours(p: nat, q: nat) {
    p < 255 && q < 255 && Alog(q) == FlipLow(Alog(p))
  }

  /** 25 is the logarithm of alpha + 1. */
  predicate Closes(p: nat, e: nat) {
    p < 255 && Alog(e) == FlipLow(Alog(if p + 25 >= 255 then p + 25 - 255 else p + 25))
  }

  /** What the encoder's tables have to satisfy at index `i` so that both
      syndromes vanish. */
  predicate GoodWeights(c: Code, i: nat)
    requires i < c.Length()
  {
    Neighbours(Weight(c, false, i), Weight(c, true, i)) && Closes(Weight(c, false, i), c.Length() + 1 - i)
  }

  lemma NeighboursP0(i: nat)
    requires 0 <= i < 8
    ensures Neighbours(DP0(i), DP1(i))
  {
  }

  lemma ClosesP0(i: nat)
    requires 0 <= i < 8
    ensures Closes(DP0(i), 25 - i)
  {
  }

  lemma NeighboursP8(i: nat)
    requires 8 <= i < 16
    ensures Neighbours(DP0(i), DP1(i))
  {
  }

  lemma ClosesP8(i: nat)
    requires 8 <= i < 16
    ensures Closes(DP0(i), 25 - i)
  {
  }

  lemma NeighboursP16(i: nat)
    requires 16 <= i < 24
    ensures Neighbours(DP0(i), DP1(i))
  {
  }

  lemma ClosesP16(i: nat)
    requires 16 <= i < 24
    ensures Closes(DP0(i), 25 - i)
  {
  }

  lemma NeighboursQ0(i: nat)
    requires 0 <= i < 7
    ensures Neighbours(DQ0(i), DQ1(i))
  {
  }

  lemma ClosesQ0(i: nat)
    requires 0 <= i < 7
    ensures Closes(DQ0(i), 44 - i)
  {
  }

  lemma NeighboursQ7(i: nat)
    requires 7 <= i < 13
    ensures Neighbours(DQ0(i), DQ1(i))
  {
  }

  lemma ClosesQ7(i: nat)
    requires 7 <= i < 13
    ensures Closes(DQ0(i), 44 - i)
  {
  }

  lemma NeighboursQ13(i: nat)
    requires 13 <= i < 19
    ensures Neighbours(DQ0(i), DQ1(i))
  {
  }

  lemma ClosesQ13(i: nat)
    requires 13 <= i < 19
    ensures Closes(DQ0(i), 44 - i)
  {
  }

  /** The tables for Q end with those for P. */
  lemma TailOfQ0(i: nat)
    requires 19 <= i < 43
    ensures DQ0(i) == DP0(i - 19)
  {
  }

  lemma TailOfQ1(i: nat)
    requires 19 <= i < 43
    ensures DQ1(i) == DP1(i - 19)
  {
  }

  lemma WeightsOfP(i: nat)
    requires i < 24
    ensures Neighbours(DP0(i), DP1(i)) && Closes(DP0(i), 25 - i)
  {
    hide Neighbours, Closes, DP0, DP1;
    match i / 8
    case 0 => NeighboursP0(i); ClosesP0(i);
    case 1 => NeighboursP8(i); ClosesP8(i);
    case _ => NeighboursP16(i); ClosesP16(i);
  }

  lemma WeightsOfQ(i: nat)
    requires i < 43
    ensures Neighbours(DQ0(i), DQ1(i)) && Closes(DQ0(i), 44 - i)
  {
    hide Neighbours, Closes, DP0, DP1, DQ0, DQ1;
    if i < 7 {
      NeighboursQ0(i);
      ClosesQ0(i);
    } else if i < 13 {
      NeighboursQ7(i);
      ClosesQ7(i);
    } else if i < 19 {
      NeighboursQ13(i);
      ClosesQ13(i);
    } else {
      TailOfQ0(i);
      TailOfQ1(i);
      WeightsOfP(i - 19);
    }
  }

  /** The weights are good for both codes at every index. */
  lemma WeightsAreGood(c: Code, i: nat)
    requires i < c.Length()
    ensures GoodWeights(c, i)
  {
    hide Neighbours, Closes, DP0, DP1, DQ0, DQ1;
    if c.P? {
      WeightsOfP(i);
    } else {
      WeightsOfQ(i);
    }
  }

  /** The exponents with which data byte `i` enters syndrome `j`: directly, and
      through the two parity bytes. */
  function Direct(c: Code, j: nat, i: nat): nat
    requires i < c.Length()
  {
    j * (c.Length() + 1 - i)
  }

  lemma WeightFacts(c: Code, i: nat)
    requires i < c.Length()
    ensures var p, q := Weight(c, false, i), Weight(c, true, i);
            p < 255 && q < 255 && Times(1, q) == Xor(Times(1, p), 1)
            && Times(1, Direct(c, 1, i)) == Xor(Times(1, p + 25), 1)
  {
    hide Weight, Alog, Xor, Times;
    WeightsAreGood(c, i);
    var p, q := Weight(c, false, i), Weight(c, true, i);
    AlogIsPower(p);
    AlogIsPower(q);
    FlipLowIsXor(Alog(p));
    AlogIsPower(c.Length() + 1 - i);
    if p + 25 >= 255 {
      AlogIsPower(p + 25 - 255);
      TimesAdd(1, 255, p + 25 - 255);
      TimesPeriod(1);
      FlipLowIsXor(Alog(p + 25 - 255));
    } else {
      AlogIsPower(p + 25);
      FlipLowIsXor(Alog(p + 25));
    }
  }

  lemma SmallPowers()
    ensures Alog(1) == 2 && Alog(0) == 1 && Alog(25) == 3
  {
  }

  /** alpha + 1 is alpha to the 25th. */
  lemma AlphaPlusOne()
    ensures Three(1, 1, 0, 25) == 0
  {
    hide Times, Alog;
    AlogIsPower(1);
    AlogIsPower(0);
    AlogIsPower(25);
    assert Alog(1) == 2 && Alog(0) == 1 && Alog(25) == 3 by { SmallPowers(); }
    assert Xor(1, 3) == 2;
    XorSelf(2);
  }

  /** Contributions of one data byte to syndrome `j` cancel. */
  lemma ByteCancels(c: Code, j: nat, i: nat, d: Byte)
    requires i < c.Length() && j < 2
    ensures Three(d, Direct(c, j, i), Weight(c, false, i) + j, Weight(c, true, i)) == 0
  {
    hide Xor, Times, Weight, Alog;
    WeightFacts(c, i);
    var p, q := Weight(c, false, i), Weight(c, true, i);
    var a := Times(1, p);
    TimesZero(1);
    if j == 0 {
      assert Direct(c, 0, i) == 0;
      XorCancels(a, 1);
      XorSelf(1);
    } else {
      TimesStep(1, p + 1);
      TimesZero(a);
      AlphaPlusOne();
      ThreeVanish(a, 1, 0, 25);
      TimesAdd(1, p, 25);
      TimesAdd(1, p, 1);
      var x, t := Times(1, p + 1), Times(1, p + 25);
      // x ^ a ^ t == 0, and the sum is (t ^ 1) ^ (x ^ (a ^ 1))
      XorAssociates(x, a, 1);
      XorSwapsMiddle(t, 1, Xor(x, a), 1);
      XorAssociates(x, a, t);
      XorCancels(Xor(x, a), t);
      XorSelf(t);
      XorSelf(1);
      XorZero(0);
    }
    ThreeVanish(d, Direct(c, j, i), p + j, q);
  }

  // ----- parity and syndromes

  lemma WeightBound(c: Code, second: bool, i: nat)
    requires i < c.Length()
    ensures Weight(c, second, i) < 255
  {
    hide Weight, Times, Xor;
    WeightFacts(c, i);
  }

  function Contribution(c: Code, second: bool, i: nat, d: Byte): (t: Byte)
    requires i < c.Length()
    ensures t == Times(d, Weight(c, second, i))
  {
    WeightBound(c, second, i);
    TableTimesIsTimes(d, Weight(c, second, i));
    TableTimes(d, Weight(c, second, i))
  }

  /** A parity byte after `n` data bytes, as the encoder accumulates it. */
  function Parity(c: Code, second: bool, ds: seq<Byte>, n: nat): (p: Byte)
    requires n <= |ds| == c.Length()
  {
    if n == 0 then 0 else
    var t := Contribution(c, second, n - 1, ds[n - 1]);
    XorByte(Parity(c, second, ds, n - 1), t);
    Xor(Parity(c, second, ds, n - 1), t)
  }

  function Term(b: Byte, j: nat, e: nat): Byte {
    Times(b, j * e)
  }

  /** The first `n` terms of syndrome `j`: byte k of a code word of length
      `len` counts alpha to the j * (len - 1 - k). */
  function Terms(w: seq<Byte>, j: nat, n: nat, len: nat): (s: Byte)
    requires n <= |w| <= len
  {
    if n == 0 then 0 else
    var t := Term(w[n - 1], j, len - n);
    XorByte(Terms(w, j, n - 1, len), t);
    Xor(Terms(w, j, n - 1, len), t)
  }

  /** Syndrome `j` of a code word. */
  function Syndrome(w: seq<Byte>, j: nat): Byte {
    Terms(w, j, |w|, |w|)
  }

  function CodeWord(c: Code, ds: seq<Byte>): seq<Byte>
    requires |ds| == c.Length()
  {
    ds + [Parity(c, false, ds, c.Length()), Parity(c, true, ds, c.Length())]
  }

  /** Two sums that vanish, added. */
  lemma SumsVanish(a: Byte, b: Byte, e: Byte, x: Byte, y: Byte, z: Byte, j: nat)
    requires Xor(a, Xor(Times(b, j), e)) == 0 && Xor(x, Xor(Times(y, j), z)) == 0
    ensures Xor(b, y) < 0x100 && Xor(Xor(a, x), Xor(Times(Xor(b, y), j), Xor(e, z))) == 0
  {
    hide Xor, Times;
    XorByte(b, y);
    TimesLinear(b, y, j);
    XorSwapsMiddle(Times(b, j), Times(y, j), e, z);
    XorSwapsMiddle(a, x, Xor(Times(b, j), e), Xor(Times(y, j), z));
    XorZero(0);
  }

  /** One more data byte. */
  lemma NextSums(c: Code, j: nat, ds: seq<Byte>, i: nat)
    requires i < |ds| == c.Length()
    ensures Terms(ds, j, i + 1, c.Length() + 2) == Xor(Terms(ds, j, i, c.Length() + 2), Times(ds[i], Direct(c, j, i)))
    ensures Parity(c, false, ds, i + 1) == Xor(Parity(c, false, ds, i), Times(ds[i], Weight(c, false, i)))
    ensures Parity(c, true, ds, i + 1) == Xor(Parity(c, true, ds, i), Times(ds[i], Weight(c, true, i)))
  {
    hide Xor, Times, Weight;
    assert c.Length() + 2 - (i + 1) == c.Length() + 1 - i;
  }

  lemma NoSums(c: Code, j: nat, ds: seq<Byte>)
    requires |ds| == c.Length()
    ensures Xor(Terms(ds, j, 0, c.Length() + 2), Xor(Times(Parity(c, false, ds, 0), j), Parity(c, true, ds, 0))) == 0
  {
    hide Xor, Times, Weight;
    TimesOfZero(j);
    XorZero(0);
  }

  /** Every prefix of the data cancels against the parity it contributes. */
  lemma {:induction false} PrefixCancels(c: Code, j: nat, ds: seq<Byte>, n: nat)
    requires n <= |ds| == c.Length() && j < 2
    ensures Xor(Terms(ds, j, n, c.Length() + 2),
                Xor(Times(Parity(c, false, ds, n), j), Parity(c, true, ds, n))) == 0
    decreases n
  {
    hide Xor, Times, Weight, Terms, Parity, Direct;
    if n == 0 {
      NoSums(c, j, ds);
    } else {
      var i := n - 1;
      PrefixCancels(c, j, ds, i);
      NextSums(c, j, ds, i);
      ByteCancels(c, j, i, ds[i]);
      var p, q := Weight(c, false, i), Weight(c, true, i);
      TimesAdd(ds[i], p, j);
      SumsVanish(Terms(ds, j, i, c.Length() + 2), Parity(c, false, ds, i), Parity(c, true, ds, i),
                 Times(ds[i], Direct(c, j, i)), Times(ds[i], p), Times(ds[i], q), j);
    }
  }

  lemma {:induction false} SameTerms(v: seq<Byte>, w: seq<Byte>, j: nat, n: nat, len: nat)
    requires n <= |v| <= len && n <= |w| <= len && v[..n] == w[..n]
    ensures Terms(v, j, n, len) == Terms(w, j, n, len)
    decreases n
  {
    hide Xor, Times;
    if n > 0 {
      assert v[..n][..n - 1] == v[..n - 1] && w[..n][..n - 1] == w[..n - 1];
      assert v[n - 1] == v[..n][n - 1] == w[..n][n - 1] == w[n - 1];
      SameTerms(v, w, j, n - 1, len);
    }
  }

  /** Both syndromes of every encoded word vanish. */
  lemma CodeWordHasNoSyndrome(c: Code, j: nat, ds: seq<Byte>)
    requires |ds| == c.Length() && j < 2
    ensures Syndrome(CodeWord(c, ds), j) == 0
  {
    hide Xor, Times, Weight, Parity;
    var n := c.Length();
    var w := CodeWord(c, ds);
    var p, q := Parity(c, false, ds, n), Parity(c, true, ds, n);
    PrefixCancels(c, j, ds, n);
    SameTerms(ds, w, j, n, n + 2);
    assert w[n] == p && w[n + 1] == q;
    var a := Terms(w, j, n, n + 2);
    assert Terms(w, j, n + 1, n + 2) == Xor(a, Times(p, j)) by { assert j * (n + 2 - (n + 1)) == j; }
    assert Terms(w, j, n + 2, n + 2) == Xor(Xor(a, Times(p, j)), Times(q, 0)) by { assert j * 0 == 0; }
    TimesZero(q);
    XorAssociates(a, Times(p, j), q);
  }

  // ----- detection

  /** The difference of two bytes. */
  function Change(a: Byte, b: Byte): (d: Byte) {
    XorByte(a, b);
    Xor(a, b)
  }

  /** The sum after `a`, with byte `b` changed to `x`, and with a change `t`
      further down. */
  lemma ChangeHere(a: Byte, b: Byte, x: Byte, j: nat, e: nat)
    ensures Xor(a, Term(x, j, e)) == Xor(Xor(a, Term(b, j, e)), Term(Change(b, x), j, e))
  {
    hide Xor, Times;
    var d := Change(b, x);
    XorCancels(b, x);
    TimesLinear(b, d, j * e);
    XorAssociates(a, Term(b, j, e), Term(d, j, e));
  }

  lemma ChangeBelow(a: nat, t: nat, u: nat)
    ensures Xor(Xor(a, t), u) == Xor(Xor(a, u), t)
  {
    hide Xor;
    XorAssociates(a, t, u);
    XorCommutes(t, u);
    XorAssociates(a, u, t);
  }

  /** A changed byte changes the syndrome by its own term. */
  lemma {:induction false} TermsAfterChange(w: seq<Byte>, j: nat, n: nat, k: nat, x: Byte)
    requires n <= |w| && k < |w|
    ensures Terms(w[k := x], j, n, |w|)
         == if k < n then Xor(Terms(w, j, n, |w|), Term(Change(w[k], x), j, |w| - 1 - k)) else Terms(w, j, n, |w|)
    decreases n
  {
    hide Xor, Times, Term, Change;
    if n > 0 {
      TermsAfterChange(w, j, n - 1, k, x);
      var a := Terms(w, j, n - 1, |w|);
      if k == n - 1 {
        ChangeHere(a, w[k], x, j, |w| - n);
      } else if k < n - 1 {
        ChangeBelow(a, Term(Change(w[k], x), j, |w| - 1 - k), Term(w[n - 1], j, |w| - n));
      }
    }
  }

  lemma SyndromeAfterChange(w: seq<Byte>, j: nat, k: nat, x: Byte)
    requires k < |w|
    ensures Syndrome(w[k := x], j) == Xor(Syndrome(w, j), Term(Change(w[k], x), j, |w| - 1 - k))
  {
    hide Xor, Times, Terms, Term, Change;
    TermsAfterChange(w, j, |w|, k, x);
  }

  lemma TwoChanges(w: seq<Byte>, k: nat, x: Byte, l: nat, y: Byte, j: nat)
    requires Syndrome(w, j) == 0 && k < l < |w|
    ensures Syndrome(w[k := x][l := y], j)
         == Xor(Term(Change(w[k], x), j, |w| - 1 - k), Term(Change(w[l], y), j, |w| - 1 - l))
  {
    hide Xor, Times, Terms, Syndrome;
    SyndromeAfterChange(w, j, k, x);
    SyndromeAfterChange(w[k := x], j, l, y);
    XorZero(Term(Change(w[k], x), j, |w| - 1 - k));
  }

  /** One or two changed bytes in a code word leave a syndrome that is not
      zero: the code detects them. */
  lemma ChangeIsDetected(w: seq<Byte>, k: nat, x: Byte, l: nat, y: Byte)
    requires Syndrome(w, 0) == 0 && Syndrome(w, 1) == 0
    requires k < l < |w| < 256 && (x != w[k] || y != w[l])
    ensures var v := w[k := x][l := y]; Syndrome(v, 0) != 0 || Syndrome(v, 1) != 0
  {
    hide Xor, Times, Terms, Syndrome;
    var v := w[k := x];
    var e, f := Change(w[k], x), Change(w[l], y);
    TwoChanges(w, k, x, l, y, 0);
    TwoChanges(w, k, x, l, y, 1);
    var u := v[l := y];
    if Syndrome(u, 0) == 0 && Syndrome(u, 1) == 0 {
      assert 0 * (|w| - 1 - k) == 0 && 0 * (|w| - 1 - l) == 0;
      TimesZero(e);
      TimesZero(f);
      XorCancels(e, f);
      var a, b := |w| - 1 - k, |w| - 1 - l;
      XorCancels(Times(e, a), Times(f, b));
      XorCancels(w[k], x);
      XorCancels(w[l], y);
      if e != 0 {
        TimesInjective(e, b, a);
      } else {
        XorZero(w[k]);
        XorZero(w[l]);
      }
    }
  }
}
