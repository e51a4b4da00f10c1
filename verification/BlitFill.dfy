/** Area fill: the byte table, the two lookups that fill a word, and the
    bit-serial fill that they amount to. */
module BlitFill {
  import opened Bits
  import opened Numbers

  type Byte = b: seq<bool> | |b| == 8 witness Zeros(8)

  /** Bit-serial fill from the low end: each bit is forced or flipped while
      the carry is set, and each set input bit flips the carry. */
  function Fill(d: seq<bool>, inclusive: bool, carry: bool): (r: (seq<bool>, bool))
    ensures |r.0| == |d|
  {
    if d == [] then ([], carry)
    else
      var rest := Fill(d[1..], inclusive, carry != d[0]);
      ([if carry then (if inclusive then true else !d[0]) else d[0]] + rest.0, rest.1)
  }

  function Parity(d: seq<bool>): bool {
    if d == [] then false else d[0] != Parity(d[1..])
  }

  /** The carry out is the carry in flipped once for every set input bit. */
  lemma {:induction false} CarryIsParity(d: seq<bool>, inclusive: bool, carry: bool)
    ensures Fill(d, inclusive, carry).1 == (carry != Parity(d))
  {
    if d != [] {
      CarryIsParity(d[1..], inclusive, carry != d[0]);
    }
  }

  /** Each filled bit from the input bit and the parity of the bits below. */
  lemma {:induction false} FillAt(d: seq<bool>, inclusive: bool, carry: bool, k: nat)
    requires k < |d|
    ensures Fill(d, inclusive, carry).0[k]
            == (var inside := carry != Parity(d[..k]);
                if inclusive then d[k] || inside else d[k] != inside)
  {
    if k == 0 {
      assert d[..0] == [];
    } else {
      FillAt(d[1..], inclusive, carry != d[0], k - 1);
      assert d[..k][1..] == d[1..][..k - 1];
    }
  }

  lemma {:induction false} ParityAppend(a: seq<bool>, b: seq<bool>)
    ensures Parity(a + b) == (Parity(a) != Parity(b))
  {
    if a == [] {
      assert a + b == b;
    } else {
      assert (a + b)[1..] == a[1..] + b;
      ParityAppend(a[1..], b);
    }
  }

  /** Exclusive fill outputs the running parity of its input. */
  lemma ExclusiveIsRunningParity(d: seq<bool>, carry: bool, k: nat)
    requires k < |d|
    ensures Fill(d, false, carry).0[k] == (carry != Parity(d[..k + 1]))
  {
    FillAt(d, false, carry, k);
    assert d[..k + 1] == d[..k] + [d[k]];
    ParityAppend(d[..k], [d[k]]);
    assert Parity([d[k]]) == d[k];
  }

  /** The differences of neighbouring bits, starting from `carry`. */
  function Edges(f: seq<bool>, carry: bool): (d: seq<bool>)
    ensures |d| == |f|
  {
    if f == [] then [] else [f[0] != carry] + Edges(f[1..], f[0])
  }

  /** So the outline that was filled exclusively can be recovered. */
  lemma {:induction false} ExclusiveIsInvertible(d: seq<bool>, carry: bool)
    ensures Edges(Fill(d, false, carry).0, carry) == d
  {
    if d != [] {
      var r := Fill(d, false, carry);
      assert r.0[0] == (carry != d[0]) && r.0[1..] == Fill(d[1..], false, carry != d[0]).0;
      ExclusiveIsInvertible(d[1..], carry != d[0]);
      assert Edges(r.0, carry) == [r.0[0] != carry] + Edges(r.0[1..], r.0[0]);
    }
  }

  lemma FillFirst(b: bool, d: seq<bool>, inclusive: bool, carry: bool)
    ensures var first := if carry then (if inclusive then true else !b) else b;
            var rest := Fill(d, inclusive, carry != b);
            Fill([b] + d, inclusive, carry) == ([first] + rest.0, rest.1)
  {
    assert ([b] + d)[1..] == d;
  }

  lemma FillEmpty(a: seq<bool>, b: seq<bool>, inclusive: bool, carry: bool)
    requires a == []
    ensures Fill(a, inclusive, carry) == ([], carry) && a + b == b
    ensures Fill(a, inclusive, carry).0 + Fill(b, inclusive, carry).0 == Fill(b, inclusive, carry).0
  {
  }

  lemma Regroup(a: seq<bool>, b: seq<bool>)
    requires a != []
    ensures a == [a[0]] + a[1..] && a + b == [a[0]] + (a[1..] + b)
  {
  }

  lemma Grouping(f: bool, a: seq<bool>, b: seq<bool>)
    ensures [f] + (a + b) == ([f] + a) + b
  {
  }

  /** Filling in two pieces, the carry handed on. */
  lemma {:induction false} FillAppend(a: seq<bool>, b: seq<bool>, inclusive: bool, carry: bool)
    ensures var lo := Fill(a, inclusive, carry); var hi := Fill(b, inclusive, lo.1);
            Fill(a + b, inclusive, carry) == (lo.0 + hi.0, hi.1)
  {
    if a == [] {
      FillEmpty(a, b, inclusive, carry);
    } else {
      hide Fill;
      Regroup(a, b);
      FillFirst(a[0], a[1..], inclusive, carry);
      FillFirst(a[0], a[1..] + b, inclusive, carry);
      FillAppend(a[1..], b, inclusive, carry != a[0]);
      var lo := Fill(a[1..], inclusive, carry != a[0]);
      Grouping(if carry then (if inclusive then true else !a[0]) else a[0], lo.0, Fill(b, inclusive, lo.1).0);
    }
  }

  // ----- the table

  datatype Entry = Entry(data: Byte, carry: bool)

  /** The table's entry for byte `d`; bit 0 of `mode` is the carry in, bit 1
      selects inclusive fill. */
  function EntryOf(d: nat, mode: nat): Entry {
    var r := Fill(BitsOf(d, 8), mode >= 2, mode % 2 == 1);
    Entry(r.0, r.1)
  }

  ghost predicate IsFillTable(t: seq<Entry>) {
    |t| == 1024 && forall d: nat, mode: nat :: d < 256 && mode < 4 ==> t[d * 4 + mode] == EntryOf(d, mode)
  }

  lemma FillOne(b: bool, inclusive: bool, carry: bool)
    ensures Fill([b], inclusive, carry) == ([if carry then (if inclusive then true else !b) else b], carry != b)
  {
    assert [b][1..] == [];
    assert Fill([b], inclusive, carry).0 == [if carry then (if inclusive then true else !b) else b];
  }

  lemma FillNone(inclusive: bool, carry: bool)
    ensures Fill([], inclusive, carry) == ([], carry)
  {
  }

  /** One more bit. */
  lemma FillNext(d: seq<bool>, k: nat, inclusive: bool, carry: bool)
    requires k < |d|
    ensures var r := Fill(d[..k], inclusive, carry);
            Fill(d[..k + 1], inclusive, carry)
            == (r.0 + [if r.1 then (if inclusive then true else !d[k]) else d[k]], r.1 != d[k])
  {
    hide Fill;
    assert d[..k + 1] == d[..k] + [d[k]];
    FillAppend(d[..k], [d[k]], inclusive, carry);
    FillOne(d[k], inclusive, Fill(d[..k], inclusive, carry).1);
  }

  /** build_blitfilltable: the entry of each byte and mode, bit by bit. */
  method FillByte(d: Byte, inclusive: bool, carry: bool) returns (e: Entry)
    ensures (e.data, e.carry) == Fill(d, inclusive, carry)
  {
    hide Fill;
    var data: seq<bool> := d;
    var fc := carry;
    FillNone(inclusive, carry);
    var k := 0;
    while k < 8
      invariant 0 <= k <= 8 && |data| == 8 && forall i :: k <= i < 8 ==> data[i] == d[i]
      invariant var done := Fill(d[..k], inclusive, carry); data[..k] == done.0 && fc == done.1
    {
      var tmp := data;
      if fc {
        data := data[k := if inclusive then true else !data[k]];
      }
      if tmp[k] {
        fc := !fc;
      }
      FillNext(d, k, inclusive, carry);
      assert data[..k + 1] == data[..k] + [data[k]];
      k := k + 1;
    }
    assert d[..8] == d && data[..8] == data;
    e := Entry(data, fc);
  }

  lemma EntryIs(d: nat, mode: nat)
    ensures var e := EntryOf(d, mode); (e.data, e.carry) == Fill(BitsOf(d, 8), mode >= 2, mode % 2 == 1)
  {
  }

  method BuildFillTable() returns (table: array<Entry>)
    ensures fresh(table) && IsFillTable(table[..])
  {
    hide EntryOf, BitsOf, Fill;
    table := new Entry[1024](_ => Entry(Zeros(8), false));
    var d := 0;
    while d < 256
      invariant 0 <= d <= 256
      invariant forall e: nat, m: nat :: e < d && m < 4 ==> table[e * 4 + m] == EntryOf(e, m)
    {
      var i := 0;
      while i < 4
        invariant 0 <= i <= 4
        invariant forall e: nat, m: nat :: e < d && m < 4 ==> table[e * 4 + m] == EntryOf(e, m)
        invariant forall m: nat :: m < i ==> table[d * 4 + m] == EntryOf(d, m)
      {
        var e := FillByte(BitsOf(d, 8), i >= 2, i % 2 == 1);
        EntryIs(d, i);
        table[d * 4 + i] := e;
        i := i + 1;
      }
      d := d + 1;
    }
  }

  // ----- words and rows

  function Mode(inclusive: bool, carry: bool): nat {
    (if inclusive then 2 else 0) + (if carry then 1 else 0)
  }

  function Lookup(t: seq<Entry>, b: Byte, inclusive: bool, carry: bool): Entry
    requires |t| == 1024
  {
    ValueBound(b);
    t[Value(b) * 4 + Mode(inclusive, carry)]
  }

  /** The two lookups that fill a word, low byte first. */
  function FillWord(t: seq<Entry>, d: Word, inclusive: bool, carry: bool): (Word, bool)
    requires |t| == 1024
  {
    var lo := Lookup(t, d[..8], inclusive, carry);
    var hi := Lookup(t, d[8..], inclusive, lo.carry);
    (lo.data + hi.data, hi.carry)
  }

  lemma LookupFills(t: seq<Entry>, b: Byte, inclusive: bool, carry: bool)
    requires IsFillTable(t)
    ensures var e := Lookup(t, b, inclusive, carry); (e.data, e.carry) == Fill(b, inclusive, carry)
  {
    ValueBound(b);
    BitsOfValue(b);
    assert Pow2(8) == 256 by { assert Pow2(4) == 16; assert Pow2(6) == 64; }
    assert t[Value(b) * 4 + Mode(inclusive, carry)] == EntryOf(Value(b), Mode(inclusive, carry));
  }

  /** A word filled by table lookups is the word filled bit by bit. */
  lemma FillWordFills(t: seq<Entry>, d: Word, inclusive: bool, carry: bool)
    requires IsFillTable(t)
    ensures FillWord(t, d, inclusive, carry) == Fill(d, inclusive, carry)
  {
    LookupFills(t, d[..8], inclusive, carry);
    LookupFills(t, d[8..], inclusive, Fill(d[..8], inclusive, carry).1);
    FillAppend(d[..8], d[8..], inclusive, carry);
    assert d[..8] + d[8..] == d;
  }

  function Concat(ws: seq<Word>): seq<bool> {
    if ws == [] then [] else ws[0] + Concat(ws[1..])
  }

  /** A row of words, each filled by lookups, the carry handed on. */
  function FillRow(t: seq<Entry>, ws: seq<Word>, inclusive: bool, carry: bool): (seq<Word>, bool)
    requires |t| == 1024
  {
    if ws == [] then ([], carry)
    else
      var w := FillWord(t, ws[0], inclusive, carry);
      var rest := FillRow(t, ws[1..], inclusive, w.1);
      ([w.0] + rest.0, rest.1)
  }

  /** A row of any length filled by table lookups is the row filled bit by
      bit as one long word. */
  lemma {:induction false} FillRowFills(t: seq<Entry>, ws: seq<Word>, inclusive: bool, carry: bool)
    requires IsFillTable(t)
    ensures var r := FillRow(t, ws, inclusive, carry);
            (Concat(r.0), r.1) == Fill(Concat(ws), inclusive, carry)
  {
    if ws != [] {
      FillWordFills(t, ws[0], inclusive, carry);
      var w := FillWord(t, ws[0], inclusive, carry);
      FillRowFills(t, ws[1..], inclusive, w.1);
      FillAppend(ws[0], Concat(ws[1..]), inclusive, carry);
      var r := FillRow(t, ws, inclusive, carry);
      assert r.0[0] == w.0 && r.0[1..] == FillRow(t, ws[1..], inclusive, w.1).0;
    }
  }
}
