/** Quotients and remainders by a variable divisor. */
module Modulo {
  lemma Distributes(d: int, p: int, x: int)
    ensures d * (p + x) == d * p + d * x
  {
  }

  lemma AtLeast(d: nat, x: int)
    requires x >= 1
    ensures d * x >= d
  {
  }

  lemma SameRemainder(d: nat, p: nat, q: nat, s: nat, r: nat)
    requires d * p + s == d * q + r && s < d && r < d
    ensures s == r && p == q
  {
    if p < q {
      Distributes(d, p, q - p);
      AtLeast(d, q - p);
    } else if p > q {
      Distributes(d, q, p - q);
      AtLeast(d, p - q);
    }
  }

  lemma Remainder(v: nat, d: nat, q: nat, r: nat)
    requires d > 0 && v == d * q + r && r < d
    ensures v % d == r && v / d == q
  {
    SameRemainder(d, v / d, q, v % d, r);
  }

  lemma NextQuotient(k: nat, l: nat)
    requires l > 0
    ensures (k + 1) / l == k / l + if (k + 1) % l == 0 then 1 else 0
  {
    var q, i := k / l, k % l;
    if i == l - 1 {
      Distributes(l, q, 1);
      Remainder(k + 1, l, q + 1, 0);
    } else {
      Remainder(k + 1, l, q, i + 1);
    }
  }

  /** Counting on from any start, one lap meets every remainder once. */
  lemma LapDiffers(s: nat, i: nat, j: nat, l: nat)
    requires i < l && j < l && i != j
    ensures (s + i) % l != (s + j) % l
  {
    if (s + i) % l == (s + j) % l {
      SameRemainder(l, (s + i) / l, (s + j) / l, j, i);
    }
  }

  lemma AddModulo(a: nat, b: nat, l: nat)
    requires l > 0
    ensures (a % l + b) % l == (a + b) % l
  {
    var q, r := a / l, a % l;
    var p, s := (r + b) / l, (r + b) % l;
    Distributes(l, q, p);
    Remainder(a + b, l, q + p, s);
  }
}
