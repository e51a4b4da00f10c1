/** Filling in a CD mode 1 sector: header, error detection code, and the parity
    words of the product code, written into the sector in place. */
module CdSector {
  import opened XorNat
  import opened Gf256
  import opened CdCode
  import CdEdc
  import Words32

  const SECTOR := 2352

  /** The error correction starts behind the 12 bytes of the sync pattern. */
  const BASE := 12

  /** Bytes covered by the 24 (26) rows of the P columns and by the Q code. */
  const P_DATA := 2064
  const Q_DATA := 2236

  /** 86 columns of bytes and 52 diagonals of bytes: two lanes each. */
  function Words(c: Code): nat { if c.P? then 86 else 52 }

  /** Where the code's parity bytes start in the sector. */
  function Start(c: Code): nat { BASE + if c.P? then P_DATA else Q_DATA }

  function End(c: Code): nat { Start(c) + 2 * Words(c) }

  /** Where byte `i` of code word `q` lies in the sector. */
  function At(c: Code, q: nat, i: nat): (at: nat)
    requires q < Words(c) && i < c.Length() + 2
    ensures if i < c.Length() then BASE <= at < Start(c) else at == Start(c) + (i - c.Length()) * Words(c) + q
    ensures at < End(c) <= SECTOR
  {
    if c.P? then BASE + q + 86 * i
    else if i < 43 then BASE + (q / 2 * 86 + 88 * i + q % 2) % Q_DATA
    else BASE + Q_DATA + q + 52 * (i - 43)
  }

  // ----- what the encoder computes

  /** The data bytes of code word `q`, and the whole word. */
  function Data(s: seq<Byte>, c: Code, q: nat): (ds: seq<Byte>)
    requires |s| == SECTOR && q < Words(c)
    ensures |ds| == c.Length()
  {
    seq(c.Length(), i requires 0 <= i < c.Length() => s[At(c, q, i)])
  }

  function Word(s: seq<Byte>, c: Code, q: nat): (w: seq<Byte>)
    requires |s| == SECTOR && q < Words(c)
    ensures |w| == c.Length() + 2
  {
    seq(c.Length() + 2, i requires 0 <= i < c.Length() + 2 => s[At(c, q, i)])
  }

  /** The two parity bytes of word `q` replaced. */
  function SetParity(s: seq<Byte>, c: Code, q: nat, x: Byte, y: Byte): (t: seq<Byte>)
    requires |s| == SECTOR && q < Words(c)
    ensures |t| == SECTOR
    ensures t[..Start(c)] == s[..Start(c)] && t[End(c)..] == s[End(c)..]
    ensures forall k | Start(c) <= k < End(c) :: t[k] == if k == Start(c) + q then x
                 else if k == Start(c) + Words(c) + q then y else s[k]
  {
    s[Start(c) + q := x][Start(c) + Words(c) + q := y]
  }

  /** Word `q` with its parity taken over its first `n` data bytes. */
  function Partly(s: seq<Byte>, c: Code, q: nat, n: nat): (t: seq<Byte>)
    requires |s| == SECTOR && q < Words(c) && n <= c.Length()
    ensures |t| == SECTOR
  {
    SetParity(s, c, q, Parity(c, false, Data(s, c, q), n), Parity(c, true, Data(s, c, q), n))
  }

  function Zeros(n: nat): (z: seq<Byte>)
    ensures |z| == n && forall k | 0 <= k < n :: z[k] == 0
  {
    seq(n, _ => 0)
  }

  /** The parity area cleared. */
  function Cleared(s: seq<Byte>, c: Code): (t: seq<Byte>)
    requires |s| == SECTOR
    ensures |t| == SECTOR
    ensures t[..Start(c)] == s[..Start(c)] && t[End(c)..] == s[End(c)..]
    ensures forall k | Start(c) <= k < End(c) :: t[k] == 0
  {
    s[..Start(c)] + Zeros(2 * Words(c)) + s[End(c)..]
  }

  /** The first `n` code words encoded. */
  function Encoded(s: seq<Byte>, c: Code, n: nat): (t: seq<Byte>)
    requires |s| == SECTOR && n <= Words(c)
    ensures |t| == SECTOR
  {
    if n == 0 then Cleared(s, c) else Partly(Encoded(s, c, n - 1), c, n - 1, c.Length())
  }

  lemma SameData(s: seq<Byte>, t: seq<Byte>, c: Code, q: nat)
    requires |s| == |t| == SECTOR && q < Words(c) && s[..Start(c)] == t[..Start(c)]
    ensures Data(s, c, q) == Data(t, c, q)
  {
    hide At;
    forall i | 0 <= i < c.Length()
      ensures s[At(c, q, i)] == t[At(c, q, i)]
    {
      var k := At(c, q, i);
      assert s[k] == s[..Start(c)][k] == t[..Start(c)][k] == t[k];
    }
  }

  /** Encoding words leaves everything outside the parity area alone, and word
      `q` gets its own parity. */
  lemma {:induction false} EncodedWords(s: seq<Byte>, c: Code, n: nat, q: nat)
    requires |s| == SECTOR && n <= Words(c) && q < Words(c)
    ensures var t := Encoded(s, c, n);
            t[..Start(c)] == s[..Start(c)] && t[End(c)..] == s[End(c)..]
            && t[Start(c) + q] == (if q < n then Parity(c, false, Data(s, c, q), c.Length()) else 0)
            && t[Start(c) + Words(c) + q] == (if q < n then Parity(c, true, Data(s, c, q), c.Length()) else 0)
    decreases n
  {
    hide Parity, Data, At, Xor;
    if n > 0 {
      EncodedWords(s, c, n - 1, q);
      SameData(s, Encoded(s, c, n - 1), c, n - 1);
    }
  }

  lemma WordIsCodeWord(s: seq<Byte>, c: Code, q: nat)
    requires |s| == SECTOR && q < Words(c)
    ensures Word(Encoded(s, c, Words(c)), c, q) == CodeWord(c, Data(s, c, q))
  {
    hide Parity, Encoded, At, Xor;
    EncodedWords(s, c, Words(c), q);
    var t := Encoded(s, c, Words(c));
    SameData(s, t, c, q);
    var w := CodeWord(c, Data(s, c, q));
    forall i | 0 <= i < c.Length() + 2
      ensures t[At(c, q, i)] == w[i]
    {
      if i < c.Length() {
        assert Data(t, c, q)[i] == t[At(c, q, i)];
      } else if i == c.Length() {
        assert At(c, q, i) == Start(c) + q;
      } else {
        assert At(c, q, i) == Start(c) + Words(c) + q;
      }
    }
  }

  // ----- the index map

  lemma SameByte(a: nat, b: nat, k: nat)
    requires a == b + Q_DATA * k && b < Q_DATA
    ensures a % Q_DATA == b
  {
  }

  /** Where a diagonal lies: pair number `j` at step `i` is pair `i` of row
      (i + j) mod 26. */
  lemma DiagonalPlace(q: nat, i: nat)
    requires q < Words(Q) && i < 43
    ensures At(Q, q, i) == BASE + 86 * ((q / 2 + i) % 26) + 2 * i + q % 2
  {
    var j := q / 2;
    var r, k := (j + i) % 26, (j + i) / 26;
    assert j + i == 26 * k + r;
    SameByte(j * 86 + 88 * i + q % 2, 86 * r + 2 * i + q % 2, k);
  }

  /** The word and the place in it that byte `k` of the sector belongs to. */
  function WordOf(c: Code, k: nat): (q: nat)
    requires BASE <= k < End(c)
    ensures q < Words(c)
  {
    if c.P? then (k - BASE) % 86
    else if k < Start(Q) then var n := (k - BASE) / 2; 2 * ((n / 43 - n % 43) % 26) + (k - BASE) % 2
    else (k - Start(Q)) % 52
  }

  function IndexOf(c: Code, k: nat): (i: nat)
    requires BASE <= k < End(c)
    ensures i < c.Length() + 2
  {
    if c.P? then (k - BASE) / 86
    else if k < Start(Q) then (k - BASE) / 2 % 43
    else 43 + (k - Start(Q)) / 52
  }

  lemma RowAndBack(r: nat, i: nat)
    requires r < 26 && i < 43
    ensures ((r - i) % 26 + i) % 26 == r
  {
    var k := (r - i) / 26;
    assert (r - i) % 26 + i == r + 26 * -k;
  }

  lemma DiagonalAndBack(j: nat, i: nat)
    requires j < 26 && i < 43
    ensures ((j + i) % 26 - i) % 26 == j
  {
    var k := (j + i) / 26;
    assert (j + i) % 26 - i == j - 26 * k;
  }

  /** Every byte a code covers lies in exactly one place of one word. */
  lemma EachByteOnce(c: Code, k: nat)
    requires BASE <= k < End(c)
    ensures At(c, WordOf(c, k), IndexOf(c, k)) == k
  {
    if c.Q? && k < Start(Q) {
      hide At;
      var n, lane := (k - BASE) / 2, (k - BASE) % 2;
      var r, i := n / 43, n % 43;
      var j := (r - i) % 26;
      DiagonalPlace(2 * j + lane, i);
      RowAndBack(r, i);
      assert (2 * j + lane) / 2 == j && (2 * j + lane) % 2 == lane;
    }
  }

  lemma Quotient43(r: nat, i: nat)
    requires i < 43
    ensures (43 * r + i) / 43 == r && (43 * r + i) % 43 == i
  {
  }

  lemma DiagonalOnce(q: nat, i: nat)
    requires q < Words(Q) && i < 43
    ensures WordOf(Q, At(Q, q, i)) == q && IndexOf(Q, At(Q, q, i)) == i
  {
    hide At;
    DiagonalPlace(q, i);
    DiagonalAndBack(q / 2, i);
    var r := (q / 2 + i) % 26;
    var n := (At(Q, q, i) - BASE) / 2;
    assert n == 43 * r + i;
    Quotient43(r, i);
  }

  lemma OnlyOnce(c: Code, q: nat, i: nat)
    requires q < Words(c) && i < c.Length() + 2
    ensures WordOf(c, At(c, q, i)) == q && IndexOf(c, At(c, q, i)) == i
  {
    if c.Q? && i < 43 {
      DiagonalOnce(q, i);
    }
  }

  // ----- the encoder

  /** p[at] ^= d * alpha^e, by the tables. */
  method AddTerm(p: array<Byte>, at: nat, d: Byte, e: nat)
    requires at < p.Length && e < 255
    modifies p
    ensures Xor(old(p[at]), TableTimes(d, e)) < 0x100
    ensures p[..] == old(p[..])[at := Xor(old(p[at]), TableTimes(d, e))]
  {
    hide Xor, Log, Alog;
    XorZero(p[at]);
    TableTimesIsTimes(d, e);
    XorByte(p[at], TableTimes(d, e));
    if d != 0 {
      var base := Log(d);
      var sum := base + e;
      if sum >= 255 {
        sum := sum - 255;
      }
      p[at] := Xor(p[at], Alog(sum));
    }
  }

  function AddedByte(s: seq<Byte>, c: Code, second: bool, q: nat, i: nat): (b: Byte)
    requires |s| == SECTOR && q < Words(c) && i < c.Length()
  {
    var old_ := s[if second then Start(c) + Words(c) + q else Start(c) + q];
    var t := Contribution(c, second, i, s[At(c, q, i)]);
    XorByte(old_, t);
    Xor(old_, t)
  }

  /** The parity of word `q` with data byte `i` added. */
  function Added(s: seq<Byte>, c: Code, q: nat, i: nat): (t: seq<Byte>)
    requires |s| == SECTOR && q < Words(c) && i < c.Length()
    ensures |t| == SECTOR
  {
    SetParity(s, c, q, AddedByte(s, c, false, q, i), AddedByte(s, c, true, q, i))
  }

  /** Data byte `i` enters both parity bytes of word `q`. */
  method Accumulate(c: Code, p: array<Byte>, q: nat, i: nat)
    requires p.Length == SECTOR && q < Words(c) && i < c.Length()
    modifies p
    ensures p[..] == Added(old(p[..]), c, q, i)
  {
    hide Xor, TableTimes, Weight, At;
    var data := p[At(c, q, i)];
    WeightBound(c, false, i);
    WeightBound(c, true, i);
    AddTerm(p, Start(c) + q, data, Weight(c, false, i));
    AddTerm(p, Start(c) + Words(c) + q, data, Weight(c, true, i));
  }

  lemma SameSector(s: seq<Byte>, t: seq<Byte>, c: Code)
    requires |s| == |t| == SECTOR
    requires s[..Start(c)] == t[..Start(c)] && s[End(c)..] == t[End(c)..]
    requires forall k | Start(c) <= k < End(c) :: s[k] == t[k]
    ensures s == t
  {
    assert s[Start(c)..End(c)] == t[Start(c)..End(c)];
    assert s == s[..Start(c)] + s[Start(c)..End(c)] + s[End(c)..];
    assert t == t[..Start(c)] + t[Start(c)..End(c)] + t[End(c)..];
  }

  /** One more data byte: the parity over `i + 1` bytes. */
  lemma AddedOnce(s: seq<Byte>, c: Code, q: nat, i: nat)
    requires |s| == SECTOR && q < Words(c) && i < c.Length()
    ensures Added(Partly(s, c, q, i), c, q, i) == Partly(s, c, q, i + 1)
  {
    hide Xor, Contribution, At, SetParity;
    var t := Partly(s, c, q, i);
    SameData(s, t, c, q);
    assert Data(s, c, q)[i] == Data(t, c, q)[i] == t[At(c, q, i)];
    SameSector(Added(t, c, q, i), Partly(s, c, q, i + 1), c);
  }

  /** Words do not disturb each other. */
  lemma AddedElsewhere(s: seq<Byte>, c: Code, q: nat, i: nat, r: nat, n: nat)
    requires |s| == SECTOR && q < Words(c) && i < c.Length() && r < Words(c) && r != q && n <= c.Length()
    ensures Added(Partly(s, c, r, n), c, q, i) == Partly(Added(s, c, q, i), c, r, n)
  {
    hide Xor, Contribution, At, SetParity, Parity;
    var t, u := Partly(s, c, r, n), Added(s, c, q, i);
    SameData(s, t, c, q);
    SameData(s, u, c, r);
    assert Data(s, c, q)[i] == s[At(c, q, i)] && Data(t, c, q)[i] == t[At(c, q, i)];
    SameSector(Added(t, c, q, i), Partly(u, c, r, n), c);
  }

  /** Parity over no data is zero. */
  lemma PartlyNothing(s: seq<Byte>, c: Code, q: nat)
    requires |s| == SECTOR && q < Words(c) && s[Start(c) + q] == 0 && s[Start(c) + Words(c) + q] == 0
    ensures Partly(s, c, q, 0) == s
  {
    hide SetParity;
    SameSector(Partly(s, c, q, 0), s, c);
  }

  /** Both byte lanes of one column or diagonal of words. */
  function Pair(s: seq<Byte>, c: Code, j: nat, n: nat): (t: seq<Byte>)
    requires |s| == SECTOR && 2 * j + 1 < Words(c) && n <= c.Length()
    ensures |t| == SECTOR
  {
    Partly(Partly(s, c, 2 * j, n), c, 2 * j + 1, n)
  }

  lemma PairStep(s: seq<Byte>, c: Code, j: nat, i: nat)
    requires |s| == SECTOR && 2 * j + 1 < Words(c) && i < c.Length()
    ensures Added(Added(Pair(s, c, j, i), c, 2 * j, i), c, 2 * j + 1, i) == Pair(s, c, j, i + 1)
  {
    hide Partly, Added;
    AddedElsewhere(Partly(s, c, 2 * j, i), c, 2 * j, i, 2 * j + 1, i);
    AddedOnce(s, c, 2 * j, i);
    AddedOnce(Partly(s, c, 2 * j, i + 1), c, 2 * j + 1, i);
  }

  lemma PairStarts(s: seq<Byte>, c: Code, j: nat)
    requires |s| == SECTOR && 2 * j + 1 < Words(c)
    ensures Pair(Encoded(s, c, 2 * j), c, j, 0) == Encoded(s, c, 2 * j)
  {
    hide Partly, Encoded, Parity;
    EncodedWords(s, c, 2 * j, 2 * j);
    EncodedWords(s, c, 2 * j, 2 * j + 1);
    PartlyNothing(Encoded(s, c, 2 * j), c, 2 * j);
    PartlyNothing(Encoded(s, c, 2 * j), c, 2 * j + 1);
  }

  lemma PairIsTwoWords(s: seq<Byte>, c: Code, j: nat)
    requires |s| == SECTOR && 2 * j + 1 < Words(c)
    ensures Pair(Encoded(s, c, 2 * j), c, j, c.Length()) == Encoded(s, c, 2 * j + 2)
  {
    hide Partly;
    assert Encoded(s, c, 2 * j + 1) == Partly(Encoded(s, c, 2 * j), c, 2 * j, c.Length());
  }

  method EncodePair(c: Code, p: array<Byte>, j: nat, ghost s: seq<Byte>)
    requires p.Length == SECTOR == |s| && 2 * j + 1 < Words(c)
    requires p[..] == Encoded(s, c, 2 * j)
    modifies p
    ensures p[..] == Encoded(s, c, 2 * j + 2)
  {
    hide Added, Partly, Pair;
    ghost var t := p[..];
    PairStarts(s, c, j);
    for i := 0 to c.Length()
      invariant p[..] == Pair(t, c, j, i)
    {
      PairStep(t, c, j, i);
      Accumulate(c, p, 2 * j, i);
      Accumulate(c, p, 2 * j + 1, i);
    }
    PairIsTwoWords(s, c, j);
  }

  /** memset */
  method Fill(p: array<Byte>, from: nat, count: nat, b: Byte)
    requires from + count <= p.Length
    modifies p
    ensures p[..from] == old(p[..from]) && p[from + count..] == old(p[from + count..])
    ensures forall k | from <= k < from + count :: p[k] == b
  {
    for i := 0 to count
      invariant forall k | 0 <= k < p.Length :: p[k] == if from <= k < from + i then b else old(p[k])
    {
      p[from + i] := b;
    }
  }

  /** encode_L2_P and encode_L2_Q: every word gets its parity. */
  method EncodeParity(c: Code, p: array<Byte>)
    requires p.Length == SECTOR
    modifies p
    ensures p[..] == Encoded(old(p[..]), c, Words(c))
  {
    hide Partly;
    ghost var s := p[..];
    Fill(p, Start(c), 2 * Words(c), 0);
    SameSector(p[..], Cleared(s, c), c);
    for j := 0 to Words(c) / 2
      invariant p[..] == Encoded(s, c, 2 * j)
    {
      EncodePair(c, p, j, s);
    }
  }

  // ----- the whole sector

  /** The machine's int division and remainder, towards zero, and the cast to a byte. */
  function Quot(a: int, b: int): int
    requires b > 0
  {
    if a >= 0 then a / b else -(-a / b)
  }

  function Rem(a: int, b: int): int
    requires b > 0
  {
    a - b * Quot(a, b)
  }

  function U8(a: int): Byte { a % 0x100 }

  /** Two decimal digits in one byte. */
  function ToBcd(v: Byte): Byte {
    U8(v / 10 * 16 + v % 10)
  }

  function FromBcd(b: Byte): nat { b / 16 * 10 + b % 16 }

  /** Minute, second and frame of a sector address. */
  function Header(address: int): (h: seq<Byte>)
    ensures |h| == 4
  {
    [ToBcd(U8(Quot(address, 60 * 75))), ToBcd(U8(Rem(Quot(address, 75), 60))), ToBcd(U8(Rem(address, 75))), 1]
  }

  lemma DivideTwice(address: nat)
    ensures address / 75 / 60 == address / 4500
  {
    var n, m := address / 75, address / 75 / 60;
    assert address == 75 * n + address % 75 && n == 60 * m + n % 60;
    assert address == 4500 * m + (75 * (n % 60) + address % 75);
  }

  lemma Remainders(address: nat)
    ensures Quot(address, 60 * 75) == address / 4500
    ensures Rem(Quot(address, 75), 60) == address / 75 % 60 && Rem(address, 75) == address % 75
  {
  }

  /** A number below 16 and one digit, as a byte takes them. */
  lemma Digits(t: nat, u: nat)
    requires t < 26 && u < 10
    ensures U8(16 * t + u) == if t < 16 then 16 * t + u else 16 * (t - 16) + u
  {
  }

  lemma DigitsBack(t: nat, u: nat)
    requires t < 16 && u < 10
    ensures FromBcd(16 * t + u) == 10 * t + u
  {
    assert (16 * t + u) / 16 == t && (16 * t + u) % 16 == u;
  }

  lemma TensAndUnits(v: Byte)
    ensures var t, u := v / 10, v % 10; t < 26 && u < 10 && v == 10 * t + u && ToBcd(v) == U8(16 * t + u)
  {
    hide U8;
  }

  /** A byte is read back up to 159: the tens then no longer fit. */
  lemma BcdReadsBack(v: Byte)
    ensures FromBcd(ToBcd(v)) == v <==> v < 160
    ensures FromBcd(ToBcd(v)) < 166
  {
    hide FromBcd, ToBcd, U8;
    TensAndUnits(v);
    var t, u := v / 10, v % 10;
    Digits(t, u);
    DigitsBack(if t < 16 then t else t - 16, u);
  }

  lemma HeaderOf(address: nat)
    ensures Header(address) == [ToBcd(U8(address / 4500)), ToBcd(address / 75 % 60), ToBcd(address % 75), 1]
  {
    hide ToBcd, Quot, Rem;
    Remainders(address);
  }

  /** What the header says: minute, second and frame. */
  function ReadBack(h: seq<Byte>): nat
    requires |h| == 4
  {
    (FromBcd(h[0]) * 60 + FromBcd(h[1])) * 75 + FromBcd(h[2])
  }

  /** The address can be read back from the header for 160 minutes, and no
      longer. */
  lemma HeaderReadsBack(address: int)
    ensures ReadBack(Header(address)) == address <==> 0 <= address < 160 * 60 * 75
  {
    hide FromBcd, ToBcd, Header;
    if address >= 0 {
      var m, n := address / 4500, address / 75;
      HeaderOf(address);
      BcdReadsBack(U8(m));
      BcdReadsBack(n % 60);
      BcdReadsBack(address % 75);
      DivideTwice(address);
    }
  }

  function Sync(): (h: seq<Byte>)
    ensures |h| == 12
  {
    [0] + seq(11, _ => 0xff)
  }

  /** A sector before its parity: sync, header, user data, EDC, eight zeros. */
  function Frame(s: seq<Byte>, address: int): (t: seq<Byte>)
    requires |s| == SECTOR
    ensures |t| == SECTOR
  {
    var head := Sync() + Header(address) + s[16..2064];
    head + Words32.BytesOf(CdEdc.Division(0, head)) + Zeros(8) + s[2076..]
  }

  /** The finished sector. */
  function Sector(s: seq<Byte>, address: int): (t: seq<Byte>)
    requires |s| == SECTOR
    ensures |t| == SECTOR
  {
    Encoded(Encoded(Frame(s, address), P, Words(P)), Q, Words(Q))
  }

  /** Sync pattern and header in front of the user data. */
  method PutHeader(p: array<Byte>, address: int)
    requires p.Length == SECTOR
    modifies p
    ensures p[..] == Sync() + Header(address) + old(p[..])[16..]
  {
    hide ToBcd, U8, Quot, Rem;
    p[0] := 0;
    Fill(p, 1, 11, 0xff);
    p[12] := ToBcd(U8(Quot(address, 60 * 75)));
    p[13] := ToBcd(U8(Rem(Quot(address, 75), 60)));
    p[14] := ToBcd(U8(Rem(address, 75)));
    p[15] := 1;
    assert p[..12] == Sync();
    assert p[12..16] == Header(address);
    assert p[16..] == old(p[..])[16..];
    assert p[..] == p[..12] + p[12..16] + p[16..];
  }

  /** Four bytes of a long, low byte first. */
  method PutLong(p: array<Byte>, at: nat, v: bv32)
    requires at + 4 <= p.Length
    modifies p
    ensures p[..] == old(p[..])[..at] + Words32.BytesOf(v) + old(p[..])[at + 4..]
  {
    hide Words32.NatOf, Words32.Lo;
    p[at] := Words32.NatOf(Words32.Lo(v));
    p[at + 1] := Words32.NatOf(Words32.Lo(v >> 8));
    p[at + 2] := Words32.NatOf(Words32.Lo(v >> 16));
    p[at + 3] := Words32.NatOf(Words32.Lo(v >> 24));
  }

  /** The error detection code, low byte first, and eight zeros. */
  method PutEdc(p: array<Byte>)
    requires p.Length == SECTOR
    modifies p
    ensures var s := old(p[..]);
            p[..] == s[..2064] + Words32.BytesOf(CdEdc.Division(0, s[..2064])) + Zeros(8) + s[2076..]
  {
    hide CdEdc.Division, Words32.BytesOf;
    ghost var s := p[..];
    var v := CdEdc.BuildEdc(p, 0, 16 + 2048 - 1);
    assert s[..2064] == p[0..2064];
    PutLong(p, 2064, v);
    Fill(p, 2068, 8, 0);
    assert p[2068..2076] == Zeros(8);
    assert p[..2068] == s[..2064] + Words32.BytesOf(v);
    assert p[..] == p[..2068] + p[2068..2076] + p[2076..];
  }

  /** encode_l2 */
  method EncodeL2(p: array<Byte>, address: int)
    requires p.Length == SECTOR
    modifies p
    ensures p[..] == Sector(old(p[..]), address)
  {
    hide CdEdc.Division, Words32.BytesOf, Header, Encoded;
    ghost var s := p[..];
    PutHeader(p, address);
    assert p[..2064] == Sync() + Header(address) + s[16..2064];
    assert p[2076..] == s[2076..];
    PutEdc(p);
    assert p[..] == Frame(s, address);
    EncodeParity(P, p);
    EncodeParity(Q, p);
  }

  /** In front of the parities the sector is its frame. */
  lemma SectorFront(s: seq<Byte>, address: int)
    requires |s| == SECTOR
    ensures Sector(s, address)[..2076] == Frame(s, address)[..2076]
  {
    hide Frame, Encoded;
    var f := Frame(s, address);
    var e := Encoded(f, P, Words(P));
    EncodedWords(f, P, Words(P), 0);
    EncodedWords(e, Q, Words(Q), 0);
    assert Sector(s, address)[..2076] == Sector(s, address)[..Start(Q)][..2076] == e[..Start(Q)][..2076] == e[..2076];
  }

  /** The parts of a frame. */
  lemma FrameParts(s: seq<Byte>, address: int)
    requires |s| == SECTOR
    ensures var f := Frame(s, address); var head := Sync() + Header(address) + s[16..2064];
            && f[..16] == Sync() + Header(address) && f[16..2064] == s[16..2064]
            && f[..2068] == head + Words32.BytesOf(CdEdc.Division(0, head)) && f[2068..2076] == Zeros(8)
  {
    hide CdEdc.Division, Words32.BytesOf, Header;
  }

  lemma SameFront(t: seq<Byte>, f: seq<Byte>)
    requires |t| == |f| == SECTOR && t[..2076] == f[..2076]
    ensures t[..2068] == f[..2068] && t[..16] == f[..16] && t[16..2064] == f[16..2064] && t[2068..2076] == f[2068..2076]
  {
    assert t[..2068] == t[..2076][..2068] && f[..2068] == f[..2076][..2068];
    assert t[..16] == t[..2076][..16] && f[..16] == f[..2076][..16];
    assert t[16..2064] == t[..2076][16..2064] && f[16..2064] == f[..2076][16..2064];
    assert t[2068..2076] == t[..2076][2068..] && f[2068..2076] == f[..2076][2068..];
  }

  /** What a finished sector promises its reader: the user data untouched, a
      division of everything up to the EDC without remainder, and no syndrome
      in any column or diagonal. */
  lemma SectorIsGood(s: seq<Byte>, address: int)
    requires |s| == SECTOR
    ensures var t := Sector(s, address);
            t[..16] == Sync() + Header(address) && t[16..2064] == s[16..2064]
            && CdEdc.Division(0, t[..2068]) == 0 && (forall k | 2068 <= k < 2076 :: t[k] == 0)
  {
    hide CdEdc.Division, Words32.BytesOf, Header, Frame, Sector;
    var f, t := Frame(s, address), Sector(s, address);
    SectorFront(s, address);
    FrameParts(s, address);
    CdEdc.ResidueIsZero(Sync() + Header(address) + s[16..2064]);
    SameFront(t, f);
    assert forall k | 2068 <= k < 2076 :: t[k] == t[2068..2076][k - 2068];
  }

  /** Two digits in one byte. */
  function TwoDigits(v: nat): nat { 16 * (v / 10) + v % 10 }

  lemma DigitsAre(v: nat)
    requires v < 100
    ensures ToBcd(v) == TwoDigits(v)
  {
  }

  /** The first sixteen bytes: sync pattern, minute, second and frame in two
      digits each, mode 1. */
  lemma SectorStarts(s: seq<Byte>, address: nat)
    requires |s| == SECTOR && address < 100 * 60 * 75
    ensures Sector(s, address)[..16]
         == [0, 255, 255, 255, 255, 255, 255, 255, 255, 255, 255, 255,
             TwoDigits(address / 4500), TwoDigits(address / 75 % 60), TwoDigits(address % 75), 1]
  {
    hide Sector, ToBcd, Header, TwoDigits, Quot, Rem;
    SectorIsGood(s, address);
    HeaderOf(address);
    assert U8(address / 4500) == address / 4500;
    DigitsAre(address / 4500);
    DigitsAre(address / 75 % 60);
    DigitsAre(address % 75);
  }

  /** The Q parity lies behind all P columns. */
  lemma SameColumn(s: seq<Byte>, t: seq<Byte>, q: nat)
    requires |s| == |t| == SECTOR && q < Words(P) && s[..Start(Q)] == t[..Start(Q)]
    ensures Word(s, P, q) == Word(t, P, q)
  {
    forall i | 0 <= i < 26
      ensures s[At(P, q, i)] == t[At(P, q, i)]
    {
      var k := At(P, q, i);
      assert s[k] == s[..Start(Q)][k] == t[..Start(Q)][k] == t[k];
    }
  }

  lemma SectorHasNoSyndrome(s: seq<Byte>, address: int, c: Code, q: nat, j: nat)
    requires |s| == SECTOR && q < Words(c) && j < 2
    ensures Syndrome(Word(Sector(s, address), c, q), j) == 0
  {
    hide Syndrome, Word, Encoded, Frame;
    var f := Frame(s, address);
    var e := Encoded(f, P, Words(P));
    if c.P? {
      WordIsCodeWord(f, P, q);
      CodeWordHasNoSyndrome(P, j, Data(f, P, q));
      EncodedWords(e, Q, Words(Q), 0);
      SameColumn(e, Sector(s, address), q);
    } else {
      WordIsCodeWord(e, Q, q);
      CodeWordHasNoSyndrome(Q, j, Data(e, Q, q));
    }
  }

  /** A change of one byte of the sector is a change of one byte of the word it
      belongs to. */
  lemma ChangeInWord(s: seq<Byte>, c: Code, q: nat, i: nat, x: Byte)
    requires |s| == SECTOR && q < Words(c) && i < c.Length() + 2
    ensures Word(s[At(c, q, i) := x], c, q) == Word(s, c, q)[i := x]
  {
    hide At, IndexOf;
    OnlyOnce(c, q, i);
    forall k | 0 <= k < c.Length() + 2
      ensures s[At(c, q, i) := x][At(c, q, k)] == if k == i then x else s[At(c, q, k)]
    {
      OnlyOnce(c, q, k);
    }
  }

  /** Whatever the sector, changing one or two bytes of one column or diagonal
      of the encoded sector leaves a syndrome that is not zero there. */
  lemma SectorDetectsChange(s: seq<Byte>, address: int, c: Code, q: nat, k: nat, x: Byte, l: nat, y: Byte)
    requires |s| == SECTOR && q < Words(c) && k < l < c.Length() + 2
    requires x != Sector(s, address)[At(c, q, k)] || y != Sector(s, address)[At(c, q, l)]
    ensures var t := Sector(s, address)[At(c, q, k) := x][At(c, q, l) := y];
            Syndrome(Word(t, c, q), 0) != 0 || Syndrome(Word(t, c, q), 1) != 0
  {
    hide Syndrome, Sector, At;
    var t := Sector(s, address);
    SectorHasNoSyndrome(s, address, c, q, 0);
    SectorHasNoSyndrome(s, address, c, q, 1);
    ChangeInWord(t, c, q, k, x);
    ChangeInWord(t[At(c, q, k) := x], c, q, l, y);
    ChangeIsDetected(Word(t, c, q), k, x, l, y);
  }
}
