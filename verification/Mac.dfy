/** The A2065 trades the card's Ethernet address for the host's in every frame
    (a2065.cpp, dofakemac and mungepacket): in the header, in ARP, and in DHCP,
    where the UDP checksum has to follow. */
module Mac {
  import opened Numbers
  import opened XorNat

  const MAX_PACKET_SIZE := 4000

  /** The packet buffer. */
  type Packet = s: seq<Byte> | |s| == MAX_PACKET_SIZE witness seq(MAX_PACKET_SIZE, _ => 0)

  type Address = s: seq<Byte> | |s| == 6 witness seq(6, _ => 0)

  /** The address the card claims, and the host's. */
  datatype Macs = Macs(fake: Address, host: Address)

  function Word(p: Packet, at: nat): (w: nat)
    requires at + 1 < MAX_PACKET_SIZE
    ensures w < 0x1_0000
  {
    Pair(p[at], p[at + 1])
  }

  // ----- dofakemac

  function Traded(m: Macs, a: Address): Address {
    if a == m.fake then m.host else if a == m.host then m.fake else a
  }

  predicate Ours(m: Macs, a: Address) { a == m.fake || a == m.host }

  function Six(p: Packet, at: nat): Address
    requires at + 6 <= MAX_PACKET_SIZE
  {
    p[at..at + 6]
  }

  /** Six bytes replaced. */
  function Splice(p: Packet, at: nat, a: Address): (r: Packet)
    requires at + 6 <= MAX_PACKET_SIZE
    ensures Six(r, at) == a
    ensures forall k | 0 <= k < MAX_PACKET_SIZE && !(at <= k < at + 6) :: r[k] == p[k]
  {
    p[..at] + a + p[at + 6..]
  }

  function Trade(m: Macs, p: Packet, at: nat): Packet
    requires at + 6 <= MAX_PACKET_SIZE
  {
    Splice(p, at, Traded(m, Six(p, at)))
  }

  /** Trading twice brings the address back. */
  lemma TradedTwice(m: Macs, a: Address)
    ensures Traded(m, Traded(m, a)) == a && Ours(m, Traded(m, a)) == Ours(m, a)
  {
  }

  // ----- what mungepacket looks at

  predicate IsArp(p: Packet) { Word(p, 12) == 0x0806 && Word(p, 14) == 1 && p[18] == 6 }

  predicate IsUdp(p: Packet) { Word(p, 12) == 0x0800 && p[23] == 17 }

  /** Where the UDP header starts. */
  function Udp(p: Packet): (at: nat)
    ensures 14 <= at <= 74
  {
    14 + 4 * (p[14] % 16)
  }

  predicate IsDhcpPort(v: nat) { v == 67 || v == 68 }

  predicate IsDhcp(p: Packet) {
    IsUdp(p) && (IsDhcpPort(Word(p, Udp(p))) || IsDhcpPort(Word(p, Udp(p) + 2)))
  }

  function Length(p: Packet): nat { Word(p, Udp(p) + 4) }

  /** The checksum is there, and the address it covers changes. */
  predicate Rewrites(m: Macs, p: Packet) {
    IsDhcp(p) && Ours(m, Six(p, Udp(p) + 36)) && Word(p, Udp(p) + 6) != 0
  }

  /** The datagram, and the byte behind it that is cleared, lie in the buffer. */
  predicate Fits(m: Macs, p: Packet) {
    Rewrites(m, p) ==> Udp(p) + Length(p) + 1 < MAX_PACKET_SIZE
  }

  /** The addresses of the frame traded: in the header always, in ARP sender and
      target, in DHCP the client. */
  function TradeAll(m: Macs, p: Packet): Packet {
    var q := Trade(m, Trade(m, p, 0), 6);
    if IsArp(p) then Trade(m, Trade(m, q, 22), 32)
    else if IsDhcp(p) then Trade(m, q, Udp(p) + 36)
    else q
  }

  // ----- the checksum

  /** The sum of the 16-bit words of `n` bytes from `at` on. */
  function WordSum(p: Packet, at: nat, n: nat): nat
    requires n % 2 == 0 && at + n <= MAX_PACKET_SIZE
  {
    if n == 0 then 0 else WordSum(p, at, n - 2) + Word(p, at + n - 2)
  }

  /** Pseudo-header and datagram, an odd datagram filled up. */
  function Sum(p: Packet, at: nat, len: nat): nat
    requires at + len + 1 < MAX_PACKET_SIZE
  {
    WordSum(p, at, len + len % 2) + WordSum(p, 26, 8) + 17 + len
  }

  /** Carries added back in until 16 bits are left. */
  function Fold(s: nat): (f: nat)
    ensures f < 0x1_0000
  {
    if s / 0x1_0000 == 0 then s else Fold(s % 0x1_0000 + s / 0x1_0000)
  }

  lemma DropWhole(v: nat, h: nat, w: nat)
    requires w == v + 0xffff * h
    ensures w % 0xffff == v % 0xffff
  {
  }

  lemma {:induction false} FoldIsRemainder(s: nat)
    ensures Fold(s) == if s == 0 then 0 else (s - 1) % 0xffff + 1
    decreases s
  {
    if s / 0x1_0000 > 0 {
      var h, l := s / 0x1_0000, s % 0x1_0000;
      FoldIsRemainder(l + h);
      DropWhole(l + h - 1, h, s - 1);
    }
  }

  /** The complement of a folded sum completes it; none of it, or twice of it,
      does so only if there was nothing to complete. */
  lemma Completes(s: nat)
    requires s > 0
    ensures var c := 0xffff - Fold(s);
            Fold(s + c) == 0xffff && (Fold(s) == 0xffff <==> c == 0) && (Fold(s + 2 * c) == 0xffff <==> c == 0)
  {
    hide Fold;
    FoldIsRemainder(s);
    var f := Fold(s);
    var c := 0xffff - f;
    var q := (s - 1) / 0xffff;
    FoldIsRemainder(s + c);
    DropWhole(0xfffe, q, s + c - 1);
    FoldIsRemainder(s + 2 * c);
    if c > 0 {
      DropWhole(c - 1, q + 1, s + 2 * c - 1);
    } else {
      DropWhole(0xfffe, q, s + 2 * c - 1);
    }
  }

  // ----- mungepacket

  function PutWord(p: Packet, at: nat, w: nat): (r: Packet)
    requires at + 1 < MAX_PACKET_SIZE && w < 0x1_0000
  {
    p[at := w / 0x100][at + 1 := w % 0x100]
  }

  /** Checksum cleared, and the byte behind the datagram. */
  function Cleared(p: Packet, at: nat, len: nat): Packet
    requires at + 7 < MAX_PACKET_SIZE && at + len < MAX_PACKET_SIZE
  {
    PutWord(p, at + 6, 0)[at + len := 0]
  }

  /** `~` of an unsigned 32-bit number. */
  function Not32(s: nat): (c: nat)
    requires s < 0x1_0000_0000
    ensures c < 0x1_0000_0000
  {
    0xffff_ffff - s
  }

  lemma Not32IsComplement(s: bv32)
    ensures !s == 0xffff_ffff - s
  {
  }

  /** What is made of a folded sum: its complement on 32 bits, with 0 replaced,
      and of that the low 16 bits. */
  function Stored(f: nat): (c: nat)
    requires f < 0x1_0000
    ensures c < 0x1_0000
  {
    var c := Not32(f);
    (if c == 0 then 0xffff else c) % 0x1_0000
  }

  /** The complement is never 0, so a folded sum of 0xffff is stored as 0. */
  lemma NeverReplaced(f: nat)
    requires f < 0x1_0000
    ensures Not32(f) != 0 && Stored(f) == 0xffff - f && (Stored(f) == 0 <==> f == 0xffff)
  {
    assert Not32(f) == 0xffff * 0x1_0000 + (0xffff - f);
  }

  /** The checksum of pseudo-header and datagram. */
  function Checksum(p: Packet, at: nat, len: nat): (c: nat)
    requires at + len + 1 < MAX_PACKET_SIZE
    ensures c < 0x1_0000
  {
    Stored(Fold(Sum(p, at, len)))
  }

  function Rechecksum(p: Packet, at: nat, len: nat): Packet
    requires at + 7 < MAX_PACKET_SIZE && at + len + 1 < MAX_PACKET_SIZE
  {
    var z := Cleared(p, at, len);
    PutWord(z, at + 6, Checksum(z, at, len))
  }

  function Munge(m: Macs, p: Packet, len: nat): Packet
    requires Fits(m, p)
  {
    if len < 20 then p
    else if Rewrites(m, p) then Rechecksum(TradeAll(m, p), Udp(p), Length(p))
    else TradeAll(m, p)
  }

  /** The addresses that make mungepacket report a change; the client address
      of a datagram without a checksum is not among them. */
  predicate Reports(m: Macs, p: Packet, len: nat) {
    len >= 20
    && (Ours(m, Six(p, 0)) || Ours(m, Six(p, 6))
        || (IsArp(p) && (Ours(m, Six(p, 22)) || Ours(m, Six(p, 32))))
        || Rewrites(m, p))
  }

  // ----- twice is nothing

  lemma TradeOutside(m: Macs, p: Packet, at: nat, k: nat)
    requires at + 6 <= MAX_PACKET_SIZE && k < MAX_PACKET_SIZE && !(at <= k < at + 6)
    ensures Trade(m, p, at)[k] == p[k]
  {
    hide Traded;
  }

  lemma TradeSlice(m: Macs, p: Packet, at: nat, k: nat)
    requires at + 6 <= MAX_PACKET_SIZE && k + 6 <= MAX_PACKET_SIZE && (k + 6 <= at || at + 6 <= k)
    ensures Six(Trade(m, p, at), k) == Six(p, k) && Six(Trade(m, p, at), at) == Traded(m, Six(p, at))
  {
    hide Traded;
  }

  /** The parts of a frame the addresses are traded in. */
  predicate Touched(m: Macs, p: Packet, k: nat) {
    k < 12 || (IsArp(p) && (22 <= k < 28 || 32 <= k < 38)) || (IsDhcp(p) && Udp(p) + 36 <= k < Udp(p) + 42)
  }

  lemma TradeAllOutside(m: Macs, p: Packet, k: nat)
    requires k < MAX_PACKET_SIZE && !Touched(m, p, k)
    ensures TradeAll(m, p)[k] == p[k]
  {
    hide Trade, IsArp, IsDhcp, Udp;
    var q := Trade(m, Trade(m, p, 0), 6);
    TradeOutside(m, p, 0, k);
    TradeOutside(m, Trade(m, p, 0), 6, k);
    if IsArp(p) {
      TradeOutside(m, q, 22, k);
      TradeOutside(m, Trade(m, q, 22), 32, k);
    } else if IsDhcp(p) {
      TradeOutside(m, q, Udp(p) + 36, k);
    }
  }

  lemma HeaderTraded(m: Macs, p: Packet)
    ensures Six(TradeAll(m, p), 0) == Traded(m, Six(p, 0)) && Six(TradeAll(m, p), 6) == Traded(m, Six(p, 6))
  {
    hide Trade, IsArp, IsDhcp, Traded, Udp;
    var a := Trade(m, p, 0);
    var b := Trade(m, a, 6);
    TradeSlice(m, p, 0, 6);
    TradeSlice(m, a, 6, 0);
    if IsArp(p) {
      TradeSlice(m, b, 22, 0);
      TradeSlice(m, b, 22, 6);
      TradeSlice(m, Trade(m, b, 22), 32, 0);
      TradeSlice(m, Trade(m, b, 22), 32, 6);
    } else if IsDhcp(p) {
      TradeSlice(m, b, Udp(p) + 36, 0);
      TradeSlice(m, b, Udp(p) + 36, 6);
    }
  }

  lemma ArpTraded(m: Macs, p: Packet)
    requires IsArp(p)
    ensures Six(TradeAll(m, p), 22) == Traded(m, Six(p, 22)) && Six(TradeAll(m, p), 32) == Traded(m, Six(p, 32))
  {
    hide Trade, IsArp, Traded;
    var a := Trade(m, p, 0);
    var b := Trade(m, a, 6);
    TradeSlice(m, p, 0, 22);
    TradeSlice(m, a, 6, 22);
    TradeSlice(m, p, 0, 32);
    TradeSlice(m, a, 6, 32);
    TradeSlice(m, b, 22, 32);
    TradeSlice(m, Trade(m, b, 22), 32, 22);
  }

  lemma DhcpTraded(m: Macs, p: Packet, u: nat)
    requires IsDhcp(p) && !IsArp(p) && u == Udp(p) + 36
    ensures Six(TradeAll(m, p), u) == Traded(m, Six(p, u))
  {
    hide Trade, IsArp, IsDhcp, Traded;
    TradeSlice(m, p, 0, u);
    TradeSlice(m, Trade(m, p, 0), 6, u);
    TradeSlice(m, Trade(m, Trade(m, p, 0), 6), u, 0);
  }

  lemma ArpIsNotUdp(p: Packet)
    ensures !(IsArp(p) && IsUdp(p)) && !(IsArp(p) && IsDhcp(p))
  {
  }

  /** The trade changes nothing mungepacket decides by. */
  lemma SameDecisions(m: Macs, p: Packet)
    ensures var q := TradeAll(m, p);
            Word(q, 12) == Word(p, 12) && Udp(q) == Udp(p) && IsArp(q) == IsArp(p) && IsDhcp(q) == IsDhcp(p)
            && (IsDhcp(p) ==> Length(q) == Length(p) && Word(q, Udp(p) + 6) == Word(p, Udp(p) + 6))
  {
    hide TradeAll, Pair;
    var q := TradeAll(m, p);
    ArpIsNotUdp(p);
    TradeAllOutside(m, p, 12);
    TradeAllOutside(m, p, 13);
    TradeAllOutside(m, p, 14);
    TradeAllOutside(m, p, 15);
    TradeAllOutside(m, p, 18);
    if !IsArp(p) {
      TradeAllOutside(m, p, 23);
      var u := Udp(p);
      TradeAllOutside(m, p, u);
      TradeAllOutside(m, p, u + 1);
      TradeAllOutside(m, p, u + 2);
      TradeAllOutside(m, p, u + 3);
      TradeAllOutside(m, p, u + 4);
      TradeAllOutside(m, p, u + 5);
      TradeAllOutside(m, p, u + 6);
      TradeAllOutside(m, p, u + 7);
    }
  }

  lemma SliceByte(p: Packet, q: Packet, at: nat, k: nat)
    requires at + 6 <= MAX_PACKET_SIZE && Six(p, at) == Six(q, at) && at <= k < at + 6
    ensures p[k] == q[k]
  {
    assert p[k] == Six(p, at)[k - at] && q[k] == Six(q, at)[k - at];
  }

  /** Trading all addresses twice gives the frame back. */
  lemma TradeAllTwice(m: Macs, p: Packet)
    ensures TradeAll(m, TradeAll(m, p)) == p
  {
    hide TradeAll, Traded, IsArp, IsDhcp, Udp, Word;
    var q := TradeAll(m, p);
    var r := TradeAll(m, q);
    ArpIsNotUdp(p);
    SameDecisions(m, p);
    HeaderTraded(m, p);
    HeaderTraded(m, q);
    TradedTwice(m, Six(p, 0));
    TradedTwice(m, Six(p, 6));
    if IsArp(p) {
      ArpTraded(m, p);
      ArpTraded(m, q);
      TradedTwice(m, Six(p, 22));
      TradedTwice(m, Six(p, 32));
    } else if IsDhcp(p) {
      DhcpTraded(m, p, Udp(p) + 36);
      DhcpTraded(m, q, Udp(p) + 36);
      TradedTwice(m, Six(p, Udp(p) + 36));
    }
    forall k | 0 <= k < MAX_PACKET_SIZE
      ensures r[k] == p[k]
    {
      if !Touched(m, p, k) {
        TradeAllOutside(m, p, k);
        TradeAllOutside(m, q, k);
      } else if k < 6 {
        SliceByte(r, p, 0, k);
      } else if k < 12 {
        SliceByte(r, p, 6, k);
      } else if IsArp(p) {
        SliceByte(r, p, if k < 28 then 22 else 32, k);
      } else {
        SliceByte(r, p, Udp(p) + 36, k);
      }
    }
  }

  /** On every frame whose checksum is not rewritten, mungepacket undoes itself:
      so on every frame that is not UDP. */
  lemma MungeTwice(m: Macs, p: Packet, len: nat)
    requires !Rewrites(m, p)
    ensures !Rewrites(m, Munge(m, p, len)) && Munge(m, Munge(m, p, len), len) == p
    ensures Reports(m, Munge(m, p, len), len) == Reports(m, p, len)
  {
    hide TradeAll, Traded, IsArp, IsDhcp, Udp, Length, Word;
    var q := TradeAll(m, p);
    SameDecisions(m, p);
    ArpIsNotUdp(p);
    TradeAllTwice(m, p);
    HeaderTraded(m, p);
    TradedTwice(m, Six(p, 0));
    TradedTwice(m, Six(p, 6));
    if IsArp(p) {
      ArpTraded(m, p);
      TradedTwice(m, Six(p, 22));
      TradedTwice(m, Six(p, 32));
    } else if IsDhcp(p) {
      DhcpTraded(m, p, Udp(p) + 36);
      TradedTwice(m, Six(p, Udp(p) + 36));
    }
  }

  // ----- the checksum after a rewrite

  lemma WordSumStep(p: Packet, at: nat, n: nat)
    requires n % 2 == 0 && n > 0 && at + n <= MAX_PACKET_SIZE
    ensures WordSum(p, at, n) == WordSum(p, at, n - 2) + Word(p, at + n - 2)
  {
    hide Word;
  }

  lemma WordSumNothing(p: Packet, at: nat)
    requires at <= MAX_PACKET_SIZE
    ensures WordSum(p, at, 0) == 0
  {
  }

  lemma LastEven(at: nat, n: nat, pos: nat)
    requires n % 2 == 0 && n > 0 && (pos - at) % 2 == 0
    ensures (at + n - 2 - pos) % 2 == 0 && (at + n - 2 <= pos < at + n ==> pos == at + n - 2)
    ensures (pos - (at + n - 2)) % 2 == 0
  {
  }

  lemma PutWordAt(p: Packet, pos: nat, w: nat, at: nat)
    requires pos + 1 < MAX_PACKET_SIZE && w < 0x1_0000 && at + 1 < MAX_PACKET_SIZE && (pos - at) % 2 == 0
    ensures Word(PutWord(p, pos, w), at) == if at == pos then w else Word(p, at)
  {
  }

  lemma {:induction false} WordSumAfterPut(p: Packet, at: nat, n: nat, pos: nat, w: nat)
    requires n % 2 == 0 && at + n <= MAX_PACKET_SIZE && pos + 1 < MAX_PACKET_SIZE && w < 0x1_0000
    requires (pos - at) % 2 == 0 && Word(p, pos) == 0
    ensures WordSum(PutWord(p, pos, w), at, n) == WordSum(p, at, n) + if at <= pos < at + n then w else 0
    decreases n
  {
    hide WordSum, Word, PutWord;
    if n == 0 {
      WordSumNothing(p, at);
      WordSumNothing(PutWord(p, pos, w), at);
    } else {
      WordSumAfterPut(p, at, n - 2, pos, w);
      WordSumStep(p, at, n);
      WordSumStep(PutWord(p, pos, w), at, n);
      PutWordAt(p, pos, w, at + n - 2);
      LastEven(at, n, pos);
    }
  }

  /** How often the checksum itself is summed: once in the datagram, if that
      reaches so far, and once more if a header of 8 or 12 bytes puts it among
      the addresses. */
  function Counted(at: nat, len: nat): nat {
    (if len >= 7 then 1 else 0) + if at == 22 || at == 26 then 1 else 0
  }

  lemma SumAfterPut(p: Packet, at: nat, len: nat, c: nat)
    requires 14 <= at && at % 4 == 2 && at + len + 1 < MAX_PACKET_SIZE && at + 7 < MAX_PACKET_SIZE && c < 0x1_0000
    requires Word(p, at + 6) == 0
    ensures Sum(PutWord(p, at + 6, c), at, len) == Sum(p, at, len) + Counted(at, len) * c
  {
    hide Word, PutWord, WordSum;
    WordSumAfterPut(p, at, len + len % 2, at + 6, c);
    WordSumAfterPut(p, 26, 8, at + 6, c);
  }

  lemma ClearedIsClear(p: Packet, at: nat, len: nat)
    requires at + 7 < MAX_PACKET_SIZE && at + len < MAX_PACKET_SIZE
    ensures Word(Cleared(p, at, len), at + 6) == 0
  {
  }

  /** What the datagram amounts to without its checksum. */
  function Bare(p: Packet, at: nat, len: nat): nat
    requires at + 7 < MAX_PACKET_SIZE && at + len + 1 < MAX_PACKET_SIZE
  {
    Fold(Sum(Cleared(p, at, len), at, len))
  }

  lemma SumPositive(p: Packet, at: nat, len: nat)
    requires at + len + 1 < MAX_PACKET_SIZE
    ensures Sum(p, at, len) > 0
  {
    hide WordSum;
  }

  /** After the rewrite, pseudo-header and datagram fold to 0xffff exactly when
      the sum meets the new checksum once, or folded to 0xffff without it. */
  lemma RechecksumFolds(p: Packet, at: nat, len: nat)
    requires 14 <= at && at % 4 == 2 && at + len + 1 < MAX_PACKET_SIZE && at + 7 < MAX_PACKET_SIZE
    ensures var r := Rechecksum(p, at, len);
            (Fold(Sum(r, at, len)) == 0xffff <==> Counted(at, len) == 1 || Bare(p, at, len) == 0xffff)
            && (Word(r, at + 6) == 0 <==> Bare(p, at, len) == 0xffff)
  {
    hide Word, PutWord, Fold, Sum, Cleared, Stored;
    var z := Cleared(p, at, len);
    var s := Sum(z, at, len);
    var c := Checksum(z, at, len);
    ClearedIsClear(p, at, len);
    NeverReplaced(Fold(s));
    SumAfterPut(z, at, len, c);
    PutWordAt(z, at + 6, c, at + 6);
    SumPositive(z, at, len);
    Completes(s);
  }

  /** A DHCP frame with a complete UDP header behind an IP header of at least
      five words leaves with a checksum that is right; for any other frame the
      traded datagram decides. */
  lemma MungedChecksumFolds(m: Macs, p: Packet, len: nat)
    requires Fits(m, p) && len >= 20 && Rewrites(m, p)
    ensures var r := Munge(m, p, len); var bare := Bare(TradeAll(m, p), Udp(p), Length(p));
            (Fold(Sum(r, Udp(p), Length(p))) == 0xffff <==> Counted(Udp(p), Length(p)) == 1 || bare == 0xffff)
            && (Word(r, Udp(p) + 6) == 0 <==> bare == 0xffff)
    ensures p[14] % 16 >= 5 && Length(p) >= 8 ==> Counted(Udp(p), Length(p)) == 1
  {
    hide Fold, Sum, TradeAll, Rechecksum, Length, Word, Bare;
    RechecksumFolds(TradeAll(m, p), Udp(p), Length(p));
  }

  // ----- the routines, in the packet buffer

  method CopyIn(packet: array<Byte>, at: nat, a: Address)
    requires packet.Length == MAX_PACKET_SIZE && at + 6 <= MAX_PACKET_SIZE
    modifies packet
    ensures packet[..] == Splice(old(packet[..]), at, a)
  {
    forall k | 0 <= k < 6 {
      packet[at + k] := a[k];
    }
  }

  /** dofakemac */
  method DoFakeMac(m: Macs, packet: array<Byte>, at: nat) returns (ours: bool)
    requires packet.Length == MAX_PACKET_SIZE && at + 6 <= MAX_PACKET_SIZE
    modifies packet
    ensures packet[..] == Trade(m, old(packet[..]), at) && ours == Ours(m, Six(old(packet[..]), at))
  {
    var a := packet[at..at + 6];
    assert a == Six(packet[..], at);
    if a == m.fake {
      CopyIn(packet, at, m.host);
      return true;
    }
    if a == m.host {
      CopyIn(packet, at, m.fake);
      return true;
    }
    assert packet[..] == Splice(packet[..], at, a);
    return false;
  }

  method SumWords(packet: array<Byte>, at: nat, n: nat) returns (sum: nat)
    requires packet.Length == MAX_PACKET_SIZE && n % 2 == 0 && at + n <= MAX_PACKET_SIZE
    ensures sum == WordSum(packet[..], at, n)
  {
    hide Word;
    sum := 0;
    var i := 0;
    while i < n
      invariant 0 <= i <= n && i % 2 == 0
      invariant sum == WordSum(packet[..], at, i)
    {
      sum := sum + Word(packet[..], at + i);
      i := i + 2;
    }
  }

  method FoldSum(s: nat) returns (sum: nat)
    ensures sum == Fold(s)
  {
    sum := s;
    while sum / 0x1_0000 > 0
      invariant Fold(sum) == Fold(s)
      decreases sum
    {
      sum := sum % 0x1_0000 + sum / 0x1_0000;
    }
  }

  method Put(packet: array<Byte>, at: nat, w: nat)
    requires packet.Length == MAX_PACKET_SIZE && at + 1 < MAX_PACKET_SIZE && w < 0x1_0000
    modifies packet
    ensures packet[..] == PutWord(old(packet[..]), at, w)
  {
    packet[at] := w / 0x100;
    packet[at + 1] := w % 0x100;
  }

  /** The checksum of the datagram at `at`, made anew. */
  method FixChecksum(packet: array<Byte>, at: nat, len: nat)
    requires packet.Length == MAX_PACKET_SIZE && at + 7 < MAX_PACKET_SIZE && at + len + 1 < MAX_PACKET_SIZE
    modifies packet
    ensures packet[..] == Rechecksum(old(packet[..]), at, len)
  {
    hide PutWord, Word, WordSum, Fold;
    Put(packet, at + 6, 0);
    packet[at + len] := 0;
    ghost var z := packet[..];
    assert z == Cleared(old(packet[..]), at, len);
    var sum := SumWords(packet, at, len + len % 2);
    var pseudo := SumWords(packet, 26, 8);
    var folded := FoldSum(sum + pseudo + 17 + len);
    Put(packet, at + 6, Stored(folded));
  }

  /** The frame behind the header. */
  function Body(m: Macs, q: Packet): Packet
    requires Fits(m, q)
  {
    if IsArp(q) then Trade(m, Trade(m, q, 22), 32)
    else if IsDhcp(q) then
      var r := Trade(m, q, Udp(q) + 36);
      if Rewrites(m, q) then Rechecksum(r, Udp(q), Length(q)) else r
    else q
  }

  predicate BodyReports(m: Macs, q: Packet) {
    (IsArp(q) && (Ours(m, Six(q, 22)) || Ours(m, Six(q, 32)))) || Rewrites(m, q)
  }

  /** What mungepacket decides by lies behind the header. */
  lemma HeaderSame(m: Macs, p: Packet)
    ensures var q := Trade(m, Trade(m, p, 0), 6);
            (forall k | 12 <= k < MAX_PACKET_SIZE :: q[k] == p[k]) && q[12..] == p[12..]
            && (forall k | 12 <= k <= MAX_PACKET_SIZE - 6 :: Six(q, k) == Six(p, k))
            && Ours(m, Six(Trade(m, p, 0), 6)) == Ours(m, Six(p, 6))
  {
    hide Trade, Six, Ours, Traded;
    var q := Trade(m, Trade(m, p, 0), 6);
    forall k | 12 <= k < MAX_PACKET_SIZE
      ensures q[k] == p[k]
    {
      TradeOutside(m, p, 0, k);
      TradeOutside(m, Trade(m, p, 0), 6, k);
    }
    forall k | 12 <= k <= MAX_PACKET_SIZE - 6
      ensures Six(q, k) == Six(p, k)
    {
      TradeSlice(m, p, 0, k);
      TradeSlice(m, Trade(m, p, 0), 6, k);
    }
    TradeSlice(m, p, 0, 6);
  }

  lemma SameFields(p: Packet, q: Packet)
    requires forall k | 12 <= k < MAX_PACKET_SIZE :: q[k] == p[k]
    ensures IsArp(q) == IsArp(p) && IsDhcp(q) == IsDhcp(p) && Udp(q) == Udp(p) && Length(q) == Length(p)
    ensures Word(q, Udp(p) + 6) == Word(p, Udp(p) + 6)
  {
    hide Pair;
  }

  lemma MungeIsBody(m: Macs, p: Packet, len: nat)
    requires Fits(m, p) && len >= 20
    ensures var q := Trade(m, Trade(m, p, 0), 6);
            Fits(m, q) && Munge(m, p, len) == Body(m, q)
            && Reports(m, p, len)
               == (Ours(m, Six(p, 0)) || Ours(m, Six(Trade(m, p, 0), 6)) || BodyReports(m, q))
  {
    hide Trade, IsArp, IsDhcp, Udp, Length, Word, Six, Ours, Traded, Rechecksum;
    HeaderSame(m, p);
    SameFields(p, Trade(m, Trade(m, p, 0), 6));
    ArpIsNotUdp(p);
  }

  lemma CheckKept(m: Macs, q: Packet, at: nat)
    requires 14 <= at <= 74
    ensures Word(Trade(m, q, at + 36), at + 6) == Word(q, at + 6)
  {
    hide Traded, Pair;
  }

  method MungeUdp(m: Macs, packet: array<Byte>, at: nat) returns (ret: bool)
    requires packet.Length == MAX_PACKET_SIZE && Fits(m, packet[..])
    requires IsUdp(packet[..]) && at == Udp(packet[..])
    modifies packet
    ensures packet[..] == Body(m, old(packet[..])) && ret == BodyReports(m, old(packet[..]))
  {
    hide Trade, Ours, Word, Rechecksum, IsUdp, IsArp, Traded;
    ghost var q := packet[..];
    var sp, dp, len := Word(packet[..], at), Word(packet[..], at + 2), Word(packet[..], at + 4);
    ArpIsNotUdp(q);
    ret := false;
    if IsDhcpPort(sp) || IsDhcpPort(dp) {
      var udpcrc := DoFakeMac(m, packet, at + 36);
      CheckKept(m, q, at);
      if udpcrc && Word(packet[..], at + 6) != 0 {
        FixChecksum(packet, at, len);
        ret := true;
      }
    }
  }

  method MungeBody(m: Macs, packet: array<Byte>) returns (ret: bool)
    requires packet.Length == MAX_PACKET_SIZE && Fits(m, packet[..])
    modifies packet
    ensures packet[..] == Body(m, old(packet[..])) && ret == BodyReports(m, old(packet[..]))
  {
    hide Trade, Ours, Word, Rechecksum, Traded, Udp;
    ghost var q := packet[..];
    ArpIsNotUdp(q);
    var type_ := Word(packet[..], 12);
    ret := false;
    if type_ == 0x0806 {
      if Word(packet[..], 14) == 1 && packet[18] == 6 {
        var sender := DoFakeMac(m, packet, 22);
        TradeSlice(m, q, 22, 32);
        var target := DoFakeMac(m, packet, 32);
        ret := sender || target;
      }
    } else if type_ == 0x0800 {
      if packet[23] == 17 {
        ret := MungeUdp(m, packet, Udp(packet[..]));
      }
    }
  }

  /** mungepacket */
  method MungePacket(m: Macs, packet: array<Byte>, len: int) returns (ret: bool)
    requires packet.Length == MAX_PACKET_SIZE && Fits(m, packet[..])
    modifies packet
    ensures packet[..] == Munge(m, old(packet[..]), if len < 0 then 0 else len)
    ensures ret == Reports(m, old(packet[..]), if len < 0 then 0 else len)
  {
    hide Trade, Ours, Body, BodyReports;
    ghost var p := packet[..];
    if len < 20 {
      return false;
    }
    MungeIsBody(m, p, len);
    hide Munge, Reports, Fits;
    var dst := DoFakeMac(m, packet, 0);
    var src := DoFakeMac(m, packet, 6);
    ret := MungeBody(m, packet);
    ret := dst || src || ret;
  }
}
