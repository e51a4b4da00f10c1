/** mungepacket frame by frame, from the bytes on the wire: which of the two
    addresses stands where afterwards, and what else changes. */
module MacFrames {
  import opened XorNat
  import opened Mac

  /** Six bytes that hold the card's address hold the host's afterwards, the
      host's the card's, and any other address stays. */
  ghost predicate Swapped(m: Macs, p: Packet, q: Packet, at: nat)
    requires at + 6 <= MAX_PACKET_SIZE
  {
    var a, b := p[at..at + 6], q[at..at + 6];
    if a == m.fake then b == m.host else if a == m.host then b == m.fake else b == a
  }

  lemma SwappedIs(m: Macs, p: Packet, q: Packet, at: nat)
    requires at + 6 <= MAX_PACKET_SIZE && Six(q, at) == Traded(m, Six(p, at))
    ensures Swapped(m, p, q, at)
  {
  }

  lemma FourBytes(p: Packet, a: Byte, b: Byte, c: Byte, d: Byte)
    requires p[12..16] == [a, b, c, d]
    ensures p[12] == a && p[13] == b && p[14] == c && p[15] == d
  {
    assert p[12..16][0] == p[12] && p[12..16][1] == p[13] && p[12..16][2] == p[14] && p[12..16][3] == p[15];
  }

  /** An ARP frame for Ethernet: EtherType 0x0806, hardware type 1, addresses of
      six bytes.  The two header addresses, sender and target. */
  lemma ArpFrames(m: Macs, p: Packet, len: nat)
    requires len >= 20 && p[12..16] == [8, 6, 0, 1] && p[18] == 6
    ensures var q := Munge(m, p, len);
            && Swapped(m, p, q, 0) && Swapped(m, p, q, 6) && Swapped(m, p, q, 22) && Swapped(m, p, q, 32)
            && forall k | 12 <= k < 22 || 28 <= k < 32 || 38 <= k < MAX_PACKET_SIZE :: q[k] == p[k]
  {
    hide TradeAll, Traded, Six, Swapped;
    FourBytes(p, 8, 6, 0, 1);
    assert IsArp(p);
    ArpIsNotUdp(p);
    HeaderTraded(m, p);
    ArpTraded(m, p);
    var q := TradeAll(m, p);
    SwappedIs(m, p, q, 0);
    SwappedIs(m, p, q, 6);
    SwappedIs(m, p, q, 22);
    SwappedIs(m, p, q, 32);
    forall k | 12 <= k < 22 || 28 <= k < 32 || 38 <= k < MAX_PACKET_SIZE
      ensures q[k] == p[k]
    {
      TradeAllOutside(m, p, k);
    }
  }

  /** The UDP header of an IP datagram. */
  function Header(p: Packet): nat { 14 + 4 * (p[14] % 16) }

  /** A UDP datagram (EtherType 0x0800, protocol 17) to or from one of the ports
      67 and 68. */
  ghost predicate DhcpFrame(p: Packet) {
    var u := Header(p);
    p[12..14] == [8, 0] && p[23] == 17
    && (p[u..u + 2] == [0, 67] || p[u..u + 2] == [0, 68] || p[u + 2..u + 4] == [0, 67] || p[u + 2..u + 4] == [0, 68])
  }

  lemma PairIs(p: Packet, at: nat, a: Byte, b: Byte)
    requires at + 2 <= MAX_PACKET_SIZE
    ensures p[at..at + 2] == [a, b] <==> Word(p, at) == a * 0x100 + b
  {
    assert p[at..at + 2] == [p[at], p[at + 1]];
  }

  lemma DhcpIs(p: Packet)
    ensures DhcpFrame(p) <==> IsDhcp(p)
    ensures Header(p) == Udp(p)
  {
    hide Word;
    var u := Header(p);
    PairIs(p, 12, 8, 0);
    PairIs(p, u, 0, 67);
    PairIs(p, u, 0, 68);
    PairIs(p, u + 2, 0, 67);
    PairIs(p, u + 2, 0, 68);
  }

  /** The client's hardware address is one of the two, and the datagram has a
      checksum. */
  ghost predicate Anew(m: Macs, p: Packet) {
    var u := Header(p);
    var client := p[u + 36..u + 42];
    (client == m.fake || client == m.host) && p[u + 6..u + 8] != [0, 0]
  }

  lemma AnewIs(m: Macs, p: Packet)
    requires DhcpFrame(p)
    ensures Anew(m, p) <==> Rewrites(m, p)
  {
    hide DhcpFrame, IsDhcp, Word;
    DhcpIs(p);
    PairIs(p, Header(p) + 6, 0, 0);
  }

  /** What belongs to the checksum: its two bytes, and the one behind the
      datagram. */
  predicate OfChecksum(u: nat, length: nat, k: nat) { u + 6 <= k < u + 8 || k == u + length }

  lemma RechecksumKeeps(p: Packet, u: nat, length: nat, k: nat)
    requires u + 7 < MAX_PACKET_SIZE && 8 <= length && u + length + 1 < MAX_PACKET_SIZE && k < MAX_PACKET_SIZE
    ensures var q := Rechecksum(p, u, length);
            (!OfChecksum(u, length, k) ==> q[k] == p[k]) && (k == u + length ==> q[k] == 0)
  {
    hide Checksum;
  }

  lemma RechecksumSlice(p: Packet, u: nat, length: nat, at: nat)
    requires u + 7 < MAX_PACKET_SIZE && 42 <= length && u + length + 1 < MAX_PACKET_SIZE && 14 <= u
    requires at == 0 || at == 6 || at == u + 36
    ensures Six(Rechecksum(p, u, length), at) == Six(p, at)
  {
    hide Rechecksum;
    forall k | at <= k < at + 6
      ensures Rechecksum(p, u, length)[k] == p[k]
    {
      RechecksumKeeps(p, u, length, k);
    }
  }

  /** A DHCP frame: the header addresses and the client's hardware address are
      traded. */
  lemma DhcpAddresses(m: Macs, p: Packet, len: nat)
    requires len >= 20 && DhcpFrame(p) && Fits(m, p) && Length(p) >= 42
    ensures var q := Munge(m, p, len); Swapped(m, p, q, 0) && Swapped(m, p, q, 6) && Swapped(m, p, q, Header(p) + 36)
  {
    hide TradeAll, Traded, Six, Swapped, IsArp, IsUdp, Word, Length, Rechecksum, DhcpFrame;
    DhcpIs(p);
    ArpIsNotUdp(p);
    HeaderTraded(m, p);
    var u := Header(p);
    DhcpTraded(m, p, u + 36);
    var t := TradeAll(m, p);
    var q := Munge(m, p, len);
    if Rewrites(m, p) {
      RechecksumSlice(t, u, Length(p), 0);
      RechecksumSlice(t, u, Length(p), 6);
      RechecksumSlice(t, u, Length(p), u + 36);
    }
    SwappedIs(m, p, q, 0);
    SwappedIs(m, p, q, 6);
    SwappedIs(m, p, q, u + 36);
  }

  /** Of the rest only the checksum changes, and the byte behind the datagram is
      cleared, and both only if the client's address is traded and there was a
      checksum. */
  lemma DhcpRest(m: Macs, p: Packet, len: nat, k: nat)
    requires len >= 20 && DhcpFrame(p) && Fits(m, p) && Length(p) >= 42
    requires var u := Header(p); 12 <= k < MAX_PACKET_SIZE && !(u + 36 <= k < u + 42)
    ensures !(Anew(m, p) && OfChecksum(Header(p), Length(p), k)) ==> Munge(m, p, len)[k] == p[k]
    ensures Anew(m, p) && k == Header(p) + Length(p) ==> Munge(m, p, len)[k] == 0
  {
    hide TradeAll, IsArp, IsUdp, Word, Length, Rechecksum, DhcpFrame, Anew, OfChecksum;
    DhcpIs(p);
    ArpIsNotUdp(p);
    AnewIs(m, p);
    TradeAllOutside(m, p, k);
    if Rewrites(m, p) {
      RechecksumKeeps(TradeAll(m, p), Header(p), Length(p), k);
    }
  }

  lemma ArpBytes(p: Packet)
    ensures IsArp(p) ==> p[12..16] == [8, 6, 0, 1] && p[18] == 6
  {
  }

  /** Any other frame of at least 20 bytes: the header addresses; and of a
      shorter one nothing. */
  lemma OtherFrames(m: Macs, p: Packet, len: nat)
    requires !(p[12..16] == [8, 6, 0, 1] && p[18] == 6) && !DhcpFrame(p)
    ensures var q := Munge(m, p, len);
            && (len >= 20 ==> Swapped(m, p, q, 0) && Swapped(m, p, q, 6)
                              && forall k | 12 <= k < MAX_PACKET_SIZE :: q[k] == p[k])
            && (len < 20 ==> q == p)
  {
    hide TradeAll, Traded, Six, Swapped, Word, DhcpFrame, Udp;
    DhcpIs(p);
    ArpBytes(p);
    HeaderTraded(m, p);
    var q := TradeAll(m, p);
    SwappedIs(m, p, q, 0);
    SwappedIs(m, p, q, 6);
    forall k | 12 <= k < MAX_PACKET_SIZE
      ensures q[k] == p[k]
    {
      TradeAllOutside(m, p, k);
    }
  }
}
