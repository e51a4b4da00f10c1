/** Two DHCP frames: one whose rewritten checksum is wrong, and one whose
    checksum is right and comes out 0. */
module MacExamples {
  import opened Mac
  import opened Numbers
  import opened XorNat

  lemma {:induction false} WordSumAppend(p: Packet, at: nat, a: nat, b: nat)
    requires a % 2 == 0 && b % 2 == 0 && at + a + b <= MAX_PACKET_SIZE
    ensures WordSum(p, at, a + b) == WordSum(p, at, a) + WordSum(p, at + a, b)
    decreases b
  {
    hide WordSum, Word;
    if b == 0 {
      WordSumNothing(p, at + a);
    } else {
      WordSumAppend(p, at, a, b - 2);
      WordSumStep(p, at, a + b);
      WordSumStep(p, at + a, b);
    }
  }

  lemma {:induction false} WordSumOfZeros(p: Packet, at: nat, n: nat)
    requires n % 2 == 0 && at + n <= MAX_PACKET_SIZE && forall k | at <= k < at + n :: p[k] == 0
    ensures WordSum(p, at, n) == 0
    decreases n
  {
    if n > 0 {
      WordSumOfZeros(p, at, n - 2);
    }
  }

  /** The card's address is all zeros, the host's 1. */
  function ExampleMacs(): Macs { Macs([0, 0, 0, 0, 0, 0], [0, 0, 0, 0, 0, 1]) }

  /** A DHCP datagram of 50 bytes from port `port` to port 67 with checksum 1,
      behind an IP header of `words` words. Two words leave the source port no
      choice: its low byte is the protocol. */
  function Example(words: nat, port: nat): Packet
    requires words < 16 && port < 0x1_0000
  {
    var u := 14 + 4 * words;
    var z := seq(MAX_PACKET_SIZE, _ => 0)[12 := 8][14 := 0x40 + words][23 := 17];
    PutWord(PutWord(PutWord(PutWord(z, u, port), u + 2, 67), u + 4, 50), u + 6, 1)
  }

  predicate ExampleCase(words: nat, port: nat) {
    (words == 2 && port == 17) || (words == 5 && port < 0x1_0000)
  }

  /** Byte `k` of the example behind its Ethernet addresses. */
  function ExampleByte(words: nat, port: nat, k: nat): nat {
    var u := 14 + 4 * words;
    if k == u then port / 0x100
    else if k == u + 1 then port % 0x100
    else if k == u + 3 then 67
    else if k == u + 5 then 50
    else if k == u + 7 then 1
    else if k == 12 then 8
    else if k == 14 then 0x40 + words
    else if k == 23 then 17
    else 0
  }

  lemma ExampleBytes(words: nat, port: nat, k: nat)
    requires ExampleCase(words, port) && k < MAX_PACKET_SIZE
    ensures Example(words, port)[k] == ExampleByte(words, port, k)
  {
  }

  lemma ExampleHeader(words: nat, port: nat)
    requires ExampleCase(words, port)
    ensures var p := Example(words, port);
            Word(p, 12) == 0x0800 && p[14] % 16 == words && p[23] == 17 && Udp(p) == 14 + 4 * words
  {
    hide Example;
    ExampleBytes(words, port, 12);
    ExampleBytes(words, port, 13);
    ExampleBytes(words, port, 14);
    ExampleBytes(words, port, 23);
  }

  lemma ExampleWord(words: nat, port: nat, at: nat)
    requires ExampleCase(words, port) && at + 1 < MAX_PACKET_SIZE
    ensures Word(Example(words, port), at) == Pair(ExampleByte(words, port, at), ExampleByte(words, port, at + 1))
  {
    hide Example, ExampleByte, Pair;
    ExampleBytes(words, port, at);
    ExampleBytes(words, port, at + 1);
  }

  lemma ExampleAddress(words: nat, port: nat)
    requires ExampleCase(words, port)
    ensures Six(Example(words, port), 14 + 4 * words + 36) == [0, 0, 0, 0, 0, 0]
  {
    hide Example;
    var u := 14 + 4 * words;
    var a := Six(Example(words, port), u + 36);
    forall k | 0 <= k < 6
      ensures a[k] == 0
    {
      ExampleBytes(words, port, u + 36 + k);
    }
  }

  lemma ExampleFields(words: nat, port: nat)
    requires ExampleCase(words, port)
    ensures var p := Example(words, port);
            Udp(p) == 14 + 4 * words && IsDhcp(p) && !IsArp(p) && Length(p) == 50
            && Rewrites(ExampleMacs(), p) && Fits(ExampleMacs(), p)
  {
    hide Example, Six, Udp, Word;
    var p, u := Example(words, port), 14 + 4 * words;
    ExampleHeader(words, port);
    ExampleWord(words, port, u + 2);
    ExampleWord(words, port, u + 4);
    ExampleWord(words, port, u + 6);
    ExampleAddress(words, port);
  }

  lemma ClearedByte(p: Packet, at: nat, len: nat, k: nat)
    requires at + 7 < MAX_PACKET_SIZE && at + len < MAX_PACKET_SIZE && k < MAX_PACKET_SIZE
    ensures Cleared(p, at, len)[k] == if k == at + 6 || k == at + 7 || k == at + len then 0 else p[k]
  {
  }

  lemma ExampleClient(words: nat, port: nat, k: nat)
    requires ExampleCase(words, port)
    requires var u := 14 + 4 * words; u + 36 <= k < u + 42
    ensures ExampleByte(words, port, k) == 0
    ensures var u := 14 + 4 * words;
            TradeAll(ExampleMacs(), Example(words, port))[k] == if k == u + 41 then 1 else 0
  {
    hide TradeAll, Example, IsDhcp, IsArp, Udp, Length, Rewrites, Fits;
    var m, p, u := ExampleMacs(), Example(words, port), 14 + 4 * words;
    ExampleFields(words, port);
    ExampleAddress(words, port);
    DhcpTraded(m, p, u + 36);
    var t := TradeAll(m, p);
    assert Six(t, u + 36) == [0, 0, 0, 0, 0, 1];
    assert t[k] == Six(t, u + 36)[k - (u + 36)];
  }

  /** The example with its addresses traded and its checksum cleared. */
  lemma ExampleCleared(words: nat, port: nat, k: nat)
    requires ExampleCase(words, port)
    requires var u := 14 + 4 * words; u <= k < u + 50 || 26 <= k < u
    ensures var u := 14 + 4 * words; var z := Cleared(TradeAll(ExampleMacs(), Example(words, port)), u, 50);
            z[k] == if k == u + 41 then 1 else if k == u + 6 || k == u + 7 then 0 else ExampleByte(words, port, k)
  {
    hide TradeAll, Example, IsDhcp, IsArp, Udp, Traded, ExampleByte, Cleared, Length, Rewrites, Fits, Six;
    var m, p, u := ExampleMacs(), Example(words, port), 14 + 4 * words;
    ExampleFields(words, port);
    ExampleBytes(words, port, k);
    ClearedByte(TradeAll(m, p), u, 50, k);
    if u + 36 <= k < u + 42 {
      ExampleClient(words, port, k);
    } else {
      TradeAllOutside(m, p, k);
    }
  }

  lemma ExampleClearedWord(words: nat, port: nat, at: nat, w: nat)
    requires ExampleCase(words, port)
    requires var u := 14 + 4 * words;
             (at == u && w == port) || (at == u + 2 && w == 67) || (at == u + 4 && w == 50) || (at == u + 6 && w == 0)
             || (at == u + 40 && w == 1)
    ensures Word(Cleared(TradeAll(ExampleMacs(), Example(words, port)), 14 + 4 * words, 50), at) == w
  {
    hide TradeAll, Example, Cleared;
    ExampleCleared(words, port, at);
    ExampleCleared(words, port, at + 1);
  }

  lemma WordOfZeros(p: Packet, at: nat)
    requires at + 1 < MAX_PACKET_SIZE && p[at] == 0 && p[at + 1] == 0
    ensures Word(p, at) == 0
  {
  }

  lemma FourWords(p: Packet, at: nat)
    requires at + 8 <= MAX_PACKET_SIZE
    ensures WordSum(p, at, 8) == Word(p, at) + Word(p, at + 2) + Word(p, at + 4) + Word(p, at + 6)
  {
    hide WordSum, Word;
    WordSumStep(p, at, 8);
    WordSumStep(p, at, 6);
    WordSumStep(p, at, 4);
    WordSumStep(p, at, 2);
    WordSumNothing(p, at);
  }

  /** What the example amounts to without its checksum. */
  lemma ExampleSum(words: nat, port: nat)
    requires ExampleCase(words, port)
    ensures var u := 14 + 4 * words; var z := Cleared(TradeAll(ExampleMacs(), Example(words, port)), u, 50);
            Sum(z, u, 50) == if words == 2 then 252 else port + 185
  {
    hide Word, Cleared, TradeAll, Example;
    var u := 14 + 4 * words;
    var z := Cleared(TradeAll(ExampleMacs(), Example(words, port)), u, 50);
    forall k | (u + 8 <= k < u + 40) || (u + 42 <= k < u + 50) || (26 <= k < u)
      ensures z[k] == 0
    {
      ExampleCleared(words, port, k);
    }
    ExampleClearedWord(words, port, u, port);
    ExampleClearedWord(words, port, u + 2, 67);
    ExampleClearedWord(words, port, u + 4, 50);
    ExampleClearedWord(words, port, u + 6, 0);
    ExampleClearedWord(words, port, u + 40, 1);
    hide WordSum, ExampleByte;
    WordSumAppend(z, u, 8, 42);
    WordSumAppend(z, u + 8, 32, 10);
    WordSumAppend(z, u + 40, 2, 8);
    WordSumOfZeros(z, u + 8, 32);
    WordSumOfZeros(z, u + 42, 8);
    FourWords(z, u);
    WordSumStep(z, u + 40, 2);
    WordSumNothing(z, u + 40);
    if words == 2 {
      FourWords(z, 26);
      WordOfZeros(z, 30);
      WordOfZeros(z, 32);
    } else {
      WordSumOfZeros(z, 26, 8);
    }
  }

  /** With an IP header of two words the sum meets the checksum twice, and the
      rewritten datagram is wrong. */
  lemma TwiceIsWrong()
    ensures var m, p := ExampleMacs(), Example(2, 17);
            Fits(m, p) && Rewrites(m, p) && Counted(Udp(p), Length(p)) == 2
            && Fold(Sum(Munge(m, p, 72), Udp(p), Length(p))) != 0xffff
  {
    hide Example, Munge, TradeAll, Sum, Word, Cleared, Length, Udp, IsDhcp, Rewrites, Six;
    ExampleFields(2, 17);
    ExampleSum(2, 17);
    MungedChecksumFolds(ExampleMacs(), Example(2, 17), 72);
    assert Fold(252) == 252;
  }

  /** A right datagram whose checksum comes out 0, which stands for none. */
  lemma RightButZero()
    ensures var m, p := ExampleMacs(), Example(5, 65350);
            Fits(m, p) && Rewrites(m, p) && Counted(Udp(p), Length(p)) == 1
            && Fold(Sum(Munge(m, p, 84), Udp(p), Length(p))) == 0xffff
            && Word(Munge(m, p, 84), Udp(p) + 6) == 0
  {
    hide Example, Munge, TradeAll, Sum, Word, Cleared, Length, Udp, IsDhcp, Rewrites, Six;
    ExampleFields(5, 65350);
    ExampleSum(5, 65350);
    MungedChecksumFolds(ExampleMacs(), Example(5, 65350), 84);
    assert Fold(0xffff) == 0xffff;
  }
}
