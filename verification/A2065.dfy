/** The A2065 Ethernet card (a2065.cpp): receiving into and transmitting from
    the descriptor rings in its memory. */
module A2065 {
  import opened XorNat
  import opened LanceMemory
  import Crc
  import Mac
  import R = LanceReceive
  import T = LanceTransmit
  import Words32

  /** The bits of CSR0 the two routines change. */
  datatype Csr0 = Csr0(rxon: bool, txon: bool, miss: bool, rint: bool, tint: bool)

  function Broadcast(): Mac.Address { [0xff, 0xff, 0xff, 0xff, 0xff, 0xff] }

  /** The frame in the buffer that is worked on; what lies behind it counts for
      nothing. */
  function Staged(frame: seq<Byte>, old_: Mac.Packet): Mac.Packet
    requires |frame| <= Mac.MAX_PACKET_SIZE
  {
    frame + old_[|frame|..]
  }

  /** The frame check sequence. */
  function WithFcs(frame: seq<Byte>): (s: seq<Byte>)
    ensures |s| == |frame| + 4
  {
    frame + Words32.PutBe(Crc.Crc32(frame))
  }

  /** What gotfunc lets through: the host's frames for the card, broadcasts,
      multicasts if any filter bit is set, and nothing the host sent itself. */
  predicate Accepts(rxon: bool, multicast: bool, prom: bool, host: Mac.Address, frame: seq<Byte>) {
    rxon && |frame| >= 20
    && (var dst, src := frame[0..6], frame[6..12];
        (if dst[0] % 2 == 1 && dst != Broadcast() then multicast
         else prom || dst == host || dst == Broadcast())
        && !(dst == host && src == host) && !(dst == Broadcast() && src == host))
  }

  /** Which frames reach the ring, by their addresses; the host's own address
      is not a multicast one. */
  lemma ReachesRing(multicast: bool, prom: bool, host: Mac.Address, frame: seq<Byte>)
    requires |frame| >= 20 && host[0] % 2 == 0
    ensures var dst, src := frame[0..6], frame[6..12];
            var accepted := Accepts(true, multicast, prom, host, frame);
            && (dst == host ==> (accepted <==> src != host))
            && (dst == [0xff, 0xff, 0xff, 0xff, 0xff, 0xff] ==> (accepted <==> src != host))
            && (dst[0] % 2 == 1 && dst != [0xff, 0xff, 0xff, 0xff, 0xff, 0xff] ==> (accepted <==> multicast))
            && (dst[0] % 2 == 0 && dst != host ==> (accepted <==> prom))
    ensures !Accepts(false, multicast, prom, host, frame)
    ensures forall k :: 0 <= k < 20 ==> !Accepts(true, multicast, prom, host, frame[..k])
  {
  }

  function Blank(): Mac.Packet { seq(Mac.MAX_PACKET_SIZE, _ => 0) }

  /** What goes to the ring: the frame with addresses traded, and its check
      sequence. */
  function Delivery(m: Mac.Macs, frame: seq<Byte>): seq<Byte>
    requires |frame| <= Mac.MAX_PACKET_SIZE && Mac.Fits(m, Staged(frame, Blank()))
  {
    WithFcs(Mac.Munge(m, Staged(frame, Blank()), |frame|)[..|frame|])
  }

  /** What do_transmit changes. */
  datatype Sender = Sender(ram: Ram, buffer: Mac.Packet, offset: nat, length: nat, csr0: Csr0)

  /** The frame fits the transmit buffer, and a datagram in it too. */
  predicate Sendable(m: Mac.Macs, ring: Ring, s: Sender)
    requires ring.Valid()
  {
    var out := T.Gather(s.ram, ring, s.offset % ring.length, []).out;
    |out| <= Mac.MAX_PACKET_SIZE && Mac.Fits(m, Staged(out, s.buffer))
  }

  /** The frame behind the loop, which has put the bytes it gathered into the
      transmit buffer, whatever became of them. */
  function Dispatched(m: Mac.Macs, cut: bool, g: T.Gathering, s: Sender): Sender
    requires g.at + 8 <= RAM_SIZE && |g.out| <= Mac.MAX_PACKET_SIZE && Mac.Fits(m, Staged(g.out, s.buffer))
  {
    var buffer := Staged(g.out, s.buffer);
    if |g.out| < 60 then
      Sender(T.Fail(g.ram, g.at), buffer, g.offset, s.length, s.csr0.(txon := false, tint := true))
    else if g.err then
      Sender(g.ram, buffer, g.offset, s.length, s.csr0.(txon := false, tint := true))
    else
      var n := if cut then |g.out| - 4 else |g.out|;
      Sender(g.ram, Mac.Munge(m, buffer, n), g.offset, n, s.csr0.(tint := true))
  }

  /** A chain that starts at the ring offset goes out as one frame, if it is
      whole and no shorter than 60 bytes; the check sequence the program has
      appended is cut off where the chip would make its own. */
  function Transmitted(m: Mac.Macs, ring: Ring, dtcr: bool, s: Sender): Sender
    requires ring.Valid() && Sendable(m, ring, s)
  {
    var o := s.offset % ring.length;
    var flags := GetDescriptor(s.ram, ring.Address(o)).flags;
    if !flags.own || !flags.stp then s.(offset := o + 1)
    else Dispatched(m, dtcr && !flags.bit5, T.Gather(s.ram, ring, o, []), s)
  }

  lemma OnceReduced(o: nat, l: nat)
    requires l > 0
    ensures o % l % l == o % l
  {
    ModuloTwice(o, l);
  }

  lemma FirstIs(ram: Ram, ring: Ring, o: nat)
    requires ring.Valid()
    ensures Nth(ram, ring, o, 0) == GetDescriptor(ram, ring.Address(o))
  {
    hide GetDescriptor;
  }

  /** A first descriptor that is not own, or does not start a frame, is
      skipped. */
  lemma Skips(m: Mac.Macs, ring: Ring, dtcr: bool, s: Sender)
    requires ring.Valid() && Sendable(m, ring, s)
    requires var first := Nth(s.ram, ring, s.offset % ring.length, 0).flags; !first.own || !first.stp
    ensures Transmitted(m, ring, dtcr, s) == s.(offset := s.offset % ring.length + 1)
  {
    hide T.Gather, GetDescriptor, Dispatched;
    FirstIs(s.ram, ring, s.offset % ring.length);
  }

  /** The chain at the ring offset starts a frame, and `n` descriptors further an
      own one ends it within a lap. */
  ghost predicate Whole(ring: Ring, s: Sender, n: nat)
    requires ring.Valid()
  {
    var o := s.offset % ring.length;
    var first := Nth(s.ram, ring, o, 0).flags;
    first.own && first.stp && T.ChainLength(s.ram, ring, o, 0) == n < ring.length && Nth(s.ram, ring, o, n).flags.own
  }

  /** What is gathered: the buffers of the chain, one after another. */
  ghost function Gathered(ring: Ring, s: Sender): seq<Byte>
    requires ring.Valid()
  {
    var o := s.offset % ring.length;
    var n := T.ChainLength(s.ram, ring, o, 0);
    T.Frame(s.ram, ring, o, if n < ring.length && Nth(s.ram, ring, o, n).flags.own then n + 1 else n)
  }

  lemma GatheredIs(m: Mac.Macs, ring: Ring, s: Sender)
    requires ring.Valid() && Sendable(m, ring, s) && T.Apart(s.ram, ring, s.offset % ring.length)
    ensures var frame := Gathered(ring, s);
            |frame| <= Mac.MAX_PACKET_SIZE && Mac.Fits(m, Staged(frame, s.buffer))
            && T.Gather(s.ram, ring, s.offset % ring.length, []).out == frame
  {
    hide T.Gather, T.Frame, T.Returned, T.Apart, T.ChainLength, T.Fail, Nth, Mac.Fits;
    T.Transmission(s.ram, ring, s.offset % ring.length);
  }

  /** A whole chain of 60 bytes or more goes out, with its addresses traded and
      without its last four bytes where the chip would make its own check
      sequence; the transmitter stays on, and interrupts. */
  lemma GoesOut(m: Mac.Macs, ring: Ring, dtcr: bool, s: Sender, n: nat)
    requires ring.Valid() && Sendable(m, ring, s) && T.Apart(s.ram, ring, s.offset % ring.length)
    requires Whole(ring, s, n) && |Gathered(ring, s)| > 59
    ensures |Gathered(ring, s)| <= Mac.MAX_PACKET_SIZE && Mac.Fits(m, Staged(Gathered(ring, s), s.buffer))
    ensures var o := s.offset % ring.length;
            var frame := Gathered(ring, s);
            var length := if dtcr && !Nth(s.ram, ring, o, 0).flags.bit5 then |frame| - 4 else |frame|;
            Transmitted(m, ring, dtcr, s)
            == Sender(T.Returned(s.ram, ring, o, n + 1), Mac.Munge(m, Staged(frame, s.buffer), length),
                      (o + n) % ring.length + 1, length, s.csr0.(tint := true))
  {
    hide T.Gather, T.Frame, T.Returned, T.Apart, T.ChainLength, T.Fail, GetDescriptor, Mac.Munge, Mac.Fits, Staged;
    T.Transmission(s.ram, ring, s.offset % ring.length);
    FirstIs(s.ram, ring, s.offset % ring.length);
    GatheredIs(m, ring, s);
  }

  /** A shorter chain, or one that does not end, only switches the transmitter
      off, and interrupts. */
  lemma Fails(m: Mac.Macs, ring: Ring, dtcr: bool, s: Sender)
    requires ring.Valid() && Sendable(m, ring, s) && T.Apart(s.ram, ring, s.offset % ring.length)
    requires var first := Nth(s.ram, ring, s.offset % ring.length, 0).flags; first.own && first.stp
    requires |Gathered(ring, s)| < 60 || forall n: nat :: !Whole(ring, s, n)
    ensures var t := Transmitted(m, ring, dtcr, s);
            t.csr0 == s.csr0.(txon := false, tint := true) && t.length == s.length
            && |Gathered(ring, s)| <= Mac.MAX_PACKET_SIZE && t.buffer == Staged(Gathered(ring, s), s.buffer)
  {
    hide T.Gather, T.Frame, T.Returned, T.Apart, T.ChainLength, T.Fail, GetDescriptor, Mac.Munge, Mac.Fits, Staged;
    var o := s.offset % ring.length;
    T.Transmission(s.ram, ring, o);
    FirstIs(s.ram, ring, o);
    GatheredIs(m, ring, s);
    assert |Gathered(ring, s)| < 60 || !Whole(ring, s, T.ChainLength(s.ram, ring, o, 0));
  }

  class Card {
    const boardram: array<Byte>
    const transmitbuffer: array<Byte>
    var transmitlen: nat
    var rdr: Ring
    var tdr: Ring
    var rdrOffset: nat
    var tdrOffset: nat
    var csr0: Csr0
    var macs: Mac.Macs
    var prom: bool
    var multicast: bool
    var dtcr: bool

    ghost predicate Valid()
      reads this
    {
      boardram.Length == RAM_SIZE && transmitbuffer.Length == Mac.MAX_PACKET_SIZE && boardram != transmitbuffer
      && rdr.Valid() && tdr.Valid()
    }

    // ----- receiving

    method CopyIn(from: nat, data: seq<Byte>, n: nat)
      requires boardram.Length == RAM_SIZE && n <= |data|
      modifies boardram
      ensures boardram[..] == Copy(old(boardram[..]), from, data, n)
    {
      hide Wrap;
      for i := 0 to n
        invariant boardram[..] == Copy(old(boardram[..]), from, data, i)
      {
        boardram[Wrap(from + i)] := data[i];
      }
    }

    method PutBack(at: nat, flags: Flags, high: Byte, d3: Word)
      requires boardram.Length == RAM_SIZE && at + 8 <= RAM_SIZE
      modifies boardram
      ensures boardram[..] == PutStatus(old(boardram[..]), at, flags, high, d3)
    {
      hide FlagByte;
      boardram[at + 2] := FlagByte(flags);
      boardram[at + 3] := high;
      boardram[at + 6] := d3 / 0x100;
      boardram[at + 7] := d3 % 0x100;
    }

    method TakeIn(at: nat, d: Descriptor, data: seq<Byte>, done: nat) returns (n: nat)
      requires boardram.Length == RAM_SIZE && at + 8 <= RAM_SIZE && done < |data| < 0x1_0000
      requires d == GetDescriptor(boardram[..], at)
      modifies boardram
      ensures boardram[..] == R.Take(old(boardram[..]), at, data, done)
      ensures n == R.Min(d.Size(), |data| - done)
    {
      hide Copy, PutStatus, R.Taken;
      n := R.Min(d.Size(), |data| - done);
      CopyIn(d.Buffer(), data[done..], n);
      var last := done + n >= |data|;
      PutBack(at, R.Taken(d.flags, done == 0, last), d.high, if last then |data| else d.d3);
    }

    /** The loop of gotfunc over the ring. */
    method Deliver(data: seq<Byte>)
      requires Valid() && 0 < |data| < 0x1_0000
      modifies boardram, this`rdrOffset, this`csr0
      ensures Valid()
      ensures var r := R.Receive(old(boardram[..]), rdr, old(rdrOffset), data, 0);
              boardram[..] == r.ram && rdrOffset == r.offset
              && csr0 == match r
                         case Delivered(_, _) => old(csr0).(rint := true)
                         case Missed(_, _) => old(csr0).(miss := true)
                         case Overflow(_, _) => old(csr0).(rxon := false)
    {
      hide R.Take, GetDescriptor, FlagByte;
      var insize := 0;
      ghost var target := R.Receive(boardram[..], rdr, rdrOffset, data, 0);
      while true
        invariant Valid() && 0 <= insize < |data|
        invariant R.Receive(boardram[..], rdr, rdrOffset, data, insize) == target
        invariant csr0 == old(csr0)
        decreases |data| - insize
      {
        R.ReceiveStep(boardram[..], rdr, rdrOffset, data, insize);
        rdrOffset := rdrOffset % rdr.length;
        var at := rdr.Address(rdrOffset);
        var d := GetDescriptor(boardram[..], at);
        if !d.flags.own {
          if insize > 0 {
            boardram[at + 2] := FlagByte(d.flags.(bit2 := true, bit4 := true));
            csr0 := csr0.(rxon := false);
          } else {
            csr0 := csr0.(miss := true);
          }
          return;
        }
        rdrOffset := rdrOffset + 1;
        var n := TakeIn(at, d, data, insize);
        insize := insize + n;
        if insize >= |data| {
          break;
        }
      }
      csr0 := csr0.(rint := true);
    }

    /** gotfunc: a frame from the network. */
    method GotFunc(frame: seq<Byte>)
      requires Valid() && |frame| + 4 <= Mac.MAX_PACKET_SIZE && Mac.Fits(macs, Staged(frame, Blank()))
      modifies boardram, this`rdrOffset, this`csr0
      ensures Valid()
      ensures !Accepts(old(csr0).rxon, multicast, prom, macs.host, frame) ==>
                boardram[..] == old(boardram[..]) && rdrOffset == old(rdrOffset) && csr0 == old(csr0)
      ensures Accepts(old(csr0).rxon, multicast, prom, macs.host, frame) ==>
                var r := R.Receive(old(boardram[..]), rdr, old(rdrOffset), Delivery(macs, frame), 0);
                boardram[..] == r.ram && rdrOffset == r.offset
                && csr0 == match r
                           case Delivered(_, _) => old(csr0).(rint := true)
                           case Missed(_, _) => old(csr0).(miss := true)
                           case Overflow(_, _) => old(csr0).(rxon := false)
    {
      hide R.Receive, Mac.Munge, Mac.Fits, Crc.Crc32, Words32.PutBe;
      if !csr0.rxon || |frame| < 20 {
        return;
      }
      var dstmac, srcmac := frame[0..6], frame[6..12];
      if dstmac[0] % 2 == 1 && dstmac != Broadcast() {
        if !multicast {
          return;
        }
      } else if !prom && dstmac != macs.host && dstmac != Broadcast() {
        return;
      }
      if dstmac == macs.host && srcmac == macs.host {
        return;
      }
      if dstmac == Broadcast() && srcmac == macs.host {
        return;
      }
      var tmp := new Byte[Mac.MAX_PACKET_SIZE](k requires 0 <= k < Mac.MAX_PACKET_SIZE =>
        if k < |frame| then frame[k] else 0);
      assert tmp[..] == Staged(frame, Blank());
      var _ := Mac.MungePacket(macs, tmp, |frame|);
      Deliver(WithFcs(tmp[..|frame|]));
    }

    // ----- transmitting

    /** `n` bytes of a buffer behind the `outsize` bytes gathered before. */
    method ReadOut(from: nat, n: nat, outsize: nat)
      requires Valid() && outsize + n <= Mac.MAX_PACKET_SIZE
      modifies transmitbuffer
      ensures transmitbuffer[..] == old(transmitbuffer[..outsize]) + T.Read(boardram[..], from, n)
                                    + old(transmitbuffer[outsize + n..])
    {
      hide Wrap, T.Spot;
      for i := 0 to n
        invariant transmitbuffer[..] == old(transmitbuffer[..outsize]) + T.Read(boardram[..], from, i)
                                        + old(transmitbuffer[outsize + i..])
      {
        transmitbuffer[outsize + i] := boardram[T.Spot(from, i)];
      }
    }

    /** The loop of do_transmit over the ring. */
    method GatherFrame() returns (outsize: nat, err: bool, at: nat)
      requires Valid() && |T.Gather(boardram[..], tdr, tdrOffset, []).out| <= Mac.MAX_PACKET_SIZE
      modifies boardram, transmitbuffer, this`tdrOffset, this`csr0
      ensures Valid() && at + 8 <= RAM_SIZE
      ensures var g := T.Gather(old(boardram[..]), tdr, old(tdrOffset), []);
              g == T.Gathering(boardram[..], tdrOffset, g.out, err, at) && outsize == |g.out|
              && transmitbuffer[..] == Staged(g.out, old(transmitbuffer[..]))
      ensures csr0 == if err then old(csr0).(txon := false) else old(csr0)
    {
      hide GetDescriptor, T.Read, T.Underflow, PutStatus, T.Gather;
      outsize, err, at := 0, false, 0;
      ghost var out: seq<Byte> := [];
      ghost var target := T.Gather(boardram[..], tdr, tdrOffset, out);
      while true
        invariant Valid() && csr0 == old(csr0) && outsize == |out| <= Mac.MAX_PACKET_SIZE
        invariant transmitbuffer[..] == Staged(out, old(transmitbuffer[..]))
        invariant T.Gather(boardram[..], tdr, tdrOffset, out) == target
        decreases T.OwnedCount(boardram[..], tdr, tdr.length)
      {
        T.GatherTrip(boardram[..], tdr, tdrOffset, out);
        tdrOffset := tdrOffset % tdr.length;
        at := tdr.Address(tdrOffset);
        var d := GetDescriptor(boardram[..], at);
        if !d.flags.own {
          PutBack(at, d.flags.(err := true), d.high, T.Underflow(d.d3));
          csr0 := csr0.(txon := false);
          err := true;
          return;
        }
        T.CountDrops(boardram[..], tdr, tdrOffset, tdr.length);
        ghost var more := out + T.Read(boardram[..], d.Buffer(), T.Piece(d));
        ReadOut(d.Buffer(), T.Piece(d), outsize);
        assert transmitbuffer[..] == Staged(more, old(transmitbuffer[..]));
        out := more;
        outsize := outsize + T.Piece(d);
        tdrOffset := tdrOffset + 1;
        PutBack(at, d.flags.(own := false), d.high, d.d3);
        if d.flags.enp {
          return;
        }
      }
    }

    /** The descriptor the loop stopped at, marked with an error. */
    method FailAt(at: nat)
      requires Valid() && at + 8 <= RAM_SIZE
      modifies boardram, this`csr0
      ensures Valid() && boardram[..] == T.Fail(old(boardram[..]), at) && csr0 == old(csr0).(txon := false)
    {
      hide GetDescriptor, PutStatus, T.Underflow;
      var d := GetDescriptor(boardram[..], at);
      PutBack(at, d.flags.(err := true), d.high, T.Underflow(d.d3));
      csr0 := csr0.(txon := false);
    }

    ghost function Sending(): Sender
      requires Valid()
      reads this, boardram, transmitbuffer
    {
      Sender(boardram[..], transmitbuffer[..], tdrOffset, transmitlen, csr0)
    }

    /** do_transmit behind the loop; `before` is how the buffer was in front of
        it. */
    method Dispatch(ghost out: seq<Byte>, ghost before: Mac.Packet, outsize: nat, failed: bool, at: nat, cut: bool)
      requires Valid() && at + 8 <= RAM_SIZE && |out| == outsize <= Mac.MAX_PACKET_SIZE
      requires transmitbuffer[..] == Staged(out, before) && Mac.Fits(macs, Staged(out, before))
      requires failed ==> !csr0.txon
      modifies boardram, transmitbuffer, this`transmitlen, this`csr0
      ensures Valid()
      ensures var s := old(Sending());
              Sending() == Dispatched(macs, cut, T.Gathering(s.ram, s.offset, out, failed, at), s.(buffer := before))
    {
      hide Mac.Munge, Mac.Fits, T.Fail;
      var err := failed;
      if outsize < 60 {
        FailAt(at);
        err := true;
      }
      if !err {
        transmitlen := if cut then outsize - 4 else outsize;
        var _ := Mac.MungePacket(macs, transmitbuffer, transmitlen);
      }
      csr0 := csr0.(tint := true);
    }

    /** do_transmit */
    method DoTransmit()
      requires Valid() && Sendable(macs, tdr, Sending())
      modifies boardram, transmitbuffer, this`tdrOffset, this`transmitlen, this`csr0
      ensures Valid() && Sending() == Transmitted(macs, tdr, dtcr, old(Sending()))
    {
      hide T.Gather, GetDescriptor, Mac.Munge, Mac.Fits, T.Fail, Staged;
      tdrOffset := tdrOffset % tdr.length;
      var d := GetDescriptor(boardram[..], tdr.Address(tdrOffset));
      if !d.flags.own || !d.flags.stp {
        tdrOffset := tdrOffset + 1;
        return;
      }
      OnceReduced(old(tdrOffset), tdr.length);
      ghost var out := T.Gather(boardram[..], tdr, tdrOffset, []).out;
      var outsize, err, at := GatherFrame();
      Dispatch(out, old(transmitbuffer[..]), outsize, err, at, dtcr && !d.flags.bit5);
    }
  }
}
