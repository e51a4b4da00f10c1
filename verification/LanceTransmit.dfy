/** Transmitting a frame from the LANCE's descriptor ring (a2065.cpp,
    do_transmit). */
module LanceTransmit {
  import opened Modulo
  import opened XorNat
  import opened LanceMemory

  const MAX_PACKET_SIZE := 4000

  /** Where the loop stopped: memory, ring offset, bytes gathered, whether it
      met a descriptor that is not its own, and the descriptor it stopped at. */
  datatype Gathering = Gathering(ram: Ram, offset: nat, out: seq<Byte>, err: bool, at: nat)

  /** The `o`-th byte from `from` on. */
  function Spot(from: nat, o: nat): (a: nat)
    ensures a < RAM_SIZE
  {
    Wrap(from + o)
  }

  /** `n` bytes from `from` on. */
  function Read(ram: Ram, from: nat, n: nat): (s: seq<Byte>)
    ensures |s| == n
  {
    if n == 0 then [] else Read(ram, from, n - 1) + [ram[Spot(from, n - 1)]]
  }

  function Piece(d: Descriptor): nat {
    if d.Size() > MAX_PACKET_SIZE then MAX_PACKET_SIZE else d.Size()
  }

  /** BUFF and UFLO in the status word. */
  function Underflow(w: Word): Word { 0xc000 + w % 0x4000 }

  /** The two highest bits are set, the others stay. */
  lemma UnderflowBits(w: Word)
    ensures Underflow(w) / 0x4000 == 3 && Underflow(w) % 0x4000 == w % 0x4000
  {
  }

  /** The descriptor marked with an error. */
  function Fail(ram: Ram, at: nat): Ram
    requires at + 8 <= RAM_SIZE
  {
    var d := GetDescriptor(ram, at);
    PutStatus(ram, at, d.flags.(err := true), d.high, Underflow(d.d3))
  }

  /** The descriptor given back. */
  function GiveBack(ram: Ram, at: nat): Ram
    requires at + 8 <= RAM_SIZE
  {
    var d := GetDescriptor(ram, at);
    PutStatus(ram, at, d.flags.(own := false), d.high, d.d3)
  }

  // ----- termination: every trip gives a descriptor back, or is the last

  /** How many of the first `n` descriptors belong to the transmitter. */
  function OwnedCount(ram: Ram, ring: Ring, n: nat): nat
    requires ring.Valid()
  {
    if n == 0 then 0
    else OwnedCount(ram, ring, n - 1) + if Nth(ram, ring, 0, n - 1).flags.own then 1 else 0
  }

  /** Giving back leaves every other descriptor alone. */
  lemma GiveBackDescriptor(ram: Ram, ring: Ring, start: nat, j: nat, i: nat)
    requires ring.Valid() && i < ring.length && j < ring.length
    ensures var d := Nth(ram, ring, start, i);
            Nth(GiveBack(ram, ring.Address(start + j)), ring, start, i)
              == if i == j then d.(flags := d.flags.(own := false)) else d
  {
    hide GetDescriptor;
    var r := GiveBack(ram, ring.Address(start + j));
    if i != j {
      PositionsDiffer(ring, start, i, j);
      forall a | 0 <= a < RAM_SIZE && InDescriptor(ring, start, i, a)
        ensures ram[a] == r[a]
      {
      }
      SameNth(ram, r, ring, start, i);
    }
  }

  lemma {:induction false} CountDrops(ram: Ram, ring: Ring, o: nat, n: nat)
    requires ring.Valid() && o < ring.length && n <= ring.length && Nth(ram, ring, 0, o).flags.own
    ensures OwnedCount(GiveBack(ram, ring.Address(o)), ring, n)
         == OwnedCount(ram, ring, n) - if o < n then 1 else 0
    decreases n
  {
    hide Nth, GiveBack;
    if n > 0 {
      CountDrops(ram, ring, o, n - 1);
      GiveBackDescriptor(ram, ring, 0, o, n - 1);
    }
  }

  /** The loop of do_transmit. */
  function Gather(ram: Ram, ring: Ring, offset: nat, out: seq<Byte>): (g: Gathering)
    requires ring.Valid()
    ensures g.at + 8 <= RAM_SIZE
    decreases OwnedCount(ram, ring, ring.length)
  {
    var o := offset % ring.length;
    var at := ring.Address(o);
    var d := GetDescriptor(ram, at);
    if !d.flags.own then Gathering(Fail(ram, at), o, out, true, at)
    else
      var r, s := GiveBack(ram, at), out + Read(ram, d.Buffer(), Piece(d));
      if d.flags.enp then Gathering(r, o + 1, s, false, at)
      else
        CountDrops(ram, ring, o, ring.length);
        Gather(r, ring, o + 1, s)
  }

  // ----- what a transmission amounts to

  /** Buffers the transmitter owns lie apart from the ring. */
  ghost predicate Apart(ram: Ram, ring: Ring, start: nat)
    requires ring.Valid()
  {
    forall i, j, o | 0 <= i < ring.length && 0 <= j < ring.length && 0 <= o < Nth(ram, ring, start, i).Size() ::
      Nth(ram, ring, start, i).flags.own ==>
        !InDescriptor(ring, start, j, Spot(Nth(ram, ring, start, i).Buffer(), o))
  }

  predicate Link(ram: Ram, ring: Ring, start: nat, j: nat)
    requires ring.Valid()
  {
    Nth(ram, ring, start, j).flags.own && !Nth(ram, ring, start, j).flags.enp
  }

  /** The loop goes on behind the first `n` descriptors. */
  predicate Chained(ram: Ram, ring: Ring, start: nat, n: nat)
    requires ring.Valid()
  {
    forall j | 0 <= j < n :: Link(ram, ring, start, j)
  }

  /** Number of descriptors in front of the one where the chain ends. */
  function ChainLength(ram: Ram, ring: Ring, start: nat, j: nat): (m: nat)
    requires ring.Valid() && j <= ring.length
    ensures j <= m <= ring.length
    decreases ring.length - j
  {
    if j < ring.length && Link(ram, ring, start, j) then ChainLength(ram, ring, start, j + 1) else j
  }

  /** The memory with the first `n` descriptors given back. */
  function Returned(ram: Ram, ring: Ring, start: nat, n: nat): Ram
    requires ring.Valid()
  {
    if n == 0 then ram else GiveBack(Returned(ram, ring, start, n - 1), ring.Address(start + n - 1))
  }

  /** The contents of the first `n` buffers, one after another. */
  function Frame(ram: Ram, ring: Ring, start: nat, n: nat): seq<Byte>
    requires ring.Valid()
  {
    if n == 0 then []
    else
      var d := Nth(ram, ring, start, n - 1);
      Frame(ram, ring, start, n - 1) + Read(ram, d.Buffer(), Piece(d))
  }

  lemma {:induction false} ReturnedDescriptors(ram: Ram, ring: Ring, start: nat, n: nat, i: nat)
    requires ring.Valid() && i < ring.length && n <= ring.length
    ensures var d := Nth(ram, ring, start, i);
            Nth(Returned(ram, ring, start, n), ring, start, i)
              == if i < n then d.(flags := d.flags.(own := false)) else d
    decreases n
  {
    hide Nth, GiveBack;
    if n > 0 {
      ReturnedDescriptors(ram, ring, start, n - 1, i);
      GiveBackDescriptor(Returned(ram, ring, start, n - 1), ring, start, n - 1, i);
    }
  }

  lemma {:induction false} ReturnedElsewhere(ram: Ram, ring: Ring, start: nat, n: nat, a: nat)
    requires ring.Valid() && a < RAM_SIZE && n <= ring.length
    requires forall j | 0 <= j < ring.length :: !InDescriptor(ring, start, j, a)
    ensures Returned(ram, ring, start, n)[a] == ram[a]
    decreases n
  {
    hide GetDescriptor;
    if n > 0 {
      ReturnedElsewhere(ram, ring, start, n - 1, a);
      assert !InDescriptor(ring, start, n - 1, a);
    }
  }

  lemma {:induction false} SameRead(ram: Ram, r: Ram, from: nat, n: nat)
    requires forall o | 0 <= o < n :: ram[Spot(from, o)] == r[Spot(from, o)]
    ensures Read(ram, from, n) == Read(r, from, n)
    decreases n
  {
    hide Spot;
    if n > 0 {
      SameRead(ram, r, from, n - 1);
    }
  }

  /** Buffers read while descriptors are given back hold what they held. */
  lemma ReadReturned(ram: Ram, ring: Ring, start: nat, n: nat)
    requires ring.Valid() && Apart(ram, ring, start) && n < ring.length && Nth(ram, ring, start, n).flags.own
    ensures var d := Nth(ram, ring, start, n);
            Read(Returned(ram, ring, start, n), d.Buffer(), Piece(d)) == Read(ram, d.Buffer(), Piece(d))
  {
    hide Nth, Returned, Spot;
    var d, r := Nth(ram, ring, start, n), Returned(ram, ring, start, n);
    forall o | 0 <= o < Piece(d)
      ensures ram[Spot(d.Buffer(), o)] == r[Spot(d.Buffer(), o)]
    {
      ReturnedElsewhere(ram, ring, start, n, Spot(d.Buffer(), o));
    }
    SameRead(ram, r, d.Buffer(), Piece(d));
  }

  lemma NextLink(ram: Ram, ring: Ring, start: nat, j: nat)
    requires ring.Valid()
    ensures Returned(ram, ring, start, j + 1) == GiveBack(Returned(ram, ring, start, j), ring.Address(start + j))
    ensures var d := Nth(ram, ring, start, j);
            Frame(ram, ring, start, j + 1) == Frame(ram, ring, start, j) + Read(ram, d.Buffer(), Piece(d))
  {
    hide Nth, GiveBack, Read;
  }

  /** After one lap the first descriptor comes again, and is no longer own. */
  lemma LapReturned(ram: Ram, ring: Ring, start: nat)
    requires ring.Valid()
    ensures !Nth(Returned(ram, ring, start, ring.length), ring, start, ring.length).flags.own
  {
    hide Returned, GetDescriptor;
    var l := ring.length;
    ReturnedDescriptors(ram, ring, start, l, 0);
    AddModulo(start, 0, l);
    AddModulo(l, start, l);
    assert l % l == 0;
    SamePlace(ring, start + l, start);
  }

  lemma {:induction false} GatherGrows(ram: Ram, ring: Ring, offset: nat, out: seq<Byte>)
    requires ring.Valid()
    ensures |out| <= |Gather(ram, ring, offset, out).out|
    decreases OwnedCount(ram, ring, ring.length)
  {
    hide GiveBack, GetDescriptor, Read, Fail;
    var o := offset % ring.length;
    var at := ring.Address(o);
    var d := GetDescriptor(ram, at);
    if d.flags.own && !d.flags.enp {
      CountDrops(ram, ring, o, ring.length);
      GatherGrows(GiveBack(ram, at), ring, o + 1, out + Read(ram, d.Buffer(), Piece(d)));
    }
  }

  /** One trip: what is gathered stays gathered. */
  lemma GatherTrip(ram: Ram, ring: Ring, offset: nat, out: seq<Byte>)
    requires ring.Valid()
    ensures var o := offset % ring.length; var at := ring.Address(o); var d := GetDescriptor(ram, at);
            var g := Gather(ram, ring, offset, out);
            if !d.flags.own then g == Gathering(Fail(ram, at), o, out, true, at)
            else
              var s := out + Read(ram, d.Buffer(), Piece(d));
              |s| <= |g.out|
              && g == if d.flags.enp then Gathering(GiveBack(ram, at), o + 1, s, false, at)
                      else Gather(GiveBack(ram, at), ring, o + 1, s)
  {
    hide GiveBack, GetDescriptor, Read, Fail;
    var o := offset % ring.length;
    var at := ring.Address(o);
    var d := GetDescriptor(ram, at);
    if d.flags.own && !d.flags.enp {
      CountDrops(ram, ring, o, ring.length);
      GatherGrows(GiveBack(ram, at), ring, o + 1, out + Read(ram, d.Buffer(), Piece(d)));
    }
  }

  /** The loop collects the chain; it succeeds exactly when the chain ends with
      an own descriptor marked ENP within one lap. */
  lemma {:induction false} GatherFrom(ram: Ram, ring: Ring, start: nat, offset: nat, j: nat)
    requires ring.Valid() && Apart(ram, ring, start) && j <= ring.length && Chained(ram, ring, start, j)
    requires offset % ring.length == (start + j) % ring.length
    ensures var m := ChainLength(ram, ring, start, j);
            var g := Gather(Returned(ram, ring, start, j), ring, offset, Frame(ram, ring, start, j));
            if m < ring.length && Nth(ram, ring, start, m).flags.own
              then g == Gathering(Returned(ram, ring, start, m + 1), (start + m) % ring.length + 1,
                                  Frame(ram, ring, start, m + 1), false, ring.Address(start + m))
            else g == Gathering(Fail(Returned(ram, ring, start, m), ring.Address(start + m)), (start + m) % ring.length,
                                Frame(ram, ring, start, m), true, ring.Address(start + m))
    decreases ring.length - j
  {
    hide Returned, Frame, Gather, Apart, GiveBack, GetDescriptor, Read, Fail;
    var r, out := Returned(ram, ring, start, j), Frame(ram, ring, start, j);
    SamePlace(ring, offset, start + j);
    GatherTrip(r, ring, offset, out);
    if j < ring.length {
      ReturnedDescriptors(ram, ring, start, j, j);
      if Nth(ram, ring, start, j).flags.own {
        ReadReturned(ram, ring, start, j);
        NextLink(ram, ring, start, j);
        if !Nth(ram, ring, start, j).flags.enp {
          NextPosition(offset % ring.length, start + j, ring.length);
          GatherFrom(ram, ring, start, offset % ring.length + 1, j + 1);
        }
      }
    } else {
      LapReturned(ram, ring, start);
    }
  }

  lemma NoneReturned(ram: Ram, ring: Ring, start: nat)
    requires ring.Valid()
    ensures Returned(ram, ring, start, 0) == ram && Frame(ram, ring, start, 0) == []
  {
  }

  /** The chain: every descriptor in front of its end is own and goes on, the
      end does not. */
  lemma {:induction false} ChainEnds(ram: Ram, ring: Ring, start: nat, j: nat)
    requires ring.Valid() && j <= ring.length
    ensures var m := ChainLength(ram, ring, start, j);
            (forall i | j <= i < m :: Link(ram, ring, start, i)) && (m < ring.length ==> !Link(ram, ring, start, m))
    decreases ring.length - j
  {
    hide Link;
    if j < ring.length && Link(ram, ring, start, j) {
      ChainEnds(ram, ring, start, j + 1);
    }
  }

  /** What a program's chain of descriptors transmits: the chain runs over own
      descriptors without ENP; when an own one with ENP follows within a lap,
      the frame is exactly their buffers one after another, and every descriptor
      of it is given back; otherwise it is an error, the chain is given back and
      gathered so far, and the descriptor in the way is marked. */
  lemma Transmission(ram: Ram, ring: Ring, start: nat)
    requires ring.Valid() && Apart(ram, ring, start)
    ensures var m := ChainLength(ram, ring, start, 0);
            var g := Gather(ram, ring, start, []);
            Chained(ram, ring, start, m)
            && g.err == !(m < ring.length && Nth(ram, ring, start, m).flags.own)
            && (!g.err ==> Nth(ram, ring, start, m).flags.enp
                           && g.out == Frame(ram, ring, start, m + 1) && g.offset == (start + m) % ring.length + 1
                           && g.ram == Returned(ram, ring, start, m + 1))
            && (g.err ==> g.out == Frame(ram, ring, start, m) && g.offset == (start + m) % ring.length
                          && g.ram == Fail(Returned(ram, ring, start, m), ring.Address(start + m)))
  {
    hide Returned, Frame, Gather, Apart, ChainLength, Fail;
    NoneReturned(ram, ring, start);
    GatherFrom(ram, ring, start, start, 0);
    ChainEnds(ram, ring, start, 0);
  }

  lemma FailedDescriptor(ram: Ram, ring: Ring, start: nat, m: nat, i: nat)
    requires ring.Valid() && i < ring.length
    ensures var r := Fail(ram, ring.Address(start + m)); var b := Nth(ram, ring, start, i);
            Nth(r, ring, start, i)
            == if i == m % ring.length then b.(flags := b.flags.(err := true), d3 := Underflow(b.d3)) else b
  {
    hide GetDescriptor, Underflow;
    var l := ring.length;
    AddModulo(m, start, l);
    SamePlace(ring, start + m, start + m % l);
    if i != m % l {
      PositionsDiffer(ring, start, i, m % l);
      SameNth(ram, Fail(ram, ring.Address(start + m)), ring, start, i);
    }
  }

  /** The descriptors of a chain that fails: those in front are given back, the
      one in the way, which after a lap is the first of them, has ERR, BUFF and
      UFLO. */
  lemma FailedDescriptors(ram: Ram, ring: Ring, start: nat, i: nat)
    requires ring.Valid() && Apart(ram, ring, start) && i < ring.length && Gather(ram, ring, start, []).err
    ensures var m := ChainLength(ram, ring, start, 0);
            var d, e := Nth(ram, ring, start, i), Nth(Gather(ram, ring, start, []).ram, ring, start, i);
            var b := if i < m then d.(flags := d.flags.(own := false)) else d;
            e == if i == m % ring.length then b.(flags := b.flags.(err := true), d3 := Underflow(b.d3)) else b
  {
    hide Returned, Frame, Gather, Apart, ChainLength, Fail, Nth, Link;
    Transmission(ram, ring, start);
    var m := ChainLength(ram, ring, start, 0);
    ReturnedDescriptors(ram, ring, start, m, i);
    FailedDescriptor(Returned(ram, ring, start, m), ring, start, m, i);
  }
}
