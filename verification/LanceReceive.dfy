/** Receiving a frame into the LANCE's descriptor ring (a2065.cpp, gotfunc). */
module LanceReceive {
  import opened XorNat
  import opened LanceMemory
  import opened Modulo

  /** How the ring took the frame, with the memory and the ring offset after:
      delivered, nothing free at all, or the ring ran out in the middle. */
  datatype Outcome =
    | Delivered(ram: Ram, offset: nat)
    | Missed(ram: Ram, offset: nat)
    | Overflow(ram: Ram, offset: nat)

  function Min(a: nat, b: nat): nat { if a < b then a else b }

  /** The flags of a descriptor that took the first, or the last, bytes. */
  function Taken(f: Flags, first: bool, last: bool): Flags {
    f.(own := false, stp := f.stp || first, enp := f.enp || last)
  }

  /** One descriptor takes `n` bytes from place `done` on. */
  function Take(ram: Ram, at: nat, data: seq<Byte>, done: nat): (r: Ram)
    requires at + 8 <= RAM_SIZE && done < |data| < 0x1_0000
  {
    var d := GetDescriptor(ram, at);
    var n := Min(d.Size(), |data| - done);
    var last := done + n >= |data|;
    PutStatus(Copy(ram, d.Buffer(), data[done..], n), at, Taken(d.flags, done == 0, last), d.high,
              if last then |data| else d.d3)
  }

  /** The descriptor at ring offset `o` is not free: the frame is missed, or
      the descriptor marked with BUFF and OFLO. */
  function Turned(ram: Ram, ring: Ring, o: nat, first: bool): Outcome
    requires ring.Valid()
  {
    var at := ring.Address(o);
    if first then Missed(ram, o)
    else Overflow(ram[at + 2 := FlagByte(GetDescriptor(ram, at).flags.(bit2 := true, bit4 := true))], o)
  }

  /** The loop of gotfunc: bytes from `done` on are still to be placed. */
  function Receive(ram: Ram, ring: Ring, offset: nat, data: seq<Byte>, done: nat): Outcome
    requires ring.Valid() && done < |data| < 0x1_0000
    decreases |data| - done
  {
    var o := offset % ring.length;
    var at := ring.Address(o);
    var d := GetDescriptor(ram, at);
    if !d.flags.own then Turned(ram, ring, o, done == 0)
    else
      var r := Take(ram, at, data, done);
      if done + d.Size() >= |data| then Delivered(r, o + 1)
      else Receive(r, ring, o + 1, data, done + d.Size())
  }

  // ----- what a delivery amounts to

  /** The bytes the first `j` descriptors have room for. */
  function Room(ram: Ram, ring: Ring, start: nat, j: nat): (n: nat)
    requires ring.Valid()
    ensures n >= j
  {
    if j == 0 then 0 else Room(ram, ring, start, j - 1) + Nth(ram, ring, start, j - 1).Size()
  }

  /** The least number of descriptors, `j` at least, with room for `len` bytes. */
  function Needed(ram: Ram, ring: Ring, start: nat, len: nat, j: nat): (m: nat)
    requires ring.Valid()
    ensures m >= j
    decreases len - j
  {
    if Room(ram, ring, start, j) >= len then j else Needed(ram, ring, start, len, j + 1)
  }

  lemma {:induction false} NeededIsLeast(ram: Ram, ring: Ring, start: nat, len: nat, j: nat)
    requires ring.Valid()
    ensures var m := Needed(ram, ring, start, len, j);
            Room(ram, ring, start, m) >= len && (m > j ==> Room(ram, ring, start, m - 1) < len)
    decreases len - j
  {
    hide Room;
    if Room(ram, ring, start, j) < len {
      NeededIsLeast(ram, ring, start, len, j + 1);
    }
  }

  lemma RoomGrows(ram: Ram, ring: Ring, start: nat, j: nat)
    requires ring.Valid()
    ensures Room(ram, ring, start, j + 1) == Room(ram, ring, start, j) + Nth(ram, ring, start, j).Size()
    ensures Room(ram, ring, start, j) < Room(ram, ring, start, j + 1)
  {
    hide Nth;
  }

  predicate Owned(ram: Ram, ring: Ring, start: nat, j: nat)
    requires ring.Valid()
  {
    Nth(ram, ring, start, j).flags.own
  }

  /** The first `n` descriptors are the receiver's. */
  predicate AllOwned(ram: Ram, ring: Ring, start: nat, n: nat)
    requires ring.Valid()
  {
    forall j | 0 <= j < n :: Owned(ram, ring, start, j)
  }

  /** Address `a` lies in the buffer of the `j`-th descriptor. */
  predicate Covers(ram: Ram, ring: Ring, start: nat, j: nat, a: nat)
    requires ring.Valid()
  {
    Owned(ram, ring, start, j)
    && Distance(Nth(ram, ring, start, j).Buffer(), a) < Nth(ram, ring, start, j).Size()
  }

  /** Buffers the receiver owns lie apart from the ring and from each other. */
  ghost predicate Apart(ram: Ram, ring: Ring, start: nat)
    requires ring.Valid()
  {
    (forall i, j, a | 0 <= i < ring.length && 0 <= j < ring.length && 0 <= a < RAM_SIZE ::
        Covers(ram, ring, start, i, a) ==> !InDescriptor(ring, start, j, a))
    && (forall i, j, a | 0 <= i < ring.length && 0 <= j < ring.length && i != j && 0 <= a < RAM_SIZE ::
          Covers(ram, ring, start, i, a) ==> !Covers(ram, ring, start, j, a))
  }

  /** The bytes descriptor `j` takes of a frame. */
  function Used(ram: Ram, ring: Ring, start: nat, len: nat, j: nat): nat
    requires ring.Valid()
  {
    if Room(ram, ring, start, j) >= len then 0
    else Min(Nth(ram, ring, start, j).Size(), len - Room(ram, ring, start, j))
  }

  /** What becomes of descriptor `j`. */
  function Closed(ram: Ram, ring: Ring, start: nat, len: Word, j: nat): Descriptor
    requires ring.Valid()
  {
    var d := Nth(ram, ring, start, j);
    var last := Room(ram, ring, start, j + 1) >= len;
    d.(flags := Taken(d.flags, j == 0, last), d3 := if last then len else d.d3)
  }

  /** The memory after `j` descriptors, all read before anything was written. */
  function Filled(ram: Ram, ring: Ring, start: nat, data: seq<Byte>, j: nat): Ram
    requires ring.Valid() && |data| < 0x1_0000
  {
    if j == 0 then ram
    else
      var r := Filled(ram, ring, start, data, j - 1);
      var d, done := Nth(ram, ring, start, j - 1), Room(ram, ring, start, j - 1);
      var c := Closed(ram, ring, start, |data|, j - 1);
      if done >= |data| then r
      else
        PutStatus(Copy(r, d.Buffer(), data[done..], Used(ram, ring, start, |data|, j - 1)),
                  ring.Address(start + j - 1), c.flags, c.high, c.d3)
  }

  // ----- what the descriptors and buffers hold afterwards

  /** Nothing but its own buffer and descriptor changes when descriptor `j` is
      filled. */
  lemma FilledFrame(ram: Ram, ring: Ring, start: nat, data: seq<Byte>, j: nat, a: nat)
    requires ring.Valid() && |data| < 0x1_0000 && a < RAM_SIZE && Owned(ram, ring, start, j)
    requires Nth(ram, ring, start, j).Size() <= RAM_SIZE
    requires !InDescriptor(ring, start, j, a)
    ensures Filled(ram, ring, start, data, j + 1)[a]
         == if Covers(ram, ring, start, j, a)
               && Distance(Nth(ram, ring, start, j).Buffer(), a) < Used(ram, ring, start, |data|, j)
            then data[Room(ram, ring, start, j) + Distance(Nth(ram, ring, start, j).Buffer(), a)]
            else Filled(ram, ring, start, data, j)[a]
  {
    hide Nth, Distance, Room, Closed;
    var r := Filled(ram, ring, start, data, j);
    var done := Room(ram, ring, start, j);
    if done < |data| {
      CopyAt(r, Nth(ram, ring, start, j).Buffer(), data[done..], Used(ram, ring, start, |data|, j), a);
    }
  }

  /** A buffer that lies apart from the ring is no longer than the memory. */
  lemma SizeFits(ram: Ram, ring: Ring, start: nat, j: nat)
    requires ring.Valid() && Apart(ram, ring, start) && j < ring.length && Owned(ram, ring, start, j)
    ensures Nth(ram, ring, start, j).Size() <= RAM_SIZE
  {
    hide Nth, Distance;
    var a := ring.Address(start + j);
    assert InDescriptor(ring, start, j, a);
    assert !Covers(ram, ring, start, j, a);
  }

  /** A descriptor keeps its bytes while another is filled. */
  lemma DescriptorBytes(ram: Ram, ring: Ring, start: nat, data: seq<Byte>, j: nat, i: nat, a: nat)
    requires ring.Valid() && |data| < 0x1_0000 && Apart(ram, ring, start) && Owned(ram, ring, start, j)
    requires j < ring.length && i < ring.length && i != j && InDescriptor(ring, start, i, a)
    ensures Filled(ram, ring, start, data, j + 1)[a] == Filled(ram, ring, start, data, j)[a]
  {
    hide Nth, Distance, Filled, Covers, Owned;
    SizeFits(ram, ring, start, j);
    PositionsDiffer(ring, start, i, j);
    assert !Covers(ram, ring, start, j, a);
    FilledFrame(ram, ring, start, data, j, a);
  }

  lemma FilledNone(ram: Ram, ring: Ring, start: nat, data: seq<Byte>)
    requires ring.Valid() && |data| < 0x1_0000
    ensures Filled(ram, ring, start, data, 0) == ram
  {
  }

  lemma RoomBelow(ram: Ram, ring: Ring, start: nat, k: nat, len: nat)
    requires ring.Valid() && Room(ram, ring, start, k) < len
    ensures k > 0 ==> Room(ram, ring, start, k - 1) < len
  {
    hide Nth;
  }

  /** The descriptor that is filled. */
  lemma FilledOwn(ram: Ram, ring: Ring, start: nat, data: seq<Byte>, k: nat)
    requires ring.Valid() && |data| < 0x1_0000 && Apart(ram, ring, start) && Owned(ram, ring, start, k)
    requires k < ring.length && Room(ram, ring, start, k) < |data|
    requires Nth(Filled(ram, ring, start, data, k), ring, start, k) == Nth(ram, ring, start, k)
    ensures Nth(Filled(ram, ring, start, data, k + 1), ring, start, k) == Closed(ram, ring, start, |data|, k)
  {
    hide Distance, Room, Taken, GetDescriptor;
    var r := Filled(ram, ring, start, data, k);
    var d := Nth(ram, ring, start, k);
    var n := Used(ram, ring, start, |data|, k);
    var c := Copy(r, d.Buffer(), data[Room(ram, ring, start, k)..], n);
    SizeFits(ram, ring, start, k);
    forall a | 0 <= a < RAM_SIZE && InDescriptor(ring, start, k, a)
      ensures c[a] == r[a]
    {
      assert !Covers(ram, ring, start, k, a);
      CopyAt(r, d.Buffer(), data[Room(ram, ring, start, k)..], n, a);
    }
    SameNth(c, r, ring, start, k);
  }

  /** Descriptors in the order they are taken: those taken are closed, the
      others as they were. */
  lemma {:induction false} FilledDescriptors(ram: Ram, ring: Ring, start: nat, data: seq<Byte>, j: nat, i: nat)
    requires ring.Valid() && |data| < 0x1_0000 && Apart(ram, ring, start) && AllOwned(ram, ring, start, j)
    requires i < ring.length && j <= ring.length && (j > 0 ==> Room(ram, ring, start, j - 1) < |data|)
    ensures Nth(Filled(ram, ring, start, data, j), ring, start, i)
         == if i < j then Closed(ram, ring, start, |data|, i) else Nth(ram, ring, start, i)
    decreases j
  {
    hide Nth, Filled, Closed, Room, InDescriptor, Owned;
    if j == 0 {
      FilledNone(ram, ring, start, data);
    } else {
      var k := j - 1;
      RoomBelow(ram, ring, start, k, |data|);
      FilledDescriptors(ram, ring, start, data, k, i);
      assert Owned(ram, ring, start, k);
      if i == k {
        FilledOwn(ram, ring, start, data, k);
      } else {
        forall a | 0 <= a < RAM_SIZE && InDescriptor(ring, start, i, a)
          ensures Filled(ram, ring, start, data, k + 1)[a] == Filled(ram, ring, start, data, k)[a]
        {
          DescriptorBytes(ram, ring, start, data, k, i, a);
        }
        SameNth(Filled(ram, ring, start, data, j), Filled(ram, ring, start, data, k), ring, start, i);
      }
    }
  }

  /** Address `a` gets byte of the frame from descriptor `i`. */
  predicate Receives(ram: Ram, ring: Ring, start: nat, len: nat, i: nat, a: nat)
    requires ring.Valid()
  {
    Covers(ram, ring, start, i, a)
    && Distance(Nth(ram, ring, start, i).Buffer(), a) < Used(ram, ring, start, len, i)
  }

  /** The buffers filled hold the frame, piece after piece. */
  lemma {:induction false} FilledBuffers(
      ram: Ram, ring: Ring, start: nat, data: seq<Byte>, j: nat, i: nat, a: nat)
    requires ring.Valid() && |data| < 0x1_0000 && Apart(ram, ring, start) && AllOwned(ram, ring, start, j)
    requires i < j <= ring.length && a < RAM_SIZE && Receives(ram, ring, start, |data|, i, a)
    ensures Room(ram, ring, start, i) + Distance(Nth(ram, ring, start, i).Buffer(), a) < |data|
    ensures Filled(ram, ring, start, data, j)[a]
         == data[Room(ram, ring, start, i) + Distance(Nth(ram, ring, start, i).Buffer(), a)]
    decreases j
  {
    hide Nth, Filled, Distance, Room, InDescriptor, Owned;
    var k := j - 1;
    assert Owned(ram, ring, start, k);
    assert !InDescriptor(ring, start, k, a);
    SizeFits(ram, ring, start, k);
    FilledFrame(ram, ring, start, data, k, a);
    if i < k {
      assert !Covers(ram, ring, start, k, a);
      FilledBuffers(ram, ring, start, data, k, i, a);
    }
  }

  /** Everything else stays as it was. */
  lemma {:induction false} FilledElsewhere(ram: Ram, ring: Ring, start: nat, data: seq<Byte>, j: nat, a: nat)
    requires ring.Valid() && |data| < 0x1_0000 && Apart(ram, ring, start) && AllOwned(ram, ring, start, j)
    requires j <= ring.length && a < RAM_SIZE
    requires forall i | 0 <= i < j :: !InDescriptor(ring, start, i, a) && !Receives(ram, ring, start, |data|, i, a)
    ensures Filled(ram, ring, start, data, j)[a] == ram[a]
    decreases j
  {
    hide Nth, Filled, Distance, Room, Owned, InDescriptor, Used, Covers;
    if j == 0 {
      FilledNone(ram, ring, start, data);
    } else {
      var k := j - 1;
      assert Owned(ram, ring, start, k);
      SizeFits(ram, ring, start, k);
      FilledFrame(ram, ring, start, data, k, a);
      FilledElsewhere(ram, ring, start, data, k, a);
    }
  }

  // ----- the loop of gotfunc

  lemma RoomAtLeast(ram: Ram, ring: Ring, start: nat, j: nat)
    requires ring.Valid()
    ensures Room(ram, ring, start, j) >= j && (j == 0 ==> Room(ram, ring, start, j) == 0)
  {
  }

  lemma TakeIsFilled(ram: Ram, ring: Ring, start: nat, data: seq<Byte>, j: nat)
    requires ring.Valid() && |data| < 0x1_0000 && Apart(ram, ring, start) && AllOwned(ram, ring, start, j + 1)
    requires j < ring.length && Room(ram, ring, start, j) < |data|
    ensures var r := Filled(ram, ring, start, data, j);
            Nth(r, ring, start, j) == Nth(ram, ring, start, j)
            && Take(r, ring.Address(start + j), data, Room(ram, ring, start, j))
               == Filled(ram, ring, start, data, j + 1)
  {
    hide Room, PutStatus, Copy, Taken;
    RoomBelow(ram, ring, start, j, |data|);
    FilledDescriptors(ram, ring, start, data, j, j);
    RoomGrows(ram, ring, start, j);
    RoomAtLeast(ram, ring, start, j);
  }

  lemma NeededAfter(ram: Ram, ring: Ring, start: nat, len: nat, j: nat)
    requires ring.Valid() && Room(ram, ring, start, j) < len
    ensures var m := Needed(ram, ring, start, len, j);
            m == Needed(ram, ring, start, len, j + 1) && m > j
            && (Room(ram, ring, start, j + 1) >= len ==> m == j + 1)
  {
    hide Room;
  }

  /** After one lap the first descriptor comes again, and is no longer free. */
  lemma LapIsClosed(ram: Ram, ring: Ring, start: nat, data: seq<Byte>)
    requires ring.Valid() && |data| < 0x1_0000 && Apart(ram, ring, start)
    requires AllOwned(ram, ring, start, ring.length) && Room(ram, ring, start, ring.length) < |data|
    ensures !Nth(Filled(ram, ring, start, data, ring.length), ring, start, ring.length).flags.own
  {
    hide Filled, Room, GetDescriptor;
    var l := ring.length;
    RoomBelow(ram, ring, start, l, |data|);
    FilledDescriptors(ram, ring, start, data, l, 0);
    AddModulo(start, 0, l);
    AddModulo(l, start, l);
    assert l % l == 0;
    SamePlace(ring, start + l, start);
  }

  /** One trip of the loop. */
  lemma ReceiveStep(ram: Ram, ring: Ring, offset: nat, data: seq<Byte>, done: nat)
    requires ring.Valid() && done < |data| < 0x1_0000
    ensures var o := offset % ring.length; var d := GetDescriptor(ram, ring.Address(o));
            var r := Receive(ram, ring, offset, data, done);
            if !d.flags.own then r == Turned(ram, ring, o, done == 0)
            else
              var t := Take(ram, ring.Address(o), data, done);
              if done + d.Size() >= |data| then r == Delivered(t, o + 1)
              else r == Receive(t, ring, o + 1, data, done + d.Size())
  {
    hide Take, GetDescriptor;
  }

  /** The next descriptor is not free. */
  lemma ReceiveStops(ram: Ram, ring: Ring, start: nat, offset: nat, data: seq<Byte>, j: nat)
    requires ring.Valid() && |data| < 0x1_0000 && Apart(ram, ring, start) && AllOwned(ram, ring, start, j)
    requires j <= ring.length && Room(ram, ring, start, j) < |data|
    requires offset % ring.length == (start + j) % ring.length
    requires j == ring.length || !Owned(ram, ring, start, j)
    ensures var r := Receive(Filled(ram, ring, start, data, j), ring, offset, data, Room(ram, ring, start, j));
            r == Turned(Filled(ram, ring, start, data, j), ring, (start + j) % ring.length, j == 0)
  {
    hide Filled, Room, Take, Receive, Apart, GetDescriptor, Turned;
    var r := Filled(ram, ring, start, data, j);
    RoomAtLeast(ram, ring, start, j);
    SamePlace(ring, offset, start + j);
    ReceiveStep(r, ring, offset, data, Room(ram, ring, start, j));
    if j == ring.length {
      LapIsClosed(ram, ring, start, data);
    } else {
      RoomBelow(ram, ring, start, j, |data|);
      FilledDescriptors(ram, ring, start, data, j, j);
    }
  }

  /** Where the loop stops in front of a descriptor that is not free: behind
      the descriptors that are, `j` of them already taken. */
  function Stop(ram: Ram, ring: Ring, start: nat, len: nat, j: nat): (k: nat)
    requires ring.Valid() && j <= ring.length
    ensures j <= k <= ring.length
    decreases ring.length - j
  {
    if j < ring.length && Owned(ram, ring, start, j) && Room(ram, ring, start, j + 1) < len
    then Stop(ram, ring, start, len, j + 1) else j
  }

  lemma StopNext(ram: Ram, ring: Ring, start: nat, len: nat, j: nat)
    requires ring.Valid() && j <= ring.length
    ensures var k := Stop(ram, ring, start, len, j);
            if j < ring.length && Owned(ram, ring, start, j) && Room(ram, ring, start, j + 1) < len
              then k == Stop(ram, ring, start, len, j + 1) else k == j
  {
    hide Room, Owned;
  }

  lemma {:induction false} StopIs(ram: Ram, ring: Ring, start: nat, len: nat, j: nat)
    requires ring.Valid() && j <= ring.length && AllOwned(ram, ring, start, j) && Room(ram, ring, start, j) < len
    ensures var k := Stop(ram, ring, start, len, j);
            && AllOwned(ram, ring, start, k) && Room(ram, ring, start, k) < len
            && (k == ring.length || !Owned(ram, ring, start, k) || Room(ram, ring, start, k + 1) >= len)
    decreases ring.length - j
  {
    hide Room, Owned;
    if j < ring.length && Owned(ram, ring, start, j) && Room(ram, ring, start, j + 1) < len {
      StopIs(ram, ring, start, len, j + 1);
    }
  }

  /** A frame is delivered if and only if the descriptors with room for it, from
      the ring offset on, are all the receiver's and fit into one lap; the loop
      then leaves exactly these filled. */
  lemma {:induction false} ReceiveFrom(ram: Ram, ring: Ring, start: nat, offset: nat, data: seq<Byte>, j: nat)
    requires ring.Valid() && |data| < 0x1_0000 && Apart(ram, ring, start) && AllOwned(ram, ring, start, j)
    requires j <= ring.length && Room(ram, ring, start, j) < |data|
    requires offset % ring.length == (start + j) % ring.length
    ensures var m := Needed(ram, ring, start, |data|, j);
            var r := Receive(Filled(ram, ring, start, data, j), ring, offset, data, Room(ram, ring, start, j));
            if m <= ring.length && AllOwned(ram, ring, start, m)
              then r == Delivered(Filled(ram, ring, start, data, m), (start + m - 1) % ring.length + 1)
            else
              var k := Stop(ram, ring, start, |data|, j);
              r == Turned(Filled(ram, ring, start, data, k), ring, (start + k) % ring.length, k == 0)
    decreases |data| - Room(ram, ring, start, j)
  {
    hide Filled, Room, Take, Receive, Apart, Needed, Turned, Stop, GetDescriptor;
    var done := Room(ram, ring, start, j);
    StopNext(ram, ring, start, |data|, j);
    NeededAfter(ram, ring, start, |data|, j);
    if j < ring.length && Owned(ram, ring, start, j) {
      var r := Filled(ram, ring, start, data, j);
      TakeIsFilled(ram, ring, start, data, j);
      RoomGrows(ram, ring, start, j);
      ReceiveStep(r, ring, offset, data, done);
      SamePlace(ring, offset, start + j);
      if Room(ram, ring, start, j + 1) < |data| {
        NextPosition(offset % ring.length, start + j, ring.length);
        ReceiveFrom(ram, ring, start, offset % ring.length + 1, data, j + 1);
      }
    } else {
      ReceiveStops(ram, ring, start, offset, data, j);
    }
  }

  lemma {:induction false} RoomMonotone(ram: Ram, ring: Ring, start: nat, i: nat, j: nat)
    requires ring.Valid() && i <= j
    ensures Room(ram, ring, start, i) <= Room(ram, ring, start, j)
    decreases j
  {
    hide Nth;
    if i < j {
      RoomMonotone(ram, ring, start, i, j - 1);
    }
  }

  lemma {:induction false} NeededSkips(ram: Ram, ring: Ring, start: nat, len: nat, j: nat, k: nat)
    requires ring.Valid() && j <= k && Room(ram, ring, start, k) < len
    ensures Needed(ram, ring, start, len, j) == Needed(ram, ring, start, len, k)
    decreases k - j
  {
    hide Room;
    if j < k {
      RoomMonotone(ram, ring, start, j, k);
      NeededSkips(ram, ring, start, len, j + 1, k);
    }
  }

  /** If the loop could go on it would deliver. */
  lemma StopNeeded(ram: Ram, ring: Ring, start: nat, len: nat)
    requires ring.Valid() && len > 0
    ensures var k, m := Stop(ram, ring, start, len, 0), Needed(ram, ring, start, len, 0);
            k < ring.length && Owned(ram, ring, start, k) ==> m <= ring.length && AllOwned(ram, ring, start, m)
  {
    hide Room, Owned, Stop, Needed;
    RoomAtLeast(ram, ring, start, 0);
    StopIs(ram, ring, start, len, 0);
    var k := Stop(ram, ring, start, len, 0);
    NeededSkips(ram, ring, start, len, 0, k);
    NeededAfter(ram, ring, start, len, k);
  }

  /** What a receiver finds: the frame is delivered exactly when enough
      descriptors in a row are free; they are closed in order, first and last
      marked, and the ring offset stands behind the last one.  Otherwise the
      free ones in front are filled all the same, and the ring offset stays at
      the one that is not: it is marked, unless it was the very first. */
  lemma Delivery(ram: Ram, ring: Ring, start: nat, data: seq<Byte>)
    requires ring.Valid() && 0 < |data| < 0x1_0000 && Apart(ram, ring, start)
    ensures var m := Needed(ram, ring, start, |data|, 0);
            var r := Receive(ram, ring, start, data, 0);
            if m <= ring.length && AllOwned(ram, ring, start, m)
              then r == Delivered(Filled(ram, ring, start, data, m), (start + m - 1) % ring.length + 1)
            else
              var k := Stop(ram, ring, start, |data|, 0);
              && r == Turned(Filled(ram, ring, start, data, k), ring, (start + k) % ring.length, k == 0)
              && AllOwned(ram, ring, start, k) && (k == ring.length || !Owned(ram, ring, start, k))
  {
    hide Filled, Room, Receive, Apart, Needed, Stop, Turned;
    RoomAtLeast(ram, ring, start, 0);
    StopIs(ram, ring, start, |data|, 0);
    StopNeeded(ram, ring, start, |data|);
    FilledNone(ram, ring, start, data);
    RoomAtLeast(ram, ring, start, 0);
    ReceiveFrom(ram, ring, start, start, data, 0);
  }

  lemma ClosedAs(ram: Ram, ring: Ring, start: nat, len: Word, i: nat, last: bool)
    requires ring.Valid() && last == (Room(ram, ring, start, i + 1) >= len)
    ensures var d := Nth(ram, ring, start, i);
            Closed(ram, ring, start, len, i)
            == d.(flags := d.flags.(own := false, stp := d.flags.stp || i == 0, enp := d.flags.enp || last),
                  d3 := if last then len else d.d3)
  {
    hide Nth, Room;
  }

  /** The descriptors of a delivered frame: used ones are given back, the first
      marked STP, the last ENP with the length, the others untouched. */
  lemma DeliveredDescriptors(ram: Ram, ring: Ring, start: nat, data: seq<Byte>, i: nat)
    requires ring.Valid() && 0 < |data| < 0x1_0000 && Apart(ram, ring, start) && i < ring.length
    requires Receive(ram, ring, start, data, 0).Delivered?
    ensures var m := Needed(ram, ring, start, |data|, 0);
            var d, e := Nth(ram, ring, start, i), Nth(Receive(ram, ring, start, data, 0).ram, ring, start, i);
            if i >= m then e == d
            else d.flags.own && e == d.(
              flags := d.flags.(own := false, stp := d.flags.stp || i == 0, enp := d.flags.enp || i == m - 1),
              d3 := if i == m - 1 then |data| else d.d3)
  {
    hide Filled, Room, Receive, Apart, Needed, Nth, Closed;
    var m := Needed(ram, ring, start, |data|, 0);
    Delivery(ram, ring, start, data);
    NeededIsLeast(ram, ring, start, |data|, 0);
    RoomAtLeast(ram, ring, start, 0);
    FilledDescriptors(ram, ring, start, data, m, i);
    if i < m {
      assert Nth(ram, ring, start, i).flags.own by { assert Owned(ram, ring, start, i); }
      if i < m - 1 {
        RoomMonotone(ram, ring, start, i + 1, m - 1);
      }
      ClosedAs(ram, ring, start, |data|, i, i == m - 1);
    }
  }

  /** Every byte of a delivered frame lies in its place in a buffer. */
  lemma DeliveredBytes(ram: Ram, ring: Ring, start: nat, data: seq<Byte>, i: nat, o: nat)
    requires ring.Valid() && 0 < |data| < 0x1_0000 && Apart(ram, ring, start)
    requires Receive(ram, ring, start, data, 0).Delivered?
    requires i < Needed(ram, ring, start, |data|, 0) && o < Used(ram, ring, start, |data|, i)
    ensures Room(ram, ring, start, i) + o < |data|
    ensures Receive(ram, ring, start, data, 0).ram[Wrap(Nth(ram, ring, start, i).Buffer() + o)]
         == data[Room(ram, ring, start, i) + o]
  {
    hide Filled, Room, Receive, Apart, Needed, Nth, Wrap, Distance;
    Delivery(ram, ring, start, data);
    assert Owned(ram, ring, start, i);
    SizeFits(ram, ring, start, i);
    var b := Nth(ram, ring, start, i).Buffer();
    DistanceWrap(b, o);
    FilledBuffers(ram, ring, start, data, Needed(ram, ring, start, |data|, 0), i, Wrap(b + o));
  }

  /** The descriptor `k` places on, named within one lap. */
  lemma LapPlace(ring: Ring, start: nat, k: nat)
    requires ring.Valid()
    ensures ring.Address((start + k) % ring.length) == ring.Address(start + k % ring.length)
  {
    var l := ring.length;
    AddModulo(k, start, l);
    SamePlace(ring, start + k, start + k % l);
  }

  lemma SameWords(ram: Ram, at: nat, b: Byte)
    requires at + 8 <= RAM_SIZE
    ensures GetDescriptor(ram[at + 2 := b], at) == GetDescriptor(ram, at).(flags := ByteFlags(b))
  {
    hide ByteFlags;
  }

  lemma TurnedDescriptors(ram: Ram, ring: Ring, start: nat, k: nat, i: nat)
    requires ring.Valid() && i < ring.length
    ensures var r := Turned(ram, ring, (start + k) % ring.length, false).ram; var e := Nth(ram, ring, start, i);
            Nth(r, ring, start, i)
            == if i == k % ring.length then e.(flags := e.flags.(bit2 := true, bit4 := true)) else e
  {
    hide GetDescriptor, FlagByte;
    LapPlace(ring, start, k);
    var n := k % ring.length;
    var at := ring.Address(start + n);
    var f := GetDescriptor(ram, at).flags.(bit2 := true, bit4 := true);
    if i == n {
      FlagsRoundTrip(f);
      SameWords(ram, at, FlagByte(f));
    } else {
      PositionsDiffer(ring, start, i, n);
      SameNth(ram, ram[at + 2 := FlagByte(f)], ring, start, i);
    }
  }

  lemma TurnedKind(ram: Ram, ring: Ring, o: nat, first: bool)
    requires ring.Valid()
    ensures var r := Turned(ram, ring, o, first); if first then r == Missed(ram, o) else r.Overflow?
  {
  }

  /** The descriptors of a frame for which the ring ran out: those in front are
      given back without ENP, the one in the way has BUFF and OFLO. */
  lemma OverflowDescriptors(ram: Ram, ring: Ring, start: nat, data: seq<Byte>, i: nat)
    requires ring.Valid() && 0 < |data| < 0x1_0000 && Apart(ram, ring, start) && i < ring.length
    requires Receive(ram, ring, start, data, 0).Overflow?
    ensures var k := Stop(ram, ring, start, |data|, 0);
            var d, e := Nth(ram, ring, start, i), Nth(Receive(ram, ring, start, data, 0).ram, ring, start, i);
            var g := if i < k then d.flags.(own := false, stp := d.flags.stp || i == 0) else d.flags;
            k > 0 && e == d.(flags := if i == k % ring.length then g.(bit2 := true, bit4 := true) else g)
  {
    hide Filled, Room, Receive, Apart, Needed, Nth, Stop, Turned, Closed, Owned;
    Delivery(ram, ring, start, data);
    RoomAtLeast(ram, ring, start, 0);
    StopIs(ram, ring, start, |data|, 0);
    var k := Stop(ram, ring, start, |data|, 0);
    assert k > 0 by { TurnedKind(Filled(ram, ring, start, data, k), ring, (start + k) % ring.length, k == 0); }
    RoomBelow(ram, ring, start, k, |data|);
    FilledDescriptors(ram, ring, start, data, k, i);
    if i < k {
      RoomMonotone(ram, ring, start, i + 1, k);
      ClosedAs(ram, ring, start, |data|, i, false);
    }
    TurnedDescriptors(Filled(ram, ring, start, data, k), ring, start, k, i);
  }

  lemma NotInRing(ram: Ram, ring: Ring, start: nat, k: nat, i: nat, a: nat)
    requires ring.Valid() && Apart(ram, ring, start) && i < ring.length
    requires a < RAM_SIZE && Covers(ram, ring, start, i, a)
    ensures var at := ring.Address((start + k) % ring.length); !(at <= a < at + 8)
  {
    hide Covers;
    LapPlace(ring, start, k);
    assert !InDescriptor(ring, start, k % ring.length, a);
  }

  lemma TurnedElsewhere(ram: Ram, ring: Ring, o: nat, a: nat)
    requires ring.Valid() && a < RAM_SIZE && !(ring.Address(o) <= a < ring.Address(o) + 8)
    ensures Turned(ram, ring, o, false).ram[a] == ram[a]
  {
    hide GetDescriptor, FlagByte;
  }

  lemma TurnedByte(ram: Ram, ring: Ring, start: nat, m: Ram, k: nat, i: nat, a: nat)
    requires ring.Valid() && Apart(ram, ring, start) && i < ring.length
    requires a < RAM_SIZE && Covers(ram, ring, start, i, a)
    ensures Turned(m, ring, (start + k) % ring.length, false).ram[a] == m[a]
  {
    hide Covers, Apart, Turned;
    NotInRing(ram, ring, start, k, i, a);
    TurnedElsewhere(m, ring, (start + k) % ring.length, a);
  }

  /** The beginning of such a frame lies in the buffers all the same. */
  lemma OverflowBytes(ram: Ram, ring: Ring, start: nat, data: seq<Byte>, i: nat, o: nat)
    requires ring.Valid() && 0 < |data| < 0x1_0000 && Apart(ram, ring, start)
    requires Receive(ram, ring, start, data, 0).Overflow?
    requires i < Stop(ram, ring, start, |data|, 0) && o < Used(ram, ring, start, |data|, i)
    ensures Room(ram, ring, start, i) + o < |data|
    ensures Receive(ram, ring, start, data, 0).ram[Wrap(Nth(ram, ring, start, i).Buffer() + o)]
         == data[Room(ram, ring, start, i) + o]
  {
    hide Filled, Room, Receive, Apart, Needed, Nth, Wrap, Distance, Stop, Turned, Owned;
    Delivery(ram, ring, start, data);
    RoomAtLeast(ram, ring, start, 0);
    StopIs(ram, ring, start, |data|, 0);
    var k := Stop(ram, ring, start, |data|, 0);
    assert Owned(ram, ring, start, i);
    SizeFits(ram, ring, start, i);
    var b := Nth(ram, ring, start, i).Buffer();
    var a := Wrap(b + o);
    DistanceWrap(b, o);
    FilledBuffers(ram, ring, start, data, k, i, a);
    TurnedByte(ram, ring, start, Filled(ram, ring, start, data, k), k, i, a);
  }

  /** The bytes the first `j` descriptors take. */
  function Total(ram: Ram, ring: Ring, start: nat, len: nat, j: nat): nat
    requires ring.Valid()
  {
    if j == 0 then 0 else Total(ram, ring, start, len, j - 1) + Used(ram, ring, start, len, j - 1)
  }

  /** The pieces make up the whole frame. */
  lemma {:induction false} PiecesAddUp(ram: Ram, ring: Ring, start: nat, len: nat, j: nat)
    requires ring.Valid() && (j > 0 ==> Room(ram, ring, start, j - 1) < len)
    ensures Total(ram, ring, start, len, j) == Min(Room(ram, ring, start, j), len)
    decreases j
  {
    hide Nth;
    if j > 0 {
      RoomBelow(ram, ring, start, j - 1, len);
      PiecesAddUp(ram, ring, start, len, j - 1);
    }
  }

  // ----- an example

  /** One free descriptor at address 0, with 64 bytes at 0x100. */
  function Example(): Ram {
    seq(RAM_SIZE, _ => 0)[0 := 1][2 := 0x80][4 := 0xff][5 := 0xc0]
  }

  lemma ExampleBytes()
    ensures var e := Example();
            e[0] == 1 && e[1] == 0 && e[2] == 0x80 && e[3] == 0 && e[4] == 0xff && e[5] == 0xc0
            && e[6] == 0 && e[7] == 0
  {
  }

  lemma ExampleDescriptor()
    ensures Nth(Example(), Ring(0, 1), 0, 0) == Descriptor(0x100, ByteFlags(0x80), 0, 0xffc0, 0)
    ensures ByteFlags(0x80).own
  {
    assert ByteFlags(0x80).own;
    hide Example, ByteFlags;
    ExampleBytes();
    assert Ring(0, 1).Address(0) == 0;
  }

  lemma ExampleBuffer(a: nat)
    requires a < RAM_SIZE && Covers(Example(), Ring(0, 1), 0, 0, a)
    ensures !InDescriptor(Ring(0, 1), 0, 0, a)
  {
    hide Example, Nth;
    ExampleDescriptor();
  }

  lemma ExampleApart()
    ensures Apart(Example(), Ring(0, 1), 0)
  {
    hide Example, Nth, InDescriptor, Covers;
    forall i, j, a | 0 <= i < 1 && 0 <= j < 1 && 0 <= a < RAM_SIZE && Covers(Example(), Ring(0, 1), 0, i, a)
      ensures !InDescriptor(Ring(0, 1), 0, j, a)
    {
      ExampleBuffer(a);
    }
  }

  /** A ring of one: frames of up to 64 bytes are delivered, longer ones are
      not. */
  lemma ExampleDelivers(data: seq<Byte>)
    requires 0 < |data| < 0x1_0000
    ensures Ring(0, 1).Valid() && Apart(Example(), Ring(0, 1), 0)
    ensures Receive(Example(), Ring(0, 1), 0, data, 0).Delivered? <==> |data| <= 64
  {
    var ring, ram := Ring(0, 1), Example();
    ExampleDescriptor();
    ExampleApart();
    hide Example, Nth, Receive, Covers, Distance, Filled;
    assert Owned(ram, ring, 0, 0);
    Delivery(ram, ring, 0, data);
    RoomGrows(ram, ring, 0, 0);
    NeededIsLeast(ram, ring, 0, |data|, 0);
    RoomAtLeast(ram, ring, 0, 0);
  }
}
