/** A Paula channel with DMA switched on, over every run in which each request
    is served before the channel needs the word: which addresses it fetches,
    what it plays, and when it interrupts. */
module PaulaRun {
  import opened Modulo
  import opened Paula

  /** The channel, the request bits audio_dmal has handed to the DMA slots, and
      the addresses fetched so far. */
  datatype Bus = Bus(c: Chan, pending: bool, reset: bool, fetched: seq<Pointer>)

  /** What can happen: the state machine is looked at, the period ends, the
      request bits are collected, a request is served. `irq` says whether the
      channel's interrupt is still waiting for the processor. */
  datatype Event = Poll(irq: bool) | PeriodEnd(irq: bool) | Collect | Serve(irq: bool)

  /** A period can only end where one is running; a request is served before
      the period that needs its word ends, and before the next one is collected. */
  predicate Enabled(b: Bus, ev: Event) {
    match ev
    case Poll(_) => true
    case PeriodEnd(_) => b.c.evtime.After? && (b.c.state == 3 ==> !b.c.dr && !b.pending)
    case Collect => !b.pending
    case Serve(_) => b.pending
  }

  function Step(r: Registers, mem: Pointer -> Word, b: Bus, ev: Event): Bus {
    match ev
    case Poll(irq) => b.(c := StateChannel2(r, b.c, true, irq, false).(written := false))
    case PeriodEnd(irq) => b.(c := StateChannel2(r, b.c, true, irq, true).(written := false))
    case Collect =>
      b.(pending := b.c.dr, reset := b.c.dsr, c := b.c.(dr := false, dsr := false))
    case Serve(irq) =>
      var c := b.c.(pt := NextPointer(r, b.c, b.reset));
      Bus(AudxDat(r, c, true, irq, mem(b.c.pt)), false, false, b.fetched + [b.c.pt])
  }

  function Run(r: Registers, mem: Pointer -> Word, b: Bus, evs: seq<Event>): Bus {
    if evs == [] then b else Step(r, mem, Run(r, mem, b, evs[..|evs| - 1]), evs[|evs| - 1])
  }

  /** Every event happens where it can. */
  predicate Fair(r: Registers, mem: Pointer -> Word, b: Bus, evs: seq<Event>) {
    evs == [] || (Fair(r, mem, b, evs[..|evs| - 1])
                  && Enabled(Run(r, mem, b, evs[..|evs| - 1]), evs[|evs| - 1]))
  }

  // ----- what the channel owes its program

  /** AUDxLEN in words; 0 means 65536. */
  function Length(r: Registers): (l: nat)
    ensures 0 < l <= 0x1_0000
  {
    if r.len == 0 then 0x1_0000 else r.len
  }

  /** The place of word `k` in the block. */
  function Place(r: Registers, k: nat): (i: nat)
    ensures i < Length(r)
  {
    k % Length(r)
  }

  /** The address of word `k` of the endless loop. */
  function Address(r: Registers, k: nat): Pointer {
    (r.lc + 2 * Place(r, k)) % 0x1_0000_0000
  }

  function Addresses(r: Registers, k: nat): (a: seq<Pointer>)
    ensures |a| == k
  {
    if k == 0 then [] else Addresses(r, k - 1) + [Address(r, k - 1)]
  }

  /** High and low byte of the first `n` words. */
  function Samples(r: Registers, mem: Pointer -> Word, n: nat): seq<nat> {
    if n == 0 then []
    else Samples(r, mem, n - 1) + [High(mem(Address(r, n - 1))), Low(mem(Address(r, n - 1)))]
  }

  /** How many blocks have ended among the first `n` words; the very first word
      never ends one. */
  function Ends(r: Registers, n: nat): nat {
    if n <= 1 then 0 else Ends(r, n - 1) + if Place(r, n) == 0 then 1 else 0
  }

  /** Words left in the block after `k` words, as the 16-bit counter has it. */
  function Left(r: Registers, k: nat): Word {
    (Length(r) - Place(r, k)) % 0x1_0000
  }

  // ----- the invariant

  predicate Outstanding(b: Bus) { b.c.dr || b.pending }

  function Flag(b: Bus): bool { if b.c.dr then b.c.dsr else b.reset }

  /** At most one request, and no flag without one. */
  predicate OneRequest(b: Bus) {
    !(b.c.dr && b.pending) && (!b.c.dr ==> !b.c.dsr) && (!b.pending ==> !b.reset)
  }

  predicate Before(r: Registers, b: Bus) {
    b.c.irqs == 0 && b.c.played == [] && b.fetched == [] && b.c.evtime.Off?
    && if b.c.state == 0 then !Outstanding(b) else Outstanding(b) && Flag(b) && b.c.wlen == r.len
  }

  predicate Dummy(r: Registers, b: Bus) {
    b.c.irqs == 1 && b.c.played == [] && |b.fetched| == 1 && b.c.evtime.Off?
    && Outstanding(b) && Flag(b) == (Length(r) == 1) && b.c.pt == r.lc && b.c.wlen == Left(r, 1)
  }

  /** Words that have moved on to dat2. */
  function Moved(b: Bus): int { if Outstanding(b) then |b.fetched| - 1 else |b.fetched| - 2 }

  predicate Playing(r: Registers, mem: Pointer -> Word, b: Bus) {
    var k, n := |b.fetched| - 1, Moved(b);
    n >= 1 && !b.c.pbufldl && b.c.evtime.After?
    && b.fetched[1..] == Addresses(r, k)
    && b.c.pt == Address(r, k) && b.c.wlen == Left(r, k)
    && (Outstanding(b) ==> Flag(b) == (Place(r, k) == Length(r) - 1))
    && b.c.intreq2 == (!Outstanding(b) && Place(r, k) == 0)
    && (!Outstanding(b) ==> b.c.dat == mem(Address(r, k - 1)))
    && b.c.dat2 == mem(Address(r, n - 1))
    && b.c.irqs == 1 + Ends(r, n)
    && b.c.played == if b.c.state == 2 then Samples(r, mem, n - 1) + [High(b.c.dat2)] else Samples(r, mem, n)
  }

  predicate Invariant(r: Registers, mem: Pointer -> Word, b: Bus) {
    !b.c.written && OneRequest(b)
    && if b.c.state == 0 || b.c.state == 1 then Before(r, b)
       else if b.c.state == 5 then Dummy(r, b)
       else (b.c.state == 2 || b.c.state == 3) && Playing(r, mem, b)
  }

  // ----- counting modulo the length

  lemma NextPlace(r: Registers, k: nat)
    ensures Place(r, k + 1) == if Place(r, k) == Length(r) - 1 then 0 else Place(r, k) + 1
  {
    var l := Length(r);
    var q, i := k / l, k % l;
    assert k == l * q + i;
    if i == l - 1 {
      assert k + 1 == l * (q + 1);
      Remainder(k + 1, l, q + 1, 0);
    } else {
      Remainder(k + 1, l, q, i + 1);
    }
  }

  lemma PlaceZero(r: Registers)
    ensures Place(r, 0) == 0 && Address(r, 0) == r.lc && Left(r, 0) == r.len
  {
  }

  /** The counter stands at 1 exactly in front of the last word of a block. */
  lemma LastWord(r: Registers, k: nat)
    ensures Left(r, k) == 1 <==> Place(r, k) == Length(r) - 1
    ensures Left(r, k + 1) == if Left(r, k) == 1 then r.len else Down(Left(r, k))
    ensures Address(r, k + 1)
         == if Place(r, k) == Length(r) - 1 then r.lc else (Address(r, k) + 2) % 0x1_0000_0000
  {
    hide Place;
    NextPlace(r, k);
  }

  // ----- every event keeps the invariant

  lemma PollKeeps(r: Registers, mem: Pointer -> Word, b: Bus, irq: bool)
    requires Invariant(r, mem, b)
    ensures Invariant(r, mem, Step(r, mem, b, Poll(irq)))
  {
    hide Samples, Addresses, Ends, Place, Left, High, Low;
    PlaceZero(r);
  }

  lemma CollectKeeps(r: Registers, mem: Pointer -> Word, b: Bus)
    requires Invariant(r, mem, b) && Enabled(b, Collect)
    ensures Invariant(r, mem, Step(r, mem, b, Collect))
  {
    hide Samples, Addresses, Ends, Place, Left, High, Low;
  }

  lemma HighKeeps(r: Registers, mem: Pointer -> Word, b: Bus, irq: bool)
    requires Invariant(r, mem, b) && b.c.state == 2
    ensures Invariant(r, mem, Step(r, mem, b, PeriodEnd(irq)))
  {
    hide Addresses, Ends, Place, Left, High, Low, Address;
    var n := Moved(b);
    assert Samples(r, mem, n) == Samples(r, mem, n - 1) + [High(b.c.dat2)] + [Low(b.c.dat2)];
  }

  lemma LowKeeps(r: Registers, mem: Pointer -> Word, b: Bus, irq: bool)
    requires Invariant(r, mem, b) && b.c.state == 3 && !Outstanding(b)
    ensures Invariant(r, mem, Step(r, mem, b, PeriodEnd(irq)))
  {
    hide Samples, Addresses, Place, Left, High, Low, Address;
    LastWord(r, |b.fetched| - 1);
  }

  lemma PeriodKeeps(r: Registers, mem: Pointer -> Word, b: Bus, irq: bool)
    requires Invariant(r, mem, b) && Enabled(b, PeriodEnd(irq))
    ensures Invariant(r, mem, Step(r, mem, b, PeriodEnd(irq)))
  {
    hide Samples, Addresses, Ends, Place, Left, High, Low, Playing;
    if b.c.state == 2 {
      HighKeeps(r, mem, b, irq);
    } else if b.c.state == 3 {
      LowKeeps(r, mem, b, irq);
    }
  }

  lemma PendingState(r: Registers, mem: Pointer -> Word, b: Bus)
    requires Invariant(r, mem, b) && b.pending && b.c.state != 1 && b.c.state != 5
    ensures b.c.state == 2 || b.c.state == 3
  {
    hide Playing;
  }

  lemma ServeDummy(r: Registers, mem: Pointer -> Word, b: Bus, irq: bool)
    requires Invariant(r, mem, b) && b.c.state == 1 && b.pending
    ensures Invariant(r, mem, Step(r, mem, b, Serve(irq)))
  {
    hide Playing, Place, Left;
    PlaceZero(r);
    LastWord(r, 0);
  }

  lemma FirstSamples(r: Registers, mem: Pointer -> Word)
    ensures Samples(r, mem, 0) == [] && Addresses(r, 1) == [Address(r, 0)] && Ends(r, 1) == 0
  {
    hide Address;
    assert Addresses(r, 0) == [];
  }

  lemma ServeFirst(r: Registers, mem: Pointer -> Word, b: Bus, irq: bool)
    requires Invariant(r, mem, b) && b.c.state == 5 && b.pending
    ensures Invariant(r, mem, Step(r, mem, b, Serve(irq)))
  {
    hide Place, Left, High, Low, Address;
    PlaceZero(r);
    LastWord(r, 0);
    LastWord(r, 1);
    FirstSamples(r, mem);
    assert (b.fetched + [b.c.pt])[1..] == [b.c.pt];
  }

  lemma ServeNext(r: Registers, mem: Pointer -> Word, b: Bus, irq: bool)
    requires Invariant(r, mem, b) && (b.c.state == 2 || b.c.state == 3) && b.pending
    ensures Invariant(r, mem, Step(r, mem, b, Serve(irq)))
  {
    hide Samples, Ends, Place, Left, High, Low, Address;
    var k := |b.fetched| - 1;
    LastWord(r, k);
    NextPlace(r, k);
    assert (b.fetched + [b.c.pt])[1..] == b.fetched[1..] + [b.c.pt];
  }

  lemma ServeKeeps(r: Registers, mem: Pointer -> Word, b: Bus, irq: bool)
    requires Invariant(r, mem, b) && Enabled(b, Serve(irq))
    ensures Invariant(r, mem, Step(r, mem, b, Serve(irq)))
  {
    hide Invariant, Step;
    if b.c.state == 1 {
      ServeDummy(r, mem, b, irq);
    } else if b.c.state == 5 {
      ServeFirst(r, mem, b, irq);
    } else {
      assert b.c.state == 2 || b.c.state == 3 by { PendingState(r, mem, b); }
      ServeNext(r, mem, b, irq);
    }
  }

  // ----- whole runs

  /** A channel at rest, with any old pointer, data and count in it. */
  predicate AtRest(b: Bus) {
    b.c.state == 0 && !b.c.written && !b.c.dr && !b.c.dsr && b.c.evtime.Off? && b.c.played == [] && b.c.irqs == 0
    && !b.pending && !b.reset && b.fetched == []
  }

  lemma RestIsInvariant(r: Registers, mem: Pointer -> Word, b: Bus)
    requires AtRest(b)
    ensures Invariant(r, mem, b)
  {
    hide Playing;
  }

  lemma StepKeeps(r: Registers, mem: Pointer -> Word, b: Bus, ev: Event)
    requires Invariant(r, mem, b) && Enabled(b, ev)
    ensures Invariant(r, mem, Step(r, mem, b, ev))
  {
    hide Invariant, Step, Enabled;
    match ev
    case Poll(irq) => PollKeeps(r, mem, b, irq);
    case PeriodEnd(irq) => PeriodKeeps(r, mem, b, irq);
    case Collect => CollectKeeps(r, mem, b);
    case Serve(irq) => ServeKeeps(r, mem, b, irq);
  }

  lemma {:induction false} RunKeeps(r: Registers, mem: Pointer -> Word, b: Bus, evs: seq<Event>)
    requires AtRest(b) && Fair(r, mem, b, evs)
    ensures Invariant(r, mem, Run(r, mem, b, evs))
    decreases |evs|
  {
    hide Invariant, Step, Enabled;
    if evs == [] {
      assert Invariant(r, mem, b) by { RestIsInvariant(r, mem, b); }
    } else {
      var n := |evs| - 1;
      RunKeeps(r, mem, b, evs[..n]);
      StepKeeps(r, mem, Run(r, mem, b, evs[..n]), evs[n]);
    }
  }

  lemma {:induction false} AddressAt(r: Registers, n: nat, k: nat)
    requires k < n
    ensures Addresses(r, n)[k] == Address(r, k)
    decreases n
  {
    hide Address;
    if k < n - 1 {
      AddressAt(r, n - 1, k);
    }
  }

  lemma PlaceIs(r: Registers, k: nat)
    ensures Place(r, k) == k % Length(r)
  {
  }

  /** After the dummy fetch that a start begins with, fetch number k reads
      LC + 2 * (k mod LEN), for ever. */
  lemma FetchesLoop(r: Registers, mem: Pointer -> Word, b: Bus, evs: seq<Event>, k: nat)
    requires AtRest(b) && Fair(r, mem, b, evs) && k + 1 < |Run(r, mem, b, evs).fetched|
    ensures Run(r, mem, b, evs).fetched[k + 1] == (r.lc + 2 * (k % Length(r))) % 0x1_0000_0000
  {
    hide Place, Samples, Ends, Run, Fair, Left;
    RunKeeps(r, mem, b, evs);
    var c := Run(r, mem, b, evs);
    assert c.c.state == 2 || c.c.state == 3;
    AddressAt(r, |c.fetched| - 1, k);
    assert c.fetched[1..][k] == c.fetched[k + 1];
    assert Place(r, k) == k % Length(r) by { PlaceIs(r, k); }
  }

  /** Byte `i` of what is played: high byte, then low byte of each word. */
  function SampleAt(r: Registers, mem: Pointer -> Word, i: nat): nat {
    var w := mem(Address(r, i / 2));
    if i % 2 == 0 then High(w) else Low(w)
  }

  /** The words of which at least the high byte has been played. */
  function Begun(c: Chan): nat { (|c.played| + 1) / 2 }

  lemma {:induction false} SamplesLength(r: Registers, mem: Pointer -> Word, n: nat)
    ensures |Samples(r, mem, n)| == 2 * n
    decreases n
  {
    hide Address, High, Low;
    if n > 0 {
      SamplesLength(r, mem, n - 1);
    }
  }

  lemma {:induction false} SampleIs(r: Registers, mem: Pointer -> Word, n: nat, i: nat)
    requires i < 2 * n
    ensures |Samples(r, mem, n)| == 2 * n && Samples(r, mem, n)[i] == SampleAt(r, mem, i)
    decreases n
  {
    hide Address, High, Low;
    SamplesLength(r, mem, n);
    SamplesLength(r, mem, n - 1);
    if i < 2 * (n - 1) {
      SampleIs(r, mem, n - 1, i);
    }
  }

  lemma SamplesLast(r: Registers, mem: Pointer -> Word, n: nat)
    requires n >= 1
    ensures |Samples(r, mem, n)| == 2 * n
    ensures Samples(r, mem, n)[..2 * n - 1] == Samples(r, mem, n - 1) + [High(mem(Address(r, n - 1)))]
  {
    hide Address, High, Low;
    SamplesLength(r, mem, n - 1);
  }

  /** One interrupt per LEN words; with LEN 1 every word raises one but the
      first, whose block ends before the channel counts. */
  lemma {:induction false} EndsPerBlock(r: Registers, n: nat)
    requires n >= 1
    ensures Ends(r, n) == if Length(r) == 1 then n - 1 else n / Length(r)
    decreases n
  {
    var l := Length(r);
    if n == 1 {
      if l > 1 {
        Remainder(1, l, 0, 1);
      }
    } else {
      EndsPerBlock(r, n - 1);
      hide Place;
      NextPlace(r, n - 1);
      PlaceIs(r, n - 1);
      PlaceIs(r, n);
      NextQuotient(n - 1, l);
    }
  }

  /** Everything played is the words of the loop in order, high byte before low
      byte; the interrupts are the one that acknowledges the start and one per
      LEN words begun, except that with LEN 1 the first word raises none. */
  lemma PlaysAndInterrupts(r: Registers, mem: Pointer -> Word, b: Bus, evs: seq<Event>)
    requires AtRest(b) && Fair(r, mem, b, evs)
    requires Run(r, mem, b, evs).c.played != []
    ensures var c := Run(r, mem, b, evs).c;
            (forall i | 0 <= i < |c.played| :: c.played[i] == SampleAt(r, mem, i))
            && c.irqs == 1 + if Length(r) == 1 then Begun(c) - 1 else Begun(c) / Length(r)
  {
    hide Run, Fair, Ends, Samples, SampleAt, Address, Addresses, Place, Left, High, Low;
    RunKeeps(r, mem, b, evs);
    var d := Run(r, mem, b, evs);
    var n := Moved(d);
    SamplesLast(r, mem, n);
    EndsPerBlock(r, n);
    assert d.c.played == Samples(r, mem, n)[..|d.c.played|];
    forall i | 0 <= i < |d.c.played|
      ensures d.c.played[i] == SampleAt(r, mem, i)
    {
      SampleIs(r, mem, n, i);
    }
  }

  /** The channel never gets stuck: a request raised can be collected, one
      collected can be served, and without a request the period of a sample
      can end. */
  lemma NeverStuck(r: Registers, mem: Pointer -> Word, b: Bus, irq: bool)
    requires Invariant(r, mem, b)
    ensures b.c.dr ==> Enabled(b, Collect) && Step(r, mem, b, Collect).pending
    ensures b.pending ==> Enabled(b, Serve(irq)) && |Step(r, mem, b, Serve(irq)).fetched| == |b.fetched| + 1
    ensures !Outstanding(b) && b.c.state != 0 ==>
              Enabled(b, PeriodEnd(irq)) && |Step(r, mem, b, PeriodEnd(irq)).c.played| == |b.c.played| + 1
  {
    hide Samples, Addresses, Ends, Place, Left, High, Low, Address;
  }

  // ----- how far a run gets

  /** An event that gets the channel on: out of rest, a request collected or
      served, a period ended. */
  predicate Useful(b: Bus, ev: Event) {
    match ev
    case Poll(_) => b.c.state == 0
    case PeriodEnd(_) => true
    case Collect => b.c.dr
    case Serve(_) => true
  }

  function UsefulCount(r: Registers, mem: Pointer -> Word, b: Bus, evs: seq<Event>): nat {
    if evs == [] then 0
    else
      var init := evs[..|evs| - 1];
      UsefulCount(r, mem, b, init) + if Useful(Run(r, mem, b, init), evs[|evs| - 1]) then 1 else 0
  }

  /** What a channel has behind it: the start, two events a fetch, a request
      collected, and the periods of all samples but the one that plays. */
  function Behind(b: Bus): int {
    (if b.c.state == 0 then 0 else 1) + 2 * |b.fetched| + (if b.pending then 1 else 0)
    + if b.c.played == [] then 0 else |b.c.played| - 1
  }

  lemma PollBehind(r: Registers, mem: Pointer -> Word, b: Bus, irq: bool)
    requires Invariant(r, mem, b)
    ensures Behind(Step(r, mem, b, Poll(irq))) == Behind(b) + if b.c.state == 0 then 1 else 0
  {
    hide Samples, Addresses, Ends, Place, Left, High, Low, Address;
  }

  lemma PeriodBehind(r: Registers, mem: Pointer -> Word, b: Bus, irq: bool)
    requires Invariant(r, mem, b) && Enabled(b, PeriodEnd(irq))
    ensures Behind(Step(r, mem, b, PeriodEnd(irq))) == Behind(b) + 1
  {
    hide Samples, Addresses, Ends, Place, Left, High, Low, Address;
    SamplesLength(r, mem, Moved(b));
  }

  lemma ServeBehind(r: Registers, mem: Pointer -> Word, b: Bus, irq: bool)
    requires Invariant(r, mem, b) && b.pending
    ensures Behind(Step(r, mem, b, Serve(irq))) == Behind(b) + 1
  {
    hide Samples, Addresses, Ends, Place, Left, High, Low, Address;
  }

  lemma UsefulStep(r: Registers, mem: Pointer -> Word, b: Bus, ev: Event)
    requires Invariant(r, mem, b) && Enabled(b, ev)
    ensures Behind(Step(r, mem, b, ev)) == Behind(b) + if Useful(b, ev) then 1 else 0
  {
    hide Invariant;
    match ev
    case Poll(irq) => PollBehind(r, mem, b, irq);
    case PeriodEnd(irq) => PeriodBehind(r, mem, b, irq);
    case Serve(irq) => ServeBehind(r, mem, b, irq);
    case Collect =>
  }

  lemma RestBehind(r: Registers, mem: Pointer -> Word, b: Bus)
    requires AtRest(b)
    ensures Behind(b) == 0
  {
  }

  lemma {:induction false} UsefulCounts(r: Registers, mem: Pointer -> Word, b: Bus, evs: seq<Event>)
    requires AtRest(b) && Fair(r, mem, b, evs)
    ensures UsefulCount(r, mem, b, evs) == Behind(Run(r, mem, b, evs))
    decreases |evs|
  {
    hide Invariant, Step, Enabled, Useful, Behind, AtRest;
    if evs == [] {
      RestBehind(r, mem, b);
    } else {
      var n := |evs| - 1;
      UsefulCounts(r, mem, b, evs[..n]);
      RunKeeps(r, mem, b, evs[..n]);
      UsefulStep(r, mem, Run(r, mem, b, evs[..n]), evs[n]);
    }
  }

  lemma BehindBound(r: Registers, mem: Pointer -> Word, b: Bus)
    requires Invariant(r, mem, b)
    ensures Behind(b) < 4 * (|b.fetched| + 1)
  {
    hide Addresses, Ends, Place, Left, High, Low, Address, Samples;
    if |b.c.played| > 0 {
      SamplesLength(r, mem, Moved(b));
      SamplesLength(r, mem, Moved(b) - 1);
    }
  }

  /** Every fair run with at least 4k useful events has made k fetches. */
  lemma ReachesFetch(r: Registers, mem: Pointer -> Word, b: Bus, evs: seq<Event>, k: nat)
    requires AtRest(b) && Fair(r, mem, b, evs) && UsefulCount(r, mem, b, evs) >= 4 * k
    ensures |Run(r, mem, b, evs).fetched| >= k
  {
    hide Invariant, Run, Fair, UsefulCount, Behind, AtRest;
    UsefulCounts(r, mem, b, evs);
    RunKeeps(r, mem, b, evs);
    BehindBound(r, mem, Run(r, mem, b, evs));
  }

  lemma RunNone(r: Registers, mem: Pointer -> Word, b: Bus)
    ensures Run(r, mem, b, []) == b && Fair(r, mem, b, [])
  {
  }

  lemma RestPolled(r: Registers, mem: Pointer -> Word, b: Bus)
    requires AtRest(b)
    ensures var d := Step(r, mem, b, Poll(false));
            d.c.state == 1 && d.c.dr && d.c.dsr && !d.pending && d.c.played == []
  {
  }

  lemma DummyServed(r: Registers, mem: Pointer -> Word, b: Bus)
    requires b.c.state == 1 && b.c.dr && b.c.dsr && !b.pending && b.c.played == []
    ensures var c := Step(r, mem, b, Collect); var d := Step(r, mem, c, Serve(false));
            c.pending && d.c.state == 5 && d.c.dr && !d.pending && d.c.played == [] && d.c.pt == r.lc
  {
  }

  lemma FirstServed(r: Registers, mem: Pointer -> Word, b: Bus)
    requires b.c.state == 5 && b.c.dr && !b.pending && b.c.played == [] && b.c.pt == r.lc
    ensures var c := Step(r, mem, b, Collect); var d := Step(r, mem, c, Serve(false));
            c.pending && d.c.state == 2 && d.c.played == [High(mem(r.lc))]
  {
    hide High;
  }

  lemma RunOne(r: Registers, mem: Pointer -> Word, b: Bus, evs: seq<Event>, ev: Event)
    ensures Run(r, mem, b, evs + [ev]) == Step(r, mem, Run(r, mem, b, evs), ev)
    ensures Fair(r, mem, b, evs + [ev]) == (Fair(r, mem, b, evs) && Enabled(Run(r, mem, b, evs), ev))
  {
    hide Step, Enabled;
    assert (evs + [ev])[..|evs|] == evs;
  }

  /** A channel at rest gets to play: DMA switched on, the dummy fetch and the
      first word served. */
  lemma GetsToPlay(r: Registers, mem: Pointer -> Word, b: Bus)
    requires AtRest(b)
    ensures var evs := [Poll(false), Collect, Serve(false), Collect, Serve(false)];
            Fair(r, mem, b, evs) && Run(r, mem, b, evs).c.state == 2
            && Run(r, mem, b, evs).c.played == [High(mem(r.lc))]
  {
    hide Step, Run, Fair, AtRest, High;
    var p: Event, s := Poll(false), Serve(false);
    var b1 := Step(r, mem, b, p);
    RestPolled(r, mem, b);
    var b3 := Step(r, mem, Step(r, mem, b1, Collect), s);
    DummyServed(r, mem, b1);
    FirstServed(r, mem, b3);
    RunNone(r, mem, b);
    RunOne(r, mem, b, [], p);
    RunOne(r, mem, b, [p], Collect);
    RunOne(r, mem, b, [p, Collect], s);
    RunOne(r, mem, b, [p, Collect, s], Collect);
    RunOne(r, mem, b, [p, Collect, s, Collect], s);
    assert [] + [p] == [p] && [p] + [Collect] == [p, Collect] && [p, Collect] + [s] == [p, Collect, s];
    assert [p, Collect, s] + [Collect] == [p, Collect, s, Collect];
    assert [p, Collect, s, Collect] + [s] == [p, Collect, s, Collect, s];
  }

  /** The next useful event. */
  function Next(b: Bus): Event {
    if b.pending then Serve(false)
    else if b.c.dr then Collect
    else if b.c.state == 0 then Poll(false)
    else PeriodEnd(false)
  }

  lemma NextIsUseful(r: Registers, mem: Pointer -> Word, b: Bus)
    requires Invariant(r, mem, b)
    ensures Enabled(b, Next(b)) && Useful(b, Next(b))
  {
    hide Samples, Addresses, Ends, Place, Left, High, Low, Address;
  }

  lemma CountOne(r: Registers, mem: Pointer -> Word, b: Bus, evs: seq<Event>, ev: Event)
    ensures UsefulCount(r, mem, b, evs + [ev])
         == UsefulCount(r, mem, b, evs) + if Useful(Run(r, mem, b, evs), ev) then 1 else 0
  {
    hide Run, Useful;
    assert (evs + [ev])[..|evs|] == evs;
  }

  /** Every fair run can be continued until it has made k fetches. */
  lemma {:induction false} CanReachFetch(r: Registers, mem: Pointer -> Word, b: Bus, evs: seq<Event>, k: nat)
    returns (more: seq<Event>)
    requires AtRest(b) && Fair(r, mem, b, evs)
    ensures evs <= more && Fair(r, mem, b, more) && |Run(r, mem, b, more).fetched| >= k
    decreases 4 * k - UsefulCount(r, mem, b, evs)
  {
    hide Invariant, Run, Fair, UsefulCount, AtRest, Step, Enabled, Useful, Next;
    if UsefulCount(r, mem, b, evs) >= 4 * k {
      ReachesFetch(r, mem, b, evs, k);
      more := evs;
    } else {
      var c := Run(r, mem, b, evs);
      RunKeeps(r, mem, b, evs);
      NextIsUseful(r, mem, c);
      RunOne(r, mem, b, evs, Next(c));
      CountOne(r, mem, b, evs, Next(c));
      more := CanReachFetch(r, mem, b, evs + [Next(c)], k);
    }
  }
}
