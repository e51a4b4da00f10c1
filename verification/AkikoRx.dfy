/** Akiko hands the CD drive's replies to the program (akiko.cpp): bytes into a
    circular buffer of 256, as far as a compare register allows at a time. */
module AkikoRx {
  import opened XorNat

  const RESULT_SIZE := 32

  type Page = s: seq<Byte> | |s| == 256 witness seq(256, _ => 0)
  type Result = s: seq<Byte> | |s| == RESULT_SIZE witness seq(RESULT_SIZE, _ => 0)

  /** The channel: reply bytes, how many, how far delivered (-1 before the
      checksum is made), the index and compare registers, the page of memory
      the bytes go to, and the interrupt that tells that index met compare. */
  datatype Rx = Rx(result: Result, length: nat, offset: int, inx: Byte, cmp: Byte, page: Page, done: bool)
  {
    predicate Valid() {
      && length <= RESULT_SIZE && -1 <= offset
      && (length > 0 ==> if offset < 0 then length < RESULT_SIZE else offset < length)
    }
  }

  // ----- the checksum

  function SumOf(s: seq<Byte>): nat {
    if s == [] then 0 else SumOf(s[..|s| - 1]) + s[|s| - 1]
  }

  /** 0xff minus every byte, in eight bits. */
  function Checksum(s: seq<Byte>): Byte { (0xff - SumOf(s)) % 0x100 }

  /** The reply with its checksum. */
  function Checked(s: seq<Byte>): (r: seq<Byte>)
    ensures |r| == |s| + 1
  {
    s + [Checksum(s)]
  }

  lemma SumModulo(n: nat)
    ensures (n + (0xff - n) % 0x100) % 0x100 == 0xff
  {
  }

  /** The bytes of a checked reply add up to 0xff. */
  lemma CheckedSum(s: seq<Byte>)
    ensures SumOf(Checked(s)) % 0x100 == 0xff
  {
    assert Checked(s)[..|Checked(s)| - 1] == s;
    SumModulo(SumOf(s));
  }

  // ----- cdrom_start_return_data and cdrom_return_data

  /** A reply of `len` bytes is waiting, unless one is under way. */
  function Start(c: Rx, len: int): (Rx, int) {
    if c.length > 0 then (c, 0)
    else if len <= 0 then (c, -1)
    else (c.(length := len, offset := -1), 1)
  }

  /** 0 while a reply is under way, -1 without one to send, 1 if it will be
      sent. */
  lemma StartAnswers(c: Rx, len: int)
    ensures var r := Start(c, len);
            && (r.1 == 0 <==> c.length != 0) && (r.1 == -1 <==> c.length == 0 && len < 1)
            && (r.1 == 1 <==> c.length == 0 && len >= 1)
            && r.0 == if r.1 == 1 then c.(length := len, offset := -1) else c
  {
  }

  /** The checksum appended before the first byte goes out. */
  function Prepared(c: Rx): (d: Rx)
    requires c.Valid() && c.length > 0
    ensures d.Valid() && d.length > 0 && d.offset >= 0
  {
    if c.offset >= 0 then c
    else c.(result := c.result[c.length := Checksum(c.result[..c.length])], length := c.length + 1, offset := 0)
  }

  /** One byte. */
  function Put(c: Rx): Rx
    requires c.length <= RESULT_SIZE && 0 <= c.offset < c.length
  {
    c.(page := c.page[c.inx := c.result[c.offset]], inx := (c.inx + 1) % 0x100, offset := c.offset + 1)
  }

  /** Bytes until the reply ends or the index meets the compare register. */
  function Transfer(c: Rx): (d: Rx)
    requires c.length <= RESULT_SIZE && 0 <= c.offset <= c.length
    ensures d.length == c.length && 0 <= d.offset <= d.length
    decreases c.length - c.offset
  {
    if c.offset >= c.length then c
    else
      var d := Put(c);
      if d.inx == d.cmp then d.(done := true) else Transfer(d)
  }

  function ReturnData(c: Rx, enabled: bool, delayed: bool): (d: Rx)
    requires c.Valid()
    ensures d.Valid()
  {
    if c.length == 0 || !enabled || c.inx == c.cmp || delayed then c
    else
      var d := Transfer(Prepared(c));
      if d.offset == d.length then d.(length := 0) else d
  }

  // ----- any sequence of events

  /** What a command leaves in the result buffer: room for the checksum is
      always left. */
  type Message = s: seq<Byte> | |s| < RESULT_SIZE witness []

  /** A reply and its checksum are at most 32 bytes. */
  lemma ReplyFits(s: Message)
    ensures |Checked(s)| <= 32 && (|s| == 31 ==> |Checked(s)| == RESULT_SIZE)
  {
  }

  /** The drive has a reply, or none (length 0); the program writes the compare
      register; the channel gets its turn. */
  datatype Event = Reply(bytes: Message) | Compare(v: Byte) | Turn(enabled: bool, delayed: bool)

  /** A reply is made only while the channel is idle. */
  predicate Accepts(c: Rx, ev: Event) {
    c.length == 0 && ev.Reply? && ev.bytes != []
  }

  function Step(c: Rx, ev: Event): (d: Rx)
    requires c.Valid()
    ensures d.Valid()
  {
    match ev
    case Reply(b) =>
      if c.length > 0 then c else Start(c.(result := b + c.result[|b|..]), |b|).0
    case Compare(v) => c.(cmp := v, done := false)
    case Turn(enabled, delayed) => ReturnData(c, enabled, delayed)
  }

  function Run(c: Rx, evs: seq<Event>): (d: Rx)
    requires c.Valid()
    ensures d.Valid()
    decreases |evs|
  {
    if evs == [] then c else Step(Run(c, evs[..|evs| - 1]), evs[|evs| - 1])
  }

  /** The bytes that still have to go out. */
  function Left(c: Rx): seq<Byte>
    requires c.Valid()
  {
    if c.length == 0 then []
    else if c.offset < 0 then Checked(c.result[..c.length])
    else c.result[c.offset..c.length]
  }

  /** All bytes the channel owes over a run: what it had left, and every reply
      it accepted with its checksum. */
  function Owed(c: Rx, evs: seq<Event>): seq<Byte>
    requires c.Valid()
    decreases |evs|
  {
    if evs == [] then Left(c)
    else
      var init, ev := evs[..|evs| - 1], evs[|evs| - 1];
      Owed(c, init) + if Accepts(Run(c, init), ev) then Checked(ev.bytes) else []
  }

  /** The place `k` bytes on in the circular buffer. */
  function Place(inx: Byte, k: nat): (a: Byte) { (inx + k) % 0x100 }

  /** The page with the first `t` bytes of `full` laid down from `inx` on. */
  function Laid(page: Page, inx: Byte, full: seq<Byte>, t: nat): Page
    requires t <= |full|
  {
    if t == 0 then page else Laid(page, inx, full, t - 1)[Place(inx, t - 1) := full[t - 1]]
  }

  lemma LaidStep(page: Page, inx: Byte, full: seq<Byte>, t: nat)
    requires 0 < t <= |full|
    ensures Laid(page, inx, full, t) == Laid(page, inx, full, t - 1)[Place(inx, t - 1) := full[t - 1]]
  {
  }

  lemma {:induction false} LaidPrefix(page: Page, inx: Byte, full: seq<Byte>, more: seq<Byte>, t: nat)
    requires t <= |full|
    ensures Laid(page, inx, full + more, t) == Laid(page, inx, full, t)
  {
    if t > 0 {
      LaidPrefix(page, inx, full, more, t - 1);
    }
  }

  /** Less than a lap apart, places differ. */
  lemma PlacesDiffer(inx: Byte, j: nat, k: nat)
    requires j < k < j + 0x100
    ensures Place(inx, j) != Place(inx, k)
  {
  }

  /** The last lap of bytes lies in its places, and where nothing has come yet
      nothing has changed. */
  lemma {:induction false} LaidAt(page: Page, inx: Byte, full: seq<Byte>, t: nat, k: nat)
    requires t <= |full| && if k < t then t <= k + 0x100 else k < 0x100
    ensures Laid(page, inx, full, t)[Place(inx, k)] == if k < t then full[k] else page[Place(inx, k)]
    decreases t
  {
    if t > 0 {
      LaidStep(page, inx, full, t);
      if k != t - 1 {
        LaidAt(page, inx, full, t - 1, k);
        if k < t - 1 {
          PlacesDiffer(inx, k, t - 1);
        } else {
          PlacesDiffer(inx, t - 1, k);
        }
      }
    }
  }

  /** Of the bytes `s` owed since `c0`, all but the last `left` are out. */
  ghost predicate OutSince(c0: Rx, s: seq<Byte>, c: Rx, left: seq<Byte>) {
    && |left| <= |s|
    && var t := |s| - |left|;
    && s[t..] == left
    && c.inx == Place(c0.inx, t) && c.page == Laid(c0.page, c0.inx, s, t)
  }

  /** The channel `c`, when `s` is what it owed since `c0`. */
  ghost predicate Follows(c0: Rx, s: seq<Byte>, c: Rx) {
    c.Valid() && OutSince(c0, s, c, Left(c))
  }

  lemma PreparedKeeps(c: Rx)
    requires c.Valid() && c.length > 0
    ensures var d := Prepared(c);
            Left(d) == Left(c) && d.inx == c.inx && d.cmp == c.cmp && d.page == c.page
  {
    hide Checksum;
    if c.offset < 0 {
      var d := Prepared(c);
      assert d.result[0..d.length] == Checked(c.result[..c.length]);
    }
  }

  /** Bytes that can go: as many as the reply has left, and as the compare
      register allows. */
  function Quota(c: Rx): nat {
    var gap := (c.cmp - c.inx) % 0x100;
    var left := c.length - c.offset;
    if left < gap then (if left < 0 then 0 else left) else gap
  }

  lemma GapCloses(cmp: Byte, inx: Byte)
    requires cmp != inx
    ensures (cmp - (inx + 1) % 0x100) % 0x100 == (cmp - inx) % 0x100 - 1
  {
  }

  lemma QuotaStep(c: Rx)
    requires c.Valid() && c.length > 0 && c.offset >= 0 && c.inx != c.cmp
    ensures var d := Put(c);
            d.cmp == c.cmp && d.length == c.length && d.result == c.result
            && Quota(c) == if d.inx == d.cmp || d.offset == d.length then 1 else 1 + Quota(d)
  {
    GapCloses(c.cmp, c.inx);
  }

  lemma NextPlace(inx: Byte, k: nat)
    ensures (Place(inx, k) + 1) % 0x100 == Place(inx, k + 1)
  {
  }

  lemma PutFollows(c0: Rx, s: seq<Byte>, c: Rx)
    requires Follows(c0, s, c) && c.length > 0 && c.offset >= 0
    ensures var d := Put(c);
            d.length == c.length && d.offset == c.offset + 1 && OutSince(c0, s, d, d.result[d.offset..d.length])
  {
    hide Laid, Place;
    var left := Left(c);
    var t := |s| - |left|;
    assert s[t] == s[t..][0] == left[0] == c.result[c.offset];
    assert s[t + 1..] == s[t..][1..] == left[1..] == c.result[c.offset + 1..c.length];
    LaidStep(c0.page, c0.inx, s, t + 1);
    NextPlace(c0.inx, t);
  }

  /** A transfer under way keeps to what is owed, and moves what it can. */
  lemma {:induction false} TransferFollows(c0: Rx, s: seq<Byte>, c: Rx)
    requires Follows(c0, s, c) && c.length > 0 && c.offset >= 0 && c.inx != c.cmp
    ensures var d := Transfer(c);
            d.length == c.length && d.offset == c.offset + Quota(c)
            && OutSince(c0, s, d, d.result[d.offset..d.length]) && (d.inx == d.cmp ==> d.done)
    decreases c.length - c.offset
  {
    hide Quota, Put, Laid, Place;
    var d := Put(c);
    PutFollows(c0, s, c);
    QuotaStep(c);
    if d.inx != d.cmp && d.offset < d.length {
      TransferFollows(c0, s, d);
    }
  }

  lemma TurnFollows(c0: Rx, s: seq<Byte>, c: Rx, enabled: bool, delayed: bool)
    requires Follows(c0, s, c)
    ensures Follows(c0, s, ReturnData(c, enabled, delayed))
  {
    hide Transfer, Prepared, Laid, Checked, Place, Quota;
    if c.length > 0 && enabled && c.inx != c.cmp && !delayed {
      PreparedKeeps(c);
      TransferFollows(c0, s, Prepared(c));
      var d := Transfer(Prepared(c));
      assert d.offset == d.length ==> d.result[d.offset..d.length] == [];
    }
  }

  lemma ReplyFollows(c0: Rx, s: seq<Byte>, c: Rx, b: Message)
    requires Follows(c0, s, c) && Accepts(c, Reply(b))
    ensures Follows(c0, s + Checked(b), Step(c, Reply(b)))
  {
    hide Laid, Checked, Place;
    var d := Step(c, Reply(b));
    assert d.result[..|b|] == b;
    assert (s + Checked(b))[|s|..] == Checked(b) == Left(d);
    LaidPrefix(c0.page, c0.inx, s, Checked(b), |s|);
  }

  lemma StartFollows(c0: Rx)
    requires c0.Valid()
    ensures Follows(c0, Left(c0), c0)
  {
  }

  lemma OtherFollows(c0: Rx, s: seq<Byte>, c: Rx, ev: Event)
    requires Follows(c0, s, c) && !Accepts(c, ev) && !ev.Turn?
    ensures Follows(c0, s, Step(c, ev))
  {
    hide Laid, Checked, Place;
  }

  lemma TurnIs(c: Rx, ev: Event)
    requires c.Valid() && ev.Turn?
    ensures Step(c, ev) == ReturnData(c, ev.enabled, ev.delayed)
  {
    hide ReturnData;
  }

  /** Whatever the drive replies, whatever the program writes to the compare
      register, and whenever the channel gets its turns: what is out is the
      first part of what is owed, in order, at consecutive places, and nothing
      else in the page has changed. */
  lemma {:induction false} RunFollows(c0: Rx, evs: seq<Event>)
    requires c0.Valid()
    ensures Follows(c0, Owed(c0, evs), Run(c0, evs))
    decreases |evs|
  {
    hide Follows, Step, Left, Checked;
    if evs == [] {
      StartFollows(c0);
    } else {
      var n := |evs| - 1;
      RunFollows(c0, evs[..n]);
      var s, c := Owed(c0, evs[..n]), Run(c0, evs[..n]);
      if Accepts(c, evs[n]) {
        ReplyFollows(c0, s, c, evs[n].bytes);
      } else if evs[n].Turn? {
        TurnFollows(c0, s, c, evs[n].enabled, evs[n].delayed);
        TurnIs(c, evs[n]);
      } else {
        OtherFollows(c0, s, c, evs[n]);
      }
      assert s + [] == s;
    }
  }

  /** Replies lie end to end in the circular buffer: with `t` bytes out, each
      of the last 256 of them lies in its place, and a place not yet reached
      is as it was; the channel is idle exactly when everything owed is out. */
  lemma RepliesDelivered(c0: Rx, evs: seq<Event>, k: nat)
    requires c0.Valid()
    ensures var c, s := Run(c0, evs), Owed(c0, evs);
            && |Left(c)| <= |s| && (c.length == 0 <==> Left(c) == [])
            && var t := |s| - |Left(c)|;
            && c.inx == Place(c0.inx, t)
            && (k < t <= k + 0x100 ==> c.page[Place(c0.inx, k)] == s[k])
            && (t <= k < 0x100 ==> c.page[Place(c0.inx, k)] == c0.page[Place(c0.inx, k)])
  {
    hide Run, Owed, Laid, Place, Checksum;
    RunFollows(c0, evs);
    var c, s := Run(c0, evs), Owed(c0, evs);
    var t := |s| - |Left(c)|;
    if if k < t then t <= k + 0x100 else k < 0x100 {
      LaidAt(c0.page, c0.inx, s, t, k);
    }
  }

  /** A turn that is allowed moves exactly the bytes the registers ask for, so a
      reply always comes to its end. */
  lemma TurnMoves(c: Rx)
    requires c.Valid() && c.length > 0 && c.inx != c.cmp
    ensures var q := Quota(Prepared(c));
            q > 0 && |Left(ReturnData(c, true, false))| == |Left(c)| - q
  {
    hide Transfer, Laid, Checked, Place, Quota, Prepared;
    PreparedKeeps(c);
    StartFollows(c);
    var p := Prepared(c);
    QuotaStep(p);
    TransferFollows(c, Left(c), p);
  }

  /** A turn in which the channel may move something. */
  predicate Allowed(c: Rx, ev: Event) {
    ev.Turn? && ev.enabled && !ev.delayed && c.length > 0 && c.inx != c.cmp
  }

  /** The allowed turns of a run. */
  function Moves(c: Rx, evs: seq<Event>): nat
    requires c.Valid()
    decreases |evs|
  {
    if evs == [] then 0
    else
      var init := evs[..|evs| - 1];
      Moves(c, init) + if Allowed(Run(c, init), evs[|evs| - 1]) then 1 else 0
  }

  lemma StepLeft(c: Rx, ev: Event)
    requires c.Valid()
    ensures |Left(Step(c, ev))| + (if Allowed(c, ev) then 1 else 0)
         <= |Left(c)| + if Accepts(c, ev) then |Checked(ev.bytes)| else 0
  {
    hide Transfer, Prepared, Checksum, Quota;
    if Allowed(c, ev) {
      TurnMoves(c);
    } else if Accepts(c, ev) {
      assert Step(c, ev).result[..|ev.bytes|] == ev.bytes;
    }
  }

  /** Every allowed turn takes at least one byte off what is owed. */
  lemma {:induction false} MovesCount(c0: Rx, evs: seq<Event>)
    requires c0.Valid()
    ensures |Left(Run(c0, evs))| + Moves(c0, evs) <= |Owed(c0, evs)|
    decreases |evs|
  {
    hide Step, Left, Checked, Accepts, Allowed;
    if evs != [] {
      var n := |evs| - 1;
      MovesCount(c0, evs[..n]);
      StepLeft(Run(c0, evs[..n]), evs[n]);
    }
  }

  /** With as many allowed turns as bytes are owed, every reply has been
      delivered and the channel is idle. */
  lemma EveryReplyEnds(c0: Rx, evs: seq<Event>)
    requires c0.Valid() && Moves(c0, evs) >= |Owed(c0, evs)|
    ensures Run(c0, evs).length == 0 && Left(Run(c0, evs)) == []
  {
    hide Run, Owed, Moves, Checksum;
    MovesCount(c0, evs);
  }

  lemma LeftOf(c: Rx)
    requires c.Valid()
    ensures |Left(c)| == if c.length == 0 then 0 else if c.offset < 0 then c.length + 1 else c.length - c.offset
  {
    hide Checksum;
  }

  /** With the compare register moved on far enough, one turn delivers all that
      is left. */
  lemma MovedOnDelivers(c: Rx, v: Byte)
    requires c.Valid() && c.length > 0 && |Left(c)| <= (v - c.inx) % 0x100
    ensures Step(Step(c, Compare(v)), Turn(true, false)).length == 0
  {
    hide Transfer, Checksum, Prepared;
    var d := c.(cmp := v, done := false);
    assert Left(d) == Left(c) && |Left(d)| > 0;
    TurnMoves(d);
    PreparedKeeps(d);
    var p := Prepared(d);
    assert |Left(p)| == p.length - p.offset by { LeftOf(p); }
    LeftOf(ReturnData(d, true, false));
  }

  // ----- the channel in place

  lemma ChecksumOfNothing()
    ensures Checksum([]) == 0xff
  {
  }

  lemma SubtractOne(s: seq<Byte>)
    requires s != []
    ensures Checksum(s) == (Checksum(s[..|s| - 1]) - s[|s| - 1]) % 0x100
  {
  }

  class Channel {
    const result: array<Byte>
    const page: array<Byte>
    var length: nat
    var offset: int
    var inx: Byte
    var cmp: Byte
    var done: bool

    ghost function Contents(): Rx
      requires result.Length == RESULT_SIZE && page.Length == 256
      reads this, result, page
    {
      Rx(result[..], length, offset, inx, cmp, page[..], done)
    }

    ghost predicate Valid()
      reads this, result, page
    {
      result.Length == RESULT_SIZE && page.Length == 256 && result != page && Contents().Valid()
    }

    /** cdrom_start_return_data */
    method StartReturnData(len: int) returns (r: int)
      requires Valid()
      modifies this`length, this`offset
      ensures result.Length == RESULT_SIZE && page.Length == 256 && (len < RESULT_SIZE ==> Valid())
      ensures (Contents(), r) == Start(old(Contents()), len)
    {
      if length > 0 {
        return 0;
      }
      if len <= 0 {
        return -1;
      }
      length := len;
      offset := -1;
      return 1;
    }

    method MakeChecksum() returns (checksum: Byte)
      requires length <= result.Length
      ensures checksum == Checksum(result[..length])
    {
      hide Checksum;
      checksum := 0xff;
      ChecksumOfNothing();
      for i := 0 to length
        invariant checksum == Checksum(result[..i])
      {
        SubtractOne(result[..i + 1]);
        assert result[..i + 1][..i] == result[..i];
        checksum := (checksum - result[i]) % 0x100;
      }
    }

    method Prepare()
      requires Valid() && length > 0
      modifies this`length, this`offset, result
      ensures Valid() && Contents() == Prepared(old(Contents()))
    {
      hide Checksum;
      if offset < 0 {
        var checksum := MakeChecksum();
        result[length] := checksum;
        length := length + 1;
        offset := 0;
      }
    }

    method PutByte()
      requires Valid() && 0 <= offset < length
      modifies this`inx, this`offset, page
      ensures result[..] == old(result[..]) && Contents() == Put(old(Contents()))
    {
      page[inx] := result[offset];
      inx := (inx + 1) % 0x100;
      offset := offset + 1;
    }

    method TransferAll()
      requires Valid() && length > 0 && offset >= 0
      modifies this`offset, this`inx, this`done, page
      ensures result.Length == RESULT_SIZE && page.Length == 256 && Contents() == Transfer(old(Contents()))
    {
      while offset < length
        invariant result[..] == old(result[..]) && 0 <= offset <= length
        invariant Transfer(Contents()) == Transfer(old(Contents()))
        decreases length - offset
      {
        PutByte();
        if inx == cmp {
          done := true;
          break;
        }
      }
    }

    /** cdrom_return_data */
    method ReturnReply(enabled: bool, delayed: bool)
      requires Valid()
      modifies this`length, this`offset, this`inx, this`done, result, page
      ensures Valid() && Contents() == ReturnData(old(Contents()), enabled, delayed)
    {
      hide Prepared, Put;
      if length == 0 || !enabled || inx == cmp || delayed {
        return;
      }
      Prepare();
      TransferAll();
      if offset == length {
        length := 0;
      }
    }
  }
}
