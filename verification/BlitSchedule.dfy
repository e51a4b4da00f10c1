/** The bus schedule does not matter: a refused slot changes nothing but the
    miss counters, so a run under any grants follows the run in which every
    slot is free. */
module BlitSchedule {
  import opened BlitConfig
  import opened BlitExact

  ghost predicate SameCore(x: Exact, y: Exact) {
    x.d == y.d && x.cycle == y.cycle && x.final == y.final && x.done == y.done && x.total == y.total
  }

  /** The switch to the final slots is never left pending between slots. */
  ghost predicate Settled(c: Config, s: Exact)
    requires c.Valid()
  {
    !MainOver(c, s)
  }

  /** `n` slots that are all free, from a machine with no copper delay. */
  ghost function Ideal(c: Config, s: Exact, n: nat): Exact
    requires c.Valid()
    decreases n
  {
    if n == 0 || s.done then s else Ideal(c, Step(c, s, Free), n - 1)
  }

  /** The state on which a free slot acts once the copper delay is over. */
  ghost function Awake(s: Exact): Exact { s.(wait := false) }

  /** One slot under any grant either stalls or does what a free slot does. */
  lemma StepStallsOrAdvances(c: Config, s: Exact, g: Grant)
    requires c.Valid() && !s.done && Settled(c, s)
    ensures var t := Step(c, s, g);
            && !t.wait
            && (t.total == s.total ==> SameCore(t, s))
            && (t.total != s.total ==> t.total == s.total + 1 && SameCore(t, Step(c, Awake(s), Free)))
            && (t.total == s.total <==> s.wait || t.missed == s.missed + 1)
            && (g == Free && !s.wait ==> t.total == s.total + 1)
            && (t.done || Settled(c, t))
  {
    var t := Step(c, s, g);
    var u := Trip(c, s, g);
    var ch := ChannelState(c, s.cycle, s.final);
    if u.total == s.total {
      assert u.d == s.d && u.cycle == s.cycle && u.final == s.final;
      assert !MainOver(c, u);
    } else {
      assert !s.wait;
      if g != Free {
        assert ch == 0 && s.final;
      }
    }
  }

  lemma StepCore(c: Config, x: Exact, y: Exact)
    requires c.Valid() && SameCore(x, y) && !x.wait && !y.wait && !x.done
    ensures SameCore(Step(c, x, Free), Step(c, y, Free))
    ensures !Step(c, x, Free).wait && !Step(c, y, Free).wait
  {
    hide DoDma, DoDdma;
    var ch := ChannelState(c, x.cycle, x.final);
    var tx, ty := Trip(c, x, Free), Trip(c, y, Free);
    assert SameCore(tx, ty) && !tx.wait && !ty.wait by {
      if ch == 0 {
        assert tx == Idle(c, x) && ty == Idle(c, y);
      } else {
        assert tx == Serve(c, x.(nasty := x.nasty + 1), ch);
        assert ty == Serve(c, y.(nasty := y.nasty + 1), ch);
      }
    }
    assert MainOver(c, tx) == MainOver(c, ty);
  }

  lemma {:induction false} IdealCore(c: Config, x: Exact, y: Exact, n: nat)
    requires c.Valid() && SameCore(x, y) && !x.wait && !y.wait
    ensures SameCore(Ideal(c, x, n), Ideal(c, y, n))
    decreases n
  {
    if n > 0 && !x.done {
      StepCore(c, x, y);
      IdealCore(c, Step(c, x, Free), Step(c, y, Free), n - 1);
    }
  }

  /** The machine after any grants is the free-running machine after as many
      slots as were counted. */
  lemma {:induction false} RunFollowsIdeal(c: Config, s: Exact, gs: seq<Grant>)
    requires c.Valid() && (s.done || Settled(c, s))
    ensures var t := Run(c, s, gs);
            t.total >= s.total && SameCore(t, Ideal(c, Awake(s), t.total - s.total))
    decreases |gs|
  {
    hide Step;
    if gs != [] && !s.done {
      var t := Step(c, s, gs[0]);
      StepStallsOrAdvances(c, s, gs[0]);
      RunFollowsIdeal(c, t, gs[1..]);
      var e := Run(c, t, gs[1..]);
      var n := e.total - t.total;
      if t.total == s.total {
        IdealCore(c, Awake(t), Awake(s), n);
      } else {
        var u := Step(c, Awake(s), Free);
        assert !u.wait by { StepCore(c, Awake(s), Awake(s)); }
        IdealCore(c, Awake(t), u, n);
        assert Ideal(c, Awake(s), n + 1) == Ideal(c, u, n);
      }
    }
  }

  lemma {:induction false} IdealAdd(c: Config, s: Exact, m: nat, n: nat)
    requires c.Valid()
    ensures Ideal(c, s, m + n) == Ideal(c, Ideal(c, s, m), n)
    decreases m
  {
    if m > 0 && !s.done {
      IdealAdd(c, Step(c, s, Free), m - 1, n);
    }
  }

  /** Unless the blit has completed, at most the one copper delay keeps a free
      slot from being counted. */
  lemma {:induction false} FreeSlotsCount(c: Config, s: Exact, gs: seq<Grant>)
    requires c.Valid() && (s.done || Settled(c, s))
    ensures var t := Run(c, s, gs);
            t.done || t.total + (if s.wait then 1 else 0) >= s.total + CountFree(gs)
    decreases |gs|
  {
    if gs != [] && !s.done {
      StepStallsOrAdvances(c, s, gs[0]);
      FreeSlotsCount(c, Step(c, s, gs[0]), gs[1..]);
    }
  }

  lemma IdealStops(c: Config, s: Exact, n: nat)
    requires c.Valid() && s.done
    ensures Ideal(c, s, n) == s
  {
  }

  /** If the free-running machine completes after exactly `n` slots, then
      under any grants the blit completes exactly when `n` slots have been
      counted, in the same state, and enough free slots make it complete. */
  lemma RunExact(c: Config, s: Exact, n: nat, gs: seq<Grant>)
    requires c.Valid() && Settled(c, s) && !s.done
    requires var t := Ideal(c, Awake(s), n); t.done && t.total == s.total + n
    ensures var t := Run(c, s, gs);
            && s.total <= t.total <= s.total + n
            && (t.done <==> t.total == s.total + n)
            && (t.done ==> t.d == Ideal(c, Awake(s), n).d)
            && (CountFree(gs) >= n + (if s.wait then 1 else 0) ==> t.done)
  {
    hide Step, Run, Ideal, MainOver;
    var t := Run(c, s, gs);
    RunFollowsIdeal(c, s, gs);
    FreeSlotsCount(c, s, gs);
    var k := t.total - s.total;
    if k > n {
      IdealAdd(c, Awake(s), n, k - n);
      IdealStops(c, Ideal(c, Awake(s), n), k - n);
      assert false;
    } else {
      IdealAdd(c, Awake(s), k, n - k);
      if t.done {
        IdealStops(c, Ideal(c, Awake(s), k), n - k);
      }
    }
  }

  ghost predicate FreeAfter(g: int -> Grant, n: nat) {
    exists m: nat :: m >= n && g(m) == Free
  }

  /** Grants in which free slots never run out. */
  ghost predicate Fair(g: int -> Grant) {
    forall n: nat :: FreeAfter(g, n)
  }

  ghost function Prefix(g: int -> Grant, n: nat): seq<Grant> {
    seq(n, i => g(i))
  }

  lemma {:induction false} CountFreeAppend(gs: seq<Grant>, hs: seq<Grant>)
    ensures CountFree(gs + hs) == CountFree(gs) + CountFree(hs)
  {
    if gs == [] {
      assert gs + hs == hs;
    } else {
      assert (gs + hs)[1..] == gs[1..] + hs;
      CountFreeAppend(gs[1..], hs);
    }
  }

  /** A fair schedule grants any number of free slots in finite time. */
  lemma {:induction false} FairGrantsEnough(g: int -> Grant, k: nat) returns (n: nat)
    requires Fair(g)
    ensures CountFree(Prefix(g, n)) >= k
  {
    if k == 0 {
      n := 0;
    } else {
      var p := FairGrantsEnough(g, k - 1);
      assert FreeAfter(g, p);
      var m: nat :| m >= p && g(m) == Free;
      n := m + 1;
      var mid := seq(m - p, i => g(p + i));
      assert Prefix(g, n) == Prefix(g, p) + mid + [Free];
      CountFreeAppend(Prefix(g, p) + mid, [Free]);
      CountFreeAppend(Prefix(g, p), mid);
    }
  }
}
