/** Exactly when the cycle-exact blit and the immediate one agree, for all
    memory and data registers, where words do not share cells. */
module BlitAgree {
  import opened ChipMemory
  import opened Bits
  import opened BlitConfig
  import F = BlitFast
  import W = BlitWords
  import opened BlitRegisters
  import opened BlitExact
  import opened BlitImmediate
  import opened BlitSchedule
  import opened BlitRefine
  import opened BlitTheorem
  import opened BlitOnlyD
  import opened BlitResult
  import opened BlitNoSource
  import opened BlitRowCarry
  import opened BlitStuck
  import opened BlitChannels

  lemma BarrelShifts(r: Registers)
    requires r.Valid()
    ensures Shifts(Configure(r))
  {
    var n := Registers.Shift(r.con1);
    var z := Low(Barrel(r.Desc(), n, ZERO, ZERO));
    assert forall i :: 0 <= i < 16 ==> !z[i];
    assert z == ZERO;
    forall p: Word
      ensures Low(Barrel(r.Desc(), n, p, ONES)) != ZERO
    {
      var b := Barrel(r.Desc(), n, p, ONES);
      assert Low(b)[if r.Desc() then n else 0];
    }
  }

  function Frees(n: nat): seq<Grant> { seq(n, _ => Free) }

  lemma {:induction false} AllFree(n: nat)
    ensures CountFree(Frees(n)) == n
  {
    if n > 0 {
      assert Frees(n)[1..] == Frees(n - 1);
      AllFree(n - 1);
    }
  }

  /** Every completed run of the machine from `e` has the result of the
      immediate form. */
  ghost predicate Agrees(c: Config, e: Data)
    requires c.Valid()
  {
    forall copper: bool, stale: bool, gs: seq<Grant> ::
      var t := Run(c, Start(c, e, copper, stale), gs);
      t.done ==> SameAsImmediate(c, e, t.d, F.Blit(c, FastStart(c, e)))
  }

  lemma PlacesClear(c: Config, d: Data, e: Data)
    requires SamePlaces(d, e)
    ensures AllClear(c, d) <==> AllClear(c, e)
  {
    hide Clear;
  }

  /** A run that agrees makes the two loops look alike. */
  lemma AgreesLooks(c: Config, e: Data)
    requires c.Valid() && Bitwise(c.path) && (HasSource(c) || OnlyD(c)) && Pointers(e) && Agrees(c, e)
    ensures LookAlike(F.Blit(c, FastStart(c, e)), W.Blit(c, FastStart(c, e), HasSource(c)))
  {
    hide Run, Start, TotalSlots, FastStart, F.Blit, W.Blit, Bitwise, EndPointer, Low;
    var gs := Frees(TotalSlots(c));
    AllFree(TotalSlots(c));
    if HasSource(c) {
      ExactRefinesWords(c, e, false, false, gs);
    } else {
      ExactWithDAlone(c, e, false, false, gs);
    }
    assert Run(c, Start(c, e, false, false), gs).done;
  }

  lemma PlacesPoint(d: Data, e: Data)
    requires SamePlaces(d, e) && Pointers(d)
    ensures Pointers(e)
  {
  }

  lemma ClearAgrees(c: Config, e: Data)
    requires c.Valid() && Bitwise(c.path) && HasSource(c) && Pointers(e) && AllClear(c, e)
    ensures Agrees(c, e)
  {
    hide Run, Start, TotalSlots, FastStart, F.Blit, Bitwise, AllClear, SameAsImmediate;
    forall copper: bool, stale: bool, gs: seq<Grant>
      ensures var t := Run(c, Start(c, e, copper, stale), gs);
              t.done ==> SameAsImmediate(c, e, t.d, F.Blit(c, FastStart(c, e)))
    {
      ExactRefinesFast(c, e, copper, stale, gs);
    }
  }

  /** With a source: for all memory and data registers if and only if no
      enabled pointer is zero where the immediate form tests it. */
  lemma AgreeExactly(r: Registers, d: Data)
    requires r.Valid() && HasSource(Configure(r)) && Pointers(d) && Apart(Configure(r), d)
    ensures var c := Configure(r);
            (forall e: Data :: SamePlaces(d, e) ==> Agrees(c, e)) <==> AllClear(c, d)
  {
    hide Configure, AllClear, Apart, Shifts, Bitwise, Agrees, LookAlike, F.Blit, W.Blit, FastStart, Serial, SamePlaces;
    var c := Configure(r);
    BarrelShifts(r);
    ConfigureIsSerial(r);
    if AllClear(c, d) {
      forall e: Data | SamePlaces(d, e)
        ensures Agrees(c, e)
      {
        PlacesPoint(d, e);
        PlacesClear(c, d, e);
        ClearAgrees(c, e);
      }
    } else {
      var e := StuckShows(c, d, true);
      PlacesPoint(d, e);
      if Agrees(c, e) {
        AgreesLooks(c, e);
      }
    }
  }

  // ----- D alone

  lemma CellsSeparate(c: Config, d: Data, e: Data)
    requires c.Valid() && OnlyD(c) && Apart(c, d) && SamePlaces(d, e)
    ensures Separate(c, e)
  {
    hide At;
    OwnD(c, d);
    assert forall j: nat, i: nat :: Cell(c, e, j, i) == Spot(c, d, D, j, i);
  }

  /** D alone, `e` clear: agreement is harmlessness of the running carry. */
  lemma AgreesHarmless(r: Registers, d: Data, e: Data)
    requires r.Valid() && OnlyD(Configure(r)) && Pointers(d) && Apart(Configure(r), d) && SamePlaces(d, e)
    requires Clear(Configure(r), d.dpt, r.dmod)
    ensures Agrees(Configure(r), e) <==> Harmless(Configure(r), e, r.Inclusive())
  {
    hide Configure, Clear, Apart, Bitwise, F.Blit, FastStart, Run, Start, TotalSlots, Harmless, Registers.Inclusive,
         EndPointer, LastOnesUntouched, AllZero, Serial;
    var c := Configure(r);
    assert c.dmod == r.dmod by { ModuloOf(r); }
    ConfigureIsSerial(r);
    CellsSeparate(c, d, e);
    forall copper: bool, stale: bool, gs: seq<Grant>
      ensures var t := Run(c, Start(c, e, copper, stale), gs);
              t.done ==> (SameAsImmediate(c, e, t.d, F.Blit(c, FastStart(c, e))) <==> Harmless(c, e, r.Inclusive()))
    {
      DAloneAgrees(r, e, copper, stale, gs);
      ExactWithDAlone(c, e, copper, stale, gs);
    }
    var gs := Frees(TotalSlots(c));
    AllFree(TotalSlots(c));
    ExactWithDAlone(c, e, false, false, gs);
    assert Run(c, Start(c, e, false, false), gs).done;
  }

  /** With D alone: for all memory and data registers if and only if the
      pointer is clear and the running carry harmless whatever the registers
      hold. */
  lemma AgreeExactlyD(r: Registers, d: Data)
    requires r.Valid() && OnlyD(Configure(r)) && Pointers(d) && Apart(Configure(r), d)
    ensures var c := Configure(r);
            (forall e: Data :: SamePlaces(d, e) ==> Agrees(c, e))
            <==> Clear(c, d.dpt, r.dmod) && forall e: Data :: SamePlaces(d, e) ==> Harmless(c, e, r.Inclusive())
  {
    hide Configure, Clear, Apart, Shifts, Bitwise, Agrees, LookAlike, F.Blit, W.Blit, FastStart, Harmless, SamePlaces,
         Registers.Inclusive, Serial;
    var c := Configure(r);
    assert c.dmod == r.dmod by { ModuloOf(r); }
    ConfigureIsSerial(r);
    BarrelShifts(r);
    if Clear(c, d.dpt, r.dmod) {
      forall e: Data | SamePlaces(d, e)
        ensures Agrees(c, e) <==> Harmless(c, e, r.Inclusive())
      {
        AgreesHarmless(r, d, e);
      }
    } else {
      var e := StuckShows(c, d, false);
      PlacesPoint(d, e);
      if Agrees(c, e) {
        AgreesLooks(c, e);
      }
    }
  }
}
