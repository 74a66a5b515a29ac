/**
  python_unmap_and_release and python_create_and_map: a range can be put to sleep and woken in any state,
  and what each call does to the books and to the loose handles is exact.
*/
module CumemSleepWake {
  import opened CumemDriver
  import opened CumemSteps
  import opened CumemSafety
  import opened CumemTeardown
  import opened CumemBooks
  import opened CumemOperations

  // ----- Sleep -----

  /** What putting `p` to sleep does to the books and to the loose handles. */
  ghost predicate SleepOk(m: Machine, b: Books, m1: Machine, p: nat, r: Reply) {
    if r.Slept? then
      && p in b.owned && Keeps(m, b, m1, AsleepBooks(b, p))
      && (Loose(m1.driver) <= Loose(m.driver) <==> Intact(m.cells, b.regions, p, b.owned[p].cell0))
    else
      && Keeps(m, b, m1, b) && m1.driver == m.driver
      && (r == Dangling ==> p in m.table && p !in b.owned)
  }

  lemma {:induction false} SleepHeld(w: World, m: Machine, b: Books, p: nat)
    requires Sound(m, b) && p in b.owned
    ensures HasCells(m.cells, b.owned[p].cell0, |b.owned[p].sizes|)
    ensures SleepOk(m, b, CumemSteps.UnmapAndRelease(w, m, p, b.owned[p]).(errorCode := false), p, Slept(true))
  {
    TeardownStep(w, m, b, p);
    var m1 := CumemSteps.UnmapAndRelease(w, m, p, b.owned[p]);
    TeardownLeaksIff(m, b, p);
    FlagsKeep(m1, AsleepBooks(b, p), m1.(errorCode := false));
    KeepsTrans(m, b, m1, AsleepBooks(b, p), m1.(errorCode := false), AsleepBooks(b, p));
  }

  lemma {:induction false} SleepLater(m: Machine, b: Books, m1: Machine, m2: Machine, p: nat, raised: bool)
    requires Keeps(m, b, m1, b) && m1 == m.(asked := m1.asked) && SleepOk(m1, b, m2, p, Slept(true))
    ensures SleepOk(m, b, m2, p, Slept(raised))
  {
  }

  lemma {:induction false} SleepsHeld(w: World, m: Machine, b: Books, p: nat)
    requires Sound(m, b) && p in m.table && p in b.owned && Arrays(w, m.asked)
    ensures var (m1, r) := Sleeps(w, m, p); SleepOk(m, b, m1, p, r) && r.Slept?
  {
    HeldIffCells(m, b, p);
    FlagsKeep(m, b, Asked(w, m));
    SleepHeld(w, Asked(w, m), b, p);
    SleepLater(m, b, Asked(w, m), Sleeps(w, m, p).0, p, Sleeps(w, m, p).1.raised);
  }

  lemma {:induction false} SleepsNot(w: World, m: Machine, b: Books, p: nat)
    requires Sound(m, b) && p in m.table && (p !in b.owned || !Arrays(w, m.asked))
    ensures var (m1, r) := Sleeps(w, m, p); SleepOk(m, b, m1, p, r)
  {
    HeldIffCells(m, b, p);
    FlagsKeep(m, b, Asked(w, m));
  }

  /** Whatever the host answers, python_unmap_and_release keeps the books right. */
  lemma {:induction false} SleepKeeps(w: World, m: Machine, b: Books, p: nat)
    requires Sound(m, b)
    ensures var (m1, r) := Sleeps(w, m, p); SleepOk(m, b, m1, p, r)
  {
    if p in m.table {
      if p in b.owned && Arrays(w, m.asked) {
        SleepsHeld(w, m, b, p);
      } else {
        SleepsNot(w, m, b, p);
      }
    }
  }

  lemma {:induction false} SleepIs(w: World, m: Machine, p: nat)
    requires p in m.table && Arrays(w, m.asked) && HasCells(m.cells, m.table[p].cell0, |m.table[p].sizes|)
    ensures Sleeps(w, m, p).1
            == Slept(Context(w, m.errorCode, m.asked + 2).0 || !TeardownClean(m.driver, p, m.table[p], m.cells))
  {
  }

  /**
    What the caller of python_unmap_and_release sees: an error if one is latched or the context fails, if the
    range is asleep, or if its cells are not releasable.
  */
  lemma {:induction false} SleepRaises(w: World, m: Machine, b: Books, p: nat)
    requires Sound(m, b) && p in m.table && p in b.owned && Arrays(w, m.asked)
    ensures Sleeps(w, m, p).1
            == Slept(|| Context(w, m.errorCode, m.asked + 2).0 || p !in b.regions
                     || !Releasable(m.driver.live.Keys, m.cells, b.owned[p].cell0, |b.owned[p].sizes|))
  {
    HeldIffCells(m, b, p);
    SleepIs(w, m, p);
    TeardownCleanIff(m, b, p);
  }

  // ----- Wake -----

  lemma {:induction false} AwakeIff(d: Driver, regions: map<nat, Region>, p: nat)
    requires Consistent(d, regions) && p in d.reserved
    ensures p in d.mapped <==> p in regions
  {
    if p in regions {
      assert RegionOk(d, p, regions[p]);
      assert TileOk(d, p, regions[p].sizes, regions[p].h0, 0);
    }
    if p in d.mapped {
      MappingInHome(d, regions, p);
    }
  }

  /** What waking `p` does to the books, to the loose handles and to the cells. */
  ghost predicate WakeOk(m: Machine, b: Books, m1: Machine, p: nat, r: Reply) {
    if r.Woke? then
      && p in b.owned && (r.awake <==> p in b.regions) && (r.awake ==> !MapsRange(r.o))
      && Sound(m1, MapBooks(b, p, b.owned[p].sizes, m.driver.nextHandle, r.o))
      && Loose(m1.driver) == Loose(m.driver) + Leak(m.driver, r.o)
      && (AllIntact(m, b) ==>
            (AllIntact(m1, MapBooks(b, p, b.owned[p].sizes, m.driver.nextHandle, r.o))
             <==> !(r.awake && Used(r.o, |b.owned[p].sizes|) > 0)))
    else
      && Keeps(m, b, m1, b) && m1.driver == m.driver
      && (r == Dangling ==> p in m.table && p !in b.owned)
  }

  lemma {:induction false} HeldIsMappable(m: Machine, b: Books, p: nat)
    requires Sound(m, b) && p in b.owned
    ensures Mappable(m, b, p, b.owned[p])
  {
    assert OwnerOk(m, b, p);
    HasItsCells(m.driver, m.cells, b.regions, p, b.owned[p]);
  }

  lemma {:induction false} WakeEnds(w: World, m: Machine, b: Books, p: nat)
    requires Sound(m, b) && p in b.owned && b.owned[p].sizes != []
    ensures Mappable(m, b, p, b.owned[p])
    ensures var (m1, o) := CumemSteps.CreateAndMap(w, m, p, b.owned[p]);
            && o == MapAnswer(w, m.errorCode, m.asked, p in b.regions, |b.owned[p].sizes|)
            && Ends(m, m1, p, b.owned[p], o) && (p in m.driver.mapped <==> p in b.regions)
  {
    HeldIsMappable(m, b, p);
    AwakeIff(m.driver, b.regions, p);
    MapEnds(w, m, b.regions, p, b.owned[p]);
  }

  /** create_and_map on a held range, and the error cleared. */
  lemma {:induction false} WakeHeld(w: World, m: Machine, b: Books, p: nat)
    requires Sound(m, b) && p in b.owned && b.owned[p].sizes != []
    ensures var (m1, o) := CumemSteps.CreateAndMap(w, m, p, b.owned[p]);
            WakeOk(m, b, m1.(errorCode := false), p, Woke(p in m.driver.mapped, o))
  {
    var rec := b.owned[p];
    WakeEnds(w, m, b, p);
    var (m1, o) := CumemSteps.CreateAndMap(w, m, p, rec);
    MapKeeps(m, m1, b, p, rec, o);
    if AllIntact(m, b) {
      MapIntact(m, m1, b, p, rec, o);
    }
    SoundHandlesBelow(m.driver, b.regions);
    MappedLoose(m.driver, p, rec.sizes, o);
    FlagsKeep(m1, MapBooks(b, p, rec.sizes, m.driver.nextHandle, o), m1.(errorCode := false));
  }

  lemma {:induction false} WakeLater(m: Machine, b: Books, m1: Machine, m2: Machine, p: nat, r: Reply)
    requires Keeps(m, b, m1, b) && m1 == m.(asked := m1.asked) && r.Woke? && WakeOk(m1, b, m2, p, r)
    ensures WakeOk(m, b, m2, p, r)
  {
  }

  lemma {:induction false} WakesHeld(w: World, m: Machine, b: Books, p: nat)
    requires Sound(m, b) && p in m.table && p in b.owned && Arrays(w, m.asked)
    ensures var (m1, r) := Wakes(w, m, p); WakeOk(m, b, m1, p, r) && r.Woke?
  {
    HeldIffCells(m, b, p);
    FlagsKeep(m, b, Asked(w, m));
    WakeHeld(w, Asked(w, m), b, p);
    WakeLater(m, b, Asked(w, m), Wakes(w, m, p).0, p, Wakes(w, m, p).1);
  }

  lemma {:induction false} WakesNot(w: World, m: Machine, b: Books, p: nat)
    requires Sound(m, b) && p in m.table && (p !in b.owned || !Arrays(w, m.asked))
    ensures var (m1, r) := Wakes(w, m, p); WakeOk(m, b, m1, p, r)
  {
    HeldIffCells(m, b, p);
    FlagsKeep(m, b, Asked(w, m));
  }

  /** Whatever the driver and the host answer, python_create_and_map keeps the books right. */
  lemma {:induction false} WakeKeeps(w: World, m: Machine, b: Books, p: nat)
    requires Sound(m, b)
    ensures var (m1, r) := Wakes(w, m, p); WakeOk(m, b, m1, p, r)
  {
    if p in m.table {
      if p in b.owned && Arrays(w, m.asked) {
        WakesHeld(w, m, b, p);
      } else {
        WakesNot(w, m, b, p);
      }
    }
  }
}
