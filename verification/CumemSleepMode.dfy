/**
  The sleep mode of vllm/device_allocator/cumem.py: going over all entries of the table, waking what is
  awake, and the entries a failed allocation leaves behind.
*/
module CumemSleepMode {
  import opened ChunkTiling
  import opened CumemDriver
  import opened CumemSteps
  import opened CumemRollback
  import opened CumemSafety
  import opened CumemTeardown
  import opened CumemBooks
  import opened CumemOperations
  import opened CumemSleepWake
  import opened CumemRuns
  import opened CumemClient

  // ----- Waking a range that is awake -----

  /**
    Waking a mapped range fails, whatever the driver answers, and leaves it mapped; its cells stay intact
    if and only if not one handle was created.
  */
  lemma {:induction false} WakeAwake(w: World, m: Machine, b: Books, p: nat)
    requires Sound(m, b) && p in m.table && p in b.owned && p in b.regions && Arrays(w, m.asked)
    ensures var (m1, r) := Wakes(w, m, p);
            && r == Woke(true, MapAnswer(w, m.errorCode, m.asked + 2, true, |b.owned[p].sizes|)) && !MapsRange(r.o)
            && Sound(m1, b) && m1.driver.mapped == m.driver.mapped
            && (Intact(m1.cells, b.regions, p, b.owned[p].cell0)
                <==> Intact(m.cells, b.regions, p, b.owned[p].cell0) && Used(r.o, |b.owned[p].sizes|) == 0)
  {
    WakeExact(w, m, b, p);
    WakeSound(w, m, b, p);
    WakenCells(w, m, b, p);
  }

  lemma {:induction false} RefusedAwake(m: Machine, m1: Machine, b: Books, p: nat, o: Outcome)
    requires Sound(m, b) && p in b.owned && p in b.regions && b.owned[p].sizes != []
    requires Ends(m, m1, p, b.owned[p], o) && !MapsRange(o)
    ensures m1.driver.mapped == m.driver.mapped
    ensures Intact(m1.cells, b.regions, p, b.owned[p].cell0)
            <==> Intact(m.cells, b.regions, p, b.owned[p].cell0) && Used(o, |b.owned[p].sizes|) == 0
  {
    assert OwnerOk(m, b, p);
    RefusedRecord(m.driver, m.cells, b.regions, p, b.owned[p], o);
  }

  lemma {:induction false} WakenCells(w: World, m: Machine, b: Books, p: nat)
    requires Sound(m, b) && p in m.table && p in b.owned && p in b.regions && Arrays(w, m.asked)
    ensures var (m1, r) := Wakes(w, m, p);
            && r.Woke? && m1.driver.mapped == m.driver.mapped
            && (Intact(m1.cells, b.regions, p, b.owned[p].cell0)
                <==> Intact(m.cells, b.regions, p, b.owned[p].cell0) && Used(r.o, |b.owned[p].sizes|) == 0)
  {
    var m1 := m.(asked := m.asked + 2);
    HeldIffCells(m, b, p);
    WakeIs(w, m, p);
    FlagsKeep(m, b, m1);
    WakeEnds(w, m1, b, p);
    var (m2, o) := CumemSteps.CreateAndMap(w, m1, p, b.owned[p]);
    RefusedAwake(m1, m2, b, p, o);
  }

  lemma {:induction false} SleepLeaksIff(w: World, m: Machine, b: Books, p: nat)
    requires Sound(m, b) && p in b.owned
    ensures var (m1, r) := Sleeps(w, m, p);
            r.Slept? ==> (Loose(m1.driver) <= Loose(m.driver) <==> Intact(m.cells, b.regions, p, b.owned[p].cell0))
  {
    SleepKeeps(w, m, b, p);
  }

  /** Once a handle was created, the next sleep that gets through leaves a handle behind. */
  lemma {:induction false} SleepAfterWakeLeaks(w: World, m: Machine, b: Books, p: nat)
    requires Sound(m, b) && p in m.table && p in b.owned && p in b.regions && Arrays(w, m.asked)
    ensures var (m1, r) := Wakes(w, m, p);
            var (m2, s) := Sleeps(w, m1, p);
            r.Woke? && (Used(r.o, |b.owned[p].sizes|) > 0 && s.Slept? ==> !(Loose(m2.driver) <= Loose(m1.driver)))
  {
    WakeAwake(w, m, b, p);
    SleepLeaksIff(w, Wakes(w, m, p).0, b, p);
  }

  /** Cells overwritten with the handles from `h` on, which are not live, or with `h` alone, which is. */
  lemma {:induction false} StoredReleasable(live: set<nat>, cells: map<nat, nat>, c0: nat, h: nat, u: nat, n: nat)
    requires Releasable(live, cells, c0, n) && (forall x <- live :: x < h) && u <= n && n > 0
    ensures Releasable(live, Stored(cells, c0, h, u), c0, n) <==> u == 0
    ensures Releasable(live + {h}, Stored(cells, c0, h, 1), c0, n)
  {
    StoredIs(cells, c0, h, u);
    StoredIs(cells, c0, h, 1);
    assert u > 0 ==> Stored(cells, c0, h, u)[c0] == h;
  }

  lemma {:induction false} RefusedReleasable(m: Machine, m1: Machine, b: Books, p: nat, o: Outcome)
    requires Sound(m, b) && p in b.owned && p in b.regions && b.owned[p].sizes != []
    requires Ends(m, m1, p, b.owned[p], o) && !MapsRange(o) && Intact(m.cells, b.regions, p, b.owned[p].cell0)
    ensures Releasable(m1.driver.live.Keys, m1.cells, b.owned[p].cell0, |b.owned[p].sizes|)
            <==> !(o.RolledBack? && o.used > 0)
  {
    var rec := b.owned[p];
    SoundHandlesBelow(m.driver, b.regions);
    IntactIsReleasable(m, b, p);
    StoredReleasable(m.driver.live.Keys, m.cells, rec.cell0, m.driver.nextHandle,
                     if o.RolledBack? then o.used else 0, |rec.sizes|);
    assert o == HandleLeaked ==> m1.driver.live.Keys == m.driver.live.Keys + {m.driver.nextHandle};
  }

  /**
    A range that was intact is still releasable after it was woken once too often, if and only if no handle was
    rolled back; if one was, the next sleep raises, as `SleepRaises` says.
  */
  lemma {:induction false} ReleasableAfterWake(w: World, m: Machine, b: Books, p: nat)
    requires Sound(m, b) && p in m.table && p in b.owned && p in b.regions && Arrays(w, m.asked)
    requires Intact(m.cells, b.regions, p, b.owned[p].cell0)
    ensures var (m1, r) := Wakes(w, m, p);
            && r.Woke?
            && (Releasable(m1.driver.live.Keys, m1.cells, b.owned[p].cell0, |b.owned[p].sizes|)
                <==> !(r.o.RolledBack? && r.o.used > 0))
  {
    var m1 := m.(asked := m.asked + 2);
    HeldIffCells(m, b, p);
    WakeIs(w, m, p);
    FlagsKeep(m, b, m1);
    WakeEnds(w, m1, b, p);
    var (m2, o) := CumemSteps.CreateAndMap(w, m1, p, b.owned[p]);
    RefusedReleasable(m1, m2, b, p, o);
  }

  // ----- A driver that refuses nothing -----

  ghost predicate Willing(w: World) {
    forall t: nat :: w.says(t)
  }

  lemma {:induction false} WillingYes(w: World, t: nat, n: nat)
    requires Willing(w)
    ensures Yes(w.says, t, n) == n
    decreases n
  {
    if n > 0 {
      WillingYes(w, t + 1, n - 1);
    }
  }

  /** Even then, waking an awake range creates all handles, fails and loses them all. */
  lemma {:induction false} WillingMap(w: World, t: nat, mapped: bool, n: nat)
    requires Willing(w) && n > 0
    ensures MapAnswer(w, false, t, mapped, n) == if mapped then RolledBack(n) else Mapped
  {
    assert Context(w, false, t) == (false, t + 2);
    WillingYes(w, t + 2, n);
    WillingYes(w, t + 2 + n, n);
  }

  lemma {:induction false} WillingRegister(w: World, callbacks: bool, t: nat, p: nat, n: nat)
    requires Willing(w) && n > 0
    ensures RegisterAnswer(w, callbacks, false, t, p, n) == if callbacks then Granted(p) else ReservationLost(p)
  {
    WillingYes(w, t, n);
    WillingMap(w, t + n + 1, false, n);
  }

  lemma {:induction false} WillingQuery(w: World, m: Machine)
    requires Willing(w) && !m.errorCode
    ensures !Queried(w, m).errorCode
  {
    assert Context(w, false, m.asked) == (false, m.asked + 2);
  }

  lemma {:induction false} WillingAnswer(w: World, m: Machine, size: nat, setting: Setting, at: nat)
    requires w.granularity > 0 && Willing(w) && !m.errorCode
    requires CanReserve(m.driver, at, AlignUp(size, w.granularity)) && |Chunks(size, w.granularity, setting)| > 0
    ensures MallocAnswer(w, m, size, setting, at) == if m.callbacks then Granted(at) else ReservationLost(at)
  {
    WillingQuery(w, m);
    WillingRegister(w, m.callbacks, Queried(w, m).asked + 1, at, |Chunks(size, w.granularity, setting)|);
  }

  /**
    When the driver refuses nothing and no error is latched, a request for a free range is granted if and only if the
    module has been initialised.
  */
  lemma {:induction false} WillingMalloc(w: World, m: Machine, b: Books, size: nat, setting: Setting, at: nat)
    requires w.granularity > 0 && Willing(w) && !m.errorCode && Sound(m, b)
    requires CanReserve(m.driver, at, AlignUp(size, w.granularity))
    ensures CumemSteps.MyMalloc(w, m, size, setting, at).1 == if m.callbacks then Granted(at) else ReservationLost(at)
  {
    ReservedChunksFit(m.driver, at, size, w.granularity, setting);
    WillingAnswer(w, m, size, setting, at);
    MallocExact(w, m, b, size, setting, at);
  }

  /** A granted range is mapped in as few chunks as the configured size allows, all but the last of that size. */
  lemma {:induction false} GrantedChunks(w: World, m: Machine, b: Books, size: nat, setting: Setting, at: nat)
    requires w.granularity > 0 && Sound(m, b) && CumemSteps.MyMalloc(w, m, size, setting, at).1 == Granted(at)
    ensures var m1 := CumemSteps.MyMalloc(w, m, size, setting, at).0;
            && at in m1.table && at in m1.driver.reserved && m1.driver.reserved[at] == AlignUp(size, w.granularity)
            && CutsInto(m1.table[at].sizes, AlignUp(size, w.granularity),
                        AlignUp(MemcreateChunkSize(setting), w.granularity))
            && forall k | 0 <= k < |m1.table[at].sizes| ::
                 TileOk(m1.driver, at, m1.table[at].sizes, m.driver.nextHandle, k)
  {
    var m1, b1 := CumemSteps.MyMalloc(w, m, size, setting, at).0, MallocBooks(w, m, b, size, setting, Granted(at));
    MallocSound(w, m, b, size, setting, at);
    ChunksOfRequest(size, w.granularity, setting);
    assert at in b1.owned && OwnerOk(m1, b1, at) && at in b1.regions && RegionOk(m1.driver, at, b1.regions[at]);
  }

  // ----- Sleeping over a list of entries -----

  predicate Distinct(order: seq<nat>) {
    order == [] || (order[0] !in order[1..] && Distinct(order[1..]))
  }

  /** The books once all of `order` are asleep. */
  function AllAsleep(b: Books, order: seq<nat>): Books
    decreases |order|
  {
    if order == [] then b else AllAsleep(AsleepBooks(b, order[0]), order[1..])
  }

  lemma {:induction false} AllAsleepAre(b: Books, order: seq<nat>)
    ensures AllAsleep(b, order) == b.(regions := b.regions - (set p | p in order))
    decreases |order|
  {
    if order == [] {
      assert b.regions - (set p | p in order) == b.regions;
    } else {
      AllAsleepAre(AsleepBooks(b, order[0]), order[1..]);
      assert (set p | p in order) == {order[0]} + (set p | p in order[1..]);
      assert b.regions - {order[0]} - (set p | p in order[1..]) == b.regions - (set p | p in order);
    }
  }

  /** The handles in the cells of a record. */
  function Hands(cells: map<nat, nat>, rec: Record): set<nat> {
    if HasCells(cells, rec.cell0, |rec.sizes|) then Handed(cells, rec) else {}
  }

  /** A sleep that gets through releases exactly the handles in the cells. */
  lemma {:induction false} SleepReleases(w: World, m: Machine, b: Books, p: nat)
    requires Sound(m, b) && p in b.owned && Sleeps(w, m, p).1.Slept?
    ensures var m1 := Sleeps(w, m, p).0;
            && m1.table == m.table && m1.cells == m.cells && !m1.errorCode
            && m1.driver.live.Keys == m.driver.live.Keys - Hands(m.cells, b.owned[p])
  {
    assert OwnerOk(m, b, p);
    HeldIffCells(m, b, p);
    TeardownIs(m.driver, m.cells, b.regions, p, b.owned[p]);
    UnmappingFrame(m.driver, b.regions, p);
  }

  lemma {:induction false} SleepHolds(w: World, m: Machine, b: Books, p: nat)
    requires Sound(m, b) && Sleeps(w, m, p).1.Slept?
    ensures var m1 := Sleeps(w, m, p).0;
            && p in b.owned && p in m.table && Arrays(w, m.asked) && Keeps(m, b, m1, AsleepBooks(b, p))
            && (Loose(m1.driver) <= Loose(m.driver) <==> Intact(m.cells, b.regions, p, b.owned[p].cell0))
  {
    SleepKeeps(w, m, b, p);
  }

  /** One successful sleep: the range was held and awake, and now it is asleep. */
  lemma {:induction false} SleptOne(w: World, m: Machine, b: Books, p: nat)
    requires Sound(m, b) && Sleeps(w, m, p).1 == Slept(false)
    ensures var m1 := Sleeps(w, m, p).0;
            && p in b.owned && p in b.regions && m1.table == m.table && Keeps(m, b, m1, AsleepBooks(b, p))
            && (AllIntact(m, b) ==> Loose(m1.driver) <= Loose(m.driver))
  {
    SleepHolds(w, m, b, p);
    SleepReleases(w, m, b, p);
    SleepRaises(w, m, b, p);
  }

  ghost predicate AllAwake(b: Books, order: seq<nat>) {
    forall p <- order :: p in b.owned && p in b.regions
  }

  lemma {:induction false} AwakeBefore(b: Books, order: seq<nat>)
    requires order != [] && Distinct(order) && order[0] in b.owned && order[0] in b.regions
    ensures AllAwake(AsleepBooks(b, order[0]), order[1..]) <==> AllAwake(b, order)
  {
    if AllAwake(AsleepBooks(b, order[0]), order[1..]) {
      forall p | p in order ensures p in b.owned && p in b.regions {
        assert p == order[0] || p in order[1..];
      }
    } else if AllAwake(b, order) {
      forall p | p in order[1..] ensures p in b.owned && p in AsleepBooks(b, order[0]).regions {
        assert p in order;
      }
      assert false;
    }
  }

  /**
    If the loop of sleep() gets to its end, every entry was held by the client and awake, and exactly these
    ranges are now unmapped; if all ranges were intact, nothing is lost.
  */
  lemma {:induction false} SleepCompletes(w: World, m: Machine, b: Books, order: seq<nat>)
    requires Sound(m, b) && Distinct(order) && SleepEach(w, m, order).1 == Slept(false)
    ensures var m1 := SleepEach(w, m, order).0;
            && AllAwake(b, order) && m1.table == m.table && Keeps(m, b, m1, AllAsleep(b, order))
            && (AllIntact(m, b) ==> Loose(m1.driver) <= Loose(m.driver))
    decreases |order|
  {
    if order != [] {
      SleptOne(w, m, b, order[0]);
      var m1 := Sleeps(w, m, order[0]).0;
      SleepCompletes(w, m1, AsleepBooks(b, order[0]), order[1..]);
      AwakeBefore(b, order);
    }
  }

  /**
    What stops sleep() when the driver refuses nothing: an entry nobody holds, a range that is asleep, or a
    range whose cells are not releasable, given the handles `live` at that point.
  */
  ghost function SleepTrouble(live: set<nat>, cells: map<nat, nat>, b: Books, order: seq<nat>): Reply
    decreases |order|
  {
    if order == [] then Slept(false)
    else if order[0] !in b.owned then Dangling
    else
      var rec := b.owned[order[0]];
      if order[0] !in b.regions || !Releasable(live, cells, rec.cell0, |rec.sizes|) then Slept(true)
      else SleepTrouble(live - Hands(cells, rec), cells, AsleepBooks(b, order[0]), order[1..])
  }

  lemma {:induction false} WillingSleep(w: World, m: Machine, b: Books, p: nat)
    requires Willing(w) && !m.errorCode && Sound(m, b) && p in m.table
    ensures Sleeps(w, m, p).1
            == if p !in b.owned then Dangling
               else Slept(|| p !in b.regions
                          || !Releasable(m.driver.live.Keys, m.cells, b.owned[p].cell0, |b.owned[p].sizes|))
  {
    HeldIffCells(m, b, p);
    assert Context(w, false, m.asked + 2) == (false, m.asked + 4);
    if p in b.owned {
      SleepRaises(w, m, b, p);
    }
  }

  /** With such a driver the reply of sleep() is exactly that. */
  lemma {:induction false} SleepAllExact(w: World, m: Machine, b: Books, order: seq<nat>)
    requires Willing(w) && !m.errorCode && Sound(m, b) && forall p <- order :: p in m.table
    ensures SleepEach(w, m, order).1 == SleepTrouble(m.driver.live.Keys, m.cells, b, order)
    decreases |order|
  {
    if order != [] {
      var p, m1 := order[0], Sleeps(w, m, order[0]).0;
      WillingSleep(w, m, b, p);
      if Sleeps(w, m, p).1 == Slept(false) {
        SleptOne(w, m, b, p);
        SleepReleases(w, m, b, p);
        assert forall q <- order[1..] :: q in order;
        SleepAllExact(w, m1, AsleepBooks(b, p), order[1..]);
      }
    }
  }

  // ----- When nothing stops it -----

  /** The cells of two entries have no handle in common. */
  ghost predicate Unshared(cells: map<nat, nat>, owned: map<nat, Record>, p: nat, q: nat) {
    p in owned && q in owned ==> Hands(cells, owned[p]) !! Hands(cells, owned[q])
  }

  /** No two of the entries have a handle in common. */
  ghost predicate Separate(cells: map<nat, nat>, owned: map<nat, Record>, order: seq<nat>) {
    order == [] ||
    ((forall q <- order[1..] :: Unshared(cells, owned, order[0], q)) && Separate(cells, owned, order[1..]))
  }

  ghost predicate EachReleasable(live: set<nat>, cells: map<nat, nat>, owned: map<nat, Record>, order: seq<nat>) {
    forall p <- order :: p in owned ==> Releasable(live, cells, owned[p].cell0, |owned[p].sizes|)
  }

  lemma {:induction false} ReleasableStill(live: set<nat>, gone: set<nat>, cells: map<nat, nat>, rec: Record)
    ensures Releasable(live - gone, cells, rec.cell0, |rec.sizes|)
            <==> Releasable(live, cells, rec.cell0, |rec.sizes|) && gone !! Hands(cells, rec)
  {
    var c0, n := rec.cell0, |rec.sizes|;
    if HasCells(cells, c0, n) {
      forall h: nat ensures h in Hands(cells, rec) <==> exists c :: c0 <= c < c0 + n && cells[c] == h {
        InCellHandles(cells, c0, n, h);
      }
    }
  }

  /** What the first entry leaves is enough for the rest if they share no handle with it. */
  lemma {:induction false} ReleasableAfterFirst(live: set<nat>, cells: map<nat, nat>, owned: map<nat, Record>,
                                                order: seq<nat>)
    requires order != [] && forall p <- order :: p in owned
    requires Releasable(live, cells, owned[order[0]].cell0, |owned[order[0]].sizes|)
    ensures EachReleasable(live - Hands(cells, owned[order[0]]), cells, owned, order[1..])
            <==> EachReleasable(live, cells, owned, order)
                 && forall q <- order[1..] :: Unshared(cells, owned, order[0], q)
  {
    forall q | q in order[1..]
      ensures q in order
      ensures Releasable(live - Hands(cells, owned[order[0]]), cells, owned[q].cell0, |owned[q].sizes|)
              <==> Releasable(live, cells, owned[q].cell0, |owned[q].sizes|) && Unshared(cells, owned, order[0], q)
    {
      ReleasableStill(live, Hands(cells, owned[order[0]]), cells, owned[q]);
    }
    assert forall q <- order :: q == order[0] || q in order[1..];
  }

  /**
    Nothing stops sleep() if and only if every entry is held and awake, each with releasable cells, and no two have
    a handle in common.
  */
  lemma {:induction false} SleepTroubleNone(live: set<nat>, cells: map<nat, nat>, b: Books, order: seq<nat>)
    requires Distinct(order)
    ensures SleepTrouble(live, cells, b, order) == Slept(false)
            <==> AllAwake(b, order) && EachReleasable(live, cells, b.owned, order) && Separate(cells, b.owned, order)
    decreases |order|
  {
    if order != [] {
      var p := order[0];
      assert p in order;
      if p in b.owned && p in b.regions && Releasable(live, cells, b.owned[p].cell0, |b.owned[p].sizes|) {
        SleepTroubleNone(live - Hands(cells, b.owned[p]), cells, AsleepBooks(b, p), order[1..]);
        AwakeBefore(b, order);
        if AllAwake(b, order) {
          ReleasableAfterFirst(live, cells, b.owned, order);
        }
      }
    }
  }

  lemma {:induction false} IntactHands(m: Machine, b: Books, p: nat)
    requires Sound(m, b) && p in b.owned && p in b.regions && Intact(m.cells, b.regions, p, b.owned[p].cell0)
    ensures Hands(m.cells, b.owned[p]) == RegionHandles(b.regions, p)
  {
    var rec, h0 := b.owned[p], b.regions[p].h0;
    assert OwnerOk(m, b, p);
    HasItsCells(m.driver, m.cells, b.regions, p, rec);
    forall h: nat ensures h in Hands(m.cells, rec) <==> h in RegionHandles(b.regions, p) {
      InCellHandles(m.cells, rec.cell0, |rec.sizes|, h);
      assert h0 <= h < h0 + |rec.sizes| ==> m.cells[rec.cell0 + (h - h0)] == h;
    }
  }

  lemma {:induction false} IntactUnshared(m: Machine, b: Books, p: nat, q: nat)
    requires Sound(m, b) && AllIntact(m, b) && p != q
    requires p in b.owned && p in b.regions && q in b.owned && q in b.regions
    ensures Unshared(m.cells, b.owned, p, q)
  {
    IntactHands(m, b, p);
    IntactHands(m, b, q);
    forall h | h in RegionHandles(b.regions, q) ensures h !in RegionHandles(b.regions, p) {
      RegionsShareNothing(m.driver, b.regions, p, q, h - b.regions[q].h0);
    }
  }

  /** While every range is intact, that is so for any entries that are held and awake. */
  lemma {:induction false} IntactSleeps(m: Machine, b: Books, order: seq<nat>)
    requires Sound(m, b) && AllIntact(m, b) && Distinct(order) && AllAwake(b, order)
    ensures EachReleasable(m.driver.live.Keys, m.cells, b.owned, order) && Separate(m.cells, b.owned, order)
    decreases |order|
  {
    forall p | p in order ensures Releasable(m.driver.live.Keys, m.cells, b.owned[p].cell0, |b.owned[p].sizes|) {
      IntactIsReleasable(m, b, p);
    }
    if order != [] {
      assert order[0] in order && forall q <- order[1..] :: q in order;
      forall q | q in order[1..] ensures Unshared(m.cells, b.owned, order[0], q) {
        IntactUnshared(m, b, order[0], q);
      }
      IntactSleeps(m, b, order[1..]);
    }
  }

  // ----- What a completed sleep leaves behind -----

  lemma {:induction false} SleepLoose(w: World, m: Machine, b: Books, p: nat)
    requires Sound(m, b) && p in b.owned && Sleeps(w, m, p).1.Slept?
    ensures Loose(Sleeps(w, m, p).0.driver)
            == Loose(m.driver) + RegionHandles(b.regions, p) - Hands(m.cells, b.owned[p])
  {
    assert OwnerOk(m, b, p);
    HeldIffCells(m, b, p);
    TeardownLoose(m, b, p);
  }

  /** An intact range leaves no trace among the loose handles. */
  lemma {:induction false} IntactSleepLoose(w: World, m: Machine, b: Books, p: nat)
    requires Sound(m, b) && p in b.owned && p in b.regions && Intact(m.cells, b.regions, p, b.owned[p].cell0)
    requires Sleeps(w, m, p).1.Slept?
    ensures Loose(Sleeps(w, m, p).0.driver) == Loose(m.driver)
  {
    SleepLoose(w, m, b, p);
    IntactHands(m, b, p);
    forall h | h in RegionHandles(b.regions, p) ensures h !in Loose(m.driver) {
      MappedNotLoose(m.driver, b.regions, p, h);
    }
  }

  ghost predicate EachIntact(cells: map<nat, nat>, b: Books, order: seq<nat>) {
    forall p <- order :: p in b.owned ==> Intact(cells, b.regions, p, b.owned[p].cell0)
  }

  lemma {:induction false} IntactRest(cells: map<nat, nat>, b: Books, order: seq<nat>)
    requires order != [] && Distinct(order)
    ensures EachIntact(cells, b, order)
            <==> && EachIntact(cells, AsleepBooks(b, order[0]), order[1..])
                 && (order[0] in b.owned ==> Intact(cells, b.regions, order[0], b.owned[order[0]].cell0))
  {
    assert order[0] in order && forall q <- order[1..] :: q in order && q != order[0];
    assert forall q <- order :: q == order[0] || q in order[1..];
  }

  /** The loop releases handles and creates none. */
  lemma {:induction false} SleepShrinks(w: World, m: Machine, b: Books, order: seq<nat>)
    requires Sound(m, b) && SleepEach(w, m, order).1 == Slept(false)
    ensures SleepEach(w, m, order).0.driver.live.Keys <= m.driver.live.Keys
    decreases |order|
  {
    if order != [] {
      SleptOne(w, m, b, order[0]);
      SleepReleases(w, m, b, order[0]);
      SleepShrinks(w, Sleeps(w, m, order[0]).0, AsleepBooks(b, order[0]), order[1..]);
    }
  }

  /** What the first entry released, the rest does not bring back. */
  lemma {:induction false} LooseAgain(loose: set<nat>, mid: set<nat>, end: set<nat>, live: set<nat>, own: set<nat>,
                                      gone: set<nat>)
    requires mid == loose + own - gone && end <= live && live !! gone && end <= loose
    ensures end <= mid
  {
  }

  /** A completed sleep() leaves no handle behind if and only if every entry was intact. */
  lemma {:induction false} SleepLeavesNothingIff(w: World, m: Machine, b: Books, order: seq<nat>)
    requires Sound(m, b) && Distinct(order) && SleepEach(w, m, order).1 == Slept(false)
    ensures var m1 := SleepEach(w, m, order).0;
            && (Loose(m1.driver) <= Loose(m.driver) <==> EachIntact(m.cells, b, order))
            && (EachIntact(m.cells, b, order) ==> Loose(m1.driver) == Loose(m.driver))
    decreases |order|
  {
    if order != [] {
      var p, m1, m2 := order[0], Sleeps(w, m, order[0]).0, SleepEach(w, m, order).0;
      SleptOne(w, m, b, p);
      SleepReleases(w, m, b, p);
      SleepLoose(w, m, b, p);
      SleepLeavesNothingIff(w, m1, AsleepBooks(b, p), order[1..]);
      SleepShrinks(w, m1, AsleepBooks(b, p), order[1..]);
      IntactRest(m.cells, b, order);
      SleepLeaksIff(w, m, b, p);
      if Intact(m.cells, b.regions, p, b.owned[p].cell0) {
        IntactSleepLoose(w, m, b, p);
      }
      if Loose(m2.driver) <= Loose(m.driver) {
        LooseAgain(Loose(m.driver), Loose(m1.driver), Loose(m2.driver), m1.driver.live.Keys,
                   RegionHandles(b.regions, p), Hands(m.cells, b.owned[p]));
      }
    }
  }

  // ----- Waking a list of entries -----

  /** One successful wake: the range was held and asleep, and now it is mapped. */
  lemma {:induction false} WokenOne(w: World, m: Machine, b: Books, p: nat)
    requires Sound(m, b) && Wakes(w, m, p).1.Woke? && Wakes(w, m, p).1.o == Mapped
    ensures var m1 := Wakes(w, m, p).0;
            && p in b.owned && p !in b.regions && m1.table == m.table && !m1.errorCode
            && Sound(m1, MapBooks(b, p, b.owned[p].sizes, m.driver.nextHandle, Mapped))
            && (AllIntact(m, b) ==> AllIntact(m1, MapBooks(b, p, b.owned[p].sizes, m.driver.nextHandle, Mapped)))
            && Loose(m1.driver) == Loose(m.driver)
  {
    WakeKeeps(w, m, b, p);
    HeldIffCells(m, b, p);
    WakeIs(w, m, p);
    FlagsKeep(m, b, m.(asked := m.asked + 2));
    WakeEnds(w, m.(asked := m.asked + 2), b, p);
  }

  ghost predicate AllAsleepNow(b: Books, order: seq<nat>) {
    forall p <- order :: p in b.owned && p !in b.regions
  }

  /** The same books but that the ranges of `order` are mapped, in their own chunk sizes. */
  ghost predicate WokenUp(b: Books, b1: Books, order: seq<nat>) {
    && b1.owned == b.owned && b1.lost == b.lost
    && (forall p <- order :: p in b.owned && p in b1.regions && b1.regions[p].sizes == b.owned[p].sizes)
    && (forall p | p !in order :: SameRegion(b.regions, b1.regions, p))
  }

  lemma {:induction false} WokenMore(b: Books, order: seq<nat>, h0: nat, b2: Books)
    requires order != [] && Distinct(order) && order[0] in b.owned && order[0] !in b.regions
    requires var b1 := MapBooks(b, order[0], b.owned[order[0]].sizes, h0, Mapped);
             AllAsleepNow(b1, order[1..]) && WokenUp(b1, b2, order[1..])
    ensures AllAsleepNow(b, order) && WokenUp(b, b2, order)
  {
    var b1 := MapBooks(b, order[0], b.owned[order[0]].sizes, h0, Mapped);
    assert SameRegion(b1.regions, b2.regions, order[0]);
    forall p | p in order
      ensures p in b.owned && p !in b.regions && p in b2.regions && b2.regions[p].sizes == b.owned[p].sizes
    {
      assert p == order[0] || p in order[1..];
    }
    forall p | p !in order ensures SameRegion(b.regions, b2.regions, p) {
      assert p !in order[1..] && p != order[0];
      assert SameRegion(b1.regions, b2.regions, p);
    }
  }

  /**
    If the loop of wake_up() gets to its end, every selected entry was held by the client and asleep, exactly
    these ranges are now mapped again, each in its own chunk sizes, and nothing is lost.
  */
  lemma {:induction false} WakeCompletes(w: World, m: Machine, b: Books, order: seq<nat>) returns (b1: Books)
    requires Sound(m, b) && Distinct(order)
    requires var r := WakeEach(w, m, order).1; r.Woke? && r.o == Mapped
    ensures var m1 := WakeEach(w, m, order).0;
            && AllAsleepNow(b, order) && WokenUp(b, b1, order) && m1.table == m.table
            && Loose(m1.driver) == Loose(m.driver)
            && Sound(m1, b1) && (AllIntact(m, b) ==> AllIntact(m1, b1))
    decreases |order|
  {
    b1 := b;
    if order != [] {
      WokenOne(w, m, b, order[0]);
      var m1 := Wakes(w, m, order[0]).0;
      b1 := WakeCompletes(w, m1, MapBooks(b, order[0], b.owned[order[0]].sizes, m.driver.nextHandle, Mapped),
                          order[1..]);
      WokenMore(b, order, m.driver.nextHandle, b1);
    }
  }

  lemma {:induction false} WillingWake(w: World, m: Machine, b: Books, p: nat)
    requires Willing(w) && !m.errorCode && Sound(m, b) && p in m.table
    ensures Wakes(w, m, p).1
            == if p !in b.owned then Dangling
               else if p in b.regions then Woke(true, RolledBack(|b.owned[p].sizes|)) else Woke(false, Mapped)
  {
    HeldIffCells(m, b, p);
    if p in b.owned {
      WakeExact(w, m, b, p);
      WillingMap(w, m.asked + 2, p in b.regions, |b.owned[p].sizes|);
    }
  }

  lemma {:induction false} AsleepBefore(b: Books, order: seq<nat>, h0: nat)
    requires order != [] && Distinct(order) && order[0] in b.owned && order[0] !in b.regions
    ensures AllAsleepNow(MapBooks(b, order[0], b.owned[order[0]].sizes, h0, Mapped), order[1..])
            <==> AllAsleepNow(b, order)
  {
    var b1 := MapBooks(b, order[0], b.owned[order[0]].sizes, h0, Mapped);
    if AllAsleepNow(b1, order[1..]) {
      forall p | p in order ensures p in b.owned && p !in b.regions {
        assert p == order[0] || p in order[1..];
      }
    }
    assert forall p <- order[1..] :: p in order;
  }

  /** When the driver refuses nothing, wake_up() gets to its end if and only if all its entries are held and asleep. */
  lemma {:induction false} WakeAllExact(w: World, m: Machine, b: Books, order: seq<nat>)
    requires Willing(w) && !m.errorCode && Sound(m, b) && Distinct(order) && forall p <- order :: p in m.table
    ensures WakeEach(w, m, order).1 == Woke(false, Mapped) <==> AllAsleepNow(b, order)
    decreases |order|
  {
    if order != [] {
      var p, m1 := order[0], Wakes(w, m, order[0]).0;
      WillingWake(w, m, b, p);
      assert p in order && forall q <- order[1..] :: q in order;
      if p in b.owned && p !in b.regions {
        WokenOne(w, m, b, p);
        var b1 := MapBooks(b, p, b.owned[p].sizes, m.driver.nextHandle, Mapped);
        WakeAllExact(w, m1, b1, order[1..]);
        AsleepBefore(b, order, m.driver.nextHandle);
      }
    }
  }

  // ----- The round trip -----

  lemma {:induction false} AsleepThenAsleep(b: Books, order: seq<nat>)
    requires AllAwake(b, order)
    ensures AllAsleepNow(AllAsleep(b, order), order)
  {
    AllAsleepAre(b, order);
  }

  lemma {:induction false} SleepKeepsQuiet(w: World, m: Machine, order: seq<nat>)
    requires !m.errorCode && SleepEach(w, m, order).1 == Slept(false)
    ensures !SleepEach(w, m, order).0.errorCode
    decreases |order|
  {
    if order != [] {
      SleepKeepsQuiet(w, Sleeps(w, m, order[0]).0, order[1..]);
    }
  }

  /** Where sleep() and wake_up() over `order` leave the client: the same ranges mapped in the same chunk sizes. */
  ghost predicate RoundTrip(b: Books, b2: Books, order: seq<nat>) {
    && b2.owned == b.owned && b2.lost == b.lost
    && (forall p <- order :: p in b.regions && p in b2.regions && b2.regions[p].sizes == b.regions[p].sizes)
    && (forall p | p !in order :: SameRegion(b.regions, b2.regions, p))
  }

  lemma {:induction false} WokenIsRoundTrip(m: Machine, b: Books, b2: Books, order: seq<nat>)
    requires Sound(m, b) && AllAwake(b, order) && WokenUp(AllAsleep(b, order), b2, order)
    ensures RoundTrip(b, b2, order)
  {
    AllAsleepAre(b, order);
    forall p | p in order ensures b.owned[p].sizes == b.regions[p].sizes {
      assert OwnerOk(m, b, p);
    }
    forall p | p !in order ensures SameRegion(b.regions, b2.regions, p) {
      assert SameRegion(AllAsleep(b, order).regions, b2.regions, p);
    }
  }

  /**
    Whatever the driver answers: if sleep() and then wake_up() over the same entries get to their end, every entry
    was awake and the client is where it was, every other range untouched; no handle is left behind if and only if
    every entry was intact.
  */
  lemma {:induction false} SleepThenWake(w: World, m: Machine, b: Books, order: seq<nat>) returns (b2: Books)
    requires Sound(m, b) && Distinct(order) && SleepEach(w, m, order).1 == Slept(false)
    requires var s := WakeEach(w, SleepEach(w, m, order).0, order).1; s.Woke? && s.o == Mapped
    ensures var m2 := WakeEach(w, SleepEach(w, m, order).0, order).0;
            && AllAwake(b, order) && Sound(m2, b2) && RoundTrip(b, b2, order)
            && (AllIntact(m, b) ==> AllIntact(m2, b2))
            && (Loose(m2.driver) <= Loose(m.driver) <==> EachIntact(m.cells, b, order))
  {
    SleepLeavesNothingIff(w, m, b, order);
    SleepCompletes(w, m, b, order);
    b2 := WakeCompletes(w, SleepEach(w, m, order).0, AllAsleep(b, order), order);
    WokenIsRoundTrip(m, b, b2, order);
  }

  /** When the driver refuses nothing, both get to their end if and only if nothing stops sleep(). */
  lemma {:induction false} SleepThenWakeEnds(w: World, m: Machine, b: Books, order: seq<nat>)
    requires Willing(w) && !m.errorCode && Sound(m, b) && Distinct(order) && forall p <- order :: p in m.table
    ensures var (m1, r) := SleepEach(w, m, order);
            r == Slept(false) && WakeEach(w, m1, order).1 == Woke(false, Mapped)
            <==> && AllAwake(b, order) && EachReleasable(m.driver.live.Keys, m.cells, b.owned, order)
                 && Separate(m.cells, b.owned, order)
  {
    SleepAllExact(w, m, b, order);
    SleepTroubleNone(m.driver.live.Keys, m.cells, b, order);
    if SleepEach(w, m, order).1 == Slept(false) {
      SleepCompletes(w, m, b, order);
      SleepKeepsQuiet(w, m, order);
      AsleepThenAsleep(b, order);
      WakeAllExact(w, SleepEach(w, m, order).0, AllAsleep(b, order), order);
    }
  }

  // ----- Entries a failed allocation leaves behind -----

  /** Entries of the table nobody holds. */
  function Stale(m: Machine, b: Books): set<nat> {
    m.table.Keys - b.owned.Keys
  }

  lemma {:induction false} TableIsOwnedIff(m: Machine, b: Books)
    requires Sound(m, b)
    ensures m.table.Keys == b.owned.Keys <==> Stale(m, b) == {}
  {
    assert forall p <- b.owned :: OwnerOk(m, b, p);
    if Stale(m, b) == {} {
      forall p | p in m.table ensures p in b.owned {
        assert p !in Stale(m, b);
      }
    }
  }

  /** Which replies make an entry stale, and which remove it. */
  function NextStale(stale: set<nat>, op: Op, r: Reply): set<nat> {
    match r
    case Malloced(o) =>
      if o.Undone? || o.MappingLost? then stale + {o.p} else if o.Granted? then stale - {o.p} else stale
    case FreeReply(o) => if op.Free? && o != NotFound then stale - {op.p} else stale
    case Dangling => if op.Free? then stale - {op.p} else stale
    case _ => stale
  }

  lemma {:induction false} MapTable(w: World, m: Machine, p: nat, rec: Record)
    requires rec.sizes != []
    ensures CumemSteps.CreateAndMap(w, m, p, rec).0.table == m.table
  {
  }

  lemma {:induction false} CommitTable(w: World, m: Machine, p: nat, rec: Record)
    requires rec.sizes != []
    ensures var (m1, o) := CumemSteps.Commit(w, m, p, rec);
            m1.table == m.table && (o.Granted? || o.Undone? || o.MappingLost?) && o.p == p
  {
    MapTable(w, m, p, rec);
  }

  lemma {:induction false} RegisterTable(w: World, m: Machine, p: nat, size: nat, sizes: seq<nat>)
    requires sizes != []
    ensures var (m1, o) := CumemSteps.Register(w, m, p, size, sizes);
            && !o.Refused? && o.p == p
            && m1.table.Keys == if o.ReservationLost? then m.table.Keys else m.table.Keys + {p}
  {
    var rec := Record(size, sizes, m.nextCell);
    var (m1, taken) := TakeAll(w, m, |sizes|);
    if taken {
      var (m2, announced) := CumemSteps.Announce(w, m1, p, rec);
      if announced {
        CommitTable(w, m2, p, rec);
      }
    }
  }

  lemma {:induction false} MallocTable(w: World, m: Machine, size: nat, setting: Setting, at: nat)
    requires w.granularity > 0
    ensures var (m1, o) := CumemSteps.MyMalloc(w, m, size, setting, at);
            m1.table.Keys == if o.Refused? || o.ReservationLost? then m.table.Keys else m.table.Keys + {o.p}
  {
    ChunksOfRequest(size, w.granularity, setting);
    AlignedToo(size, w.granularity);
    var q, aligned := Queried(w, m), AlignUp(size, w.granularity);
    var (m2, reserved) := CumemSteps.Reserve(w, q, at, aligned);
    if !q.errorCode && reserved {
      RegisterTable(w, m2, at, aligned, Chunks(size, w.granularity, setting));
    }
  }

  lemma {:induction false} StaleFrom(m: Machine, b: Books, m1: Machine, b1: Books, op: Op, o: MallocOutcome)
    requires m1.table.Keys == if o.Refused? || o.ReservationLost? then m.table.Keys else m.table.Keys + {o.p}
    requires b1.owned.Keys == if o.Granted? then b.owned.Keys + {o.p} else b.owned.Keys
    requires o.Undone? || o.MappingLost? ==> o.p !in b.owned
    ensures Stale(m1, b1) == NextStale(Stale(m, b), op, Malloced(o))
  {
  }

  lemma {:induction false} MallocFresh(w: World, m: Machine, b: Books, size: nat, setting: Setting, at: nat)
    requires w.granularity > 0 && Sound(m, b)
    ensures var o := CumemSteps.MyMalloc(w, m, size, setting, at).1; o.Refused? || o.p !in b.owned
  {
    MallocKeeps(w, m, b, size, setting, at);
  }

  lemma {:induction false} MallocStale(w: World, m: Machine, b: Books, size: nat, setting: Setting, at: nat)
    requires w.granularity > 0 && Sound(m, b)
    ensures var (m1, o) := CumemSteps.MyMalloc(w, m, size, setting, at);
            Stale(m1, MallocBooks(w, m, b, size, setting, o))
            == NextStale(Stale(m, b), Malloc(size, setting, at), Malloced(o))
  {
    var (m1, o) := CumemSteps.MyMalloc(w, m, size, setting, at);
    MallocTable(w, m, size, setting, at);
    MallocFresh(w, m, b, size, setting, at);
    StaleFrom(m, b, m1, MallocBooks(w, m, b, size, setting, o), Malloc(size, setting, at), o);
  }

  lemma {:induction false} FreeTable(w: World, m: Machine, p: nat, size: nat)
    ensures var (m1, o) := CumemSteps.MyFree(w, m, p, size);
            m1.table == if o == NotFound then m.table else m.table - {p}
  {
  }

  lemma {:induction false} FreedOwners(b: Books, p: nat, o: FreeOutcome)
    requires o.HostFailure? ==> (o.held <==> p in b.owned)
    requires o == DanglingCells ==> p !in b.owned
    ensures FreeBooks(b, p, o).owned == if o == NotFound then b.owned else b.owned - {p}
  {
    assert p !in b.owned ==> b.owned - {p} == b.owned;
  }

  lemma {:induction false} FreeOwners(w: World, m: Machine, b: Books, p: nat, size: nat)
    requires Sound(m, b)
    ensures var o := CumemSteps.MyFree(w, m, p, size).1;
            FreeBooks(b, p, o).owned == if o == NotFound then b.owned else b.owned - {p}
  {
    FreeExact(w, m, b, p, size);
    FreedOwners(b, p, CumemSteps.MyFree(w, m, p, size).1);
  }

  lemma {:induction false} FreeStale(w: World, m: Machine, b: Books, p: nat, size: nat)
    requires Sound(m, b)
    ensures var (m1, o) := CumemSteps.MyFree(w, m, p, size);
            Stale(m1, FreeBooks(b, p, o)) == if o == NotFound then Stale(m, b) else Stale(m, b) - {p}
  {
    FreeTable(w, m, p, size);
    FreeOwners(w, m, b, p, size);
  }

  lemma {:induction false} SleepTable(w: World, m: Machine, b: Books, p: nat)
    ensures var (m1, r) := Sleeps(w, m, p);
            Stale(m1, SleptBooks(b, p, r)) == Stale(m, b) && !r.Malloced? && !r.FreeReply?
  {
  }

  lemma {:induction false} WakeTable(w: World, m: Machine, b: Books, p: nat)
    ensures var (m1, r) := Wakes(w, m, p);
            Stale(m1, WokenBooks(m, b, p, r)) == Stale(m, b) && !r.Malloced? && !r.FreeReply?
  {
    if p in m.table && m.table[p].sizes != [] {
      MapTable(w, Asked(w, m), p, m.table[p]);
    }
  }

  /** How one call changes the stale entries. */
  lemma {:induction false} StepStale(w: World, m: Machine, b: Books, op: Op)
    requires w.granularity > 0 && Sound(m, b)
    ensures var (m1, r) := Step(w, m, op); Stale(m1, NextBooks(w, m, b, op, r)) == NextStale(Stale(m, b), op, r)
  {
    match op
    case InitModule(_) =>
    case Malloc(size, setting, at) => MallocStale(w, m, b, size, setting, at);
    case Free(p, size) => FreeStale(w, m, b, p, size);
    case Sleep(p) => SleepTable(w, m, b, p);
    case Wake(p) => WakeTable(w, m, b, p);
  }

  /** The stale entries after a run, from the replies. */
  function StaleAfter(stale: set<nat>, ops: seq<Op>, replies: seq<Reply>): set<nat>
    requires |replies| <= |ops|
    decreases |replies|
  {
    if replies == [] then stale else StaleAfter(NextStale(stale, ops[0], replies[0]), ops[1..], replies[1..])
  }

  /** So after every run the table holds the client's pointers only, unless a failed allocation is left in it. */
  lemma {:induction false} RunStale(w: World, m: Machine, b: Books, ops: seq<Op>)
    requires w.granularity > 0 && Sound(m, b)
    ensures var (m1, replies) := RunOps(w, m, ops);
            Stale(m1, RunBooks(w, m, b, ops)) == StaleAfter(Stale(m, b), ops, replies)
    decreases |ops|
  {
    if ops != [] {
      var (m1, r) := Step(w, m, ops[0]);
      var replies := RunOps(w, m, ops).1;
      assert replies[0] == r;
      StepSound(w, m, b, ops[0]);
      StepStale(w, m, b, ops[0]);
      if r == Dangling {
        assert StaleAfter(NextStale(Stale(m, b), ops[0], r), ops[1..], replies[1..])
               == NextStale(Stale(m, b), ops[0], r);
      } else {
        assert replies[1..] == RunOps(w, m1, ops[1..]).1;
        RunStale(w, m1, NextBooks(w, m, b, ops[0], r), ops[1..]);
      }
    }
  }
}
