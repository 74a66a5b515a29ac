/**
  Every entry point of the allocator keeps the books right; which reservations and handles it loses is exact.
*/
module CumemOperations {
  import opened ChunkTiling
  import opened CumemDriver
  import opened CumemSteps
  import opened CumemRollback
  import opened CumemSafety
  import opened CumemTeardown
  import opened CumemBooks

  // ----- create_and_map -----

  /** The handles create_and_map leaves behind. */
  function Leak(d: Driver, o: Outcome): set<nat> {
    if o == HandleLeaked then {d.nextHandle} else {}
  }

  lemma {:induction false} PartlyLoose(d: Driver, p: nat, sizes: seq<nat>)
    requires HandlesBelow(d)
    ensures Loose(Partly(d, p, sizes, |sizes|)) == Loose(d)
  {
    PartlyIsStaged(d, p, sizes, |sizes|);
    var e := Staged(d, p, sizes, |sizes|, |sizes|);
    forall h | h in e.live ensures h in Loose(e) <==> h in Loose(d) {
      if d.nextHandle <= h {
        assert h in HandleRange(d.nextHandle, |sizes|);
      }
    }
  }

  lemma {:induction false} MappedLoose(d: Driver, p: nat, sizes: seq<nat>, o: Outcome)
    requires HandlesBelow(d) && sizes != []
    ensures Loose(MappedDriver(d, p, sizes, o)) == Loose(d) + Leak(d, o)
  {
    if MapsRange(o) {
      PartlyLoose(d, p, sizes);
    }
  }

  /** Intact ranges stay intact, except a mapped one whose cells were overwritten. */
  lemma {:induction false} MapIntact(m: Machine, m1: Machine, b: Books, p: nat, rec: Record, o: Outcome)
    requires Sound(m, b) && Mappable(m, b, p, rec) && Ends(m, m1, p, rec, o) && (p in b.regions ==> !MapsRange(o))
    requires AllIntact(m, b)
    ensures AllIntact(m1, MapBooks(b, p, rec.sizes, m.driver.nextHandle, o))
            <==> !(p in b.owned && p in b.regions && Used(o, |rec.sizes|) > 0)
  {
    var b1 := MapBooks(b, p, rec.sizes, m.driver.nextHandle, o);
    forall q | q in b.owned && q != p ensures Intact(m1.cells, b1.regions, q, b.owned[q].cell0) {
      assert OwnerOk(m, b, q);
      StoredElsewhere(m.cells, rec, m.driver.nextHandle, Used(o, |rec.sizes|), b.owned[q]);
    }
    if p in b.owned {
      assert OwnerOk(m, b, p);
      if MapsRange(o) {
        MappedRecord(m.driver, m.cells, b.regions, p, rec);
      } else {
        RefusedRecord(m.driver, m.cells, b.regions, p, rec, o);
      }
    }
  }

  // ----- my_malloc -----

  /** The books once the range is reserved and lost to everyone. */
  function CommitBooks(b: Books, p: nat, rec: Record, h0: nat, o: MallocOutcome): Books {
    match o
    case Granted(_) => OwnBooks(MapBooks(b, p, rec.sizes, h0, Mapped), p, rec)
    case Undone(_, _) => b.(lost := b.lost - {p})
    case MappingLost(_) => MapBooks(b, p, rec.sizes, h0, NoAccess)
    case Refused => b
    case ReservationLost(_) => b
  }

  function MallocLeak(d: Driver, o: MallocOutcome): set<nat> {
    if o.Undone? then Leak(d, o.o) else {}
  }

  /** A reserved range nobody owns, and cells for it. */
  ghost predicate Ready(m: Machine, b: Books, p: nat, rec: Record) {
    && Sound(m, b) && p in b.lost && p !in b.regions && Fits(m.driver, p, rec.sizes) && rec.size == m.driver.reserved[p]
    && HasCells(m.cells, rec.cell0, |rec.sizes|) && rec.cell0 + |rec.sizes| <= m.nextCell
    && forall q <- b.owned :: Disjoint(rec, b.owned[q])
  }

  /** create_and_map, as the books see it. */
  ghost predicate MapOk(m: Machine, b: Books, m1: Machine, p: nat, rec: Record, o: Outcome)
    requires rec.sizes != []
  {
    && Ends(m, m1, p, rec, o) && Loose(m1.driver) == Loose(m.driver) + Leak(m.driver, o)
    && Keeps(m, b, m1, MapBooks(b, p, rec.sizes, m.driver.nextHandle, o))
  }

  lemma {:induction false} ReadyMapped(w: World, m: Machine, b: Books, p: nat, rec: Record)
    requires Ready(m, b, p, rec)
    ensures var (m1, o) := CumemSteps.CreateAndMap(w, m.(table := m.table[p := rec]), p, rec);
            && MapOk(m, b, m1.(table := m.table), p, rec, o) && m1.table == m.table[p := rec]
            && (m1.errorCode <==> o != Mapped)
  {
    var (m1, o) := CumemSteps.CreateAndMap(w, m.(table := m.table[p := rec]), p, rec);
    MapEnds(w, m.(table := m.table[p := rec]), b.regions, p, rec);
    MapKeeps(m, m1.(table := m.table), b, p, rec, o);
    if AllIntact(m, b) {
      MapIntact(m, m1.(table := m.table), b, p, rec, o);
    }
    SoundHandlesBelow(m.driver, b.regions);
    MappedLoose(m.driver, p, rec.sizes, o);
  }

  /** Mapping failed: give back the range and free the cells; the entry in the table stays, stale. */
  lemma {:induction false} UndoKeeps(m: Machine, b: Books, p: nat, rec: Record)
    requires Sound(m, b) && p in b.lost && rec.size == m.driver.reserved[p]
    requires rec.sizes != [] && rec.cell0 < m.nextCell && forall q <- b.owned :: Disjoint(rec, b.owned[q])
    ensures var m1 := DropCells(GiveBack(m.(table := m.table[p := rec]), p, rec.size), rec);
            && Keeps(m, b, m1, if p in b.regions then b else b.(lost := b.lost - {p}))
            && Loose(m1.driver) == Loose(m.driver)
  {
    var b1 := if p in b.regions then b else b.(lost := b.lost - {p});
    GiveBackAndDrop(m, b, p, rec.size, rec);
    var m1 := DropCells(GiveBack(m, p, rec.size), rec);
    StaleEntryStep(m1, b1, p, rec);
    KeepsTrans(m, b, m1, b1, m1.(table := m1.table[p := rec]), b1);
  }

  /** my_malloc from the reservation on: the books follow the outcome, and so do the loose handles. */
  ghost predicate Committed(m: Machine, b: Books, m1: Machine, p: nat, rec: Record, o: MallocOutcome) {
    && Keeps(m, b, m1, CommitBooks(b, p, rec, m.driver.nextHandle, o))
    && Loose(m1.driver) == Loose(m.driver) + MallocLeak(m.driver, o)
    && !o.Refused? && o.p == p
  }

  lemma {:induction false} GrantOwned(m: Machine, m1: Machine, b: Books, p: nat, rec: Record)
    requires Ready(m, b, p, rec) && MapOk(m, b, m1, p, rec, Mapped)
    ensures var b1 := MapBooks(b, p, rec.sizes, m.driver.nextHandle, Mapped);
            Keeps(m1, b1, m1.(table := m1.table[p := rec]), OwnBooks(b1, p, rec))
  {
    MappedRecord(m.driver, m.cells, b.regions, p, rec);
    OwnStep(m1, MapBooks(b, p, rec.sizes, m.driver.nextHandle, Mapped), p, rec);
  }

  lemma {:induction false} GrantKeeps(m: Machine, m1: Machine, b: Books, p: nat, rec: Record)
    requires Ready(m, b, p, rec) && MapOk(m, b, m1, p, rec, Mapped)
    ensures Committed(m, b, m1.(table := m1.table[p := rec]), p, rec, Granted(p))
  {
    var b1 := MapBooks(b, p, rec.sizes, m.driver.nextHandle, Mapped);
    GrantOwned(m, m1, b, p, rec);
    KeepsTrans(m, b, m1, b1, m1.(table := m1.table[p := rec]), OwnBooks(b1, p, rec));
  }

  function Failure(p: nat, o: Outcome): MallocOutcome {
    if o == NoAccess then MappingLost(p) else Undone(p, o)
  }

  lemma {:induction false} FailBooks(b: Books, p: nat, rec: Record, h0: nat, o: Outcome)
    requires p !in b.regions && o != Mapped
    ensures var b1 := MapBooks(b, p, rec.sizes, h0, o);
            CommitBooks(b, p, rec, h0, Failure(p, o)) == if p in b1.regions then b1 else b1.(lost := b1.lost - {p})
  {
  }

  lemma {:induction false} FailLeak(d: Driver, p: nat, o: Outcome)
    ensures MallocLeak(d, Failure(p, o)) == Leak(d, o)
  {
  }

  lemma {:induction false} FailUndone(m: Machine, m1: Machine, b: Books, p: nat, rec: Record, o: Outcome)
    requires Ready(m, b, p, rec) && MapOk(m, b, m1, p, rec, o) && o != Mapped
    ensures var m2 := DropCells(GiveBack(m1.(table := m1.table[p := rec]), p, rec.size), rec);
            && Keeps(m1, MapBooks(b, p, rec.sizes, m.driver.nextHandle, o), m2,
                     CommitBooks(b, p, rec, m.driver.nextHandle, Failure(p, o)))
            && Loose(m2.driver) == Loose(m1.driver)
  {
    MappedDriverKeeps(m.driver, b.regions, p, rec.sizes, o);
    FailBooks(b, p, rec, m.driver.nextHandle, o);
    UndoKeeps(m1, MapBooks(b, p, rec.sizes, m.driver.nextHandle, o), p, rec);
  }

  lemma {:induction false} FailKeeps(m: Machine, m1: Machine, b: Books, p: nat, rec: Record, o: Outcome)
    requires Ready(m, b, p, rec) && MapOk(m, b, m1, p, rec, o) && o != Mapped
    ensures Committed(m, b, DropCells(GiveBack(m1.(table := m1.table[p := rec]), p, rec.size), rec),
                      p, rec, Failure(p, o))
  {
    FailUndone(m, m1, b, p, rec, o);
    FailLeak(m.driver, p, o);
    KeepsTrans(m, b, m1, MapBooks(b, p, rec.sizes, m.driver.nextHandle, o),
               DropCells(GiveBack(m1.(table := m1.table[p := rec]), p, rec.size), rec),
               CommitBooks(b, p, rec, m.driver.nextHandle, Failure(p, o)));
  }

  lemma {:induction false} CommitIs(w: World, m: Machine, p: nat, rec: Record, m1: Machine, o: Outcome)
    requires rec.sizes != [] && CumemSteps.CreateAndMap(w, m, p, rec) == (m1, o) && (m1.errorCode <==> o != Mapped)
    ensures CumemSteps.Commit(w, m, p, rec)
            == if o == Mapped then (m1, Granted(p)) else (DropCells(GiveBack(m1, p, rec.size), rec), Failure(p, o))
  {
  }

  lemma {:induction false} CommitKeeps(w: World, m: Machine, b: Books, p: nat, rec: Record)
    requires Ready(m, b, p, rec)
    ensures var (m1, o) := CumemSteps.Commit(w, m.(table := m.table[p := rec]), p, rec);
            Committed(m, b, m1, p, rec, o)
  {
    ReadyMapped(w, m, b, p, rec);
    var (m1, o) := CumemSteps.CreateAndMap(w, m.(table := m.table[p := rec]), p, rec);
    CommitIs(w, m.(table := m.table[p := rec]), p, rec, m1, o);
    assert m1 == m1.(table := m.table).(table := m.table[p := rec]);
    if o == Mapped {
      GrantKeeps(m, m1.(table := m.table), b, p, rec);
    } else {
      FailKeeps(m, m1.(table := m.table), b, p, rec, o);
    }
  }

  /** A range just reserved, lost to everyone so far. */
  ghost predicate Reserved(m: Machine, b: Books, p: nat, size: nat, sizes: seq<nat>) {
    Sound(m, b) && p in b.lost && p !in b.regions && Fits(m.driver, p, sizes) && size == m.driver.reserved[p]
  }

  lemma {:induction false} TakenIsReady(w: World, m: Machine, b: Books, p: nat, size: nat, sizes: seq<nat>)
    requires Reserved(m, b, p, size, sizes) && TakeAll(w, m, |sizes|).1
    ensures var m1 := TakeAll(w, m, |sizes|).0;
            Ready(m1.(asked := m1.asked + 1), b, p, Record(size, sizes, m.nextCell))
  {
    var m1 := TakeAll(w, m, |sizes|).0;
    TakeStep(w, m, b, |sizes|);
    FreshIsDisjoint(m, b, Record(size, sizes, m.nextCell));
    FlagsKeep(m1, b, m1.(asked := m1.asked + 1));
  }

  lemma {:induction false} CommittedLater(m: Machine, b: Books, m1: Machine, m2: Machine, p: nat, rec: Record,
                                          o: MallocOutcome)
    requires Keeps(m, b, m1, b) && m1.driver == m.driver && Committed(m1, b, m2, p, rec, o)
    ensures Committed(m, b, m2, p, rec, o)
  {
  }

  lemma {:induction false} RegisterIs(w: World, m: Machine, p: nat, size: nat, sizes: seq<nat>, m1: Machine,
                                      taken: bool)
    requires sizes != [] && TakeAll(w, m, |sizes|) == (m1, taken)
    ensures var m2, rec := m1.(asked := m1.asked + 1), Record(size, sizes, m.nextCell);
            CumemSteps.Register(w, m, p, size, sizes)
            == if taken && m1.callbacks && w.says(m1.asked)
               then CumemSteps.Commit(w, m2.(table := m2.table[p := rec]), p, rec)
               else (if taken && m1.callbacks then m2 else m1, ReservationLost(p))
  {
  }

  lemma {:induction false} NotRegistered(m: Machine, b: Books, m1: Machine, p: nat, rec: Record)
    requires Keeps(m, b, m1, b) && m1.driver == m.driver
    ensures Committed(m, b, m1, p, rec, ReservationLost(p))
    ensures Committed(m, b, m1.(asked := m1.asked + 1), p, rec, ReservationLost(p))
  {
    FlagsKeep(m1, b, m1.(asked := m1.asked + 1));
  }

  lemma {:induction false} RegisteredKeeps(w: World, m: Machine, b: Books, p: nat, size: nat, sizes: seq<nat>,
                                           m1: Machine)
    requires Reserved(m, b, p, size, sizes) && TakeAll(w, m, |sizes|) == (m1, true) && Keeps(m, b, m1, b)
    requires m1.driver == m.driver
    ensures var m2, rec := m1.(asked := m1.asked + 1), Record(size, sizes, m.nextCell);
            var (m3, o) := CumemSteps.Commit(w, m2.(table := m2.table[p := rec]), p, rec);
            Committed(m, b, m3, p, rec, o)
  {
    var m2, rec := m1.(asked := m1.asked + 1), Record(size, sizes, m.nextCell);
    FlagsKeep(m1, b, m2);
    KeepsTrans(m, b, m1, b, m2, b);
    TakenIsReady(w, m, b, p, size, sizes);
    CommitKeeps(w, m2, b, p, rec);
    var (m3, o) := CumemSteps.Commit(w, m2.(table := m2.table[p := rec]), p, rec);
    CommittedLater(m, b, m2, m3, p, rec, o);
  }

  lemma {:induction false} RegisterKeeps(w: World, m: Machine, b: Books, p: nat, size: nat, sizes: seq<nat>)
    requires Reserved(m, b, p, size, sizes)
    ensures var (m1, o) := CumemSteps.Register(w, m, p, size, sizes);
            Committed(m, b, m1, p, Record(size, sizes, m.nextCell), o)
  {
    var rec := Record(size, sizes, m.nextCell);
    TakeStep(w, m, b, |sizes|);
    var (m1, taken) := TakeAll(w, m, |sizes|);
    RegisterIs(w, m, p, size, sizes, m1, taken);
    if taken && m1.callbacks && w.says(m1.asked) {
      RegisteredKeeps(w, m, b, p, size, sizes, m1);
    } else {
      NotRegistered(m, b, m1, p, rec);
    }
  }

  /** The record my_malloc makes. */
  function NewRecord(w: World, m: Machine, size: nat, setting: Setting): Record
    requires w.granularity > 0
  {
    Record(AlignUp(size, w.granularity), Chunks(size, w.granularity, setting), m.nextCell)
  }

  /** The books after my_malloc. */
  function MallocBooks(w: World, m: Machine, b: Books, size: nat, setting: Setting, o: MallocOutcome): Books
    requires w.granularity > 0
  {
    var rec := NewRecord(w, m, size, setting);
    match o
    case Granted(p) =>
      b.(regions := b.regions[p := Region(rec.sizes, m.driver.nextHandle)], owned := b.owned[p := rec])
    case Refused => b
    case ReservationLost(p) => b.(lost := b.lost + {p})
    case Undone(_, _) => b
    case MappingLost(p) =>
      b.(regions := b.regions[p := Region(rec.sizes, m.driver.nextHandle)], lost := b.lost + {p})
  }

  lemma {:induction false} MallocBooksAre(w: World, m: Machine, b: Books, size: nat, setting: Setting, p: nat,
                                          o: MallocOutcome)
    requires w.granularity > 0 && p !in b.lost && !o.Refused? && o.p == p
    ensures CommitBooks(b.(lost := b.lost + {p}), p, NewRecord(w, m, size, setting), m.driver.nextHandle, o)
            == MallocBooks(w, m, b, size, setting, o)
  {
    assert b.lost + {p} - {p} == b.lost;
  }

  lemma {:induction false} ReservedChunksFit(d: Driver, p: nat, size: nat, g: nat, setting: Setting)
    requires g > 0 && CanReserve(d, p, AlignUp(size, g))
    ensures Fits(d.(reserved := d.reserved[p := AlignUp(size, g)]), p, Chunks(size, g, setting))
  {
    ChunksOfRequest(size, g, setting);
    AlignedToo(size, g);
  }

  /** What my_malloc does to the books and to the loose handles. */
  ghost predicate MallocOk(w: World, m: Machine, b: Books, m1: Machine, size: nat, setting: Setting, o: MallocOutcome)
    requires w.granularity > 0
  {
    && Keeps(m, b, m1, MallocBooks(w, m, b, size, setting, o))
    && Loose(m1.driver) == Loose(m.driver) + MallocLeak(m.driver, o)
    && (o.Refused? || o.p !in m.driver.reserved)
  }

  lemma {:induction false} RegisteredOk(w: World, m: Machine, b: Books, m1: Machine, m2: Machine, size: nat,
                                        setting: Setting, p: nat, o: MallocOutcome)
    requires w.granularity > 0 && p !in b.lost && p !in m.driver.reserved
    requires m1.driver == m.driver.(reserved := m1.driver.reserved) && m1.cells == m.cells
    requires Keeps(m, b, m1, b.(lost := b.lost + {p}))
    requires Committed(m1, b.(lost := b.lost + {p}), m2, p, NewRecord(w, m, size, setting), o)
    ensures MallocOk(w, m, b, m2, size, setting, o)
  {
    MallocBooksAre(w, m, b, size, setting, p, o);
  }

  lemma {:induction false} ReservedKeeps(w: World, m: Machine, b: Books, p: nat, size: nat)
    requires Sound(m, b) && CumemSteps.Reserve(w, m, p, size).1
    ensures p !in b.lost && p !in m.driver.reserved && p !in b.regions
    ensures Keeps(m, b, CumemSteps.Reserve(w, m, p, size).0, b.(lost := b.lost + {p}))
  {
    var m1 := CumemSteps.Reserve(w, m, p, size).0;
    ReserveStep(m, b, p, size);
    FlagsKeep(m.(driver := m1.driver), b.(lost := b.lost + {p}), m1);
  }

  lemma {:induction false} MallocReserved(w: World, m: Machine, b: Books, size: nat, setting: Setting, p: nat)
    requires w.granularity > 0 && Sound(m, b) && CumemSteps.Reserve(w, m, p, AlignUp(size, w.granularity)).1
    ensures Chunks(size, w.granularity, setting) != []
    ensures var m1 := CumemSteps.Reserve(w, m, p, AlignUp(size, w.granularity)).0;
            var (m2, o) := CumemSteps.Register(w, m1, p, AlignUp(size, w.granularity),
                                                Chunks(size, w.granularity, setting));
            MallocOk(w, m, b, m2, size, setting, o)
  {
    var aligned, sizes := AlignUp(size, w.granularity), Chunks(size, w.granularity, setting);
    var m1 := CumemSteps.Reserve(w, m, p, aligned).0;
    ReservedKeeps(w, m, b, p, aligned);
    ReservedChunksFit(m.driver, p, size, w.granularity, setting);
    RegisterKeeps(w, m1, b.(lost := b.lost + {p}), p, aligned, sizes);
    var (m2, o) := CumemSteps.Register(w, m1, p, aligned, sizes);
    RegisteredOk(w, m, b, m1, m2, size, setting, p, o);
  }

  lemma {:induction false} RefusedOk(w: World, m: Machine, b: Books, m1: Machine, size: nat, setting: Setting)
    requires w.granularity > 0 && Sound(m, b) && m1 == m.(errorCode := m1.errorCode, asked := m1.asked)
    ensures MallocOk(w, m, b, m1, size, setting, Refused)
  {
    FlagsKeep(m, b, m1);
  }

  lemma {:induction false} MallocLater(w: World, m: Machine, b: Books, m1: Machine, m2: Machine, size: nat,
                                       setting: Setting, o: MallocOutcome)
    requires w.granularity > 0 && m1 == m.(errorCode := m1.errorCode, asked := m1.asked)
    requires MallocOk(w, m1, b, m2, size, setting, o)
    ensures MallocOk(w, m, b, m2, size, setting, o)
  {
  }

  /** Whatever the driver and the host answer, my_malloc keeps the books right. */
  lemma {:induction false} MallocKeeps(w: World, m: Machine, b: Books, size: nat, setting: Setting, at: nat)
    requires w.granularity > 0 && Sound(m, b)
    ensures var (m1, o) := CumemSteps.MyMalloc(w, m, size, setting, at);
            MallocOk(w, m, b, m1, size, setting, o)
  {
    var m1 := Queried(w, m);
    var (m2, o) := CumemSteps.MyMalloc(w, m, size, setting, at);
    if !m1.errorCode && CumemSteps.Reserve(w, m1, at, AlignUp(size, w.granularity)).1 {
      FlagsKeep(m, b, m1);
      MallocReserved(w, m1, b, size, setting, at);
      MallocLater(w, m, b, m1, m2, size, setting, o);
    } else {
      RefusedOk(w, m, b, m2, size, setting);
    }
  }

  // ----- my_free -----

  /** What unmap_and_release does to an owned range. */
  lemma {:induction false} TeardownStep(w: World, m: Machine, b: Books, p: nat)
    requires Sound(m, b) && p in b.owned
    ensures HasCells(m.cells, b.owned[p].cell0, |b.owned[p].sizes|)
    ensures var m1 := CumemSteps.UnmapAndRelease(w, m, p, b.owned[p]);
            && Keeps(m, b, m1, AsleepBooks(b, p)) && m1.driver == Teardown(m.driver, p, b.owned[p], m.cells)
            && m1 == m.(driver := m1.driver, errorCode := m1.errorCode, asked := m1.asked)
  {
    TeardownKeeps(m, b, p);
    FlagsKeep(m.(driver := Teardown(m.driver, p, b.owned[p], m.cells)), AsleepBooks(b, p),
              CumemSteps.UnmapAndRelease(w, m, p, b.owned[p]));
  }

  /** The books after my_free. */
  function FreeBooks(b: Books, p: nat, o: FreeOutcome): Books {
    match o
    case NotFound => b
    case HostFailure(held) => if held then DisownBooks(b, p) else b
    case DanglingCells => b
    case Freed(returned) =>
      b.(regions := b.regions - {p}, owned := b.owned - {p}, lost := if returned then b.lost else b.lost + {p})
  }

  lemma {:induction false} FreedBooksAre(b: Books, p: nat, returned: bool)
    requires p !in b.lost && p !in b.regions
    ensures var b1 := DisownBooks(b, p);
            FreeBooks(b, p, Freed(returned)) == if returned then b1.(lost := b1.lost - {p}) else b1
  {
    assert b.lost + {p} - {p} == b.lost;
    assert b.regions - {p} == b.regions;
  }

  /** Unmapped and disowned, the range is given back if the size is right, and its cells are freed. */
  lemma {:induction false} ReturnStep(m: Machine, b: Books, p: nat, size: nat)
    requires Sound(m, b) && p in b.owned && p !in b.regions
    ensures var m1 := m.(table := m.table - {p});
            && (CanFreeAddress(m.driver, p, size) <==> size == b.owned[p].size)
            && Keeps(m, b, DropCells(GiveBack(m1, p, size), b.owned[p]),
                     FreeBooks(b, p, Freed(CanFreeAddress(m.driver, p, size))))
  {
    var m1, b1 := m.(table := m.table - {p}), DisownBooks(b, p);
    assert OwnerOk(m, b, p);
    DisownStep(m, b, p);
    GiveBackAndDrop(m1, b1, p, size, b.owned[p]);
    FreedBooksAre(b, p, CanFreeAddress(m.driver, p, size));
    KeepsTrans(m, b, m1, b1, DropCells(GiveBack(m1, p, size), b.owned[p]),
               FreeBooks(b, p, Freed(CanFreeAddress(m.driver, p, size))));
  }

  /** An entry of the table has its cells if and only if the client holds the pointer. */
  lemma {:induction false} HeldIffCells(m: Machine, b: Books, p: nat)
    requires Sound(m, b) && p in m.table
    ensures HasCells(m.cells, m.table[p].cell0, |m.table[p].sizes|) <==> p in b.owned
    ensures m.table[p].sizes != [] && (p in b.owned ==> m.table[p] == b.owned[p])
  {
    if p in b.owned {
      assert OwnerOk(m, b, p);
      HasItsCells(m.driver, m.cells, b.regions, p, b.owned[p]);
    } else {
      assert StaleOk(m, p);
    }
  }

  /** What my_free does to the books and to the loose handles. */
  ghost predicate FreeOk(m: Machine, b: Books, m1: Machine, p: nat, size: nat, o: FreeOutcome) {
    && Keeps(m, b, m1, FreeBooks(b, p, o))
    && (o.Freed? ==>
          && p in b.owned && (o.returned <==> size == b.owned[p].size)
          && (Loose(m1.driver) <= Loose(m.driver) <==> Intact(m.cells, b.regions, p, b.owned[p].cell0)))
    && (!o.Freed? ==> m1.driver == m.driver)
    && (o.HostFailure? && o.held ==> p in b.owned)
  }

  lemma {:induction false} ReleaseIgnoresTable(w: World, m: Machine, p: nat, rec: Record, t: map<nat, Record>)
    requires HasCells(m.cells, rec.cell0, |rec.sizes|)
    ensures CumemSteps.UnmapAndRelease(w, m.(table := t), p, rec)
            == CumemSteps.UnmapAndRelease(w, m, p, rec).(table := t)
  {
  }

  lemma {:induction false} GiveBackLoose(m: Machine, p: nat, size: nat, rec: Record)
    ensures Loose(DropCells(GiveBack(m, p, size), rec).driver) == Loose(m.driver)
  {
  }

  lemma {:induction false} AsleepFree(b: Books, p: nat, returned: bool)
    ensures FreeBooks(AsleepBooks(b, p), p, Freed(returned)) == FreeBooks(b, p, Freed(returned))
  {
    assert b.regions - {p} - {p} == b.regions - {p};
  }

  lemma {:induction false} FreedKeeps(w: World, m: Machine, b: Books, p: nat, size: nat)
    requires Sound(m, b) && p in b.owned
    ensures HasCells(m.cells, b.owned[p].cell0, |b.owned[p].sizes|)
    ensures var m1 := CumemSteps.UnmapAndRelease(w, m.(table := m.table - {p}), p, b.owned[p]);
            var m2, returned := DropCells(GiveBack(m1, p, size), b.owned[p]), CanFreeAddress(m1.driver, p, size);
            && Keeps(m, b, m2, FreeBooks(b, p, Freed(returned))) && (returned <==> size == b.owned[p].size)
            && Loose(m2.driver) == Loose(Teardown(m.driver, p, b.owned[p], m.cells))
  {
    TeardownStep(w, m, b, p);
    var m1, b1 := CumemSteps.UnmapAndRelease(w, m, p, b.owned[p]), AsleepBooks(b, p);
    ReturnStep(m1, b1, p, size);
    ReleaseIgnoresTable(w, m, p, b.owned[p], m.table - {p});
    AsleepFree(b, p, CanFreeAddress(m1.driver, p, size));
    GiveBackLoose(m1.(table := m1.table - {p}), p, size, b.owned[p]);
    var m2 := DropCells(GiveBack(m1.(table := m1.table - {p}), p, size), b.owned[p]);
    KeepsTrans(m, b, m1, b1, m2, FreeBooks(b, p, Freed(CanFreeAddress(m1.driver, p, size))));
  }

  lemma {:induction false} FreeIs(w: World, m: Machine, p: nat, size: nat)
    requires m.callbacks && p in m.table && Arrays(w, m.asked)
    requires HasCells(m.cells, m.table[p].cell0, |m.table[p].sizes|)
    ensures var m1 := CumemSteps.UnmapAndRelease(w, Asked(w, m).(table := m.table - {p}), p, m.table[p]);
            CumemSteps.MyFree(w, m, p, size)
            == (DropCells(GiveBack(m1, p, size), m.table[p]), Freed(CanFreeAddress(m1.driver, p, size)))
  {
  }

  lemma {:induction false} FreeHeld(w: World, m: Machine, b: Books, p: nat, size: nat)
    requires Sound(m, b) && m.callbacks && p in b.owned && p in m.table && Arrays(w, m.asked)
    ensures var (m1, o) := CumemSteps.MyFree(w, m, p, size); FreeOk(m, b, m1, p, size, o)
  {
    var m1 := Asked(w, m);
    HeldIffCells(m, b, p);
    FlagsKeep(m, b, m1);
    FreeIs(w, m, p, size);
    FreedKeeps(w, m1, b, p, size);
    TeardownLeaksIff(m, b, p);
    var (m2, o) := CumemSteps.MyFree(w, m, p, size);
    KeepsTrans(m, b, m1, b, m2, FreeBooks(b, p, o));
  }

  lemma {:induction false} EntryGone(m: Machine, b: Books, p: nat, asked: nat)
    requires Sound(m, b)
    ensures Keeps(m, b, m.(table := m.table - {p}, asked := asked), if p in b.owned then DisownBooks(b, p) else b)
  {
    var m1 := m.(asked := asked);
    FlagsKeep(m, b, m1);
    if p in b.owned {
      DisownStep(m1, b, p);
    } else {
      StaleGoneStep(m1, b, p);
    }
    KeepsTrans(m, b, m1, b, m1.(table := m1.table - {p}), if p in b.owned then DisownBooks(b, p) else b);
  }

  lemma {:induction false} FreeOther(w: World, m: Machine, b: Books, p: nat, size: nat)
    requires Sound(m, b) && m.callbacks && p in m.table && (p !in b.owned || !Arrays(w, m.asked))
    ensures var (m1, o) := CumemSteps.MyFree(w, m, p, size); FreeOk(m, b, m1, p, size, o)
  {
    HeldIffCells(m, b, p);
    EntryGone(m, b, p, CumemSteps.MyFree(w, m, p, size).0.asked);
  }

  /** Whatever the host answers, my_free keeps the books right. */
  lemma {:induction false} FreeKeeps(w: World, m: Machine, b: Books, p: nat, size: nat)
    requires Sound(m, b)
    ensures var (m1, o) := CumemSteps.MyFree(w, m, p, size); FreeOk(m, b, m1, p, size, o)
  {
    if m.callbacks && p in m.table {
      if p in b.owned && Arrays(w, m.asked) {
        FreeHeld(w, m, b, p, size);
      } else {
        FreeOther(w, m, b, p, size);
      }
    }
  }
}
