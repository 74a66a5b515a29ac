/**
  What the client of the allocator can rely on in every reachable state, and which answers of driver and
  host lead to which outcome.
*/
module CumemClient {
  import opened ChunkTiling
  import opened CumemDriver
  import opened CumemSteps
  import opened CumemSafety
  import opened CumemTeardown
  import opened CumemBooks
  import opened CumemOperations
  import opened CumemSleepWake

  // ----- In every reachable state -----

  /** An allocation is wholly mapped or wholly unmapped, byte by byte. */
  lemma {:induction false} AllocationIsWhole(m: Machine, b: Books, p: nat, x: nat)
    requires Sound(m, b) && p in b.owned && p <= x < p + b.owned[p].size
    ensures p in b.regions <==> exists a :: a in m.driver.mapped && a <= x < a + m.driver.mapped[a].size
  {
    assert OwnerOk(m, b, p);
    WhollyMappedOrNot(m.driver, b.regions, p, x);
  }

  /** Two allocations share no byte and no host cell. */
  lemma {:induction false} AllocationsDisjoint(m: Machine, b: Books, p: nat, q: nat)
    requires Sound(m, b) && p in b.owned && q in b.owned && p < q
    ensures p + b.owned[p].size <= q && Disjoint(b.owned[p], b.owned[q])
  {
    assert OwnerOk(m, b, p) && OwnerOk(m, b, q);
  }

  /**
    While a range is mapped, chunk `k` is mapped by the handle `h0 + k`; its cells hold those handles if and
    only if the first one does.
  */
  lemma {:induction false} HandlesOfMapped(m: Machine, b: Books, p: nat, k: nat)
    requires Sound(m, b) && p in b.owned && p in b.regions && k < |b.owned[p].sizes|
    ensures var rec, h0 := b.owned[p], b.regions[p].h0;
            && TileOk(m.driver, p, rec.sizes, h0, k)
            && (Intact(m.cells, b.regions, p, rec.cell0) <==> Holds(m.cells, rec.cell0, h0, |rec.sizes|))
  {
    assert OwnerOk(m, b, p);
    assert RegionOk(m.driver, p, b.regions[p]);
  }

  /** While a range is asleep no cell of it reaches mapped memory; a live handle in one is a leaked one. */
  lemma {:induction false} HandlesOfSleeping(m: Machine, b: Books, p: nat, k: nat)
    requires Sound(m, b) && p in b.owned && p !in b.regions && k < |b.owned[p].sizes|
    ensures var c := b.owned[p].cell0 + k;
            c in m.cells && (m.cells[c] in m.driver.live <==> m.cells[c] in Loose(m.driver))
  {
    assert OwnerOk(m, b, p);
    assert CellOk(m.driver, m.cells, b.regions, p, b.owned[p].cell0, b.owned[p].cell0 + k);
  }

  // ----- Which answers lead to which outcome -----

  /** How my_malloc ends once the range is reserved. */
  function RegisterAnswer(w: World, callbacks: bool, latched: bool, t: nat, p: nat, n: nat): MallocOutcome {
    if Yes(w.says, t, n) < n || !callbacks || !w.says(t + n) then ReservationLost(p)
    else Final(p, MapAnswer(w, latched, t + n + 1, false, n))
  }

  function Final(p: nat, o: Outcome): MallocOutcome {
    if o == Mapped then Granted(p) else Failure(p, o)
  }

  /** How my_malloc ends: the answers alone decide. */
  function MallocAnswer(w: World, m: Machine, size: nat, setting: Setting, at: nat): MallocOutcome
    requires w.granularity > 0
  {
    var q := Queried(w, m);
    if q.errorCode || !w.says(q.asked) || !CanReserve(m.driver, at, AlignUp(size, w.granularity)) then Refused
    else RegisterAnswer(w, m.callbacks, false, q.asked + 1, at, |Chunks(size, w.granularity, setting)|)
  }

  /** The record goes into the table. */
  function Entered(m: Machine, p: nat, rec: Record): Machine {
    m.(table := m.table[p := rec])
  }

  lemma {:induction false} CommitExact(w: World, m: Machine, b: Books, p: nat, rec: Record, latched: bool, t: nat)
    requires Ready(m, b, p, rec) && m.errorCode == latched && m.asked == t
    ensures CumemSteps.Commit(w, Entered(m, p, rec), p, rec).1 == Final(p, MapAnswer(w, latched, t, false, |rec.sizes|))
  {
    MapEnds(w, Entered(m, p, rec), b.regions, p, rec);
    var (m2, o) := CumemSteps.CreateAndMap(w, Entered(m, p, rec), p, rec);
    CommitIs(w, Entered(m, p, rec), p, rec, m2, o);
  }

  lemma {:induction false} TakeIs(w: World, m: Machine, n: nat)
    ensures var (m1, taken) := TakeAll(w, m, n);
            && (taken <==> Yes(w.says, m.asked, n) == n) && (taken ==> m1.asked == m.asked + n)
            && m1.callbacks == m.callbacks && m1.errorCode == m.errorCode
  {
  }

  lemma {:induction false} RegisterOutcome(w: World, m: Machine, p: nat, size: nat, sizes: seq<nat>, m1: Machine,
                                           taken: bool, commit: MallocOutcome)
    requires sizes != [] && TakeAll(w, m, |sizes|) == (m1, taken)
    requires var rec := Record(size, sizes, m.nextCell);
             taken ==> commit == CumemSteps.Commit(w, Entered(m1.(asked := m1.asked + 1), p, rec), p, rec).1
    ensures CumemSteps.Register(w, m, p, size, sizes).1
            == if !taken || !m1.callbacks || !w.says(m1.asked) then ReservationLost(p) else commit
  {
    RegisterIs(w, m, p, size, sizes, m1, taken);
  }

  lemma {:induction false} RegisterJoin(w: World, callbacks: bool, latched: bool, t: nat, p: nat, n: nat,
                                        taken: bool, u: nat, commit: MallocOutcome, r: MallocOutcome)
    requires (taken <==> Yes(w.says, t, n) == n) && (taken ==> u == t + n)
    requires r == if !taken || !callbacks || !w.says(u) then ReservationLost(p) else commit
    requires taken ==> commit == Final(p, MapAnswer(w, latched, u + 1, false, n))
    ensures r == RegisterAnswer(w, callbacks, latched, t, p, n)
  {
  }

  lemma {:induction false} RegisterFrom(w: World, m: Machine, p: nat, n: nat, m1: Machine, taken: bool,
                                        commit: MallocOutcome, r: MallocOutcome)
    requires TakeAll(w, m, n) == (m1, taken)
    requires r == if !taken || !m1.callbacks || !w.says(m1.asked) then ReservationLost(p) else commit
    requires taken ==> commit == Final(p, MapAnswer(w, m.errorCode, m1.asked + 1, false, n))
    ensures r == RegisterAnswer(w, m.callbacks, m.errorCode, m.asked, p, n)
  {
    TakeIs(w, m, n);
    RegisterJoin(w, m.callbacks, m.errorCode, m.asked, p, n, taken, m1.asked, commit, r);
  }

  lemma {:induction false} RegisterExact(w: World, m: Machine, b: Books, p: nat, size: nat, sizes: seq<nat>)
    requires Reserved(m, b, p, size, sizes)
    ensures CumemSteps.Register(w, m, p, size, sizes).1
            == RegisterAnswer(w, m.callbacks, m.errorCode, m.asked, p, |sizes|)
  {
    var (m1, taken) := TakeAll(w, m, |sizes|);
    var r := CumemSteps.Register(w, m, p, size, sizes).1;
    if taken {
      var m2, rec := m1.(asked := m1.asked + 1), Record(size, sizes, m.nextCell);
      var commit := CumemSteps.Commit(w, Entered(m2, p, rec), p, rec).1;
      TakenIsReady(w, m, b, p, size, sizes);
      CommitExact(w, m2, b, p, rec, m.errorCode, m1.asked + 1);
      RegisterOutcome(w, m, p, size, sizes, m1, taken, commit);
      RegisterFrom(w, m, p, |sizes|, m1, taken, commit, r);
    } else {
      RegisterOutcome(w, m, p, size, sizes, m1, taken, Refused);
      RegisterFrom(w, m, p, |sizes|, m1, taken, Refused, r);
    }
  }

  lemma {:induction false} MallocIs(w: World, m: Machine, size: nat, setting: Setting, at: nat)
    requires w.granularity > 0
    ensures var q, aligned, sizes := Queried(w, m), AlignUp(size, w.granularity), Chunks(size, w.granularity, setting);
            var (m1, reserved) := CumemSteps.Reserve(w, q, at, aligned);
            && (!q.errorCode && reserved ==> sizes != [])
            && CumemSteps.MyMalloc(w, m, size, setting, at).1
               == (if q.errorCode || !reserved then Refused else CumemSteps.Register(w, m1, at, aligned, sizes).1)
            && (reserved <==> w.says(q.asked) && CanReserve(m.driver, at, aligned)) && m1.asked == q.asked + 1
            && m1.callbacks == m.callbacks && (reserved ==> m1.errorCode == q.errorCode)
  {
    ChunksOfRequest(size, w.granularity, setting);
    AlignedToo(size, w.granularity);
  }

  lemma {:induction false} ReserveIsReserved(w: World, m: Machine, b: Books, size: nat, setting: Setting, at: nat)
    requires w.granularity > 0 && Sound(m, b) && CumemSteps.Reserve(w, m, at, AlignUp(size, w.granularity)).1
    ensures Reserved(CumemSteps.Reserve(w, m, at, AlignUp(size, w.granularity)).0, b.(lost := b.lost + {at}), at,
                     AlignUp(size, w.granularity), Chunks(size, w.granularity, setting))
  {
    ReservedKeeps(w, m, b, at, AlignUp(size, w.granularity));
    ReservedChunksFit(m.driver, at, size, w.granularity, setting);
  }

  lemma {:induction false} MallocJoin(w: World, m: Machine, size: nat, setting: Setting, at: nat,
                                      registered: MallocOutcome, r: MallocOutcome)
    requires w.granularity > 0
    requires var q := Queried(w, m);
             var reserved := w.says(q.asked) && CanReserve(m.driver, at, AlignUp(size, w.granularity));
             && r == (if q.errorCode || !reserved then Refused else registered)
             && (!q.errorCode && reserved ==>
                   registered ==
                     RegisterAnswer(w, m.callbacks, false, q.asked + 1, at, |Chunks(size, w.granularity, setting)|))
    ensures r == MallocAnswer(w, m, size, setting, at)
  {
  }

  lemma {:induction false} ReservedExact(w: World, m: Machine, b: Books, size: nat, setting: Setting, at: nat)
    requires w.granularity > 0 && Sound(m, b) && CumemSteps.Reserve(w, m, at, AlignUp(size, w.granularity)).1
    ensures var m1, aligned, sizes := CumemSteps.Reserve(w, m, at, AlignUp(size, w.granularity)).0,
                                      AlignUp(size, w.granularity), Chunks(size, w.granularity, setting);
            && sizes != []
            && CumemSteps.Register(w, m1, at, aligned, sizes).1
               == RegisterAnswer(w, m1.callbacks, m1.errorCode, m1.asked, at, |sizes|)
  {
    ReserveIsReserved(w, m, b, size, setting, at);
    RegisterExact(w, CumemSteps.Reserve(w, m, at, AlignUp(size, w.granularity)).0, b.(lost := b.lost + {at}), at,
                  AlignUp(size, w.granularity), Chunks(size, w.granularity, setting));
  }

  /** The outcome of my_malloc, for every request and every sequence of answers. */
  lemma {:induction false} MallocExact(w: World, m: Machine, b: Books, size: nat, setting: Setting, at: nat)
    requires w.granularity > 0 && Sound(m, b)
    ensures CumemSteps.MyMalloc(w, m, size, setting, at).1 == MallocAnswer(w, m, size, setting, at)
  {
    var q, aligned, sizes := Queried(w, m), AlignUp(size, w.granularity), Chunks(size, w.granularity, setting);
    MallocIs(w, m, size, setting, at);
    var (m1, reserved) := CumemSteps.Reserve(w, q, at, aligned);
    if !q.errorCode && reserved {
      FlagsKeep(m, b, q);
      ReservedExact(w, q, b, size, setting, at);
      MallocJoin(w, m, size, setting, at, CumemSteps.Register(w, m1, at, aligned, sizes).1,
                 CumemSteps.MyMalloc(w, m, size, setting, at).1);
    } else {
      MallocJoin(w, m, size, setting, at, Refused, CumemSteps.MyMalloc(w, m, size, setting, at).1);
    }
  }

  /** The outcome of my_free, for every pointer and size. */
  lemma {:induction false} FreeExact(w: World, m: Machine, b: Books, p: nat, size: nat)
    requires Sound(m, b)
    ensures CumemSteps.MyFree(w, m, p, size).1
            == if !m.callbacks || p !in m.table then NotFound
               else if !Arrays(w, m.asked) then HostFailure(p in b.owned)
               else if p !in b.owned then DanglingCells else Freed(size == b.owned[p].size)
  {
    if m.callbacks && p in m.table {
      HeldIffCells(m, b, p);
      FreeKeeps(w, m, b, p, size);
    }
  }

  lemma {:induction false} WakeIs(w: World, m: Machine, p: nat)
    requires p in m.table && m.table[p].sizes != [] && HasCells(m.cells, m.table[p].cell0, |m.table[p].sizes|)
    ensures !Arrays(w, m.asked) ==> Wakes(w, m, p).1 == NoHostMemory
    ensures Arrays(w, m.asked) ==>
              var (m1, o) := CumemSteps.CreateAndMap(w, m.(asked := m.asked + 2), p, m.table[p]);
              Wakes(w, m, p) == (m1.(errorCode := false), Woke(p in m.driver.mapped, o))
  {
  }

  /** The outcome of waking, for every held pointer, awake or asleep. */
  lemma {:induction false} WakeExact(w: World, m: Machine, b: Books, p: nat)
    requires Sound(m, b) && p in m.table && p in b.owned
    ensures Wakes(w, m, p).1
            == if !Arrays(w, m.asked) then NoHostMemory
               else Woke(p in b.regions, MapAnswer(w, m.errorCode, m.asked + 2, p in b.regions, |b.owned[p].sizes|))
  {
    HeldIffCells(m, b, p);
    WakeIs(w, m, p);
    FlagsKeep(m, b, m.(asked := m.asked + 2));
    WakeEnds(w, m.(asked := m.asked + 2), b, p);
  }

  // ----- A latched error -----

  /** While an error is latched nothing is granted, whatever the answers. */
  lemma {:induction false} LatchedRefuses(w: World, m: Machine, size: nat, setting: Setting, at: nat)
    requires w.granularity > 0 && m.errorCode
    ensures CumemSteps.MyMalloc(w, m, size, setting, at).1 == Refused
  {
  }

  /** And waking a range leaks a handle if the driver is willing to create one. */
  lemma {:induction false} LatchedWakeLeaks(w: World, m: Machine, b: Books, p: nat)
    requires Sound(m, b) && m.errorCode && p in m.table && p in b.owned && Arrays(w, m.asked)
    ensures Wakes(w, m, p).1 == Woke(p in b.regions, HandleLeaked) <==> w.says(Context(w, true, m.asked + 2).1)
  {
    WakeExact(w, m, b, p);
  }

  lemma {:induction false} FreeLatch(w: World, m: Machine, b: Books, p: nat, size: nat)
    requires Sound(m, b) && m.callbacks && p in m.table && p in b.owned && Arrays(w, m.asked)
    ensures HasCells(m.cells, b.owned[p].cell0, |b.owned[p].sizes|)
    ensures CumemSteps.MyFree(w, m, p, size).0.errorCode
            <==> || Context(w, m.errorCode, m.asked + 2).0 || !TeardownClean(m.driver, p, b.owned[p], m.cells)
                 || size != b.owned[p].size
  {
    HeldIffCells(m, b, p);
    FreeIs(w, m, p, size);
    FreeExact(w, m, b, p, size);
  }

  /**
    my_free latches an error if and only if one was latched, the context fails, the range is asleep, its cells
    are not releasable, or the size is wrong; nothing clears it before the next sleep or wake.
  */
  lemma {:induction false} FreeLatchesIff(w: World, m: Machine, b: Books, p: nat, size: nat)
    requires Sound(m, b) && m.callbacks && p in m.table && p in b.owned && Arrays(w, m.asked)
    ensures CumemSteps.MyFree(w, m, p, size).0.errorCode
            <==> || Context(w, m.errorCode, m.asked + 2).0 || p !in b.regions || size != b.owned[p].size
                 || !Releasable(m.driver.live.Keys, m.cells, b.owned[p].cell0, |b.owned[p].sizes|)
  {
    FreeLatch(w, m, b, p, size);
    TeardownCleanIff(m, b, p);
  }

  lemma {:induction false} RegisterLatches(w: World, m: Machine, p: nat, size: nat, sizes: seq<nat>)
    requires sizes != [] && !m.errorCode
    ensures var (m1, o) := CumemSteps.Register(w, m, p, size, sizes);
            m1.errorCode <==> !o.Granted? && !o.ReservationLost?
  {
    var rec := Record(size, sizes, m.nextCell);
    var (m1, taken) := TakeAll(w, m, |sizes|);
    if taken {
      var (m2, announced) := CumemSteps.Announce(w, m1, p, rec);
      if announced {
        CommitLatches(w, m2, p, rec);
      }
    }
  }

  lemma {:induction false} CommitLatches(w: World, m: Machine, p: nat, rec: Record)
    requires rec.sizes != []
    ensures var (m1, o) := CumemSteps.Commit(w, m, p, rec); !o.ReservationLost? && (m1.errorCode <==> !o.Granted?)
  {
  }

  /** my_malloc leaves an error latched exactly if it fails for another reason than the host: those print and return. */
  lemma {:induction false} MallocLatchesIff(w: World, m: Machine, size: nat, setting: Setting, at: nat)
    requires w.granularity > 0
    ensures var (m1, o) := CumemSteps.MyMalloc(w, m, size, setting, at);
            m1.errorCode <==> !o.Granted? && !o.ReservationLost?
  {
    var m1 := Queried(w, m);
    if !m1.errorCode {
      var (m2, reserved) := CumemSteps.Reserve(w, m1, at, AlignUp(size, w.granularity));
      if reserved {
        ChunksOfRequest(size, w.granularity, setting);
        AlignedToo(size, w.granularity);
        RegisterLatches(w, m2, at, AlignUp(size, w.granularity), Chunks(size, w.granularity, setting));
      }
    }
  }

  // ----- Every failing outcome happens -----

  /** A driver and a host that refuse question `i` and nothing else. */
  function But(i: nat): World {
    World(1, t => t != i, _ => 0)
  }

  const Started := Fresh.(callbacks := true)

  lemma {:induction false} OneChunk()
    ensures |Chunks(1, 1, Unset)| == 1 && AlignUp(1, 1) == 1
  {
  }

  lemma {:induction false} StartedIsSound()
    ensures Sound(Started, Books(map[], map[], {}))
  {
  }

  lemma {:induction false} FirstAnswer(w: World, m: Machine, size: nat, setting: Setting, at: nat)
    requires w.granularity > 0 && AlignUp(size, w.granularity) > 0 && m.driver.reserved == map[] && m.callbacks
    requires !m.errorCode
    requires w.says(m.asked) && w.says(m.asked + 1) && w.says(m.asked + 2) && w.says(m.asked + 3)
    ensures MallocAnswer(w, m, size, setting, at)
            == RegisterAnswer(w, true, false, m.asked + 4, at, |Chunks(size, w.granularity, setting)|)
  {
  }

  /** What the first my_malloc answers, once the range is reserved. */
  lemma {:induction false} FirstMalloc(w: World, m: Machine, b: Books, size: nat, setting: Setting, at: nat, n: nat)
    requires w.granularity > 0 && AlignUp(size, w.granularity) > 0 && n == |Chunks(size, w.granularity, setting)|
    requires Sound(m, b) && m.driver.reserved == map[] && m.callbacks && !m.errorCode
    requires w.says(m.asked) && w.says(m.asked + 1) && w.says(m.asked + 2) && w.says(m.asked + 3)
    ensures CumemSteps.MyMalloc(w, m, size, setting, at).1 == RegisterAnswer(w, true, false, m.asked + 4, at, n)
  {
    FirstAnswer(w, m, size, setting, at);
    MallocExact(w, m, b, size, setting, at);
  }

  /** What a refusal of question `t + i` does to the first allocation, in one chunk. */
  lemma {:induction false} RefusedAt(w: World, t: nat, i: nat, at: nat, n: nat)
    requires w == But(t + i) && n == 1 && i >= 4
    ensures RegisterAnswer(w, true, false, t + 4, at, n) == AnswerTo(i, at)
  {
  }

  function AnswerTo(i: nat, at: nat): MallocOutcome {
    if i == 4 || i == 5 then ReservationLost(at)       // a host cell, the callback
    else if i == 6 then Undone(at, HandleLeaked)       // the context
    else if i == 7 then Granted(at)                    // no current context: one is set
    else if i == 8 then Undone(at, RolledBack(0))      // the creation
    else if i == 9 then Undone(at, RolledBack(1))      // the mapping
    else if i == 10 then MappingLost(at)               // the access rights
    else Granted(at)
  }

  /**
    Each failing outcome happens: for a process that holds nothing and a request of one chunk, the one
    refusal that brings it about.
  */
  lemma {:induction false} FailuresHappen(w: World, m: Machine, b: Books, size: nat, setting: Setting, at: nat, i: nat)
    requires w == But(m.asked + i) && Sound(m, b) && m.driver.reserved == map[] && m.callbacks && !m.errorCode
    requires AlignUp(size, 1) > 0 && |Chunks(size, 1, setting)| == 1 && i >= 4
    ensures CumemSteps.MyMalloc(w, m, size, setting, at).1 == AnswerTo(i, at)
  {
    RefusedAt(w, m.asked, i, at, |Chunks(size, 1, setting)|);
    FirstMalloc(w, m, b, size, setting, at, |Chunks(size, 1, setting)|);
  }

  /** In particular for the first byte a process asks for. */
  lemma {:induction false} FirstByteFails(w: World, m: Machine, b: Books, size: nat, setting: Setting, at: nat, i: nat)
    requires w == But(m.asked + i) && m == Started && b == Books(map[], map[], {}) && size == 1 && setting == Unset
    requires i >= 4
    ensures CumemSteps.MyMalloc(w, m, size, setting, at).1 == AnswerTo(i, at)
  {
    StartedIsSound();
    OneChunk();
    FailuresHappen(w, m, b, size, setting, at, i);
  }
}
