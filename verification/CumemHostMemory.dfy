/**
  Host memory: each chunk of an allocation has a host cell that holds its driver handle.  Every call takes,
  keeps and frees the cells it should, so no cell outlives its allocation unless a reply says so.
*/
module CumemHostMemory {
  import opened ChunkTiling
  import opened CumemDriver
  import opened CumemSteps
  import opened CumemSafety
  import opened CumemBooks
  import opened CumemOperations
  import opened CumemRuns

  /** Cells are handed out from `nextCell` on. */
  ghost predicate CellsBelow(m: Machine) {
    forall c <- m.cells :: c < m.nextCell
  }

  ghost predicate CellOf(rec: Record, c: nat) {
    rec.cell0 <= c < rec.cell0 + |rec.sizes|
  }

  /** `c` is allocated and belongs to no allocation that the client holds. */
  ghost predicate Stray(m: Machine, b: Books, c: nat) {
    c in m.cells && forall p <- b.owned :: !CellOf(b.owned[p], c)
  }

  /** The replies after which a host cell may have no owner any more. */
  predicate LosesCells(r: Reply) {
    || (r.Malloced? && r.m.ReservationLost?)
    || (r.FreeReply? && r.f.HostFailure? && r.f.held)
  }

  /** No cell loses its owner, and no new one lacks one. */
  ghost predicate CellsKept(m: Machine, b: Books, m1: Machine, b1: Books) {
    CellsBelow(m1) && forall c: nat :: Stray(m1, b1, c) <==> Stray(m, b, c)
  }

  // ----- What each call does to the cells -----

  /** create_and_map overwrites cells of the range and takes none. */
  lemma {:induction false} MapCells(w: World, m: Machine, p: nat, rec: Record)
    requires rec.sizes != [] && HasCells(m.cells, rec.cell0, |rec.sizes|)
    ensures var m1 := CumemSteps.CreateAndMap(w, m, p, rec).0;
            m1.cells.Keys == m.cells.Keys && m1.nextCell == m.nextCell
  {
    var m1 := InContext(w, m);
    var c := Yes(w.says, m1.asked, |rec.sizes|);
    var n := if c < |rec.sizes| then c else |rec.sizes|;
    StoredIs(m.cells, rec.cell0, m.driver.nextHandle, n);
    assert Stored(m.cells, rec.cell0, m.driver.nextHandle, n).Keys == m.cells.Keys;
  }

  lemma {:induction false} TakeCells(w: World, m: Machine, n: nat)
    requires CellsBelow(m)
    ensures var (m1, taken) := TakeAll(w, m, n);
            && CellsBelow(m1) && m1.table == m.table
            && m1.cells.Keys == m.cells.Keys + (if taken then HandleRange(m.nextCell, n) else {})
            && (taken ==> m1.nextCell == m.nextCell + n)
  {
    var k := Yes(w.says, m.asked, n);
    TakenIs(m.cells, w.junk, m.nextCell, k);
    var taken := Taken(m.cells, w.junk, m.nextCell, k);
    assert taken.Keys == m.cells.Keys + HandleRange(m.nextCell, k);
    assert Dropped(taken, m.nextCell, k).Keys == m.cells.Keys;
  }

  /** Once the record is in the table: the cells stay if and only if the range is granted. */
  lemma {:induction false} CommitCells(w: World, m: Machine, p: nat, rec: Record)
    requires rec.sizes != [] && HasCells(m.cells, rec.cell0, |rec.sizes|)
    ensures var (m1, o) := CumemSteps.Commit(w, m, p, rec);
            && m1.nextCell == m.nextCell
            && m1.cells.Keys == if o.Granted? then m.cells.Keys else m.cells.Keys - HandleRange(rec.cell0, |rec.sizes|)
  {
    MapCells(w, m, p, rec);
  }

  lemma {:induction false} RegisterCells(w: World, m: Machine, p: nat, size: nat, sizes: seq<nat>)
    requires sizes != [] && CellsBelow(m)
    ensures var (m1, o) := CumemSteps.Register(w, m, p, size, sizes);
            && CellsBelow(m1)
            && (!o.ReservationLost? ==>
                  m1.cells.Keys == m.cells.Keys + if o.Granted? then HandleRange(m.nextCell, |sizes|) else {})
  {
    var rec := Record(size, sizes, m.nextCell);
    var (m1, taken) := TakeAll(w, m, |sizes|);
    TakeCells(w, m, |sizes|);
    if taken {
      var (m2, announced) := CumemSteps.Announce(w, m1, p, rec);
      if announced {
        CommitCells(w, m2, p, rec);
        assert m.cells.Keys + HandleRange(m.nextCell, |sizes|) - HandleRange(m.nextCell, |sizes|) == m.cells.Keys;
      }
    }
  }

  /** my_malloc: one fresh cell per chunk if the range is granted, and none if it is refused or undone. */
  lemma {:induction false} MallocCells(w: World, m: Machine, size: nat, setting: Setting, at: nat)
    requires w.granularity > 0 && CellsBelow(m)
    ensures var (m1, o) := CumemSteps.MyMalloc(w, m, size, setting, at);
            var n := |Chunks(size, w.granularity, setting)|;
            && CellsBelow(m1)
            && (!o.ReservationLost? ==>
                  m1.cells.Keys == m.cells.Keys + if o.Granted? then HandleRange(m.nextCell, n) else {})
  {
    var m1 := Queried(w, m);
    if !m1.errorCode {
      var (m2, reserved) := CumemSteps.Reserve(w, m1, at, AlignUp(size, w.granularity));
      if reserved {
        ChunksOfRequest(size, w.granularity, setting);
        AlignedToo(size, w.granularity);
        RegisterCells(w, m2, at, AlignUp(size, w.granularity), Chunks(size, w.granularity, setting));
      }
    }
  }

  /** my_free: exactly the cells of a range that is freed go. */
  lemma {:induction false} FreeCells(w: World, m: Machine, p: nat, size: nat)
    ensures var (m1, o) := CumemSteps.MyFree(w, m, p, size);
            && m1.nextCell == m.nextCell
            && m1.cells.Keys == m.cells.Keys - (if o.Freed? && p in m.table
                                                then HandleRange(m.table[p].cell0, |m.table[p].sizes|) else {})
  {
  }

  // ----- Strays -----

  lemma {:induction false} SameKeys(m: Machine, b: Books, m1: Machine, b1: Books)
    requires CellsBelow(m1) && m1.cells.Keys == m.cells.Keys && b1.owned == b.owned
    ensures CellsKept(m, b, m1, b1)
  {
    assert forall c: nat :: c in m1.cells.Keys <==> c in m.cells.Keys;
  }

  lemma {:induction false} KeysTaken(m: Machine, b: Books, m1: Machine, b1: Books, p: nat, rec: Record)
    requires CellsBelow(m) && CellsBelow(m1) && p !in b.owned && rec.cell0 == m.nextCell
    requires m1.cells.Keys == m.cells.Keys + HandleRange(rec.cell0, |rec.sizes|) && b1.owned == b.owned[p := rec]
    ensures CellsKept(m, b, m1, b1)
  {
    forall c: nat ensures Stray(m1, b1, c) <==> Stray(m, b, c) {
      assert c in m1.cells.Keys <==> c in m.cells.Keys || CellOf(rec, c);
      if Stray(m, b, c) {
        assert !CellOf(rec, c);
      }
      if Stray(m1, b1, c) {
        assert !CellOf(b1.owned[p], c);
        assert forall q <- b.owned :: b1.owned[q] == b.owned[q];
      }
    }
  }

  lemma {:induction false} KeysGiven(m: Machine, b: Books, m1: Machine, b1: Books, p: nat)
    requires CellsBelow(m1) && p in b.owned && b1.owned == b.owned - {p}
    requires m1.cells.Keys == m.cells.Keys - HandleRange(b.owned[p].cell0, |b.owned[p].sizes|)
    ensures CellsKept(m, b, m1, b1)
  {
    forall c: nat ensures Stray(m1, b1, c) <==> Stray(m, b, c) {
      assert c in m1.cells.Keys <==> c in m.cells.Keys && !CellOf(b.owned[p], c);
      if Stray(m1, b1, c) {
        assert forall q <- b.owned | q != p :: q in b1.owned && b1.owned[q] == b.owned[q];
      }
      if Stray(m, b, c) {
        assert !CellOf(b.owned[p], c);
      }
    }
  }

  lemma {:induction false} GrantedIsNew(w: World, m: Machine, b: Books, size: nat, setting: Setting, at: nat)
    requires w.granularity > 0 && Sound(m, b)
    ensures var o := CumemSteps.MyMalloc(w, m, size, setting, at).1; o.Granted? ==> o.p !in b.owned
  {
    MallocKeeps(w, m, b, size, setting, at);
    OwnedFacts(m, b);
  }

  lemma {:induction false} CellsAfterMalloc(w: World, m: Machine, b: Books, size: nat, setting: Setting, m1: Machine,
                                            o: MallocOutcome)
    requires w.granularity > 0 && CellsBelow(m) && CellsBelow(m1) && (o.Granted? ==> o.p !in b.owned)
    requires var n := |Chunks(size, w.granularity, setting)|;
             m1.cells.Keys == m.cells.Keys + if o.Granted? then HandleRange(m.nextCell, n) else {}
    ensures CellsKept(m, b, m1, MallocBooks(w, m, b, size, setting, o))
  {
    if o.Granted? {
      KeysTaken(m, b, m1, MallocBooks(w, m, b, size, setting, o), o.p, NewRecord(w, m, size, setting));
    } else {
      SameKeys(m, b, m1, MallocBooks(w, m, b, size, setting, o));
    }
  }

  lemma {:induction false} MallocKeepsCells(w: World, m: Machine, b: Books, size: nat, setting: Setting, at: nat)
    requires w.granularity > 0 && Sound(m, b) && CellsBelow(m)
    requires !CumemSteps.MyMalloc(w, m, size, setting, at).1.ReservationLost?
    ensures var (m1, o) := CumemSteps.MyMalloc(w, m, size, setting, at);
            CellsKept(m, b, m1, MallocBooks(w, m, b, size, setting, o))
  {
    var (m1, o) := CumemSteps.MyMalloc(w, m, size, setting, at);
    MallocCells(w, m, size, setting, at);
    GrantedIsNew(w, m, b, size, setting, at);
    CellsAfterMalloc(w, m, b, size, setting, m1, o);
  }

  lemma {:induction false} FreedIsOwned(w: World, m: Machine, b: Books, p: nat, size: nat)
    requires Sound(m, b) && CumemSteps.MyFree(w, m, p, size).1.Freed?
    ensures p in b.owned && p in m.table && m.table[p] == b.owned[p]
  {
    FreeKeeps(w, m, b, p, size);
    OwnedFacts(m, b);
  }

  lemma {:induction false} CellsAfterFree(m: Machine, b: Books, p: nat, m1: Machine, o: FreeOutcome)
    requires CellsBelow(m1) && !(o.HostFailure? && o.held) && (o.Freed? ==> p in b.owned)
    requires m1.cells.Keys == m.cells.Keys - (if o.Freed?
                                              then HandleRange(b.owned[p].cell0, |b.owned[p].sizes|) else {})
    ensures CellsKept(m, b, m1, FreeBooks(b, p, o))
  {
    if o.Freed? {
      KeysGiven(m, b, m1, FreeBooks(b, p, o), p);
    } else {
      SameKeys(m, b, m1, FreeBooks(b, p, o));
    }
  }

  lemma {:induction false} FreeKeepsCells(w: World, m: Machine, b: Books, p: nat, size: nat)
    requires Sound(m, b) && CellsBelow(m)
    requires var o := CumemSteps.MyFree(w, m, p, size).1; !(o.HostFailure? && o.held)
    ensures var (m1, o) := CumemSteps.MyFree(w, m, p, size); CellsKept(m, b, m1, FreeBooks(b, p, o))
  {
    var (m1, o) := CumemSteps.MyFree(w, m, p, size);
    FreeCells(w, m, p, size);
    if o.Freed? {
      FreedIsOwned(w, m, b, p, size);
    }
    CellsAfterFree(m, b, p, m1, o);
  }

  lemma {:induction false} SleepKeepsCells(w: World, m: Machine, b: Books, p: nat)
    requires CellsBelow(m)
    ensures var (m1, r) := Sleeps(w, m, p); CellsKept(m, b, m1, SleptBooks(b, p, r))
  {
    var (m1, r) := Sleeps(w, m, p);
    SameKeys(m, b, m1, SleptBooks(b, p, r));
  }

  lemma {:induction false} WakeKeepsCells(w: World, m: Machine, b: Books, p: nat)
    requires CellsBelow(m)
    ensures var (m1, r) := Wakes(w, m, p); CellsKept(m, b, m1, WokenBooks(m, b, p, r))
  {
    var (m1, r) := Wakes(w, m, p);
    if r.Woke? {
      MapCells(w, Asked(w, m), p, m.table[p]);
    }
    SameKeys(m, b, m1, WokenBooks(m, b, p, r));
  }

  /** A call whose reply does not say so leaves no cell without an owner. */
  lemma {:induction false} StepKeepsCells(w: World, m: Machine, b: Books, op: Op)
    requires w.granularity > 0 && Sound(m, b) && CellsBelow(m) && !LosesCells(Step(w, m, op).1)
    ensures var (m1, r) := Step(w, m, op); CellsKept(m, b, m1, NextBooks(w, m, b, op, r))
  {
    var (m1, r) := Step(w, m, op);
    match op
    case InitModule(callable) => SameKeys(m, b, m1, b);
    case Malloc(size, setting, at) => MallocKeepsCells(w, m, b, size, setting, at);
    case Free(p, size) => FreeKeepsCells(w, m, b, p, size);
    case Sleep(p) => SleepKeepsCells(w, m, b, p);
    case Wake(p) => WakeKeepsCells(w, m, b, p);
  }

  // ----- Whole runs -----

  ghost predicate NoneLosesCells(replies: seq<Reply>) {
    forall i | 0 <= i < |replies| :: !LosesCells(replies[i])
  }

  lemma {:induction false} RunKeepsCells(w: World, m: Machine, b: Books, ops: seq<Op>)
    requires w.granularity > 0 && Sound(m, b) && CellsBelow(m) && NoneLosesCells(RunOps(w, m, ops).1)
    ensures CellsKept(m, b, RunOps(w, m, ops).0, RunBooks(w, m, b, ops))
    decreases |ops|
  {
    if ops != [] {
      var (m1, r) := Step(w, m, ops[0]);
      var replies := RunOps(w, m, ops).1;
      assert replies[0] == r;
      StepKeepsCells(w, m, b, ops[0]);
      if r == Dangling {
        DanglingBooks(w, m, b, ops[0]);
      } else {
        StepSound(w, m, b, ops[0]);
        assert forall i | 0 <= i < |replies[1..]| :: replies[1..][i] == replies[i + 1];
        assert replies[1..] == RunOps(w, m1, ops[1..]).1;
        RunKeepsCells(w, m1, NextBooks(w, m, b, ops[0], r), ops[1..]);
      }
    }
  }

  /**
    Whatever is called in a process and whatever driver and host answer: while no reply tells of a lost cell,
    the host cells are exactly those of the pointers granted and not freed.
  */
  lemma {:induction false} CellsAreHeld(w: World, ops: seq<Op>, c: nat)
    requires w.granularity > 0 && NoneLosesCells(RunOps(w, Fresh, ops).1)
    ensures var (m, replies) := RunOps(w, Fresh, ops);
            c in m.cells <==> exists p <- HeldAfter({}, ops, replies) :: p in m.table && CellOf(m.table[p], c)
  {
    var (m, replies) := RunOps(w, Fresh, ops);
    var b := RunBooks(w, Fresh, NoBooks, ops);
    FreshIsSound();
    RunSound(w, Fresh, NoBooks, ops);
    RunKeepsCells(w, Fresh, NoBooks, ops);
    OwnedIsHeld(w, Fresh, NoBooks, ops);
    OwnedFacts(m, b);
    assert !Stray(Fresh, NoBooks, c) && !Stray(m, b, c);
    forall p <- b.owned | CellOf(b.owned[p], c) ensures c in m.cells {
      assert OwnerOk(m, b, p) && CellOk(m.driver, m.cells, b.regions, p, b.owned[p].cell0, c);
    }
  }

  /** So none is left once every granted pointer has been freed. */
  lemma {:induction false} NoCellIsLeft(w: World, ops: seq<Op>)
    requires w.granularity > 0
    requires var replies := RunOps(w, Fresh, ops).1; NoneLosesCells(replies) && HeldAfter({}, ops, replies) == {}
    ensures RunOps(w, Fresh, ops).0.cells == map[]
  {
    var m := RunOps(w, Fresh, ops).0;
    forall c: nat ensures c !in m.cells {
      CellsAreHeld(w, ops, c);
    }
    assert m.cells.Keys == {};
  }
}
