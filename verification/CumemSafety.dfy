/**
  What every operation of the allocator keeps: the books say who owns each reservation and which ranges
  are mapped, and they stay right whatever the driver answers.
*/
module CumemSafety {
  import opened Options
  import opened ChunkTiling
  import opened CumemDriver
  import opened CumemSteps
  import opened CumemRollback

  /** Beside the machine: the mapped reservations, the pointers the client holds, and the reservations nobody holds. */
  datatype Books = Books(regions: map<nat, Region>, owned: map<nat, Record>, lost: set<nat>)

  // ----- The invariant -----

  /** A handle through which no mapped memory can be reached. */
  ghost predicate Dead(d: Driver, h: nat) {
    h < d.nextHandle && (h in d.live ==> d.live[h].mappedAt == None)
  }

  /** A host cell of `p` holds the handle of its chunk, or a dead one. */
  ghost predicate CellOk(d: Driver, cells: map<nat, nat>, regions: map<nat, Region>, p: nat, c0: nat, c: nat) {
    && c in cells
    && (Dead(d, cells[c]) || (p in regions && cells[c] == regions[p].h0 + (c - c0)))
  }

  /** The first cell still holds the handle of the first chunk. */
  ghost predicate Intact(cells: map<nat, nat>, regions: map<nat, Region>, p: nat, c0: nat) {
    p in regions ==> c0 in cells && cells[c0] == regions[p].h0
  }

  ghost predicate RecordOk(d: Driver, cells: map<nat, nat>, regions: map<nat, Region>, p: nat, r: Record) {
    && p in d.reserved && d.reserved[p] == r.size == Sum(r.sizes, |r.sizes|)
    && r.sizes != [] && Positive(r.sizes) && (p in regions ==> regions[p].sizes == r.sizes)
    && (forall c | r.cell0 <= c < r.cell0 + |r.sizes| :: CellOk(d, cells, regions, p, r.cell0, c))
    && (p in regions && Intact(cells, regions, p, r.cell0) ==> Holds(cells, r.cell0, regions[p].h0, |r.sizes|))
  }

  ghost predicate OwnerOk(m: Machine, b: Books, p: nat)
    requires p in b.owned
  {
    var r := b.owned[p];
    && p in m.table && m.table[p] == r && r.cell0 + |r.sizes| <= m.nextCell
    && RecordOk(m.driver, m.cells, b.regions, p, r)
  }

  /** A table entry nobody owns points to host cells that have been freed. */
  ghost predicate StaleOk(m: Machine, p: nat)
    requires p in m.table
  {
    m.table[p].sizes != [] && m.table[p].cell0 < m.nextCell && m.table[p].cell0 !in m.cells
  }

  predicate Disjoint(r: Record, q: Record) {
    r.cell0 + |r.sizes| <= q.cell0 || q.cell0 + |q.sizes| <= r.cell0
  }

  ghost predicate CellsApart(owned: map<nat, Record>) {
    forall p, q | p in owned && q in owned && p != q :: Disjoint(owned[p], owned[q])
  }

  ghost predicate Accounted(reserved: map<nat, nat>, owned: map<nat, Record>, lost: set<nat>) {
    reserved.Keys == owned.Keys + lost && owned.Keys !! lost
  }

  /**
    The driver is consistent with the mapped regions; every owned pointer is in the table, with cells of
    its own that match its mapping; every other table entry is stale; every reservation is owned or lost.
  */
  ghost predicate Sound(m: Machine, b: Books) {
    && Consistent(m.driver, b.regions)
    && (forall p <- b.owned :: OwnerOk(m, b, p))
    && (forall p <- m.table :: p in b.owned || StaleOk(m, p))
    && CellsApart(b.owned)
    && Accounted(m.driver.reserved, b.owned, b.lost)
  }

  lemma {:induction false} SoundHandlesBelow(d: Driver, regions: map<nat, Region>)
    requires Consistent(d, regions)
    ensures HandlesBelow(d)
  {
    forall h | h in d.live ensures h < d.nextHandle {
      assert HandleOk(d, h);
    }
  }

  // ----- How create_and_map ends -----

  /** How many handles create_and_map wrote to the host cells. */
  function Used(o: Outcome, n: nat): nat {
    match o
    case Mapped => n
    case NoAccess => n
    case RolledBack(used) => used
    case HandleLeaked => 1
  }

  predicate MapsRange(o: Outcome) {
    o == Mapped || o == NoAccess
  }

  /** The driver create_and_map leaves. */
  function MappedDriver(d: Driver, p: nat, sizes: seq<nat>, o: Outcome): Driver
    requires sizes != []
  {
    match o
    case Mapped => Partly(d, p, sizes, |sizes|)
    case NoAccess => Partly(d, p, sizes, |sizes|)
    case RolledBack(used) => d.(nextHandle := d.nextHandle + used)
    case HandleLeaked => Create(d, sizes[0])
  }

  /** The range can be mapped, or is. */
  ghost predicate Fits(d: Driver, p: nat, sizes: seq<nat>) {
    p in d.reserved && sizes != [] && Positive(sizes) && Sum(sizes, |sizes|) == d.reserved[p]
  }

  /** However far the mapping loop is, the driver has no ground to refuse the next chunk of an unmapped range. */
  lemma {:induction false} NextChunkAccepted(d: Driver, regions: map<nat, Region>, p: nat, sizes: seq<nat>, i: nat)
    requires Consistent(d, regions) && p !in regions && Fits(d, p, sizes) && i < |sizes|
    ensures CanMap(Partly(d, p, sizes, i), p, Addr(p, sizes, i), sizes[i], d.nextHandle + i)
  {
    PartlyIsStaged(d, p, sizes, i);
    NextChunkFits(d, regions, p, sizes, i);
  }

  ghost predicate Accepts(d: Driver, p: nat, sizes: seq<nat>, h0: nat, i: nat)
    requires i < |sizes|
  {
    CanMap(MappedTo(d, p, sizes, h0, i), p, Addr(p, sizes, i), sizes[i], h0 + i)
  }

  lemma {:induction false} AcceptedIsYes(says: nat -> bool, t: nat, d: Driver, p: nat, sizes: seq<nat>, h0: nat, i: nat)
    requires i <= |sizes| && forall k | 0 <= k < |sizes| :: Accepts(d, p, sizes, h0, k)
    ensures MapFrom(says, t, d, p, sizes, h0, i) == i + Yes(says, t + i, |sizes| - i)
    decreases |sizes| - i
  {
    if i < |sizes| {
      assert Accepts(d, p, sizes, h0, i);
      AcceptedIsYes(says, t, d, p, sizes, h0, i + 1);
    }
  }

  /** So on an unmapped range only an unwilling driver stops the mapping loop. */
  lemma {:induction false} MapFromIsYes(d: Driver, regions: map<nat, Region>, p: nat, sizes: seq<nat>,
                                        says: nat -> bool, t: nat)
    requires Consistent(d, regions) && p !in regions && Fits(d, p, sizes)
    ensures MapFrom(says, t, Created(d, sizes, |sizes|), p, sizes, d.nextHandle, 0) == Yes(says, t, |sizes|)
  {
    forall k | 0 <= k < |sizes| ensures Accepts(Created(d, sizes, |sizes|), p, sizes, d.nextHandle, k) {
      NextChunkAccepted(d, regions, p, sizes, k);
    }
    AcceptedIsYes(says, t, Created(d, sizes, |sizes|), p, sizes, d.nextHandle, 0);
  }

  /** On a mapped range the loop stops at its first chunk. */
  lemma {:induction false} MappedRefused(d: Driver, regions: map<nat, Region>, p: nat, sizes: seq<nat>,
                                         says: nat -> bool, t: nat)
    requires Consistent(d, regions) && p in regions && sizes != [] && Positive(sizes)
    ensures MapFrom(says, t, Created(d, sizes, |sizes|), p, sizes, d.nextHandle, 0) == 0
  {
    assert RegionOk(d, p, regions[p]);
    assert TileOk(d, p, regions[p].sizes, regions[p].h0, 0);
    CreatedFrame(d, sizes, |sizes|);
    assert p in Created(d, sizes, |sizes|).mapped;
  }

  ghost predicate Ends(m: Machine, m1: Machine, p: nat, rec: Record, o: Outcome)
    requires rec.sizes != []
  {
    && m1.driver == MappedDriver(m.driver, p, rec.sizes, o)
    && m1.cells == Stored(m.cells, rec.cell0, m.driver.nextHandle, Used(o, |rec.sizes|))
    && m1.nextCell == m.nextCell && m1.table == m.table && m1.callbacks == m.callbacks
    && (m1.errorCode <==> o != Mapped) && (o.RolledBack? ==> o.used <= |rec.sizes|)
  }

  lemma {:induction false} StoredNone(cells: map<nat, nat>, c0: nat, h0: nat)
    ensures Stored(cells, c0, h0, 0) == cells && Stored(cells, c0, h0, 1) == cells[c0 := h0]
  {
    assert Stored(cells, c0, h0, 1) == Stored(cells, c0, h0, 0)[c0 + 1 - 1 := h0 + 1 - 1];
  }

  lemma {:induction false} LatchedEnds(w: World, m: Machine, p: nat, rec: Record)
    requires rec.sizes != [] && m.errorCode
    ensures var (m1, o) := CreateLatched(w, m, rec);
            Ends(m, m1, p, rec, o) && o == if w.says(m.asked) then HandleLeaked else RolledBack(0)
  {
    StoredNone(m.cells, rec.cell0, m.driver.nextHandle);
  }

  lemma {:induction false} StoppedEnds(m: Machine, regions: map<nat, Region>, p: nat, rec: Record, c: nat)
    requires c < |rec.sizes| && Consistent(m.driver, regions)
    ensures Ends(m, CreateStopped(m, rec, c).0, p, rec, RolledBack(c))
  {
    SoundHandlesBelow(m.driver, regions);
    StoredIs(m.cells, rec.cell0, m.driver.nextHandle, c);
    CreatedUndone(m.driver, rec.sizes, c, Stored(m.cells, rec.cell0, m.driver.nextHandle, c), rec.cell0);
  }

  /** The driver after the mapping loop stops at chunk `i`. */
  function LoopDriver(d: Driver, p: nat, rec: Record, cells: map<nat, nat>, i: nat): Driver
    requires i <= |rec.sizes| && HasCells(cells, rec.cell0, |rec.sizes|)
  {
    if i < |rec.sizes|
    then Released(Unmapped(Partly(d, p, rec.sizes, i), p, rec.sizes, i), cells, rec.cell0, |rec.sizes|)
    else Partly(d, p, rec.sizes, i)
  }

  lemma {:induction false} MapLoopDriver(w: World, m: Machine, p: nat, rec: Record, i: nat)
    requires HasCells(AllCreated(m, rec).cells, rec.cell0, |rec.sizes|)
    requires i == MapFrom(w.says, m.asked + |rec.sizes|, Created(m.driver, rec.sizes, |rec.sizes|),
                          p, rec.sizes, m.driver.nextHandle, 0)
    ensures var (m1, ok) := MapLoop(w, AllCreated(m, rec), p, rec, m.driver.nextHandle);
            && (ok <==> i == |rec.sizes|) && m1.driver == LoopDriver(m.driver, p, rec, AllCreated(m, rec).cells, i)
            && m1 == AllCreated(m, rec).(driver := m1.driver, errorCode := m1.errorCode, asked := m1.asked)
            && m1.errorCode == (m.errorCode || !ok) && (ok ==> m1.asked == m.asked + |rec.sizes| + |rec.sizes|)
  {
  }

  lemma {:induction false} LoopUndone(d: Driver, regions: map<nat, Region>, p: nat, rec: Record, cells: map<nat, nat>,
                                      i: nat)
    requires Consistent(d, regions) && Fits(d, p, rec.sizes) && i < |rec.sizes| && (p in regions ==> i == 0)
    requires HasCells(cells, rec.cell0, |rec.sizes|) && Holds(cells, rec.cell0, d.nextHandle, |rec.sizes|)
    ensures LoopDriver(d, p, rec, cells, i) == d.(nextHandle := d.nextHandle + |rec.sizes|)
  {
    if p in regions {
      SoundHandlesBelow(d, regions);
      CreatedUndone(d, rec.sizes, |rec.sizes|, cells, rec.cell0);
    } else {
      UnmappedIsVacant(d, regions, p, rec.sizes);
      MappedUndone(d, p, rec.sizes, i, cells, rec.cell0);
    }
  }

  /** Where the mapping loop stops; question `t` is about its first chunk. */
  function StopsAt(w: World, t: nat, mapped: bool, n: nat): (i: nat)
    ensures i <= n
  {
    if mapped then 0 else Yes(w.says, t, n)
  }

  lemma {:induction false} MapFromIs(w: World, t: nat, d: Driver, regions: map<nat, Region>, p: nat, sizes: seq<nat>)
    requires Consistent(d, regions) && Fits(d, p, sizes)
    ensures MapFrom(w.says, t, Created(d, sizes, |sizes|), p, sizes, d.nextHandle, 0)
            == StopsAt(w, t, p in regions, |sizes|)
  {
    if p in regions {
      MappedRefused(d, regions, p, sizes, w.says, t);
    } else {
      MapFromIsYes(d, regions, p, sizes, w.says, t);
    }
  }

  lemma {:induction false} LoopIsOutcome(d: Driver, regions: map<nat, Region>, p: nat, rec: Record, cells: map<nat,
                                         nat>, i: nat, o: Outcome)
    requires Consistent(d, regions) && Fits(d, p, rec.sizes) && i <= |rec.sizes| && (p in regions ==> i == 0)
    requires HasCells(cells, rec.cell0, |rec.sizes|) && Holds(cells, rec.cell0, d.nextHandle, |rec.sizes|)
    requires if i < |rec.sizes| then o == RolledBack(|rec.sizes|) else MapsRange(o)
    ensures LoopDriver(d, p, rec, cells, i) == MappedDriver(d, p, rec.sizes, o)
  {
    if i < |rec.sizes| {
      LoopUndone(d, regions, p, rec, cells, i);
    }
  }

  lemma {:induction false} CreatedEnds(w: World, m: Machine, regions: map<nat, Region>, p: nat, rec: Record)
    requires Consistent(m.driver, regions) && Fits(m.driver, p, rec.sizes) && !m.errorCode
    ensures var n := |rec.sizes|;
            var (m1, o) := MapCreated(w, m, p, rec);
            && Ends(m, m1, p, rec, o)
            && o == if StopsAt(w, m.asked + n, p in regions, n) < n then RolledBack(n)
                    else if w.says(m.asked + n + n) then Mapped else NoAccess
  {
    var n := |rec.sizes|;
    var i := StopsAt(w, m.asked + n, p in regions, n);
    StoredIs(m.cells, rec.cell0, m.driver.nextHandle, n);
    MapFromIs(w, m.asked + n, m.driver, regions, p, rec.sizes);
    MapLoopDriver(w, m, p, rec, i);
    LoopIsOutcome(m.driver, regions, p, rec, AllCreated(m, rec).cells, i, MapCreated(w, m, p, rec).1);
  }

  /** The answers decide how create_and_map ends: question `t` is the first of the creation loop. */
  function MapOutcome(w: World, latched: bool, t: nat, mapped: bool, n: nat): (o: Outcome)
    ensures o.RolledBack? ==> o.used <= n
    ensures latched || mapped ==> !MapsRange(o) || n == 0
  {
    var c := Yes(w.says, t, n);
    if latched then (if w.says(t) then HandleLeaked else RolledBack(0))
    else if c < n then RolledBack(c)
    else if StopsAt(w, t + n, mapped, n) < n then RolledBack(n)
    else if w.says(t + n + n) then Mapped else NoAccess
  }

  /** The same from the call on. */
  function MapAnswer(w: World, latched: bool, t: nat, mapped: bool, n: nat): (o: Outcome)
    ensures o.RolledBack? ==> o.used <= n
    ensures latched || mapped ==> !MapsRange(o) || n == 0
  {
    var (failed, u) := Context(w, latched, t);
    MapOutcome(w, failed, u, mapped, n)
  }

  lemma {:induction false} InContextEnds(w: World, m: Machine, m1: Machine, p: nat, rec: Record, o: Outcome)
    requires rec.sizes != [] && Ends(InContext(w, m), m1, p, rec, o)
    ensures Ends(m, m1, p, rec, o)
  {
  }

  lemma {:induction false} FailsInCreation(w: World, m: Machine, regions: map<nat, Region>, p: nat, rec: Record)
    requires Consistent(m.driver, regions) && rec.sizes != []
    requires InContext(w, m).errorCode || Yes(w.says, InContext(w, m).asked, |rec.sizes|) < |rec.sizes|
    ensures var (m1, o) := CumemSteps.CreateAndMap(w, m, p, rec);
            Ends(InContext(w, m), m1, p, rec, o) && o == MapAnswer(w, m.errorCode, m.asked, p in regions, |rec.sizes|)
  {
    if InContext(w, m).errorCode {
      LatchedEnds(w, InContext(w, m), p, rec);
    } else {
      StoppedEnds(InContext(w, m), regions, p, rec, Yes(w.says, InContext(w, m).asked, |rec.sizes|));
    }
  }

  lemma {:induction false} PassesCreation(w: World, m: Machine, regions: map<nat, Region>, p: nat, rec: Record)
    requires Consistent(m.driver, regions) && Fits(m.driver, p, rec.sizes)
    requires !InContext(w, m).errorCode && Yes(w.says, InContext(w, m).asked, |rec.sizes|) == |rec.sizes|
    ensures var (m1, o) := CumemSteps.CreateAndMap(w, m, p, rec);
            Ends(InContext(w, m), m1, p, rec, o) && o == MapAnswer(w, m.errorCode, m.asked, p in regions, |rec.sizes|)
  {
    CreatedEnds(w, InContext(w, m), regions, p, rec);
  }

  /**
    All or nothing: unless an error is latched when creation starts, a failure to create or map any chunk
    leaves the driver as it was, but for used handle numbers; and so does waking a range that is mapped.
  */
  lemma {:induction false} MapEnds(w: World, m: Machine, regions: map<nat, Region>, p: nat, rec: Record)
    requires Consistent(m.driver, regions) && Fits(m.driver, p, rec.sizes)
    ensures var (m1, o) := CumemSteps.CreateAndMap(w, m, p, rec);
            Ends(m, m1, p, rec, o) && o == MapAnswer(w, m.errorCode, m.asked, p in regions, |rec.sizes|)
  {
    if InContext(w, m).errorCode || Yes(w.says, InContext(w, m).asked, |rec.sizes|) < |rec.sizes| {
      FailsInCreation(w, m, regions, p, rec);
    } else {
      PassesCreation(w, m, regions, p, rec);
    }
    var (m1, o) := CumemSteps.CreateAndMap(w, m, p, rec);
    InContextEnds(w, m, m1, p, rec, o);
  }

  // ----- What a changed driver leaves alone -----

  /** No handle comes back to life or into use. */
  ghost predicate Settles(d: Driver, e: Driver) {
    && d.nextHandle <= e.nextHandle
    && forall h | h in e.live && h < d.nextHandle ::
         h in d.live && (d.live[h].mappedAt == None ==> e.live[h].mappedAt == None)
  }

  ghost predicate SameCells(cells: map<nat, nat>, cells': map<nat, nat>, r: Record) {
    forall c | r.cell0 <= c < r.cell0 + |r.sizes| && c in cells :: c in cells' && cells'[c] == cells[c]
  }

  ghost predicate SameRegion(regions: map<nat, Region>, regions': map<nat, Region>, q: nat) {
    (q in regions <==> q in regions') && (q in regions ==> regions[q] == regions'[q])
  }

  lemma {:induction false} RecordKept(d: Driver, cells: map<nat, nat>, regions: map<nat, Region>, q: nat, r: Record,
                                      e: Driver, cells': map<nat, nat>, regions': map<nat, Region>)
    requires RecordOk(d, cells, regions, q, r) && Settles(d, e)
    requires q in e.reserved && e.reserved[q] == d.reserved[q]
    requires SameRegion(regions, regions', q) && SameCells(cells, cells', r)
    ensures RecordOk(e, cells', regions', q, r)
    ensures Intact(cells', regions', q, r.cell0) <==> Intact(cells, regions, q, r.cell0)
  {
    forall c | r.cell0 <= c < r.cell0 + |r.sizes| ensures CellOk(e, cells', regions', q, r.cell0, c) {
      assert CellOk(d, cells, regions, q, r.cell0, c);
    }
    assert CellOk(d, cells, regions, q, r.cell0, r.cell0);
  }

  lemma {:induction false} OwnersKept(m: Machine, b: Books, m1: Machine, b1: Books, p: nat)
    requires forall q <- b.owned :: OwnerOk(m, b, q)
    requires b1.owned == b.owned && m1.table == m.table && m.nextCell <= m1.nextCell
    requires Settles(m.driver, m1.driver) && m1.driver.reserved == m.driver.reserved
    requires p in b.owned ==> RecordOk(m1.driver, m1.cells, b1.regions, p, b.owned[p])
    requires forall q | q in b.owned && q != p ::
               SameRegion(b.regions, b1.regions, q) && SameCells(m.cells, m1.cells, b.owned[q])
    ensures forall q <- b1.owned :: OwnerOk(m1, b1, q)
  {
    forall q | q in b1.owned ensures OwnerOk(m1, b1, q) {
      assert OwnerOk(m, b, q);
      if q != p {
        RecordKept(m.driver, m.cells, b.regions, q, b.owned[q], m1.driver, m1.cells, b1.regions);
      }
    }
  }

  // ----- create_and_map keeps the invariant -----

  ghost predicate Mappable(m: Machine, b: Books, p: nat, rec: Record) {
    && Fits(m.driver, p, rec.sizes) && rec.size == m.driver.reserved[p]
    && HasCells(m.cells, rec.cell0, |rec.sizes|)
    && (if p in b.owned then b.owned[p] == rec else p !in b.regions)
    && forall q | q in b.owned && q != p :: Disjoint(rec, b.owned[q])
  }

  function MapBooks(b: Books, p: nat, sizes: seq<nat>, h0: nat, o: Outcome): Books {
    if MapsRange(o) then b.(regions := b.regions[p := Region(sizes, h0)]) else b
  }

  lemma {:induction false} MappedFrame(d: Driver, base: nat, sizes: seq<nat>)
    ensures var e := Partly(d, base, sizes, |sizes|);
            && e.reserved == d.reserved && e.nextHandle == d.nextHandle + |sizes|
            && forall h | h in e.live && h < d.nextHandle :: h in d.live && e.live[h] == d.live[h]
  {
    PartlyIsStaged(d, base, sizes, |sizes|);
  }

  lemma {:induction false} MappedDriverKeeps(d: Driver, regions: map<nat, Region>, p: nat, sizes: seq<nat>, o: Outcome)
    requires Consistent(d, regions) && Fits(d, p, sizes) && (p in regions ==> !MapsRange(o))
    ensures var e := MappedDriver(d, p, sizes, o);
            && Settles(d, e) && e.reserved == d.reserved && (!MapsRange(o) ==> e.mapped == d.mapped)
            && Consistent(e, if MapsRange(o) then regions[p := Region(sizes, d.nextHandle)] else regions)
  {
    assert forall h <- d.live :: HandleOk(d, h);
    if MapsRange(o) {
      MapRegion(d, regions, p, sizes);
      PartlyIsStaged(d, p, sizes, |sizes|);
      MappedFrame(d, p, sizes);
    } else {
      HandlesKeep(d, regions, MappedDriver(d, p, sizes, o));
    }
  }

  lemma {:induction false} StoredElsewhere(cells: map<nat, nat>, rec: Record, h0: nat, n: nat, q: Record)
    requires n <= |rec.sizes| && Disjoint(rec, q)
    ensures SameCells(cells, Stored(cells, rec.cell0, h0, n), q)
  {
    StoredIs(cells, rec.cell0, h0, n);
  }

  /** The record of a range just mapped. */
  lemma {:induction false} MappedRecord(d: Driver, cells: map<nat, nat>, regions: map<nat, Region>, p: nat, rec: Record)
    requires Fits(d, p, rec.sizes) && rec.size == d.reserved[p]
    ensures var n := |rec.sizes|;
            RecordOk(Partly(d, p, rec.sizes, n), Stored(cells, rec.cell0, d.nextHandle, n),
                     regions[p := Region(rec.sizes, d.nextHandle)], p, rec)
    ensures Intact(Stored(cells, rec.cell0, d.nextHandle, |rec.sizes|),
                   regions[p := Region(rec.sizes, d.nextHandle)], p, rec.cell0)
  {
    MappedFrame(d, p, rec.sizes);
    StoredIs(cells, rec.cell0, d.nextHandle, |rec.sizes|);
    var e, cells', rs := Partly(d, p, rec.sizes, |rec.sizes|), Stored(cells, rec.cell0, d.nextHandle, |rec.sizes|),
                         regions[p := Region(rec.sizes, d.nextHandle)];
    forall c | rec.cell0 <= c < rec.cell0 + |rec.sizes| ensures CellOk(e, cells', rs, p, rec.cell0, c) {
    }
  }

  /** The record of a range whose mapping was refused: the used cells hold dead handles. */
  lemma {:induction false} RefusedRecord(d: Driver, cells: map<nat, nat>, regions: map<nat, Region>, p: nat,
                                         rec: Record, o: Outcome)
    requires Consistent(d, regions) && RecordOk(d, cells, regions, p, rec) && !MapsRange(o)
    requires (o.RolledBack? ==> o.used <= |rec.sizes|)
    ensures var u := Used(o, |rec.sizes|);
            && RecordOk(MappedDriver(d, p, rec.sizes, o), Stored(cells, rec.cell0, d.nextHandle, u), regions, p, rec)
            && (p in regions ==>
                  (Intact(Stored(cells, rec.cell0, d.nextHandle, u), regions, p, rec.cell0)
                   <==> Intact(cells, regions, p, rec.cell0) && u == 0))
  {
    var e, u := MappedDriver(d, p, rec.sizes, o), Used(o, |rec.sizes|);
    var cells' := Stored(cells, rec.cell0, d.nextHandle, u);
    StoredIs(cells, rec.cell0, d.nextHandle, u);
    SoundHandlesBelow(d, regions);
    assert p in regions ==> RegionOk(d, p, regions[p]);
    forall c | rec.cell0 <= c < rec.cell0 + |rec.sizes| ensures CellOk(e, cells', regions, p, rec.cell0, c) {
      assert CellOk(d, cells, regions, p, rec.cell0, c);
    }
    assert CellOk(d, cells, regions, p, rec.cell0, rec.cell0);
  }

  lemma {:induction false} MapOwners(m: Machine, m1: Machine, b: Books, p: nat, rec: Record, o: Outcome)
    requires Sound(m, b) && Mappable(m, b, p, rec) && Ends(m, m1, p, rec, o) && (p in b.regions ==> !MapsRange(o))
    ensures forall q <- b.owned :: OwnerOk(m1, MapBooks(b, p, rec.sizes, m.driver.nextHandle, o), q)
  {
    var b1 := MapBooks(b, p, rec.sizes, m.driver.nextHandle, o);
    MappedDriverKeeps(m.driver, b.regions, p, rec.sizes, o);
    if p in b.owned {
      assert OwnerOk(m, b, p);
      if MapsRange(o) {
        MappedRecord(m.driver, m.cells, b.regions, p, rec);
      } else {
        RefusedRecord(m.driver, m.cells, b.regions, p, rec, o);
      }
    }
    forall q | q in b.owned && q != p
      ensures SameRegion(b.regions, b1.regions, q) && SameCells(m.cells, m1.cells, b.owned[q]) {
      StoredElsewhere(m.cells, rec, m.driver.nextHandle, Used(o, |rec.sizes|), b.owned[q]);
    }
    OwnersKept(m, b, m1, b1, p);
  }

  lemma {:induction false} StoredSameCells(cells: map<nat, nat>, c0: nat, h0: nat, n: nat, k: nat)
    requires HasCells(cells, c0, n) && k <= n
    ensures Stored(cells, c0, h0, k).Keys == cells.Keys
  {
    StoredIs(cells, c0, h0, k);
  }

  /** Whatever create_and_map does, the books stay right. */
  lemma {:induction false} MapKeeps(m: Machine, m1: Machine, b: Books, p: nat, rec: Record, o: Outcome)
    requires Sound(m, b) && Mappable(m, b, p, rec) && Ends(m, m1, p, rec, o) && (p in b.regions ==> !MapsRange(o))
    ensures Sound(m1, MapBooks(b, p, rec.sizes, m.driver.nextHandle, o))
  {
    MapOwners(m, m1, b, p, rec, o);
    MappedDriverKeeps(m.driver, b.regions, p, rec.sizes, o);
    StoredSameCells(m.cells, rec.cell0, m.driver.nextHandle, |rec.sizes|, Used(o, |rec.sizes|));
    forall q | q in m1.table ensures q in b.owned || StaleOk(m1, q) {
      assert q in b.owned || StaleOk(m, q);
    }
  }
}
