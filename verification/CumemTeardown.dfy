/**
  unmap_and_release: whatever the host cells hold, it unmaps the range as a whole and keeps the books
  right; which handles stay behind is exact.
*/
module CumemTeardown {
  import opened Options
  import opened CumemDriver
  import opened CumemSteps
  import opened CumemRollback
  import opened CumemSafety

  /** The driver once the chunks of `p` are unmapped. */
  function Unmapping(d: Driver, regions: map<nat, Region>, p: nat): Driver {
    if p in regions then Torn(d, p, regions[p].sizes, regions[p].h0, |regions[p].sizes|, 0) else d
  }

  function RegionHandles(regions: map<nat, Region>, p: nat): set<nat> {
    if p in regions then HandleRange(regions[p].h0, |regions[p].sizes|) else {}
  }

  function Handed(cells: map<nat, nat>, rec: Record): set<nat>
    requires HasCells(cells, rec.cell0, |rec.sizes|)
  {
    CellHandles(cells, rec.cell0, |rec.sizes|)
  }

  lemma {:induction false} HasItsCells(d: Driver, cells: map<nat, nat>, regions: map<nat, Region>, p: nat, rec: Record)
    requires RecordOk(d, cells, regions, p, rec)
    ensures HasCells(cells, rec.cell0, |rec.sizes|)
  {
    forall c | rec.cell0 <= c < rec.cell0 + |rec.sizes| ensures c in cells {
      assert CellOk(d, cells, regions, p, rec.cell0, c);
    }
  }

  lemma {:induction false} UnmappedRange(d: Driver, regions: map<nat, Region>, p: nat, sizes: seq<nat>)
    requires Consistent(d, regions) && Fits(d, p, sizes) && (p in regions ==> regions[p].sizes == sizes)
    ensures Unmapped(d, p, sizes, |sizes|) == Unmapping(d, regions, p)
    ensures AllUnmapped(d, p, sizes, |sizes|) <==> p in regions
    ensures Consistent(Unmapping(d, regions, p), regions - {p})
  {
    if p in regions {
      assert RegionOk(d, p, regions[p]);
      UnmappedIsTorn(d, p, sizes, regions[p].h0, |sizes|);
      TearRegion(d, regions, p);
    } else {
      UnmappedIsVacant(d, regions, p, sizes);
      NothingToUnmap(d, p, sizes, |sizes|);
      assert regions - {p} == regions;
    }
  }

  /** The driver unmap_and_release leaves, in terms of the cells. */
  function TornDown(d: Driver, cells: map<nat, nat>, regions: map<nat, Region>, p: nat, rec: Record): Driver
    requires HasCells(cells, rec.cell0, |rec.sizes|)
  {
    Unmapping(d, regions, p).(live := Unmapping(d, regions, p).live - Handed(cells, rec))
  }

  lemma {:induction false} TeardownIs(d: Driver, cells: map<nat, nat>, regions: map<nat, Region>, p: nat, rec: Record)
    requires Consistent(d, regions) && RecordOk(d, cells, regions, p, rec) && HasCells(cells, rec.cell0, |rec.sizes|)
    ensures Teardown(d, p, rec, cells) == TornDown(d, cells, regions, p, rec)
  {
    UnmappedRange(d, regions, p, rec.sizes);
    ReleasedIs(Unmapping(d, regions, p), cells, rec.cell0, |rec.sizes|);
  }

  /** No cell of the range holds the handle of another mapped range. */
  lemma {:induction false} HandedIsLoose(d: Driver, cells: map<nat, nat>, regions: map<nat, Region>, p: nat,
                                         rec: Record, h: nat)
    requires Consistent(d, regions) && RecordOk(d, cells, regions, p, rec)
    requires HasCells(cells, rec.cell0, |rec.sizes|) && h in Handed(cells, rec)
    ensures h < d.nextHandle
    ensures h in Unmapping(d, regions, p).live ==> Unmapping(d, regions, p).live[h].mappedAt == None
  {
    InCellHandles(cells, rec.cell0, |rec.sizes|, h);
    var c :| rec.cell0 <= c < rec.cell0 + |rec.sizes| && cells[c] == h;
    assert CellOk(d, cells, regions, p, rec.cell0, c);
    assert p in regions ==> RegionOk(d, p, regions[p]);
  }

  lemma {:induction false} UnmappingFrame(d: Driver, regions: map<nat, Region>, p: nat)
    ensures var u := Unmapping(d, regions, p);
            && u.reserved == d.reserved && u.nextHandle == d.nextHandle && u.live.Keys == d.live.Keys
            && forall h <- d.live :: u.live[h] == d.live[h] || u.live[h].mappedAt == None
  {
  }

  lemma {:induction false} TornDownKeeps(d: Driver, cells: map<nat, nat>, regions: map<nat, Region>, p: nat,
                                         rec: Record)
    requires Consistent(d, regions) && RecordOk(d, cells, regions, p, rec) && HasCells(cells, rec.cell0, |rec.sizes|)
    ensures Consistent(TornDown(d, cells, regions, p, rec), regions - {p})
    ensures Settles(d, TornDown(d, cells, regions, p, rec))
    ensures TornDown(d, cells, regions, p, rec).reserved == d.reserved
  {
    var u, e := Unmapping(d, regions, p), TornDown(d, cells, regions, p, rec);
    UnmappedRange(d, regions, p, rec.sizes);
    UnmappingFrame(d, regions, p);
    forall h | h in u.live && u.live[h].mappedAt.Some? ensures h !in Handed(cells, rec) {
      if h in Handed(cells, rec) {
        HandedIsLoose(d, cells, regions, p, rec, h);
      }
    }
    assert forall h <- u.live :: HandleOk(u, h);
    HandlesKeep(u, regions - {p}, e);
  }

  lemma {:induction false} TornDownRecord(d: Driver, cells: map<nat, nat>, regions: map<nat, Region>, p: nat,
                                          rec: Record)
    requires Consistent(d, regions) && RecordOk(d, cells, regions, p, rec) && HasCells(cells, rec.cell0, |rec.sizes|)
    ensures RecordOk(TornDown(d, cells, regions, p, rec), cells, regions - {p}, p, rec)
  {
    var e := TornDown(d, cells, regions, p, rec);
    forall c | rec.cell0 <= c < rec.cell0 + |rec.sizes| ensures CellOk(e, cells, regions - {p}, p, rec.cell0, c) {
      InCellHandles(cells, rec.cell0, |rec.sizes|, cells[c]);
      HandedIsLoose(d, cells, regions, p, rec, cells[c]);
    }
  }

  function AsleepBooks(b: Books, p: nat): Books {
    b.(regions := b.regions - {p})
  }

  lemma {:induction false} OthersAsleep(cells: map<nat, nat>, b: Books, p: nat, q: nat)
    requires q in b.owned && q != p
    ensures SameRegion(b.regions, AsleepBooks(b, p).regions, q) && SameCells(cells, cells, b.owned[q])
  {
  }

  lemma {:induction false} TeardownOwners(m: Machine, b: Books, p: nat)
    requires Sound(m, b) && p in b.owned && HasCells(m.cells, b.owned[p].cell0, |b.owned[p].sizes|)
    ensures var m1 := m.(driver := TornDown(m.driver, m.cells, b.regions, p, b.owned[p]));
            forall q <- b.owned :: OwnerOk(m1, AsleepBooks(b, p), q)
  {
    assert OwnerOk(m, b, p);
    TornDownKeeps(m.driver, m.cells, b.regions, p, b.owned[p]);
    TornDownRecord(m.driver, m.cells, b.regions, p, b.owned[p]);
    forall q | q in b.owned && q != p
      ensures SameRegion(b.regions, AsleepBooks(b, p).regions, q) && SameCells(m.cells, m.cells, b.owned[q])
    {
      OthersAsleep(m.cells, b, p, q);
    }
    OwnersKept(m, b, m.(driver := TornDown(m.driver, m.cells, b.regions, p, b.owned[p])), AsleepBooks(b, p), p);
  }

  /** unmap_and_release keeps the books right, whatever the cells hold. */
  lemma {:induction false} TeardownKeeps(m: Machine, b: Books, p: nat)
    requires Sound(m, b) && p in b.owned
    ensures HasCells(m.cells, b.owned[p].cell0, |b.owned[p].sizes|)
    ensures Sound(m.(driver := Teardown(m.driver, p, b.owned[p], m.cells)), AsleepBooks(b, p))
  {
    assert OwnerOk(m, b, p);
    HasItsCells(m.driver, m.cells, b.regions, p, b.owned[p]);
    TeardownIs(m.driver, m.cells, b.regions, p, b.owned[p]);
    TornDownKeeps(m.driver, m.cells, b.regions, p, b.owned[p]);
    TeardownOwners(m, b, p);
    var m1 := m.(driver := Teardown(m.driver, p, b.owned[p], m.cells));
    forall q | q in m1.table ensures q in b.owned || StaleOk(m1, q) {
      assert q in b.owned || StaleOk(m, q);
    }
  }

  // ----- Which handles stay behind -----

  lemma {:induction false} UnmappingLoose(d: Driver, regions: map<nat, Region>, p: nat)
    requires Consistent(d, regions)
    ensures Loose(Unmapping(d, regions, p)) == Loose(d) + RegionHandles(regions, p)
  {
    if p in regions {
      var r := regions[p];
      assert RegionOk(d, p, r);
      forall h: nat | r.h0 <= h < r.h0 + |r.sizes| ensures h in d.live {
        assert TileOk(d, p, r.sizes, r.h0, h - r.h0);
      }
    }
  }

  /** Exactly the handles of the range that its cells no longer hold join the loose ones. */
  lemma {:induction false} TeardownLoose(m: Machine, b: Books, p: nat)
    requires Sound(m, b) && p in b.owned && HasCells(m.cells, b.owned[p].cell0, |b.owned[p].sizes|)
    ensures Loose(Teardown(m.driver, p, b.owned[p], m.cells))
            == Loose(m.driver) + RegionHandles(b.regions, p) - Handed(m.cells, b.owned[p])
  {
    assert OwnerOk(m, b, p);
    TeardownIs(m.driver, m.cells, b.regions, p, b.owned[p]);
    UnmappingLoose(m.driver, b.regions, p);
  }

  /** While a range is mapped its handles are not loose. */
  lemma {:induction false} MappedNotLoose(d: Driver, regions: map<nat, Region>, p: nat, h: nat)
    requires Consistent(d, regions) && h in RegionHandles(regions, p)
    ensures h in d.live && d.live[h].mappedAt.Some?
  {
    assert RegionOk(d, p, regions[p]);
    assert TileOk(d, p, regions[p].sizes, regions[p].h0, h - regions[p].h0);
  }

  /** Nothing stays behind if and only if the range is asleep or its cells are intact. */
  lemma {:induction false} TeardownLeaksIff(m: Machine, b: Books, p: nat)
    requires Sound(m, b) && p in b.owned && HasCells(m.cells, b.owned[p].cell0, |b.owned[p].sizes|)
    ensures Loose(Teardown(m.driver, p, b.owned[p], m.cells)) <= Loose(m.driver)
            <==> Intact(m.cells, b.regions, p, b.owned[p].cell0)
  {
    var rec := b.owned[p];
    assert OwnerOk(m, b, p);
    TeardownLoose(m, b, p);
    if p in b.regions {
      var h0 := b.regions[p].h0;
      if Intact(m.cells, b.regions, p, rec.cell0) {
        forall h | h in RegionHandles(b.regions, p) ensures h in Handed(m.cells, rec) {
          assert m.cells[rec.cell0 + (h - h0)] == h;
          InCellHandles(m.cells, rec.cell0, |rec.sizes|, h);
        }
      } else {
        FirstHandleKept(m, b, p);
        MappedNotLoose(m.driver, b.regions, p, h0);
        assert h0 in Loose(m.driver) + RegionHandles(b.regions, p) - Handed(m.cells, rec);
      }
    }
  }

  lemma {:induction false} HandleNotFound(d: Driver, cells: map<nat, nat>, regions: map<nat, Region>, p: nat, c0: nat,
                                          n: nat)
    requires forall c | c0 <= c < c0 + n :: CellOk(d, cells, regions, p, c0, c)
    requires HasCells(cells, c0, n) && !Intact(cells, regions, p, c0)
    requires regions[p].h0 in d.live && d.live[regions[p].h0].mappedAt.Some?
    ensures regions[p].h0 !in CellHandles(cells, c0, n)
  {
    InCellHandles(cells, c0, n, regions[p].h0);
    forall c | c0 <= c < c0 + n ensures cells[c] != regions[p].h0 {
      assert CellOk(d, cells, regions, p, c0, c);
    }
  }

  lemma {:induction false} FirstHandleKept(m: Machine, b: Books, p: nat)
    requires Sound(m, b) && p in b.owned && HasCells(m.cells, b.owned[p].cell0, |b.owned[p].sizes|)
    requires !Intact(m.cells, b.regions, p, b.owned[p].cell0)
    ensures b.regions[p].h0 in RegionHandles(b.regions, p) - Handed(m.cells, b.owned[p])
  {
    assert OwnerOk(m, b, p);
    MappedNotLoose(m.driver, b.regions, p, b.regions[p].h0);
    HandleNotFound(m.driver, m.cells, b.regions, p, b.owned[p].cell0, |b.owned[p].sizes|);
  }

  /** Every cell of the range holds one of the handles `live`, and no two hold the same one. */
  ghost predicate Releasable(live: set<nat>, cells: map<nat, nat>, c0: nat, n: nat) {
    && (forall c | c0 <= c < c0 + n :: c in cells && cells[c] in live)
    && (forall c, e | c0 <= c < e < c0 + n && c in cells && e in cells :: cells[c] != cells[e])
  }

  lemma {:induction false} AllReleasedIff(d: Driver, cells: map<nat, nat>, c0: nat, n: nat)
    requires HasCells(cells, c0, n)
    ensures AllReleased(d, cells, c0, n) <==> Releasable(d.live.Keys, cells, c0, n)
  {
    if n > 0 {
      AllReleasedIff(d, cells, c0, n - 1);
      ReleasedIs(d, cells, c0, n - 1);
      InCellHandles(cells, c0, n - 1, cells[c0 + n - 1]);
    }
  }

  /** No call of unmap_and_release fails if and only if the range is mapped and its cells are releasable. */
  lemma {:induction false} TeardownCleanIff(m: Machine, b: Books, p: nat)
    requires Sound(m, b) && p in b.owned && HasCells(m.cells, b.owned[p].cell0, |b.owned[p].sizes|)
    ensures TeardownClean(m.driver, p, b.owned[p], m.cells)
            <==> p in b.regions && Releasable(m.driver.live.Keys, m.cells, b.owned[p].cell0, |b.owned[p].sizes|)
  {
    assert OwnerOk(m, b, p);
    UnmappedRange(m.driver, b.regions, p, b.owned[p].sizes);
    UnmappingFrame(m.driver, b.regions, p);
    AllReleasedIff(Unmapping(m.driver, b.regions, p), m.cells, b.owned[p].cell0, |b.owned[p].sizes|);
  }

  lemma {:induction false} HoldsIsReleasable(live: set<nat>, cells: map<nat, nat>, c0: nat, h0: nat, n: nat)
    requires Holds(cells, c0, h0, n) && forall h | h0 <= h < h0 + n :: h in live
    ensures Releasable(live, cells, c0, n)
  {
    assert forall c | c0 <= c < c0 + n :: cells[c] == h0 + (c - c0);
  }

  /** An intact range is releasable. */
  lemma {:induction false} IntactIsReleasable(m: Machine, b: Books, p: nat)
    requires Sound(m, b) && p in b.owned && p in b.regions && Intact(m.cells, b.regions, p, b.owned[p].cell0)
    ensures Releasable(m.driver.live.Keys, m.cells, b.owned[p].cell0, |b.owned[p].sizes|)
  {
    var rec, h0 := b.owned[p], b.regions[p].h0;
    assert OwnerOk(m, b, p);
    forall h | h0 <= h < h0 + |rec.sizes| ensures h in m.driver.live {
      MappedNotLoose(m.driver, b.regions, p, h);
    }
    HoldsIsReleasable(m.driver.live.Keys, m.cells, rec.cell0, h0, |rec.sizes|);
  }
}
