/**
  The chunk loops against what they do to the driver as a whole: creating and mapping add one region,
  and each rollback, at whatever chunk it starts, puts the driver back.
*/
module CumemRollback {
  import opened Options
  import opened ChunkTiling
  import opened CumemDriver
  import opened CumemSteps

  /** The driver after creating all handles and mapping the first `i`. */
  function Partly(d: Driver, base: nat, sizes: seq<nat>, i: nat): Driver
    requires i <= |sizes|
  {
    MappedTo(Created(d, sizes, |sizes|), base, sizes, d.nextHandle, i)
  }

  lemma {:induction false} CreatedFrame(d: Driver, sizes: seq<nat>, c: nat)
    requires c <= |sizes|
    ensures var e := Created(d, sizes, c); e == d.(live := e.live, nextHandle := d.nextHandle + c)
  {
    if c > 0 {
      CreatedFrame(d, sizes, c - 1);
    }
  }

  lemma {:induction false} TilesOnto(e: Driver, m: map<nat, Mapping>, base: nat, sizes: seq<nat>, h0: nat, i: nat)
    requires 0 < i <= |sizes| && e.mapped == m + Tiles(base, sizes, h0, i - 1)
    ensures Map(e, base, Addr(base, sizes, i - 1), sizes[i - 1], h0 + i - 1).mapped == m + Tiles(base, sizes, h0, i)
  {
    TilesGrow(m, base, sizes, h0, i - 1);
  }

  lemma {:induction false} CreatedLive(d: Driver, sizes: seq<nat>, c: nat)
    requires c <= |sizes|
    ensures var e, h0 := Created(d, sizes, c), d.nextHandle;
            && (forall h: nat :: h in e.live <==> h in d.live || h0 <= h < h0 + c)
            && (forall h <- e.live :: e.live[h] == if h0 <= h < h0 + c then Handle(sizes[h - h0], None) else d.live[h])
  {
    if c > 0 {
      CreatedFrame(d, sizes, c - 1);
      CreatedLive(d, sizes, c - 1);
    }
  }

  lemma {:induction false} MappedToFrame(d: Driver, base: nat, sizes: seq<nat>, h0: nat, i: nat)
    requires i <= |sizes|
    ensures var e := MappedTo(d, base, sizes, h0, i); e == d.(mapped := e.mapped, live := e.live)
  {
    if i > 0 {
      MappedToFrame(d, base, sizes, h0, i - 1);
    }
  }

  lemma {:induction false} TilesNone(m: map<nat, Mapping>, base: nat, sizes: seq<nat>, h0: nat)
    ensures m + Tiles(base, sizes, h0, 0) == m
  {
  }

  lemma {:induction false} MappedToTiles(d: Driver, base: nat, sizes: seq<nat>, h0: nat, i: nat)
    requires i <= |sizes|
    ensures MappedTo(d, base, sizes, h0, i).mapped == d.mapped + Tiles(base, sizes, h0, i)
  {
    if i == 0 {
      TilesNone(d.mapped, base, sizes, h0);
    } else {
      MappedToTiles(d, base, sizes, h0, i - 1);
      TilesOnto(MappedTo(d, base, sizes, h0, i - 1), d.mapped, base, sizes, h0, i);
    }
  }

  lemma {:induction false} HandlesOnto(e: Driver, m: map<nat, Handle>, base: nat, sizes: seq<nat>, h0: nat, i: nat)
    requires 0 < i <= |sizes| && e.live == m + Handles(base, sizes, h0, i - 1, |sizes|)
    ensures Map(e, base, Addr(base, sizes, i - 1), sizes[i - 1], h0 + i - 1).live
            == m + Handles(base, sizes, h0, i, |sizes|)
  {
    HandlesGrow(m, base, sizes, h0, i - 1, |sizes|);
  }

  lemma {:induction false} PartlyLive(d: Driver, base: nat, sizes: seq<nat>, i: nat)
    requires i <= |sizes|
    ensures Partly(d, base, sizes, i).live == d.live + Handles(base, sizes, d.nextHandle, i, |sizes|)
  {
    if i == 0 {
      CreatedIsStaged(d, base, sizes, |sizes|);
    } else {
      PartlyLive(d, base, sizes, i - 1);
      HandlesOnto(Partly(d, base, sizes, i - 1), d.live, base, sizes, d.nextHandle, i);
    }
  }

  lemma {:induction false} CreatedHandles(d: Driver, base: nat, sizes: seq<nat>, c: nat)
    requires c <= |sizes|
    ensures Created(d, sizes, c).live == d.live + Handles(base, sizes, d.nextHandle, 0, c)
  {
    CreatedLive(d, sizes, c);
    var e, hs := Created(d, sizes, c), Handles(base, sizes, d.nextHandle, 0, c);
    assert e.live.Keys == (d.live + hs).Keys;
  }

  lemma {:induction false} CreatedIsStaged(d: Driver, base: nat, sizes: seq<nat>, c: nat)
    requires c <= |sizes|
    ensures Created(d, sizes, c) == Staged(d, base, sizes, 0, c)
  {
    CreatedFrame(d, sizes, c);
    CreatedHandles(d, base, sizes, c);
    assert d.mapped + Tiles(base, sizes, d.nextHandle, 0) == d.mapped;
  }

  lemma {:induction false} PartlyIsStaged(d: Driver, base: nat, sizes: seq<nat>, i: nat)
    requires i <= |sizes|
    ensures Partly(d, base, sizes, i) == Staged(d, base, sizes, i, |sizes|)
  {
    CreatedFrame(d, sizes, |sizes|);
    MappedToFrame(Created(d, sizes, |sizes|), base, sizes, d.nextHandle, i);
    MappedToTiles(Created(d, sizes, |sizes|), base, sizes, d.nextHandle, i);
    PartlyLive(d, base, sizes, i);
  }

  lemma {:induction false} UnmappedIsTorn(d: Driver, base: nat, sizes: seq<nat>, h0: nat, j: nat)
    requires j <= |sizes| && Positive(sizes) && forall k | 0 <= k < j :: TileOk(d, base, sizes, h0, k)
    ensures Unmapped(d, base, sizes, j) == Torn(d, base, sizes, h0, j, 0) && AllUnmapped(d, base, sizes, j)
  {
    if j == 0 {
      TornNothing(d, base, sizes, h0);
    } else {
      UnmappedIsTorn(d, base, sizes, h0, j - 1);
      UnmapStep(d, base, sizes, h0, j - 1);
    }
  }

  lemma {:induction false} ReleasedIsTorn(d: Driver, base: nat, sizes: seq<nat>, h0: nat, j: nat, cells: map<nat, nat>,
                                          c0: nat, r: nat)
    requires j <= |sizes| && HasCells(cells, c0, r) && Holds(cells, c0, h0, r)
    requires forall h | h0 <= h < h0 + r :: h in d.live
    ensures Released(Torn(d, base, sizes, h0, j, 0), cells, c0, r) == Torn(d, base, sizes, h0, j, r)
    ensures AllReleased(Torn(d, base, sizes, h0, j, 0), cells, c0, r)
  {
    if r > 0 {
      ReleasedIsTorn(d, base, sizes, h0, j, cells, c0, r - 1);
      ReleaseStep(d, base, sizes, h0, j, r - 1);
    }
  }

  ghost predicate HandlesBelow(d: Driver) {
    forall h <- d.live :: h < d.nextHandle
  }

  lemma {:induction false} TornCreated(d: Driver, sizes: seq<nat>, i: nat)
    requires HandlesBelow(d) && i <= |sizes|
    ensures Torn(Created(d, sizes, i), 0, sizes, d.nextHandle, 0, i) == d.(nextHandle := d.nextHandle + i)
  {
    CreatedFrame(d, sizes, i);
    CreatedLive(d, sizes, i);
    var t := Torn(Created(d, sizes, i), 0, sizes, d.nextHandle, 0, i);
    assert t.live == d.live;
    assert t.mapped == d.mapped;
  }

  /** Releasing what was created undoes creating. */
  lemma {:induction false} CreatedUndone(d: Driver, sizes: seq<nat>, i: nat, cells: map<nat, nat>, c0: nat)
    requires HandlesBelow(d) && i <= |sizes| && HasCells(cells, c0, i) && Holds(cells, c0, d.nextHandle, i)
    ensures Released(Created(d, sizes, i), cells, c0, i) == d.(nextHandle := d.nextHandle + i)
  {
    CreatedLive(d, sizes, i);
    TornNothing(Created(d, sizes, i), 0, sizes, d.nextHandle);
    ReleasedIsTorn(Created(d, sizes, i), 0, sizes, d.nextHandle, 0, cells, c0, i);
    TornCreated(d, sizes, i);
  }

  /** Unmapping what was mapped and releasing every handle undoes creating and mapping. */
  lemma {:induction false} MappedUndone(d: Driver, base: nat, sizes: seq<nat>, i: nat, cells: map<nat, nat>, c0: nat)
    requires Vacant(d, base, sizes) && i <= |sizes|
    requires HasCells(cells, c0, |sizes|) && Holds(cells, c0, d.nextHandle, |sizes|)
    ensures Released(Unmapped(Partly(d, base, sizes, i), base, sizes, i), cells, c0, |sizes|)
            == d.(nextHandle := d.nextHandle + |sizes|)
  {
    var n, s := |sizes|, Staged(d, base, sizes, i, |sizes|);
    PartlyIsStaged(d, base, sizes, i);
    forall k | 0 <= k < i ensures TileOk(s, base, sizes, d.nextHandle, k) {
      StagedTiles(d, base, sizes, i, n, k);
    }
    UnmappedIsTorn(s, base, sizes, d.nextHandle, i);
    assert forall h | d.nextHandle <= h < d.nextHandle + n :: h in HandleRange(d.nextHandle, n);
    ReleasedIsTorn(s, base, sizes, d.nextHandle, i, cells, c0, n);
    TeardownUndoesMapping(d, base, sizes, i, n);
  }

  lemma {:induction false} NothingToUnmap(d: Driver, base: nat, sizes: seq<nat>, j: nat)
    requires Vacant(d, base, sizes) && j <= |sizes|
    ensures Unmapped(d, base, sizes, j) == d && (AllUnmapped(d, base, sizes, j) <==> j == 0)
  {
    if j > 0 {
      NothingToUnmap(d, base, sizes, j - 1);
      AddrsGrow(base, sizes, j, |sizes|);
      assert Addr(base, sizes, j - 1) in Addrs(base, sizes, j);
    }
  }

  /** The handles the cells hold. */
  function CellHandles(cells: map<nat, nat>, c0: nat, n: nat): set<nat>
    requires HasCells(cells, c0, n)
  {
    if n == 0 then {} else CellHandles(cells, c0, n - 1) + {cells[c0 + n - 1]}
  }

  lemma {:induction false} InCellHandles(cells: map<nat, nat>, c0: nat, n: nat, h: nat)
    requires HasCells(cells, c0, n)
    ensures h in CellHandles(cells, c0, n) <==> exists c :: c0 <= c < c0 + n && cells[c] == h
  {
    if n > 0 {
      InCellHandles(cells, c0, n - 1, h);
    }
  }

  lemma {:induction false} ReleasedIs(d: Driver, cells: map<nat, nat>, c0: nat, n: nat)
    requires HasCells(cells, c0, n)
    ensures Released(d, cells, c0, n) == d.(live := d.live - CellHandles(cells, c0, n))
  {
    if n > 0 {
      ReleasedIs(d, cells, c0, n - 1);
      assert d.live - CellHandles(cells, c0, n - 1) - {cells[c0 + n - 1]} == d.live - CellHandles(cells, c0, n);
    } else {
      assert d.live - {} == d.live;
    }
  }
}
