/**
  The virtual-memory driver under csrc/cumem_allocator.cpp as a value: reservations, mappings and
  live allocation handles.  A call on invalid arguments fails; `CumemAllocator` lets every call that
  acquires something fail at will as well.  Handles are never reused.
*/
module CumemDriver {
  import opened Options
  import opened ChunkTiling

  /** `home` is the reservation the mapping lies in. */
  datatype Mapping = Mapping(size: nat, handle: nat, home: nat)

  datatype Handle = Handle(size: nat, mappedAt: Option<nat>)

  datatype Driver = Driver(
    reserved: map<nat, nat>,
    mapped: map<nat, Mapping>,
    live: map<nat, Handle>,
    nextHandle: nat)

  // ----- Single calls -----

  predicate CanReserve(d: Driver, base: nat, size: nat) {
    size > 0 && forall b <- d.reserved :: b + d.reserved[b] <= base || base + size <= b
  }

  predicate CanFreeAddress(d: Driver, base: nat, size: nat) {
    base in d.reserved && d.reserved[base] == size && forall a <- d.mapped :: d.mapped[a].home != base
  }

  function Create(d: Driver, size: nat): Driver {
    d.(live := d.live[d.nextHandle := Handle(size, None)], nextHandle := d.nextHandle + 1)
  }

  predicate CanMap(d: Driver, home: nat, addr: nat, size: nat, h: nat) {
    && h in d.live && d.live[h] == Handle(size, None) && size > 0
    && home in d.reserved && home <= addr && addr + size <= home + d.reserved[home]
    && forall a <- d.mapped :: a + d.mapped[a].size <= addr || addr + size <= a
  }

  function Map(d: Driver, home: nat, addr: nat, size: nat, h: nat): Driver {
    d.(mapped := d.mapped[addr := Mapping(size, h, home)], live := d.live[h := Handle(size, Some(addr))])
  }

  predicate CanUnmap(d: Driver, addr: nat, size: nat) {
    addr in d.mapped && d.mapped[addr].size == size
  }

  function Unmap(d: Driver, addr: nat): Driver
    requires addr in d.mapped
  {
    var h := d.mapped[addr].handle;
    d.(mapped := d.mapped - {addr},
       live := if h in d.live then d.live[h := Handle(d.live[h].size, None)] else d.live)
  }

  function Release(d: Driver, h: nat): Driver {
    d.(live := d.live - {h})
  }

  // ----- Chunk by chunk -----

  /** The addresses of the first `i` chunks. */
  function Addrs(base: nat, sizes: seq<nat>, i: nat): set<nat>
    requires i <= |sizes|
  {
    if i == 0 then {} else Addrs(base, sizes, i - 1) + {Addr(base, sizes, i - 1)}
  }

  /** The mappings of the first `i` chunks, whose handles count up from `h0`. */
  function Tiles(base: nat, sizes: seq<nat>, h0: nat, i: nat): (m: map<nat, Mapping>)
    requires i <= |sizes|
    ensures m.Keys == Addrs(base, sizes, i)
  {
    if i == 0 then map[]
    else Tiles(base, sizes, h0, i - 1)[Addr(base, sizes, i - 1) := Mapping(sizes[i - 1], h0 + i - 1, base)]
  }

  function HandleRange(h0: nat, c: nat): (s: set<nat>)
    ensures forall h: nat :: h in s <==> h0 <= h < h0 + c
  {
    if c == 0 then {} else HandleRange(h0, c - 1) + {h0 + c - 1}
  }

  /** The handles of the first `c` chunks, of which the first `i` are mapped. */
  function Handles(base: nat, sizes: seq<nat>, h0: nat, i: nat, c: nat): map<nat, Handle>
    requires i <= c <= |sizes|
  {
    map h | h in HandleRange(h0, c) ::
      Handle(sizes[h - h0], if h - h0 < i then Some(Addr(base, sizes, h - h0)) else None)
  }

  /** `d` with `c` chunks created and `i` of them mapped. */
  function Staged(d: Driver, base: nat, sizes: seq<nat>, i: nat, c: nat): Driver
    requires i <= c <= |sizes|
  {
    d.(mapped := d.mapped + Tiles(base, sizes, d.nextHandle, i),
       live := d.live + Handles(base, sizes, d.nextHandle, i, c),
       nextHandle := d.nextHandle + c)
  }

  /** `d` with `j` chunks unmapped and `r` of the handles from `h0` released. */
  function Torn(d: Driver, base: nat, sizes: seq<nat>, h0: nat, j: nat, r: nat): Driver
    requires j <= |sizes|
  {
    d.(mapped := d.mapped - Addrs(base, sizes, j),
       live := map h | h in d.live && !(h0 <= h < h0 + r) ::
                 if h0 <= h < h0 + j then Handle(d.live[h].size, None) else d.live[h])
  }

  /** Chunk `k` is mapped at its place and its handle is live. */
  ghost predicate TileOk(d: Driver, base: nat, sizes: seq<nat>, h0: nat, k: nat)
    requires k < |sizes|
  {
    var a := Addr(base, sizes, k);
    && a in d.mapped && d.mapped[a] == Mapping(sizes[k], h0 + k, base)
    && h0 + k in d.live && d.live[h0 + k] == Handle(sizes[k], Some(a))
  }

  lemma {:induction false} AddrOutside(base: nat, sizes: seq<nat>, k: nat, i: nat)
    requires Positive(sizes) && i <= |sizes| && k <= |sizes|
    ensures Addr(base, sizes, k) in Addrs(base, sizes, i) <==> k < i
  {
    if i > 0 {
      AddrOutside(base, sizes, k, i - 1);
      if k < i - 1 {
        SumMonotone(sizes, k, i - 1);
      } else if k > i - 1 {
        SumMonotone(sizes, i - 1, k);
      }
    }
  }

  lemma {:induction false} AddrsAre(base: nat, sizes: seq<nat>, i: nat, a: nat)
    requires i <= |sizes|
    ensures a in Addrs(base, sizes, i) <==> exists k :: 0 <= k < i && a == Addr(base, sizes, k)
  {
    if i > 0 {
      AddrsAre(base, sizes, i - 1, a);
    }
  }

  lemma {:induction false} TilesAt(base: nat, sizes: seq<nat>, h0: nat, i: nat, k: nat)
    requires Positive(sizes) && k < i <= |sizes|
    ensures var a := Addr(base, sizes, k);
            a in Tiles(base, sizes, h0, i) && Tiles(base, sizes, h0, i)[a] == Mapping(sizes[k], h0 + k, base)
  {
    if k < i - 1 {
      TilesAt(base, sizes, h0, i - 1, k);
      SumMonotone(sizes, k, i - 1);
    }
  }

  lemma {:induction false} TilesGrow(m: map<nat, Mapping>, base: nat, sizes: seq<nat>, h0: nat, i: nat)
    requires i < |sizes|
    ensures (m + Tiles(base, sizes, h0, i))[Addr(base, sizes, i) := Mapping(sizes[i], h0 + i, base)]
            == m + Tiles(base, sizes, h0, i + 1)
  {
  }

  lemma {:induction false} HandlesGrow(m: map<nat, Handle>, base: nat, sizes: seq<nat>, h0: nat, i: nat, c: nat)
    requires i < c <= |sizes|
    ensures (m + Handles(base, sizes, h0, i, c))[h0 + i := Handle(sizes[i], Some(Addr(base, sizes, i)))]
            == m + Handles(base, sizes, h0, i + 1, c)
  {
  }

  lemma {:induction false} UnmapStep(d: Driver, base: nat, sizes: seq<nat>, h0: nat, j: nat)
    requires j < |sizes| && Positive(sizes) && TileOk(d, base, sizes, h0, j)
    ensures var t := Torn(d, base, sizes, h0, j, 0);
            CanUnmap(t, Addr(base, sizes, j), sizes[j]) &&
            Unmap(t, Addr(base, sizes, j)) == Torn(d, base, sizes, h0, j + 1, 0)
  {
    var t, a := Torn(d, base, sizes, h0, j, 0), Addr(base, sizes, j);
    AddrOutside(base, sizes, j, j);
    assert Unmap(t, a).mapped == Torn(d, base, sizes, h0, j + 1, 0).mapped;
    assert Unmap(t, a).live == Torn(d, base, sizes, h0, j + 1, 0).live;
  }

  lemma {:induction false} ReleaseStep(d: Driver, base: nat, sizes: seq<nat>, h0: nat, j: nat, r: nat)
    requires j <= |sizes| && h0 + r in d.live
    ensures var t := Torn(d, base, sizes, h0, j, r);
            h0 + r in t.live && Release(t, h0 + r) == Torn(d, base, sizes, h0, j, r + 1)
  {
    var t := Torn(d, base, sizes, h0, j, r);
    assert Release(t, h0 + r).live == Torn(d, base, sizes, h0, j, r + 1).live;
  }

  lemma {:induction false} TornNothing(d: Driver, base: nat, sizes: seq<nat>, h0: nat)
    ensures Torn(d, base, sizes, h0, 0, 0) == d
  {
    assert Torn(d, base, sizes, h0, 0, 0).live == d.live;
    assert Torn(d, base, sizes, h0, 0, 0).mapped == d.mapped;
  }

  /** The chunks of this range can be added to `d` without touching what is there. */
  ghost predicate Vacant(d: Driver, base: nat, sizes: seq<nat>) {
    && Positive(sizes)
    && d.mapped.Keys !! Addrs(base, sizes, |sizes|)
    && forall h <- d.live :: h < d.nextHandle
  }

  lemma {:induction false} StagedTiles(d: Driver, base: nat, sizes: seq<nat>, i: nat, c: nat, k: nat)
    requires Vacant(d, base, sizes) && k < i <= c <= |sizes|
    ensures TileOk(Staged(d, base, sizes, i, c), base, sizes, d.nextHandle, k)
  {
    TilesAt(base, sizes, d.nextHandle, i, k);
  }

  lemma {:induction false} AddrsGrow(base: nat, sizes: seq<nat>, i: nat, j: nat)
    requires i <= j <= |sizes|
    ensures Addrs(base, sizes, i) <= Addrs(base, sizes, j)
  {
    if i < j {
      AddrsGrow(base, sizes, i, j - 1);
    }
  }

  /** Teardown undoes mapping: whatever was created and mapped, the driver is as before, but for used handle numbers. */
  lemma {:induction false} TeardownUndoesMapping(d: Driver, base: nat, sizes: seq<nat>, i: nat, c: nat)
    requires Vacant(d, base, sizes) && i <= c <= |sizes|
    ensures Torn(Staged(d, base, sizes, i, c), base, sizes, d.nextHandle, i, c) == d.(nextHandle := d.nextHandle + c)
  {
    var t := Torn(Staged(d, base, sizes, i, c), base, sizes, d.nextHandle, i, c);
    AddrsGrow(base, sizes, i, |sizes|);
    assert t.mapped == d.mapped;
    assert t.live == d.live;
  }

  // ----- What every operation keeps -----

  /** A reservation that is mapped: its chunk sizes and the handle of its first chunk. */
  datatype Region = Region(sizes: seq<nat>, h0: nat)

  ghost predicate RegionOk(d: Driver, b: nat, r: Region) {
    && b in d.reserved && r.sizes != [] && Positive(r.sizes) && Sum(r.sizes, |r.sizes|) == d.reserved[b]
    && r.h0 + |r.sizes| <= d.nextHandle
    && forall k | 0 <= k < |r.sizes| :: TileOk(d, b, r.sizes, r.h0, k)
  }

  /** Reservations do not overlap. */
  ghost predicate Apart(reserved: map<nat, nat>) {
    && (forall a <- reserved :: reserved[a] > 0)
    && forall a, b | a in reserved && b in reserved && a < b :: a + reserved[a] <= b
  }

  ghost predicate MappingOk(d: Driver, regions: map<nat, Region>, a: nat)
    requires a in d.mapped
  {
    var b := d.mapped[a].home;
    b in regions && a in Addrs(b, regions[b].sizes, |regions[b].sizes|)
  }

  ghost predicate HandleOk(d: Driver, h: nat)
    requires h in d.live
  {
    && h < d.nextHandle
    && (d.live[h].mappedAt.Some? ==>
          d.live[h].mappedAt.value in d.mapped && d.mapped[d.live[h].mappedAt.value].handle == h)
  }

  /**
    Exactly the reservations in `regions` are mapped, each as a whole and by handles that know it.
    Live handles may be unmapped.
  */
  ghost predicate Consistent(d: Driver, regions: map<nat, Region>) {
    && Apart(d.reserved)
    && (forall b <- regions :: RegionOk(d, b, regions[b]))
    && (forall a <- d.mapped :: MappingOk(d, regions, a))
    && (forall h <- d.live :: HandleOk(d, h))
  }

  /** Live handles that are not mapped: memory nobody can use. */
  function Loose(d: Driver): set<nat> {
    set h | h in d.live && d.live[h].mappedAt == None
  }

  lemma {:induction false} AddrInRange(base: nat, sizes: seq<nat>, a: nat)
    requires Positive(sizes) && a in Addrs(base, sizes, |sizes|)
    ensures exists k ::
              0 <= k < |sizes| && a == Addr(base, sizes, k) && base <= a && a + sizes[k] <= base + Sum(sizes, |sizes|)
  {
    AddrsAre(base, sizes, |sizes|, a);
    var k :| 0 <= k < |sizes| && a == Addr(base, sizes, k);
    SumMonotone(sizes, k, |sizes|);
  }

  /** A mapping lies inside its reservation, so outside every other. */
  lemma {:induction false} MappingInHome(d: Driver, regions: map<nat, Region>, a: nat)
    requires Consistent(d, regions) && a in d.mapped
    ensures var b := d.mapped[a].home;
            b in regions && b in d.reserved && b <= a
            && a + d.mapped[a].size <= b + d.reserved[b] && d.mapped[a].size > 0
  {
    assert MappingOk(d, regions, a);
    var b := d.mapped[a].home;
    assert RegionOk(d, b, regions[b]);
    var sizes := regions[b].sizes;
    AddrInRange(b, sizes, a);
    var k :| 0 <= k < |sizes| && a == Addr(b, sizes, k) && b <= a && a + sizes[k] <= b + Sum(sizes, |sizes|);
    assert TileOk(d, b, sizes, regions[b].h0, k);
  }

  /** Wholly mapped or wholly unmapped, byte by byte. */
  lemma {:induction false} WhollyMappedOrNot(d: Driver, regions: map<nat, Region>, b: nat, x: nat)
    requires Consistent(d, regions) && b in d.reserved && b <= x < b + d.reserved[b]
    ensures b in regions <==> exists a :: a in d.mapped && a <= x < a + d.mapped[a].size
  {
    if b in regions {
      assert RegionOk(d, b, regions[b]);
      var k := ChunksTile(b, regions[b].sizes, x);
      assert TileOk(d, b, regions[b].sizes, regions[b].h0, k);
    }
    forall a | a in d.mapped && a <= x < a + d.mapped[a].size ensures d.mapped[a].home == b {
      MappingInHome(d, regions, a);
    }
    if a :| a in d.mapped && a <= x < a + d.mapped[a].size {
      MappingInHome(d, regions, a);
    }
  }

  lemma {:induction false} UnmappedIsVacant(d: Driver, regions: map<nat, Region>, b: nat, sizes: seq<nat>)
    requires Consistent(d, regions) && b in d.reserved && b !in regions
    requires Positive(sizes) && Sum(sizes, |sizes|) == d.reserved[b]
    ensures Vacant(d, b, sizes)
  {
    forall a | a in d.mapped && a in Addrs(b, sizes, |sizes|) ensures false {
      MappingInHome(d, regions, a);
      AddrInRange(b, sizes, a);
    }
    assert forall h <- d.live :: HandleOk(d, h);
  }

  lemma {:induction false} TileBefore(base: nat, sizes: seq<nat>, h0: nat, i: nat, a: nat)
    requires Positive(sizes) && i < |sizes| && a in Addrs(base, sizes, i)
    ensures a in Tiles(base, sizes, h0, i) && a + Tiles(base, sizes, h0, i)[a].size <= Addr(base, sizes, i)
  {
    AddrsAre(base, sizes, i, a);
    var k :| 0 <= k < i && a == Addr(base, sizes, k);
    TilesAt(base, sizes, h0, i, k);
    SumMonotone(sizes, k, i);
  }

  lemma {:induction false} OtherMappingApart(d: Driver, regions: map<nat, Region>, b: nat, a: nat)
    requires Consistent(d, regions) && b in d.reserved && b !in regions && a in d.mapped
    ensures a + d.mapped[a].size <= b || b + d.reserved[b] <= a
  {
    MappingInHome(d, regions, a);
  }

  /** While the chunks are mapped one after the other the driver has no ground to refuse. */
  lemma {:induction false} NextChunkFits(d: Driver, regions: map<nat, Region>, b: nat, sizes: seq<nat>, i: nat)
    requires Consistent(d, regions) && b in d.reserved && b !in regions
    requires Positive(sizes) && Sum(sizes, |sizes|) == d.reserved[b] && i < |sizes|
    ensures CanMap(Staged(d, b, sizes, i, |sizes|), b, Addr(b, sizes, i), sizes[i], d.nextHandle + i)
  {
    var s, addr := Staged(d, b, sizes, i, |sizes|), Addr(b, sizes, i);
    SumMonotone(sizes, i, |sizes|);
    forall a | a in s.mapped ensures a + s.mapped[a].size <= addr || addr + sizes[i] <= a {
      if a in Addrs(b, sizes, i) {
        TileBefore(b, sizes, d.nextHandle, i, a);
      } else {
        OtherMappingApart(d, regions, b, a);
      }
    }
    assert d.nextHandle + i in HandleRange(d.nextHandle, |sizes|);
  }

  lemma {:induction false} TileKept(d: Driver, e: Driver, base: nat, sizes: seq<nat>, h0: nat, k: nat)
    requires k < |sizes| && TileOk(d, base, sizes, h0, k)
    requires var a := Addr(base, sizes, k);
             a in e.mapped && e.mapped[a] == d.mapped[a] && h0 + k in e.live && e.live[h0 + k] == d.live[h0 + k]
    ensures TileOk(e, base, sizes, h0, k)
  {
  }

  lemma {:induction false} OtherRegionStaged(d: Driver, b: nat, sizes: seq<nat>, c: nat, r: Region)
    requires RegionOk(d, c, r) && Vacant(d, b, sizes)
    ensures RegionOk(Staged(d, b, sizes, |sizes|, |sizes|), c, r)
  {
    var s := Staged(d, b, sizes, |sizes|, |sizes|);
    forall k | 0 <= k < |r.sizes| ensures TileOk(s, c, r.sizes, r.h0, k) {
      assert TileOk(d, c, r.sizes, r.h0, k);
      TileKept(d, s, c, r.sizes, r.h0, k);
    }
  }

  lemma {:induction false} StagedMapping(d: Driver, regions: map<nat, Region>, b: nat, sizes: seq<nat>, a: nat)
    requires Vacant(d, b, sizes) && b !in regions && forall x <- d.mapped :: MappingOk(d, regions, x)
    requires a in Staged(d, b, sizes, |sizes|, |sizes|).mapped
    ensures MappingOk(Staged(d, b, sizes, |sizes|, |sizes|), regions[b := Region(sizes, d.nextHandle)], a)
  {
    var n := |sizes|;
    if a in Addrs(b, sizes, n) {
      AddrsAre(b, sizes, n, a);
      var k :| 0 <= k < n && a == Addr(b, sizes, k);
      TilesAt(b, sizes, d.nextHandle, n, k);
    } else {
      assert MappingOk(d, regions, a);
    }
  }

  lemma {:induction false} StagedHandle(d: Driver, b: nat, sizes: seq<nat>, h: nat)
    requires Vacant(d, b, sizes) && (forall g <- d.live :: HandleOk(d, g))
    requires h in Staged(d, b, sizes, |sizes|, |sizes|).live
    ensures HandleOk(Staged(d, b, sizes, |sizes|, |sizes|), h)
  {
    if h >= d.nextHandle {
      assert h in HandleRange(d.nextHandle, |sizes|) && h !in d.live;
      StagedTiles(d, b, sizes, |sizes|, |sizes|, h - d.nextHandle);
    } else {
      assert h in d.live && HandleOk(d, h);
    }
  }

  lemma {:induction false} StagedRegion(d: Driver, b: nat, sizes: seq<nat>)
    requires Vacant(d, b, sizes) && b in d.reserved && sizes != [] && Sum(sizes, |sizes|) == d.reserved[b]
    ensures RegionOk(Staged(d, b, sizes, |sizes|, |sizes|), b, Region(sizes, d.nextHandle))
  {
    forall k | 0 <= k < |sizes| ensures TileOk(Staged(d, b, sizes, |sizes|, |sizes|), b, sizes, d.nextHandle, k) {
      StagedTiles(d, b, sizes, |sizes|, |sizes|, k);
    }
  }

  /** Mapping a reservation chunk by chunk makes it a region and disturbs no other. */
  lemma {:induction false} MapRegion(d: Driver, regions: map<nat, Region>, b: nat, sizes: seq<nat>)
    requires Consistent(d, regions) && b in d.reserved && b !in regions
    requires sizes != [] && Positive(sizes) && Sum(sizes, |sizes|) == d.reserved[b]
    ensures Consistent(Staged(d, b, sizes, |sizes|, |sizes|), regions[b := Region(sizes, d.nextHandle)])
  {
    UnmappedIsVacant(d, regions, b, sizes);
    var s, rs := Staged(d, b, sizes, |sizes|, |sizes|), regions[b := Region(sizes, d.nextHandle)];
    forall c | c in rs ensures RegionOk(s, c, rs[c]) {
      if c == b {
        StagedRegion(d, b, sizes);
      } else {
        OtherRegionStaged(d, b, sizes, c, regions[c]);
      }
    }
    forall a | a in s.mapped ensures MappingOk(s, rs, a) {
      StagedMapping(d, regions, b, sizes, a);
    }
    forall h | h in s.live ensures HandleOk(s, h) {
      StagedHandle(d, b, sizes, h);
    }
  }

  // ----- Taking a region down -----

  lemma {:induction false} RegionsShareNothing(d: Driver, regions: map<nat, Region>, b: nat, c: nat, k: nat)
    requires Consistent(d, regions) && b in regions && c in regions && b != c && k < |regions[c].sizes|
    ensures Addr(c, regions[c].sizes, k) !in Addrs(b, regions[b].sizes, |regions[b].sizes|)
    ensures !(regions[b].h0 <= regions[c].h0 + k < regions[b].h0 + |regions[b].sizes|)
  {
    var r, q := regions[b], regions[c];
    assert RegionOk(d, b, r) && RegionOk(d, c, q);
    assert TileOk(d, c, q.sizes, q.h0, k);
    var a := Addr(c, q.sizes, k);
    forall j | 0 <= j < |r.sizes| ensures Addr(b, r.sizes, j) != a {
      assert TileOk(d, b, r.sizes, r.h0, j);
    }
    AddrsAre(b, r.sizes, |r.sizes|, a);
    var j := q.h0 + k - r.h0;
    assert 0 <= j < |r.sizes| ==> TileOk(d, b, r.sizes, r.h0, j);
  }

  lemma {:induction false} OtherRegionTorn(d: Driver, regions: map<nat, Region>, b: nat, c: nat)
    requires Consistent(d, regions) && b in regions && c in regions && b != c
    ensures var r := regions[b];
            RegionOk(Torn(d, b, r.sizes, r.h0, |r.sizes|, 0), c, regions[c])
  {
    var r, q := regions[b], regions[c];
    var t := Torn(d, b, r.sizes, r.h0, |r.sizes|, 0);
    assert RegionOk(d, c, q);
    forall k | 0 <= k < |q.sizes| ensures TileOk(t, c, q.sizes, q.h0, k) {
      assert TileOk(d, c, q.sizes, q.h0, k);
      RegionsShareNothing(d, regions, b, c, k);
      TileKept(d, t, c, q.sizes, q.h0, k);
    }
  }

  lemma {:induction false} TornMapping(d: Driver, regions: map<nat, Region>, b: nat, a: nat)
    requires Consistent(d, regions) && b in regions
    requires a in Torn(d, b, regions[b].sizes, regions[b].h0, |regions[b].sizes|, 0).mapped
    ensures MappingOk(Torn(d, b, regions[b].sizes, regions[b].h0, |regions[b].sizes|, 0), regions - {b}, a)
  {
    assert MappingOk(d, regions, a);
  }

  lemma {:induction false} TornHandle(d: Driver, regions: map<nat, Region>, b: nat, h: nat)
    requires Consistent(d, regions) && b in regions
    requires h in Torn(d, b, regions[b].sizes, regions[b].h0, |regions[b].sizes|, 0).live
    ensures HandleOk(Torn(d, b, regions[b].sizes, regions[b].h0, |regions[b].sizes|, 0), h)
  {
    var r := regions[b];
    assert HandleOk(d, h) && RegionOk(d, b, r);
    if d.live[h].mappedAt.Some? && !(r.h0 <= h < r.h0 + |r.sizes|) {
      var a := d.live[h].mappedAt.value;
      forall k | 0 <= k < |r.sizes| ensures Addr(b, r.sizes, k) != a {
        assert TileOk(d, b, r.sizes, r.h0, k);
      }
      AddrsAre(b, r.sizes, |r.sizes|, a);
    }
  }

  /** Unmapping a region leaves its reservation wholly unmapped and disturbs no other. */
  lemma {:induction false} TearRegion(d: Driver, regions: map<nat, Region>, b: nat)
    requires Consistent(d, regions) && b in regions
    ensures var r := regions[b];
            Consistent(Torn(d, b, r.sizes, r.h0, |r.sizes|, 0), regions - {b})
  {
    var r := regions[b];
    var t := Torn(d, b, r.sizes, r.h0, |r.sizes|, 0);
    forall c | c in regions - {b} ensures RegionOk(t, c, regions[c]) {
      OtherRegionTorn(d, regions, b, c);
    }
    forall a | a in t.mapped ensures MappingOk(t, regions - {b}, a) {
      TornMapping(d, regions, b, a);
    }
    forall h | h in t.live ensures HandleOk(t, h) {
      TornHandle(d, regions, b, h);
    }
  }

  // ----- The smaller steps -----

  lemma {:induction false} ReserveKeeps(d: Driver, regions: map<nat, Region>, base: nat, size: nat)
    requires Consistent(d, regions) && CanReserve(d, base, size)
    ensures base !in d.reserved && base !in regions
    ensures Consistent(d.(reserved := d.reserved[base := size]), regions)
  {
    var e := d.(reserved := d.reserved[base := size]);
    assert base !in d.reserved;
    forall b | b in regions ensures RegionOk(e, b, regions[b]) {
      assert RegionOk(d, b, regions[b]);
      forall k | 0 <= k < |regions[b].sizes| ensures TileOk(e, b, regions[b].sizes, regions[b].h0, k) {
        assert TileOk(d, b, regions[b].sizes, regions[b].h0, k);
      }
    }
    forall a | a in e.mapped ensures MappingOk(e, regions, a) {
      assert MappingOk(d, regions, a);
    }
    forall h | h in e.live ensures HandleOk(e, h) {
      assert HandleOk(d, h);
    }
  }

  lemma {:induction false} UnreserveKeeps(d: Driver, regions: map<nat, Region>, base: nat, size: nat)
    requires Consistent(d, regions) && CanFreeAddress(d, base, size)
    ensures base !in regions
    ensures Consistent(d.(reserved := d.reserved - {base}), regions)
  {
    var e := d.(reserved := d.reserved - {base});
    CanFreeIff(d, regions, base, size);
    forall b | b in regions ensures RegionOk(e, b, regions[b]) {
      assert RegionOk(d, b, regions[b]);
      forall k | 0 <= k < |regions[b].sizes| ensures TileOk(e, b, regions[b].sizes, regions[b].h0, k) {
        assert TileOk(d, b, regions[b].sizes, regions[b].h0, k);
      }
    }
    forall a | a in e.mapped ensures MappingOk(e, regions, a) {
      assert MappingOk(d, regions, a);
    }
    forall h | h in e.live ensures HandleOk(e, h) {
      assert HandleOk(d, h);
    }
  }

  /** A mapped range cannot be given back; an unmapped one can, if the size is right. */
  lemma {:induction false} CanFreeIff(d: Driver, regions: map<nat, Region>, base: nat, size: nat)
    requires Consistent(d, regions) && base in d.reserved
    ensures CanFreeAddress(d, base, size) <==> base !in regions && d.reserved[base] == size
  {
    if base in regions {
      assert RegionOk(d, base, regions[base]);
      assert TileOk(d, base, regions[base].sizes, regions[base].h0, 0);
    }
    forall a | a in d.mapped ensures d.mapped[a].home in regions {
      assert MappingOk(d, regions, a);
    }
  }

  /** Handle numbers may be used up, loose handles released and new ones created. */
  lemma {:induction false} HandlesKeep(d: Driver, regions: map<nat, Region>, e: Driver)
    requires Consistent(d, regions)
    requires e.reserved == d.reserved && e.mapped == d.mapped && e.nextHandle >= d.nextHandle
    requires forall h | h in d.live && d.live[h].mappedAt.Some? :: h in e.live && e.live[h] == d.live[h]
    requires forall h <- e.live ::
               h < e.nextHandle && (e.live[h].mappedAt == None || (h in d.live && e.live[h] == d.live[h]))
    ensures Consistent(e, regions)
  {
    forall b | b in regions ensures RegionOk(e, b, regions[b]) {
      assert RegionOk(d, b, regions[b]);
      forall k | 0 <= k < |regions[b].sizes| ensures TileOk(e, b, regions[b].sizes, regions[b].h0, k) {
        assert TileOk(d, b, regions[b].sizes, regions[b].h0, k);
      }
    }
    forall a | a in e.mapped ensures MappingOk(e, regions, a) {
      assert MappingOk(d, regions, a);
    }
    forall h | h in e.live ensures HandleOk(e, h) {
      if h in d.live {
        assert HandleOk(d, h);
      }
    }
  }
}
