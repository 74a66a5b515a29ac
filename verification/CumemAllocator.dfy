/**
  The allocator of csrc/cumem_allocator.cpp, ROCm path, as the object it is: global state changed step by
  step, loops over chunks with their rollback, and a latched error.  Every method is proved equal to its
  function in `CumemSteps`; what those keep, lose and answer is in `CumemRuns` and `CumemClient`.
*/
module CumemAllocator {
  import opened ChunkTiling
  import opened CumemDriver
  import opened CumemSteps

  class Allocator {
    const world: World
    var driver: Driver
    var cells: map<nat, nat>
    var nextCell: nat
    var table: map<nat, Record>
    var callbacks: bool
    var errorCode: bool
    var asked: nat

    function State(): Machine
      reads this
    {
      Machine(driver, cells, nextCell, table, callbacks, errorCode, asked)
    }

    constructor (world: World)
      ensures this.world == world && State() == Fresh
    {
      this.world := world;
      driver, cells, nextCell, table := Driver(map[], map[], map[], 0), map[], 0, map[];
      callbacks, errorCode, asked := false, false, 0;
    }

    method Ask() returns (yes: bool)
      modifies this`asked
      ensures yes == world.says(old(asked)) && asked == old(asked) + 1
    {
      yes := world.says(asked);
      asked := asked + 1;
    }

    /** CUDA_CHECK around a call that may fail at will. */
    method Check() returns (yes: bool)
      modifies this`asked, this`errorCode
      ensures yes == world.says(old(asked)) && asked == old(asked) + 1 && errorCode == (old(errorCode) || !yes)
    {
      yes := Ask();
      if !yes {
        errorCode := true;
      }
    }

    method EnsureContext()
      modifies this`asked, this`errorCode
      ensures State() == InContext(world, old(State()))
    {
      var _ := Check();
      var present := Ask();
      if !present {
        var _ := Check();
        var _ := Check();
      }
    }

    // ----- The chunk loops -----

    method UnmapChunks(p: nat, sizes: seq<nat>, n: nat) returns (ok: bool)
      requires n <= |sizes|
      modifies this`driver
      ensures driver == Unmapped(old(driver), p, sizes, n)
      ensures ok <==> AllUnmapped(old(driver), p, sizes, n)
    {
      ok := true;
      var offset := 0;
      for i := 0 to n
        invariant offset == Sum(sizes, i)
        invariant driver == Unmapped(old(driver), p, sizes, i)
        invariant ok <==> AllUnmapped(old(driver), p, sizes, i)
      {
        if CanUnmap(driver, p + offset, sizes[i]) {
          driver := Unmap(driver, p + offset);
        } else {
          ok := false;
        }
        offset := offset + sizes[i];
      }
    }

    method ReleaseChunks(c0: nat, n: nat) returns (ok: bool)
      requires HasCells(cells, c0, n)
      modifies this`driver
      ensures driver == Released(old(driver), cells, c0, n)
      ensures ok <==> AllReleased(old(driver), cells, c0, n)
    {
      ok := true;
      for i := 0 to n
        invariant driver == Released(old(driver), cells, c0, i)
        invariant ok <==> AllReleased(old(driver), cells, c0, i)
      {
        if cells[c0 + i] !in driver.live {
          ok := false;
        }
        driver := Release(driver, cells[c0 + i]);
      }
    }

    /** cuMemCreate into a host cell. */
    method TryCreate(cell: nat, size: nat) returns (created: bool)
      modifies this`driver, this`cells, this`errorCode, this`asked
      ensures created == world.says(old(asked)) && asked == old(asked) + 1 && errorCode == (old(errorCode) || !created)
      ensures driver == if created then Create(old(driver), size) else old(driver)
      ensures cells == if created then old(cells)[cell := old(driver).nextHandle] else old(cells)
    {
      created := Check();
      if created {
        cells := cells[cell := driver.nextHandle];
        driver := Create(driver, size);
      }
    }

    /** cuMemMap: refused at will, or because the request is not valid. */
    method TryMap(home: nat, addr: nat, size: nat, h: nat) returns (mapped: bool)
      modifies this`driver, this`errorCode, this`asked
      ensures mapped == (world.says(old(asked)) && CanMap(old(driver), home, addr, size, h))
      ensures asked == old(asked) + 1 && errorCode == (old(errorCode) || !mapped)
      ensures driver == if mapped then Map(old(driver), home, addr, size, h) else old(driver)
    {
      mapped := Ask();
      mapped := mapped && CanMap(driver, home, addr, size, h);
      if mapped {
        driver := Map(driver, home, addr, size, h);
      } else {
        errorCode := true;
      }
    }

    /** The creation loop with no error latched; a failure releases the earlier handles. */
    method CreateChunks(rec: Record) returns (at: nat)
      requires !errorCode
      modifies this`driver, this`cells, this`errorCode, this`asked
      ensures at == Yes(world.says, old(asked), |rec.sizes|) && (errorCode <==> at < |rec.sizes|)
      ensures cells == Stored(old(cells), rec.cell0, old(driver).nextHandle, at) && HasCells(cells, rec.cell0, at)
      ensures asked == old(asked) + at + if errorCode then 1 else 0
      ensures !errorCode ==> driver == Created(old(driver), rec.sizes, at)
      ensures errorCode ==> driver == Released(Created(old(driver), rec.sizes, at), cells, rec.cell0, at)
    {
      ghost var d0, cells0, t := driver, cells, asked;
      at := 0;
      while at < |rec.sizes|
        invariant at <= |rec.sizes| && !errorCode && asked == t + at
        invariant Yes(world.says, t, |rec.sizes|) == at + Yes(world.says, t + at, |rec.sizes| - at)
        invariant driver == Created(d0, rec.sizes, at) && driver.nextHandle == d0.nextHandle + at
        invariant cells == Stored(cells0, rec.cell0, d0.nextHandle, at)
      {
        var _ := TryCreate(rec.cell0 + at, rec.sizes[at]);
        if errorCode {
          StoredIs(cells0, rec.cell0, d0.nextHandle, at);
          var _ := ReleaseChunks(rec.cell0, at);
          return;
        }
        at := at + 1;
      }
      StoredIs(cells0, rec.cell0, d0.nextHandle, at);
    }

    /** One chunk of the mapping loop. */
    method MapNext(p: nat, rec: Record, at: nat, offset: nat, ghost h0: nat, ghost d0: Driver,
                   ghost t: nat) returns (ok: bool)
      requires at < |rec.sizes| && offset == Sum(rec.sizes, at) && !errorCode && asked == t + at
      requires rec.cell0 + at in cells && cells[rec.cell0 + at] == h0 + at
      requires driver == MappedTo(d0, p, rec.sizes, h0, at)
      modifies this`driver, this`errorCode, this`asked
      ensures asked == t + at + 1 && (errorCode <==> !ok)
      ensures driver == MappedTo(d0, p, rec.sizes, h0, if ok then at + 1 else at)
      ensures MapFrom(world.says, t, d0, p, rec.sizes, h0, at)
              == if ok then MapFrom(world.says, t, d0, p, rec.sizes, h0, at + 1) else at
    {
      ok := TryMap(p, p + offset, rec.sizes[at], cells[rec.cell0 + at]);
    }

    /** The rollback of the mapping loop: unmap the first `at` chunks and release every handle. */
    method RollBack(p: nat, rec: Record, at: nat)
      requires at <= |rec.sizes| && HasCells(cells, rec.cell0, |rec.sizes|)
      modifies this`driver
      ensures driver == Released(Unmapped(old(driver), p, rec.sizes, at), cells, rec.cell0, |rec.sizes|)
    {
      var _ := UnmapChunks(p, rec.sizes, at);
      var _ := ReleaseChunks(rec.cell0, |rec.sizes|);
    }

    /** The mapping loop; a failure is rolled back. */
    method MapEach(p: nat, rec: Record, ghost h0: nat) returns (ok: bool, ghost at: nat)
      requires !errorCode && HasCells(cells, rec.cell0, |rec.sizes|) && Holds(cells, rec.cell0, h0, |rec.sizes|)
      modifies this`driver, this`errorCode, this`asked
      ensures at == MapFrom(world.says, old(asked), old(driver), p, rec.sizes, h0, 0)
      ensures (ok <==> at == |rec.sizes|) && errorCode == !ok && asked == old(asked) + at + if ok then 0 else 1
      ensures var e := MappedTo(old(driver), p, rec.sizes, h0, at);
              driver == if ok then e else Released(Unmapped(e, p, rec.sizes, at), cells, rec.cell0, |rec.sizes|)
    {
      ghost var d0, t := driver, asked;
      var offset, i := 0, 0;
      while i < |rec.sizes|
        invariant i <= |rec.sizes| && offset == Sum(rec.sizes, i) && !errorCode && asked == t + i
        invariant MapFrom(world.says, t, d0, p, rec.sizes, h0, 0) == MapFrom(world.says, t, d0, p, rec.sizes, h0, i)
        invariant driver == MappedTo(d0, p, rec.sizes, h0, i)
      {
        ok := MapNext(p, rec, i, offset, h0, d0, t);
        if errorCode {
          RollBack(p, rec, i);
          at := i;
          return;
        }
        offset := offset + rec.sizes[i];
        i := i + 1;
      }
      ok, at := true, i;
    }

    method MapChunks(p: nat, rec: Record, ghost h0: nat) returns (ok: bool)
      requires !errorCode && HasCells(cells, rec.cell0, |rec.sizes|) && Holds(cells, rec.cell0, h0, |rec.sizes|)
      modifies this`driver, this`errorCode, this`asked
      ensures (State(), ok) == MapLoop(world, old(State()), p, rec, h0)
    {
      ghost var m, at := State(), 0;
      ok, at := MapEach(p, rec, h0);
      MapLoopIs(world, m, p, rec, h0, at);
    }

    /** create_and_map with an error already latched: the creation loop stops at chunk 0, released or not. */
    method CreateUnderError(rec: Record) returns (o: Outcome)
      requires errorCode && rec.sizes != []
      modifies this`driver, this`cells, this`errorCode, this`asked
      ensures (State(), o) == CreateLatched(world, old(State()), rec)
    {
      var created := TryCreate(rec.cell0, rec.sizes[0]);
      o := if created then HandleLeaked else RolledBack(0);
    }

    /** The mapping loop and the access rights. */
    method MapAndGrant(p: nat, rec: Record, ghost m: Machine) returns (o: Outcome)
      requires rec.sizes != [] && !m.errorCode && State() == AllCreated(m, rec)
      modifies this`driver, this`errorCode, this`asked
      ensures (State(), o) == MapCreated(world, m, p, rec)
    {
      StoredIs(m.cells, rec.cell0, m.driver.nextHandle, |rec.sizes|);
      var ok := MapChunks(p, rec, m.driver.nextHandle);
      if errorCode {
        return RolledBack(|rec.sizes|);
      }
      var granted := Check();
      o := if granted then Mapped else NoAccess;
    }

    method CreateAndMap(p: nat, rec: Record) returns (o: Outcome)
      requires rec.sizes != []
      modifies this`driver, this`cells, this`errorCode, this`asked
      ensures (State(), o) == CumemSteps.CreateAndMap(world, old(State()), p, rec)
    {
      EnsureContext();
      ghost var m := State();
      if errorCode {
        o := CreateUnderError(rec);
        return;
      }
      var at := CreateChunks(rec);
      if errorCode {
        assert State() == CreateStopped(m, rec, at).0;
        return RolledBack(at);
      }
      o := MapAndGrant(p, rec, m);
    }

    method UnmapAndRelease(p: nat, rec: Record)
      requires HasCells(cells, rec.cell0, |rec.sizes|)
      modifies this`driver, this`errorCode, this`asked
      ensures State() == CumemSteps.UnmapAndRelease(world, old(State()), p, rec)
    {
      EnsureContext();
      var unmapped := UnmapChunks(p, rec.sizes, |rec.sizes|);
      var released := ReleaseChunks(rec.cell0, |rec.sizes|);
      if !(unmapped && released) {
        errorCode := true;
      }
    }

    method GiveBack(p: nat, size: nat)
      modifies this`driver, this`errorCode
      ensures State() == CumemSteps.GiveBack(old(State()), p, size)
    {
      if CanFreeAddress(driver, p, size) {
        driver := driver.(reserved := driver.reserved - {p});
      } else {
        errorCode := true;
      }
    }

    // ----- The entry points -----

    /** py_init_module. */
    method InitModule(callable: bool) returns (ok: bool)
      modifies this`callbacks
      ensures (State(), Initialised(ok)) == Initialise(old(State()), callable)
    {
      if callable {
        callbacks := true;
      }
      ok := callable;
    }

    /** One host cell per chunk; if one cannot be had, those before it are freed. */
    method TakeEach(n: nat) returns (ok: bool, ghost k: nat)
      modifies this`cells, this`nextCell, this`asked
      ensures k == Yes(world.says, old(asked), n) && (ok <==> k == n) && nextCell == old(nextCell) + k
      ensures asked == old(asked) + k + if ok then 0 else 1
      ensures var taken := Taken(old(cells), world.junk, old(nextCell), k);
              cells == if ok then taken else Dropped(taken, old(nextCell), k)
    {
      ghost var cells0, t := cells, asked;
      var c0 := nextCell;
      for i := 0 to n
        invariant nextCell == c0 + i && asked == t + i && cells == Taken(cells0, world.junk, c0, i)
        invariant Yes(world.says, t, n) == i + Yes(world.says, t + i, n - i)
      {
        ok := Ask();
        if !ok {
          cells := Dropped(cells, c0, i);
          k := i;
          return;
        }
        cells := cells[nextCell := world.junk(nextCell)];
        nextCell := nextCell + 1;
      }
      ok, k := true, n;
    }

    method TakeCells(n: nat) returns (ok: bool)
      modifies this`cells, this`nextCell, this`asked
      ensures (State(), ok) == TakeAll(world, old(State()), n)
    {
      ghost var k;
      ok, k := TakeEach(n);
    }

    /** my_malloc once the record is in the table. */
    method Commit(p: nat, rec: Record) returns (o: MallocOutcome)
      requires rec.sizes != []
      modifies this`driver, this`cells, this`errorCode, this`asked
      ensures (State(), o) == CumemSteps.Commit(world, old(State()), p, rec)
    {
      var m := CreateAndMap(p, rec);
      if errorCode {
        GiveBack(p, rec.size);
        cells := Dropped(cells, rec.cell0, |rec.sizes|);
        return if m == NoAccess then MappingLost(p) else Undone(p, m);
      }
      o := Granted(p);
    }

    /** The callback that puts the record into the table. */
    method Announce(p: nat, rec: Record) returns (ok: bool)
      modifies this`table, this`asked
      ensures (State(), ok) == CumemSteps.Announce(world, old(State()), p, rec)
    {
      if !callbacks {
        return false;
      }
      ok := Ask();
      if ok {
        table := table[p := rec];
      }
    }

    /** my_malloc once the range is reserved. */
    method Register(p: nat, size: nat, sizes: seq<nat>) returns (o: MallocOutcome)
      requires sizes != []
      modifies this`driver, this`cells, this`nextCell, this`table, this`errorCode, this`asked
      ensures (State(), o) == CumemSteps.Register(world, old(State()), p, size, sizes)
    {
      var rec := Record(size, sizes, nextCell);
      var ok := TakeCells(|sizes|);
      if !ok {
        return ReservationLost(p);
      }
      ok := Announce(p, rec);
      if !ok {
        return ReservationLost(p);
      }
      o := Commit(p, rec);
    }

    method QueryGranularity()
      modifies this`errorCode, this`asked
      ensures State() == Queried(world, old(State()))
    {
      EnsureContext();
      var _ := Check();
    }

    /** cuMemAddressReserve. */
    method Reserve(p: nat, size: nat) returns (ok: bool)
      modifies this`driver, this`errorCode, this`asked
      ensures (State(), ok) == CumemSteps.Reserve(world, old(State()), p, size)
    {
      ok := Ask();
      ok := ok && CanReserve(driver, p, size);
      if ok {
        driver := driver.(reserved := driver.reserved[p := size]);
      } else {
        errorCode := true;
      }
    }

    method MyMalloc(size: nat, setting: Setting, at: nat) returns (o: MallocOutcome)
      requires world.granularity > 0
      modifies this
      ensures (State(), o) == CumemSteps.MyMalloc(world, old(State()), size, setting, at)
    {
      QueryGranularity();
      if errorCode {
        return Refused;
      }
      var aligned, sizes := PlanChunks(size, world.granularity, setting);
      ChunksOfRequest(size, world.granularity, setting);
      AlignedToo(size, world.granularity);
      var reserved := Reserve(at, aligned);
      if !reserved {
        return Refused;
      }
      o := Register(at, aligned, sizes);
    }

    /** The two arrays of my_free and the Python entry points. */
    method HostArrays() returns (ok: bool)
      modifies this`asked
      ensures State() == Asked(world, old(State())) && (ok <==> Arrays(world, old(asked)))
    {
      ok := Ask();
      if ok {
        ok := Ask();
      }
    }

    method MyFree(p: nat, size: nat) returns (o: FreeOutcome)
      modifies this
      ensures (State(), o) == CumemSteps.MyFree(world, old(State()), p, size)
    {
      if !callbacks || p !in table {
        return NotFound;
      }
      var rec := table[p];
      table := table - {p};
      var ok := HostArrays();
      if !ok {
        return HostFailure(HasCells(cells, rec.cell0, |rec.sizes|));
      }
      if !HasCells(cells, rec.cell0, |rec.sizes|) {
        return DanglingCells;
      }
      UnmapAndRelease(p, rec);
      o := Freed(CanFreeAddress(driver, p, size));
      GiveBack(p, size);
      cells := Dropped(cells, rec.cell0, |rec.sizes|);
    }

    /** python_unmap_and_release. */
    method PyUnmapAndRelease(p: nat) returns (r: Reply)
      modifies this`driver, this`errorCode, this`asked
      ensures (State(), r) == Sleeps(world, old(State()), p)
    {
      if p !in table {
        return NoEntry;
      }
      var rec := table[p];
      var ok := HostArrays();
      if !ok {
        return NoHostMemory;
      }
      if !HasCells(cells, rec.cell0, |rec.sizes|) {
        return Dangling;
      }
      UnmapAndRelease(p, rec);
      r := Slept(errorCode);
      errorCode := false;
    }

    /** python_create_and_map. */
    method PyCreateAndMap(p: nat) returns (r: Reply)
      modifies this`driver, this`cells, this`errorCode, this`asked
      ensures (State(), r) == Wakes(world, old(State()), p)
    {
      if p !in table {
        return NoEntry;
      }
      var rec := table[p];
      var ok := HostArrays();
      if !ok {
        return NoHostMemory;
      }
      if rec.sizes == [] || !HasCells(cells, rec.cell0, |rec.sizes|) {
        return Dangling;
      }
      var awake := p in driver.mapped;
      var o := CreateAndMap(p, rec);
      r := Woke(awake, o);
      errorCode := false;
    }

    /** The loop of CuMemAllocator.sleep; an exception leaves it. */
    method SleepAll(order: seq<nat>) returns (r: Reply)
      modifies this`driver, this`errorCode, this`asked
      ensures (State(), r) == SleepEach(world, old(State()), order)
    {
      for i := 0 to |order|
        invariant SleepEach(world, old(State()), order) == SleepEach(world, State(), order[i..])
      {
        assert order[i..][1..] == order[i + 1..];
        r := PyUnmapAndRelease(order[i]);
        if r != Slept(false) {
          return;
        }
      }
      r := Slept(false);
    }

    /** The loop of CuMemAllocator.wake_up; an exception leaves it. */
    method WakeAll(order: seq<nat>) returns (r: Reply)
      modifies this`driver, this`cells, this`errorCode, this`asked
      ensures (State(), r) == WakeEach(world, old(State()), order)
    {
      for i := 0 to |order|
        invariant WakeEach(world, old(State()), order) == WakeEach(world, State(), order[i..])
      {
        assert order[i..][1..] == order[i + 1..];
        r := PyCreateAndMap(order[i]);
        if !(r.Woke? && r.o == Mapped) {
          return;
        }
      }
      r := Woke(false, Mapped);
    }

    method Step(op: Op) returns (r: Reply)
      requires world.granularity > 0
      modifies this
      ensures (State(), r) == CumemSteps.Step(world, old(State()), op)
    {
      match op
      case InitModule(callable) =>
        var ok := InitModule(callable);
        r := Initialised(ok);
      case Malloc(size, setting, at) =>
        var o := MyMalloc(size, setting, at);
        r := Malloced(o);
      case Free(p, size) =>
        var o := MyFree(p, size);
        r := if o == DanglingCells then Dangling else FreeReply(o);
      case Sleep(p) =>
        r := PyUnmapAndRelease(p);
      case Wake(p) =>
        r := PyCreateAndMap(p);
    }

    /** Any calls in any order, up to a dangling access. */
    method Run(ops: seq<Op>) returns (replies: seq<Reply>)
      requires world.granularity > 0
      modifies this
      ensures (State(), replies) == RunOps(world, old(State()), ops)
    {
      replies := [];
      ghost var want := RunOps(world, State(), ops);
      assert ops[0..] == ops && [] + want.1 == want.1;
      for i := 0 to |ops|
        invariant var rest := RunOps(world, State(), ops[i..]); want == (rest.0, replies + rest.1)
      {
        ghost var rest := RunOps(world, State(), ops[i..]);
        assert ops[i..][1..] == ops[i + 1..];
        var r := Step(ops[i]);
        if r == Dangling {
          return replies + [r];
        }
        assert replies + rest.1 == replies + [r] + RunOps(world, State(), ops[i + 1..]).1;
        replies := replies + [r];
      }
      assert replies + [] == replies;
    }
  }
}
