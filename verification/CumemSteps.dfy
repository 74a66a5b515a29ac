/**
  csrc/cumem_allocator.cpp, ROCm path, as functions: every entry point is a function of the machine (driver,
  host cells, Python's table, error latch) and of the answers the driver and the host give.
*/
module CumemSteps {
  import opened ChunkTiling
  import opened CumemDriver

  /**
    What the Python side keeps per pointer: the aligned size, and per chunk its size and the host
    cell that holds its driver handle.  Chunk `k` uses cell `cell0 + k`.
  */
  datatype Record = Record(size: nat, sizes: seq<nat>, cell0: nat)

  /**
    Calls that acquire something ask the world: `says(t)` answers question number `t`.  `junk` is the
    content of fresh host memory.
  */
  datatype World = World(granularity: nat, says: nat -> bool, junk: nat -> nat)

  datatype Machine = Machine(
    driver: Driver,
    cells: map<nat, nat>,
    nextCell: nat,
    table: map<nat, Record>,
    callbacks: bool,
    errorCode: bool,
    asked: nat)

  /** A process that has done nothing yet. */
  const Fresh := Machine(Driver(map[], map[], map[], 0), map[], 0, map[], false, false, 0)

  /** How create_and_map ends. */
  datatype Outcome =
    | Mapped
    | NoAccess                // everything is mapped, setting the access rights failed
    | RolledBack(used: nat)   // `used` handles were created and released again
    | HandleLeaked            // chunk 0 was created although an error was already latched

  datatype MallocOutcome =
    | Granted(p: nat)
    | Refused                    // context, granularity or reservation failed, or an error was latched
    | ReservationLost(p: nat)    // an early return after the reservation
    | Undone(p: nat, o: Outcome) // mapping failed, the reservation was given back
    | MappingLost(p: nat)        // mapped without access rights, so the reservation could not be given back

  /**
    `HostFailure`: the entry is gone and nothing else happened; `held` if its host cells exist.
    `DanglingCells`: the code would use host cells that have been freed.
  */
  datatype FreeOutcome = NotFound | HostFailure(held: bool) | DanglingCells | Freed(returned: bool)

  datatype Op =
    | InitModule(callable: bool)
    | Malloc(size: nat, setting: Setting, at: nat)
    | Free(p: nat, size: nat)
    | Sleep(p: nat)
    | Wake(p: nat)

  datatype Reply =
    | Initialised(ok: bool)
    | Malloced(m: MallocOutcome)
    | FreeReply(f: FreeOutcome)
    | Slept(raised: bool)
    | Woke(awake: bool, o: Outcome)   // `awake`: the range was mapped already
    | NoEntry
    | NoHostMemory
    | Dangling

  /** How many of the next `n` answers are yes before the first no. */
  function Yes(says: nat -> bool, t: nat, n: nat): (k: nat)
    ensures k <= n
    decreases n
  {
    if n == 0 || !says(t) then 0 else 1 + Yes(says, t + 1, n - 1)
  }

  lemma {:induction false} YesIs(says: nat -> bool, t: nat, n: nat)
    ensures var k := Yes(says, t, n); (forall i | t <= i < t + k :: says(i)) && (k < n ==> !says(t + k))
    decreases n
  {
    if n > 0 && says(t) {
      YesIs(says, t + 1, n - 1);
    }
  }

  // ----- Host cells -----

  predicate HasCells(cells: map<nat, nat>, c0: nat, n: nat) {
    forall c | c0 <= c < c0 + n :: c in cells
  }

  /** The cells hold the consecutive handles from `h0`. */
  ghost predicate Holds(cells: map<nat, nat>, c0: nat, h0: nat, n: nat) {
    forall c | c0 <= c < c0 + n :: c in cells && cells[c] == h0 + (c - c0)
  }

  /** The cells from `c0` overwritten with the handles from `h0`. */
  function Stored(cells: map<nat, nat>, c0: nat, h0: nat, n: nat): map<nat, nat> {
    if n == 0 then cells else Stored(cells, c0, h0, n - 1)[c0 + n - 1 := h0 + n - 1]
  }

  lemma {:induction false} StoredIs(cells: map<nat, nat>, c0: nat, h0: nat, n: nat)
    ensures var m := Stored(cells, c0, h0, n);
            && HasCells(m, c0, n) && Holds(m, c0, h0, n)
            && (forall c <- cells :: c in m && (c0 <= c < c0 + n || m[c] == cells[c]))
            && (forall c <- m :: c in cells || c0 <= c < c0 + n)
  {
    if n > 0 {
      StoredIs(cells, c0, h0, n - 1);
    }
  }

  /** `n` fresh cells. */
  function Taken(cells: map<nat, nat>, junk: nat -> nat, c0: nat, n: nat): map<nat, nat> {
    if n == 0 then cells else Taken(cells, junk, c0, n - 1)[c0 + n - 1 := junk(c0 + n - 1)]
  }

  lemma {:induction false} TakenIs(cells: map<nat, nat>, junk: nat -> nat, c0: nat, n: nat)
    ensures var m := Taken(cells, junk, c0, n);
            && HasCells(m, c0, n)
            && (forall c <- cells :: c in m && (c0 <= c < c0 + n || m[c] == cells[c]))
            && (forall c <- m :: c in cells || c0 <= c < c0 + n)
  {
    if n > 0 {
      TakenIs(cells, junk, c0, n - 1);
    }
  }

  function Dropped(cells: map<nat, nat>, c0: nat, n: nat): map<nat, nat> {
    cells - HandleRange(c0, n)
  }

  // ----- The chunk loops -----

  function Released(d: Driver, cells: map<nat, nat>, c0: nat, n: nat): Driver
    requires HasCells(cells, c0, n)
  {
    if n == 0 then d else Release(Released(d, cells, c0, n - 1), cells[c0 + n - 1])
  }

  predicate AllReleased(d: Driver, cells: map<nat, nat>, c0: nat, n: nat)
    requires HasCells(cells, c0, n)
  {
    n == 0 || (AllReleased(d, cells, c0, n - 1) && cells[c0 + n - 1] in Released(d, cells, c0, n - 1).live)
  }

  function Unmapped(d: Driver, base: nat, sizes: seq<nat>, n: nat): Driver
    requires n <= |sizes|
  {
    if n == 0 then d
    else
      var e := Unmapped(d, base, sizes, n - 1);
      if CanUnmap(e, Addr(base, sizes, n - 1), sizes[n - 1]) then Unmap(e, Addr(base, sizes, n - 1)) else e
  }

  predicate AllUnmapped(d: Driver, base: nat, sizes: seq<nat>, n: nat)
    requires n <= |sizes|
  {
    n == 0 ||
    (AllUnmapped(d, base, sizes, n - 1) &&
     CanUnmap(Unmapped(d, base, sizes, n - 1), Addr(base, sizes, n - 1), sizes[n - 1]))
  }

  /** The driver after creating handles for the first `c` chunks. */
  function Created(d: Driver, sizes: seq<nat>, c: nat): Driver
    requires c <= |sizes|
  {
    if c == 0 then d else Create(Created(d, sizes, c - 1), sizes[c - 1])
  }

  /** The driver after mapping the first `i` chunks, whose handles count up from `h0`. */
  function MappedTo(d: Driver, base: nat, sizes: seq<nat>, h0: nat, i: nat): Driver
    requires i <= |sizes|
  {
    if i == 0 then d
    else Map(MappedTo(d, base, sizes, h0, i - 1), base, Addr(base, sizes, i - 1), sizes[i - 1], h0 + i - 1)
  }

  /** The first chunk, from `i` on, that is not mapped; question `t + k` is about chunk `k`. */
  function MapFrom(says: nat -> bool, t: nat, d: Driver, p: nat, sizes: seq<nat>, h0: nat, i: nat): (k: nat)
    requires i <= |sizes|
    ensures i <= k <= |sizes|
    decreases |sizes| - i
  {
    if i == |sizes| || !says(t + i) || !CanMap(MappedTo(d, p, sizes, h0, i), p, Addr(p, sizes, i), sizes[i], h0 + i)
    then i
    else MapFrom(says, t, d, p, sizes, h0, i + 1)
  }

  /** The driver after unmap_and_release. */
  function Teardown(d: Driver, p: nat, rec: Record, cells: map<nat, nat>): Driver
    requires HasCells(cells, rec.cell0, |rec.sizes|)
  {
    Released(Unmapped(d, p, rec.sizes, |rec.sizes|), cells, rec.cell0, |rec.sizes|)
  }

  /** No driver call of unmap_and_release fails. */
  predicate TeardownClean(d: Driver, p: nat, rec: Record, cells: map<nat, nat>)
    requires HasCells(cells, rec.cell0, |rec.sizes|)
  {
    && AllUnmapped(d, p, rec.sizes, |rec.sizes|)
    && AllReleased(Unmapped(d, p, rec.sizes, |rec.sizes|), cells, rec.cell0, |rec.sizes|)
  }

  // ----- The helpers of the C file -----

  /** The error latch after ensure_context, and the next question. */
  function Context(w: World, latched: bool, t: nat): (bool, nat) {
    var failed := latched || !w.says(t);
    if w.says(t + 1) then (failed, t + 2) else (failed || !w.says(t + 2) || !w.says(t + 3), t + 4)
  }

  /** ensure_context. */
  function InContext(w: World, m: Machine): Machine {
    var (failed, t) := Context(w, m.errorCode, m.asked);
    m.(errorCode := failed, asked := t)
  }

  /** create_and_map with an error latched: chunk 0 at most. */
  function CreateLatched(w: World, m: Machine, rec: Record): (r: (Machine, Outcome))
    requires rec.sizes != []
  {
    if w.says(m.asked)
    then (m.(driver := Create(m.driver, rec.sizes[0]), cells := m.cells[rec.cell0 := m.driver.nextHandle],
             asked := m.asked + 1), HandleLeaked)
    else (m.(asked := m.asked + 1), RolledBack(0))
  }

  /** The creation loop stops at chunk `c`. */
  function CreateStopped(m: Machine, rec: Record, c: nat): (r: (Machine, Outcome))
    requires c < |rec.sizes|
  {
    StoredIs(m.cells, rec.cell0, m.driver.nextHandle, c);
    var cells := Stored(m.cells, rec.cell0, m.driver.nextHandle, c);
    (m.(driver := Released(Created(m.driver, rec.sizes, c), cells, rec.cell0, c), cells := cells,
        errorCode := true, asked := m.asked + c + 1), RolledBack(c))
  }

  /** The machine with every handle created. */
  function AllCreated(m: Machine, rec: Record): Machine {
    m.(driver := Created(m.driver, rec.sizes, |rec.sizes|),
       cells := Stored(m.cells, rec.cell0, m.driver.nextHandle, |rec.sizes|),
       asked := m.asked + |rec.sizes|)
  }

  /** The mapping loop; the handles count up from `h0`. */
  function MapLoop(w: World, m: Machine, p: nat, rec: Record, h0: nat): (r: (Machine, bool))
    requires HasCells(m.cells, rec.cell0, |rec.sizes|)
  {
    var n, i := |rec.sizes|, MapFrom(w.says, m.asked, m.driver, p, rec.sizes, h0, 0);
    var e := MappedTo(m.driver, p, rec.sizes, h0, i);
    if i < n
    then (m.(driver := Released(Unmapped(e, p, rec.sizes, i), m.cells, rec.cell0, n), errorCode := true,
             asked := m.asked + i + 1), false)
    else (m.(driver := e, asked := m.asked + n), true)
  }

  lemma {:induction false} MapLoopIs(w: World, m: Machine, p: nat, rec: Record, h0: nat, i: nat)
    requires HasCells(m.cells, rec.cell0, |rec.sizes|) && i == MapFrom(w.says, m.asked, m.driver, p, rec.sizes, h0, 0)
    ensures var e := MappedTo(m.driver, p, rec.sizes, h0, i);
            MapLoop(w, m, p, rec, h0)
            == if i < |rec.sizes|
               then (m.(driver := Released(Unmapped(e, p, rec.sizes, i), m.cells, rec.cell0, |rec.sizes|),
                        errorCode := true,
                        asked := m.asked + i + 1), false)
               else (m.(driver := e, asked := m.asked + i), true)
  {
  }

  /** The mapping loop and the access rights, with every handle created. */
  function MapCreated(w: World, m: Machine, p: nat, rec: Record): (r: (Machine, Outcome))
    requires rec.sizes != []
  {
    StoredIs(m.cells, rec.cell0, m.driver.nextHandle, |rec.sizes|);
    var (m1, ok) := MapLoop(w, AllCreated(m, rec), p, rec, m.driver.nextHandle);
    if !ok then (m1, RolledBack(|rec.sizes|))
    else (m1.(errorCode := m1.errorCode || !w.says(m1.asked), asked := m1.asked + 1),
          if w.says(m1.asked) then Mapped else NoAccess)
  }

  /** create_and_map. */
  function CreateAndMap(w: World, m: Machine, p: nat, rec: Record): (r: (Machine, Outcome))
    requires rec.sizes != []
  {
    var m1 := InContext(w, m);
    var c := Yes(w.says, m1.asked, |rec.sizes|);
    if m1.errorCode then CreateLatched(w, m1, rec)
    else if c < |rec.sizes| then CreateStopped(m1, rec, c)
    else MapCreated(w, m1, p, rec)
  }

  /** unmap_and_release. */
  function UnmapAndRelease(w: World, m: Machine, p: nat, rec: Record): Machine
    requires HasCells(m.cells, rec.cell0, |rec.sizes|)
  {
    var c := InContext(w, m);
    c.(driver := Teardown(c.driver, p, rec, c.cells),
       errorCode := c.errorCode || !TeardownClean(c.driver, p, rec, c.cells))
  }

  /** cuMemAddressFree. */
  function GiveBack(m: Machine, p: nat, size: nat): Machine {
    if CanFreeAddress(m.driver, p, size) then m.(driver := m.driver.(reserved := m.driver.reserved - {p}))
    else m.(errorCode := true)
  }

  function DropCells(m: Machine, rec: Record): Machine {
    m.(cells := Dropped(m.cells, rec.cell0, |rec.sizes|))
  }

  // ----- The entry points -----

  /** my_malloc once the record is in the table. */
  function Commit(w: World, m: Machine, p: nat, rec: Record): (r: (Machine, MallocOutcome))
    requires rec.sizes != []
  {
    var (m1, o) := CreateAndMap(w, m, p, rec);
    if m1.errorCode
    then (DropCells(GiveBack(m1, p, rec.size), rec), if o == NoAccess then MappingLost(p) else Undone(p, o))
    else (m1, Granted(p))
  }

  /** Host cells for the chunks. */
  function TakeAll(w: World, m: Machine, n: nat): (r: (Machine, bool)) {
    var k := Yes(w.says, m.asked, n);
    var taken := Taken(m.cells, w.junk, m.nextCell, k);
    if k < n
    then (m.(cells := Dropped(taken, m.nextCell, k), nextCell := m.nextCell + k, asked := m.asked + k + 1), false)
    else (m.(cells := taken, nextCell := m.nextCell + k, asked := m.asked + k), true)
  }

  /** The callback that puts the record into the table. */
  function Announce(w: World, m: Machine, p: nat, rec: Record): (r: (Machine, bool)) {
    if !m.callbacks then (m, false)
    else if !w.says(m.asked) then (m.(asked := m.asked + 1), false)
    else (m.(table := m.table[p := rec], asked := m.asked + 1), true)
  }

  /** my_malloc once the range is reserved. */
  function Register(w: World, m: Machine, p: nat, size: nat, sizes: seq<nat>): (r: (Machine, MallocOutcome))
    requires sizes != []
  {
    var rec := Record(size, sizes, m.nextCell);
    var (m1, taken) := TakeAll(w, m, |sizes|);
    if !taken then (m1, ReservationLost(p))
    else
      var (m2, announced) := Announce(w, m1, p, rec);
      if !announced then (m2, ReservationLost(p)) else Commit(w, m2, p, rec)
  }

  /** The granularity query. */
  function Queried(w: World, m: Machine): Machine {
    var c := InContext(w, m);
    c.(errorCode := c.errorCode || !w.says(c.asked), asked := c.asked + 1)
  }

  /** cuMemAddressReserve at the address the driver picks. */
  function Reserve(w: World, m: Machine, p: nat, size: nat): (r: (Machine, bool)) {
    if w.says(m.asked) && CanReserve(m.driver, p, size)
    then (m.(driver := m.driver.(reserved := m.driver.reserved[p := size]), asked := m.asked + 1), true)
    else (m.(errorCode := true, asked := m.asked + 1), false)
  }

  /** my_malloc. */
  function MyMalloc(w: World, m: Machine, size: nat, setting: Setting, at: nat): (r: (Machine, MallocOutcome))
    requires w.granularity > 0
  {
    var m1 := Queried(w, m);
    if m1.errorCode then (m1, Refused)
    else
      var (m2, reserved) := Reserve(w, m1, at, AlignUp(size, w.granularity));
      if !reserved then (m2, Refused)
      else
        ChunksOfRequest(size, w.granularity, setting);
        AlignedToo(size, w.granularity);
        Register(w, m2, at, AlignUp(size, w.granularity), Chunks(size, w.granularity, setting))
  }

  /** The two host arrays of an entry point can be had. */
  predicate Arrays(w: World, t: nat) {
    w.says(t) && w.says(t + 1)
  }

  /** The machine once they are asked for. */
  function Asked(w: World, m: Machine): Machine {
    m.(asked := m.asked + if w.says(m.asked) then 2 else 1)
  }

  /** my_free. */
  function MyFree(w: World, m: Machine, p: nat, size: nat): (r: (Machine, FreeOutcome)) {
    if !m.callbacks || p !in m.table then (m, NotFound)
    else
      var rec, m1 := m.table[p], Asked(w, m.(table := m.table - {p}));
      if !Arrays(w, m.asked) then (m1, HostFailure(HasCells(m.cells, rec.cell0, |rec.sizes|)))
      else if !HasCells(m.cells, rec.cell0, |rec.sizes|) then (m1, DanglingCells)
      else
        var m2 := UnmapAndRelease(w, m1, p, rec);
        (DropCells(GiveBack(m2, p, size), rec), Freed(CanFreeAddress(m2.driver, p, size)))
  }

  /** python_unmap_and_release for an entry of the table: a latched error is raised and cleared. */
  function Sleeps(w: World, m: Machine, p: nat): (r: (Machine, Reply)) {
    if p !in m.table then (m, NoEntry)
    else
      var rec := m.table[p];
      if !Arrays(w, m.asked) then (Asked(w, m), NoHostMemory)
      else if !HasCells(m.cells, rec.cell0, |rec.sizes|) then (Asked(w, m), Dangling)
      else
        var m1 := UnmapAndRelease(w, Asked(w, m), p, rec);
        (m1.(errorCode := false), Slept(m1.errorCode))
  }

  /** python_create_and_map for an entry of the table: a latched error is raised and cleared. */
  function Wakes(w: World, m: Machine, p: nat): (r: (Machine, Reply)) {
    if p !in m.table then (m, NoEntry)
    else
      var rec := m.table[p];
      if !Arrays(w, m.asked) then (Asked(w, m), NoHostMemory)
      else if rec.sizes == [] || !HasCells(m.cells, rec.cell0, |rec.sizes|) then (Asked(w, m), Dangling)
      else
        var (m1, o) := CreateAndMap(w, Asked(w, m), p, rec);
        (m1.(errorCode := false), Woke(p in m.driver.mapped, o))
  }

  /** py_init_module. */
  function Initialise(m: Machine, callable: bool): (r: (Machine, Reply)) {
    (if callable then m.(callbacks := true) else m, Initialised(callable))
  }

  function Step(w: World, m: Machine, op: Op): (r: (Machine, Reply))
    requires w.granularity > 0
  {
    match op
    case InitModule(callable) => Initialise(m, callable)
    case Malloc(size, setting, at) => var (m1, o) := MyMalloc(w, m, size, setting, at); (m1, Malloced(o))
    case Free(p, size) =>
      var (m1, o) := MyFree(w, m, p, size); (m1, if o == DanglingCells then Dangling else FreeReply(o))
    case Sleep(p) => Sleeps(w, m, p)
    case Wake(p) => Wakes(w, m, p)
  }

  /** CuMemAllocator.sleep without the backup: the entries in order, up to the first call that fails. */
  function SleepEach(w: World, m: Machine, order: seq<nat>): (r: (Machine, Reply))
    decreases |order|
  {
    if order == [] then (m, Slept(false))
    else
      var (m1, reply) := Sleeps(w, m, order[0]);
      if reply == Slept(false) then SleepEach(w, m1, order[1..]) else (m1, reply)
  }

  /** CuMemAllocator.wake_up without the backup, over the entries that are selected. */
  function WakeEach(w: World, m: Machine, order: seq<nat>): (r: (Machine, Reply))
    decreases |order|
  {
    if order == [] then (m, Woke(false, Mapped))
    else
      var (m1, reply) := Wakes(w, m, order[0]);
      if reply.Woke? && reply.o == Mapped then WakeEach(w, m1, order[1..]) else (m1, reply)
  }

  /** The calls one after the other; after a dangling access nothing is said any more. */
  function RunOps(w: World, m: Machine, ops: seq<Op>): (r: (Machine, seq<Reply>))
    requires w.granularity > 0
    ensures |r.1| <= |ops|
    decreases |ops|
  {
    if ops == [] then (m, [])
    else
      var (m1, reply) := Step(w, m, ops[0]);
      if reply == Dangling then (m1, [reply])
      else
        var (m2, replies) := RunOps(w, m1, ops[1..]);
        (m2, [reply] + replies)
  }
}
