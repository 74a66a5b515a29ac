/**
  Whole runs of the allocator: any sequence of calls, any answers of driver and host.  The books stay right
  after every call, and the replies tell exactly whether anything was lost on the way.
*/
module CumemRuns {
  import opened ChunkTiling
  import opened CumemDriver
  import opened CumemSteps
  import opened CumemSafety
  import opened CumemTeardown
  import opened CumemBooks
  import opened CumemOperations
  import opened CumemSleepWake

  /** The replies after which a reservation, a handle or a host cell's content is lost for good. */
  predicate Losing(r: Reply) {
    match r
    case Initialised(_) => false
    case Malloced(o) => o.ReservationLost? || o.MappingLost? || (o.Undone? && o.o == HandleLeaked)
    case FreeReply(o) => (o.HostFailure? && o.held) || o == Freed(false)
    case Slept(_) => false
    case Woke(awake, o) => o == HandleLeaked || (awake && o.RolledBack? && o.used > 0)
    case NoEntry => false
    case NoHostMemory => false
    case Dangling => true
  }

  /** No reservation and no handle more than before is out of reach, and every mapped range is intact. */
  ghost predicate Unharmed(m: Machine, b: Books, m1: Machine, b1: Books) {
    b1.lost <= b.lost && Loose(m1.driver) <= Loose(m.driver) && AllIntact(m1, b1)
  }

  // ----- One call -----

  lemma {:induction false} MallocSound(w: World, m: Machine, b: Books, size: nat, setting: Setting, at: nat)
    requires w.granularity > 0 && Sound(m, b)
    ensures var (m1, o) := CumemSteps.MyMalloc(w, m, size, setting, at);
            Sound(m1, MallocBooks(w, m, b, size, setting, o))
  {
    MallocKeeps(w, m, b, size, setting, at);
  }

  lemma {:induction false} FreeSound(w: World, m: Machine, b: Books, p: nat, size: nat)
    requires Sound(m, b)
    ensures var (m1, o) := CumemSteps.MyFree(w, m, p, size); Sound(m1, FreeBooks(b, p, o))
  {
    FreeKeeps(w, m, b, p, size);
  }

  function SleptBooks(b: Books, p: nat, r: Reply): Books {
    if r.Slept? then AsleepBooks(b, p) else b
  }

  lemma {:induction false} SleepSound(w: World, m: Machine, b: Books, p: nat)
    requires Sound(m, b)
    ensures var (m1, r) := Sleeps(w, m, p); Sound(m1, SleptBooks(b, p, r))
  {
    SleepKeeps(w, m, b, p);
  }

  function WokenBooks(m: Machine, b: Books, p: nat, r: Reply): Books {
    if r.Woke? && p in b.owned then MapBooks(b, p, b.owned[p].sizes, m.driver.nextHandle, r.o) else b
  }

  lemma {:induction false} WakeSound(w: World, m: Machine, b: Books, p: nat)
    requires Sound(m, b)
    ensures var (m1, r) := Wakes(w, m, p); Sound(m1, WokenBooks(m, b, p, r))
  {
    WakeKeeps(w, m, b, p);
  }

  /** The books after a call, from the reply alone. */
  function NextBooks(w: World, m: Machine, b: Books, op: Op, r: Reply): Books
    requires w.granularity > 0
  {
    match op
    case InitModule(_) => b
    case Malloc(size, setting, _) => if r.Malloced? then MallocBooks(w, m, b, size, setting, r.m) else b
    case Free(p, _) => if r.FreeReply? then FreeBooks(b, p, r.f) else b
    case Sleep(p) => SleptBooks(b, p, r)
    case Wake(p) => WokenBooks(m, b, p, r)
  }

  /** Every call keeps the books right. */
  lemma {:induction false} StepSound(w: World, m: Machine, b: Books, op: Op)
    requires w.granularity > 0 && Sound(m, b)
    ensures var (m1, r) := Step(w, m, op); Sound(m1, NextBooks(w, m, b, op, r))
  {
    match op
    case InitModule(callable) => FlagsKeep(m, b, Initialise(m, callable).0);
    case Malloc(size, setting, at) => MallocSound(w, m, b, size, setting, at);
    case Free(p, size) => FreeSound(w, m, b, p, size);
    case Sleep(p) => SleepSound(w, m, b, p);
    case Wake(p) => WakeSound(w, m, b, p);
  }

  lemma {:induction false} LeakIff(m: Machine, b: Books, o: Outcome)
    requires Sound(m, b)
    ensures Loose(m.driver) + Leak(m.driver, o) <= Loose(m.driver) <==> o != HandleLeaked
  {
    SoundHandlesBelow(m.driver, b.regions);
    if o == HandleLeaked {
      assert m.driver.nextHandle in Loose(m.driver) + Leak(m.driver, o);
    } else {
      assert Loose(m.driver) + Leak(m.driver, o) == Loose(m.driver);
    }
  }

  lemma {:induction false} MallocLosesIff(w: World, m: Machine, b: Books, size: nat, setting: Setting, at: nat)
    requires w.granularity > 0 && Sound(m, b) && AllIntact(m, b)
    ensures var (m1, o) := CumemSteps.MyMalloc(w, m, size, setting, at);
            Unharmed(m, b, m1, MallocBooks(w, m, b, size, setting, o)) <==> !Losing(Malloced(o))
  {
    MallocKeeps(w, m, b, size, setting, at);
    var (m1, o) := CumemSteps.MyMalloc(w, m, size, setting, at);
    LeakIff(m, b, if o.Undone? then o.o else Mapped);
    assert !o.Refused? ==> o.p !in b.lost;
  }

  lemma {:induction false} FreeLosesIff(w: World, m: Machine, b: Books, p: nat, size: nat)
    requires Sound(m, b) && AllIntact(m, b) && CumemSteps.MyFree(w, m, p, size).1 != DanglingCells
    ensures var (m1, o) := CumemSteps.MyFree(w, m, p, size);
            Unharmed(m, b, m1, FreeBooks(b, p, o)) <==> !Losing(FreeReply(o))
  {
    FreeKeeps(w, m, b, p, size);
    assert p in b.owned ==> p !in b.lost;
  }

  lemma {:induction false} SleepLosesNothing(w: World, m: Machine, b: Books, p: nat)
    requires Sound(m, b) && AllIntact(m, b)
    ensures var (m1, r) := Sleeps(w, m, p);
            Unharmed(m, b, m1, SleptBooks(b, p, r))
  {
    SleepKeeps(w, m, b, p);
  }

  lemma {:induction false} WokeLosesIff(m: Machine, b: Books, m1: Machine, p: nat, r: Reply)
    requires Sound(m, b) && AllIntact(m, b) && r.Woke? && WakeOk(m, b, m1, p, r)
    ensures Unharmed(m, b, m1, WokenBooks(m, b, p, r)) <==> !Losing(r)
  {
    LeakIff(m, b, r.o);
  }

  lemma {:induction false} WakeLosesIff(w: World, m: Machine, b: Books, p: nat)
    requires Sound(m, b) && AllIntact(m, b) && Wakes(w, m, p).1 != Dangling
    ensures var (m1, r) := Wakes(w, m, p); Unharmed(m, b, m1, WokenBooks(m, b, p, r)) <==> !Losing(r)
  {
    var (m1, r) := Wakes(w, m, p);
    WakeKeeps(w, m, b, p);
    if r.Woke? {
      WokeLosesIff(m, b, m1, p, r);
    }
  }

  /** The reply of a call tells whether it lost anything. */
  lemma {:induction false} StepLosesIff(w: World, m: Machine, b: Books, op: Op)
    requires w.granularity > 0 && Sound(m, b) && AllIntact(m, b) && Step(w, m, op).1 != Dangling
    ensures var (m1, r) := Step(w, m, op); Unharmed(m, b, m1, NextBooks(w, m, b, op, r)) <==> !Losing(r)
  {
    match op
    case InitModule(callable) => FlagsKeep(m, b, Initialise(m, callable).0);
    case Malloc(size, setting, at) => MallocLosesIff(w, m, b, size, setting, at);
    case Free(p, size) => FreeLosesIff(w, m, b, p, size);
    case Sleep(p) => SleepLosesNothing(w, m, b, p);
    case Wake(p) => WakeLosesIff(w, m, b, p);
  }

  // ----- Whole runs -----

  function RunBooks(w: World, m: Machine, b: Books, ops: seq<Op>): Books
    requires w.granularity > 0
    decreases |ops|
  {
    if ops == [] then b
    else
      var (m1, reply) := Step(w, m, ops[0]);
      if reply == Dangling then b else RunBooks(w, m1, NextBooks(w, m, b, ops[0], reply), ops[1..])
  }

  /** No call of the run loses anything. */
  ghost predicate RunUnharmed(w: World, m: Machine, b: Books, ops: seq<Op>)
    requires w.granularity > 0
    decreases |ops|
  {
    ops == [] ||
    var (m1, reply) := Step(w, m, ops[0]);
    var b1 := NextBooks(w, m, b, ops[0], reply);
    reply != Dangling && Unharmed(m, b, m1, b1) && RunUnharmed(w, m1, b1, ops[1..])
  }

  lemma {:induction false} DanglingBooks(w: World, m: Machine, b: Books, op: Op)
    requires w.granularity > 0
    ensures NextBooks(w, m, b, op, Dangling) == b
  {
  }

  /** The books are right after every run. */
  lemma {:induction false} RunSound(w: World, m: Machine, b: Books, ops: seq<Op>)
    requires w.granularity > 0 && Sound(m, b)
    ensures Sound(RunOps(w, m, ops).0, RunBooks(w, m, b, ops))
    decreases |ops|
  {
    if ops != [] {
      var (m1, reply) := Step(w, m, ops[0]);
      StepSound(w, m, b, ops[0]);
      if reply == Dangling {
        DanglingBooks(w, m, b, ops[0]);
      } else {
        RunSound(w, m1, NextBooks(w, m, b, ops[0], reply), ops[1..]);
      }
    }
  }

  ghost predicate NoneLosing(replies: seq<Reply>) {
    forall i | 0 <= i < |replies| :: !Losing(replies[i])
  }

  lemma {:induction false} NoneLosingCons(r: Reply, replies: seq<Reply>)
    ensures NoneLosing([r] + replies) <==> !Losing(r) && NoneLosing(replies)
  {
    if NoneLosing([r] + replies) {
      assert ([r] + replies)[0] == r;
      forall i | 0 <= i < |replies| ensures !Losing(replies[i]) {
        assert ([r] + replies)[i + 1] == replies[i];
      }
    }
  }

  /** Nothing is lost or leaked along a run if and only if no reply is a losing one. */
  lemma {:induction false} RunLosesIff(w: World, m: Machine, b: Books, ops: seq<Op>)
    requires w.granularity > 0 && Sound(m, b) && AllIntact(m, b)
    ensures RunUnharmed(w, m, b, ops) <==> NoneLosing(RunOps(w, m, ops).1)
    decreases |ops|
  {
    if ops != [] {
      var (m1, reply) := Step(w, m, ops[0]);
      if reply == Dangling {
        assert RunOps(w, m, ops).1[0] == reply;
      } else {
        StepSound(w, m, b, ops[0]);
        StepLosesIff(w, m, b, ops[0]);
        NoneLosingCons(reply, RunOps(w, m1, ops[1..]).1);
        if !Losing(reply) {
          RunLosesIff(w, m1, NextBooks(w, m, b, ops[0], reply), ops[1..]);
        }
      }
    }
  }

  /** So after a run without a losing reply no reservation and no handle more is out of reach. */
  lemma {:induction false} UnharmedAtTheEnd(w: World, m: Machine, b: Books, ops: seq<Op>)
    requires w.granularity > 0 && Sound(m, b) && AllIntact(m, b) && RunUnharmed(w, m, b, ops)
    ensures Sound(RunOps(w, m, ops).0, RunBooks(w, m, b, ops))
    ensures Unharmed(m, b, RunOps(w, m, ops).0, RunBooks(w, m, b, ops))
    decreases |ops|
  {
    if ops != [] {
      var (m1, reply) := Step(w, m, ops[0]);
      StepSound(w, m, b, ops[0]);
      UnharmedAtTheEnd(w, m1, NextBooks(w, m, b, ops[0], reply), ops[1..]);
    }
  }

  const NoBooks := Books(map[], map[], {})

  lemma {:induction false} FreshIsSound()
    ensures Sound(Fresh, NoBooks) && AllIntact(Fresh, NoBooks)
    ensures NoBooks.owned.Keys == {} && NoBooks.lost == {} && Loose(Fresh.driver) == {}
  {
  }

  /** Every mapping lies in a reservation; every live handle is mapped or loose. */
  lemma {:induction false} AllAccounted(m: Machine, b: Books)
    requires Sound(m, b)
    ensures forall a <- m.driver.mapped :: m.driver.mapped[a].home in m.driver.reserved
    ensures forall h <- m.driver.live :: h in Loose(m.driver) || m.driver.live[h].mappedAt.value in m.driver.mapped
  {
    forall a | a in m.driver.mapped ensures m.driver.mapped[a].home in m.driver.reserved {
      MappingInHome(m.driver, b.regions, a);
    }
    forall h | h in m.driver.live ensures h in Loose(m.driver) || m.driver.live[h].mappedAt.value in m.driver.mapped {
      assert HandleOk(m.driver, h);
    }
  }

  /** With nothing owned and nothing lost, the driver holds nothing. */
  lemma {:induction false} NothingHeld(m: Machine, b: Books)
    requires Sound(m, b) && b.owned.Keys == {} && b.lost == {} && Loose(m.driver) == {}
    ensures m.driver.reserved == map[] && m.driver.mapped == map[] && m.driver.live == map[]
  {
    AllAccounted(m, b);
    assert m.driver.reserved.Keys == {};
    assert m.driver.mapped.Keys == {};
    assert m.driver.live.Keys == {};
  }

  // ----- What the client can tell from the replies -----

  /** The pointers held after a call: granted, and not yet freed. */
  function HeldNext(held: set<nat>, op: Op, r: Reply): set<nat> {
    if r.Malloced? && r.m.Granted? then held + {r.m.p}
    else if op.Free? && r.FreeReply? && (r.f.Freed? || (r.f.HostFailure? && r.f.held)) then held - {op.p}
    else held
  }

  function HeldAfter(held: set<nat>, ops: seq<Op>, replies: seq<Reply>): set<nat>
    requires |replies| <= |ops|
    decreases |replies|
  {
    if replies == [] then held else HeldAfter(HeldNext(held, ops[0], replies[0]), ops[1..], replies[1..])
  }

  lemma {:induction false} StepHeld(w: World, m: Machine, b: Books, op: Op)
    requires w.granularity > 0
    ensures var r := Step(w, m, op).1; NextBooks(w, m, b, op, r).owned.Keys == HeldNext(b.owned.Keys, op, r)
  {
  }

  /** The owners in the books are the pointers held. */
  lemma {:induction false} OwnedIsHeld(w: World, m: Machine, b: Books, ops: seq<Op>)
    requires w.granularity > 0
    ensures RunBooks(w, m, b, ops).owned.Keys == HeldAfter(b.owned.Keys, ops, RunOps(w, m, ops).1)
    decreases |ops|
  {
    if ops != [] {
      var (m1, r) := Step(w, m, ops[0]);
      var replies := RunOps(w, m, ops).1;
      assert replies[0] == r;
      StepHeld(w, m, b, ops[0]);
      if r == Dangling {
        assert HeldAfter(HeldNext(b.owned.Keys, ops[0], r), ops[1..], replies[1..]) == b.owned.Keys;
      } else {
        assert replies[1..] == RunOps(w, m1, ops[1..]).1;
        OwnedIsHeld(w, m1, NextBooks(w, m, b, ops[0], r), ops[1..]);
      }
    }
  }

  lemma {:induction false} NothingIsLeftFrom(w: World, m: Machine, b: Books, ops: seq<Op>)
    requires w.granularity > 0 && Sound(m, b) && AllIntact(m, b) && b.owned.Keys == {} && b.lost == {}
    requires Loose(m.driver) == {}
    requires var replies := RunOps(w, m, ops).1; NoneLosing(replies) && HeldAfter({}, ops, replies) == {}
    ensures var d := RunOps(w, m, ops).0.driver; d.reserved == map[] && d.mapped == map[] && d.live == map[]
  {
    RunLosesIff(w, m, b, ops);
    UnharmedAtTheEnd(w, m, b, ops);
    OwnedIsHeld(w, m, b, ops);
    NothingHeld(RunOps(w, m, ops).0, RunBooks(w, m, b, ops));
  }

  /**
    No leak: whatever is called in a process and whatever driver and host answer, if no reply is a losing
    one and every granted pointer has been freed, then the driver holds no reservation, no mapping and no handle.
  */
  lemma {:induction false} NothingIsLeft(w: World, ops: seq<Op>)
    requires w.granularity > 0
    requires var replies := RunOps(w, Fresh, ops).1; NoneLosing(replies) && HeldAfter({}, ops, replies) == {}
    ensures var d := RunOps(w, Fresh, ops).0.driver; d.reserved == map[] && d.mapped == map[] && d.live == map[]
  {
    FreshIsSound();
    NothingIsLeftFrom(w, Fresh, NoBooks, ops);
  }

  // ----- What init_module is for -----

  lemma {:induction false} StepCallbacks(w: World, m: Machine, op: Op)
    requires w.granularity > 0
    ensures Step(w, m, op).0.callbacks <==> m.callbacks || op == InitModule(true)
  {
    match op
    case InitModule(_) =>
    case Malloc(size, setting, at) => MallocCallbacks(w, m, size, setting, at);
    case Free(p, size) =>
    case Sleep(p) =>
    case Wake(p) =>
      if p in m.table && m.table[p].sizes != [] {
        MapCallbacks(w, Asked(w, m), p, m.table[p]);
      }
  }

  lemma {:induction false} MapCallbacks(w: World, m: Machine, p: nat, rec: Record)
    requires rec.sizes != []
    ensures CumemSteps.CreateAndMap(w, m, p, rec).0.callbacks == m.callbacks
  {
  }

  lemma {:induction false} RegisterCallbacks(w: World, m: Machine, p: nat, size: nat, sizes: seq<nat>)
    requires sizes != []
    ensures CumemSteps.Register(w, m, p, size, sizes).0.callbacks == m.callbacks
  {
    var rec := Record(size, sizes, m.nextCell);
    var (m1, taken) := TakeAll(w, m, |sizes|);
    if taken {
      var (m2, announced) := CumemSteps.Announce(w, m1, p, rec);
      if announced {
        MapCallbacks(w, m2, p, rec);
      }
    }
  }

  lemma {:induction false} MallocCallbacks(w: World, m: Machine, size: nat, setting: Setting, at: nat)
    requires w.granularity > 0
    ensures CumemSteps.MyMalloc(w, m, size, setting, at).0.callbacks == m.callbacks
  {
    ChunksOfRequest(size, w.granularity, setting);
    AlignedToo(size, w.granularity);
    var q, aligned := Queried(w, m), AlignUp(size, w.granularity);
    var (m2, reserved) := CumemSteps.Reserve(w, q, at, aligned);
    if !q.errorCode && reserved {
      RegisterCallbacks(w, m2, at, aligned, Chunks(size, w.granularity, setting));
    }
  }

  /** The callbacks are set after a run if and only if they were before or some call of it has set them. */
  lemma {:induction false} CallbacksAfterRun(w: World, m: Machine, ops: seq<Op>)
    requires w.granularity > 0
    ensures var (m1, replies) := RunOps(w, m, ops);
            m1.callbacks <==> m.callbacks || InitModule(true) in ops[..|replies|]
    decreases |ops|
  {
    if ops != [] {
      var (m1, reply) := Step(w, m, ops[0]);
      var replies := RunOps(w, m, ops).1;
      StepCallbacks(w, m, ops[0]);
      if reply == Dangling {
        assert ops[..1] == [ops[0]];
      } else {
        CallbacksAfterRun(w, m1, ops[1..]);
        assert ops[..|replies|] == [ops[0]] + ops[1..][..|replies| - 1];
      }
    }
  }
}
