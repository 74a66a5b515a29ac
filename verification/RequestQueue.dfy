/**
  The bounded request queue of benchmarks/disagg_benchmarks/request_queue.py as a state machine.
  Any number of producers and of `process` loops run interleaved; a step is the code a
  coroutine runs between two points where it may have to wait.
*/
module RequestQueue {
  import opened Options

  type Task = int

  /** Where one `process` loop stands. */
  datatype Consumer =
    | Idle                 // about to look at the queue
    | WantsSemaphore       // saw a non-empty queue
    | WantsLock            // holds a permit
    | Running(task: Task)  // holds a permit and the lock across the await
    | Dead                 // an exception ended the loop

  datatype Lock = Free | HeldBy(owner: nat)

  /** `accepted`, `started` and `emptyPops` record the history. */
  datatype State = State(
    maxConcurrent: int,
    maxQueueSize: int,
    permits: int,
    queue: seq<Task>,
    queueSize: int,
    lock: Lock,
    consumers: seq<Consumer>,
    accepted: seq<Task>,
    started: seq<Task>,
    emptyPops: nat)

  datatype Event =
    | Enqueue(task: Task)
    | Look(c: nat)
    | TakePermit(c: nat)
    | LockAndPop(c: nat)
    | Finish(c: nat, raises: bool)

  function Init(maxConcurrent: nat, maxQueueSize: int, n: nat): State {
    State(maxConcurrent, maxQueueSize, maxConcurrent, [], 0, Free, seq(n, _ => Idle), [], [], 0)
  }

  function EnqueueStep(s: State, task: Task): State {
    if s.queueSize >= s.maxQueueSize then s
    else s.(queue := s.queue + [task], queueSize := s.queueSize + 1, accepted := s.accepted + [task])
  }

  function SetConsumer(s: State, c: nat, k: Consumer): State
    requires c < |s.consumers|
  {
    s.(consumers := s.consumers[c := k])
  }

  /** popleft raises on an empty deque; leaving the `async with` gives back permit and lock. */
  function PopStep(s: State, c: nat): State
    requires c < |s.consumers|
  {
    if s.queue == []
    then SetConsumer(s, c, Dead).(permits := s.permits + 1, emptyPops := s.emptyPops + 1)
    else SetConsumer(s, c, Running(s.queue[0])).(
         queue := s.queue[1..], queueSize := s.queueSize - 1,
         lock := HeldBy(c), started := s.started + [s.queue[0]])
  }

  /** The state after `e`, or None when `e` has to wait. */
  function Next(s: State, e: Event): Option<State> {
    match e
    case Enqueue(task) =>
      if s.lock.Free? then Some(EnqueueStep(s, task)) else None
    case Look(c) =>
      if c < |s.consumers| && s.consumers[c].Idle?
      then Some(if s.queue == [] then s else SetConsumer(s, c, WantsSemaphore)) else None
    case TakePermit(c) =>
      if c < |s.consumers| && s.consumers[c].WantsSemaphore? && s.permits > 0
      then Some(SetConsumer(s, c, WantsLock).(permits := s.permits - 1)) else None
    case LockAndPop(c) =>
      if c < |s.consumers| && s.consumers[c].WantsLock? && s.lock.Free?
      then Some(PopStep(s, c)) else None
    case Finish(c, raises) =>
      if c < |s.consumers| && s.consumers[c].Running?
      then Some(SetConsumer(s, c, if raises then Dead else Idle).(permits := s.permits + 1, lock := Free))
      else None
  }

  function Run(s: State, es: seq<Event>): Option<State> {
    if es == [] then Some(s)
    else match Run(s, es[..|es| - 1])
         case None => None
         case Some(t) => Next(t, es[|es| - 1])
  }

  // ----- What every run keeps -----

  predicate HoldsPermit(k: Consumer) {
    k.WantsLock? || k.Running?
  }

  function Holders(ks: seq<Consumer>): nat {
    if ks == [] then 0
    else Holders(ks[..|ks| - 1]) + if HoldsPermit(ks[|ks| - 1]) then 1 else 0
  }

  ghost predicate Inv(s: State) {
    && s.queueSize == |s.queue|
    && (s.queue == [] || |s.queue| <= s.maxQueueSize)
    && s.accepted == s.started + s.queue
    && (forall c | 0 <= c < |s.consumers| :: s.consumers[c].Running? <==> s.lock == HeldBy(c))
    && (s.lock.HeldBy? ==> s.lock.owner < |s.consumers|)
    && 0 <= s.permits && s.permits + Holders(s.consumers) == s.maxConcurrent
  }

  lemma {:induction false} HoldersUpdate(ks: seq<Consumer>, c: nat, k: Consumer)
    requires c < |ks|
    ensures Holders(ks[c := k]) + (if HoldsPermit(ks[c]) then 1 else 0)
            == Holders(ks) + if HoldsPermit(k) then 1 else 0
  {
    var n := |ks| - 1;
    if c == n {
      assert ks[c := k][..n] == ks[..n];
    } else {
      assert ks[c := k][..n] == ks[..n][c := k];
      HoldersUpdate(ks[..n], c, k);
    }
  }

  lemma {:induction false} NoHoldersAtStart(n: nat)
    ensures Holders(seq(n, _ => Idle)) == 0
  {
    if n > 0 {
      assert seq(n, _ => Idle)[..n - 1] == seq(n - 1, _ => Idle);
      NoHoldersAtStart(n - 1);
    }
  }

  lemma {:induction false} PopKeepsInv(s: State, c: nat)
    requires Inv(s) && c < |s.consumers| && s.consumers[c].WantsLock? && s.lock.Free?
    ensures Inv(PopStep(s, c))
  {
    if s.queue == [] {
      HoldersUpdate(s.consumers, c, Dead);
    } else {
      HoldersUpdate(s.consumers, c, Running(s.queue[0]));
    }
  }

  lemma {:induction false} FinishKeepsInv(s: State, c: nat, raises: bool)
    requires Inv(s) && Next(s, Finish(c, raises)).Some?
    ensures Inv(Next(s, Finish(c, raises)).value)
  {
    HoldersUpdate(s.consumers, c, if raises then Dead else Idle);
  }

  lemma {:induction false} WaitKeepsInv(s: State, e: Event)
    requires Inv(s) && (e.Look? || e.TakePermit?) && Next(s, e).Some?
    ensures Inv(Next(s, e).value)
  {
    HoldersUpdate(s.consumers, e.c, if e.Look? then WantsSemaphore else WantsLock);
  }

  lemma {:induction false} StepKeepsInv(s: State, e: Event)
    requires Inv(s) && Next(s, e).Some?
    ensures Inv(Next(s, e).value)
  {
    match e
    case Enqueue(_) =>
    case Look(c) => WaitKeepsInv(s, e);
    case TakePermit(c) => WaitKeepsInv(s, e);
    case LockAndPop(c) => PopKeepsInv(s, c);
    case Finish(c, raises) => FinishKeepsInv(s, c, raises);
  }

  /** In every run the counter is right and bounded, and accepted tasks start once, in order. */
  lemma {:induction false} RunKeepsInv(maxConcurrent: nat, maxQueueSize: int, n: nat, es: seq<Event>)
    requires Run(Init(maxConcurrent, maxQueueSize, n), es).Some?
    ensures Inv(Run(Init(maxConcurrent, maxQueueSize, n), es).value)
  {
    if es == [] {
      NoHoldersAtStart(n);
    } else {
      RunKeepsInv(maxConcurrent, maxQueueSize, n, es[..|es| - 1]);
      StepKeepsInv(Run(Init(maxConcurrent, maxQueueSize, n), es[..|es| - 1]).value, es[|es| - 1]);
    }
  }

  /** However many permits there are, no two tasks are in flight together. */
  lemma {:induction false} OneTaskInFlight(maxConcurrent: nat, maxQueueSize: int, n: nat, es: seq<Event>, a: nat,
                                           b: nat)
    requires Run(Init(maxConcurrent, maxQueueSize, n), es).Some?
    requires var s := Run(Init(maxConcurrent, maxQueueSize, n), es).value;
             a < |s.consumers| && b < |s.consumers| && s.consumers[a].Running? && s.consumers[b].Running?
    ensures a == b
  {
    RunKeepsInv(maxConcurrent, maxQueueSize, n, es);
  }

  // ----- Popping an empty deque -----

  /** With one loop, a task once seen is still there. */
  ghost predicate SeenMeansThere(s: State) {
    && |s.consumers| <= 1 && s.emptyPops == 0
    && (forall k <- s.consumers :: k.WantsSemaphore? || k.WantsLock? ==> s.queue != [])
  }

  lemma {:induction false} OneConsumerNeverPopsEmpty(maxConcurrent: nat, maxQueueSize: int, n: nat, es: seq<Event>)
    requires n <= 1 && Run(Init(maxConcurrent, maxQueueSize, n), es).Some?
    ensures SeenMeansThere(Run(Init(maxConcurrent, maxQueueSize, n), es).value)
  {
    if es != [] {
      OneConsumerNeverPopsEmpty(maxConcurrent, maxQueueSize, n, es[..|es| - 1]);
    }
  }

  ghost predicate Reachable(s0: State, s: State) {
    exists es :: Run(s0, es) == Some(s)
  }

  lemma {:induction false} RunOneMore(s0: State, es: seq<Event>, s: State, e: Event)
    requires Run(s0, es) == Some(s)
    ensures Run(s0, es + [e]) == Next(s, e)
  {
    assert (es + [e])[..|es|] == es;
  }

  lemma {:induction false} ReachNext(s0: State, s: State, e: Event)
    requires Reachable(s0, s) && Next(s, e).Some?
    ensures Reachable(s0, Next(s, e).value)
  {
    var es :| Run(s0, es) == Some(s);
    RunOneMore(s0, es, s, e);
  }

  /** Two loops have seen the one task there is. */
  ghost predicate BothSawOne(s: State) {
    && |s.queue| == 1 && s.lock.Free? && s.permits >= 1 && s.emptyPops == 0 && |s.consumers| >= 2
    && s.consumers[0].WantsSemaphore? && s.consumers[1].WantsSemaphore?
  }

  lemma {:induction false} BothCanSeeOne(maxConcurrent: nat, maxQueueSize: int, n: nat) returns (s: State)
    requires n >= 2 && maxConcurrent >= 1 && maxQueueSize >= 1
    ensures Reachable(Init(maxConcurrent, maxQueueSize, n), s) && BothSawOne(s)
  {
    s := Init(maxConcurrent, maxQueueSize, n);
    var s0 := s;
    assert Run(s0, []) == Some(s0);
    ReachNext(s0, s, Enqueue(7)); s := EnqueueStep(s, 7);
    assert s.queue == [7];
    ReachNext(s0, s, Look(0)); s := SetConsumer(s, 0, WantsSemaphore);
    ReachNext(s0, s, Look(1)); s := SetConsumer(s, 1, WantsSemaphore);
  }

  lemma {:induction false} SecondPopsEmpty(s0: State, s: State) returns (t: State)
    requires Reachable(s0, s) && BothSawOne(s)
    ensures Reachable(s0, t) && t.emptyPops == 1
  {
    // Loop 1 runs what it popped, and loop 0 is left with nothing.
    t := s;
    ReachNext(s0, t, TakePermit(1)); t := Next(t, TakePermit(1)).value;
    ReachNext(s0, t, LockAndPop(1)); t := PopStep(t, 1);
    ReachNext(s0, t, Finish(1, false)); t := Next(t, Finish(1, false)).value;
    ReachNext(s0, t, TakePermit(0)); t := Next(t, TakePermit(0)).value;
    ReachNext(s0, t, LockAndPop(0)); t := PopStep(t, 0);
  }

  /** Without a second loop, a permit or room for a task, no pop meets an empty deque. */
  ghost predicate NeverEmptyPop(s: State) {
    && s.emptyPops == 0 && Inv(s)
    && (|s.consumers| <= 1 ==> SeenMeansThere(s))
    && (s.maxConcurrent == 0 ==> Holders(s.consumers) == 0)
    && (s.maxQueueSize <= 0 ==> s.queue == [] && forall c | 0 <= c < |s.consumers| :: s.consumers[c].Idle?)
  }

  lemma {:induction false} NoHolder(ks: seq<Consumer>, c: nat)
    requires Holders(ks) == 0 && c < |ks|
    ensures !HoldsPermit(ks[c])
  {
    HoldersUpdate(ks, c, Idle);
  }

  lemma {:induction false} StepKeepsNeverEmpty(s: State, e: Event)
    requires NeverEmptyPop(s) && Next(s, e).Some?
    requires |s.consumers| <= 1 || s.maxConcurrent == 0 || s.maxQueueSize <= 0
    ensures NeverEmptyPop(Next(s, e).value)
  {
    StepKeepsInv(s, e);
    if s.maxConcurrent == 0 && e.LockAndPop? {
      NoHolder(s.consumers, e.c);
    }
  }

  lemma {:induction false} StepKeepsLimits(s: State, e: Event)
    requires Next(s, e).Some?
    ensures var t := Next(s, e).value;
            |t.consumers| == |s.consumers| && t.maxConcurrent == s.maxConcurrent && t.maxQueueSize == s.maxQueueSize
  {
  }

  lemma {:induction false} StartsNeverEmpty(maxConcurrent: nat, maxQueueSize: int, n: nat)
    ensures NeverEmptyPop(Init(maxConcurrent, maxQueueSize, n))
  {
    NoHoldersAtStart(n);
  }

  lemma {:induction false} RunKeepsNeverEmpty(maxConcurrent: nat, maxQueueSize: int, n: nat, es: seq<Event>)
    requires n <= 1 || maxConcurrent == 0 || maxQueueSize <= 0
    requires Run(Init(maxConcurrent, maxQueueSize, n), es).Some?
    ensures var s := Run(Init(maxConcurrent, maxQueueSize, n), es).value;
            NeverEmptyPop(s) && |s.consumers| == n && s.maxConcurrent == maxConcurrent && s.maxQueueSize == maxQueueSize
  {
    if es == [] {
      StartsNeverEmpty(maxConcurrent, maxQueueSize, n);
    } else {
      RunKeepsNeverEmpty(maxConcurrent, maxQueueSize, n, es[..|es| - 1]);
      var s := Run(Init(maxConcurrent, maxQueueSize, n), es[..|es| - 1]).value;
      StepKeepsNeverEmpty(s, es[|es| - 1]);
      StepKeepsLimits(s, es[|es| - 1]);
    }
  }

  /** Some run pops an empty deque exactly when there are two loops, a permit and room for one task. */
  lemma {:induction false} EmptyPopIff(maxConcurrent: nat, maxQueueSize: int, n: nat)
    ensures (exists s :: Reachable(Init(maxConcurrent, maxQueueSize, n), s) && s.emptyPops > 0)
            <==> n >= 2 && maxConcurrent >= 1 && maxQueueSize >= 1
  {
    var s0 := Init(maxConcurrent, maxQueueSize, n);
    if n >= 2 && maxConcurrent >= 1 && maxQueueSize >= 1 {
      var s := BothCanSeeOne(maxConcurrent, maxQueueSize, n);
      var t := SecondPopsEmpty(s0, s);
    } else {
      forall s | Reachable(s0, s) ensures s.emptyPops == 0 {
        var es :| Run(s0, es) == Some(s);
        RunKeepsNeverEmpty(maxConcurrent, maxQueueSize, n, es);
      }
    }
  }

  // ----- What is accepted -----

  /** In every reachable state a free enqueue takes its task if and only if fewer tasks wait than the queue may hold. */
  lemma {:induction false} AcceptedIff(maxConcurrent: nat, maxQueueSize: int, n: nat, es: seq<Event>, task: Task)
    requires Run(Init(maxConcurrent, maxQueueSize, n), es).Some?
    ensures var s := Run(Init(maxConcurrent, maxQueueSize, n), es).value;
            var waiting := |s.accepted| - |s.started|;
            var next := Next(s, Enqueue(task));
            && (next.Some? <==> s.lock.Free?)
            && (next.Some? ==>
                  next.value.accepted == if waiting < maxQueueSize then s.accepted + [task] else s.accepted)
  {
    RunKeepsInv(maxConcurrent, maxQueueSize, n, es);
    RunKeepsLimits(maxConcurrent, maxQueueSize, n, es);
  }

  lemma {:induction false} RunKeepsLimits(maxConcurrent: nat, maxQueueSize: int, n: nat, es: seq<Event>)
    requires Run(Init(maxConcurrent, maxQueueSize, n), es).Some?
    ensures var s := Run(Init(maxConcurrent, maxQueueSize, n), es).value;
            |s.consumers| == n && s.maxConcurrent == maxConcurrent && s.maxQueueSize == maxQueueSize
  {
    if es != [] {
      RunKeepsLimits(maxConcurrent, maxQueueSize, n, es[..|es| - 1]);
      StepKeepsLimits(Run(Init(maxConcurrent, maxQueueSize, n), es[..|es| - 1]).value, es[|es| - 1]);
    }
  }

  function Enqueues(tasks: seq<Task>): (es: seq<Event>)
    ensures |es| == |tasks| && forall i | 0 <= i < |tasks| :: es[i] == Enqueue(tasks[i])
  {
    seq(|tasks|, i requires 0 <= i < |tasks| => Enqueue(tasks[i]))
  }

  function Fitting(k: nat, maxQueueSize: int): (r: nat)
    ensures r <= k
  {
    if maxQueueSize < 0 then 0 else if k < maxQueueSize then k else maxQueueSize
  }

  /** Tasks that come while nothing runs: the first that fit wait, in order, and the others are turned away. */
  lemma {:induction false} FirstTasksFit(maxConcurrent: nat, maxQueueSize: int, n: nat, tasks: seq<Task>)
    ensures var s := Run(Init(maxConcurrent, maxQueueSize, n), Enqueues(tasks));
            && s.Some? && s.value.lock.Free? && s.value.queueSize == |s.value.queue|
            && s.value.maxQueueSize == maxQueueSize
            && s.value.queue == s.value.accepted == tasks[..Fitting(|tasks|, maxQueueSize)]
  {
    if tasks != [] {
      var k := |tasks| - 1;
      FirstTasksFit(maxConcurrent, maxQueueSize, n, tasks[..k]);
      assert Enqueues(tasks)[..k] == Enqueues(tasks[..k]);
    }
  }

  // ----- Nothing accepted is stuck while a loop lives -----

  ghost predicate SomeLoopLives(s: State) {
    exists c :: 0 <= c < |s.consumers| && !s.consumers[c].Dead?
  }

  lemma {:induction false} ReachTrans(s0: State, s: State, t: State)
    requires Reachable(s0, s) && Reachable(s, t)
    ensures Reachable(s0, t)
  {
    var es :| Run(s, es) == Some(t);
    RunFrom(s0, s, es);
  }

  lemma {:induction false} RunFrom(s0: State, s: State, es: seq<Event>)
    requires Reachable(s0, s) && Run(s, es).Some?
    ensures Reachable(s0, Run(s, es).value)
  {
    if es != [] {
      RunFrom(s0, s, es[..|es| - 1]);
      ReachNext(s0, Run(s, es[..|es| - 1]).value, es[|es| - 1]);
    }
  }

  /** Some loop holds a permit when none is left. */
  lemma {:induction false} SomeHolder(ks: seq<Consumer>) returns (c: nat)
    requires Holders(ks) > 0
    ensures c < |ks| && HoldsPermit(ks[c])
  {
    var n := |ks| - 1;
    if HoldsPermit(ks[n]) {
      c := n;
    } else {
      c := SomeHolder(ks[..n]);
    }
  }

  /** A state to which a task can still be started: sound, with a permit to be had and a live loop. */
  ghost predicate CanWork(s: State) {
    Inv(s) && s.maxConcurrent >= 1 && SomeLoopLives(s)
  }

  /** Progress from `s` to `t`: the same tasks accepted. */
  ghost predicate Leads(s: State, t: State) {
    Reachable(s, t) && CanWork(t) && t.accepted == s.accepted
  }

  lemma {:induction false} LeadsTrans(s: State, t: State, u: State)
    requires Leads(s, t) && Leads(t, u)
    ensures Leads(s, u)
  {
    ReachTrans(s, t, u);
  }

  lemma {:induction false} LeadsStep(s: State, e: Event, c: nat)
    requires CanWork(s) && !e.Enqueue? && Next(s, e).Some?
    requires var t := Next(s, e).value; c < |t.consumers| && !t.consumers[c].Dead?
    ensures Leads(s, Next(s, e).value)
  {
    assert Run(s, []) == Some(s);
    ReachNext(s, s, e);
    StepKeepsInv(s, e);
  }

  /** The lock gets free: a running task ends. */
  lemma {:induction false} Unlock(s: State) returns (t: State)
    requires CanWork(s)
    ensures Leads(s, t) && t.lock.Free? && t.queue == s.queue
  {
    t := s;
    assert Run(s, []) == Some(s);
    if s.lock.HeldBy? {
      var c := s.lock.owner;
      t := Next(s, Finish(c, false)).value;
      LeadsStep(s, Finish(c, false), c);
    }
  }

  /** Some loop comes to hold a permit. */
  lemma {:induction false} GetPermit(s: State) returns (t: State, c: nat)
    requires CanWork(s) && s.lock.Free? && s.queue != []
    ensures Leads(s, t) && t.lock.Free? && t.queue == s.queue && c < |t.consumers| && t.consumers[c].WantsLock?
  {
    t := s;
    assert Run(s, []) == Some(s);
    if s.permits == 0 {
      c := SomeHolder(s.consumers);
    } else {
      c :| 0 <= c < |s.consumers| && !s.consumers[c].Dead?;
      if t.consumers[c].Idle? {
        LeadsStep(t, Look(c), c);
        t := Next(t, Look(c)).value;
      }
      if t.consumers[c].WantsSemaphore? {
        LeadsStep(t, TakePermit(c), c);
        LeadsTrans(s, t, Next(t, TakePermit(c)).value);
        t := Next(t, TakePermit(c)).value;
      }
    }
  }

  lemma {:induction false} StartOne(s: State) returns (t: State)
    requires CanWork(s) && s.queue != []
    ensures Leads(s, t) && t.queue == s.queue[1..]
  {
    var u := Unlock(s);
    var v, c := GetPermit(u);
    LeadsTrans(s, u, v);
    LeadsStep(v, LockAndPop(c), c);
    t := Next(v, LockAndPop(c)).value;
    LeadsTrans(s, v, t);
  }

  /** From such a state every task accepted so far can be started, in the order of acceptance. */
  lemma {:induction false} AllCanStart(s: State) returns (t: State)
    requires CanWork(s)
    ensures Reachable(s, t) && t.started == t.accepted == s.accepted
    decreases |s.queue|
  {
    t := s;
    assert Run(s, []) == Some(s);
    if s.queue != [] {
      var u := StartOne(s);
      t := AllCanStart(u);
      ReachTrans(s, u, t);
    }
  }

  // ----- How loops end -----

  function Deads(ks: seq<Consumer>): nat {
    if ks == [] then 0 else Deads(ks[..|ks| - 1]) + if ks[|ks| - 1].Dead? then 1 else 0
  }

  lemma {:induction false} DeadsUpdate(ks: seq<Consumer>, c: nat, k: Consumer)
    requires c < |ks|
    ensures Deads(ks[c := k]) + (if ks[c].Dead? then 1 else 0) == Deads(ks) + if k.Dead? then 1 else 0
  {
    var n := |ks| - 1;
    if c == n {
      assert ks[c := k][..n] == ks[..n];
    } else {
      assert ks[c := k][..n] == ks[..n][c := k];
      DeadsUpdate(ks[..n], c, k);
    }
  }

  lemma {:induction false} NoneDeadAtStart(n: nat)
    ensures Deads(seq(n, _ => Idle)) == 0
  {
    if n > 0 {
      assert seq(n, _ => Idle)[..n - 1] == seq(n - 1, _ => Idle);
      NoneDeadAtStart(n - 1);
    }
  }

  /** How many tasks have raised. */
  function Raised(es: seq<Event>): nat {
    if es == [] then 0
    else Raised(es[..|es| - 1]) + if es[|es| - 1].Finish? && es[|es| - 1].raises then 1 else 0
  }

  lemma {:induction false} StepDeads(s: State, e: Event)
    requires Next(s, e).Some?
    ensures var t := Next(s, e).value;
            Deads(t.consumers) - t.emptyPops
            == Deads(s.consumers) - s.emptyPops + if e.Finish? && e.raises then 1 else 0
  {
    var t := Next(s, e).value;
    if !e.Enqueue? && t != s {
      assert t.consumers == s.consumers[e.c := t.consumers[e.c]];
      DeadsUpdate(s.consumers, e.c, t.consumers[e.c]);
    }
  }

  /** A loop has ended for each task that raised and each empty pop, and for no other reason. */
  lemma {:induction false} LoopsEndByExceptions(maxConcurrent: nat, maxQueueSize: int, n: nat, es: seq<Event>)
    requires Run(Init(maxConcurrent, maxQueueSize, n), es).Some?
    ensures var s := Run(Init(maxConcurrent, maxQueueSize, n), es).value;
            Deads(s.consumers) == s.emptyPops + Raised(es)
  {
    if es == [] {
      NoneDeadAtStart(n);
    } else {
      LoopsEndByExceptions(maxConcurrent, maxQueueSize, n, es[..|es| - 1]);
      StepDeads(Run(Init(maxConcurrent, maxQueueSize, n), es[..|es| - 1]).value, es[|es| - 1]);
    }
  }

  lemma {:induction false} FewDead(ks: seq<Consumer>) returns (c: nat)
    requires Deads(ks) < |ks|
    ensures c < |ks| && !ks[c].Dead?
  {
    var n := |ks| - 1;
    if ks[n].Dead? {
      c := FewDead(ks[..n]);
    } else {
      c := n;
    }
  }

  /**
    No accepted task is stuck: after any run in which fewer exceptions occurred than there are loops, all tasks
    accepted so far can still be started.
  */
  lemma {:induction false} NoTaskIsStuck(maxConcurrent: nat, maxQueueSize: int, n: nat, es: seq<Event>)
    returns (t: State)
    requires maxConcurrent >= 1 && Run(Init(maxConcurrent, maxQueueSize, n), es).Some?
    requires Run(Init(maxConcurrent, maxQueueSize, n), es).value.emptyPops + Raised(es) < n
    ensures var s := Run(Init(maxConcurrent, maxQueueSize, n), es).value;
            Reachable(s, t) && t.started == t.accepted == s.accepted
  {
    var s := Run(Init(maxConcurrent, maxQueueSize, n), es).value;
    RunKeepsInv(maxConcurrent, maxQueueSize, n, es);
    RunKeepsLimits(maxConcurrent, maxQueueSize, n, es);
    LoopsEndByExceptions(maxConcurrent, maxQueueSize, n, es);
    var c := FewDead(s.consumers);
    t := AllCanStart(s);
  }
}
