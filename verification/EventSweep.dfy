/**
  The start/stop sweep of SummarizeEntries in tools/report_build_time_ninja.py, which shares every
  moment of the build among the tasks running at it.  Times are exact reals; a task is named by its
  place in the list of entries.
*/
module EventSweep {
  import opened NinjaLog

  datatype Task = Task(start: real, end: real)

  // ----- What the shares should be -----

  // `times` lists the instants at which something starts or stops, in order.  Between two
  // neighbouring instants the set of running tasks does not change.

  ghost predicate InOrder(times: seq<real>) {
    forall i, j | 0 <= i <= j < |times| :: times[i] <= times[j]
  }

  predicate Runs(task: Task, times: seq<real>, i: nat)
    requires 0 < i < |times|
  {
    task.start <= times[i - 1] && times[i] <= task.end
  }

  /** Those of the first `m` tasks that run all through the interval that ends at instant `i`. */
  function RunningBelow(tasks: seq<Task>, times: seq<real>, i: nat, m: nat): set<nat>
    requires 0 < i < |times| && m <= |tasks|
  {
    set t: nat | t < m && Runs(tasks[t], times, i)
  }

  function Running(tasks: seq<Task>, times: seq<real>, i: nat): set<nat>
    requires 0 < i < |times|
  {
    RunningBelow(tasks, times, i, |tasks|)
  }

  function Gap(times: seq<real>, i: nat): real
    requires 0 < i < |times|
  {
    times[i] - times[i - 1]
  }

  /** What a running task gets of the interval that ends at instant `i`: an equal part. */
  function EqualPart(tasks: seq<Task>, times: seq<real>, i: nat): real
    requires 0 < i < |times|
  {
    var n := |Running(tasks, times, i)|;
    if n == 0 then 0.0 else Gap(times, i) / n as real
  }

  /** What task `t` has got by the time `k` instants have passed. */
  function Share(tasks: seq<Task>, times: seq<real>, t: nat, k: nat): real
    requires k <= |times| && t < |tasks|
  {
    if k <= 1 then 0.0
    else Share(tasks, times, t, k - 1) + if Runs(tasks[t], times, k - 1) then EqualPart(tasks, times, k - 1) else 0.0
  }

  /** The time during which at least one task runs. */
  function Busy(tasks: seq<Task>, times: seq<real>, k: nat): real
    requires k <= |times|
  {
    if k <= 1 then 0.0
    else Busy(tasks, times, k - 1) + if Running(tasks, times, k - 1) == {} then 0.0 else Gap(times, k - 1)
  }

  /** The time during which none does. */
  function Idle(tasks: seq<Task>, times: seq<real>, k: nat): real
    requires k <= |times|
  {
    if k <= 1 then 0.0
    else Idle(tasks, times, k - 1) + if Running(tasks, times, k - 1) == {} then Gap(times, k - 1) else 0.0
  }

  /** What the first `m` tasks have got together. */
  function TotalShare(tasks: seq<Task>, times: seq<real>, k: nat, m: nat): real
    requires k <= |times| && m <= |tasks|
  {
    if m == 0 then 0.0 else TotalShare(tasks, times, k, m - 1) + Share(tasks, times, m - 1, k)
  }

  // ----- Conservation -----

  function Multiple(n: nat, x: real): real {
    n as real * x
  }

  lemma {:induction false} MultipleStep(n: nat, x: real)
    ensures Multiple(n + 1, x) == Multiple(n, x) + x
  {
  }

  lemma {:induction false} MultipleOfQuotient(n: nat, x: real)
    requires n > 0
    ensures Multiple(n, x / n as real) == x
  {
  }

  lemma {:induction false} OneMoreTask(tasks: seq<Task>, times: seq<real>, i: nat, m: nat)
    requires 0 < i < |times| && m < |tasks|
    ensures |RunningBelow(tasks, times, i, m + 1)| ==
            |RunningBelow(tasks, times, i, m)| + if Runs(tasks[m], times, i) then 1 else 0
  {
    var a, b := RunningBelow(tasks, times, i, m), RunningBelow(tasks, times, i, m + 1);
    assert b == a + if Runs(tasks[m], times, i) then {m} else {};
    assert m !in a;
  }

  lemma {:induction false} TotalStep(tasks: seq<Task>, times: seq<real>, k: nat, m: nat)
    requires 1 < k <= |times| && m <= |tasks|
    ensures TotalShare(tasks, times, k, m) ==
            TotalShare(tasks, times, k - 1, m)
            + Multiple(|RunningBelow(tasks, times, k - 1, m)|, EqualPart(tasks, times, k - 1))
  {
    if m == 0 {
      assert RunningBelow(tasks, times, k - 1, 0) == {};
    } else {
      TotalStep(tasks, times, k, m - 1);
      OneMoreTask(tasks, times, k - 1, m - 1);
      MultipleStep(|RunningBelow(tasks, times, k - 1, m - 1)|, EqualPart(tasks, times, k - 1));
    }
  }

  lemma {:induction false} NothingYet(tasks: seq<Task>, times: seq<real>, k: nat, m: nat)
    requires k <= |times| && k <= 1 && m <= |tasks|
    ensures TotalShare(tasks, times, k, m) == 0.0
  {
    if m > 0 {
      NothingYet(tasks, times, k, m - 1);
    }
  }

  function SumOf(parts: seq<real>, m: nat): real
    requires m <= |parts|
  {
    if m == 0 then 0.0 else SumOf(parts, m - 1) + parts[m - 1]
  }

  /** `parts` splits the interval that ends at instant `i` among the tasks that run in it, without preference. */
  ghost predicate FairSplit(tasks: seq<Task>, times: seq<real>, i: nat, parts: seq<real>)
    requires 0 < i < |times|
  {
    && |parts| == |tasks|
    && (forall t | 0 <= t < |tasks| && !Runs(tasks[t], times, i) :: parts[t] == 0.0)
    && (forall t, u | 0 <= t < |tasks| && 0 <= u < |tasks| && Runs(tasks[t], times, i) && Runs(tasks[u], times, i) ::
          parts[t] == parts[u])
    && SumOf(parts, |parts|) == if exists t :: 0 <= t < |tasks| && Runs(tasks[t], times, i) then Gap(times, i) else 0.0
  }

  lemma {:induction false} SumOfEqual(tasks: seq<Task>, times: seq<real>, i: nat, parts: seq<real>, x: real, m: nat)
    requires 0 < i < |times| && |parts| == |tasks| && m <= |tasks|
    requires forall t | 0 <= t < |tasks| :: parts[t] == if Runs(tasks[t], times, i) then x else 0.0
    ensures SumOf(parts, m) == Multiple(|RunningBelow(tasks, times, i, m)|, x)
  {
    if m == 0 {
      assert RunningBelow(tasks, times, i, 0) == {};
    } else {
      SumOfEqual(tasks, times, i, parts, x, m - 1);
      OneMoreTask(tasks, times, i, m - 1);
      MultipleStep(|RunningBelow(tasks, times, i, m - 1)|, x);
    }
  }

  lemma {:induction false} QuotientOfMultiple(n: nat, x: real)
    requires n > 0
    ensures Multiple(n, x) / n as real == x
  {
  }

  /** The only fair split gives each running task the equal part that is booked. */
  lemma {:induction false} FairSplitIsEqualPart(tasks: seq<Task>, times: seq<real>, i: nat, parts: seq<real>, t: nat)
    requires 0 < i < |times| && FairSplit(tasks, times, i, parts) && t < |tasks| && Runs(tasks[t], times, i)
    ensures parts[t] == EqualPart(tasks, times, i)
  {
    var n := |Running(tasks, times, i)|;
    assert t in Running(tasks, times, i);
    SumOfEqual(tasks, times, i, parts, parts[t], |tasks|);
    QuotientOfMultiple(n, parts[t]);
  }

  /** Nothing is lost or counted twice: the shares add up to the busy time. */
  lemma {:induction false} SharesConserve(tasks: seq<Task>, times: seq<real>, k: nat)
    requires k <= |times|
    ensures TotalShare(tasks, times, k, |tasks|) == Busy(tasks, times, k)
  {
    if k <= 1 {
      NothingYet(tasks, times, k, |tasks|);
    } else {
      SharesConserve(tasks, times, k - 1);
      TotalStep(tasks, times, k, |tasks|);
      var n := |Running(tasks, times, k - 1)|;
      if n > 0 {
        MultipleOfQuotient(n, Gap(times, k - 1));
      }
    }
  }

  lemma {:induction false} BusyAndIdle(tasks: seq<Task>, times: seq<real>, k: nat)
    requires 1 <= k <= |times| && InOrder(times)
    ensures Busy(tasks, times, k) + Idle(tasks, times, k) == times[k - 1] - times[0]
    ensures Idle(tasks, times, k) >= 0.0
  {
    if k > 1 {
      BusyAndIdle(tasks, times, k - 1);
    }
  }

  /** How much of a task lies before `x`. */
  function Elapsed(task: Task, x: real): real {
    if x < task.start then 0.0 else if x > task.end then task.end - task.start else x - task.start
  }

  lemma {:induction false} EqualPartBounds(tasks: seq<Task>, times: seq<real>, i: nat)
    requires 0 < i < |times| && InOrder(times)
    ensures 0.0 <= EqualPart(tasks, times, i) <= Gap(times, i)
  {
    assert times[i - 1] <= times[i];
    var n := |Running(tasks, times, i)|;
    if n > 0 {
      QuotientBounds(n, Gap(times, i));
    }
  }

  lemma {:induction false} QuotientBounds(n: nat, x: real)
    requires n >= 1 && x >= 0.0
    ensures 0.0 <= x / n as real <= x
  {
  }

  /** A task never gets more than the time it has run. */
  lemma {:induction false} ShareBounds(tasks: seq<Task>, times: seq<real>, t: nat, k: nat)
    requires 1 <= k <= |times| && InOrder(times) && t < |tasks| && tasks[t].start <= tasks[t].end
    ensures 0.0 <= Share(tasks, times, t, k) <= Elapsed(tasks[t], times[k - 1]) <= tasks[t].end - tasks[t].start
  {
    if k > 1 {
      ShareBounds(tasks, times, t, k - 1);
      EqualPartBounds(tasks, times, k - 1);
    }
  }

  // ----- The sorted events -----

  datatype Kind = Start | Stop

  datatype Event = Event(time: real, kind: Kind, task: nat)

  function StartOf(tasks: seq<Task>, t: nat): Event
    requires t < |tasks|
  {
    Event(tasks[t].start, Start, t)
  }

  function StopOf(tasks: seq<Task>, t: nat): Event
    requires t < |tasks|
  {
    Event(tasks[t].end, Stop, t)
  }

  /** By time, and at one instant starts before stops. */
  predicate Leq(a: Event, b: Event) {
    a.time < b.time || (a.time == b.time && (a.kind.Start? || b.kind.Stop?))
  }

  function Insert(s: seq<Event>, e: Event): seq<Event> {
    if s == [] || Leq(s[|s| - 1], e) then s + [e]
    else Insert(s[..|s| - 1], e) + [s[|s| - 1]]
  }

  /** A stable sort. */
  function Sort(s: seq<Event>): seq<Event> {
    if s == [] then [] else Insert(Sort(s[..|s| - 1]), s[|s| - 1])
  }

  ghost predicate Ordered(s: seq<Event>) {
    forall i, j | 0 <= i < j < |s| :: Leq(s[i], s[j])
  }

  lemma {:induction false} InsertPermutes(s: seq<Event>, e: Event)
    ensures multiset(Insert(s, e)) == multiset(s) + multiset{e}
  {
    if s != [] && !Leq(s[|s| - 1], e) {
      InsertPermutes(s[..|s| - 1], e);
      assert s == s[..|s| - 1] + [s[|s| - 1]];
    }
  }

  lemma {:induction false} InsertOrders(s: seq<Event>, e: Event)
    requires Ordered(s)
    ensures Ordered(Insert(s, e))
  {
    if s != [] && !Leq(s[|s| - 1], e) {
      var n := |s| - 1;
      InsertOrders(s[..n], e);
      InsertPermutes(s[..n], e);
      var r := Insert(s[..n], e);
      forall i | 0 <= i < |r| ensures Leq(r[i], s[n]) {
        assert r[i] in multiset(r);
        assert r[i] in s[..n] || r[i] == e;
      }
    }
  }

  lemma {:induction false} SortSorts(s: seq<Event>)
    ensures Ordered(Sort(s)) && multiset(Sort(s)) == multiset(s)
  {
    if s != [] {
      var n := |s| - 1;
      SortSorts(s[..n]);
      InsertOrders(Sort(s[..n]), s[n]);
      InsertPermutes(Sort(s[..n]), s[n]);
      assert s == s[..n] + [s[n]];
    }
  }

  /** The events of the tasks before `m`, as the first loop collects them. */
  function Events(tasks: seq<Task>, m: nat): seq<Event>
    requires m <= |tasks|
  {
    if m == 0 then [] else Events(tasks, m - 1) + [StartOf(tasks, m - 1), StopOf(tasks, m - 1)]
  }

  /** `e` starts or stops one of the tasks before `m`. */
  ghost predicate IsEvent(tasks: seq<Task>, m: nat, e: Event)
    requires m <= |tasks|
  {
    e.task < m && (e == StartOf(tasks, e.task) || e == StopOf(tasks, e.task))
  }

  lemma {:induction false} CountAppend(s: seq<Event>, a: Event, b: Event, e: Event)
    ensures multiset(s + [a, b])[e] == multiset(s)[e] + (if e == a then 1 else 0) + (if e == b then 1 else 0)
  {
    assert multiset(s + [a, b]) == multiset(s) + multiset([a, b]);
    assert [a, b] == [a] + [b];
  }

  lemma {:induction false} EventsGrow(tasks: seq<Task>, m: nat, e: Event)
    requires 0 < m <= |tasks|
    ensures IsEvent(tasks, m, e)
            <==> IsEvent(tasks, m - 1, e) || e == StartOf(tasks, m - 1) || e == StopOf(tasks, m - 1)
  {
  }

  lemma {:induction false} EventsOnce(tasks: seq<Task>, m: nat, e: Event)
    requires m <= |tasks|
    ensures multiset(Events(tasks, m))[e] == if IsEvent(tasks, m, e) then 1 else 0
  {
    if m > 0 {
      EventsOnce(tasks, m - 1, e);
      EventsGrow(tasks, m, e);
      CountAppend(Events(tasks, m - 1), StartOf(tasks, m - 1), StopOf(tasks, m - 1), e);
    }
  }

  function Times(evs: seq<Event>): (times: seq<real>)
    ensures |times| == |evs| && forall i | 0 <= i < |evs| :: times[i] == evs[i].time
  {
    seq(|evs|, i requires 0 <= i < |evs| => evs[i].time)
  }

  /** What the sweep walks through: every start and stop once, in order. */
  ghost predicate Schedule(tasks: seq<Task>, evs: seq<Event>) {
    Ordered(evs) && forall e :: multiset(evs)[e] == if IsEvent(tasks, |tasks|, e) then 1 else 0
  }

  lemma {:induction false} SortedIsSchedule(tasks: seq<Task>)
    ensures Schedule(tasks, Sort(Events(tasks, |tasks|)))
    ensures |Sort(Events(tasks, |tasks|))| == 2 * |tasks|
  {
    SortSorts(Events(tasks, |tasks|));
    forall e ensures multiset(Events(tasks, |tasks|))[e] == if IsEvent(tasks, |tasks|, e) then 1 else 0 {
      EventsOnce(tasks, |tasks|, e);
    }
    SizeOfEvents(tasks, |tasks|);
    assert |Sort(Events(tasks, |tasks|))| == |multiset(Sort(Events(tasks, |tasks|)))|;
  }

  lemma {:induction false} SizeOfEvents(tasks: seq<Task>, m: nat)
    requires m <= |tasks|
    ensures |Events(tasks, m)| == 2 * m
  {
    if m > 0 {
      SizeOfEvents(tasks, m - 1);
    }
  }

  // ----- The state of the sweep -----

  /** After `k` events: which tasks have started and stopped, and when that was. */
  ghost predicate Progress(tasks: seq<Task>, evs: seq<Event>, k: nat, started: set<nat>, stopped: set<nat>)
    requires k <= |evs|
  {
    && (forall t: nat | t < |tasks| :: t !in started <==> StartOf(tasks, t) in evs[k..])
    && (forall t: nat | t < |tasks| :: t !in stopped <==> StopOf(tasks, t) in evs[k..])
    && (forall t <- started :: t < |tasks| && k > 0 && tasks[t].start <= evs[k - 1].time)
    && (forall t <- stopped :: t < |tasks| && k > 0 && tasks[t].end <= evs[k - 1].time)
  }

  lemma {:induction false} ProgressStart(tasks: seq<Task>, evs: seq<Event>)
    requires Schedule(tasks, evs)
    ensures Progress(tasks, evs, 0, {}, {})
  {
    assert evs[0..] == evs;
    forall t: nat | t < |tasks| ensures StartOf(tasks, t) in evs && StopOf(tasks, t) in evs {
      assert multiset(evs)[StartOf(tasks, t)] == 1 && multiset(evs)[StopOf(tasks, t)] == 1;
    }
  }

  lemma {:induction false} NextIsGone(tasks: seq<Task>, evs: seq<Event>, k: nat, e: Event)
    requires Schedule(tasks, evs) && k < |evs|
    ensures IsEvent(tasks, |tasks|, evs[k])
    ensures e in evs[k + 1..] <==> e in evs[k..] && e != evs[k]
  {
    assert evs == evs[..k] + [evs[k]] + evs[k + 1..];
    assert evs[k..] == [evs[k]] + evs[k + 1..];
    var m := multiset(evs);
    assert m == multiset(evs[..k]) + multiset([evs[k]]) + multiset(evs[k + 1..]);
    assert m[evs[k]] >= 1;
    assert m[evs[k]] == 1;
  }

  lemma {:induction false} StillToCome(tasks: seq<Task>, evs: seq<Event>, k: nat, started: set<nat>, stopped: set<nat>,
                                       t: nat)
    requires Schedule(tasks, evs) && k < |evs| && Progress(tasks, evs, k, started, stopped) && t < |tasks|
    ensures var e := evs[k];
            && (e.kind.Start? ==> (t !in started + {e.task} <==> StartOf(tasks, t) in evs[k + 1..]))
            && (e.kind.Start? ==> (t !in stopped <==> StopOf(tasks, t) in evs[k + 1..]))
            && (!e.kind.Start? ==> (t !in started <==> StartOf(tasks, t) in evs[k + 1..]))
            && (!e.kind.Start? ==> (t !in stopped + {e.task} <==> StopOf(tasks, t) in evs[k + 1..]))
  {
    NextIsGone(tasks, evs, k, StartOf(tasks, t));
    NextIsGone(tasks, evs, k, StopOf(tasks, t));
  }

  lemma {:induction false} NextIsNew(tasks: seq<Task>, evs: seq<Event>, k: nat, started: set<nat>, stopped: set<nat>)
    requires Schedule(tasks, evs) && k < |evs| && Progress(tasks, evs, k, started, stopped)
    ensures IsEvent(tasks, |tasks|, evs[k])
    ensures evs[k].task !in (if evs[k].kind.Start? then started else stopped)
  {
    var e := evs[k];
    NextIsGone(tasks, evs, k, e);
    assert e in evs[k..] by { assert evs[k..][0] == e; }
    assert e == StartOf(tasks, e.task) || e == StopOf(tasks, e.task);
  }

  lemma {:induction false} ProgressNext(tasks: seq<Task>, evs: seq<Event>, k: nat, started: set<nat>, stopped: set<nat>)
    requires Schedule(tasks, evs) && k < |evs| && Progress(tasks, evs, k, started, stopped)
    ensures IsEvent(tasks, |tasks|, evs[k])
    ensures evs[k].task !in (if evs[k].kind.Start? then started else stopped)
    ensures Progress(tasks, evs, k + 1,
                     if evs[k].kind.Start? then started + {evs[k].task} else started,
                     if evs[k].kind.Start? then stopped else stopped + {evs[k].task})
  {
    var e := evs[k];
    NextIsNew(tasks, evs, k, started, stopped);
    assert k > 0 ==> Leq(evs[k - 1], e);
    var started' := if e.kind.Start? then started + {e.task} else started;
    var stopped' := if e.kind.Start? then stopped else stopped + {e.task};
    forall t: nat | t < |tasks| ensures t !in started' <==> StartOf(tasks, t) in evs[k + 1..] {
      StillToCome(tasks, evs, k, started, stopped, t);
    }
    forall t: nat | t < |tasks| ensures t !in stopped' <==> StopOf(tasks, t) in evs[k + 1..] {
      StillToCome(tasks, evs, k, started, stopped, t);
    }
  }

  lemma {:induction false} RestIsLater(evs: seq<Event>, k: nat, e: Event)
    requires Ordered(evs) && k < |evs| && e in evs[k..]
    ensures evs[k].time <= e.time
  {
    var i :| 0 <= i < |evs[k..]| && evs[k..][i] == e;
    assert e == evs[k + i];
    assert i > 0 ==> Leq(evs[k], evs[k + i]);
  }

  /** Over an interval of positive length the tasks on the books are exactly those that run. */
  lemma {:induction false} ActiveRuns(tasks: seq<Task>, evs: seq<Event>, k: nat, started: set<nat>, stopped: set<nat>,
                                      t: nat)
    requires Schedule(tasks, evs) && 0 < k < |evs| && Progress(tasks, evs, k, started, stopped)
    requires evs[k - 1].time < evs[k].time && t < |tasks|
    ensures t in started - stopped <==> Runs(tasks[t], Times(evs), k)
  {
    if t !in started {
      RestIsLater(evs, k, StartOf(tasks, t));
    }
    if t !in stopped {
      RestIsLater(evs, k, StopOf(tasks, t));
    }
  }

  /** The accumulated weighted time after event `k`. */
  function Accumulate(W: real, running: nat, gap: real): real {
    if running > 0 then W + gap / running as real else W
  }

  lemma {:induction false} ActiveAreRunning(tasks: seq<Task>, evs: seq<Event>, k: nat, started: set<nat>,
                                            stopped: set<nat>)
    requires Schedule(tasks, evs) && 0 < k < |evs| && Progress(tasks, evs, k, started, stopped)
    requires evs[k - 1].time < evs[k].time
    ensures started - stopped == Running(tasks, Times(evs), k)
  {
    var active, running := started - stopped, Running(tasks, Times(evs), k);
    forall t: nat ensures t in active <==> t in running {
      if t < |tasks| {
        ActiveRuns(tasks, evs, k, started, stopped, t);
      }
    }
    assert active == running;
  }

  lemma {:induction false} GrowthOfShare(tasks: seq<Task>, times: seq<real>, k: nat, t: nat, active: set<nat>, W: real)
    requires 0 < k < |times| && t < |tasks| && active == Running(tasks, times, k)
    ensures Share(tasks, times, t, k + 1) ==
            Share(tasks, times, t, k) + if t in active then Accumulate(W, |active|, Gap(times, k)) - W else 0.0
  {
  }

  lemma {:induction false} NoGrowth(tasks: seq<Task>, times: seq<real>, k: nat, t: nat, n: nat, W: real)
    requires 0 < k < |times| && t < |tasks| && Gap(times, k) == 0.0
    ensures Share(tasks, times, t, k + 1) == Share(tasks, times, t, k) && Accumulate(W, n, Gap(times, k)) == W
  {
  }

  lemma {:induction false} ShareOfOne(tasks: seq<Task>, evs: seq<Event>, k: nat, started: set<nat>, stopped: set<nat>,
                                      W: real, t: nat)
    requires Schedule(tasks, evs) && 0 < k < |evs| && Progress(tasks, evs, k, started, stopped) && t < |tasks|
    ensures var next := Accumulate(W, |started - stopped|, evs[k].time - evs[k - 1].time);
            Share(tasks, Times(evs), t, k + 1) ==
            Share(tasks, Times(evs), t, k) + if t in started - stopped then next - W else 0.0
  {
    assert Leq(evs[k - 1], evs[k]);
    if evs[k - 1].time < evs[k].time {
      ActiveAreRunning(tasks, evs, k, started, stopped);
      GrowthOfShare(tasks, Times(evs), k, t, started - stopped, W);
    } else {
      NoGrowth(tasks, Times(evs), k, t, |started - stopped|, W);
    }
  }

  lemma {:induction false} ShareStep(tasks: seq<Task>, evs: seq<Event>, k: nat, started: set<nat>, stopped: set<nat>,
                                     W: real)
    requires Schedule(tasks, evs) && 0 < k < |evs| && Progress(tasks, evs, k, started, stopped)
    ensures var next := Accumulate(W, |started - stopped|, evs[k].time - evs[k - 1].time);
            forall t: nat | t < |tasks| ::
              Share(tasks, Times(evs), t, k + 1) ==
              Share(tasks, Times(evs), t, k) + if t in started - stopped then next - W else 0.0
  {
    var next := Accumulate(W, |started - stopped|, evs[k].time - evs[k - 1].time);
    forall t: nat | t < |tasks|
      ensures Share(tasks, Times(evs), t, k + 1) ==
              Share(tasks, Times(evs), t, k) + if t in started - stopped then next - W else 0.0
    {
      ShareOfOne(tasks, evs, k, started, stopped, W, t);
    }
  }

  // ----- The sweep -----

  /** Sum over all tasks of what has been credited to them. */
  function Credited(weights: map<nat, real>, m: nat): real {
    if m == 0 then 0.0 else Credited(weights, m - 1) + if m - 1 in weights then weights[m - 1] else 0.0
  }

  lemma {:induction false} CreditOne(weights: map<nat, real>, t: nat, w: real, m: nat)
    requires t !in weights
    ensures Credited(weights[t := w], m) == Credited(weights, m) + if t < m then w else 0.0
  {
    if m > 0 {
      CreditOne(weights, t, w, m - 1);
    }
  }

  lemma {:induction false} CreditedShares(weights: map<nat, real>, tasks: seq<Task>, times: seq<real>, m: nat)
    requires m <= |tasks|
    requires forall t: nat | t < |tasks| :: t in weights && weights[t] == Share(tasks, times, t, |times|)
    ensures Credited(weights, m) == TotalShare(tasks, times, |times|, m)
  {
    if m > 0 {
      CreditedShares(weights, tasks, times, m - 1);
    }
  }

  /** running_tasks, last_weighted_time, the weights set so far and weighted_total, with the history. */
  datatype Books = Books(
    started: set<nat>, stopped: set<nat>,
    running: map<nat, real>, weightedTime: real, weights: map<nat, real>, total: real)

  /** Every task's account agrees with its share after `k` instants. */
  ghost predicate Balanced(tasks: seq<Task>, times: seq<real>, k: nat, b: Books) {
    && k <= |times| && (forall t <- b.started :: t < |tasks|)
    && b.stopped <= b.started && b.running.Keys == b.started - b.stopped && b.weights.Keys == b.stopped
    && (forall t <- b.started - b.stopped :: b.weightedTime - b.running[t] == Share(tasks, times, t, k))
    && (forall t <- b.stopped :: b.weights[t] == Share(tasks, times, t, k))
    && (forall t: nat | t < |tasks| && t !in b.started :: Share(tasks, times, t, k) == 0.0)
    && b.total == Credited(b.weights, |tasks|)
  }

  function Advance(b: Books, evs: seq<Event>, k: nat): Books
    requires k < |evs|
  {
    b.(weightedTime := Accumulate(b.weightedTime, |b.running|, if k == 0 then 0.0 else evs[k].time - evs[k - 1].time))
  }

  lemma {:induction false} ShiftBalances(tasks: seq<Task>, times: seq<real>, k: nat, b: Books, next: real)
    requires Balanced(tasks, times, k, b) && k < |times|
    requires forall t: nat | t < |tasks| ::
               Share(tasks, times, t, k + 1) ==
               Share(tasks, times, t, k) + if t in b.started - b.stopped then next - b.weightedTime else 0.0
    ensures Balanced(tasks, times, k + 1, b.(weightedTime := next))
  {
  }

  /** Accumulating up to event `k` keeps the accounts balanced. */
  lemma {:induction false} AdvanceBalances(tasks: seq<Task>, evs: seq<Event>, k: nat, b: Books)
    requires Schedule(tasks, evs) && k < |evs| && Progress(tasks, evs, k, b.started, b.stopped)
    requires Balanced(tasks, Times(evs), k, b)
    ensures Balanced(tasks, Times(evs), k + 1, Advance(b, evs, k))
  {
    assert |b.running| == |b.started - b.stopped| by {
      assert |b.running| == |b.running.Keys|;
    }
    if k == 0 {
      assert b.started == {} && |b.running| == 0;
    } else {
      ShareStep(tasks, evs, k, b.started, b.stopped, b.weightedTime);
    }
    ShiftBalances(tasks, Times(evs), k, b, Advance(b, evs, k).weightedTime);
  }

  function BookStart(b: Books, t: nat): Books {
    b.(started := b.started + {t}, running := b.running[t := b.weightedTime])
  }

  lemma {:induction false} StartBalances(tasks: seq<Task>, times: seq<real>, k: nat, b: Books, t: nat)
    requires Balanced(tasks, times, k, b) && t < |tasks| && t !in b.started
    ensures Balanced(tasks, times, k, BookStart(b, t))
  {
  }

  function BookStop(b: Books, t: nat): Books
    requires t in b.running
  {
    var w := b.weightedTime - b.running[t];
    b.(stopped := b.stopped + {t}, running := b.running - {t}, weights := b.weights[t := w], total := b.total + w)
  }

  lemma {:induction false} StopBalances(tasks: seq<Task>, times: seq<real>, k: nat, b: Books, t: nat)
    requires Balanced(tasks, times, k, b) && t in b.running
    ensures Balanced(tasks, times, k, BookStop(b, t))
  {
    CreditOne(b.weights, t, b.weightedTime - b.running[t], |tasks|);
  }

  /** A stop that finds its task not running belongs to a task that ends before it starts. */
  lemma {:induction false} MissingMeansBackwards(
    tasks: seq<Task>, evs: seq<Event>, k: nat, started: set<nat>, stopped: set<nat>)
    requires Schedule(tasks, evs) && k < |evs| && Progress(tasks, evs, k, started, stopped)
    requires evs[k].kind.Stop? && evs[k].task !in started - stopped
    ensures evs[k].task < |tasks| && tasks[evs[k].task].end < tasks[evs[k].task].start
  {
    ProgressNext(tasks, evs, k, started, stopped);
    var t := evs[k].task;
    var e := StartOf(tasks, t);
    var i :| 0 <= i < |evs[k..]| && evs[k..][i] == e;
    assert e == evs[k + i];
    assert i > 0;
    assert Leq(evs[k], e);
  }

  // ----- The whole summary -----

  datatype Summary = Summary(length: real, weightedTotal: real, totalCpuTime: real)

  datatype Outcome = Summarized(summary: Summary) | IndexError | KeyError

  function Tasks(entries: seq<Target>): (tasks: seq<Task>)
    ensures |tasks| == |entries|
    ensures forall t | 0 <= t < |entries| :: tasks[t] == Task(entries[t].start, entries[t].end)
  {
    seq(|entries|, t requires 0 <= t < |entries| => Task(entries[t].start, entries[t].end))
  }

  ghost predicate Backwards(tasks: seq<Task>) {
    exists t :: 0 <= t < |tasks| && tasks[t].end < tasks[t].start
  }

  ghost function Instants(tasks: seq<Task>): seq<real> {
    Times(Sort(Events(tasks, |tasks|)))
  }

  ghost predicate IsEarliest(tasks: seq<Task>, m: nat, x: real)
    requires m <= |tasks|
  {
    (forall t | 0 <= t < m :: x <= tasks[t].start) && exists t :: 0 <= t < m && x == tasks[t].start
  }

  ghost predicate IsLatest(tasks: seq<Task>, m: nat, x: real)
    requires m <= |tasks|
  {
    (forall t | 0 <= t < m :: tasks[t].end <= x) && exists t :: 0 <= t < m && x == tasks[t].end
  }

  ghost predicate NoNegative(tasks: seq<Task>) {
    forall t | 0 <= t < |tasks| :: 0.0 <= tasks[t].start <= tasks[t].end
  }

  /** The summed durations of the first `m` tasks. */
  function CpuTime(tasks: seq<Task>, m: nat): real
    requires m <= |tasks|
  {
    if m == 0 then 0.0 else CpuTime(tasks, m - 1) + (tasks[m - 1].end - tasks[m - 1].start)
  }

  lemma {:induction false} SharesWithinCpuTime(tasks: seq<Task>, times: seq<real>, m: nat)
    requires m <= |tasks| && InOrder(times) && times != [] && !Backwards(tasks)
    ensures TotalShare(tasks, times, |times|, m) <= CpuTime(tasks, m)
  {
    if m > 0 {
      SharesWithinCpuTime(tasks, times, m - 1);
      ShareBounds(tasks, times, m - 1, |times|);
    }
  }

  /** The first loop: the event list, the extent of the build and the summed durations. */
  method Collect(entries: seq<Target>) returns (evs: seq<Event>, earliest: real, latest: real, totalCpuTime: real)
    requires entries != []
    ensures evs == Events(Tasks(entries), |entries|) && totalCpuTime == CpuTime(Tasks(entries), |entries|)
    ensures NoNegative(Tasks(entries)) ==>
              IsEarliest(Tasks(entries), |entries|, earliest) && IsLatest(Tasks(entries), |entries|, latest)
  {
    ghost var tasks := Tasks(entries);
    evs, earliest, latest, totalCpuTime := [], -1.0, 0.0, 0.0;
    for i := 0 to |entries|
      invariant evs == Events(tasks, i) && totalCpuTime == CpuTime(tasks, i)
      invariant i == 0 ==> earliest == -1.0 && latest == 0.0
      invariant i > 0 && NoNegative(tasks) ==> IsEarliest(tasks, i, earliest) && IsLatest(tasks, i, latest)
    {
      var target := entries[i];
      assert tasks[i] == Task(target.start, target.end);
      if earliest < 0.0 || target.start < earliest {
        earliest := target.start;
      }
      if target.end > latest {
        latest := target.end;
      }
      totalCpuTime := totalCpuTime + target.Duration();
      evs := evs + [Event(target.start, Start, i), Event(target.end, Stop, i)];
    }
  }

  /** The events span the build from its earliest start to its latest end. */
  lemma {:induction false} EventsSpanBuild(tasks: seq<Task>, evs: seq<Event>, earliest: real, latest: real)
    requires Schedule(tasks, evs) && evs != [] && !Backwards(tasks)
    requires IsEarliest(tasks, |tasks|, earliest) && IsLatest(tasks, |tasks|, latest)
    ensures evs[0].time == earliest && evs[|evs| - 1].time == latest
  {
    var n := |evs| - 1;
    NextIsGone(tasks, evs, 0, evs[0]);
    NextIsGone(tasks, evs, n, evs[n]);
    var a :| 0 <= a < |tasks| && earliest == tasks[a].start;
    var z :| 0 <= z < |tasks| && latest == tasks[z].end;
    InSchedule(tasks, evs, StartOf(tasks, a));
    InSchedule(tasks, evs, StopOf(tasks, z));
    assert tasks[evs[0].task].start <= evs[0].time && evs[n].time <= tasks[evs[n].task].end;
  }

  lemma {:induction false} InSchedule(tasks: seq<Task>, evs: seq<Event>, e: Event)
    requires Schedule(tasks, evs) && IsEvent(tasks, |tasks|, e)
    ensures evs != [] && evs[0].time <= e.time <= evs[|evs| - 1].time
  {
    assert multiset(evs)[e] == 1;
    var i :| 0 <= i < |evs| && evs[i] == e;
    assert i > 0 ==> Leq(evs[0], evs[i]);
    assert i < |evs| - 1 ==> Leq(evs[i], evs[|evs| - 1]);
  }

  /** Where the second loop stands after `k` events. */
  ghost predicate SweptTo(tasks: seq<Task>, evs: seq<Event>, k: nat, b: Books) {
    && k <= |evs| && Progress(tasks, evs, k, b.started, b.stopped)
    && Balanced(tasks, Times(evs), k, b)
    && forall t <- b.stopped :: tasks[t].start <= tasks[t].end
  }

  lemma {:induction false} SweepBegins(tasks: seq<Task>, evs: seq<Event>)
    requires Schedule(tasks, evs)
    ensures SweptTo(tasks, evs, 0, Books({}, {}, map[], 0.0, map[], 0.0))
  {
    ProgressStart(tasks, evs);
    NothingCredited(|tasks|);
  }

  lemma {:induction false} SweepStart(tasks: seq<Task>, evs: seq<Event>, k: nat, b: Books)
    requires Schedule(tasks, evs) && k < |evs| && SweptTo(tasks, evs, k, b) && evs[k].kind.Start?
    ensures SweptTo(tasks, evs, k + 1, BookStart(Advance(b, evs, k), evs[k].task))
  {
    AdvanceBalances(tasks, evs, k, b);
    ProgressNext(tasks, evs, k, b.started, b.stopped);
    StartBalances(tasks, Times(evs), k + 1, Advance(b, evs, k), evs[k].task);
  }

  lemma {:induction false} SweepStop(tasks: seq<Task>, evs: seq<Event>, k: nat, b: Books)
    requires Schedule(tasks, evs) && k < |evs| && SweptTo(tasks, evs, k, b) && evs[k].kind.Stop?
    requires evs[k].task in b.running
    ensures SweptTo(tasks, evs, k + 1, BookStop(Advance(b, evs, k), evs[k].task))
  {
    AdvanceBalances(tasks, evs, k, b);
    ProgressNext(tasks, evs, k, b.started, b.stopped);
    StopBalances(tasks, Times(evs), k + 1, Advance(b, evs, k), evs[k].task);
    assert evs[k].task in b.started;
    assert Leq(evs[k - 1], evs[k]);
  }

  lemma {:induction false} SweepEnds(tasks: seq<Task>, evs: seq<Event>, b: Books)
    requires SweptTo(tasks, evs, |evs|, b)
    ensures b.running == map[] && !Backwards(tasks) && b.total == Busy(tasks, Times(evs), |evs|)
    ensures forall t: nat | t < |tasks| :: t in b.stopped && b.weights[t] == Share(tasks, Times(evs), t, |evs|)
  {
    assert evs[|evs|..] == [];
    assert forall t: nat | t < |tasks| :: t in b.started && t in b.stopped;
    CreditedShares(b.weights, tasks, Times(evs), |tasks|);
    SharesConserve(tasks, Times(evs), |evs|);
  }

  /** The books after event `k`; there are none when a task stops that is not running. */
  ghost predicate NextBooks(evs: seq<Event>, k: nat, b: Books, b': Books)
    requires k < |evs|
  {
    var now, t := Advance(b, evs, k), evs[k].task;
    if evs[k].kind.Start? then b' == BookStart(now, t) else t in b.running && b' == BookStop(now, t)
  }

  lemma {:induction false} SweepStep(tasks: seq<Task>, evs: seq<Event>, k: nat, b: Books, b': Books)
    requires Schedule(tasks, evs) && k < |evs| && SweptTo(tasks, evs, k, b) && NextBooks(evs, k, b, b')
    ensures SweptTo(tasks, evs, k + 1, b') && evs[k].task < |tasks|
  {
    NextIsGone(tasks, evs, k, evs[k]);
    if evs[k].kind.Start? {
      SweepStart(tasks, evs, k, b);
    } else {
      SweepStop(tasks, evs, k, b);
    }
  }

  /** One round of the second loop; `w` is the weighted duration of a task that stops. */
  method HandleEvent(
    e: Event, lastTime: real, running: map<nat, real>, weightedTime: real, total: real,
    ghost evs: seq<Event>, ghost k: nat, ghost b: Books)
    returns (ok: bool, running': map<nat, real>, weightedTime': real, total': real, w: real, ghost b': Books)
    requires k < |evs| && e == evs[k]
    requires running == b.running && weightedTime == b.weightedTime && total == b.total
    requires lastTime == if k == 0 then evs[0].time else evs[k - 1].time
    ensures ok <==> e.kind.Start? || e.task in running
    ensures ok ==> NextBooks(evs, k, b, b')
    ensures ok ==> running' == b'.running && weightedTime' == b'.weightedTime && total' == b'.total
    ensures ok ==> b'.weights == if e.kind.Stop? then b.weights[e.task := w] else b.weights
  {
    ok, running', weightedTime', total', w := true, running, weightedTime, total, 0.0;
    if |running| > 0 {
      weightedTime' := weightedTime + (e.time - lastTime) / |running| as real;
    }
    b' := Advance(b, evs, k);
    match e.kind {
      case Start =>
        running' := running[e.task := weightedTime'];
        b' := BookStart(b', e.task);
      case Stop =>
        if e.task !in running {
          ok := false;
        } else {
          w := weightedTime' - running[e.task];
          total' := total + w;
          running' := running - {e.task};
          b' := BookStop(b', e.task);
        }
    }
  }

  /** The same round, with what it does to the accounts. */
  method SweepEvent(
    e: Event, lastTime: real, running: map<nat, real>, weightedTime: real, total: real,
    ghost tasks: seq<Task>, ghost evs: seq<Event>, ghost k: nat, ghost b: Books)
    returns (ok: bool, running': map<nat, real>, weightedTime': real, total': real, w: real, ghost b': Books)
    requires Schedule(tasks, evs) && k < |evs| && e == evs[k] && SweptTo(tasks, evs, k, b)
    requires running == b.running && weightedTime == b.weightedTime && total == b.total
    requires lastTime == if k == 0 then evs[0].time else evs[k - 1].time
    ensures !ok ==> Backwards(tasks)
    ensures ok ==> SweptTo(tasks, evs, k + 1, b') && e.task < |tasks|
    ensures ok ==> running' == b'.running && weightedTime' == b'.weightedTime && total' == b'.total
    ensures ok ==> b'.weights == if e.kind.Stop? then b.weights[e.task := w] else b.weights
  {
    ok, running', weightedTime', total', w, b' := HandleEvent(e, lastTime, running, weightedTime, total, evs, k, b);
    if ok {
      SweepStep(tasks, evs, k, b, b');
    } else {
      MissingMeansBackwards(tasks, evs, k, b.started, b.stopped);
    }
  }

  /** The targets of stopped tasks carry their weights. */
  ghost predicate Recorded(entries: seq<Target>, weights: map<nat, real>)
    reads entries
  {
    forall t: nat | t < |entries| && t in weights :: entries[t].weightedDuration == weights[t]
  }

  method SetWeightedDuration(entries: seq<Target>, t: nat, w: real, ghost weights: map<nat, real>)
    requires t < |entries| && Recorded(entries, weights)
    requires forall i, j | 0 <= i < j < |entries| :: entries[i] != entries[j]
    modifies entries
    ensures Recorded(entries, weights[t := w])
  {
    entries[t].weightedDuration := w;
  }

  /** The second loop. */
  method Sweep(entries: seq<Target>, evs: seq<Event>) returns (ok: bool, weightedTotal: real)
    requires forall i, j | 0 <= i < j < |entries| :: entries[i] != entries[j]
    requires evs != [] && Schedule(Tasks(entries), evs)
    modifies entries
    ensures ok <==> !Backwards(Tasks(entries))
    ensures ok ==>
              && weightedTotal == Busy(Tasks(entries), Times(evs), |evs|)
              && forall t | 0 <= t < |entries| ::
                   entries[t].weightedDuration == Share(Tasks(entries), Times(evs), t, |evs|)
  {
    ghost var tasks := Tasks(entries);
    ghost var b := Books({}, {}, map[], 0.0, map[], 0.0);
    SweepBegins(tasks, evs);
    var running: map<nat, real> := map[];
    var lastTime, lastWeightedTime := evs[0].time, 0.0;
    weightedTotal := 0.0;
    for k := 0 to |evs|
      invariant SweptTo(tasks, evs, k, b)
      invariant running == b.running && lastWeightedTime == b.weightedTime && weightedTotal == b.total
      invariant lastTime == if k == 0 then evs[0].time else evs[k - 1].time
      invariant Recorded(entries, b.weights)
    {
      var w;
      ghost var weights := b.weights;
      ok, running, lastWeightedTime, weightedTotal, w, b :=
        SweepEvent(evs[k], lastTime, running, lastWeightedTime, weightedTotal, tasks, evs, k, b);
      if !ok {
        return;
      }
      if evs[k].kind.Stop? {
        SetWeightedDuration(entries, evs[k].task, w, weights);
      }
      lastTime := evs[k].time;
    }
    SweepEnds(tasks, evs, b);
    assert |running| == 0;
    ok := true;
  }

  lemma {:induction false} NothingCredited(m: nat)
    ensures Credited(map[], m) == 0.0
  {
    if m > 0 {
      NothingCredited(m - 1);
    }
  }

  /** Every entry gets its share, and the total is the busy time; only a backwards task makes the sweep fail. */
  method SummarizeEntries(entries: seq<Target>) returns (r: Outcome)
    requires forall i, j | 0 <= i < j < |entries| :: entries[i] != entries[j]
    modifies entries
    ensures r.IndexError? <==> entries == []
    ensures r.KeyError? <==> Backwards(Tasks(entries))
    ensures r.Summarized? ==>
              var tasks := Tasks(entries);
              var times := Instants(tasks);
              && r.summary.weightedTotal == Busy(tasks, times, |times|)
              && r.summary.totalCpuTime == CpuTime(tasks, |tasks|)
              && (NoNegative(tasks) ==> times != [] && r.summary.length == times[|times| - 1] - times[0])
              && forall t | 0 <= t < |entries| :: entries[t].weightedDuration == Share(tasks, times, t, |times|)
  {
    if entries == [] {
      return IndexError;
    }
    ghost var tasks := Tasks(entries);
    var evs, earliest, latest, totalCpuTime := Collect(entries);
    SortedIsSchedule(tasks);
    evs := Sort(evs);
    var ok, weightedTotal := Sweep(entries, evs);
    if !ok {
      return KeyError;
    }
    if NoNegative(tasks) {
      EventsSpanBuild(tasks, evs, earliest, latest);
    }
    return Summarized(Summary(latest - earliest, weightedTotal, totalCpuTime));
  }

  lemma {:induction false} InstantsInOrder(tasks: seq<Task>)
    ensures InOrder(Instants(tasks))
  {
    SortSorts(Events(tasks, |tasks|));
    var evs := Sort(Events(tasks, |tasks|));
    forall i, j | 0 <= i <= j < |evs| ensures evs[i].time <= evs[j].time {
      assert i < j ==> Leq(evs[i], evs[j]);
    }
  }

  /**
    For every list of forward tasks: each weighted duration lies between 0 and the duration, they add
    up to the busy time, and that is at most the summed durations and is the whole span exactly when
    there is no idle gap.
  */
  lemma {:induction false} WeightedTimesConserve(tasks: seq<Task>)
    requires tasks != [] && !Backwards(tasks)
    ensures var times := Instants(tasks);
            && times != []
            && (forall t | 0 <= t < |tasks| ::
                  0.0 <= Share(tasks, times, t, |times|) <= tasks[t].end - tasks[t].start)
            && TotalShare(tasks, times, |times|, |tasks|) == Busy(tasks, times, |times|)
            && Busy(tasks, times, |times|) <= CpuTime(tasks, |tasks|)
            && Busy(tasks, times, |times|) <= times[|times| - 1] - times[0]
            && (Busy(tasks, times, |times|) == times[|times| - 1] - times[0] <==> NoIdleGap(tasks, times))
  {
    var times := Instants(tasks);
    SortedIsSchedule(tasks);
    InstantsInOrder(tasks);
    SharesConserve(tasks, times, |times|);
    BusyAndIdle(tasks, times, |times|);
    IdleIffGap(tasks, times, |times|);
    SharesWithinCpuTime(tasks, times, |tasks|);
    forall t | 0 <= t < |tasks| ensures 0.0 <= Share(tasks, times, t, |times|) <= tasks[t].end - tasks[t].start {
      ShareBounds(tasks, times, t, |times|);
    }
  }

  /** At every moment between the first and the last instant something runs. */
  ghost predicate NoIdleGap(tasks: seq<Task>, times: seq<real>) {
    forall i | 0 < i < |times| && times[i - 1] < times[i] :: Running(tasks, times, i) != {}
  }

  lemma {:induction false} IdleIffGap(tasks: seq<Task>, times: seq<real>, k: nat)
    requires k <= |times| && InOrder(times)
    ensures Idle(tasks, times, k) >= 0.0
    ensures Idle(tasks, times, k) == 0.0 <==>
            forall i | 0 < i < k && times[i - 1] < times[i] :: Running(tasks, times, i) != {}
  {
    if k > 1 {
      IdleIffGap(tasks, times, k - 1);
      assert times[k - 2] <= times[k - 1];
    }
  }
}
