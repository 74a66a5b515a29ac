/**
  The token bucket of benchmarks/disagg_benchmarks/rate_limiter.py.  The lock makes each pass
  through the loop of `acquire` one atomic attempt, so every interleaving of clients is a list
  of attempts at non-decreasing clock readings.  Times are exact reals.
*/
module RateLimiter {

  datatype Bucket = Bucket(rate: int, tokens: int, lastRefill: real)

  datatype Reply = Granted | Sleep(seconds: real)

  predicate Valid(b: Bucket) {
    b.rate > 0 && 0 <= b.tokens <= b.rate
  }

  function Refill(b: Bucket, now: real): Bucket {
    if now - b.lastRefill > 1.0 then b.(tokens := b.rate, lastRefill := now) else b
  }

  function Attempt(b: Bucket, now: real): (Bucket, Reply) {
    var r := Refill(b, now);
    if r.tokens > 0 then (r.(tokens := r.tokens - 1), Granted)
    else (r, Sleep(1.0 - (now - b.lastRefill)))
  }

  // ----- Runs -----

  function AfterRun(b: Bucket, times: seq<real>): Bucket
    decreases |times|
  {
    if times == [] then b else AfterRun(Attempt(b, times[0]).0, times[1..])
  }

  function Grants(b: Bucket, times: seq<real>): nat
    decreases |times|
  {
    if times == [] then 0
    else (if Attempt(b, times[0]).1.Granted? then 1 else 0) + Grants(Attempt(b, times[0]).0, times[1..])
  }

  ghost predicate NonDecreasing(times: seq<real>) {
    forall i, j | 0 <= i <= j < |times| :: times[i] <= times[j]
  }

  function Ceil(x: real): int {
    -((-x).Floor)
  }

  class RateLimiter {
    const rateLimit: int
    var numAvailableTokens: int
    var lastRefill: real

    ghost function Contents(): Bucket
      reads this
    {
      Bucket(rateLimit, numAvailableTokens, lastRefill)
    }

    constructor (rateLimit: int, now: real)
      ensures Contents() == Bucket(rateLimit, rateLimit, now)
    {
      this.rateLimit := rateLimit;
      numAvailableTokens := rateLimit;
      lastRefill := now;
    }

    /** The critical section of one pass through the loop. */
    method TryAcquire(now: real) returns (r: Reply)
      modifies this
      ensures (Contents(), r) == Attempt(old(Contents()), now)
    {
      var elapsed := now - lastRefill;
      if elapsed > 1.0 {
        numAvailableTokens := rateLimit;
        lastRefill := now;
      }
      if numAvailableTokens > 0 {
        numAvailableTokens := numAvailableTokens - 1;
        return Granted;
      }
      return Sleep(1.0 - elapsed);
    }

    /** The loop of one client that is alone, for as long as the clock readings last. */
    method Acquire(clock: seq<real>) returns (granted: bool, used: nat)
      requires Valid(Contents())
      modifies this
      ensures used <= |clock|
      ensures Contents() == AfterRun(old(Contents()), clock[..used])
      ensures Grants(old(Contents()), clock[..used]) == if granted then 1 else 0
      ensures !granted ==> used == |clock|
    {
      used := 0;
      while used < |clock|
        invariant used <= |clock|
        invariant Contents() == AfterRun(old(Contents()), clock[..used])
        invariant Grants(old(Contents()), clock[..used]) == 0
      {
        RunSnoc(old(Contents()), clock[..used], clock[used]);
        assert clock[..used + 1] == clock[..used] + [clock[used]];
        var r := TryAcquire(clock[used]);
        used := used + 1;
        if r.Granted? {
          return true, used;
        }
      }
      return false, used;
    }
  }

  lemma {:induction false} RunSnoc(b: Bucket, times: seq<real>, t: real)
    ensures AfterRun(b, times + [t]) == Attempt(AfterRun(b, times), t).0
    ensures Grants(b, times + [t]) ==
            Grants(b, times) + if Attempt(AfterRun(b, times), t).1.Granted? then 1 else 0
    decreases |times|
  {
    if times == [] {
      assert [t][1..] == [];
      assert times + [t] == [t];
    } else {
      assert (times + [t])[1..] == times[1..] + [t];
      RunSnoc(Attempt(b, times[0]).0, times[1..], t);
    }
  }

  // ----- Bounds over every run -----

  /** `m` refills hand out `Quota(rate, m)` tokens. */
  function Quota(rate: int, m: nat): int {
    rate * m
  }

  lemma {:induction false} QuotaStep(rate: int, m: nat)
    ensures Quota(rate, m + 1) == Quota(rate, m) + rate
    ensures rate > 0 ==> Quota(rate, m) >= 0
  {
  }

  ghost predicate Within(times: seq<real>, from: real, to: real) {
    NonDecreasing(times) && (times != [] ==> from <= times[0] && times[|times| - 1] <= to)
  }

  lemma {:induction false} WithinTail(times: seq<real>, from: real, to: real)
    requires Within(times, from, to) && times != []
    ensures Within(times[1..], times[0], to)
  {
  }

  /** Within m + 1 seconds of the last refill at most m refills can follow. */
  lemma {:induction false} GrantsSinceRefill(b: Bucket, times: seq<real>, m: nat)
    requires Valid(b) && Within(times, b.lastRefill, b.lastRefill + m as real + 1.0)
    ensures Grants(b, times) <= b.tokens + Quota(b.rate, m)
    decreases |times|
  {
    if times == [] {
      QuotaStep(b.rate, m);
    } else {
      var now, next := times[0], Attempt(b, times[0]).0;
      assert now <= times[|times| - 1];
      WithinTail(times, b.lastRefill, b.lastRefill + m as real + 1.0);
      if now - b.lastRefill > 1.0 {
        assert m >= 1;
        assert Within(times[1..], next.lastRefill, next.lastRefill + (m - 1) as real + 1.0);
        GrantsSinceRefill(next, times[1..], m - 1);
        QuotaStep(b.rate, m - 1);
      } else {
        GrantsSinceRefill(next, times[1..], m);
      }
    }
  }

  /** The first T seconds of a limiter grant at most rate * ceil(T). */
  lemma {:induction false} FirstSecondsBound(rate: int, start: real, times: seq<real>, T: real)
    requires rate > 0 && T > 0.0 && Within(times, start, start + T)
    ensures Grants(Bucket(rate, rate, start), times) <= rate * Ceil(T)
  {
    GrantsSinceRefill(Bucket(rate, rate, start), times, Ceil(T) - 1);
    QuotaStep(rate, Ceil(T) - 1);
  }

  lemma {:induction false} WindowGrants(b: Bucket, window: seq<real>, from: real, m: nat)
    requires Valid(b) && Within(window, from, from + m as real + 1.0)
    ensures Grants(b, window) <= b.tokens + Quota(b.rate, m + 1)
    decreases |window|
  {
    QuotaStep(b.rate, m);
    if window != [] {
      var to := from + m as real + 1.0;
      WithinTail(window, from, to);
      if window[0] - b.lastRefill > 1.0 {
        var refilled := Refill(b, window[0]);
        assert Attempt(refilled, window[0]) == Attempt(b, window[0]);
        GrantsSinceRefill(refilled, window, m);
      } else {
        assert Within(window[1..], from, to);
        WindowGrants(Attempt(b, window[0]).0, window[1..], from, m);
      }
    }
  }

  /** After any run whatever, a closed window of T seconds grants at most rate * (1 + ceil(T)). */
  lemma {:induction false} WindowBound(b: Bucket, before: seq<real>, window: seq<real>, from: real, T: real)
    requires Valid(b) && T > 0.0 && Within(window, from, from + T)
    ensures Grants(AfterRun(b, before), window) <= b.rate * (1 + Ceil(T))
    ensures T == 1.0 ==> Grants(AfterRun(b, before), window) <= 2 * b.rate
  {
    RunValid(b, before);
    var n := Ceil(T);
    assert T <= n as real;
    WindowGrants(AfterRun(b, before), window, from, n - 1);
    QuotaStep(b.rate, n);
  }

  lemma {:induction false} RunValid(b: Bucket, times: seq<real>)
    requires Valid(b)
    ensures Valid(AfterRun(b, times)) && AfterRun(b, times).rate == b.rate
    decreases |times|
  {
    if times != [] {
      RunValid(Attempt(b, times[0]).0, times[1..]);
    }
  }

  // ----- Exactly how much one second grants -----

  function Min(x: int, y: int): int {
    if x < y then x else y
  }

  /** How many of the attempts come at most one second after the refill. */
  function Early(times: seq<real>, refill: real): (k: nat)
    ensures k <= |times|
  {
    if times == [] then 0 else (if times[0] - refill > 1.0 then 0 else 1) + Early(times[1..], refill)
  }

  lemma {:induction false} NoneEarly(times: seq<real>, refill: real)
    requires forall i | 0 <= i < |times| :: times[i] - refill > 1.0
    ensures Early(times, refill) == 0
  {
    if times != [] {
      NoneEarly(times[1..], refill);
    }
  }

  /** Without a refill the tokens are handed out while they last. */
  lemma {:induction false} DrainExact(b: Bucket, times: seq<real>)
    requires Valid(b) && forall i | 0 <= i < |times| :: times[i] - b.lastRefill <= 1.0
    ensures Grants(b, times) == Min(b.tokens, |times|)
    decreases |times|
  {
    if times != [] {
      assert times[0] - b.lastRefill <= 1.0;
      DrainExact(Attempt(b, times[0]).0, times[1..]);
    }
  }

  lemma {:induction false} SecondGrants(b: Bucket, window: seq<real>, from: real)
    requires Valid(b) && Within(window, from, from + 1.0)
    ensures var k := Early(window, b.lastRefill); Grants(b, window) == Min(b.tokens, k) + Min(b.rate, |window| - k)
    decreases |window|
  {
    if window != [] {
      if window[0] - b.lastRefill > 1.0 {
        var refilled := Refill(b, window[0]);
        assert Attempt(refilled, window[0]) == Attempt(b, window[0]);
        assert forall i | 0 <= i < |window| :: window[0] <= window[i] <= window[|window| - 1];
        DrainExact(refilled, window);
        NoneEarly(window, b.lastRefill);
      } else {
        WithinTail(window, from, from + 1.0);
        SecondGrants(Attempt(b, window[0]).0, window[1..], from);
      }
    }
  }

  /**
    After any run whatever, what the attempts of one second are granted: those at most a second after the last refill
    share the tokens left, the later ones a full bucket.  So the second stays within the rate if and only if no
    early attempt finds a token or what is found early and the later attempts make at most the rate.
  */
  lemma {:induction false} SecondExact(b: Bucket, before: seq<real>, window: seq<real>, from: real)
    requires Valid(b) && Within(window, from, from + 1.0)
    ensures var now := AfterRun(b, before);
            var k := Early(window, now.lastRefill);
            var found := Min(now.tokens, k);
            && Grants(now, window) == found + Min(b.rate, |window| - k)
            && (Grants(now, window) <= b.rate <==> found == 0 || found + (|window| - k) <= b.rate)
  {
    RunValid(b, before);
    SecondGrants(AfterRun(b, before), window, from);
  }

  /** The bound of two rates in one second is reached: the limiter does not hold `rate` per second. */
  lemma {:induction false} WindowBoundReached(rate: nat)
    requires rate > 0
    ensures Grants(Bucket(rate, rate, 0.0), Repeat(1.0, rate) + Repeat(1.5, rate)) == 2 * rate
  {
    var b := Bucket(rate, rate, 0.0);
    Drain(b, 1.0, rate, Repeat(1.5, rate));
    var drained := b.(tokens := 0);
    var refilled := Bucket(rate, rate, 1.5);
    var rest := Repeat(1.5, rate);
    assert Attempt(drained, 1.5) == Attempt(refilled, 1.5);
    assert rest[0] == 1.5;
    assert rest + [] == rest;
    Drain(refilled, 1.5, rate, []);
  }

  function Repeat(t: real, n: nat): (s: seq<real>)
    ensures |s| == n
  {
    if n == 0 then [] else [t] + Repeat(t, n - 1)
  }

  lemma {:induction false} Drain(b: Bucket, t: real, n: nat, rest: seq<real>)
    requires 0 <= n <= b.tokens && t - b.lastRefill <= 1.0
    ensures Grants(b, Repeat(t, n) + rest) == n + Grants(b.(tokens := b.tokens - n), rest)
    decreases n
  {
    if n == 0 {
      assert Repeat(t, 0) + rest == rest;
    } else {
      var all := Repeat(t, n) + rest;
      assert all[0] == t && all[1..] == Repeat(t, n - 1) + rest;
      Drain(b.(tokens := b.tokens - 1), t, n - 1, rest);
    }
  }

  /**
    In every reachable state a refused client sleeps between 0 and 1 seconds; sleeping any longer
    than told gets it a token, but waking exactly on time never does: it is told to sleep 0 seconds.
  */
  lemma {:induction false} SleepBounds(b: Bucket, before: seq<real>, now: real, later: real)
    requires Valid(b) && now >= AfterRun(b, before).lastRefill
    requires Attempt(AfterRun(b, before), now).1.Sleep?
    ensures var (next, reply) := Attempt(AfterRun(b, before), now);
            && 0.0 <= reply.seconds <= 1.0
            && (later > now + reply.seconds ==> Attempt(next, later).1.Granted?)
            && (later == now + reply.seconds ==> Attempt(next, later) == (next, Sleep(0.0)))
  {
    RunValid(b, before);
  }
}
