/**
  RequestOutput.add of vllm/outputs.py: folding later outputs of a request into an earlier one,
  either concatenating deltas (aggregate) or keeping the latest.
*/
module RequestOutput {
  import opened Options
  import Logprobs

  /** One completion as a value. `logprobs` reads as a list of dictionaries, one per position. */
  datatype Completion = Completion(
    index: int,
    text: string,
    tokenIds: seq<int>,
    cumulativeLogprob: Option<real>,
    logprobs: Option<seq<Logprobs.Dict>>,
    finishReason: Option<string>,
    stopReason: Option<string>)

  /** None stands for the AssertionError of the code. */
  type Outputs = Option<seq<Completion>>

  // ----- Merging values -----

  predicate HasLogprobs(c: Completion) {
    c.logprobs.Some? && c.logprobs.value != []
  }

  function Join(x: Completion, y: Completion): Option<Completion> {
    if HasLogprobs(y) && x.logprobs.None? then None
    else Some(Completion(
      x.index, x.text + y.text, x.tokenIds + y.tokenIds, y.cumulativeLogprob,
      if HasLogprobs(y) then Some(x.logprobs.value + y.logprobs.value) else x.logprobs,
      y.finishReason, y.stopReason))
  }

  function Combine(x: Completion, y: Completion, aggregate: bool): Option<Completion> {
    if aggregate then Join(x, y) else Some(y)
  }

  /** The first place with index `k`, or the length when there is none. */
  function Place(outs: seq<Completion>, k: int): (j: nat)
    ensures j <= |outs| && (j < |outs| ==> outs[j].index == k)
    ensures forall i | 0 <= i < j :: outs[i].index != k
  {
    if outs == [] then 0 else if outs[0].index == k then 0 else 1 + Place(outs[1..], k)
  }

  predicate Has(outs: seq<Completion>, k: int) {
    Place(outs, k) < |outs|
  }

  function MergeOne(outs: seq<Completion>, y: Completion, aggregate: bool): Outputs {
    var j := Place(outs, y.index);
    if j == |outs| then Some(outs + [y])
    else match Combine(outs[j], y, aggregate)
         case None => None
         case Some(merged) => Some(outs[j := merged])
  }

  function Step(o: Outputs, y: Completion, aggregate: bool): Outputs {
    match o case None => None case Some(outs) => MergeOne(outs, y, aggregate)
  }

  function MergeAll(o: Outputs, ys: seq<Completion>, aggregate: bool): Outputs {
    if ys == [] then o else Step(MergeAll(o, ys[..|ys| - 1], aggregate), ys[|ys| - 1], aggregate)
  }

  datatype Request = Request(outputs: seq<Completion>, finished: bool, kvTransferParams: Option<string>)

  function Add(a: Request, b: Request, aggregate: bool): Option<Request> {
    match MergeAll(Some(a.outputs), b.outputs, aggregate)
    case None => None
    case Some(outs) => Some(Request(outs, a.finished || b.finished, b.kvTransferParams))
  }

  lemma {:induction false} AddIs(a: Request, b: Request, aggregate: bool, want: Outputs)
    requires want == MergeAll(Some(a.outputs), b.outputs, aggregate)
    ensures Add(a, b, aggregate).Some? <==> want.Some?
    ensures want.Some? ==>
              Add(a, b, aggregate) == Some(Request(want.value, a.finished || b.finished, b.kvTransferParams))
  {
  }

  // ----- The objects -----

  class CompletionOutput {
    const index: int
    var text: string
    var tokenIds: seq<int>
    var cumulativeLogprob: Option<real>
    var logprobs: Option<seq<Logprobs.Dict>>
    var finishReason: Option<string>
    var stopReason: Option<string>

    function Value(): Completion
      reads this
    {
      Completion(index, text, tokenIds, cumulativeLogprob, logprobs, finishReason, stopReason)
    }

    constructor (c: Completion)
      ensures Value() == c
    {
      index, text, tokenIds := c.index, c.text, c.tokenIds;
      cumulativeLogprob, logprobs := c.cumulativeLogprob, c.logprobs;
      finishReason, stopReason := c.finishReason, c.stopReason;
    }

    /** The aggregate branch for two outputs of one index. */
    method Absorb(next: CompletionOutput) returns (ok: bool)
      requires next != this
      modifies this
      ensures ok <==> Join(old(Value()), next.Value()).Some?
      ensures ok ==> Some(Value()) == Join(old(Value()), next.Value())
    {
      text := text + next.text;
      tokenIds := tokenIds + next.tokenIds;
      if next.logprobs.Some? && next.logprobs.value != [] {
        if logprobs.None? {
          return false;
        }
        logprobs := Some(logprobs.value + next.logprobs.value);
      }
      cumulativeLogprob := next.cumulativeLogprob;
      finishReason := next.finishReason;
      stopReason := next.stopReason;
      return true;
    }
  }

  function Values(cs: seq<CompletionOutput>): (vs: seq<Completion>)
    reads cs
    ensures |vs| == |cs| && forall i | 0 <= i < |cs| :: vs[i] == cs[i].Value()
  {
    if cs == [] then [] else Values(cs[..|cs| - 1]) + [cs[|cs| - 1].Value()]
  }

  lemma {:induction false} ValuesPut(cs: seq<CompletionOutput>, j: nat, c: CompletionOutput)
    requires j < |cs|
    ensures Values(cs[j := c]) == Values(cs)[j := c.Value()]
  {
  }

  lemma {:induction false} ValuesAppend(cs: seq<CompletionOutput>, c: CompletionOutput)
    ensures Values(cs + [c]) == Values(cs) + [c.Value()]
  {
  }

  ghost function Joined(pool: set<CompletionOutput>, c: CompletionOutput,
                        all: set<CompletionOutput>): (r: set<CompletionOutput>)
    requires pool <= all && c in all
    ensures r == pool + {c} && r <= all
  {
    pool + {c}
  }

  /** From place `i` on, `theirs` holds the values `ys`, in objects outside `pool`. */
  ghost predicate Ahead(theirs: seq<CompletionOutput>, i: nat, pool: set<CompletionOutput>, ys: seq<Completion>)
    reads theirs
  {
    |ys| == |theirs| && forall k | i <= k < |theirs| :: theirs[k] !in pool && theirs[k].Value() == ys[k]
  }

  ghost predicate Distinct<T>(s: seq<T>) {
    forall i, j | 0 <= i < j < |s| :: s[i] != s[j]
  }

  ghost predicate Drawn<T>(s: seq<T>, pool: set<T>) {
    Distinct(s) && forall j | 0 <= j < |s| :: s[j] in pool
  }

  lemma {:induction false} DrawnPut<T>(s: seq<T>, j: nat, x: T, pool: set<T>)
    requires Drawn(s, pool) && j < |s| && x !in pool
    ensures Drawn(s[j := x], pool + {x})
  {
  }

  lemma {:induction false} DrawnAppend<T>(s: seq<T>, x: T, pool: set<T>)
    requires Drawn(s, pool) && x !in pool
    ensures Drawn(s + [x], pool + {x})
  {
  }

  class RequestOutput {
    var outputs: seq<CompletionOutput>
    var finished: bool
    var kvTransferParams: Option<string>

    function View(): Request
      reads this, outputs
    {
      Request(Values(outputs), finished, kvTransferParams)
    }

    constructor (outputs: seq<CompletionOutput>, finished: bool, kv: Option<string>)
      ensures this.outputs == outputs && this.finished == finished && kvTransferParams == kv
    {
      this.outputs, this.finished, kvTransferParams := outputs, finished, kv;
    }

    /** The inner loop: where the completion with this index is. */
    method FindPlace(k: int) returns (j: nat)
      ensures j == Place(Values(outputs), k)
    {
      j := 0;
      while j < |outputs| && outputs[j].index != k
        invariant j <= |outputs| && forall i | 0 <= i < j :: outputs[i].index != k
      {
        j := j + 1;
      }
      assert j < |outputs| ==> Values(outputs)[j].index == k;
      assert forall i | 0 <= i < j :: Values(outputs)[i].index != k;
    }

    /** All completions listed here are among `pool`. */
    ghost predicate DrawnFrom(pool: set<CompletionOutput>)
      reads this
    {
      Drawn(outputs, pool)
    }

    lemma {:induction false} DrawnFromMore(pool: set<CompletionOutput>, all: set<CompletionOutput>)
      requires DrawnFrom(pool) && pool <= all
      ensures DrawnFrom(all)
    {
    }

    method AbsorbAt(j: nat, next: CompletionOutput, ghost want: Outputs) returns (ok: bool)
      requires j == Place(Values(outputs), next.index) < |outputs| && Distinct(outputs) && next != outputs[j]
      requires want == MergeOne(Values(outputs), next.Value(), true)
      modifies outputs[j]
      ensures ok <==> want.Some?
      ensures ok ==> want == Some(Values(outputs))
    {
      ghost var xs := Values(outputs);
      ok := outputs[j].Absorb(next);
      if ok {
        assert Values(outputs) == xs[j := outputs[j].Value()];
      }
    }

    method PutAt(j: nat, next: CompletionOutput, aggregate: bool, ghost pool: set<CompletionOutput>,
                 ghost want: Outputs)
      requires j == Place(Values(outputs), next.index) && (aggregate ==> j == |outputs|)
      requires DrawnFrom(pool) && next !in pool && want == MergeOne(Values(outputs), next.Value(), aggregate)
      modifies this`outputs
      ensures outputs == if j < |old(outputs)| then old(outputs)[j := next] else old(outputs) + [next]
      ensures DrawnFrom(pool + {next})
      ensures want == Some(Values(outputs))
    {
      if j < |outputs| {
        ValuesPut(outputs, j, next);
        DrawnPut(outputs, j, next, pool);
        outputs := outputs[j := next];
      } else {
        ValuesAppend(outputs, next);
        DrawnAppend(outputs, next, pool);
        outputs := outputs + [next];
      }
    }

    /** One round of the outer loop. */
    method MergeCompletion(next: CompletionOutput, aggregate: bool, ghost pool: set<CompletionOutput>,
                           ghost want: Outputs)
      returns (ok: bool)
      requires DrawnFrom(pool) && next !in pool && want == MergeOne(Values(outputs), next.Value(), aggregate)
      modifies this`outputs, pool
      ensures ok <==> want.Some?
      ensures ok ==> want == Some(Values(outputs))
      ensures DrawnFrom(pool + {next})
    {
      var j := FindPlace(next.index);
      if j < |outputs| && aggregate {
        DrawnFromMore(pool, pool + {next});
        ok := AbsorbAt(j, next, want);
      } else {
        PutAt(j, next, aggregate, pool, want);
        ok := true;
      }
    }

    /** One round of the outer loop, which leaves the completions ahead as they are. */
    method MergeNext(theirs: seq<CompletionOutput>, i: nat, aggregate: bool, ghost pool: set<CompletionOutput>,
                     ghost ys: seq<Completion>, ghost want: Outputs)
      returns (ok: bool)
      requires i < |theirs| == |ys| && Distinct(theirs) && Ahead(theirs, i, pool, ys)
      requires DrawnFrom(pool) && want == MergeOne(Values(outputs), ys[i], aggregate)
      modifies this`outputs, pool
      ensures ok <==> want.Some?
      ensures ok ==> want == Some(Values(outputs))
      ensures DrawnFrom(pool + {theirs[i]}) && Ahead(theirs, i + 1, pool + {theirs[i]}, ys)
    {
      ok := MergeCompletion(theirs[i], aggregate, pool, want);
    }

    /** The outer loop. */
    method MergeOutputs(theirs: seq<CompletionOutput>, aggregate: bool, ghost mine: set<CompletionOutput>,
                        ghost all: set<CompletionOutput>, ghost want: Outputs)
      returns (ok: bool)
      requires DrawnFrom(mine) && mine <= all && want == MergeAll(Some(Values(outputs)), Values(theirs), aggregate)
      requires Distinct(theirs) && forall k | 0 <= k < |theirs| :: theirs[k] !in mine && theirs[k] in all
      modifies this`outputs, all
      ensures ok <==> want.Some?
      ensures ok ==> want == Some(Values(outputs))
      ensures DrawnFrom(all)
    {
      ghost var xs, ys := Values(outputs), Values(theirs);
      ghost var pool := mine;
      for i := 0 to |theirs|
        invariant DrawnFrom(pool) && pool <= all && Ahead(theirs, i, pool, ys)
        invariant MergeAll(Some(xs), ys[..i], aggregate) == Some(Values(outputs))
      {
        MergeAllStep(Some(xs), ys, i, aggregate);
        var done := MergeNext(theirs, i, aggregate, pool, ys, MergeAll(Some(xs), ys[..i + 1], aggregate));
        pool := Joined(pool, theirs[i], all);
        if !done {
          MergeAllFailed(Some(xs), ys, i + 1, aggregate);
          DrawnFromMore(pool, all);
          return false;
        }
      }
      DrawnFromMore(pool, all);
      assert ys[..|theirs|] == ys;
      return true;
    }

    method SetFlags(next: RequestOutput)
      modifies this`finished, this`kvTransferParams
      ensures finished == (old(finished) || old(next.finished)) && kvTransferParams == old(next.kvTransferParams)
      ensures Values(outputs) == old(Values(outputs)) && Values(next.outputs) == old(Values(next.outputs))
    {
      finished := finished || next.finished;
      kvTransferParams := next.kvTransferParams;
    }

    method AddOutputs(next: RequestOutput, aggregate: bool, ghost mine: set<CompletionOutput>,
                      ghost theirs: set<CompletionOutput>, ghost want: Outputs)
      returns (ok: bool)
      requires next != this && DrawnFrom(mine) && next.DrawnFrom(theirs) && mine !! theirs
      requires want == MergeAll(Some(Values(outputs)), Values(next.outputs), aggregate)
      modifies this`outputs, mine, theirs
      ensures ok <==> want.Some?
      ensures ok ==> want == Some(Values(outputs))
      ensures DrawnFrom(mine + theirs)
    {
      ok := MergeOutputs(next.outputs, aggregate, mine, mine + theirs, want);
    }

    /**
      add: the completion objects of `next` may be adopted, and then changed by later merges.  `mine`
      and `theirs` hold the completion objects of the two.
    */
    method AddNext(next: RequestOutput, aggregate: bool, ghost mine: set<CompletionOutput>,
                   ghost theirs: set<CompletionOutput>)
      returns (ok: bool)
      requires next != this && DrawnFrom(mine) && next.DrawnFrom(theirs) && mine !! theirs
      modifies this, mine, theirs
      ensures ok <==> Add(old(View()), old(next.View()), aggregate).Some?
      ensures ok ==> Some(View()) == Add(old(View()), old(next.View()), aggregate)
      ensures DrawnFrom(mine + theirs)
    {
      ghost var want := MergeAll(Some(Values(outputs)), Values(next.outputs), aggregate);
      AddIs(View(), next.View(), aggregate, want);
      SetFlags(next);
      ok := AddOutputs(next, aggregate, mine, theirs, want);
    }
  }

  lemma {:induction false} MergeAllStep(o: Outputs, ys: seq<Completion>, i: nat, aggregate: bool)
    requires i < |ys|
    ensures MergeAll(o, ys[..i + 1], aggregate) == Step(MergeAll(o, ys[..i], aggregate), ys[i], aggregate)
  {
    assert ys[..i + 1][..i] == ys[..i];
  }

  lemma {:induction false} MergeAllFailed(o: Outputs, ys: seq<Completion>, i: nat, aggregate: bool)
    requires i <= |ys| && MergeAll(o, ys[..i], aggregate) == None
    ensures MergeAll(o, ys, aggregate) == None
    decreases |ys| - i
  {
    if i < |ys| {
      assert ys[..i + 1][..i] == ys[..i];
      MergeAllFailed(o, ys, i + 1, aggregate);
    } else {
      assert ys[..i] == ys;
    }
  }

  // ----- Associativity -----

  predicate HasIndex(ys: seq<Completion>, k: int) {
    exists y <- ys :: y.index == k
  }

  ghost predicate DistinctIndices(ys: seq<Completion>) {
    forall i, j | 0 <= i < j < |ys| :: ys[i].index != ys[j].index
  }

  lemma {:induction false} MergeAllConcat(o: Outputs, b: seq<Completion>, c: seq<Completion>, aggregate: bool)
    ensures MergeAll(MergeAll(o, b, aggregate), c, aggregate) == MergeAll(o, b + c, aggregate)
  {
    if c == [] {
      assert b + c == b;
    } else {
      var n := |c| - 1;
      assert (b + c)[..|b + c| - 1] == b + c[..n];
      MergeAllConcat(o, b, c[..n], aggregate);
    }
  }

  lemma {:induction false} PlaceIs(outs: seq<Completion>, k: int, j: nat)
    requires j <= |outs| && (j < |outs| ==> outs[j].index == k) && forall i | 0 <= i < j :: outs[i].index != k
    ensures Place(outs, k) == j
  {
  }

  /** A merge changes one place and keeps every index where it was. */
  lemma {:induction false} MergeOneShape(outs: seq<Completion>, y: Completion, aggregate: bool)
    requires MergeOne(outs, y, aggregate).Some?
    ensures var r, j := MergeOne(outs, y, aggregate).value, Place(outs, y.index);
            && |r| == (if j < |outs| then |outs| else |outs| + 1)
            && r[j].index == y.index
            && (forall i | 0 <= i < |outs| :: r[i].index == outs[i].index)
            && (forall i | 0 <= i < |outs| && i != j :: r[i] == outs[i])
            && Place(r, y.index) == j
            && forall k | k != y.index && Has(outs, k) :: Place(r, k) == Place(outs, k)
  {
    var r, j := MergeOne(outs, y, aggregate).value, Place(outs, y.index);
    PlaceIs(r, y.index, j);
    forall k | k != y.index && Has(outs, k) ensures Place(r, k) == Place(outs, k) {
      PlaceIs(r, k, Place(outs, k));
    }
  }

  lemma {:induction false} PlaceMissing(outs: seq<Completion>, s: Completion, y: Completion, aggregate: bool)
    requires MergeOne(outs, y, aggregate).Some? && Has(outs, y.index) && s.index != y.index && !Has(outs, s.index)
    ensures !Has(MergeOne(outs, y, aggregate).value, s.index)
  {
    MergeOneShape(outs, y, aggregate);
    PlaceIs(MergeOne(outs, y, aggregate).value, s.index, |outs|);
  }

  /** Merges of different indices commute once `y` has its place. */
  lemma {:induction false} UpdatesCommute<T>(s: seq<T>, i: nat, x: T, j: nat, y: T)
    requires i < |s| && j < |s| && i != j
    ensures s[i := x][j := y] == s[j := y][i := x]
  {
  }

  lemma {:induction false} UpdateThenAppend<T>(s: seq<T>, i: nat, x: T, y: T)
    requires i < |s|
    ensures s[i := x] + [y] == (s + [y])[i := x]
  {
  }

  lemma {:induction false} MergesCommute(outs: seq<Completion>, s: Completion, y: Completion, aggregate: bool)
    requires s.index != y.index && Has(outs, y.index)
    ensures Step(MergeOne(outs, y, aggregate), s, aggregate) == Step(MergeOne(outs, s, aggregate), y, aggregate)
  {
    var sy, ss := MergeOne(outs, y, aggregate), MergeOne(outs, s, aggregate);
    if sy.Some? {
      MergeOneShape(outs, y, aggregate);
      if !Has(outs, s.index) {
        PlaceMissing(outs, s, y, aggregate);
      }
    }
    if ss.Some? {
      MergeOneShape(outs, s, aggregate);
    }
    var j, i := Place(outs, y.index), Place(outs, s.index);
    var u := Combine(outs[j], y, aggregate);
    if i < |outs| {
      var v := Combine(outs[i], s, aggregate);
      if u.Some? && v.Some? {
        UpdatesCommute(outs, j, u.value, i, v.value);
      }
    } else if u.Some? {
      UpdateThenAppend(outs, j, u.value, s);
    }
  }

  lemma {:induction false} StepPastOthers(o: Outputs, y: Completion, ss: seq<Completion>, aggregate: bool)
    requires !HasIndex(ss, y.index) && (o.Some? ==> Has(o.value, y.index))
    ensures MergeAll(Step(o, y, aggregate), ss, aggregate) == Step(MergeAll(o, ss, aggregate), y, aggregate)
    ensures var r := MergeAll(o, ss, aggregate); r.Some? ==> Has(r.value, y.index)
  {
    if ss != [] {
      var n := |ss| - 1;
      assert forall z <- ss[..n] :: z in ss;
      assert ss[n] in ss;
      StepPastOthers(o, y, ss[..n], aggregate);
      var z := MergeAll(o, ss[..n], aggregate);
      if z.Some? {
        MergesCommute(z.value, ss[n], y, aggregate);
        if MergeOne(z.value, ss[n], aggregate).Some? {
          MergeOneShape(z.value, ss[n], aggregate);
        }
      }
    }
  }

  /** Merging `x` and then `y` of one index is merging the two merged. */
  lemma {:induction false} TwoOfOneIndex(o: Outputs, x: Completion, y: Completion, xy: Completion, aggregate: bool)
    requires x.index == y.index && Combine(x, y, aggregate) == Some(xy)
    ensures Step(Step(o, x, aggregate), y, aggregate) == Step(o, xy, aggregate)
  {
    if o.Some? {
      var outs, j := o.value, Place(o.value, x.index);
      if MergeOne(outs, x, aggregate).Some? {
        MergeOneShape(outs, x, aggregate);
      }
      if j == |outs| {
        assert (outs + [x])[j := xy] == outs + [xy];
      } else {
        if aggregate {
          JoinAssociates(outs[j], x, y, xy);
        }
        var u, w := Combine(outs[j], x, aggregate), Combine(outs[j], xy, aggregate);
        if u.Some? && w.Some? {
          assert outs[j := u.value][j := w.value] == outs[j := w.value];
        }
      }
    }
  }

  lemma {:induction false} JoinAssociates(z: Completion, x: Completion, y: Completion, xy: Completion)
    requires Join(x, y) == Some(xy)
    ensures Join(z, x).None? ==> Join(z, xy).None?
    ensures Join(z, x).Some? ==> Join(z, xy) == Join(Join(z, x).value, y)
  {
    assert z.text + (x.text + y.text) == z.text + x.text + y.text;
    assert z.tokenIds + (x.tokenIds + y.tokenIds) == z.tokenIds + x.tokenIds + y.tokenIds;
    if z.logprobs.Some? && HasLogprobs(x) && HasLogprobs(y) {
      var a, b, c := z.logprobs.value, x.logprobs.value, y.logprobs.value;
      assert a + (b + c) == a + b + c;
    }
    if x.logprobs == Some([]) && HasLogprobs(y) {
      assert [] + y.logprobs.value == y.logprobs.value;
    }
  }

  lemma {:induction false} MergeInMiddle(
    o: Outputs, before: seq<Completion>, x: Completion, y: Completion, xy: Completion, after: seq<Completion>,
    aggregate: bool)
    requires x.index == y.index && Combine(x, y, aggregate) == Some(xy) && !HasIndex(after, y.index)
    ensures MergeAll(o, before + [xy] + after, aggregate)
            == Step(MergeAll(o, before + [x] + after, aggregate), y, aggregate)
  {
    var z := MergeAll(o, before, aggregate);
    MergeAllConcat(o, before, [x], aggregate);
    MergeAllConcat(o, before, [xy], aggregate);
    MergeAllConcat(o, before + [x], after, aggregate);
    MergeAllConcat(o, before + [xy], after, aggregate);
    MergeSingle(z, x, aggregate);
    MergeSingle(z, xy, aggregate);
    TwoOfOneIndex(z, x, y, xy, aggregate);
    if z.Some? && MergeOne(z.value, x, aggregate).Some? {
      MergeOneShape(z.value, x, aggregate);
    }
    StepPastOthers(Step(z, x, aggregate), y, after, aggregate);
  }

  /** Merging `y` into `b` first, or after `b` has been merged into `o`, is the same. */
  lemma {:induction false} MergeInsideOrAfter(o: Outputs, b: seq<Completion>, y: Completion, aggregate: bool)
    requires DistinctIndices(b) && MergeOne(b, y, aggregate).Some?
    ensures MergeAll(o, MergeOne(b, y, aggregate).value, aggregate) == Step(MergeAll(o, b, aggregate), y, aggregate)
  {
    var j := Place(b, y.index);
    var r := MergeOne(b, y, aggregate).value;
    if j == |b| {
      assert r[..|r| - 1] == b;
    } else {
      var before, after := b[..j], b[j + 1..];
      assert b == before + [b[j]] + after && r == before + [r[j]] + after;
      assert forall i | 0 <= i < |after| :: after[i] == b[j + 1 + i];
      MergeInMiddle(o, before, b[j], y, r[j], after, aggregate);
    }
  }

  lemma {:induction false} MergeKeepsDistinct(b: seq<Completion>, y: Completion, aggregate: bool)
    requires DistinctIndices(b) && MergeOne(b, y, aggregate).Some?
    ensures DistinctIndices(MergeOne(b, y, aggregate).value)
  {
    MergeOneShape(b, y, aggregate);
  }

  lemma {:induction false} MergeSingle(o: Outputs, x: Completion, aggregate: bool)
    ensures MergeAll(o, [x], aggregate) == Step(o, x, aggregate)
  {
    assert [x][..0] == [];
  }

  lemma {:induction false} MergeRegroups(o: Outputs, b: seq<Completion>, c: seq<Completion>, aggregate: bool)
    requires DistinctIndices(b) && MergeAll(Some(b), c, aggregate).Some?
    ensures MergeAll(o, MergeAll(Some(b), c, aggregate).value, aggregate)
            == MergeAll(MergeAll(o, b, aggregate), c, aggregate)
    ensures DistinctIndices(MergeAll(Some(b), c, aggregate).value)
  {
    if c != [] {
      var n := |c| - 1;
      MergeRegroups(o, b, c[..n], aggregate);
      MergeInsideOrAfter(o, MergeAll(Some(b), c[..n], aggregate).value, c[n], aggregate);
      MergeKeepsDistinct(MergeAll(Some(b), c[..n], aggregate).value, c[n], aggregate);
    }
  }

  /** The completion with index `k`, if there is one. */
  function First(outs: seq<Completion>, k: int): Option<Completion> {
    if Has(outs, k) then Some(outs[Place(outs, k)]) else None
  }

  lemma {:induction false} FirstOfAppend(outs: seq<Completion>, y: Completion, k: int)
    ensures First(outs + [y], k) ==
            if Has(outs, k) then First(outs, k) else if y.index == k then Some(y) else None
  {
    PlaceIs(outs + [y], k, if Has(outs, k) || y.index == k then Place(outs, k) else |outs| + 1);
  }

  lemma {:induction false} FirstOfMerge(outs: seq<Completion>, y: Completion, k: int, aggregate: bool)
    requires MergeOne(outs, y, aggregate).Some?
    ensures First(MergeOne(outs, y, aggregate).value, k) ==
            if k != y.index then First(outs, k)
            else if !Has(outs, k) then Some(y)
            else Combine(First(outs, k).value, y, aggregate)
  {
    var r := MergeOne(outs, y, aggregate).value;
    MergeOneShape(outs, y, aggregate);
    if k != y.index && !Has(outs, k) {
      PlaceIs(r, k, |r|);
    }
  }

  /** No delta with logprobs lands on a first completion that has none at all. */
  predicate LogprobsHaveAPlace(b: seq<Completion>, c: seq<Completion>) {
    forall j | 0 <= j < |c| && HasLogprobs(c[j]) ::
      var first := First(b + c[..j], c[j].index); first.Some? ==> first.value.logprobs.Some?
  }

  /** Whether a completion has a logprobs list is settled by the first of its index. */
  lemma {:induction false} FirstSettles(b: seq<Completion>, c: seq<Completion>, k: int)
    requires MergeAll(Some(b), c, true).Some?
    ensures var merged, first := First(MergeAll(Some(b), c, true).value, k), First(b + c, k);
            (merged.Some? <==> first.Some?) &&
            (merged.Some? ==> (merged.value.logprobs.Some? <==> first.value.logprobs.Some?))
  {
    if c == [] {
      assert b + c == b;
    } else {
      var n := |c| - 1;
      FirstSettles(b, c[..n], k);
      FirstOfMerge(MergeAll(Some(b), c[..n], true).value, c[n], k, true);
      assert b + c == (b + c[..n]) + [c[n]];
      FirstOfAppend(b + c[..n], c[n], k);
    }
  }

  lemma {:induction false} MergeSucceedsIff(b: seq<Completion>, c: seq<Completion>)
    ensures MergeAll(Some(b), c, true).Some? <==> LogprobsHaveAPlace(b, c)
  {
    if c != [] {
      var n := |c| - 1;
      MergeSucceedsIff(b, c[..n]);
      assert forall j | 0 <= j < n :: c[..n][..j] == c[..j];
      if MergeAll(Some(b), c[..n], true).Some? {
        FirstSettles(b, c[..n], c[n].index);
      }
    }
  }

  /**
    Grouping does not matter: add(a, add(b, c)) succeeds exactly when add(add(a, b), c) does and b
    can take the logprobs of c, and then both give the same output.
  */
  predicate Associates(a: Request, b: Request, c: Request, aggregate: bool) {
    var bc, ab := Add(b, c, aggregate), Add(a, b, aggregate);
    var right := if bc.Some? then Add(a, bc.value, aggregate) else None;
    var left := if ab.Some? then Add(ab.value, c, aggregate) else None;
    && (right.Some? <==> left.Some? && (aggregate ==> LogprobsHaveAPlace(b.outputs, c.outputs)))
    && (right.Some? ==> right == left)
  }

  lemma {:induction false} AddAssociates(a: Request, b: Request, c: Request, aggregate: bool)
    requires DistinctIndices(b.outputs)
    ensures Associates(a, b, c, aggregate)
  {
    var bc := MergeAll(Some(b.outputs), c.outputs, aggregate);
    if aggregate {
      MergeSucceedsIff(b.outputs, c.outputs);
    } else {
      ReplaceSucceeds(b.outputs, c.outputs);
    }
    if bc.Some? {
      MergeRegroups(Some(a.outputs), b.outputs, c.outputs, aggregate);
    }
    if MergeAll(Some(a.outputs), b.outputs, aggregate) == None {
      NoneStays(c.outputs, aggregate);
    }
  }

  lemma {:induction false} ReplaceSucceeds(b: seq<Completion>, c: seq<Completion>)
    ensures MergeAll(Some(b), c, false).Some?
  {
    if c != [] {
      ReplaceSucceeds(b, c[..|c| - 1]);
    }
  }

  lemma {:induction false} NoneStays(c: seq<Completion>, aggregate: bool)
    ensures MergeAll(None, c, aggregate) == None
  {
    if c != [] {
      NoneStays(c[..|c| - 1], aggregate);
    }
  }

  // ----- What a run of merges adds up to -----

  /** The deltas for index `k`, in order, starting with what was there. */
  function Deltas(a: seq<Completion>, ys: seq<Completion>, k: int): seq<Completion> {
    if ys == [] then (if Has(a, k) then [First(a, k).value] else [])
    else
      var n := |ys| - 1;
      Deltas(a, ys[..n], k) + if ys[n].index == k then [ys[n]] else []
  }

  function Texts(cs: seq<Completion>): string {
    if cs == [] then "" else Texts(cs[..|cs| - 1]) + cs[|cs| - 1].text
  }

  function Tokens(cs: seq<Completion>): seq<int> {
    if cs == [] then [] else Tokens(cs[..|cs| - 1]) + cs[|cs| - 1].tokenIds
  }

  function AllLogprobs(cs: seq<Completion>): seq<Logprobs.Dict> {
    if cs == [] then []
    else AllLogprobs(cs[..|cs| - 1]) + if cs[|cs| - 1].logprobs.Some? then cs[|cs| - 1].logprobs.value else []
  }

  /** What `k`'s deltas should amount to when aggregated. */
  ghost predicate IsConcatenation(c: Completion, ds: seq<Completion>) {
    && ds != []
    && c.index == ds[0].index
    && c.text == Texts(ds) && c.tokenIds == Tokens(ds)
    && c.logprobs == (if ds[0].logprobs.None? then None else Some(AllLogprobs(ds)))
    && var last := ds[|ds| - 1];
       c.cumulativeLogprob == last.cumulativeLogprob
       && c.finishReason == last.finishReason && c.stopReason == last.stopReason
  }

  lemma {:induction false} JoinExtends(c: Completion, ds: seq<Completion>, y: Completion)
    requires IsConcatenation(c, ds) && Join(c, y).Some?
    ensures IsConcatenation(Join(c, y).value, ds + [y])
  {
    assert (ds + [y])[..|ds|] == ds;
    assert AllLogprobs(ds) + [] == AllLogprobs(ds);
  }

  lemma {:induction false} OneDelta(y: Completion)
    ensures IsConcatenation(y, [y])
  {
    assert [y][..0] == [];
    if y.logprobs.Some? {
      assert [] + y.logprobs.value == y.logprobs.value;
    }
  }

  /** Aggregating concatenates: text, tokens and logprobs of each index are those of its deltas in order. */
  lemma {:induction false} AggregateConcatenates(a: seq<Completion>, ys: seq<Completion>, k: int)
    requires MergeAll(Some(a), ys, true).Some?
    ensures var c, ds := First(MergeAll(Some(a), ys, true).value, k), Deltas(a, ys, k);
            if ds == [] then c == None else c.Some? && IsConcatenation(c.value, ds)
  {
    if ys == [] {
      if Has(a, k) {
        OneDelta(First(a, k).value);
      }
    } else {
      var n := |ys| - 1;
      var prev := MergeAll(Some(a), ys[..n], true).value;
      AggregateConcatenates(a, ys[..n], k);
      FirstOfMerge(prev, ys[n], k, true);
      assert Deltas(a, ys[..n], k) + [] == Deltas(a, ys[..n], k);
      if ys[n].index == k {
        if Has(prev, k) {
          JoinExtends(First(prev, k).value, Deltas(a, ys[..n], k), ys[n]);
        } else {
          OneDelta(ys[n]);
        }
      }
    }
  }

  /** Without aggregation the latest output of each index is kept as it came. */
  lemma {:induction false} ReplaceKeepsLatest(a: seq<Completion>, ys: seq<Completion>, k: int)
    ensures MergeAll(Some(a), ys, false).Some?
    ensures var c, ds := First(MergeAll(Some(a), ys, false).value, k), Deltas(a, ys, k);
            c == if ds == [] then None else Some(ds[|ds| - 1])
  {
    ReplaceSucceeds(a, ys);
    if ys != [] {
      var n := |ys| - 1;
      ReplaceKeepsLatest(a, ys[..n], k);
      FirstOfMerge(MergeAll(Some(a), ys[..n], false).value, ys[n], k, false);
    }
  }

  function Indices(cs: seq<Completion>): (ks: seq<int>)
    ensures |ks| == |cs| && forall i | 0 <= i < |cs| :: ks[i] == cs[i].index
  {
    seq(|cs|, i requires 0 <= i < |cs| => cs[i].index)
  }

  /** `seen` followed by the new indices of `ys`, each where it first appears. */
  function InOrderOfAppearance(seen: seq<int>, ys: seq<Completion>): seq<int> {
    if ys == [] then seen
    else
      var n := |ys| - 1;
      var ks := InOrderOfAppearance(seen, ys[..n]);
      if ys[n].index in ks then ks else ks + [ys[n].index]
  }

  lemma {:induction false} IndicesInOrder(a: seq<Completion>, ys: seq<Completion>, aggregate: bool)
    requires MergeAll(Some(a), ys, aggregate).Some?
    ensures Indices(MergeAll(Some(a), ys, aggregate).value) == InOrderOfAppearance(Indices(a), ys)
    ensures DistinctIndices(a) ==> DistinctIndices(MergeAll(Some(a), ys, aggregate).value)
  {
    if ys != [] {
      var n := |ys| - 1;
      var prev := MergeAll(Some(a), ys[..n], aggregate).value;
      IndicesInOrder(a, ys[..n], aggregate);
      MergeOneShape(prev, ys[n], aggregate);
      var j := Place(prev, ys[n].index);
      assert j < |prev| ==> Indices(prev)[j] == ys[n].index;
      assert j == |prev| ==> ys[n].index !in Indices(prev);
    }
  }

  // ----- Repeated indices -----

  /** A completion that says nothing but has a place for logprobs. */
  function Blank(k: int): Completion {
    Completion(k, "", [], None, Some([]), None, None)
  }

  function Blanks(b: seq<Completion>): (a: seq<Completion>)
    ensures |a| == |b| && forall i | 0 <= i < |b| :: a[i] == Blank(b[i].index)
  {
    seq(|b|, i requires 0 <= i < |b| => Blank(b[i].index))
  }

  lemma {:induction false} BlanksTakeAll(b: seq<Completion>, aggregate: bool)
    ensures MergeAll(Some(Blanks(b)), b, aggregate).Some?
  {
    if aggregate {
      var a := Blanks(b);
      forall j | 0 <= j < |b| ensures First(a + b[..j], b[j].index) == Some(Blank(b[j].index)) {
        assert a[j].index == b[j].index;
        PlaceIs(a + b[..j], b[j].index, Place(a, b[j].index));
      }
      MergeSucceedsIff(a, b);
    } else {
      ReplaceSucceeds(Blanks(b), b);
    }
  }

  /** A delta overtakes the last completion of its index, but not if it was merged into an earlier one. */
  lemma {:induction false} DeltaOvertakes(a: seq<Completion>, b: seq<Completion>, i: nat, last: nat, y: Completion,
                                          aggregate: bool)
    requires i < last < |b| && b[i].index == b[last].index == y.index
    requires forall m | last < m < |b| :: b[m].index != y.index
    requires y.logprobs == None && y.cumulativeLogprob != b[last].cumulativeLogprob
    requires MergeAll(Some(a), b, aggregate).Some?
    ensures MergeOne(b, y, aggregate).Some? && Step(MergeAll(Some(a), b, aggregate), y, aggregate).Some?
    ensures MergeAll(Some(a), MergeOne(b, y, aggregate).value, aggregate)
            != Step(MergeAll(Some(a), b, aggregate), y, aggregate)
  {
    MergeOneShape(b, y, aggregate);
    var r := MergeOne(b, y, aggregate).value;
    FirstOfMerge(MergeAll(Some(a), b, aggregate).value, y, y.index, aggregate);
    if MergeAll(Some(a), r, aggregate).Some? {
      LatestCumulative(a, r, y.index, last, aggregate);
    }
  }

  /**
    The distinct indices that `AddAssociates` asks for are needed: whenever b lists an index twice,
    some outputs before and after it make the two groupings differ, in both modes.
  */
  lemma {:induction false} RepeatedIndexBreaks(b: seq<Completion>, i: nat, j: nat, aggregate: bool)
    returns (a: seq<Completion>, y: Completion)
    requires i < j < |b| && b[i].index == b[j].index
    ensures MergeOne(b, y, aggregate).Some? && Step(MergeAll(Some(a), b, aggregate), y, aggregate).Some?
    ensures MergeAll(Some(a), MergeOne(b, y, aggregate).value, aggregate)
            != Step(MergeAll(Some(a), b, aggregate), y, aggregate)
  {
    var last := LastPlace(b, b[i].index, j);
    var other := if b[last].cumulativeLogprob == Some(0.0) then Some(1.0) else Some(0.0);
    a, y := Blanks(b), Completion(b[i].index, "", [], other, None, None, None);
    BlanksTakeAll(b, aggregate);
    DeltaOvertakes(a, b, i, last, y, aggregate);
  }

  /** The law holds for every output before and after b if and only if b lists no index twice. */
  lemma {:induction false} AssociatesIff(b: Request, aggregate: bool)
    ensures (forall a, c :: Associates(a, b, c, aggregate)) <==> DistinctIndices(b.outputs)
  {
    if DistinctIndices(b.outputs) {
      forall a, c ensures Associates(a, b, c, aggregate) {
        AddAssociates(a, b, c, aggregate);
      }
    } else {
      var i, j :| 0 <= i < j < |b.outputs| && b.outputs[i].index == b.outputs[j].index;
      var a, y := RepeatedIndexBreaks(b.outputs, i, j, aggregate);
      Disagree(a, b, y, aggregate);
    }
  }

  lemma {:induction false} Disagree(a: seq<Completion>, b: Request, y: Completion, aggregate: bool)
    requires MergeOne(b.outputs, y, aggregate).Some?
    requires Step(MergeAll(Some(a), b.outputs, aggregate), y, aggregate).Some?
    requires MergeAll(Some(a), MergeOne(b.outputs, y, aggregate).value, aggregate)
             != Step(MergeAll(Some(a), b.outputs, aggregate), y, aggregate)
    ensures !Associates(Request(a, false, None), b, Request([y], false, None), aggregate)
  {
    MergeSingle(Some(b.outputs), y, aggregate);
    MergeSingle(MergeAll(Some(a), b.outputs, aggregate), y, aggregate);
    if aggregate {
      MergeSucceedsIff(b.outputs, [y]);
    }
  }

  lemma {:induction false} LastPlace(b: seq<Completion>, k: int, j: nat) returns (last: nat)
    requires j < |b| && b[j].index == k
    ensures j <= last < |b| && b[last].index == k && forall m | last < m < |b| :: b[m].index != k
    decreases |b| - j
  {
    last := j;
    if m :| j < m < |b| && b[m].index == k {
      last := LastPlace(b, k, m);
    }
  }

  lemma {:induction false} LatestCumulative(a: seq<Completion>, ys: seq<Completion>, k: int, last: nat, aggregate: bool)
    requires MergeAll(Some(a), ys, aggregate).Some?
    requires last < |ys| && ys[last].index == k && forall m | last < m < |ys| :: ys[m].index != k
    ensures var c := First(MergeAll(Some(a), ys, aggregate).value, k);
            c.Some? && c.value.cumulativeLogprob == ys[last].cumulativeLogprob
    decreases |ys|
  {
    var n := |ys| - 1;
    FirstOfMerge(MergeAll(Some(a), ys[..n], aggregate).value, ys[n], k, aggregate);
    if last < n {
      LatestCumulative(a, ys[..n], k, last, aggregate);
    }
  }
}
