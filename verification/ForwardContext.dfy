/**
  Data-parallel chunk sizing and scoped context of vllm/forward_context.py.
*/
module ForwardContext {
  import opened Options
  import opened Arithmetic

  // ----- Token counts per sequence-parallel rank -----

  /** Ceiling division, then each entry repeated `sp` times. */
  function SpTokens(tokens: seq<nat>, sp: nat): (r: seq<nat>)
    requires sp > 0
    ensures |r| == |tokens| * sp
  {
    if tokens == [] then []
    else
      var n := |tokens| - 1;
      assert n * sp + sp == |tokens| * sp;
      SpTokens(tokens[..n], sp) + seq(sp, _ => CeilDiv(tokens[n], sp))
  }

  /** Rank `j` of group `i` has the group's tokens divided by the group size, rounded up. */
  lemma {:induction false} SpTokensAt(tokens: seq<nat>, sp: nat, i: nat, j: nat)
    requires sp > 0 && i < |tokens| && j < sp
    ensures i * sp + j < |SpTokens(tokens, sp)| && SpTokens(tokens, sp)[i * sp + j] == CeilDiv(tokens[i], sp)
  {
    var n := |tokens| - 1;
    MulLess(i, |tokens|, sp);
    if i < n {
      MulLess(i, n, sp);
      SpTokensAt(tokens[..n], sp, i, j);
    }
  }

  function Sum(s: seq<nat>): nat {
    if s == [] then 0 else Sum(s[..|s| - 1]) + s[|s| - 1]
  }

  // ----- Chunks -----

  function ChunkSize(n: nat, maxTokens: nat, idx: nat): int {
    var size := if maxTokens < n - maxTokens * idx then maxTokens else n - maxTokens * idx;
    if size <= 0 then 1 else size
  }

  method ComputeChunkedLocalNumTokens(tokens: seq<nat>, sp: nat, maxTokens: nat, idx: nat) returns (sizes: seq<int>)
    requires sp > 0 && maxTokens > 0
    ensures |sizes| == |tokens| * sp
    ensures forall i | 0 <= i < |sizes| :: sizes[i] == ChunkSize(SpTokens(tokens, sp)[i], maxTokens, idx)
    ensures forall i | 0 <= i < |sizes| :: 1 <= sizes[i] <= maxTokens
  {
    var spTokens := SpTokens(tokens, sp);
    var local := new int[|spTokens|](_ => -1);
    for i := 0 to |spTokens|
      invariant forall j | 0 <= j < i :: local[j] == ChunkSize(spTokens[j], maxTokens, idx)
      invariant forall j | 0 <= j < i :: 1 <= local[j] <= maxTokens
    {
      var rest := spTokens[i] - maxTokens * idx;
      local[i] := if rest < maxTokens then rest else maxTokens;
      if local[i] <= 0 {
        local[i] := 1;
      }
    }
    sizes := local[..];
  }

  /** Tokens a rank has been given after `k` chunks. */
  function Given(n: nat, maxTokens: nat, k: nat): int {
    if k == 0 then 0 else Given(n, maxTokens, k - 1) + ChunkSize(n, maxTokens, k - 1)
  }

  lemma {:induction false} TimesMonotone(a: nat, b: nat, c: nat)
    requires a <= b
    ensures c * a <= c * b && c * b == b * c
    decreases b
  {
    if a < b {
      TimesMonotone(a, b - 1, c);
      assert c * b == c * (b - 1) + c;
    }
  }

  lemma {:induction false} RealChunkStarts(n: nat, maxTokens: nat, k: nat)
    requires maxTokens > 0 && 0 < k <= CeilDiv(n, maxTokens)
    ensures maxTokens * (k - 1) < n && maxTokens * k == maxTokens * (k - 1) + maxTokens
  {
    var c := CeilDiv(n, maxTokens);
    CeilDivBounds(n, maxTokens);
    TimesMonotone(k - 1, c - 1, maxTokens);
    assert (c - 1) * maxTokens == c * maxTokens - maxTokens;
  }

  lemma {:induction false} GivenWhileReal(n: nat, maxTokens: nat, k: nat)
    requires maxTokens > 0 && k <= CeilDiv(n, maxTokens)
    ensures Given(n, maxTokens, k) == if maxTokens * k < n then maxTokens * k else n
  {
    if k > 0 {
      GivenWhileReal(n, maxTokens, k - 1);
      RealChunkStarts(n, maxTokens, k);
    }
  }

  /**
    Lockstep: over any number of rounds that covers the rank, it is given its own tokens exactly
    once and one dummy token in every round after its last real chunk.
  */
  lemma {:induction false} ChunksConserve(n: nat, maxTokens: nat, rounds: nat)
    requires maxTokens > 0 && rounds >= CeilDiv(n, maxTokens)
    ensures Given(n, maxTokens, rounds) == n + (rounds - CeilDiv(n, maxTokens))
    ensures rounds > CeilDiv(n, maxTokens) ==> ChunkSize(n, maxTokens, rounds - 1) == 1
    decreases rounds
  {
    var real_ := CeilDiv(n, maxTokens);
    CeilDivBounds(n, maxTokens);
    if rounds == real_ {
      GivenWhileReal(n, maxTokens, real_);
      assert maxTokens * real_ == real_ * maxTokens;
    } else {
      ChunksConserve(n, maxTokens, rounds - 1);
      assert maxTokens * (rounds - 1) >= maxTokens * real_ == real_ * maxTokens;
    }
  }

  // ----- Cumulative token counts -----

  method CuTokensAcrossSp(tokens: seq<nat>, sp: nat) returns (cu: seq<nat>)
    requires sp > 0
    ensures |cu| == |tokens| * sp
    ensures forall i | 0 <= i < |cu| :: cu[i] == Sum(SpTokens(tokens, sp)[..i + 1])
  {
    var spTokens := SpTokens(tokens, sp);
    cu := [];
    var total := 0;
    for i := 0 to |spTokens|
      invariant |cu| == i && total == Sum(spTokens[..i])
      invariant forall j | 0 <= j < i :: cu[j] == Sum(spTokens[..j + 1])
    {
      assert spTokens[..i + 1][..i] == spTokens[..i];
      total := total + spTokens[i];
      cu := cu + [total];
    }
  }

  lemma {:induction false} SumRepeated(s: seq<nat>, k: nat, v: nat)
    ensures Sum(s + seq(k, _ => v)) == Sum(s) + Times(k, v)
  {
    var all := s + seq(k, _ => v);
    if k == 0 {
      assert all == s;
    } else {
      assert all[..|all| - 1] == s + seq(k - 1, _ => v);
      SumRepeated(s, k - 1, v);
      TimesStep(k - 1, v);
    }
  }

  /** The SP ranks together have room for all tokens, and for less than `sp` more per DP rank. */
  lemma {:induction false} SpSharesCoverTokens(tokens: seq<nat>, sp: nat)
    requires sp > 0
    ensures Sum(tokens) <= Sum(SpTokens(tokens, sp)) <= Sum(tokens) + Times(|tokens|, sp - 1)
  {
    if tokens != [] {
      var n := |tokens| - 1;
      SpSharesCoverTokens(tokens[..n], sp);
      SumRepeated(SpTokens(tokens[..n], sp), sp, CeilDiv(tokens[n], sp));
      ShareBounds(tokens[n], sp);
      TimesStep(n, sp - 1);
    }
  }

  function Times(a: nat, b: nat): nat {
    a * b
  }

  lemma {:induction false} TimesStep(a: nat, b: nat)
    ensures Times(a + 1, b) == Times(a, b) + b
  {
  }

  lemma {:induction false} ShareBounds(n: nat, sp: nat)
    requires sp > 0
    ensures n <= Times(sp, CeilDiv(n, sp)) <= n + sp - 1
  {
    CeilDivBounds(n, sp);
  }

  // ----- Scoped context -----

  type Context = int
  /** Code that runs inside `with` blocks, may read the two scoped values, and may raise. */
  datatype Prog =
    | Pass
    | Raise
    | Read
    | Then(first: Prog, second: Prog)
    | OverrideForwardContext(context: Option<Context>, body: Prog)
    | ChunkedSizes(sizes: seq<int>, body: Prog)

  datatype Scope = Scope(context: Option<Context>, localSizes: Option<seq<int>>)

  /** `seen` lists what each Read saw. */
  datatype Effect = Effect(after: Scope, raised: bool, seen: seq<Scope>)

  function Exec(p: Prog, s: Scope): Effect {
    match p
    case Pass => Effect(s, false, [])
    case Raise => Effect(s, true, [])
    case Read => Effect(s, false, [s])
    case Then(a, b) =>
      var r := Exec(a, s);
      if r.raised then r
      else var q := Exec(b, r.after); q.(seen := r.seen + q.seen)
    case OverrideForwardContext(c, body) =>
      var r := Exec(body, s.(context := c));
      r.(after := r.after.(context := s.context))
    case ChunkedSizes(sizes, body) =>
      var r := Exec(body, s.(localSizes := Some(sizes)));
      r.(after := r.after.(localSizes := None))
  }

  /** A ChunkedSizes block is entered when `p` runs. */
  predicate EntersChunked(p: Prog, s: Scope) {
    match p
    case Then(a, b) => EntersChunked(a, s) || (!Exec(a, s).raised && EntersChunked(b, Exec(a, s).after))
    case OverrideForwardContext(c, body) => EntersChunked(body, s.(context := c))
    case ChunkedSizes(_, _) => true
    case _ => false
  }

  /** Whatever is nested, and however it ends, the context is put back; the chunk sizes are not. */
  lemma {:induction false} ScopeAfter(p: Prog, s: Scope)
    ensures Exec(p, s).after.context == s.context
    ensures Exec(p, s).after.localSizes == if EntersChunked(p, s) then None else s.localSizes
  {
    match p
    case Then(a, b) =>
      ScopeAfter(a, s);
      ScopeAfter(b, Exec(a, s).after);
    case OverrideForwardContext(c, body) =>
      ScopeAfter(body, s.(context := c));
    case ChunkedSizes(sizes, body) =>
      ScopeAfter(body, s.(localSizes := Some(sizes)));
    case _ =>
  }

  /** Inside a block the sizes can still be read after `p` exactly when `p` opened no block of its own. */
  lemma {:induction false} SizesVisibleInBlock(sizes: seq<int>, p: Prog, s: Scope)
    requires !Exec(p, s.(localSizes := Some(sizes))).raised
    ensures var seen := Exec(ChunkedSizes(sizes, Then(p, Read)), s).seen;
            seen != [] &&
            (seen[|seen| - 1].localSizes == Some(sizes) <==> !EntersChunked(p, s.(localSizes := Some(sizes))))
  {
    var inner := s.(localSizes := Some(sizes));
    ScopeAfter(p, inner);
    assert Exec(Then(p, Read), inner).seen == Exec(p, inner).seen + [Exec(p, inner).after];
  }

  // ----- What is visible where, from the text alone -----

  /** The context that belongs to each Read: that of the innermost override around it. */
  function ContextsInText(p: Prog, context: Option<Context>): seq<Option<Context>> {
    match p
    case Read => [context]
    case Then(a, b) => ContextsInText(a, context) + ContextsInText(b, context)
    case OverrideForwardContext(c, body) => ContextsInText(body, c)
    case ChunkedSizes(_, body) => ContextsInText(body, context)
    case _ => []
  }

  predicate HasRaise(p: Prog) {
    match p
    case Raise => true
    case Then(a, b) => HasRaise(a) || HasRaise(b)
    case OverrideForwardContext(_, body) => HasRaise(body)
    case ChunkedSizes(_, body) => HasRaise(body)
    case _ => false
  }

  function Contexts(seen: seq<Scope>): (cs: seq<Option<Context>>)
    ensures |cs| == |seen| && forall i | 0 <= i < |seen| :: cs[i] == seen[i].context
  {
    seq(|seen|, i requires 0 <= i < |seen| => seen[i].context)
  }

  /**
    Whatever is nested, every Read sees the context of the innermost override around it, up to the first exception;
    no block swallows one.
  */
  lemma {:induction false} ReadsInnermost(p: Prog, s: Scope)
    ensures Contexts(Exec(p, s).seen) <= ContextsInText(p, s.context)
    ensures Exec(p, s).raised <==> HasRaise(p)
    ensures !HasRaise(p) ==> Contexts(Exec(p, s).seen) == ContextsInText(p, s.context)
  {
    match p
    case Then(a, b) =>
      var r := Exec(a, s);
      ReadsInnermost(a, s);
      ScopeAfter(a, s);
      if !r.raised {
        var q := Exec(b, r.after);
        ReadsInnermost(b, r.after);
        assert Contexts(r.seen + q.seen) == Contexts(r.seen) + Contexts(q.seen);
      }
    case OverrideForwardContext(c, body) => ReadsInnermost(body, s.(context := c));
    case ChunkedSizes(sizes, body) => ReadsInnermost(body, s.(localSizes := Some(sizes)));
    case _ =>
  }

  predicate HasBlock(p: Prog) {
    match p
    case Then(a, b) => HasBlock(a) || HasBlock(b)
    case OverrideForwardContext(_, body) => HasBlock(body)
    case ChunkedSizes(_, _) => true
    case _ => false
  }

  /** The sizes that belong to each Read: those of the block around it until another block has been left in it. */
  function SizesInText(p: Prog, sizes: Option<seq<int>>): seq<Option<seq<int>>> {
    match p
    case Read => [sizes]
    case Then(a, b) => SizesInText(a, sizes) + SizesInText(b, if HasBlock(a) then None else sizes)
    case OverrideForwardContext(_, body) => SizesInText(body, sizes)
    case ChunkedSizes(inner, body) => SizesInText(body, Some(inner))
    case _ => []
  }

  function LocalSizes(seen: seq<Scope>): (ls: seq<Option<seq<int>>>)
    ensures |ls| == |seen| && forall i | 0 <= i < |seen| :: ls[i] == seen[i].localSizes
  {
    seq(|seen|, i requires 0 <= i < |seen| => seen[i].localSizes)
  }

  lemma {:induction false} EntersIffHasBlock(p: Prog, s: Scope)
    requires !Exec(p, s).raised
    ensures EntersChunked(p, s) <==> HasBlock(p)
  {
    match p
    case Then(a, b) =>
      EntersIffHasBlock(a, s);
      EntersIffHasBlock(b, Exec(a, s).after);
    case OverrideForwardContext(c, body) => EntersIffHasBlock(body, s.(context := c));
    case _ =>
  }

  /** Every Read sees these sizes, up to the first exception. */
  lemma {:induction false} ReadsSizes(p: Prog, s: Scope)
    ensures LocalSizes(Exec(p, s).seen) <= SizesInText(p, s.localSizes)
    ensures !HasRaise(p) ==> LocalSizes(Exec(p, s).seen) == SizesInText(p, s.localSizes)
  {
    match p
    case Then(a, b) =>
      var r := Exec(a, s);
      ReadsSizes(a, s);
      ReadsInnermost(a, s);
      if !r.raised {
        var q := Exec(b, r.after);
        ScopeAfter(a, s);
        EntersIffHasBlock(a, s);
        ReadsSizes(b, r.after);
        assert LocalSizes(r.seen + q.seen) == LocalSizes(r.seen) + LocalSizes(q.seen);
      }
    case OverrideForwardContext(c, body) => ReadsSizes(body, s.(context := c));
    case ChunkedSizes(sizes, body) => ReadsSizes(body, s.(localSizes := Some(sizes)));
    case _ =>
  }
}
