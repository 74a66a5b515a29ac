/**
  The backward pass of vllm/env_override.py that gives each graph partition its
  signature: which buffers it takes in, which it hands back, and which of its
  inputs it frees.  Buffers are names; a partition is a list of scheduler nodes.

  The main result is `PartitionsRun`: called in order, every partition finds all
  it reads and writes, and every allocated graph output exists at the end.
*/
module GraphPartition {

  type Name = string

  datatype Buffer = Buffer(noneLayout: bool, mutationOutput: bool)

  /** One scheduler node: `accesses` are the names in its reads and writes. */
  datatype Node = Node(outputs: set<Name>, accesses: set<Name>, lastUsage: set<Name>)

  type Partition = seq<Node>

  /** `defined` are the keys of name_to_node: graph inputs and node outputs. */
  datatype Graph = Graph(
    outputs: set<Name>,
    defined: set<Name>,
    buffers: map<Name, Buffer>,
    realName: map<Name, Name>,
    constants: set<Name>)

  datatype Signature = Signature(
    inputNodes: set<Name>,
    outputNodes: set<Name>,
    inputDeallocation: map<Name, bool>,
    skipCudagraph: bool,
    constantNames: set<Name>)

  datatype Result<T> = Ok(value: T) | KeyError

  // ----- Names -----

  function Real(g: Graph, n: Name): Name {
    if n in g.realName then g.realName[n] else n
  }

  ghost predicate Ranks(g: Graph, rank: map<Name, nat>) {
    forall n <- g.realName ::
      n in rank && (g.realName[n] in rank ==> rank[g.realName[n]] < rank[n])
  }

  /** No chain of mutations leads back to its own start. */
  ghost predicate Acyclic(g: Graph) {
    exists rank :: Ranks(g, rank)
  }

  ghost function RankOf(g: Graph): (rank: map<Name, nat>)
    requires Acyclic(g)
    ensures Ranks(g, rank)
  {
    var rank :| Ranks(g, rank);
    rank
  }

  predicate IsNoneLayout(g: Graph, n: Name)
    requires Acyclic(g)
    decreases if n in RankOf(g) then RankOf(g)[n] + 1 else 0
  {
    n in g.buffers && g.buffers[n].noneLayout &&
    if g.buffers[n].mutationOutput && n in g.realName && g.realName[n] != ""
    then IsNoneLayout(g, g.realName[n])
    else true
  }

  /** `n` stands for the storage of another name: a mutation output without layout that is renamed. */
  predicate Passes(g: Graph, n: Name) {
    && n in g.buffers && g.buffers[n].noneLayout && g.buffers[n].mutationOutput
    && n in g.realName && g.realName[n] != ""
  }

  /** A chain of renamings through such names. */
  ghost predicate Chain(g: Graph, path: seq<Name>) {
    path != [] && forall i | 0 <= i < |path| - 1 :: Passes(g, path[i]) && path[i + 1] == g.realName[path[i]]
  }

  /** The chain from `n` stops at a buffer without layout. */
  ghost predicate EndsUnstored(g: Graph, n: Name, path: seq<Name>) {
    && Chain(g, path) && path[0] == n
    && var z := path[|path| - 1]; z in g.buffers && g.buffers[z].noneLayout && !Passes(g, z)
  }

  /** No storage anywhere along the renamings of `n`. */
  ghost predicate Unstored(g: Graph, n: Name) {
    exists path :: EndsUnstored(g, n, path)
  }

  lemma {:induction false} ChainTail(g: Graph, n: Name, path: seq<Name>)
    requires EndsUnstored(g, n, path) && Passes(g, n)
    ensures |path| > 1 && EndsUnstored(g, g.realName[n], path[1..])
  {
    var rest := path[1..];
    forall i | 0 <= i < |rest| - 1 ensures Passes(g, rest[i]) && rest[i + 1] == g.realName[rest[i]] {
      assert rest[i] == path[i + 1] && rest[i + 1] == path[i + 2];
    }
  }

  lemma {:induction false} ChainCons(g: Graph, n: Name, rest: seq<Name>)
    requires Passes(g, n) && EndsUnstored(g, g.realName[n], rest)
    ensures EndsUnstored(g, n, [n] + rest)
  {
    var path := [n] + rest;
    forall i | 0 <= i < |path| - 1 ensures Passes(g, path[i]) && path[i + 1] == g.realName[path[i]] {
      if i > 0 {
        assert path[i] == rest[i - 1] && path[i + 1] == rest[i];
      }
    }
  }

  /** is_none_layout follows the renamings to their end. */
  lemma {:induction false} NoneLayoutIff(g: Graph, n: Name)
    requires Acyclic(g)
    ensures IsNoneLayout(g, n) <==> Unstored(g, n)
    decreases if n in RankOf(g) then RankOf(g)[n] + 1 else 0
  {
    if Passes(g, n) {
      NoneLayoutIff(g, g.realName[n]);
      if Unstored(g, n) {
        var path :| EndsUnstored(g, n, path);
        ChainTail(g, n, path);
      }
      if Unstored(g, g.realName[n]) {
        var rest :| EndsUnstored(g, g.realName[n], rest);
        ChainCons(g, n, rest);
      }
    } else if n in g.buffers && g.buffers[n].noneLayout {
      assert EndsUnstored(g, n, [n]);
    }
  }

  lemma {:induction false} NoneLayouts(g: Graph)
    requires Acyclic(g)
    ensures forall n :: IsNoneLayout(g, n) <==> Unstored(g, n)
  {
    forall n ensures IsNoneLayout(g, n) <==> Unstored(g, n) {
      NoneLayoutIff(g, n);
    }
  }

  // ----- One partition -----

  function Produced(p: Partition): set<Name> {
    set node, x | node in p && x in node.outputs :: x
  }

  function Accessed(p: Partition): set<Name> {
    set node, x | node in p && x in node.accesses :: x
  }

  function Freed(p: Partition): set<Name> {
    set node, x | node in p && x in node.lastUsage :: x
  }

  /** Buffers made by earlier partitions whose last use is here. */
  function FreedInputs(g: Graph, p: Partition): set<Name> {
    set x | x in Freed(p) - Produced(p) && x in g.defined
  }

  function InputNames(g: Graph, p: Partition): set<Name>
    requires Acyclic(g)
  {
    (set n | n in Accessed(p) && !IsNoneLayout(g, n) && n !in Produced(p) :: Real(g, n)) +
    FreedInputs(g, p)
  }

  /** Inputs this partition frees, so the caller must delete them. */
  function Deallocated(g: Graph, p: Partition): set<Name>
    requires Acyclic(g)
  {
    InputNames(g, p) * g.defined * Freed(p)
  }

  function ReturnedNames(g: Graph, p: Partition, unmet: set<Name>): set<Name>
    requires Acyclic(g)
  {
    set x | x in Produced(p) * unmet + (InputNames(g, p) * g.defined - Freed(p)) :: Real(g, x)
  }

  /** What is still missing before `p`, given what is missing after it. */
  function UnmetBefore(g: Graph, p: Partition, unmet: set<Name>): set<Name>
    requires Acyclic(g)
  {
    InputNames(g, p) + (unmet - ReturnedNames(g, p, unmet))
  }

  function OutputNodes(g: Graph, p: Partition, unmet: set<Name>): set<Name>
    requires Acyclic(g)
  {
    set x | x in ReturnedNames(g, p, unmet) && !IsNoneLayout(g, x)
  }

  function SignatureOf(g: Graph, p: Partition, skip: bool, unmet: set<Name>): Signature
    requires Acyclic(g)
  {
    Signature(
      InputNames(g, p) * g.defined,
      OutputNodes(g, p, unmet),
      map x | x in InputNames(g, p) * g.defined :: x in Freed(p),
      skip,
      InputNames(g, p) * g.constants)
  }

  // ----- The whole pass, from the last partition to the first -----

  function Unmet(g: Graph, ps: seq<Partition>): set<Name>
    requires Acyclic(g)
  {
    if ps == [] then g.outputs else UnmetBefore(g, ps[0], Unmet(g, ps[1..]))
  }

  function Signatures(g: Graph, ps: seq<Partition>, skips: seq<bool>): (sigs: seq<Signature>)
    requires Acyclic(g) && |ps| == |skips|
    ensures |sigs| == |ps|
  {
    if ps == [] then []
    else [SignatureOf(g, ps[0], skips[0], Unmet(g, ps[1..]))] + Signatures(g, ps[1..], skips[1..])
  }

  /** Every name the pass looks up in name_to_node is there. */
  predicate LookupsSucceed(g: Graph, ps: seq<Partition>)
    requires Acyclic(g)
  {
    ps != [] ==>
      LookupsSucceed(g, ps[1..]) && OutputNodes(g, ps[0], Unmet(g, ps[1..])) <= g.defined
  }

  /** No signature hands back an unknown name. */
  ghost predicate AllKnown(g: Graph, signatures: seq<Signature>) {
    forall s <- signatures :: s.outputNodes <= g.defined
  }

  /** `zip(reversed(..), reversed(..))` pairs the two lists from their ends. */
  function LastN<T>(s: seq<T>, n: nat): (r: seq<T>)
    requires n <= |s|
    ensures |r| == n && s[..|s| - n] + r == s
  {
    s[|s| - n..]
  }

  function Shorter(a: nat, b: nat): (n: nat)
    ensures n <= a && n <= b && (n == a || n == b)
  {
    if a < b then a else b
  }

  method CollectNames(p: Partition) returns (produced: set<Name>, accessed: set<Name>, freed: set<Name>)
    ensures produced == Produced(p) && accessed == Accessed(p) && freed == Freed(p)
  {
    produced, accessed, freed := {}, {}, {};
    for i := 0 to |p|
      invariant produced == Produced(p[..i])
      invariant accessed == Accessed(p[..i])
      invariant freed == Freed(p[..i])
    {
      assert p[..i + 1] == p[..i] + [p[i]];
      produced := produced + p[i].outputs;
      accessed := accessed + p[i].accesses;
      freed := freed + p[i].lastUsage;
    }
    assert p[..|p|] == p;
  }

  /** One round of the loop: the signature, and what is unmet before the partition. */
  method PartitionSignature(g: Graph, p: Partition, skip: bool, unmet: set<Name>)
    returns (signature: Signature, before: set<Name>)
    requires Acyclic(g)
    ensures signature == SignatureOf(g, p, skip, unmet) && before == UnmetBefore(g, p, unmet)
  {
    var produced, accessed, freed := CollectNames(p);
    var inputs := (set x | x in accessed && !IsNoneLayout(g, x) && x !in produced :: Real(g, x));
    inputs := inputs + (set x | x in freed - produced && x in g.defined);
    var deallocation := map x | x in inputs * g.defined :: x in freed;
    var returned := set x | x in produced * unmet + (inputs * g.defined - freed) :: Real(g, x);
    var outputNodes := set x | x in returned && !IsNoneLayout(g, x);
    signature := Signature(inputs * g.defined, outputNodes, deallocation, skip, inputs * g.constants);
    before := inputs + (unmet - returned);
  }

  lemma {:induction false} SuffixStep(g: Graph, ps: seq<Partition>, skips: seq<bool>, k: nat)
    requires Acyclic(g) && k < |ps| == |skips|
    ensures var unmet := Unmet(g, ps[k + 1..]);
            && Unmet(g, ps[k..]) == UnmetBefore(g, ps[k], unmet)
            && Signatures(g, ps[k..], skips[k..])
               == [SignatureOf(g, ps[k], skips[k], unmet)] + Signatures(g, ps[k + 1..], skips[k + 1..])
            && (LookupsSucceed(g, ps[k..])
                <==> LookupsSucceed(g, ps[k + 1..]) && OutputNodes(g, ps[k], unmet) <= g.defined)
  {
    assert ps[k..][1..] == ps[k + 1..] && skips[k..][1..] == skips[k + 1..];
  }

  method GetGraphPartitionSignature(g: Graph, partitions: seq<Partition>, skips: seq<bool>)
    returns (r: Result<seq<Signature>>)
    requires Acyclic(g)
    ensures var n := Shorter(|partitions|, |skips|);
            var signatures := Signatures(g, LastN(partitions, n), LastN(skips, n));
            r == if AllKnown(g, signatures) then Ok(signatures) else KeyError
  {
    var n := Shorter(|partitions|, |skips|);
    ghost var ps, ss := LastN(partitions, n), LastN(skips, n);
    var signatures: seq<Signature> := [];
    var unmet := g.outputs;
    var k := n;
    while k > 0
      invariant 0 <= k <= n
      invariant LookupsSucceed(g, ps[k..])
      invariant unmet == Unmet(g, ps[k..])
      invariant signatures == Signatures(g, ps[k..], ss[k..])
    {
      k := k - 1;
      var p, skip := partitions[|partitions| - n + k], skips[|skips| - n + k];
      assert p == ps[k] && skip == ss[k];
      SuffixStep(g, ps, ss, k);
      var signature;
      signature, unmet := PartitionSignature(g, p, skip, unmet);
      if !(signature.outputNodes <= g.defined) {
        SuffixLookups(g, ps, k);
        LookupsIff(g, ps, ss);
        return KeyError;
      }
      signatures := [signature] + signatures;
    }
    assert ps[0..] == ps && ss[0..] == ss;
    LookupsIff(g, ps, ss);
    return Ok(signatures);
  }

  lemma {:induction false} SuffixLookups(g: Graph, ps: seq<Partition>, k: nat)
    requires Acyclic(g) && k <= |ps|
    ensures LookupsSucceed(g, ps) ==> LookupsSucceed(g, ps[k..])
    decreases k
  {
    if k > 0 {
      SuffixLookups(g, ps[1..], k - 1);
      assert ps[1..][k - 1..] == ps[k..];
    } else {
      assert ps[0..] == ps;
    }
  }

  /** A lookup fails exactly when some signature hands back an unknown name. */
  lemma {:induction false} LookupsIff(g: Graph, ps: seq<Partition>, skips: seq<bool>)
    requires Acyclic(g) && |ps| == |skips|
    ensures LookupsSucceed(g, ps) <==> AllKnown(g, Signatures(g, ps, skips))
  {
    if ps != [] {
      LookupsIff(g, ps[1..], skips[1..]);
      var sigs := Signatures(g, ps, skips);
      assert sigs[0] in sigs && sigs[1..] == Signatures(g, ps[1..], skips[1..]);
      assert forall s <- sigs :: s == sigs[0] || s in sigs[1..];
    }
  }

  // ----- The signatures as a liveness analysis -----

  ghost predicate Makes(p: Partition, x: Name) {
    exists node <- p :: x in node.outputs
  }

  ghost predicate UsesLast(p: Partition, x: Name) {
    exists node <- p :: x in node.lastUsage
  }

  /** `n` is read or written, has storage, and is not made on the spot. */
  ghost predicate ReadsFromOutside(g: Graph, p: Partition, n: Name) {
    !Unstored(g, n) && !Makes(p, n) && exists node <- p :: n in node.accesses
  }

  /** `x` comes from outside: some name for it is used here, or it is last used here. */
  ghost predicate TakesIn(g: Graph, p: Partition, x: Name) {
    || (exists n :: ReadsFromOutside(g, p, n) && x == if n in g.realName then g.realName[n] else n)
    || (x in g.defined && UsesLast(p, x) && !Makes(p, x))
  }

  lemma {:induction false} InputsIff(g: Graph, p: Partition, x: Name)
    requires Acyclic(g)
    ensures x in InputNames(g, p) <==> TakesIn(g, p, x)
  {
    NoneLayouts(g);
    if x in InputNames(g, p) && x !in FreedInputs(g, p) {
      var n :| n in Accessed(p) && !IsNoneLayout(g, n) && n !in Produced(p) && x == Real(g, n);
      assert ReadsFromOutside(g, p, n);
    }
    if n: Name :| ReadsFromOutside(g, p, n) && x == Real(g, n) {
      assert n in Accessed(p) && n !in Produced(p);
    }
  }

  /** `x` is needed at `k`: partition `k` takes it in or, past the last one, it is a graph output. */
  ghost predicate NeededAt(g: Graph, ps: seq<Partition>, x: Name, k: nat)
    requires k <= |ps|
  {
    if k < |ps| then TakesIn(g, ps[k], x) else x in g.outputs
  }

  /** `x` is live before `ps`: it is needed somewhere, and nothing makes it before. */
  ghost predicate Live(g: Graph, ps: seq<Partition>, x: Name) {
    exists k: nat :: k <= |ps| && NeededAt(g, ps, x, k) && forall j | 0 <= j < k :: !Makes(ps[j], x)
  }

  // ----- What Inductor guarantees about the graph -----

  /** Whatever a partition takes in has storage. */
  ghost predicate InputsHaveStorage(g: Graph, ps: seq<Partition>)
    requires Acyclic(g)
  {
    forall p <- ps, x <- InputNames(g, p) :: !Unstored(g, x)
  }

  /** A name that is allocated stands for a real buffer that is allocated. */
  ghost predicate RealNamesAllocated(g: Graph) {
    forall n <- g.realName :: !Unstored(g, n) ==> !Unstored(g, g.realName[n])
  }

  /** Graph outputs, real names and freed names are already real names. */
  ghost predicate NamesAreReal(g: Graph, ps: seq<Partition>) {
    && (forall o <- g.outputs :: Real(g, o) == o)
    && (forall n <- g.realName :: Real(g, g.realName[n]) == g.realName[n])
    && (forall p <- ps, x <- FreedInputs(g, p) :: Real(g, x) == x)
  }

  /** Buffers without storage are never freed. */
  ghost predicate FreesAllocated(g: Graph, ps: seq<Partition>) {
    forall p <- ps, x <- FreedInputs(g, p) :: !Unstored(g, x)
  }

  /** Freeing is the last use: no later partition needs the name, nor does the caller. */
  ghost predicate FreesAreFinal(g: Graph, ps: seq<Partition>)
    requires Acyclic(g)
  {
    && (forall p <- ps :: Deallocated(g, p) !! g.outputs)
    && (forall i, j | 0 <= i < j < |ps| :: Deallocated(g, ps[i]) !! InputNames(g, ps[j]))
  }

  ghost predicate OutputsDefined(g: Graph, ps: seq<Partition>) {
    forall p <- ps :: Produced(p) <= g.defined
  }

  ghost predicate Regular(g: Graph, ps: seq<Partition>) {
    && Acyclic(g)
    && NamesAreReal(g, ps)
    && FreesAllocated(g, ps)
    && FreesAreFinal(g, ps)
    && OutputsDefined(g, ps)
  }

  ghost predicate WellFormed(g: Graph, ps: seq<Partition>) {
    Regular(g, ps) && InputsHaveStorage(g, ps)
  }

  /** It is enough that renaming keeps storage. */
  lemma {:induction false} StorageFromRealNames(g: Graph, ps: seq<Partition>)
    requires Regular(g, ps) && RealNamesAllocated(g)
    ensures InputsHaveStorage(g, ps)
  {
    NoneLayouts(g);
  }

  /** Nothing is taken in before it is produced. */
  ghost predicate ProducedBeforeUse(g: Graph, ps: seq<Partition>)
    requires Acyclic(g)
  {
    forall i, j | 0 <= i <= j < |ps| :: InputNames(g, ps[i]) !! Produced(ps[j])
  }

  // ----- Running the partitions -----

  /** The caller's variables once `sig` has run: freed inputs deleted, outputs assigned. */
  function After(env: set<Name>, sig: Signature): set<Name> {
    env - (set x | x in sig.inputDeallocation && sig.inputDeallocation[x]) + sig.outputNodes
  }

  /** The call of `p` can be made, its body finds its buffers, and it can return. */
  ghost predicate CallSucceeds(g: Graph, p: Partition, sig: Signature, env: set<Name>) {
    && sig.inputNodes <= env
    && (forall node <- p, n <- node.accesses | !Unstored(g, n) ::
          || Makes(p, n)
          || (Real(g, n) in env && (Real(g, n) in g.defined ==> Real(g, n) in sig.inputNodes)))
    && (forall x <- sig.outputNodes :: Makes(p, x) || x in sig.inputNodes)
    && (forall x <- sig.inputNodes + sig.outputNodes :: !Unstored(g, x))
  }

  ghost predicate RunSucceeds(g: Graph, ps: seq<Partition>, sigs: seq<Signature>, env: set<Name>)
    requires |ps| == |sigs|
  {
    if ps == [] then forall o <- g.outputs | !Unstored(g, o) :: o in env
    else CallSucceeds(g, ps[0], sigs[0], env) && RunSucceeds(g, ps[1..], sigs[1..], After(env, sigs[0]))
  }

  // ----- Proofs -----

  lemma {:induction false} WellFormedTail(g: Graph, ps: seq<Partition>)
    requires WellFormed(g, ps) && ps != []
    ensures WellFormed(g, ps[1..])
  {
    assert forall p <- ps[1..] :: p in ps;
    forall i, j | 0 <= i < j < |ps[1..]|
      ensures Deallocated(g, ps[1..][i]) !! InputNames(g, ps[1..][j])
    {
      assert ps[1..][i] == ps[i + 1] && ps[1..][j] == ps[j + 1];
    }
  }

  /** A missing name is a graph output or some partition's input, and is a real name. */
  lemma {:induction false} UnmetOrigin(g: Graph, ps: seq<Partition>, x: Name)
    requires WellFormed(g, ps) && x in Unmet(g, ps)
    ensures x in g.outputs || exists i :: 0 <= i < |ps| && x in InputNames(g, ps[i])
    ensures Real(g, x) == x
  {
    if ps != [] {
      if x in InputNames(g, ps[0]) {
        assert ps[0] in ps;
      } else {
        WellFormedTail(g, ps);
        UnmetOrigin(g, ps[1..], x);
        if x !in g.outputs {
          var i :| 0 <= i < |ps[1..]| && x in InputNames(g, ps[1..][i]);
          assert x in InputNames(g, ps[i + 1]);
        }
      }
    }
  }

  lemma {:induction false} InputsAllocated(g: Graph, ps: seq<Partition>, p: Partition)
    requires WellFormed(g, ps) && p in ps
    ensures forall x <- InputNames(g, p) :: !Unstored(g, x) && Real(g, x) == x
  {
    NoneLayouts(g);
  }

  /** With real names throughout, a partition returns what it made and was asked for, and what it kept. */
  lemma {:induction false} ReturnedExactly(g: Graph, ps: seq<Partition>)
    requires WellFormed(g, ps) && ps != []
    ensures var unmet := Unmet(g, ps[1..]);
            ReturnedNames(g, ps[0], unmet)
            == Produced(ps[0]) * unmet + (InputNames(g, ps[0]) * g.defined - Freed(ps[0]))
  {
    var p, unmet := ps[0], Unmet(g, ps[1..]);
    WellFormedTail(g, ps);
    InputsAllocated(g, ps, p);
    var kept := Produced(p) * unmet + (InputNames(g, p) * g.defined - Freed(p));
    forall x | x in kept ensures Real(g, x) == x {
      if x in unmet {
        UnmetOrigin(g, ps[1..], x);
      }
    }
    assert forall y :: y in ReturnedNames(g, p, unmet) <==> y in kept;
  }

  lemma {:induction false} LiveHere(g: Graph, ps: seq<Partition>, x: Name)
    requires Acyclic(g) && ps != [] && TakesIn(g, ps[0], x)
    ensures Live(g, ps, x)
  {
    assert NeededAt(g, ps, x, 0);
  }

  lemma {:induction false} LiveLater(g: Graph, ps: seq<Partition>, x: Name)
    requires Acyclic(g) && ps != [] && !Makes(ps[0], x) && Live(g, ps[1..], x)
    ensures Live(g, ps, x)
  {
    var k: nat :| k <= |ps[1..]| && NeededAt(g, ps[1..], x, k) && forall j | 0 <= j < k :: !Makes(ps[1..][j], x);
    assert NeededAt(g, ps, x, k + 1);
    forall j | 0 <= j < k + 1 ensures !Makes(ps[j], x) {
      if j > 0 {
        assert ps[j] == ps[1..][j - 1];
      }
    }
  }

  lemma {:induction false} LiveStep(g: Graph, ps: seq<Partition>, x: Name)
    requires Acyclic(g) && ps != [] && Live(g, ps, x)
    ensures TakesIn(g, ps[0], x) || (!Makes(ps[0], x) && Live(g, ps[1..], x))
  {
    var k: nat :| k <= |ps| && NeededAt(g, ps, x, k) && forall j | 0 <= j < k :: !Makes(ps[j], x);
    if k > 0 {
      assert NeededAt(g, ps[1..], x, k - 1);
      forall j | 0 <= j < k - 1 ensures !Makes(ps[1..][j], x) {
        assert ps[1..][j] == ps[j + 1];
      }
    }
  }

  /** What the backward pass carries is exactly what is live. */
  lemma {:induction false} UnmetIsLive(g: Graph, ps: seq<Partition>, x: Name)
    requires WellFormed(g, ps)
    ensures x in Unmet(g, ps) <==> Live(g, ps, x)
  {
    if ps == [] {
      if Live(g, ps, x) {
        var k: nat :| k <= |ps| && NeededAt(g, ps, x, k);
      }
      if x in g.outputs {
        assert NeededAt(g, ps, x, 0);
      }
    } else {
      WellFormedTail(g, ps);
      UnmetIsLive(g, ps[1..], x);
      InputsIff(g, ps[0], x);
      ReturnedExactly(g, ps);
      if TakesIn(g, ps[0], x) {
        LiveHere(g, ps, x);
      } else if !Makes(ps[0], x) && Live(g, ps[1..], x) {
        LiveLater(g, ps, x);
      }
      if Live(g, ps, x) {
        LiveStep(g, ps, x);
      }
    }
  }

  /** Each signature says which buffers cross the border of its partition: those it takes in, those it
      makes that are live after it, and those it takes in and leaves alive. */
  lemma {:induction false} SignatureIsLiveness(g: Graph, ps: seq<Partition>, skips: seq<bool>, i: nat, x: Name)
    requires WellFormed(g, ps) && |skips| == |ps| && i < |ps|
    ensures var sig := Signatures(g, ps, skips)[i];
            && (x in sig.inputNodes <==> x in g.defined && TakesIn(g, ps[i], x))
            && (x in sig.outputNodes <==>
                  && !Unstored(g, x)
                  && (|| (Makes(ps[i], x) && Live(g, ps[i + 1..], x))
                      || (x in g.defined && TakesIn(g, ps[i], x) && !UsesLast(ps[i], x))))
  {
    WellFormedTail(g, ps);
    if i > 0 {
      SignatureIsLiveness(g, ps[1..], skips[1..], i - 1, x);
      assert ps[1..][i..] == ps[i + 1..];
    } else {
      NoneLayouts(g);
      InputsIff(g, ps[0], x);
      ReturnedExactly(g, ps);
      UnmetIsLive(g, ps[1..], x);
    }
  }

  /** What `p` frees is needed by nobody later. */
  lemma {:induction false} FreedNotMissing(g: Graph, ps: seq<Partition>, x: Name)
    requires WellFormed(g, ps) && ps != [] && x in Unmet(g, ps[1..])
    ensures x !in Deallocated(g, ps[0])
  {
    WellFormedTail(g, ps);
    UnmetOrigin(g, ps[1..], x);
    if x in g.outputs {
      assert ps[0] in ps;
    } else {
      var i :| 0 <= i < |ps[1..]| && x in InputNames(g, ps[1..][i]);
      assert ps[1..][i] == ps[i + 1];
    }
  }

  ghost predicate Holds(g: Graph, env: set<Name>, names: set<Name>) {
    forall x <- names | !Unstored(g, x) :: x in env
  }

  lemma {:induction false} BodyFindsNames(g: Graph, p: Partition, node: Node, n: Name)
    requires Acyclic(g) && node in p && n in node.accesses && !Unstored(g, n)
    ensures Makes(p, n) || Real(g, n) in InputNames(g, p)
  {
    NoneLayoutIff(g, n);
    assert n in Accessed(p);
  }

  lemma {:induction false} CallIsPossible(g: Graph, ps: seq<Partition>, skip: bool, env: set<Name>)
    requires WellFormed(g, ps) && ps != [] && Holds(g, env, Unmet(g, ps))
    ensures CallSucceeds(g, ps[0], SignatureOf(g, ps[0], skip, Unmet(g, ps[1..])), env)
  {
    var p := ps[0];
    InputsAllocated(g, ps, p);
    forall node <- p, n <- node.accesses | !Unstored(g, n) && !Makes(p, n)
      ensures Real(g, n) in InputNames(g, p)
    {
      BodyFindsNames(g, p, node, n);
    }
    NoneLayouts(g);
    ReturnedExactly(g, ps);
  }

  lemma {:induction false} StepKeepsHolding(g: Graph, ps: seq<Partition>, skip: bool, env: set<Name>)
    requires WellFormed(g, ps) && ps != [] && Holds(g, env, Unmet(g, ps))
    ensures var sig := SignatureOf(g, ps[0], skip, Unmet(g, ps[1..]));
            CallSucceeds(g, ps[0], sig, env) && Holds(g, After(env, sig), Unmet(g, ps[1..]))
  {
    var p, unmet := ps[0], Unmet(g, ps[1..]);
    var sig := SignatureOf(g, p, skip, unmet);
    CallIsPossible(g, ps, skip, env);
    NoneLayouts(g);
    ReturnedExactly(g, ps);
    forall x | x in unmet && !Unstored(g, x) ensures x in After(env, sig) {
      FreedNotMissing(g, ps, x);
    }
  }

  /** Availability: from any environment holding the final unmet names, every call succeeds. */
  lemma {:induction false} PartitionsRun(g: Graph, ps: seq<Partition>, skips: seq<bool>, env: set<Name>)
    requires WellFormed(g, ps) && |skips| == |ps|
    requires Holds(g, env, Unmet(g, ps))
    ensures RunSucceeds(g, ps, Signatures(g, ps, skips), env)
  {
    if ps != [] {
      StepKeepsHolding(g, ps, skips[0], env);
      WellFormedTail(g, ps);
      PartitionsRun(g, ps[1..], skips[1..], After(env, SignatureOf(g, ps[0], skips[0], Unmet(g, ps[1..]))));
    }
  }

  /** The pass itself never looks up an unknown name. */
  lemma {:induction false} NoKeyError(g: Graph, ps: seq<Partition>)
    requires WellFormed(g, ps)
    ensures LookupsSucceed(g, ps)
  {
    NoneLayouts(g);
    if ps != [] {
      WellFormedTail(g, ps);
      NoKeyError(g, ps[1..]);
      ReturnedExactly(g, ps);
      assert ps[0] in ps;
    }
  }

  /** Nothing a partition produces is asked of the caller: only graph inputs and constants remain. */
  lemma {:induction false} NothingProducedIsMissing(g: Graph, ps: seq<Partition>, j: nat)
    requires WellFormed(g, ps) && ProducedBeforeUse(g, ps) && j < |ps|
    ensures Unmet(g, ps) !! Produced(ps[j])
  {
    WellFormedTail(g, ps);
    ReturnedExactly(g, ps);
    if j > 0 {
      forall a, b | 0 <= a <= b < |ps[1..]| ensures InputNames(g, ps[1..][a]) !! Produced(ps[1..][b]) {
        assert ps[1..][a] == ps[a + 1] && ps[1..][b] == ps[b + 1];
      }
      NothingProducedIsMissing(g, ps[1..], j - 1);
    }
  }

  /** Closed form of the two: an environment holding what no partition produces is enough. */
  lemma {:induction false} GraphRunsFromItsInputs(g: Graph, ps: seq<Partition>, skips: seq<bool>, env: set<Name>)
    requires WellFormed(g, ps) && ProducedBeforeUse(g, ps) && |skips| == |ps|
    requires forall x <- Unmet(g, ps) | !Unstored(g, x) && forall p <- ps :: x !in Produced(p) :: x in env
    ensures RunSucceeds(g, ps, Signatures(g, ps, skips), env)
  {
    forall x <- Unmet(g, ps) | !Unstored(g, x) ensures x in env {
      forall p <- ps ensures x !in Produced(p) {
        var j :| 0 <= j < |ps| && ps[j] == p;
        NothingProducedIsMissing(g, ps, j);
      }
    }
    PartitionsRun(g, ps, skips, env);
  }

  // ----- What each signature says, and what is freed -----

  /** The i-th signature is about the i-th partition: its flag, its constants, and which inputs die in it. */
  lemma {:induction false} SignatureAt(g: Graph, ps: seq<Partition>, skips: seq<bool>, i: nat, x: Name)
    requires Acyclic(g) && |skips| == |ps| && i < |ps|
    ensures var sig := Signatures(g, ps, skips)[i];
            && sig.skipCudagraph == skips[i]
            && (x in sig.constantNames <==> x in g.constants && TakesIn(g, ps[i], x))
            && sig.inputDeallocation.Keys == sig.inputNodes
            && (x in sig.inputNodes ==> (sig.inputDeallocation[x] <==> UsesLast(ps[i], x)))
  {
    InputsIff(g, ps[i], x);
    if i > 0 {
      SignatureAt(g, ps[1..], skips[1..], i - 1, x);
    }
  }

  /** The caller's variables after all calls. */
  function EnvAfter(env: set<Name>, sigs: seq<Signature>): set<Name>
    decreases |sigs|
  {
    if sigs == [] then env else EnvAfter(After(env, sigs[0]), sigs[1..])
  }

  /** What nobody needs any more does not come back. */
  lemma {:induction false} NeverAgain(g: Graph, ps: seq<Partition>, skips: seq<bool>, env: set<Name>, x: Name)
    requires WellFormed(g, ps) && |skips| == |ps| && x !in env
    requires x !in g.outputs && forall p <- ps :: x !in InputNames(g, p)
    ensures x !in EnvAfter(env, Signatures(g, ps, skips))
    decreases |ps|
  {
    if ps != [] {
      var sig := SignatureOf(g, ps[0], skips[0], Unmet(g, ps[1..]));
      WellFormedTail(g, ps);
      ReturnedExactly(g, ps);
      assert ps[0] in ps && forall p <- ps[1..] :: p in ps;
      if x in Unmet(g, ps[1..]) {
        UnmetOrigin(g, ps[1..], x);
      }
      assert x !in After(env, sig);
      NeverAgain(g, ps[1..], skips[1..], After(env, sig), x);
    }
  }

  /** A buffer is gone after the partition that uses it last, for the rest of the run. */
  lemma {:induction false} FreedIsGone(g: Graph, ps: seq<Partition>, skips: seq<bool>, env: set<Name>, i: nat, x: Name)
    requires WellFormed(g, ps) && |skips| == |ps| && i < |ps|
    requires x in g.defined && UsesLast(ps[i], x) && !Makes(ps[i], x)
    ensures x !in EnvAfter(env, Signatures(g, ps, skips))
    decreases |ps|
  {
    var sig := SignatureOf(g, ps[0], skips[0], Unmet(g, ps[1..]));
    WellFormedTail(g, ps);
    if i > 0 {
      FreedIsGone(g, ps[1..], skips[1..], After(env, sig), i - 1, x);
    } else {
      ReturnedExactly(g, ps);
      assert x in Deallocated(g, ps[0]) && ps[0] in ps;
      if x in Unmet(g, ps[1..]) {
        FreedNotMissing(g, ps, x);
      }
      forall p | p in ps[1..] ensures x !in InputNames(g, p) {
        var j :| 0 <= j < |ps[1..]| && ps[1..][j] == p;
        assert ps[j + 1] == p && 0 < j + 1;
      }
      NeverAgain(g, ps[1..], skips[1..], After(env, sig), x);
    }
  }

  /** And nothing else is. */
  lemma {:induction false} OthersStay(g: Graph, ps: seq<Partition>, skips: seq<bool>, env: set<Name>, x: Name)
    requires Acyclic(g) && |skips| == |ps| && x in env
    requires forall p <- ps | UsesLast(p, x) :: x !in g.defined || !TakesIn(g, p, x)
    ensures x in EnvAfter(env, Signatures(g, ps, skips))
    decreases |ps|
  {
    if ps != [] {
      var sig := SignatureOf(g, ps[0], skips[0], Unmet(g, ps[1..]));
      assert ps[0] in ps && forall p <- ps[1..] :: p in ps;
      InputsIff(g, ps[0], x);
      OthersStay(g, ps[1..], skips[1..], After(env, sig), x);
    }
  }

  // ----- Storage of the inputs is exactly what availability needs -----

  /** A name without storage that is not in the environment is never an input of a run that succeeds. */
  lemma {:induction false} NeverTakenIn(g: Graph, ps: seq<Partition>, skips: seq<bool>, env: set<Name>, x: Name)
    requires Acyclic(g) && FreesAllocated(g, ps) && |skips| == |ps|
    requires Unstored(g, x) && x !in env && RunSucceeds(g, ps, Signatures(g, ps, skips), env)
    ensures forall p <- ps :: x !in InputNames(g, p)
  {
    NoneLayouts(g);
    if ps != [] {
      var sig := SignatureOf(g, ps[0], skips[0], Unmet(g, ps[1..]));
      assert ps[0] in ps;
      forall n | n in Accessed(ps[0]) && !Unstored(g, n) && n !in Produced(ps[0]) ensures Real(g, n) != x {
        assert Real(g, n) in env;
      }
      assert forall p <- ps[1..] :: p in ps;
      NeverTakenIn(g, ps[1..], skips[1..], After(env, sig), x);
    }
  }

  /** The smallest environment that holds the unmet names. */
  ghost function OnlyStored(g: Graph, ps: seq<Partition>): (env: set<Name>)
    requires Acyclic(g)
    ensures Holds(g, env, Unmet(g, ps)) && forall x <- env :: !Unstored(g, x)
  {
    set x | x in Unmet(g, ps) && !Unstored(g, x)
  }

  lemma {:induction false} StorageMissed(g: Graph, ps: seq<Partition>, skips: seq<bool>)
    requires Acyclic(g) && FreesAllocated(g, ps) && |skips| == |ps| && !InputsHaveStorage(g, ps)
    ensures !RunSucceeds(g, ps, Signatures(g, ps, skips), OnlyStored(g, ps))
  {
    var p, x :| p in ps && x in InputNames(g, p) && Unstored(g, x);
    if RunSucceeds(g, ps, Signatures(g, ps, skips), OnlyStored(g, ps)) {
      NeverTakenIn(g, ps, skips, OnlyStored(g, ps), x);
    }
  }

  /** The run succeeds from every environment that holds the unmet names exactly when all inputs have storage. */
  lemma {:induction false} AlwaysRunsIff(g: Graph, ps: seq<Partition>, skips: seq<bool>)
    requires Regular(g, ps) && |skips| == |ps|
    ensures (forall env | Holds(g, env, Unmet(g, ps)) :: RunSucceeds(g, ps, Signatures(g, ps, skips), env))
            <==> InputsHaveStorage(g, ps)
  {
    if InputsHaveStorage(g, ps) {
      forall env | Holds(g, env, Unmet(g, ps)) ensures RunSucceeds(g, ps, Signatures(g, ps, skips), env) {
        PartitionsRun(g, ps, skips, env);
      }
    } else {
      var env := OnlyStored(g, ps);
      StorageMissed(g, ps, skips);
      assert Holds(g, env, Unmet(g, ps)) && !RunSucceeds(g, ps, Signatures(g, ps, skips), env);
    }
  }

  // An input without storage: below "m" has no buffer of its own, so it counts as allocated, but it
  // stands for "r", which has no storage and so is never handed over.

  ghost const aliased := Graph({"out"}, {"r", "out"}, map["r" := Buffer(true, false)], map["m" := "r"], {})
  ghost const maker: Partition := [Node({"r"}, {}, {})]
  ghost const user: Partition := [Node({"out"}, {"m"}, {})]

  lemma {:induction false} AliasedRanks()
    ensures Acyclic(aliased)
  {
    assert Ranks(aliased, map["m" := 0]);
  }

  lemma {:induction false} AliasedInputs()
    ensures Acyclic(aliased)
    ensures Produced(maker) == {"r"} && InputNames(aliased, maker) == {} && Freed(maker) == {}
    ensures Produced(user) == {"out"} && InputNames(aliased, user) == {"r"} && Freed(user) == {}
  {
    AliasedRanks();
    assert maker[0] in maker && user[0] in user;
    assert Accessed(user) == {"m"} && Produced(user) == {"out"};
    assert Real(aliased, "m") == "r";
  }

  lemma {:induction false} AliasedUnmet()
    ensures Acyclic(aliased)
    ensures Unmet(aliased, [user]) == {"r"} && Unmet(aliased, [maker, user]) == {}
    ensures OutputNodes(aliased, maker, {"r"}) == {}
  {
    AliasedInputs();
    assert [user][1..] == [] && [maker, user][1..] == [user];
    assert Real(aliased, "out") == "out" && Real(aliased, "r") == "r";
    assert ReturnedNames(aliased, user, {"out"}) == {"out", "r"};
    assert ReturnedNames(aliased, maker, {"r"}) == {"r"};
  }

  lemma {:induction false} AliasedRun()
    ensures Acyclic(aliased)
    ensures !RunSucceeds(aliased, [maker, user], Signatures(aliased, [maker, user], [false, false]), {})
  {
    AliasedInputs();
    AliasedUnmet();
    var sigs := Signatures(aliased, [maker, user], [false, false]);
    assert [maker, user][1..] == [user] && [false, false][1..] == [false];
    assert sigs[0] == SignatureOf(aliased, maker, false, {"r"});
    assert After({}, sigs[0]) == {};
    assert sigs[1..] == Signatures(aliased, [user], [false]);
    assert "r" in sigs[1..][0].inputNodes;
  }

  lemma {:induction false} AliasedIsRegular()
    ensures Regular(aliased, [maker, user])
  {
    AliasedRanks();
    NoneLayouts(aliased);
    AliasedInputs();
    assert !IsNoneLayout(aliased, "m") && IsNoneLayout(aliased, "r");
  }

  /** A regular graph whose run fails, although nothing is asked of the caller. */
  lemma {:induction false} StorageIsNeeded()
    ensures Regular(aliased, [maker, user]) && Unmet(aliased, [maker, user]) == {}
    ensures !InputsHaveStorage(aliased, [maker, user])
    ensures !RunSucceeds(aliased, [maker, user], Signatures(aliased, [maker, user], [false, false]), {})
  {
    AliasedIsRegular();
    AliasedUnmet();
    AliasedRun();
    if InputsHaveStorage(aliased, [maker, user]) {
      PartitionsRun(aliased, [maker, user], [false, false], {});
    }
  }
}
