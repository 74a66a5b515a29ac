/**
  ReadTargets of tools/report_build_time_ninja.py: reading the last build out of a ninja log in
  which several builds follow each other without any marker.
*/
module NinjaLog {

  /** A command hash; only whether two are the same matters. */
  type Hash = int

  /** A log line: five tab-separated fields with times in milliseconds, or something else. */
  datatype Line = Malformed | Step(start: int, end: int, name: string, hash: Hash)

  datatype Result<T> = Ok(value: T) | AssertionError

  class Target {
    const start: real
    const end: real
    var targets: seq<string>
    var weightedDuration: real

    constructor (start: real, end: real)
      ensures this.start == start && this.end == end && targets == [] && weightedDuration == 0.0
    {
      this.start, this.end := start, end;
      targets, weightedDuration := [], 0.0;
    }

    function Duration(): real {
      end - start
    }
  }

  function Seconds(ms: int): (s: real)
    ensures s * 1000.0 == ms as real
  {
    ms as real / 1000.0
  }

  // ----- What should be read -----

  function WellFormed(lines: seq<Line>): (steps: seq<Line>)
    ensures forall i | 0 <= i < |steps| :: steps[i].Step?
  {
    if lines == [] then []
    else WellFormed(lines[..|lines| - 1]) + if lines[|lines| - 1].Step? then [lines[|lines| - 1]] else []
  }

  ghost predicate AllSteps(steps: seq<Line>) {
    forall i | 0 <= i < |steps| :: steps[i].Step?
  }

  predicate SameTimes(a: Line, b: Line)
    requires a.Step? && b.Step?
  {
    a.start == b.start && a.end == b.end
  }

  /** These lines could be one build: it ends in order, and runs each command once. */
  ghost predicate OneBuild(steps: seq<Line>)
    requires AllSteps(steps)
  {
    forall i, j | 0 <= i < j < |steps| ::
      steps[i].end <= steps[j].end && (steps[i].hash == steps[j].hash ==> SameTimes(steps[i], steps[j]))
  }

  /** Line `i` cannot belong to the build that began at line `from`. */
  ghost predicate StartsNewBuild(steps: seq<Line>, from: nat, i: nat)
    requires from <= i < |steps| && AllSteps(steps)
  {
    || (i > 0 && steps[i].end < steps[i - 1].end)
    || exists j :: from <= j < i && steps[j].hash == steps[i].hash && !SameTimes(steps[j], steps[i])
  }

  /** Where the build that line `n - 1` belongs to began. */
  ghost function BuildStart(steps: seq<Line>, n: nat): (from: nat)
    requires n <= |steps| && AllSteps(steps)
    ensures from <= n
  {
    if n == 0 then 0
    else if StartsNewBuild(steps, BuildStart(steps, n - 1), n - 1) then n - 1
    else BuildStart(steps, n - 1)
  }

  /** One reported target. */
  datatype Entry = Entry(hash: Hash, start: real, end: real, names: seq<string>)

  function Place(es: seq<Entry>, hash: Hash): (j: nat)
    ensures j <= |es| && (j < |es| ==> es[j].hash == hash)
    ensures forall i | 0 <= i < j :: es[i].hash != hash
  {
    if es == [] then 0 else if es[0].hash == hash then 0 else 1 + Place(es[1..], hash)
  }

  function AddStep(es: seq<Entry>, s: Line): seq<Entry>
    requires s.Step?
  {
    var j := Place(es, s.hash);
    if j < |es| then es[j := es[j].(names := es[j].names + [s.name])]
    else es + [Entry(s.hash, Seconds(s.start), Seconds(s.end), [s.name])]
  }

  /** Lines grouped by command hash, in order of first appearance. */
  function Group(steps: seq<Line>): seq<Entry>
    requires forall i | 0 <= i < |steps| :: steps[i].Step?
  {
    if steps == [] then [] else AddStep(Group(steps[..|steps| - 1]), steps[|steps| - 1])
  }

  function NamesOf(steps: seq<Line>, hash: Hash): seq<string>
    requires forall i | 0 <= i < |steps| :: steps[i].Step?
  {
    if steps == [] then []
    else
      var n := |steps| - 1;
      NamesOf(steps[..n], hash) + if steps[n].hash == hash then [steps[n].name] else []
  }

  // ----- Facts about grouping -----

  lemma {:induction false} PlaceIs(es: seq<Entry>, hash: Hash, j: nat)
    requires j < |es| && es[j].hash == hash && forall i | 0 <= i < j :: es[i].hash != hash
    ensures Place(es, hash) == j
  {
  }

  /** The first line with this hash, or the length when there is none. */
  function FirstIndex(steps: seq<Line>, hash: Hash): (m: nat)
    requires forall i | 0 <= i < |steps| :: steps[i].Step?
    ensures m <= |steps| && (m < |steps| ==> steps[m].hash == hash)
    ensures forall i | 0 <= i < m :: steps[i].hash != hash
  {
    if steps == [] || steps[0].hash == hash then 0 else 1 + FirstIndex(steps[1..], hash)
  }

  /** `e` carries the names of all lines with its hash and the times of the first. */
  ghost predicate Describes(e: Entry, steps: seq<Line>)
    requires AllSteps(steps)
  {
    var m := FirstIndex(steps, e.hash);
    && m < |steps| && e.start == Seconds(steps[m].start) && e.end == Seconds(steps[m].end)
    && e.names == NamesOf(steps, e.hash)
  }

  /** Every line lands in exactly one target, with the others of its hash and in order. */
  ghost predicate Partitions(es: seq<Entry>, steps: seq<Line>)
    requires AllSteps(steps)
  {
    && (forall k, l | 0 <= k < l < |es| :: es[k].hash != es[l].hash)
    && (forall m | 0 <= m < |steps| :: Place(es, steps[m].hash) < |es|)
    && (forall k | 0 <= k < |es| :: Describes(es[k], steps))
  }

  /** The targets stand in the order in which the log first names them. */
  ghost predicate InFirstOrder(es: seq<Entry>, steps: seq<Line>)
    requires AllSteps(steps)
  {
    forall k, l | 0 <= k < l < |es| :: FirstIndex(steps, es[k].hash) < FirstIndex(steps, es[l].hash)
  }

  lemma {:induction false} AddStepShape(es: seq<Entry>, s: Line)
    requires s.Step?
    ensures var r, j := AddStep(es, s), Place(es, s.hash);
            && |r| == (if j < |es| then |es| else |es| + 1) && r[j].hash == s.hash
            && (forall i | 0 <= i < |es| ::
                  r[i].hash == es[i].hash && r[i].start == es[i].start && r[i].end == es[i].end)
            && (forall i | 0 <= i < |es| && i != j :: r[i] == es[i])
            && (j == |es| ==> r[j].end == Seconds(s.end))
  {
  }

  lemma {:induction false} AddStepCovers(es: seq<Entry>, s: Line, hash: Hash)
    requires s.Step? && (hash == s.hash || Place(es, hash) < |es|)
    ensures Place(AddStep(es, s), hash) < |AddStep(es, s)|
  {
    AddStepShape(es, s);
    var r := AddStep(es, s);
    var k := if hash == s.hash then Place(es, s.hash) else Place(es, hash);
    assert r[k].hash == hash;
  }

  lemma {:induction false} NoNamesOf(steps: seq<Line>, hash: Hash)
    requires AllSteps(steps) && forall m | 0 <= m < |steps| :: steps[m].hash != hash
    ensures NamesOf(steps, hash) == []
  {
    if steps != [] {
      NoNamesOf(steps[..|steps| - 1], hash);
    }
  }

  lemma {:induction false} FirstIndexSnoc(pre: seq<Line>, s: Line, hash: Hash)
    requires AllSteps(pre) && s.Step? && FirstIndex(pre, hash) < |pre|
    ensures FirstIndex(pre + [s], hash) == FirstIndex(pre, hash)
  {
    var m := FirstIndex(pre + [s], hash);
    assert forall i | 0 <= i < |pre| :: (pre + [s])[i] == pre[i];
  }

  lemma {:induction false} NamesOfSnoc(pre: seq<Line>, s: Line, hash: Hash)
    requires AllSteps(pre) && s.Step?
    ensures NamesOf(pre + [s], hash) == NamesOf(pre, hash) + if s.hash == hash then [s.name] else []
  {
    assert (pre + [s])[..|pre|] == pre;
  }

  lemma {:induction false} DescribesMore(e: Entry, pre: seq<Line>, s: Line, f: Entry)
    requires AllSteps(pre) && s.Step? && Describes(e, pre)
    requires f == if e.hash == s.hash then e.(names := e.names + [s.name]) else e
    ensures Describes(f, pre + [s])
  {
    FirstIndexSnoc(pre, s, e.hash);
    NamesOfSnoc(pre, s, e.hash);
  }

  lemma {:induction false} DescribesNew(pre: seq<Line>, s: Line)
    requires AllSteps(pre) && s.Step? && forall m | 0 <= m < |pre| :: pre[m].hash != s.hash
    ensures Describes(Entry(s.hash, Seconds(s.start), Seconds(s.end), [s.name]), pre + [s])
  {
    NoNamesOf(pre, s.hash);
    NamesOfSnoc(pre, s, s.hash);
    assert forall i | 0 <= i < |pre| :: (pre + [s])[i] == pre[i];
  }

  lemma {:induction false} AddStepDescribes(es: seq<Entry>, pre: seq<Line>, s: Line, k: nat)
    requires AllSteps(pre) && s.Step? && Partitions(es, pre) && k < |AddStep(es, s)|
    ensures Describes(AddStep(es, s)[k], pre + [s])
  {
    var j := Place(es, s.hash);
    if k < |es| {
      assert Describes(es[k], pre);
      assert k != j ==> es[k].hash != s.hash;
      DescribesMore(es[k], pre, s, AddStep(es, s)[k]);
    } else {
      assert forall m | 0 <= m < |pre| :: Place(es, pre[m].hash) < |es|;
      DescribesNew(pre, s);
    }
  }

  lemma {:induction false} AddStepPartitions(es: seq<Entry>, pre: seq<Line>, s: Line)
    requires AllSteps(pre) && s.Step? && Partitions(es, pre)
    ensures Partitions(AddStep(es, s), pre + [s])
  {
    var r, steps := AddStep(es, s), pre + [s];
    forall m | 0 <= m < |steps| ensures Place(r, steps[m].hash) < |r| {
      assert m < |pre| ==> steps[m] == pre[m];
      AddStepCovers(es, s, steps[m].hash);
    }
    forall k | 0 <= k < |r| ensures Describes(r[k], steps) {
      AddStepDescribes(es, pre, s, k);
    }
    AddStepShape(es, s);
  }

  lemma {:induction false} GroupOne(steps: seq<Line>, s: Line)
    requires AllSteps(steps) && s.Step?
    ensures Group(steps + [s]) == AddStep(Group(steps), s)
  {
    assert (steps + [s])[..|steps|] == steps;
  }

  lemma {:induction false} PartitionsOne(steps: seq<Line>, s: Line)
    requires AllSteps(steps) && s.Step? && Partitions(Group(steps), steps)
    ensures Partitions(Group(steps + [s]), steps + [s])
  {
    AddStepPartitions(Group(steps), steps, s);
    GroupOne(steps, s);
  }

  lemma {:induction false} NewHashComesLast(es: seq<Entry>, pre: seq<Line>, s: Line)
    requires AllSteps(pre) && s.Step? && Partitions(es, pre) && Place(es, s.hash) == |es|
    ensures FirstIndex(pre + [s], s.hash) == |pre|
  {
    forall m | 0 <= m < |pre| ensures pre[m].hash != s.hash {
      assert Place(es, pre[m].hash) < |es|;
    }
    var m := FirstIndex(pre + [s], s.hash);
    assert (pre + [s])[|pre|] == s && forall i | 0 <= i < |pre| :: (pre + [s])[i] == pre[i];
  }

  lemma {:induction false} AddStepOrder(es: seq<Entry>, pre: seq<Line>, s: Line)
    requires AllSteps(pre) && s.Step? && Partitions(es, pre) && InFirstOrder(es, pre)
    ensures InFirstOrder(AddStep(es, s), pre + [s])
  {
    var r, steps := AddStep(es, s), pre + [s];
    AddStepShape(es, s);
    forall k | 0 <= k < |es| ensures FirstIndex(steps, r[k].hash) == FirstIndex(pre, es[k].hash) < |pre| {
      assert Describes(es[k], pre);
      FirstIndexSnoc(pre, s, es[k].hash);
    }
    if |r| > |es| {
      NewHashComesLast(es, pre, s);
    }
  }

  lemma {:induction false} OrderOne(steps: seq<Line>, s: Line)
    requires AllSteps(steps) && s.Step? && InFirstOrder(Group(steps), steps)
    ensures InFirstOrder(Group(steps + [s]), steps + [s])
  {
    GroupPartitions(steps);
    AddStepOrder(Group(steps), steps, s);
    GroupOne(steps, s);
  }

  lemma {:induction false} GroupOrder(steps: seq<Line>)
    requires AllSteps(steps)
    ensures InFirstOrder(Group(steps), steps)
  {
    if steps != [] {
      var pre, s := steps[..|steps| - 1], steps[|steps| - 1];
      assert steps == pre + [s];
      GroupOrder(pre);
      OrderOne(pre, s);
    }
  }

  lemma {:induction false} GroupPartitions(steps: seq<Line>)
    requires AllSteps(steps)
    ensures Partitions(Group(steps), steps)
  {
    if steps != [] {
      var pre, s := steps[..|steps| - 1], steps[|steps| - 1];
      assert steps == pre + [s];
      GroupPartitions(pre);
      PartitionsOne(pre, s);
    }
  }

  lemma {:induction false} EntryEndsBy(steps: seq<Line>, k: nat)
    requires AllSteps(steps) && OneBuild(steps) && steps != [] && k < |Group(steps)|
    ensures Group(steps)[k].end <= Seconds(steps[|steps| - 1].end)
  {
    GroupPartitions(steps);
    var e := Group(steps)[k];
    assert Describes(e, steps);
    var m := FirstIndex(steps, e.hash);
    assert steps[m].end <= steps[|steps| - 1].end;
  }

  ghost predicate EndsInOrder(es: seq<Entry>) {
    forall k, l | 0 <= k < l < |es| :: es[k].end <= es[l].end
  }

  /** Within one build the reported targets end in order. */
  lemma {:induction false} GroupEndsInOrder(steps: seq<Line>)
    requires AllSteps(steps) && OneBuild(steps)
    ensures EndsInOrder(Group(steps))
  {
    if steps != [] {
      var n := |steps| - 1;
      var es, r := Group(steps[..n]), Group(steps);
      GroupEndsInOrder(steps[..n]);
      AddStepShape(es, steps[n]);
      forall k | 0 <= k < |r| ensures r[k].end <= Seconds(steps[n].end) {
        EntryEndsBy(steps, k);
      }
    }
  }

  lemma {:induction false} FirstDecides(seg: seq<Line>, s: Line)
    requires AllSteps(seg) && s.Step? && OneBuild(seg)
    ensures var first := FirstIndex(seg, s.hash);
            (exists m :: 0 <= m < |seg| && seg[m].hash == s.hash && !SameTimes(seg[m], s))
            <==> first < |seg| && !SameTimes(seg[first], s)
  {
    var first := FirstIndex(seg, s.hash);
    forall m | 0 <= m < |seg| && seg[m].hash == s.hash ensures first < |seg| && SameTimes(seg[m], seg[first]) {
      assert first <= m;
    }
  }

  lemma {:induction false} EntryIsFirst(seg: seq<Line>, s: Line)
    requires AllSteps(seg) && s.Step?
    ensures var es, first := Group(seg), FirstIndex(seg, s.hash);
            var j := Place(es, s.hash);
            && (j < |es| <==> first < |seg|)
            && (j < |es| ==> es[j].start == Seconds(seg[first].start) && es[j].end == Seconds(seg[first].end))
  {
    GroupPartitions(seg);
    var es, first := Group(seg), FirstIndex(seg, s.hash);
    var j := Place(es, s.hash);
    if j < |es| {
      assert Describes(es[j], seg);
    }
    if first < |seg| {
      assert Place(es, seg[first].hash) < |es|;
    }
  }

  /** Inside one build a hash seen before tells, by its recorded times, whether another line fits. */
  lemma {:induction false} ConflictByEntry(seg: seq<Line>, s: Line)
    requires AllSteps(seg) && s.Step? && OneBuild(seg)
    ensures var es := Group(seg);
            var j := Place(es, s.hash);
            (exists m :: 0 <= m < |seg| && seg[m].hash == s.hash && !SameTimes(seg[m], s))
            <==> j < |es| && (es[j].start != Seconds(s.start) || es[j].end != Seconds(s.end))
  {
    FirstDecides(seg, s);
    EntryIsFirst(seg, s);
  }

  /** The lines kept are one build. */
  lemma {:induction false} KeptIsOneBuild(steps: seq<Line>, n: nat)
    requires AllSteps(steps) && n <= |steps|
    ensures OneBuild(steps[BuildStart(steps, n)..n])
  {
    if n > 0 {
      KeptIsOneBuild(steps, n - 1);
      var from, prev := BuildStart(steps, n), BuildStart(steps, n - 1);
      if from == prev && from < n - 1 {
        var seg := steps[from..n];
        assert seg[..|seg| - 1] == steps[from..n - 1];
        forall i, j | 0 <= i < j < |seg|
          ensures seg[i].end <= seg[j].end && (seg[i].hash == seg[j].hash ==> SameTimes(seg[i], seg[j]))
        {
          if j == |seg| - 1 {
            assert seg[i] == steps[from + i] && seg[j] == steps[n - 1];
            assert steps[n - 2].end <= steps[n - 1].end;
            assert i < j - 1 ==> steps[from..n - 1][i].end <= steps[from..n - 1][j - 1].end;
          } else {
            assert seg[i] == steps[from..n - 1][i] && seg[j] == steps[from..n - 1][j];
          }
        }
      }
    }
  }

  // ----- Cutting a log into builds -----

  /** The lines from `from` to `to` could be one build, and the line after them does not fit. */
  ghost predicate WholeBuild(steps: seq<Line>, from: nat, to: nat)
    requires AllSteps(steps)
  {
    from < to < |steps| && OneBuild(steps[from..to]) && !OneBuild(steps[from..to + 1])
  }

  /** `cuts` are where the builds begin, each as long as it can be; the last one runs to the end. */
  ghost predicate CutsIntoBuilds(steps: seq<Line>, cuts: seq<nat>)
    requires AllSteps(steps)
  {
    && cuts != [] && cuts[0] == 0
    && (forall i | 0 <= i < |cuts| - 1 :: WholeBuild(steps, cuts[i], cuts[i + 1]))
    && cuts[|cuts| - 1] <= |steps| && OneBuild(steps[cuts[|cuts| - 1]..])
  }

  lemma {:induction false} OneBuildPart(steps: seq<Line>, from: nat, to: nat, end: nat)
    requires AllSteps(steps) && from <= to <= |steps| && from <= end <= |steps|
    ensures to <= end && OneBuild(steps[from..end]) ==> OneBuild(steps[from..to])
  {
    if to <= end {
      assert forall i | 0 <= i < to - from :: steps[from..to][i] == steps[from..end][i];
    }
  }

  /** There is only one such cut. */
  lemma {:induction false} SameCuts(steps: seq<Line>, cuts: seq<nat>, others: seq<nat>, i: nat)
    requires AllSteps(steps) && CutsIntoBuilds(steps, cuts) && CutsIntoBuilds(steps, others)
    requires i < |cuts| && i < |others|
    ensures cuts[i] == others[i]
  {
    if i > 0 {
      SameCuts(steps, cuts, others, i - 1);
      assert WholeBuild(steps, cuts[i - 1], cuts[i - 1 + 1]) && WholeBuild(steps, others[i - 1], others[i - 1 + 1]);
      OneBuildPart(steps, cuts[i - 1], cuts[i] + 1, others[i]);
      OneBuildPart(steps, cuts[i - 1], others[i] + 1, cuts[i]);
    }
  }

  lemma {:induction false} NotTheLast(steps: seq<Line>, cuts: seq<nat>, i: nat)
    requires AllSteps(steps) && CutsIntoBuilds(steps, cuts) && i < |cuts| - 1
    ensures cuts[i] <= |steps| && !OneBuild(steps[cuts[i]..])
  {
    assert WholeBuild(steps, cuts[i], cuts[i + 1]);
    assert steps[cuts[i]..] == steps[cuts[i]..|steps|];
    OneBuildPart(steps, cuts[i], cuts[i + 1] + 1, |steps|);
  }

  lemma {:induction false} CutsEndTogether(steps: seq<Line>, cuts: seq<nat>, others: seq<nat>)
    requires AllSteps(steps) && CutsIntoBuilds(steps, cuts) && CutsIntoBuilds(steps, others)
    ensures |cuts| <= |others|
  {
    if |others| < |cuts| {
      NotTheLast(steps, cuts, |others| - 1);
      SameCuts(steps, cuts, others, |others| - 1);
    }
  }

  lemma {:induction false} CutsUnique(steps: seq<Line>, cuts: seq<nat>, others: seq<nat>)
    requires AllSteps(steps) && CutsIntoBuilds(steps, cuts) && CutsIntoBuilds(steps, others)
    ensures cuts == others
  {
    CutsEndTogether(steps, cuts, others);
    CutsEndTogether(steps, others, cuts);
    forall i | 0 <= i < |cuts| ensures cuts[i] == others[i] {
      SameCuts(steps, cuts, others, i);
    }
  }

  /** The test for a new build is that the line does not fit. */
  lemma {:induction false} StartsNewBuildIff(steps: seq<Line>, from: nat, n: nat)
    requires AllSteps(steps) && from < n < |steps| && OneBuild(steps[from..n])
    ensures StartsNewBuild(steps, from, n) <==> !OneBuild(steps[from..n + 1])
  {
    var kept, seg := steps[from..n], steps[from..n + 1];
    assert forall m | 0 <= m < |seg| :: seg[m] == steps[from + m];
    assert forall m | 0 <= m < |kept| :: kept[m] == seg[m];
    assert kept[|kept| - 1] == steps[n - 1] && seg[|kept|] == steps[n];
    if !OneBuild(seg) {
      var i, j :| 0 <= i < j < |seg| &&
                  !(seg[i].end <= seg[j].end && (seg[i].hash == seg[j].hash ==> SameTimes(seg[i], seg[j])));
      assert j == |kept|;
      assert kept[i].end <= kept[|kept| - 1].end;
      assert from <= from + i < n && steps[from + i] == seg[i];
    }
    if StartsNewBuild(steps, from, n) && !(steps[n].end < steps[n - 1].end) {
      var j :| from <= j < n && steps[j].hash == steps[n].hash && !SameTimes(steps[j], steps[n]);
      assert seg[j - from] == steps[j];
    }
  }

  /** Where the builds of the first `n` lines begin. */
  ghost function BuildStarts(steps: seq<Line>, n: nat): (cuts: seq<nat>)
    requires n <= |steps| && AllSteps(steps)
    ensures cuts != [] && cuts[|cuts| - 1] == BuildStart(steps, n)
  {
    if n == 0 then [0]
    else
      var cuts := BuildStarts(steps, n - 1);
      if StartsNewBuild(steps, BuildStart(steps, n - 1), n - 1) && n > 1 then cuts + [n - 1] else cuts
  }

  lemma {:induction false} BuildStartsAre(steps: seq<Line>, n: nat)
    requires AllSteps(steps) && n <= |steps|
    ensures var cuts := BuildStarts(steps, n);
            && cuts[0] == 0 && OneBuild(steps[BuildStart(steps, n)..n]) && (n > 0 ==> BuildStart(steps, n) < n)
            && forall i | 0 <= i < |cuts| - 1 :: WholeBuild(steps, cuts[i], cuts[i + 1])
  {
    KeptIsOneBuild(steps, n);
    if n > 0 {
      BuildStartsAre(steps, n - 1);
      if n > 1 {
        StartsNewBuildIff(steps, BuildStart(steps, n - 1), n - 1);
      }
    }
  }

  /** The lines kept are the last of the builds the log is cut into. */
  lemma {:induction false} KeptIsLastBuild(steps: seq<Line>) returns (cuts: seq<nat>)
    requires AllSteps(steps)
    ensures CutsIntoBuilds(steps, cuts) && cuts[|cuts| - 1] == BuildStart(steps, |steps|)
  {
    cuts := BuildStarts(steps, |steps|);
    BuildStartsAre(steps, |steps|);
    assert steps[BuildStart(steps, |steps|)..] == steps[BuildStart(steps, |steps|)..|steps|];
  }

  // ----- Reading the log -----

  /** The dictionary: hashes in insertion order, each with its Target object. */
  datatype Dict = Dict(hashes: seq<Hash>, targets: seq<Target>)

  const EmptyDict := Dict([], [])

  ghost predicate Holds(d: Dict, es: seq<Entry>)
    reads d.targets
  {
    && |d.hashes| == |d.targets| == |es|
    && (forall k, l | 0 <= k < l < |es| :: d.targets[k] != d.targets[l])
    && forall k | 0 <= k < |es| ::
         && d.hashes[k] == es[k].hash
         && d.targets[k].start == es[k].start && d.targets[k].end == es[k].end && d.targets[k].targets == es[k].names
  }

  method Lookup(d: Dict, hash: Hash, ghost es: seq<Entry>) returns (j: nat)
    requires Holds(d, es)
    ensures j == Place(es, hash)
  {
    j := 0;
    while j < |d.hashes| && d.hashes[j] != hash
      invariant j <= |d.hashes| && forall i | 0 <= i < j :: es[i].hash != hash
    {
      j := j + 1;
    }
  }

  /** Adds the name to the target at `j`, or to a new one. */
  method Record(d: Dict, j: nat, s: Line, ghost es: seq<Entry>) returns (r: Dict)
    requires s.Step? && Holds(d, es) && j == Place(es, s.hash)
    modifies d.targets
    ensures Holds(r, AddStep(es, s))
    ensures forall k | 0 <= k < |r.targets| ::
              if k < |d.targets| then r.targets[k] == d.targets[k] else fresh(r.targets[k])
  {
    r := d;
    if j == |d.hashes| {
      var t := new Target(Seconds(s.start), Seconds(s.end));
      r := Dict(d.hashes + [s.hash], d.targets + [t]);
    }
    var target := r.targets[j];
    target.targets := target.targets + [s.name];
  }

  lemma {:induction false} WellFormedPrefix(log: seq<Line>, i: nat)
    requires i <= |log|
    ensures var n := |WellFormed(log[..i])|;
            && WellFormed(log[..i]) <= WellFormed(log)
            && (i < |log| && log[i].Step? ==> n < |WellFormed(log)| && WellFormed(log)[n] == log[i])
            && (i < |log| ==> |WellFormed(log[..i + 1])| == n + if log[i].Step? then 1 else 0)
    decreases |log| - i
  {
    if i < |log| {
      WellFormedPrefix(log, i + 1);
      assert log[..i + 1][..i] == log[..i];
    } else {
      assert log[..i] == log;
    }
  }

  lemma {:induction false} GroupSnoc(steps: seq<Line>, from: nat, n: nat)
    requires AllSteps(steps) && from <= n < |steps|
    ensures Group(steps[from..n + 1]) == AddStep(Group(steps[from..n]), steps[n])
  {
    GroupOne(steps[from..n], steps[n]);
    assert steps[from..n + 1] == steps[from..n] + [steps[n]];
  }

  /** The tests of the code decide whether line `n` starts a new build. */
  lemma {:induction false} ResetTest(steps: seq<Line>, n: nat)
    requires AllSteps(steps) && n < |steps|
    ensures var from := BuildStart(steps, n);
            var es := Group(steps[from..n]);
            var j := Place(es, steps[n].hash);
            StartsNewBuild(steps, from, n) <==>
              || (n > 0 && steps[n].end < steps[n - 1].end)
              || (j < |es| && (es[j].start != Seconds(steps[n].start) || es[j].end != Seconds(steps[n].end)))
  {
    var from := BuildStart(steps, n);
    var seg := steps[from..n];
    KeptIsOneBuild(steps, n);
    ConflictByEntry(seg, steps[n]);
    assert forall m | 0 <= m < |seg| :: seg[m] == steps[from + m];
    assert forall m | from <= m < n :: seg[m - from] == steps[m];
  }

  /** Where the lines that are kept begin, after `n` well-formed lines. */
  ghost function KeptFrom(steps: seq<Line>, n: nat, showAll: bool): (from: nat)
    requires n <= |steps| && AllSteps(steps)
    ensures from <= n
  {
    if showAll then 0 else BuildStart(steps, n)
  }

  /** `d` holds those of the first `n` lines that are kept. */
  ghost predicate HoldsKept(d: Dict, steps: seq<Line>, n: nat, showAll: bool)
    requires AllSteps(steps) && n <= |steps|
    reads d.targets
  {
    Holds(d, Group(steps[KeptFrom(steps, n, showAll)..n]))
  }

  /** The dictionary and the place in it that line `n` goes to: a new build starts with an empty one. */
  method ChooseDict(d: Dict, lastEndSeen: real, s: Line, showAll: bool, ghost steps: seq<Line>, ghost n: nat)
    returns (r: Dict, j: nat)
    requires AllSteps(steps) && n < |steps| && s == steps[n] && HoldsKept(d, steps, n, showAll)
    requires n > 0 ==> lastEndSeen == Seconds(steps[n - 1].end)
    ensures r == d || r == EmptyDict
    ensures KeptFrom(steps, n + 1, showAll) <= n
    ensures var es := Group(steps[KeptFrom(steps, n + 1, showAll)..n]); Holds(r, es) && j == Place(es, s.hash)
  {
    ghost var from := KeptFrom(steps, n, showAll);
    ghost var es := Group(steps[from..n]);
    if !showAll {
      ResetTest(steps, n);
    }
    r := d;
    if !showAll && Seconds(s.end) < lastEndSeen {
      r, es, from := EmptyDict, [], n;
    }
    j := Lookup(r, s.hash, es);
    if j < |r.targets| && !showAll &&
       (r.targets[j].start != Seconds(s.start) || r.targets[j].end != Seconds(s.end))
    {
      r, j, es, from := EmptyDict, 0, [], n;
    }
    assert es == Group(steps[from..n]) && from == KeptFrom(steps, n + 1, showAll);
  }

  /** One well-formed line, number `n`. */
  method ReadStep(d: Dict, lastEndSeen: real, s: Line, showAll: bool, ghost steps: seq<Line>, ghost n: nat)
    returns (r: Dict)
    requires AllSteps(steps) && n < |steps| && s == steps[n] && HoldsKept(d, steps, n, showAll)
    requires n > 0 ==> lastEndSeen == Seconds(steps[n - 1].end)
    modifies d.targets
    ensures HoldsKept(r, steps, n + 1, showAll)
    ensures forall k | 0 <= k < |r.targets| :: r.targets[k] in d.targets || fresh(r.targets[k])
  {
    var j;
    r, j := ChooseDict(d, lastEndSeen, s, showAll, steps, n);
    ghost var from := KeptFrom(steps, n + 1, showAll);
    GroupSnoc(steps, from, n);
    r := Record(r, j, s, Group(steps[from..n]));
  }

  ghost predicate CountsAt(log: seq<Line>, steps: seq<Line>, pos: seq<nat>, i: nat)
    requires i < |log| && |pos| == |log| + 1
  {
    if log[i].Step? then pos[i] < |steps| && steps[pos[i]] == log[i] && pos[i + 1] == pos[i] + 1
    else pos[i + 1] == pos[i]
  }

  /** `pos[i]` counts the well-formed lines among the first `i`; they are the first `pos[i]` of `steps`. */
  ghost predicate Counts(log: seq<Line>, steps: seq<Line>, pos: seq<nat>) {
    && |pos| == |log| + 1 && pos[0] == 0 && pos[|log|] == |steps|
    && forall i | 0 <= i < |log| :: CountsAt(log, steps, pos, i)
  }

  ghost function Positions(log: seq<Line>): (pos: seq<nat>)
    ensures |pos| == |log| + 1 && forall i | 0 <= i <= |log| :: pos[i] == |WellFormed(log[..i])|
  {
    seq(|log| + 1, i requires 0 <= i <= |log| => |WellFormed(log[..i])|)
  }

  lemma {:induction false} PositionsCount(log: seq<Line>)
    ensures Counts(log, WellFormed(log), Positions(log))
  {
    var steps, pos := WellFormed(log), Positions(log);
    assert log[..0] == [] && log[..|log|] == log;
    forall i | 0 <= i < |log| ensures CountsAt(log, steps, pos, i) {
      WellFormedPrefix(log, i);
    }
  }

  lemma {:induction false} NothingHeld(steps: seq<Line>, showAll: bool)
    requires AllSteps(steps)
    ensures HoldsKept(EmptyDict, steps, 0, showAll)
  {
    assert Group(steps[KeptFrom(steps, 0, showAll)..0]) == [];
  }

  /** The loop over the lines. */
  method ReadLines(log: seq<Line>, showAll: bool, ghost steps: seq<Line>, ghost pos: seq<nat>) returns (d: Dict)
    requires AllSteps(steps) && Counts(log, steps, pos)
    ensures fresh(d.targets) && HoldsKept(d, steps, |steps|, showAll)
  {
    var lastEndSeen;
    d, lastEndSeen := EmptyDict, 0.0;
    NothingHeld(steps, showAll);
    ghost var n := 0;
    for i := 0 to |log|
      invariant n == pos[i] <= |steps| && (n > 0 ==> lastEndSeen == Seconds(steps[n - 1].end))
      invariant fresh(d.targets) && HoldsKept(d, steps, n, showAll)
    {
      assert CountsAt(log, steps, pos, i);
      if log[i].Step? {
        d := ReadStep(d, lastEndSeen, log[i], showAll, steps, n);
        lastEndSeen := Seconds(log[i].end);
        n := n + 1;
      }
    }
  }

  /** The reported targets are all lines, or those of the last build, grouped by command. */
  method ReadTargets(header: string, log: seq<Line>, showAll: bool) returns (r: Result<Dict>)
    ensures r.Ok? <==> header == "# ninja log v5\n"
    ensures r.Ok? ==>
              var steps := WellFormed(log);
              && fresh(r.value.targets)
              && (showAll ==> Holds(r.value, Group(steps)))
              && (!showAll ==>
                    exists cuts :: CutsIntoBuilds(steps, cuts) && Holds(r.value, Group(steps[cuts[|cuts| - 1]..])))
  {
    if header != "# ninja log v5\n" {
      return AssertionError;
    }
    PositionsCount(log);
    var d := ReadLines(log, showAll, WellFormed(log), Positions(log));
    ghost var steps := WellFormed(log);
    if showAll {
      assert steps[0..|steps|] == steps;
    } else {
      ghost var cuts := KeptIsLastBuild(steps);
      assert steps[cuts[|cuts| - 1]..|steps|] == steps[cuts[|cuts| - 1]..];
    }
    return Ok(d);
  }

  /** What the reader of the report can rely on for the last build. */
  lemma {:induction false} LastBuildReported(log: seq<Line>)
    ensures var steps := WellFormed(log);
            var kept := steps[BuildStart(steps, |steps|)..];
            && OneBuild(kept)
            && Partitions(Group(kept), kept)
            && InFirstOrder(Group(kept), kept)
            && EndsInOrder(Group(kept))
  {
    var steps := WellFormed(log);
    var from := BuildStart(steps, |steps|);
    KeptIsOneBuild(steps, |steps|);
    assert steps[from..|steps|] == steps[from..];
    GroupPartitions(steps[from..]);
    GroupOrder(steps[from..]);
    GroupEndsInOrder(steps[from..]);
  }

  /** Whatever else could be one build starts after the previous build did: no more than one build too few is kept. */
  lemma {:induction false} LongerSuffixStartsLater(steps: seq<Line>, t: nat)
    requires AllSteps(steps) && t <= |steps| && OneBuild(steps[t..])
    ensures var from := BuildStart(steps, |steps|); from > 0 ==> t > BuildStart(steps, from)
  {
    var from := BuildStart(steps, |steps|);
    BuildStartsFresh(steps, |steps|);
    assert forall j | t <= j < |steps| :: steps[t..][j - t] == steps[j];
  }

  lemma {:induction false} BuildStartsFresh(steps: seq<Line>, n: nat)
    requires AllSteps(steps) && n <= |steps|
    ensures var from := BuildStart(steps, n);
            from > 0 ==> from < n && StartsNewBuild(steps, BuildStart(steps, from), from)
  {
    if n > 0 {
      BuildStartsFresh(steps, n - 1);
    }
  }

  lemma {:induction false} ShorterSuffix(steps: seq<Line>, t: nat, u: nat)
    requires AllSteps(steps) && t <= u <= |steps| && OneBuild(steps[t..])
    ensures OneBuild(steps[u..])
  {
    forall i, j | 0 <= i < j < |steps[u..]|
      ensures steps[u..][i].end <= steps[u..][j].end &&
              (steps[u..][i].hash == steps[u..][j].hash ==> SameTimes(steps[u..][i], steps[u..][j]))
    {
      assert steps[u..][i] == steps[t..][u - t + i] && steps[u..][j] == steps[t..][u - t + j];
    }
  }

  /** Line `t` does not fit before a build that starts right after it. */
  ghost predicate DoesNotFit(steps: seq<Line>, t: nat)
    requires AllSteps(steps) && t + 1 < |steps|
  {
    || steps[t + 1].end < steps[t].end
    || exists j :: t < j < |steps| && steps[j].hash == steps[t].hash && !SameTimes(steps[t], steps[j])
  }

  lemma {:induction false} OneLineMore(steps: seq<Line>, t: nat)
    requires AllSteps(steps) && t + 1 < |steps| && OneBuild(steps[t + 1..])
    ensures OneBuild(steps[t..]) <==> !DoesNotFit(steps, t)
  {
    var rest, all := steps[t + 1..], steps[t..];
    assert forall j | t < j < |steps| :: steps[j] == rest[j - t - 1] == all[j - t];
    if OneBuild(all) {
      assert all[0].end <= all[1].end;
      forall j | t < j < |steps| && steps[j].hash == steps[t].hash ensures SameTimes(steps[t], steps[j]) {
        assert all[j - t] == steps[j];
      }
    }
    if !DoesNotFit(steps, t) {
      forall i, j | 0 <= i < j < |all|
        ensures all[i].end <= all[j].end && (all[i].hash == all[j].hash ==> SameTimes(all[i], all[j]))
      {
        if i > 0 {
          assert all[i] == rest[i - 1] && all[j] == rest[j - 1];
        } else {
          assert all[j] == steps[t + j];
          assert j > 1 ==> rest[0].end <= rest[j - 1].end;
        }
      }
    }
  }

  lemma {:induction false} KeptCanGrowIff(steps: seq<Line>, from: nat)
    requires AllSteps(steps) && from == BuildStart(steps, |steps|) && from > 0
    ensures from < |steps| && (OneBuild(steps[from - 1..]) <==> !DoesNotFit(steps, from - 1))
  {
    BuildStartsFresh(steps, |steps|);
    KeptIsOneBuild(steps, |steps|);
    assert steps[from..] == steps[from..|steps|];
    OneLineMore(steps, from - 1);
  }

  /** No longer suffix could be one build exactly when the line before the kept ones does not fit. */
  lemma {:induction false} KeptIsLongestIff(steps: seq<Line>)
    requires AllSteps(steps)
    ensures var from := BuildStart(steps, |steps|);
            (forall t | 0 <= t < from :: !OneBuild(steps[t..]))
            <==> from == 0 || (from < |steps| && DoesNotFit(steps, from - 1))
  {
    var from := BuildStart(steps, |steps|);
    if from > 0 {
      KeptCanGrowIff(steps, from);
      forall t | 0 <= t < from && OneBuild(steps[t..]) ensures OneBuild(steps[from - 1..]) {
        ShorterSuffix(steps, t, from - 1);
      }
    }
  }

  /** But it can be too few: the line of hash 2 is dropped although the last two lines could be one build. */
  lemma {:induction false} KeptIsNotLongest()
    ensures var steps := [Step(0, 1, "a", 1), Step(0, 2, "b", 2), Step(0, 3, "c", 1)];
            AllSteps(steps) && BuildStart(steps, 3) == 2 && OneBuild(steps[1..])
  {
    var steps := [Step(0, 1, "a", 1), Step(0, 2, "b", 2), Step(0, 3, "c", 1)];
    assert BuildStart(steps, 0) == 0;
    assert !StartsNewBuild(steps, 0, 0);
    assert BuildStart(steps, 1) == 0;
    assert !StartsNewBuild(steps, 0, 1);
    assert BuildStart(steps, 2) == 0;
    assert steps[0].hash == steps[2].hash && !SameTimes(steps[0], steps[2]);
    assert StartsNewBuild(steps, 0, 2);
    assert steps[1..] == [steps[1], steps[2]];
  }
}
