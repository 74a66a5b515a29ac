/**
  vllm/logprobs.py: a container that flattens one dictionary per position into parallel lists,
  and must read back like the plain list of dictionaries it replaces.
*/
module Logprobs {
  import opened Options

  datatype Logprob = Logprob(logprob: real, rank: Option<int>, decodedToken: Option<string>)

  type Item = (int, Logprob)

  /** A Python dict: its items in insertion order, one per key. */
  type Dict = seq<Item>

  predicate DistinctKeys(d: Dict) {
    forall i, j | 0 <= i < j < |d| :: d[i].0 != d[j].0
  }

  /** `d[k] = v`: a new key goes to the end, an old one keeps its place. */
  function Insert(d: Dict, k: int, v: Logprob): Dict {
    if d == [] then [(k, v)]
    else if d[0].0 == k then [(k, v)] + d[1..]
    else [d[0]] + Insert(d[1..], k, v)
  }

  /** The dict comprehension over `items`; later items win. */
  function FromItems(items: seq<Item>): Dict {
    if items == [] then []
    else
      var n := |items| - 1;
      Insert(FromItems(items[..n]), items[n].0, items[n].1)
  }

  lemma {:induction false} FromItemsNext(items: seq<Item>, k: nat)
    requires k < |items|
    ensures FromItems(items[..k + 1]) == Insert(FromItems(items[..k]), items[k].0, items[k].1)
  {
    assert items[..k + 1][..k] == items[..k];
  }

  lemma {:induction false} InsertNew(d: Dict, k: int, v: Logprob)
    requires forall i | 0 <= i < |d| :: d[i].0 != k
    ensures Insert(d, k, v) == d + [(k, v)]
  {
    if d != [] {
      InsertNew(d[1..], k, v);
    }
  }

  lemma {:induction false} FromItemsOfDict(d: Dict)
    requires DistinctKeys(d)
    ensures FromItems(d) == d
  {
    if d != [] {
      var n := |d| - 1;
      FromItemsOfDict(d[..n]);
      InsertNew(d[..n], d[n].0, d[n].1);
    }
  }

  lemma {:induction false} InsertDistinct(d: Dict, k: int, v: Logprob)
    requires DistinctKeys(d)
    ensures DistinctKeys(Insert(d, k, v))
    ensures forall e <- Insert(d, k, v) :: e.0 == k || exists x <- d :: x.0 == e.0
  {
    if d != [] && d[0].0 != k {
      InsertDistinct(d[1..], k, v);
      var rest := Insert(d[1..], k, v);
      forall j | 0 <= j < |rest| ensures rest[j].0 != d[0].0 {
        assert rest[j] in rest;
      }
    }
  }

  lemma {:induction false} FromItemsDistinct(items: seq<Item>)
    ensures DistinctKeys(FromItems(items))
  {
    if items != [] {
      var n := |items| - 1;
      FromItemsDistinct(items[..n]);
      InsertDistinct(FromItems(items[..n]), items[n].0, items[n].1);
    }
  }

  // ----- What a dict comprehension keeps -----

  /** The first place with key `k`, or the length when there is none. */
  function FirstPlace(items: seq<Item>, k: int): (r: nat)
    ensures r <= |items| && (r < |items| ==> items[r].0 == k)
    ensures forall j | 0 <= j < r :: items[j].0 != k
  {
    if items == [] || items[0].0 == k then 0 else 1 + FirstPlace(items[1..], k)
  }

  /** No later item has the key of item `i`. */
  ghost predicate IsLast(items: seq<Item>, i: nat) {
    i < |items| && forall j | i < j < |items| :: items[j].0 != items[i].0
  }

  ghost predicate ComesFrom(e: Item, items: seq<Item>) {
    exists i: nat :: IsLast(items, i) && items[i] == e
  }

  /**
    `d` is the dictionary of `items`: each entry is the last item with its key, every key has an entry, and the
    entries stand in the order in which their keys appear first.
  */
  ghost predicate DictOf(d: Dict, items: seq<Item>) {
    && (forall a | 0 <= a < |d| :: ComesFrom(d[a], items))
    && (forall i | 0 <= i < |items| :: FirstPlace(d, items[i].0) < |d|)
    && (forall a, b | 0 <= a < b < |d| :: FirstPlace(items, d[a].0) < FirstPlace(items, d[b].0))
  }

  lemma {:induction false} InsertOld(d: Dict, k: int, v: Logprob, p: nat)
    requires p < |d| && d[p].0 == k && forall i | 0 <= i < p :: d[i].0 != k
    ensures Insert(d, k, v) == d[p := (k, v)]
  {
    if p > 0 {
      InsertOld(d[1..], k, v, p - 1);
    }
  }

  lemma {:induction false} FirstPlaceIs(items: seq<Item>, k: int, r: nat)
    requires r <= |items| && (r < |items| ==> items[r].0 == k) && forall j | 0 <= j < r :: items[j].0 != k
    ensures FirstPlace(items, k) == r
  {
  }

  lemma {:induction false} FirstPlaceSnoc(items: seq<Item>, e: Item, k: int)
    ensures FirstPlace(items + [e], k)
            == if FirstPlace(items, k) < |items| || e.0 == k then FirstPlace(items, k) else |items| + 1
  {
    var r := FirstPlace(items, k);
    FirstPlaceIs(items + [e], k, if r < |items| || e.0 == k then r else |items| + 1);
  }

  lemma {:induction false} ComesFromSnoc(e: Item, items: seq<Item>, x: Item)
    requires ComesFrom(e, items) && e.0 != x.0
    ensures ComesFrom(e, items + [x])
  {
    var i: nat :| IsLast(items, i) && items[i] == e;
    assert IsLast(items + [x], i);
  }

  lemma {:induction false} ComesFromHas(e: Item, items: seq<Item>)
    requires ComesFrom(e, items)
    ensures FirstPlace(items, e.0) < |items|
  {
    var i: nat :| IsLast(items, i) && items[i] == e;
  }

  lemma {:induction false} SnocEntries(d: Dict, items: seq<Item>, x: Item)
    requires DictOf(d, items) && DistinctKeys(d)
    ensures var e := Insert(d, x.0, x.1); forall a | 0 <= a < |e| :: ComesFrom(e[a], items + [x])
  {
    var e, p := Insert(d, x.0, x.1), FirstPlace(d, x.0);
    assert IsLast(items + [x], |items|);
    if p < |d| {
      InsertOld(d, x.0, x.1, p);
    } else {
      InsertNew(d, x.0, x.1);
    }
    forall a | 0 <= a < |e| ensures ComesFrom(e[a], items + [x]) {
      if e[a] != x {
        ComesFromSnoc(e[a], items, x);
      }
    }
  }

  lemma {:induction false} SnocKeys(d: Dict, items: seq<Item>, x: Item, k: int)
    requires DictOf(d, items) && (k == x.0 || FirstPlace(items, k) < |items|)
    ensures var e := Insert(d, x.0, x.1); FirstPlace(e, k) < |e|
  {
    var p, q := FirstPlace(d, x.0), FirstPlace(d, k);
    if p < |d| {
      InsertOld(d, x.0, x.1, p);
      FirstPlaceIs(d[p := x], k, q);
    } else {
      InsertNew(d, x.0, x.1);
      FirstPlaceSnoc(d, x, k);
    }
  }

  lemma {:induction false} SnocOrder(d: Dict, items: seq<Item>, x: Item, a: nat, b: nat)
    requires DictOf(d, items) && a < b < |Insert(d, x.0, x.1)|
    ensures var e := Insert(d, x.0, x.1); FirstPlace(items + [x], e[a].0) < FirstPlace(items + [x], e[b].0)
  {
    var e, p := Insert(d, x.0, x.1), FirstPlace(d, x.0);
    if p < |d| {
      InsertOld(d, x.0, x.1, p);
      assert ComesFrom(d[b], items);
      ComesFromHas(d[b], items);
    } else {
      InsertNew(d, x.0, x.1);
    }
    assert ComesFrom(d[a], items);
    ComesFromHas(d[a], items);
    assert e[a].0 == d[a].0;
    FirstPlaceSnoc(items, x, e[a].0);
    FirstPlaceSnoc(items, x, e[b].0);
    if b < |d| {
      assert ComesFrom(d[b], items);
      ComesFromHas(d[b], items);
    } else {
      assert e[b] == x && forall i | 0 <= i < |items| :: FirstPlace(d, items[i].0) < |d|;
      assert FirstPlace(items, x.0) == |items|;
    }
  }

  /** The comprehension keeps the last value of each key, in the place of the first. */
  lemma {:induction false} FromItemsIs(items: seq<Item>)
    ensures DictOf(FromItems(items), items)
  {
    if items != [] {
      var n := |items| - 1;
      var d, x := FromItems(items[..n]), items[n];
      FromItemsIs(items[..n]);
      FromItemsDistinct(items[..n]);
      assert items == items[..n] + [x];
      SnocEntries(d, items[..n], x);
      forall i | 0 <= i < |items| ensures FirstPlace(FromItems(items), items[i].0) < |FromItems(items)| {
        assert i < n ==> items[..n][i] == items[i];
        SnocKeys(d, items[..n], x, items[i].0);
      }
      forall a, b | 0 <= a < b < |FromItems(items)|
        ensures FirstPlace(items, FromItems(items)[a].0) < FirstPlace(items, FromItems(items)[b].0)
      {
        SnocOrder(d, items[..n], x, a, b);
      }
    }
  }

  /** So the value found under a key is that of the last item with the key. */
  lemma {:induction false} LastItemWins(items: seq<Item>, i: nat)
    requires IsLast(items, i)
    ensures var d := FromItems(items);
            var p := FirstPlace(d, items[i].0);
            p < |d| && d[p] == items[i]
  {
    FromItemsIs(items);
    var d := FromItems(items);
    var p := FirstPlace(d, items[i].0);
    assert ComesFrom(d[p], items);
    var j: nat :| IsLast(items, j) && items[j] == d[p];
    assert i == j;
  }

  // ----- The flat container as a value -----

  datatype Flat = Flat(
    starts: seq<int>,
    ends: seq<int>,
    tokenIds: seq<int>,
    logprobs: seq<real>,
    ranks: seq<Option<int>>,
    decodedTokens: seq<Option<string>>)

  const Empty := Flat([], [], [], [], [], [])

  predicate Aligned(f: Flat) {
    |f.starts| == |f.ends| && |f.tokenIds| == |f.logprobs| == |f.ranks| == |f.decodedTokens|
  }

  /** Positions are ranges inside the data, in order and without overlap; there may be gaps. */
  ghost predicate Valid(f: Flat) {
    && Aligned(f)
    && (forall i | 0 <= i < |f.starts| :: 0 <= f.starts[i] <= f.ends[i] <= |f.logprobs|)
    && (forall i, j | 0 <= i < j < |f.starts| :: f.ends[i] <= f.starts[j])
  }

  function Entries(f: Flat): (s: seq<Item>)
    requires Aligned(f)
    ensures |s| == |f.logprobs|
  {
    seq(|f.logprobs|, i requires 0 <= i < |f.logprobs| =>
      (f.tokenIds[i], Logprob(f.logprobs[i], f.ranks[i], f.decodedTokens[i])))
  }

  ghost function Position(f: Flat, i: nat): Dict
    requires Valid(f) && i < |f.starts|
  {
    FromItems(Entries(f)[f.starts[i]..f.ends[i]])
  }

  /** The list of dictionaries that the container stands for. */
  ghost function View(f: Flat): (v: seq<Dict>)
    requires Valid(f)
    ensures |v| == |f.starts|
  {
    seq(|f.starts|, i requires 0 <= i < |f.starts| => Position(f, i))
  }

  function AddEntry(f: Flat, e: Item): Flat {
    f.(tokenIds := f.tokenIds + [e.0], logprobs := f.logprobs + [e.1.logprob],
       ranks := f.ranks + [e.1.rank], decodedTokens := f.decodedTokens + [e.1.decodedToken])
  }

  function AddEntries(f: Flat, items: seq<Item>): Flat {
    if items == [] then f else AddEntry(AddEntries(f, items[..|items| - 1]), items[|items| - 1])
  }

  /** One more position, holding `items`. */
  function AddPosition(f: Flat, items: seq<Item>): Flat {
    AddEntries(f, items).(starts := f.starts + [|f.logprobs|], ends := f.ends + [|f.logprobs| + |items|])
  }

  lemma {:induction false} AddEntriesAppends(f: Flat, items: seq<Item>)
    requires Aligned(f)
    ensures var g := AddEntries(f, items);
            Aligned(g) && Entries(g) == Entries(f) + items && g.starts == f.starts && g.ends == f.ends
  {
    if items != [] {
      var n := |items| - 1;
      AddEntriesAppends(f, items[..n]);
      var h, g := AddEntries(f, items[..n]), AddEntries(f, items);
      assert Entries(g) == Entries(h) + [items[n]];
      assert items == items[..n] + [items[n]];
    }
  }

  lemma {:induction false} AddedPosition(f: Flat, items: seq<Item>, i: nat)
    requires Valid(f) && Valid(AddPosition(f, items)) && i <= |f.starts|
    ensures Position(AddPosition(f, items), i) == if i < |f.starts| then Position(f, i) else FromItems(items)
  {
    var g := AddPosition(f, items);
    AddEntriesAppends(f, items);
    assert Entries(g) == Entries(f) + items;
    if i < |f.starts| {
      assert Entries(g)[f.starts[i]..f.ends[i]] == Entries(f)[f.starts[i]..f.ends[i]];
    } else {
      assert Entries(g)[|f.logprobs|..|f.logprobs| + |items|] == items;
    }
  }

  lemma {:induction false} AddPositionView(f: Flat, items: seq<Item>)
    requires Valid(f)
    ensures var g := AddPosition(f, items); Valid(g) && View(g) == View(f) + [FromItems(items)]
  {
    var g := AddPosition(f, items);
    AddEntriesAppends(f, items);
    forall i | 0 <= i < |g.starts| ensures Position(g, i) == (View(f) + [FromItems(items)])[i] {
      AddedPosition(f, items, i);
    }
  }

  // ----- Slices -----

  /** Clamping of one slice bound for a positive step, as Python does it. */
  function Clamp(bound: Option<int>, default: nat, n: nat): (r: nat)
    requires default <= n
    ensures r <= n
  {
    match bound
    case None => default
    case Some(b) => if b < 0 then (if b + n < 0 then 0 else b + n) else if b > n then n else b
  }

  function Progression(lo: nat, hi: nat, step: nat): (ps: seq<nat>)
    requires step > 0
    ensures forall i | 0 <= i < |ps| :: lo <= ps[i] < hi
    ensures forall i, j | 0 <= i < j < |ps| :: ps[i] < ps[j]
    decreases hi - lo
  {
    if lo >= hi then [] else [lo] + Progression(lo + step, hi, step)
  }

  /** The positions selected by [start:stop:step]. */
  function Selected(n: nat, start: Option<int>, stop: Option<int>, step: nat): (ps: seq<nat>)
    requires step > 0
    ensures Below(ps, n)
    ensures forall i, j | 0 <= i < j < |ps| :: ps[i] < ps[j]
  {
    Progression(Clamp(start, 0, n), Clamp(stop, n, n), step)
  }

  /** Clamping of one slice bound for a negative step; -1 is before the first position. */
  function ClampDown(bound: Option<int>, default: int, n: nat): (r: int)
    requires -1 <= default < n
    ensures -1 <= r < n
  {
    match bound
    case None => default
    case Some(b) => if b < 0 then (if b + n < 0 then -1 else b + n) else if b >= n then n - 1 else b
  }

  function Regression(hi: int, lo: int, step: nat): (ps: seq<nat>)
    requires step > 0 && -1 <= lo
    ensures forall i | 0 <= i < |ps| :: lo < ps[i] <= hi
    ensures Descending(ps)
    decreases hi - lo
  {
    if hi <= lo then [] else [hi] + Regression(hi - step, lo, step)
  }

  ghost predicate Descending(ps: seq<nat>) {
    forall i, j | 0 <= i < j < |ps| :: ps[i] > ps[j]
  }

  /** The positions selected by [start:stop:step] for any step that Python accepts. */
  function SelectedAny(n: nat, start: Option<int>, stop: Option<int>, step: int): (ps: seq<nat>)
    requires step != 0
    ensures Below(ps, n)
    ensures if step > 0 then Ascending(ps) else Descending(ps)
  {
    if step > 0 then Selected(n, start, stop, step)
    else Regression(ClampDown(start, n - 1, n), ClampDown(stop, -1, n), -step)
  }

  // ----- Python's slices, without clamping -----

  /** A bound given from the end counts backwards. */
  function FromFront(bound: int, n: nat): int {
    if bound < 0 then bound + n else bound
  }

  /** `x` is a whole number of steps, and not a negative one. */
  ghost predicate WholeSteps(x: int, step: nat) {
    exists k: nat :: x == k * step
  }

  /** Position `p` is one of `start`, `start + step`, ... inside the list and before `stop`. */
  ghost predicate InSlice(n: nat, start: Option<int>, stop: Option<int>, step: nat, p: nat) {
    var from := if start.None? then 0 else FromFront(start.value, n);
    p < n && (stop.Some? ==> p < FromFront(stop.value, n)) && WholeSteps(p - if from < 0 then 0 else from, step)
  }

  /** The same for a negative step, which counts down from `start`, or from the last position. */
  ghost predicate InSliceDown(n: nat, start: Option<int>, stop: Option<int>, step: nat, p: nat) {
    var from := if start.None? then n else FromFront(start.value, n);
    p < n && (stop.Some? ==> p > FromFront(stop.value, n)) && WholeSteps((if from < n then from else n - 1) - p, step)
  }

  lemma {:induction false} OneStep(x: int, step: nat)
    requires step > 0
    ensures WholeSteps(x, step) <==> x == 0 || WholeSteps(x - step, step)
    ensures WholeSteps(x, step) ==> x >= 0
  {
    if x == 0 {
      assert x == 0 * step;
    }
    if k: nat :| x == k * step {
      assert k > 0 ==> x - step == (k - 1) * step;
    }
    if k: nat :| x - step == k * step {
      assert x == (k + 1) * step;
    }
  }

  lemma {:induction false} ProgressionIff(lo: nat, hi: nat, step: nat, p: nat)
    requires step > 0
    ensures p in Progression(lo, hi, step) <==> p < hi && WholeSteps(p - lo, step)
    decreases hi - lo
  {
    OneStep(p - lo, step);
    if lo < hi {
      ProgressionIff(lo + step, hi, step, p);
      assert p - lo - step == p - (lo + step);
    }
  }

  lemma {:induction false} RegressionIff(hi: int, lo: int, step: nat, p: nat)
    requires step > 0 && -1 <= lo
    ensures p in Regression(hi, lo, step) <==> lo < p && WholeSteps(hi - p, step)
    decreases hi - lo
  {
    OneStep(hi - p, step);
    if hi > lo {
      RegressionIff(hi - step, lo, step, p);
      assert hi - p - step == hi - step - p;
    }
  }

  lemma {:induction false} SelectedUpIff(n: nat, start: Option<int>, stop: Option<int>, step: nat, p: nat)
    requires step > 0
    ensures p in Selected(n, start, stop, step) <==> InSlice(n, start, stop, step, p)
  {
    ProgressionIff(Clamp(start, 0, n), Clamp(stop, n, n), step, p);
    OneStep(p - Clamp(start, 0, n), step);
    if start.Some? && FromFront(start.value, n) > n {
      OneStep(p - FromFront(start.value, n), step);
    }
  }

  lemma {:induction false} SelectedDownIff(n: nat, start: Option<int>, stop: Option<int>, step: nat, p: nat)
    requires step > 0
    ensures p in Regression(ClampDown(start, n - 1, n), ClampDown(stop, -1, n), step)
            <==> InSliceDown(n, start, stop, step, p)
  {
    RegressionIff(ClampDown(start, n - 1, n), ClampDown(stop, -1, n), step, p);
    OneStep(ClampDown(start, n - 1, n) - p, step);
    if start.Some? && FromFront(start.value, n) < -1 {
      OneStep(FromFront(start.value, n) - p, step);
    }
  }

  /** Which positions a slice selects; `SelectedAny` says in which order. */
  lemma {:induction false} SelectedIff(n: nat, start: Option<int>, stop: Option<int>, step: int, p: nat)
    requires step != 0
    ensures p in SelectedAny(n, start, stop, step)
            <==> if step > 0 then InSlice(n, start, stop, step, p) else InSliceDown(n, start, stop, -step, p)
  {
    if step > 0 {
      SelectedUpIff(n, start, stop, step, p);
    } else {
      SelectedDownIff(n, start, stop, -step, p);
    }
  }

  predicate Below(ps: seq<nat>, n: nat) {
    forall i | 0 <= i < |ps| :: ps[i] < n
  }

  function Pick<T>(s: seq<T>, ps: seq<nat>): (r: seq<T>)
    requires Below(ps, |s|)
    ensures |r| == |ps| && forall i | 0 <= i < |ps| :: r[i] == s[ps[i]]
  {
    seq(|ps|, i requires 0 <= i < |ps| => s[ps[i]])
  }

  /** s[lo:hi] for bounds that are not negative; empty when they cross. */
  function Between<T>(s: seq<T>, lo: nat, hi: nat): seq<T> {
    var h := if hi < |s| then hi else |s|;
    if lo <= h then s[lo..h] else []
  }

  /** The container for the chosen positions, in the order they were chosen. */
  function SliceOf(f: Flat, ps: seq<nat>): Flat
    requires Aligned(f) && ps != [] && Below(ps, |f.starts|)
    requires 0 <= f.starts[ps[0]] && 0 <= f.ends[ps[|ps| - 1]]
  {
    var min, max := f.starts[ps[0]], f.ends[ps[|ps| - 1]];
    Flat(Shift(Pick(f.starts, ps), min), Shift(Pick(f.ends, ps), min),
         Between(f.tokenIds, min, max), Between(f.logprobs, min, max),
         Between(f.ranks, min, max), Between(f.decodedTokens, min, max))
  }

  function Shift(s: seq<int>, base: int): (r: seq<int>)
    ensures |r| == |s| && forall i | 0 <= i < |s| :: r[i] == s[i] - base
  {
    seq(|s|, i requires 0 <= i < |s| => s[i] - base)
  }

  ghost predicate Chosen(f: Flat, ps: seq<nat>) {
    Valid(f) && ps != [] && Below(ps, |f.starts|)
  }

  ghost predicate Ascending(ps: seq<nat>) {
    forall i, j | 0 <= i < j < |ps| :: ps[i] < ps[j]
  }

  lemma {:induction false} SliceBounds(f: Flat, ps: seq<nat>, i: nat)
    requires Chosen(f, ps) && Ascending(ps) && i < |ps|
    ensures f.starts[ps[0]] <= f.starts[ps[i]] <= f.ends[ps[i]] <= f.ends[ps[|ps| - 1]] <= |f.logprobs|
  {
    Ordered(f, ps[0], ps[i]);
    Ordered(f, ps[i], ps[|ps| - 1]);
  }

  lemma {:induction false} SliceEntries(f: Flat, ps: seq<nat>)
    requires Chosen(f, ps) && Ascending(ps)
    ensures f.starts[ps[0]] <= f.ends[ps[|ps| - 1]] <= |f.logprobs|
    ensures var g := SliceOf(f, ps);
            Aligned(g) && Entries(g) == Entries(f)[f.starts[ps[0]]..f.ends[ps[|ps| - 1]]]
  {
    SliceBounds(f, ps, 0);
  }

  lemma {:induction false} SliceValid(f: Flat, ps: seq<nat>)
    requires Chosen(f, ps) && Ascending(ps)
    ensures Valid(SliceOf(f, ps))
  {
    SliceEntries(f, ps);
    forall i | 0 <= i < |ps|
      ensures 0 <= SliceOf(f, ps).starts[i] <= SliceOf(f, ps).ends[i] <= |SliceOf(f, ps).logprobs|
    {
      SliceBounds(f, ps, i);
    }
  }

  lemma {:induction false} SlicedPosition(f: Flat, ps: seq<nat>, i: nat)
    requires Chosen(f, ps) && Ascending(ps) && i < |ps| && Valid(SliceOf(f, ps))
    ensures Position(SliceOf(f, ps), i) == Position(f, ps[i])
  {
    SliceEntries(f, ps);
    SliceBounds(f, ps, i);
    InnerSlice(Entries(f), f.starts[ps[0]], f.ends[ps[|ps| - 1]], f.starts[ps[i]], f.ends[ps[i]]);
  }

  /** Slicing forwards, with any step, selects the same dictionaries and gives a usable container. */
  lemma {:induction false} ForwardSlice(f: Flat, ps: seq<nat>)
    requires Chosen(f, ps) && Ascending(ps)
    ensures var g := SliceOf(f, ps); Valid(g) && View(g) == Pick(View(f), ps)
  {
    SliceValid(f, ps);
    forall i | 0 <= i < |ps| ensures Position(SliceOf(f, ps), i) == Position(f, ps[i]) {
      SlicedPosition(f, ps, i);
    }
  }

  lemma {:induction false} InnerSlice<T>(s: seq<T>, lo: nat, hi: nat, a: nat, b: nat)
    requires lo <= a <= b <= hi <= |s|
    ensures s[lo..hi][a - lo..b - lo] == s[a..b]
  {
    var x, y := s[lo..hi][a - lo..b - lo], s[a..b];
    forall i | 0 <= i < |y| ensures x[i] == y[i] {
      assert x[i] == s[lo..hi][a - lo + i];
    }
  }

  lemma {:induction false} Ordered(f: Flat, p: nat, q: nat)
    requires Valid(f) && p <= q < |f.starts|
    ensures f.starts[p] <= f.starts[q] && f.ends[p] <= f.ends[q]
  {
  }

  /** Python accepts `k` as an index into a list of length `n`. */
  predicate Indexable(n: nat, k: int) {
    0 - n <= k < n
  }

  /** Reading position `i` stays inside the lists. */
  predicate Readable(f: Flat, i: nat)
    requires i < |f.starts| && |f.starts| == |f.ends|
  {
    forall k | f.starts[i] <= k < f.ends[i] :: Indexable(|f.logprobs|, k)
  }

  lemma {:induction false} EmptyPosition(f: Flat, i: nat)
    requires Valid(f) && i < |f.starts|
    ensures f.starts[i] == f.ends[i] <==> View(f)[i] == []
  {
    var items := Entries(f)[f.starts[i]..f.ends[i]];
    if items != [] {
      assert |Insert(FromItems(items[..|items| - 1]), items[|items| - 1].0, items[|items| - 1].1)| > 0;
    }
  }

  /** Slicing backwards over two or more positions keeps no data: only empty positions can be read. */
  lemma {:induction false} BackwardSlice(f: Flat, ps: seq<nat>)
    requires Chosen(f, ps) && |ps| >= 2 && Descending(ps)
    ensures var g := SliceOf(f, ps);
            forall i | 0 <= i < |ps| :: Readable(g, i) <==> f.starts[ps[i]] == f.ends[ps[i]]
  {
    var g := SliceOf(f, ps);
    assert f.ends[ps[|ps| - 1]] <= f.starts[ps[0]];
    assert g.logprobs == [];
    forall i | 0 <= i < |ps| ensures Readable(g, i) <==> f.starts[ps[i]] == f.ends[ps[i]] {
      assert 0 <= f.starts[ps[i]] <= f.ends[ps[i]];
      if f.starts[ps[i]] < f.ends[ps[i]] {
        assert !Indexable(0, g.starts[i]);
      }
    }
  }

  /** Forwards `g` reads as the chosen positions of `f`; backwards only those without entries can be read. */
  ghost predicate SliceReads(f: Flat, ps: seq<nat>, g: Flat)
    requires Chosen(f, ps)
  {
    if Ascending(ps) then Valid(g) && View(g) == Pick(View(f), ps)
    else |g.starts| == |g.ends| == |ps| && forall i | 0 <= i < |ps| :: Readable(g, i) <==> View(f)[ps[i]] == []
  }

  lemma {:induction false} SliceReadsAs(f: Flat, ps: seq<nat>)
    requires Chosen(f, ps) && (Ascending(ps) || Descending(ps))
    ensures SliceReads(f, ps, SliceOf(f, ps))
  {
    if Ascending(ps) {
      ForwardSlice(f, ps);
    } else {
      BackwardSlice(f, ps);
      forall i | 0 <= i < |ps| ensures f.starts[ps[i]] == f.ends[ps[i]] <==> View(f)[ps[i]] == [] {
        EmptyPosition(f, ps[i]);
      }
    }
  }

  function ItemsOf(d: Option<Dict>): seq<Item> {
    match d case None => [] case Some(items) => items
  }

  /** What a list of appended dictionaries reads back as. */
  function Stored(ds: seq<Option<Dict>>): (r: seq<Dict>)
    ensures |r| == |ds|
  {
    seq(|ds|, i requires 0 <= i < |ds| => FromItems(ItemsOf(ds[i])))
  }

  function AddPositions(f: Flat, ds: seq<Option<Dict>>): Flat {
    if ds == [] then f else AddPosition(AddPositions(f, ds[..|ds| - 1]), ItemsOf(ds[|ds| - 1]))
  }

  lemma {:induction false} AddPositionsView(f: Flat, ds: seq<Option<Dict>>)
    requires Valid(f)
    ensures var g := AddPositions(f, ds); Valid(g) && View(g) == View(f) + Stored(ds)
  {
    if ds != [] {
      var n := |ds| - 1;
      AddPositionsView(f, ds[..n]);
      AddPositionView(AddPositions(f, ds[..n]), ItemsOf(ds[n]));
      assert Stored(ds) == Stored(ds[..n]) + [FromItems(ItemsOf(ds[n]))];
    }
  }

  // ----- The container itself -----

  datatype Result<T> = Ok(value: T) | IndexError | ValueError

  class FlatLogprobs {
    var startIndices: seq<int>
    var endIndices: seq<int>
    var tokenIds: seq<int>
    var logprobs: seq<real>
    var ranks: seq<Option<int>>
    var decodedTokens: seq<Option<string>>

    function Contents(): Flat
      reads this
    {
      Flat(startIndices, endIndices, tokenIds, logprobs, ranks, decodedTokens)
    }

    constructor (f: Flat)
      ensures Contents() == f
    {
      startIndices, endIndices := f.starts, f.ends;
      tokenIds, logprobs, ranks, decodedTokens := f.tokenIds, f.logprobs, f.ranks, f.decodedTokens;
    }

    method PushAll(items: seq<Item>)
      requires Valid(Contents())
      modifies this
      ensures Contents() == AddPosition(old(Contents()), items)
    {
      ghost var f := Contents();
      startIndices := startIndices + [|logprobs|];
      for i := 0 to |items|
        invariant Contents() == AddEntries(f, items[..i]).(starts := f.starts + [|f.logprobs|])
      {
        assert items[..i + 1][..i] == items[..i];
        AddEntriesAppends(f, items[..i]);
        tokenIds := tokenIds + [items[i].0];
        logprobs := logprobs + [items[i].1.logprob];
        ranks := ranks + [items[i].1.rank];
        decodedTokens := decodedTokens + [items[i].1.decodedToken];
      }
      assert items[..|items|] == items;
      AddEntriesAppends(f, items);
      endIndices := endIndices + [|logprobs|];
    }

    method Append(d: Option<Dict>)
      requires Valid(Contents())
      modifies this
      ensures Contents() == AddPosition(old(Contents()), ItemsOf(d))
      ensures Valid(Contents()) && View(Contents()) == old(View(Contents())) + [FromItems(ItemsOf(d))]
    {
      AddPositionView(Contents(), ItemsOf(d));
      PushAll(if d.Some? then d.value else []);
    }

    method AppendFast(ids: seq<int>, lps: seq<real>, rks: seq<Option<int>>, decoded: seq<Option<string>>)
      requires Valid(Contents())
      modifies this
      ensures Contents() == AddPosition(old(Contents()), Zip(ids, lps, rks, decoded))
      ensures Valid(Contents()) && View(Contents()) == old(View(Contents())) + [FromItems(Zip(ids, lps, rks, decoded))]
    {
      AddPositionView(Contents(), Zip(ids, lps, rks, decoded));
      PushAll(Zip(ids, lps, rks, decoded));
    }

    method Extend(ds: seq<Option<Dict>>)
      requires Valid(Contents())
      modifies this
      ensures Contents() == AddPositions(old(Contents()), ds)
      ensures Valid(Contents()) && View(Contents()) == old(View(Contents())) + Stored(ds)
    {
      ghost var f := Contents();
      for i := 0 to |ds|
        invariant Valid(Contents()) && Contents() == AddPositions(f, ds[..i])
      {
        Append(ds[i]);
        assert ds[..i + 1][..i] == ds[..i];
      }
      assert ds[..|ds|] == ds;
      AddPositionsView(f, ds);
    }

    /** The dict comprehension of one position. */
    method ReadEntries(lo: nat, hi: nat) returns (d: Dict)
      requires Aligned(Contents()) && lo <= hi <= |logprobs|
      ensures d == FromItems(Entries(Contents())[lo..hi])
    {
      ghost var all := Entries(Contents())[lo..hi];
      d := [];
      for i := lo to hi
        invariant d == FromItems(all[..i - lo])
      {
        FromItemsNext(all, i - lo);
        assert all[i - lo] == (tokenIds[i], Logprob(logprobs[i], ranks[i], decodedTokens[i]));
        d := Insert(d, tokenIds[i], Logprob(logprobs[i], ranks[i], decodedTokens[i]));
      }
      assert all[..|all|] == all;
    }

    method GetItem(index: int) returns (r: Result<Dict>)
      requires Valid(Contents())
      ensures var n := |startIndices|;
              r == if -n <= index < n
                   then Ok(View(Contents())[if index < 0 then index + n else index])
                   else IndexError
      ensures r.Ok? ==>
                var p := if index < 0 then index + |startIndices| else index;
                DictOf(r.value, Entries(Contents())[startIndices[p]..endIndices[p]])
    {
      var n := |startIndices|;
      if index < -n || index >= n {
        return IndexError;
      }
      var p := if index < 0 then index + n else index;
      var d := ReadEntries(startIndices[p], endIndices[p]);
      FromItemsIs(Entries(Contents())[startIndices[p]..endIndices[p]]);
      return Ok(d);
    }

    /**
      [start:stop:step].  A slice that selects nothing raises.  Forwards, and for a single position, the
      result reads as the slice of the list; backwards only the positions without entries can be read.
    */
    method GetSlice(start: Option<int>, stop: Option<int>, step: int) returns (r: Result<FlatLogprobs>)
      requires Valid(Contents())
      ensures step == 0 ==> r == ValueError
      ensures step != 0 ==>
                var ps := SelectedAny(|startIndices|, start, stop, step);
                && (ps == [] ==> r == IndexError)
                && (ps != [] ==>
                      && r.Ok? && fresh(r.value) && r.value.Contents() == SliceOf(Contents(), ps)
                      && SliceReads(Contents(), ps, r.value.Contents()))
    {
      if step == 0 {
        return ValueError;
      }
      var ps := SelectedAny(|startIndices|, start, stop, step);
      if ps == [] {
        return IndexError;
      }
      SliceReadsAs(Contents(), ps);
      var g := new FlatLogprobs(SliceOf(Contents(), ps));
      return Ok(g);
    }
  }

  function Min(a: nat, b: nat): nat {
    if a < b then a else b
  }

  /** zip of the four lists: as long as the shortest. */
  function Zip(ids: seq<int>, lps: seq<real>, rks: seq<Option<int>>, decoded: seq<Option<string>>): seq<Item> {
    var n := Min(Min(|ids|, |lps|), Min(|rks|, |decoded|));
    seq(n, i requires 0 <= i < n => (ids[i], Logprob(lps[i], rks[i], decoded[i])))
  }

  // ----- Any sequence of operations -----

  datatype Op =
    | Append(d: Option<Dict>)
    | AppendFast(ids: seq<int>, lps: seq<real>, rks: seq<Option<int>>, decoded: seq<Option<string>>)
    | Extend(ds: seq<Option<Dict>>)
    | Slice(start: Option<int>, stop: Option<int>, step: nat)

  predicate ProperOp(op: Op) {
    match op
    case Append(Some(d)) => DistinctKeys(d)
    case Extend(ds) => forall d <- ds :: d.Some? ==> DistinctKeys(d.value)
    case Slice(_, _, step) => step > 0
    case _ => true
  }

  /** The same operation on a plain list of dictionaries, with None stored as an empty one. */
  function OnList(l: seq<Dict>, op: Op): seq<Dict>
    requires ProperOp(op)
  {
    match op
    case Append(d) => l + [ItemsOf(d)]
    case AppendFast(ids, lps, rks, decoded) => l + [FromItems(Zip(ids, lps, rks, decoded))]
    case Extend(ds) => l + seq(|ds|, i requires 0 <= i < |ds| => ItemsOf(ds[i]))
    case Slice(start, stop, step) => Pick(l, Selected(|l|, start, stop, step))
  }

  function RunList(ops: seq<Op>): seq<Dict>
    requires forall op <- ops :: ProperOp(op)
  {
    if ops == [] then [] else OnList(RunList(ops[..|ops| - 1]), ops[|ops| - 1])
  }

  /** The container raises where the list would give an empty slice. */
  predicate EmptySlice(l: seq<Dict>, op: Op) {
    op.Slice? && op.step > 0 && Selected(|l|, op.start, op.stop, op.step) == []
  }

  /** The container after `op`, as the methods above compute it; None when it raises. */
  function OnFlat(f: Flat, op: Op): Option<Flat>
    requires Valid(f) && ProperOp(op)
  {
    match op
    case Append(d) => Some(AddPosition(f, ItemsOf(d)))
    case AppendFast(ids, lps, rks, decoded) => Some(AddPosition(f, Zip(ids, lps, rks, decoded)))
    case Extend(ds) => Some(AddPositions(f, ds))
    case Slice(start, stop, step) =>
      var ps := Selected(|f.starts|, start, stop, step);
      if ps == [] then None else Some(SliceOf(f, ps))
  }

  lemma {:induction false} StepRefines(f: Flat, op: Op)
    requires Valid(f) && ProperOp(op)
    ensures OnFlat(f, op) == None <==> EmptySlice(View(f), op)
    ensures var g := OnFlat(f, op); g.Some? ==> Valid(g.value) && View(g.value) == OnList(View(f), op)
  {
    match op
    case Append(d) =>
      AddPositionView(f, ItemsOf(d));
      FromItemsOfDict(ItemsOf(d));
    case AppendFast(ids, lps, rks, decoded) =>
      AddPositionView(f, Zip(ids, lps, rks, decoded));
    case Extend(ds) =>
      AddPositionsView(f, ds);
      forall i | 0 <= i < |ds| ensures FromItems(ItemsOf(ds[i])) == ItemsOf(ds[i]) {
        assert ds[i] in ds;
        FromItemsOfDict(ItemsOf(ds[i]));
      }
    case Slice(start, stop, step) =>
      var ps := Selected(|f.starts|, start, stop, step);
      if ps != [] {
        ForwardSlice(f, ps);
      }
  }

  /** `f` is what `ops` make of a new container, none of them raising. */
  ghost predicate Reaches(ops: seq<Op>, f: Flat) {
    if ops == [] then f == Empty
    else
      var n := |ops| - 1;
      ProperOp(ops[n]) && exists g :: Reaches(ops[..n], g) && Valid(g) && OnFlat(g, ops[n]) == Some(f)
  }

  /** Refinement: every run of the container reads like the same run on a plain list. */
  lemma {:induction false} RunRefines(ops: seq<Op>, f: Flat)
    requires (forall op <- ops :: ProperOp(op)) && Reaches(ops, f)
    ensures Valid(f) && View(f) == RunList(ops)
    ensures forall op | ProperOp(op) :: OnFlat(f, op).Some? <==> !EmptySlice(RunList(ops), op)
    decreases |ops|
  {
    if ops != [] {
      var n := |ops| - 1;
      var g :| Reaches(ops[..n], g) && Valid(g) && OnFlat(g, ops[n]) == Some(f);
      RunRefines(ops[..n], g);
      StepRefines(g, ops[n]);
    }
    forall op | ProperOp(op) ensures OnFlat(f, op).Some? <==> !EmptySlice(View(f), op) {
      StepRefines(f, op);
    }
  }

  // ----- append_logprobs_for_next_position -----

  datatype Args = Args(ids: seq<int>, lps: seq<real>, decoded: seq<Option<string>>, rank: int, numLogprobs: int)

  /** The sampled token's rank, then 1, 2, ... for the top-k. */
  function Ranks(a: Args): seq<Option<int>> {
    var n := if a.numLogprobs == -1 then |a.lps| else a.numLogprobs;
    [Some(a.rank)] + if n > 0 then seq(n, i => Some(i + 1)) else []
  }

  /** The list branch. */
  function AppendToList(l: seq<Option<Dict>>, a: Args): seq<Option<Dict>> {
    l + [Some(FromItems(Zip(a.ids, a.lps, Ranks(a), a.decoded)))]
  }

  /** The flat branch. */
  method AppendToFlat(f: FlatLogprobs, a: Args)
    requires Valid(f.Contents())
    modifies f
    ensures f.Contents() == AddPosition(old(f.Contents()), Zip(a.ids, a.lps, Ranks(a), a.decoded))
  {
    f.AppendFast(a.ids, a.lps, Ranks(a), a.decoded);
  }

  /** create_prompt_logprobs: the first prompt token has no logprobs. */
  function CreateList(prompt: bool): seq<Option<Dict>> {
    if prompt then [None] else []
  }

  function CreateFlat(prompt: bool): Flat {
    if prompt then AddPosition(Empty, []) else Empty
  }

  function RunListBranch(prompt: bool, calls: seq<Args>): seq<Option<Dict>> {
    if calls == [] then CreateList(prompt)
    else AppendToList(RunListBranch(prompt, calls[..|calls| - 1]), calls[|calls| - 1])
  }

  function RunFlatBranch(prompt: bool, calls: seq<Args>): Flat {
    if calls == [] then CreateFlat(prompt)
    else
      var a := calls[|calls| - 1];
      AddPosition(RunFlatBranch(prompt, calls[..|calls| - 1]), Zip(a.ids, a.lps, Ranks(a), a.decoded))
  }

  /** The flat container reads back the very dictionaries the list stores. */
  ghost predicate Agree(f: Flat, l: seq<Option<Dict>>) {
    && Valid(f) && |View(f)| == |l| && AllDicts(l)
    && forall i | 0 <= i < |l| :: View(f)[i] == ItemsOf(l[i])
  }

  lemma {:induction false} AppendAgrees(f: Flat, l: seq<Option<Dict>>, items: seq<Item>)
    requires Agree(f, l)
    ensures Agree(AddPosition(f, items), l + [Some(FromItems(items))])
  {
    AddPositionView(f, items);
    FromItemsDistinct(items);
  }

  /** Both branches agree. */
  lemma {:induction false} BranchesAgree(prompt: bool, calls: seq<Args>)
    ensures Agree(RunFlatBranch(prompt, calls), RunListBranch(prompt, calls))
  {
    if calls == [] {
      AddPositionView(Empty, []);
    } else {
      var n := |calls| - 1;
      BranchesAgree(prompt, calls[..n]);
      AppendAgrees(RunFlatBranch(prompt, calls[..n]), RunListBranch(prompt, calls[..n]),
                   Zip(calls[n].ids, calls[n].lps, Ranks(calls[n]), calls[n].decoded));
    }
  }

  /** What one call has to store, place by place. */
  lemma {:induction false} CallItems(a: Args, i: nat)
    ensures var items := Zip(a.ids, a.lps, Ranks(a), a.decoded);
            var n := if a.numLogprobs == -1 then |a.lps| else a.numLogprobs;
            && (i < |items| <==> i < |a.ids| && i < |a.lps| && i < |a.decoded| && (i == 0 || i <= n))
            && (i < |items| ==>
                  items[i] == (a.ids[i], Logprob(a.lps[i], Some(if i == 0 then a.rank else i), a.decoded[i])))
  {
  }

  /**
    The comment in the code has it that a sampled token among the top-k needs no special case, since it is stored with
    the same data twice.  It reads back with its own rank if and only if it is not repeated or its last place in
    the top-k is that rank.
  */
  lemma {:induction false} SampledRankKeptIff(a: Args, last: nat)
    requires var items := Zip(a.ids, a.lps, Ranks(a), a.decoded); IsLast(items, last) && items[last].0 == items[0].0
    ensures var d := FromItems(Zip(a.ids, a.lps, Ranks(a), a.decoded));
            var p := FirstPlace(d, a.ids[0]);
            && p < |d| && d[p].1 == Logprob(a.lps[last], Some(if last == 0 then a.rank else last), a.decoded[last])
            && (d[p].1.rank == Some(a.rank) <==> last == 0 || last == a.rank)
  {
    LastItemWins(Zip(a.ids, a.lps, Ranks(a), a.decoded), last);
    CallItems(a, last);
    CallItems(a, 0);
  }

  /** After any calls, position by position: the list holds the dictionary of what the call had to store. */
  lemma {:induction false} CallIsStored(prompt: bool, calls: seq<Args>, i: nat)
    requires i < |calls|
    ensures var l, at := RunListBranch(prompt, calls), if prompt then i + 1 else i;
            && |l| == |calls| + (if prompt then 1 else 0) && (prompt ==> l[0] == None)
            && l[at].Some?
            && DictOf(l[at].value, Zip(calls[i].ids, calls[i].lps, Ranks(calls[i]), calls[i].decoded))
  {
    var n := |calls| - 1;
    if i < n {
      CallIsStored(prompt, calls[..n], i);
    } else {
      ListLength(prompt, calls);
      FromItemsIs(Zip(calls[i].ids, calls[i].lps, Ranks(calls[i]), calls[i].decoded));
    }
  }

  lemma {:induction false} ListLength(prompt: bool, calls: seq<Args>)
    ensures var l := RunListBranch(prompt, calls);
            |l| == |calls| + (if prompt then 1 else 0) && (prompt ==> l[0] == None)
  {
    if calls != [] {
      ListLength(prompt, calls[..|calls| - 1]);
    }
  }

  ghost predicate AllDicts(l: seq<Option<Dict>>) {
    forall i | 0 <= i < |l| && l[i].Some? :: DistinctKeys(l[i].value)
  }
}
