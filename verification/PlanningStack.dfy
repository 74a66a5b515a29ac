/**
  The memory-planning pass of vllm/env_override.py: drop the pointless trailing planning
  lines, then plan every remaining planning line in the state of the subgraph it stands in,
  with a stack of states for nested subgraphs.

  States are numbered in the order they are created: 0 is the outermost one and the n-th
  Enter line creates state n.
*/
module PlanningStack {

  datatype Line =
    | Planning(node: string)
    | Planned(node: string, state: nat)
    | Enter
    | Exit
    | Other

  datatype Outcome = Retired(states: seq<nat>) | IndexError | AssertionError

  // ----- The nesting of a line list, independent of any stack -----

  function EntersBefore(lines: seq<Line>, i: nat): nat
    requires i <= |lines|
  {
    if i == 0 then 0
    else EntersBefore(lines, i - 1) + if lines[i - 1].Enter? then 1 else 0
  }

  function ExitsBefore(lines: seq<Line>, i: nat): nat
    requires i <= |lines|
  {
    if i == 0 then 0
    else ExitsBefore(lines, i - 1) + if lines[i - 1].Exit? then 1 else 0
  }

  /** How deep line `i` stands; 1 is outside every subgraph. */
  function DepthAt(lines: seq<Line>, i: nat): int
    requires i <= |lines|
  {
    1 + EntersBefore(lines, i) - ExitsBefore(lines, i)
  }

  /** The subgraph entered at line `j` has not been left before line `i`. */
  ghost predicate OpenAt(lines: seq<Line>, j: nat, i: nat)
    requires i <= |lines|
  {
    j < i && lines[j].Enter? && forall k | j < k <= i :: DepthAt(lines, j + 1) <= DepthAt(lines, k)
  }

  ghost predicate Innermost(lines: seq<Line>, j: nat, i: nat)
    requires i <= |lines|
  {
    OpenAt(lines, j, i) && forall m | j < m < i :: !OpenAt(lines, m, i)
  }

  /** `s` is the state of the innermost subgraph around line `i`. */
  ghost predicate StateOf(lines: seq<Line>, i: nat, s: nat)
    requires i <= |lines|
  {
    if s == 0 then forall j | 0 <= j < i :: !OpenAt(lines, j, i)
    else exists j :: 0 <= j < i && Innermost(lines, j, i) && s == EntersBefore(lines, j) + 1
  }

  /** Line `k` neither plans in nor leaves a subgraph when there is none. */
  predicate StepAllowed(lines: seq<Line>, k: nat)
    requires k < |lines|
  {
    lines[k].Planning? || lines[k].Exit? ==> DepthAt(lines, k) >= 1
  }

  ghost predicate StepsAllowed(lines: seq<Line>, n: nat)
    requires n <= |lines|
  {
    forall k | 0 <= k < n :: StepAllowed(lines, k)
  }

  ghost predicate Accepted(lines: seq<Line>) {
    StepsAllowed(lines, |lines|) && DepthAt(lines, |lines|) == 1
  }

  /** Every Exit closes an Enter and every Enter is closed. */
  ghost predicate NestsProperly(lines: seq<Line>) {
    (forall k | 0 <= k <= |lines| :: DepthAt(lines, k) >= 1) && DepthAt(lines, |lines|) == 1
  }

  // ----- Trimming -----

  predicate Pointless(line: Line, outNames: set<string>) {
    line.Planning? && line.node !in outNames
  }

  /** `t` is `lines` without its longest trailing run of planning lines for nodes that are no outputs. */
  ghost predicate TrimmedTo(lines: seq<Line>, outNames: set<string>, t: seq<Line>) {
    && t <= lines
    && (forall i | |t| <= i < |lines| :: lines[i].Planning? && lines[i].node !in outNames)
    && (t != [] ==> var last := t[|t| - 1]; !last.Planning? || last.node in outNames)
  }

  lemma {:induction false} TrimmedUnique(lines: seq<Line>, outNames: set<string>, t: seq<Line>, u: seq<Line>)
    requires TrimmedTo(lines, outNames, t) && TrimmedTo(lines, outNames, u)
    ensures t == u
  {
    assert t == lines[..|t|] && u == lines[..|u|];
    assert |u| > 0 ==> u[|u| - 1] == lines[|u| - 1];
    assert |t| > 0 ==> t[|t| - 1] == lines[|t| - 1];
  }

  // ----- What the stack holds -----

  /** Where a stack level was opened: before the first line, or by the Enter at `line`. */
  datatype Opening = AtStart | AtLine(line: nat)

  /** Level `d` of the stack before line `i` was opened at `o` and holds state `s`. */
  ghost predicate Level(lines: seq<Line>, i: nat, d: nat, s: nat, o: Opening)
    requires i <= |lines|
  {
    match o
    case AtStart =>
      s == 0 && d == 0 && forall k | 0 <= k <= i :: DepthAt(lines, k) >= 1
    case AtLine(j) =>
      && j < i && lines[j].Enter? && DepthAt(lines, j) == d
      && s == EntersBefore(lines, j) + 1
      && forall k | j < k <= i :: DepthAt(lines, k) > d
  }

  ghost predicate StackAt(lines: seq<Line>, i: nat, stack: seq<nat>, opens: seq<Opening>)
    requires i <= |lines|
  {
    && |stack| == |opens| == DepthAt(lines, i)
    && forall d | 0 <= d < |stack| :: Level(lines, i, d, stack[d], opens[d])
  }

  lemma {:induction false} EntersMonotone(lines: seq<Line>, i: nat, j: nat)
    requires i <= j <= |lines|
    ensures EntersBefore(lines, i) <= EntersBefore(lines, j)
  {
    if i < j {
      EntersMonotone(lines, i, j - 1);
    }
  }

  lemma {:induction false} PushStack(lines: seq<Line>, i: nat, stack: seq<nat>, opens: seq<Opening>)
    requires i < |lines| && StackAt(lines, i, stack, opens) && lines[i].Enter?
    ensures StackAt(lines, i + 1, stack + [EntersBefore(lines, i) + 1], opens + [AtLine(i)])
  {
  }

  lemma {:induction false} PopStack(lines: seq<Line>, i: nat, stack: seq<nat>, opens: seq<Opening>)
    requires i < |lines| && StackAt(lines, i, stack, opens) && lines[i].Exit? && stack != []
    ensures StackAt(lines, i + 1, stack[..|stack| - 1], opens[..|stack| - 1])
  {
  }

  lemma {:induction false} KeepStack(lines: seq<Line>, i: nat, stack: seq<nat>, opens: seq<Opening>)
    requires i < |lines| && StackAt(lines, i, stack, opens) && !lines[i].Exit? && !lines[i].Enter?
    ensures StackAt(lines, i + 1, stack, opens)
  {
  }

  /** The top of the stack is the state of the innermost open subgraph. */
  lemma {:induction false} TopIsInnermost(lines: seq<Line>, i: nat, stack: seq<nat>, opens: seq<Opening>)
    requires i <= |lines| && StackAt(lines, i, stack, opens) && stack != []
    ensures StateOf(lines, i, stack[|stack| - 1])
  {
    var d := |stack| - 1;
    assert Level(lines, i, d, stack[d], opens[d]);
    match opens[d]
    case AtStart =>
      forall j | 0 <= j < i ensures !OpenAt(lines, j, i) {
        assert DepthAt(lines, j) >= 1;
      }
    case AtLine(j) =>
      assert OpenAt(lines, j, i);
      forall m | j < m < i ensures !OpenAt(lines, m, i) {
        assert DepthAt(lines, m) > d;
      }
      assert Innermost(lines, j, i);
  }

  /** Two lines are planned in one state exactly when their innermost subgraph is the same one. */
  lemma {:induction false} SharedStateSameSubgraph(lines: seq<Line>, a: nat, b: nat, s: nat, t: nat)
    requires a <= |lines| && b <= |lines| && StateOf(lines, a, s) && StateOf(lines, b, t)
    ensures s == t <==> forall j: nat | j < |lines| ::
                          (j < a && Innermost(lines, j, a)) <==> (j < b && Innermost(lines, j, b))
  {
    if s != 0 {
      var j :| 0 <= j < a && Innermost(lines, j, a) && s == EntersBefore(lines, j) + 1;
      if t != 0 {
        var k :| 0 <= k < b && Innermost(lines, k, b) && t == EntersBefore(lines, k) + 1;
        if j < k {
          EntersMonotone(lines, j + 1, k);
        } else if k < j {
          EntersMonotone(lines, k + 1, j);
        }
      }
    } else if t != 0 {
      var k :| 0 <= k < b && Innermost(lines, k, b) && t == EntersBefore(lines, k) + 1;
    }
  }

  /** The states created so far, each once: on the stack or retired. */
  ghost predicate EachStateOnce(stack: seq<nat>, past: seq<nat>, created: nat) {
    && |stack| + |past| == created + 1
    && (forall s: nat :: s <= created <==> s in stack + past)
    && (forall a, b | 0 <= a < b < |stack + past| :: (stack + past)[a] != (stack + past)[b])
  }

  lemma {:induction false} PushKeepsOnce(stack: seq<nat>, past: seq<nat>, created: nat)
    requires EachStateOnce(stack, past, created)
    ensures EachStateOnce(stack + [created + 1], past, created + 1)
  {
    var all, next := stack + past, stack + [created + 1] + past;
    assert forall i | 0 <= i < |all| :: all[i] in all;
    forall s: nat ensures s <= created + 1 <==> s in next {
      assert s in next <==> s in all || s == created + 1;
    }
    forall a, b | 0 <= a < b < |next| ensures next[a] != next[b] {
      var old_ := (i: nat) => if i < |stack| then i else i - 1;
      if a != |stack| && b != |stack| {
        assert next[a] == all[old_(a)] && next[b] == all[old_(b)];
      } else if a == |stack| {
        assert next[b] == all[old_(b)];
      } else {
        assert next[a] == all[old_(a)];
      }
    }
  }

  lemma {:induction false} PopKeepsOnce(stack: seq<nat>, past: seq<nat>, created: nat)
    requires EachStateOnce(stack, past, created) && stack != []
    ensures EachStateOnce(stack[..|stack| - 1], past + [stack[|stack| - 1]], created)
  {
    var n := |stack| - 1;
    var all, next := stack + past, stack[..n] + (past + [stack[n]]);
    assert stack == stack[..n] + [stack[n]];
    forall s: nat ensures s in next <==> s in all {
    }
    forall a, b | 0 <= a < b < |next| ensures next[a] != next[b] {
      var from := (i: nat) => if i < n then i else if i == |next| - 1 then n else i + 1;
      assert next[a] == all[from(a)] && next[b] == all[from(b)];
    }
  }

  /** What every line has become after the pass has reached line `n`. */
  ghost predicate PlannedUpTo(before: seq<Line>, after: seq<Line>, n: nat) {
    && |after| == |before| && n <= |before|
    && (forall k | n <= k < |before| :: after[k] == before[k])
    && (forall k | 0 <= k < n :: if before[k].Planning?
                                 then after[k].Planned? && after[k].node == before[k].node
                                      && StateOf(before, k, after[k].state)
                                 else after[k] == before[k])
  }

  /** The state that each Exit among the first `n` lines leaves is retired, in order. */
  ghost predicate RetiredUpTo(lines: seq<Line>, past: seq<nat>, n: nat)
    requires n <= |lines|
  {
    && |past| >= ExitsBefore(lines, n)
    && forall e | 0 <= e < n && lines[e].Exit? ::
         ExitsBefore(lines, e) < |past| && StateOf(lines, e, past[ExitsBefore(lines, e)])
  }

  lemma {:induction false} ExitsMonotone(lines: seq<Line>, i: nat, j: nat)
    requires i <= j <= |lines|
    ensures ExitsBefore(lines, i) <= ExitsBefore(lines, j)
  {
    if i < j {
      ExitsMonotone(lines, i, j - 1);
    }
  }

  lemma {:induction false} RetireMore(lines: seq<Line>, past: seq<nat>, n: nat, s: nat)
    requires n <= |lines| && RetiredUpTo(lines, past, n) && |past| == ExitsBefore(lines, n) && StateOf(lines, n, s)
    ensures RetiredUpTo(lines, past + [s], n)
    ensures n < |lines| && lines[n].Exit? ==> RetiredUpTo(lines, past + [s], n + 1)
  {
    forall e | 0 <= e < n && lines[e].Exit? ensures ExitsBefore(lines, e) < |past| {
      ExitsMonotone(lines, e + 1, n);
    }
  }

  /** The planning states after `n` lines: which are open, which are retired, how many were made. */
  ghost predicate StatesAt(lines: seq<Line>, n: nat, stack: seq<nat>, opens: seq<Opening>, past: seq<nat>, created: nat)
  {
    && n <= |lines| && StepsAllowed(lines, n) && StackAt(lines, n, stack, opens)
    && created == EntersBefore(lines, n) && EachStateOnce(stack, past, created)
    && |past| == ExitsBefore(lines, n) && RetiredUpTo(lines, past, n)
  }

  lemma {:induction false} StatesKept(
    lines: seq<Line>, n: nat, stack: seq<nat>, opens: seq<Opening>, past: seq<nat>, created: nat)
    requires n < |lines| && StatesAt(lines, n, stack, opens, past, created)
    requires !lines[n].Enter? && !lines[n].Exit? && (lines[n].Planning? ==> stack != [])
    ensures StatesAt(lines, n + 1, stack, opens, past, created)
    ensures lines[n].Planning? ==> StateOf(lines, n, stack[|stack| - 1])
  {
    KeepStack(lines, n, stack, opens);
    if lines[n].Planning? {
      TopIsInnermost(lines, n, stack, opens);
    }
  }

  lemma {:induction false} StatesEnter(
    lines: seq<Line>, n: nat, stack: seq<nat>, opens: seq<Opening>, past: seq<nat>, created: nat)
    requires n < |lines| && StatesAt(lines, n, stack, opens, past, created) && lines[n].Enter?
    ensures StatesAt(lines, n + 1, stack + [created + 1], opens + [AtLine(n)], past, created + 1)
  {
    PushKeepsOnce(stack, past, created);
    PushStack(lines, n, stack, opens);
  }

  lemma {:induction false} StatesExit(
    lines: seq<Line>, n: nat, stack: seq<nat>, opens: seq<Opening>, past: seq<nat>, created: nat)
    requires n < |lines| && StatesAt(lines, n, stack, opens, past, created) && lines[n].Exit? && stack != []
    ensures StatesAt(lines, n + 1, stack[..|stack| - 1], opens[..|stack| - 1], past + [stack[|stack| - 1]], created)
  {
    PopKeepsOnce(stack, past, created);
    PopStack(lines, n, stack, opens);
    TopIsInnermost(lines, n, stack, opens);
    RetireMore(lines, past, n, stack[|stack| - 1]);
  }

  lemma {:induction false} StatesEnd(
    lines: seq<Line>, stack: seq<nat>, opens: seq<Opening>, past: seq<nat>, created: nat)
    requires StatesAt(lines, |lines|, stack, opens, past, created) && stack != []
    ensures var s := stack[|stack| - 1];
            && EachStateOnce(stack[..|stack| - 1], past + [s], created)
            && RetiredUpTo(lines, past + [s], |lines|) && StateOf(lines, |lines|, s)
  {
    PopKeepsOnce(stack, past, created);
    TopIsInnermost(lines, |lines|, stack, opens);
    RetireMore(lines, past, |lines|, stack[|stack| - 1]);
  }

  class WrapperCodegen {
    var lines: seq<Line>

    constructor (lines: seq<Line>)
      ensures this.lines == lines
    {
      this.lines := lines;
    }

    method Trim(outNames: set<string>)
      modifies this
      ensures TrimmedTo(old(lines), outNames, lines)
    {
      while lines != [] && Pointless(lines[|lines| - 1], outNames)
        invariant lines <= old(lines)
        invariant forall i | |lines| <= i < |old(lines)| :: Pointless(old(lines)[i], outNames)
        decreases |lines|
      {
        lines := lines[..|lines| - 1];
      }
    }

    /** Plans every line; fails exactly on line lists that are not `Accepted`. */
    method MemoryPlanReuse(outNames: set<string>) returns (r: Outcome, ghost trimmed: seq<Line>)
      modifies this
      ensures TrimmedTo(old(lines), outNames, trimmed)
      ensures r.Retired? <==> Accepted(trimmed)
      ensures r.AssertionError? <==> StepsAllowed(trimmed, |trimmed|) && DepthAt(trimmed, |trimmed|) > 1
      ensures r.Retired? ==>
                && PlannedUpTo(trimmed, lines, |trimmed|)
                && EachStateOnce([], r.states, EntersBefore(trimmed, |trimmed|))
                && |r.states| == ExitsBefore(trimmed, |trimmed|) + 1
                && RetiredUpTo(trimmed, r.states, |trimmed|)
                && StateOf(trimmed, |trimmed|, r.states[|r.states| - 1])
    {
      Trim(outNames);
      trimmed := lines;
      var stack: seq<nat>, past: seq<nat>, created := [0], [], 0;
      ghost var opens := [AtStart];
      for i := 0 to |lines|
        invariant |lines| == |trimmed|
        invariant StatesAt(trimmed, i, stack, opens, past, created)
        invariant PlannedUpTo(trimmed, lines, i)
      {
        match lines[i] {
          case Planning(node) =>
            if stack == [] {
              assert !StepAllowed(trimmed, i);
              return IndexError, trimmed;
            }
            StatesKept(trimmed, i, stack, opens, past, created);
            lines := lines[i := Planned(node, stack[|stack| - 1])];
          case Enter =>
            StatesEnter(trimmed, i, stack, opens, past, created);
            created := created + 1;
            stack, opens := stack + [created], opens + [AtLine(i)];
          case Exit =>
            if stack == [] {
              assert !StepAllowed(trimmed, i);
              return IndexError, trimmed;
            }
            StatesExit(trimmed, i, stack, opens, past, created);
            past := past + [stack[|stack| - 1]];
            stack, opens := stack[..|stack| - 1], opens[..|stack| - 1];
          case _ =>
            StatesKept(trimmed, i, stack, opens, past, created);
        }
      }
      if stack == [] {
        return IndexError, trimmed;
      }
      StatesEnd(trimmed, stack, opens, past, created);
      past := past + [stack[|stack| - 1]];
      stack := stack[..|stack| - 1];
      if stack != [] {
        return AssertionError, trimmed;
      }
      return Retired(past), trimmed;
    }
  }

  lemma {:induction false} EnterThenExit()
    ensures NestsProperly([Enter, Exit])
  {
    var lines := [Enter, Exit];
    assert |lines| == 2;
    assert DepthAt(lines, 1) == 2;
    assert DepthAt(lines, 2) == 1;
    forall k: nat | k <= |lines| ensures DepthAt(lines, k) >= 1 {
      assert k == 0 || k == 1 || k == 2;
    }
  }

  /** Proper nesting is enough for the pass, but the pass also accepts an Exit before its Enter. */
  lemma {:induction false} NestingSuffices(lines: seq<Line>)
    requires NestsProperly(lines)
    ensures Accepted(lines)
    ensures NestsProperly([Enter, Exit])
    ensures Accepted([Exit, Enter]) && !NestsProperly([Exit, Enter])
  {
    EnterThenExit();
    var odd := [Exit, Enter];
    assert DepthAt(odd, 1) == 0 && DepthAt(odd, 2) == 1;
  }
}
