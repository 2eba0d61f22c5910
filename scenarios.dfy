/**
 * Two small queries over integer tokens and integer contexts, compiled and
 * run: one threads a captured token through the context, the other
 * skips ignored tokens.
 */
module Scenarios {
  import opened Automaton
  import opened Pattern
  import opened Builder
  import opened Thompson
  import opened Matcher
  import opened Query

  /** Accepts any token and captures it as the new context. */
  function Capture(): Match<int, int>
  {
    (c: int, t: int) => MatchResult(true, t)
  }

  /** Accepts only the token equal to the captured context, which it keeps. */
  function SameAsCaptured(): Match<int, int>
  {
    (c: int, t: int) => MatchResult(c == t, c)
  }

  /** Accepts exactly the token `k`, leaving the context alone. */
  function Is(k: int): Match<int, int>
  {
    (c: int, t: int) => MatchResult(t == k, c)
  }

  function CaptureThenSame(): SequenceQuery<int, int>
  {
    SequenceQuery(Literal(Capture())).ThenMatch(SameAsCaptured())
  }

  /** "a token, then the same token again": `[1, 1]` matches with context 1, `[1, 2]` does not match. */
  lemma CaptureThenSameResults(d: int)
    ensures d in Results(CaptureThenSame().token, 0, [1, 1]) <==> d == 1
    ensures d !in Results(CaptureThenSame().token, 0, [1, 2])
  {
    var q := CaptureThenSame();
    var same: seq<int> := [1, 1];
    var different: seq<int> := [1, 2];
    assert same[..1] == [1] && same[1..] == [1];
    if d in Results(q.token, 0, same) {
      var j, c1 := ConcatSplit(Literal(Capture()), Literal(SameAsCaptured()), 0, same, d);
      assert |same[..j]| == 1;
    }
    if d == 1 {
      assert 1 in Results(Literal(Capture()), 0, same[..1]);
      ConcatJoin(Literal(Capture()), Literal(SameAsCaptured()), 0, same, d, 1, 1);
    }
    if d in Results(q.token, 0, different) {
      var j, c1 := ConcatSplit(Literal(Capture()), Literal(SameAsCaptured()), 0, different, d);
    }
  }

  /**
   * `contextMatches` on the compiled capture query: `[1, 1]` yields the one
   * context 1, `[1, 2]` yields none.
   */
  method CaptureExample() returns (repeated: seq<int>, different: seq<int>)
    ensures repeated == [1]
    ensures different == []
  {
    var q := CaptureThenSame();
    var m := q.Compile(Never());
    repeated := m.ContextMatches([1, 1], 0);
    different := m.ContextMatches([1, 2], 0);
    forall d | d in repeated ensures d == 1 {
      CompileCorrect(q.token, 0, [1, 1], d);
      CaptureThenSameResults(d);
    }
    CompileCorrect(q.token, 0, [1, 1], 1);
    CaptureThenSameResults(1);
    OnlyElement(repeated, 1);
    if different != [] {
      CompileCorrect(q.token, 0, [1, 2], different[0]);
      CaptureThenSameResults(different[0]);
      assert false;
    }
  }

  /** A duplicate-free sequence that holds `x` and nothing else is `[x]`. */
  lemma OnlyElement(xs: seq<int>, x: int)
    requires forall i, j | 0 <= i < j < |xs| :: xs[i] != xs[j]
    requires x in xs && forall y | y in xs :: y == x
    ensures xs == [x]
  {
    if |xs| > 1 {
      FirstTwoEqual(xs, x);
      assert false;
    }
  }

  lemma FirstTwoEqual(xs: seq<int>, x: int)
    requires |xs| > 1 && forall y | y in xs :: y == x
    ensures xs[0] == xs[1]
  {
    assert xs[0] in xs && xs[1] in xs;
  }

  /** Ignores the token 3 and leaves the context alone. */
  function IgnoreThree(): Match<int, int>
  {
    (c: int, t: int) => MatchResult(t == 3, c)
  }

  predicate IsThree(t: int)
  {
    t == 3
  }

  lemma FilterThrees()
    ensures Filter(IsThree, [3, 1, 3, 2, 3]) == [1, 2]
  {
    var s: seq<int> := [3, 1, 3, 2, 3];
    assert s[1..] == [1, 3, 2, 3] && s[1..][1..] == [3, 2, 3];
    assert s[1..][1..][1..] == [2, 3] && s[1..][1..][1..][1..] == [3];
  }

  lemma OneThenTwo()
    ensures 0 in Results(Concat(Literal(Is(1)), Literal(Is(2))), 0, [1, 2])
  {
    var t: seq<int> := [1, 2];
    assert t[..1] == [1] && t[1..] == [2];
    ConcatJoin(Literal(Is(1)), Literal(Is(2)), 0, t, 0, 1, 0);
  }

  /** "a 1, then a 2", run with 3 ignored: ignored tokens may come before, between and after. */
  method IgnoreExample() returns (found: bool)
    ensures found
  {
    var q := SequenceQuery(Literal(Is(1))).ThenMatch(Is(2));
    var m := q.Compile(IgnoreThree());
    found := m.Matches([3, 1, 3, 2, 3], 0);
    IgnoringIsFiltering(m.states, IgnoreThree(), IsThree, m.start, 0, [3, 1, 3, 2, 3]);
    FilterThrees();
    OneThenTwo();
    CompileCorrect(q.token, 0, [1, 2], 0);
  }
}
