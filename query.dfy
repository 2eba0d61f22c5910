/**
 * The query builder (`SequenceQuery`): combinators that grow an immutable
 * pattern tree, and `compile`, which realises the tree as an automaton in
 * front of EndMatch and wraps it in a matcher together with the ignore
 * predicate.
 */
module Query {
  import opened Automaton
  import opened Pattern
  import opened Builder
  import opened Thompson
  import opened Matcher

  datatype SequenceQuery<!T, !C(==)> = SequenceQuery(token: Partial<T, C>)
  {
    /**
     * A query grown from literals by the combinators: every repeated part
     * reads a token per round, and the query itself reads at least one token.
     */
    predicate Valid()
    {
      WellFormed(token) && !Nullable(token)
    }

    /** `then(Match)`: this query followed by one token the predicate accepts. */
    function ThenMatch(next: Match<T, C>): (q: SequenceQuery<T, C>)
      ensures Valid() ==> q.Valid()
    {
      Then(SequenceQuery(Literal(next)))
    }

    /** `then(SequenceQuery)`: this query immediately followed by `next`. */
    function Then(next: SequenceQuery<T, C>): (q: SequenceQuery<T, C>)
      ensures Valid() && WellFormed(next.token) ==> q.Valid()
    {
      SequenceQuery(Concat(token, next.token))
    }

    /** `or`: this query or `next`. */
    function Or(next: SequenceQuery<T, C>): (q: SequenceQuery<T, C>)
      ensures Valid() && next.Valid() ==> q.Valid()
    {
      SequenceQuery(Partial.Or(token, next.token))
    }

    /** `thenAnyOf`: this query followed by `left` or `right`. */
    function ThenAnyOf(left: SequenceQuery<T, C>, right: SequenceQuery<T, C>): (q: SequenceQuery<T, C>)
      ensures Valid() && WellFormed(left.token) && WellFormed(right.token) ==> q.Valid()
    {
      SequenceQuery(Concat(token, Partial.Or(left.token, right.token)))
    }

    /** `zeroOrMore`: this query followed by any number of matches of `next`. */
    function ZeroOrMore(next: SequenceQuery<T, C>): (q: SequenceQuery<T, C>)
      ensures Valid() && next.Valid() ==> q.Valid()
    {
      SequenceQuery(Concat(token, Repeat(next.token)))
    }

    /** `oneOrMore`: this query followed by at least one match of `next`. */
    function OneOrMore(next: SequenceQuery<T, C>): (q: SequenceQuery<T, C>)
      ensures Valid() && next.Valid() ==> q.Valid()
    {
      SequenceQuery(Concat(token, Plus(next.token)))
    }

    /**
     * `compile(params)`: realises the pattern in front of EndMatch on a fresh
     * arena and pairs the result with the ignore predicate. For a well-formed
     * pattern the matcher can run, and its start state accepts exactly what
     * the pattern matches.
     */
    method Compile(ignore: Match<T, C>) returns (m: SequenceMatcher<T, C>)
      ensures m.ignore == ignore
      ensures Built(m.start, m.states) == Build(token, EndMatch, [])
      ensures WellFormed(token) ==> m.Valid()
    {
      var arena := new Arena();
      var start := arena.Make(token, EndMatch);
      m := NFASequenceMatcher(ignore, arena.states, start);
      if WellFormed(token) {
        CompileValid(token);
      }
    }
  }

  /** `a.then(b)` matches exactly the sequences that split into a match of `a` followed by a match of `b`. */
  lemma {:induction false} ThenMatches<T, C>(a: SequenceQuery<T, C>, b: SequenceQuery<T, C>, c: C, s: seq<T>, d: C)
    ensures d in Results(a.Then(b).token, c, s)
            <==> exists j, c1 :: 0 <= j <= |s| && c1 in Results(a.token, c, s[..j]) && d in Results(b.token, c1, s[j..])
  {
    if d in Results(a.Then(b).token, c, s) {
      var j, c1 := ConcatSplit(a.token, b.token, c, s, d);
    }
    if exists j, c1 :: 0 <= j <= |s| && c1 in Results(a.token, c, s[..j]) && d in Results(b.token, c1, s[j..]) {
      var j, c1 :| 0 <= j <= |s| && c1 in Results(a.token, c, s[..j]) && d in Results(b.token, c1, s[j..]);
      ConcatJoin(a.token, b.token, c, s, d, j, c1);
    }
  }

  /** `a.or(b)` matches what either side matches, with the contexts of both. */
  lemma OrMatches<T, C>(a: SequenceQuery<T, C>, b: SequenceQuery<T, C>, c: C, s: seq<T>)
    ensures Results(a.Or(b).token, c, s) == Results(a.token, c, s) + Results(b.token, c, s)
  {
  }

  /** `x.thenAnyOf(l, r)` is `x.then(l.or(r))`. */
  lemma ThenAnyOfIsThenOr<T, C>(x: SequenceQuery<T, C>, l: SequenceQuery<T, C>, r: SequenceQuery<T, C>)
    ensures x.ThenAnyOf(l, r) == x.Then(l.Or(r))
  {
  }

  /** Zero repetitions are always allowed: `x.zeroOrMore(q)` matches whatever `x` alone matches. */
  lemma ZeroOrMoreKeepsPrefix<T, C>(x: SequenceQuery<T, C>, q: SequenceQuery<T, C>, c: C, s: seq<T>)
    ensures Results(x.token, c, s) <= Results(x.ZeroOrMore(q).token, c, s)
  {
    forall d | d in Results(x.token, c, s) ensures d in Results(x.ZeroOrMore(q).token, c, s) {
      assert s[..|s|] == s && s[|s|..] == [];
      EmptyResults(Repeat(q.token), d);
      ConcatJoin(x.token, Repeat(q.token), c, s, d, |s|, d);
    }
  }

  /** One or more repetitions are among zero or more: `x.oneOrMore(q)` matches only what `x.zeroOrMore(q)` matches. */
  lemma OneOrMoreWithinZeroOrMore<T, C>(x: SequenceQuery<T, C>, q: SequenceQuery<T, C>, c: C, s: seq<T>)
    ensures Results(x.OneOrMore(q).token, c, s) <= Results(x.ZeroOrMore(q).token, c, s)
  {
    forall d | d in Results(x.OneOrMore(q).token, c, s) ensures d in Results(x.ZeroOrMore(q).token, c, s) {
      var j, c1 := ConcatSplit(x.token, Plus(q.token), c, s, d);
      PlusWithinRepeat(q.token, c1, s[j..]);
      ConcatJoin(x.token, Repeat(q.token), c, s, d, j, c1);
    }
  }

  /**
   * End to end: compile a well-formed query with an ignore predicate that
   * looks only at the token, run it over `s` from context `c`; the contexts
   * left at EndMatch are exactly those with which the query matches `s` with
   * the ignored tokens taken out.
   */
  lemma CompiledQueryMatches<T, C>(q: SequenceQuery<T, C>, ignore: Match<T, C>, skip: T -> bool, c: C, s: seq<T>, d: C)
    requires WellFormed(q.token)
    requires forall e: C, t: T :: ignore(e, t).result == skip(t)
    ensures var b := Build(q.token, EndMatch, []);
            var m := NFASequenceMatcher(ignore, b.states, b.entry);
            m.Valid() && (d in m.Ends(m.RunFrom(m.Closure(m.start, c), s)) <==> d in Results(q.token, c, Filter(skip, s)))
  {
    var b := Build(q.token, EndMatch, []);
    var m := NFASequenceMatcher(ignore, b.states, b.entry);
    CompileCorrect(q.token, c, Filter(skip, s), d);
    m.RunCorrect(c, s);
    IgnoringIsFiltering(b.states, ignore, skip, b.entry, c, s);
  }
}
