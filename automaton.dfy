/**
 * The compiled form of a sequence query: a Thompson-style automaton whose
 * states live in an arena and refer to each other by index.
 *
 * `Consume` tests one token and continues at `out`; `Split` offers two
 * continuations without reading a token; `EndMatch` is the single terminal
 * state; `Null` is an unset branch, which leads nowhere.
 */
module Automaton {

  /** What a predicate reports for one token: whether it matched, and the context to continue with. */
  datatype MatchResult<C> = MatchResult(result: bool, context: C)

  /** A token predicate that reads the running context and may produce a new one. */
  type Match<!T, !C> = (C, T) -> MatchResult<C>

  /** The ignore predicate used when none is configured: it never matches. */
  function Never<T, C>(): Match<T, C>
  {
    (c: C, t: T) => MatchResult(false, c)
  }

  /** A reference to a state: null, the terminal `EndMatch.MATCH`, or a node of the arena. */
  datatype StateRef = Null | EndMatch | Node(index: nat)

  datatype State<!T, !C> =
    | Consume(c: Match<T, C>, out: StateRef)
    | Split(out1: StateRef, out2: StateRef)

  /** A state paired with the context of the path that reached it; equal when both parts are equal. */
  datatype StateContext<C> = StateContext(state: StateRef, context: C)

  predicate RefIn(r: StateRef, n: nat)
  {
    r.Node? ==> r.index < n
  }

  predicate ValidRef<T, C>(g: seq<State<T, C>>, r: StateRef)
  {
    RefIn(r, |g|)
  }

  /** Every reference held by `st` points below `n`. */
  predicate StateIn<T, C>(st: State<T, C>, n: nat)
  {
    match st
    case Consume(_, out) => RefIn(out, n)
    case Split(out1, out2) => RefIn(out1, n) && RefIn(out2, n)
  }

  /** No state of the arena refers outside it. */
  ghost predicate Closed<T, C>(g: seq<State<T, C>>)
  {
    forall i | 0 <= i < |g| :: StateIn(g[i], |g|)
  }

  /** The height of a reference under a ranking: 0 for Null and EndMatch. */
  function Height(rank: seq<nat>, r: StateRef): nat
  {
    if r.Node? && r.index < |rank| then rank[r.index] + 1 else 0
  }

  /**
   * `rank` strictly decreases along every branch of every Split, so following
   * branches without reading a token always stops. This is what makes the
   * epsilon-closure terminate.
   */
  ghost predicate Ranked<T, C>(g: seq<State<T, C>>, rank: seq<nat>)
  {
    && |rank| == |g|
    && forall i | 0 <= i < |g| && g[i].Split? ::
         Height(rank, g[i].out1) <= rank[i] && Height(rank, g[i].out2) <= rank[i]
  }

  /** Every cycle of the automaton passes through a Consume state. */
  ghost predicate Acyclic<T, C>(g: seq<State<T, C>>)
  {
    exists rank :: Ranked(g, rank)
  }

  ghost function SomeRank<T, C>(g: seq<State<T, C>>): (rank: seq<nat>)
    requires Acyclic(g)
    ensures Ranked(g, rank)
  {
    var rank :| Ranked(g, rank); rank
  }

  /** An automaton the matcher can run: closed, and free of cycles made of Splits alone. */
  ghost predicate ValidAutomaton<T, C>(g: seq<State<T, C>>)
  {
    Closed(g) && Acyclic(g)
  }

  /**
   * The contexts with which a run that starts at `r` with context `c` reads the
   * whole of `s` and stands at EndMatch afterwards. A token accepted by `ignore`
   * leaves a waiting state and its context as they are; it is checked before
   * the kind of the state, so EndMatch also waits through ignored tokens.
   */
  ghost function EndContexts<T, C>(g: seq<State<T, C>>, ignore: Match<T, C>, r: StateRef, c: C, s: seq<T>): set<C>
    requires ValidAutomaton(g) && ValidRef(g, r)
    decreases |s|, Height(SomeRank(g), r)
  {
    match r
    case Null => {}
    case EndMatch =>
      if s == [] then {c}
      else if ignore(c, s[0]).result then EndContexts(g, ignore, r, c, s[1..])
      else {}
    case Node(i) =>
      match g[i]
      case Split(out1, out2) =>
        EndContexts(g, ignore, out1, c, s) + EndContexts(g, ignore, out2, c, s)
      case Consume(m, out) =>
        if s == [] then {}
        else if ignore(c, s[0]).result then EndContexts(g, ignore, r, c, s[1..])
        else if m(c, s[0]).result then EndContexts(g, ignore, out, m(c, s[0]).context, s[1..])
        else {}
  }

  /** With nothing ignored, EndMatch accepts only the end of the input, and keeps the context. */
  lemma EndMatchNever<T, C>(g: seq<State<T, C>>, c: C, s: seq<T>)
    requires ValidAutomaton(g)
    ensures EndContexts(g, Never(), EndMatch, c, s) == if s == [] then {c} else {}
  {
    if s != [] {
      assert !Never<T, C>()(c, s[0]).result;
    }
  }

  /** The tokens of `s` that `skip` rejects, in order. */
  function Filter<T>(skip: T -> bool, s: seq<T>): (kept: seq<T>)
    ensures |kept| <= |s|
    ensures forall i | 0 <= i < |kept| :: kept[i] in s && !skip(kept[i])
    ensures forall i | 0 <= i < |s| :: !skip(s[i]) ==> s[i] in kept
  {
    if s == [] then []
    else (if skip(s[0]) then [] else [s[0]]) + Filter(skip, s[1..])
  }

  /** Filtering keeps order: filtering a concatenation concatenates the filtered parts. */
  lemma {:induction false} FilterAppend<T>(skip: T -> bool, a: seq<T>, b: seq<T>)
    ensures Filter(skip, a + b) == Filter(skip, a) + Filter(skip, b)
  {
    if a != [] {
      assert (a + b)[0] == a[0] && (a + b)[1..] == a[1..] + b;
      FilterAppend(skip, a[1..], b);
    } else {
      assert a + b == b;
    }
  }

  /**
   * Ignore transparency: when the ignore predicate looks only at the token,
   * running over `s` ends in exactly the contexts that running over `s` with
   * the ignored tokens taken out ends in, with nothing ignored.
   */
  lemma {:induction false} IgnoringIsFiltering<T, C>(g: seq<State<T, C>>, ignore: Match<T, C>, skip: T -> bool,
                                                         r: StateRef, c: C, s: seq<T>)
    requires ValidAutomaton(g) && ValidRef(g, r)
    requires forall d: C, t: T :: ignore(d, t).result == skip(t)
    ensures EndContexts(g, ignore, r, c, s) == EndContexts(g, Never(), r, c, Filter(skip, s))
    decreases |s|, Height(SomeRank(g), r)
  {
    var rank := SomeRank(g);
    match r
    case Null =>
    case EndMatch =>
      if s != [] {
        if skip(s[0]) {
          IgnoringIsFiltering(g, ignore, skip, r, c, s[1..]);
        }
      }
    case Node(i) =>
      match g[i]
      case Split(out1, out2) =>
        assert Height(rank, out1) < Height(rank, r) && Height(rank, out2) < Height(rank, r);
        IgnoringIsFiltering(g, ignore, skip, out1, c, s);
        IgnoringIsFiltering(g, ignore, skip, out2, c, s);
      case Consume(m, out) =>
        if s != [] {
          assert StateIn(g[i], |g|);
          if skip(s[0]) {
            assert Filter(skip, s) == Filter(skip, s[1..]);
            IgnoringIsFiltering(g, ignore, skip, r, c, s[1..]);
          } else {
            var f := Filter(skip, s);
            assert f == [s[0]] + Filter(skip, s[1..]);
            assert f[0] == s[0] && f[1..] == Filter(skip, s[1..]);
            IgnoringIsFiltering(g, ignore, skip, out, m(c, s[0]).context, s[1..]);
          }
        }
  }
}
