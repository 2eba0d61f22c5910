/**
 * Correctness of the compilation: the automaton realised for a fragment in
 * front of a continuation accepts exactly a prefix the fragment matches,
 * followed by whatever the continuation accepts.
 */
module Thompson {
  import opened Automaton
  import opened Pattern
  import opened Builder

  /** `G` holds, from index `lo` on, the states of the arena `b`. */
  ghost predicate Agrees<T, C>(G: seq<State<T, C>>, b: seq<State<T, C>>, lo: nat)
  {
    |b| <= |G| && forall i | lo <= i < |b| :: G[i] == b[i]
  }

  /**
   * `p` matches a prefix of `s` starting from context `c`, and the automaton `G`,
   * run from `k` over the rest of `s` with nothing ignored, ends at EndMatch with context `d`.
   */
  ghost predicate MatchesThen<T, C>(G: seq<State<T, C>>, p: Partial<T, C>, k: StateRef, c: C, s: seq<T>, d: C)
    requires ValidAutomaton(G) && ValidRef(G, k)
  {
    exists j, c1 :: 0 <= j <= |s| && c1 in Results(p, c, s[..j]) && d in EndContexts(G, Never(), k, c1, s[j..])
  }

  /** Names the split point and middle context of a `MatchesThen`. */
  lemma MatchesThenElim<T, C>(G: seq<State<T, C>>, p: Partial<T, C>, k: StateRef, c: C, s: seq<T>, d: C)
    returns (j: nat, c1: C)
    requires ValidAutomaton(G) && ValidRef(G, k) && MatchesThen(G, p, k, c, s, d)
    ensures j <= |s| && c1 in Results(p, c, s[..j]) && d in EndContexts(G, Never(), k, c1, s[j..])
  {
    j, c1 :| 0 <= j <= |s| && c1 in Results(p, c, s[..j]) && d in EndContexts(G, Never(), k, c1, s[j..]);
  }

  lemma MatchesThenIntro<T, C>(G: seq<State<T, C>>, p: Partial<T, C>, k: StateRef, c: C, s: seq<T>, d: C, j: nat, c1: C)
    requires ValidAutomaton(G) && ValidRef(G, k)
    requires j <= |s| && c1 in Results(p, c, s[..j]) && d in EndContexts(G, Never(), k, c1, s[j..])
    ensures MatchesThen(G, p, k, c, s, d)
  {
  }

  /** Cutting `s` at `j` and at `n`, seen from either cut. */
  lemma Slices<T>(s: seq<T>, j: nat, n: nat)
    requires j <= n <= |s|
    ensures s[..n][..j] == s[..j] && s[..n][j..] == s[j..][..n - j] && s[n..] == s[j..][n - j..]
  {
  }

  lemma AgreesPrefix<T, C>(G: seq<State<T, C>>, b: seq<State<T, C>>, lo: nat, b': seq<State<T, C>>, lo': nat)
    requires Agrees(G, b, lo) && |b'| <= |b| && b[..|b'|] == b' && lo <= lo'
    ensures Agrees(G, b', lo')
  {
    forall i | lo' <= i < |b'| ensures G[i] == b'[i] {
      assert b'[i] == b[..|b'|][i];
    }
  }

  /**
   * Thompson's construction is correct: for any final arena `G` that still
   * holds the states `Build` allocated for `p`, the entry of `p` accepts `s`
   * with context `d` exactly when `p` matches a prefix of `s` and the
   * continuation `k` accepts the rest.
   */
  lemma {:induction false} BuildCorrect<T, C>(p: Partial<T, C>, k: StateRef, g: seq<State<T, C>>,
                                              G: seq<State<T, C>>, c: C, s: seq<T>, d: C)
    requires WellFormed(p) && ValidRef(g, k)
    requires ValidAutomaton(G) && Agrees(G, Build(p, k, g).states, |g|)
    ensures d in EndContexts(G, Never(), Build(p, k, g).entry, c, s) <==> MatchesThen(G, p, k, c, s, d)
    decreases Size(p), |s|, 2
  {
    var b := Build(p, k, g);
    match p
    case Literal(m) =>
      assert G[|g|] == Consume(m, k);
      if d in EndContexts(G, Never(), b.entry, c, s) {
        assert s != [] && m(c, s[0]).result;
        assert s[..1] == [s[0]];
        assert m(c, s[0]).context in Results(p, c, s[..1]);
      }
      if MatchesThen(G, p, k, c, s, d) {
        var j, c1 :| 0 <= j <= |s| && c1 in Results(p, c, s[..j]) && d in EndContexts(G, Never(), k, c1, s[j..]);
        assert j == 1 && s[..j][0] == s[0];
      }
    case Or(l, r) =>
      var left := Build(l, k, g);
      var right := Build(r, k, left.states);
      assert G[|right.states|] == Split(left.entry, right.entry);
      AgreesPrefix(G, b.states, |g|, right.states, |left.states|);
      AgreesPrefix(G, b.states, |g|, left.states, |g|) by {
        assert b.states[..|left.states|] == right.states[..|left.states|];
      }
      BuildCorrect(l, k, g, G, c, s, d);
      BuildCorrect(r, k, left.states, G, c, s, d);
    case Concat(l, r) =>
      ConcatCorrect(l, r, k, g, G, c, s, d);
    case Repeat(r) =>
      if d in EndContexts(G, Never(), b.entry, c, s) {
        RepeatSound(r, k, g, G, c, s, d);
      }
      if MatchesThen(G, p, k, c, s, d) {
        RepeatComplete(r, k, g, G, c, s, d);
      }
    case Plus(r) =>
      assert Size(Repeat(r)) == Size(r) + 2;
      BuildCorrect(Concat(r, Repeat(r)), k, g, G, c, s, d);
      forall j | 0 <= j <= |s| ensures Results(p, c, s[..j]) == Results(Concat(r, Repeat(r)), c, s[..j]) {
        PlusIsConcatRepeat(r, c, s[..j]);
      }
  }

  /** The Concat case of BuildCorrect: the right part is realised first and the left part leads into it. */
  lemma ConcatCorrect<T, C>(l: Partial<T, C>, r: Partial<T, C>, k: StateRef, g: seq<State<T, C>>,
                            G: seq<State<T, C>>, c: C, s: seq<T>, d: C)
    requires WellFormed(Concat(l, r)) && ValidRef(g, k)
    requires ValidAutomaton(G) && Agrees(G, Build(Concat(l, r), k, g).states, |g|)
    ensures d in EndContexts(G, Never(), Build(Concat(l, r), k, g).entry, c, s) <==> MatchesThen(G, Concat(l, r), k, c, s, d)
    decreases Size(Concat(l, r)), |s|, 1
  {
    var right := Build(r, k, g);
    var b := Build(Concat(l, r), k, g);
    assert b == Build(l, right.entry, right.states);
    AgreesPrefix(G, b.states, |g|, right.states, |g|);
    BuildCorrect(l, right.entry, right.states, G, c, s, d);
    if MatchesThen(G, l, right.entry, c, s, d) {
      ConcatSound(l, r, k, g, G, c, s, d);
    }
    if MatchesThen(G, Concat(l, r), k, c, s, d) {
      ConcatComplete(l, r, k, g, G, c, s, d);
    }
  }

  lemma {:induction false} ConcatSound<T, C>(l: Partial<T, C>, r: Partial<T, C>, k: StateRef, g: seq<State<T, C>>,
                                             G: seq<State<T, C>>, c: C, s: seq<T>, d: C)
    requires WellFormed(Concat(l, r)) && ValidRef(g, k)
    requires ValidAutomaton(G) && Agrees(G, Build(r, k, g).states, |g|)
    requires MatchesThen(G, l, Build(r, k, g).entry, c, s, d)
    ensures MatchesThen(G, Concat(l, r), k, c, s, d)
    decreases Size(Concat(l, r)), |s|, 0
  {
    var right := Build(r, k, g);
    var j, c1 := MatchesThenElim(G, l, right.entry, c, s, d);
    BuildCorrect(r, k, g, G, c1, s[j..], d);
    var j2, c2 := MatchesThenElim(G, r, k, c1, s[j..], d);
    var n := j + j2;
    Slices(s, j, n);
    ConcatJoin(l, r, c, s[..n], c2, j, c1);
    MatchesThenIntro(G, Concat(l, r), k, c, s, d, n, c2);
  }

  lemma {:induction false} ConcatComplete<T, C>(l: Partial<T, C>, r: Partial<T, C>, k: StateRef, g: seq<State<T, C>>,
                                                G: seq<State<T, C>>, c: C, s: seq<T>, d: C)
    requires WellFormed(Concat(l, r)) && ValidRef(g, k)
    requires ValidAutomaton(G) && Agrees(G, Build(r, k, g).states, |g|)
    requires MatchesThen(G, Concat(l, r), k, c, s, d)
    ensures MatchesThen(G, l, Build(r, k, g).entry, c, s, d)
    decreases Size(Concat(l, r)), |s|, 0
  {
    var right := Build(r, k, g);
    var n, c2 := MatchesThenElim(G, Concat(l, r), k, c, s, d);
    var j, c1 := ConcatSplit(l, r, c, s[..n], c2);
    Slices(s, j, n);
    MatchesThenIntro(G, r, k, c1, s[j..], d, n - j, c2);
    BuildCorrect(r, k, g, G, c1, s[j..], d);
    MatchesThenIntro(G, l, right.entry, c, s, d, j, c1);
  }

  /**
   * How a repetition is laid out: the placeholder is a Split whose first
   * branch is the loop Split, which offers the body or the continuation, and
   * whose second branch is unset; so from the placeholder the run either
   * enters the body or goes on at the continuation.
   */
  lemma RepeatLayout<T, C>(r: Partial<T, C>, k: StateRef, g: seq<State<T, C>>, G: seq<State<T, C>>, c: C, s: seq<T>)
    requires ValidRef(g, k) && ValidAutomaton(G) && Agrees(G, Build(Repeat(r), k, g).states, |g|)
    ensures Agrees(G, Build(r, Node(|g|), g + [Split(Null, Null)]).states, |g| + 1)
    ensures EndContexts(G, Never(), Node(|g|), c, s)
            == EndContexts(G, Never(), Build(r, Node(|g|), g + [Split(Null, Null)]).entry, c, s)
               + EndContexts(G, Never(), k, c, s)
  {
    var placeHolder := |g|;
    var g0 := g + [Split(Null, Null)];
    var body := Build(r, Node(placeHolder), g0);
    var loop := |body.states|;
    var b := Build(Repeat(r), k, g);
    assert b.states == (body.states + [Split(body.entry, k)])[placeHolder := Split(Node(loop), Null)];
    assert G[placeHolder] == Split(Node(loop), Null);
    assert G[loop] == Split(body.entry, k);
    forall i | |g0| <= i < |body.states| ensures G[i] == body.states[i] {
      assert b.states[i] == body.states[i];
    }
  }

  /** Soundness half of the Repeat case, by induction on the length of `s`. */
  lemma {:induction false} RepeatSound<T, C>(r: Partial<T, C>, k: StateRef, g: seq<State<T, C>>,
                                             G: seq<State<T, C>>, c: C, s: seq<T>, d: C)
    requires WellFormed(Repeat(r)) && ValidRef(g, k)
    requires ValidAutomaton(G) && Agrees(G, Build(Repeat(r), k, g).states, |g|)
    requires d in EndContexts(G, Never(), Node(|g|), c, s)
    ensures MatchesThen(G, Repeat(r), k, c, s, d)
    decreases Size(Repeat(r)), |s|, 0
  {
    var g0 := g + [Split(Null, Null)];
    RepeatLayout(r, k, g, G, c, s);
    if d in EndContexts(G, Never(), k, c, s) {
      EmptyResults(Repeat(r), c);
      assert s[..0] == [] && s[0..] == s;
      MatchesThenIntro(G, Repeat(r), k, c, s, d, 0, c);
    } else {
      BuildCorrect(r, Node(|g|), g0, G, c, s, d);
      var j, c1 := MatchesThenElim(G, r, Node(|g|), c, s, d);
      EmptyResults(r, c);
      assert j != 0;
      RepeatSound(r, k, g, G, c1, s[j..], d);
      var j2, c2 := MatchesThenElim(G, Repeat(r), k, c1, s[j..], d);
      var n := j + j2;
      Slices(s, j, n);
      RepeatJoin(r, c, s[..n], c2, j, c1);
      MatchesThenIntro(G, Repeat(r), k, c, s, d, n, c2);
    }
  }

  /** Completeness half of the Repeat case, by induction on the length of `s`. */
  lemma {:induction false} RepeatComplete<T, C>(r: Partial<T, C>, k: StateRef, g: seq<State<T, C>>,
                                                G: seq<State<T, C>>, c: C, s: seq<T>, d: C)
    requires WellFormed(Repeat(r)) && ValidRef(g, k)
    requires ValidAutomaton(G) && Agrees(G, Build(Repeat(r), k, g).states, |g|)
    requires MatchesThen(G, Repeat(r), k, c, s, d)
    ensures d in EndContexts(G, Never(), Node(|g|), c, s)
    decreases Size(Repeat(r)), |s|, 0
  {
    var g0 := g + [Split(Null, Null)];
    var body := Build(r, Node(|g|), g0);
    RepeatLayout(r, k, g, G, c, s);
    var n, c2 :| 0 <= n <= |s| && c2 in Results(Repeat(r), c, s[..n]) && d in EndContexts(G, Never(), k, c2, s[n..]);
    if n == 0 {
      EmptyResults(Repeat(r), c);
      assert s[..n] == [] && s[n..] == s;
    } else {
      var j, c1 := RepeatSplit(r, c, s[..n], c2);
      Slices(s, j, n);
      assert MatchesThen(G, Repeat(r), k, c1, s[j..], d);
      RepeatComplete(r, k, g, G, c1, s[j..], d);
      RepeatLayout(r, k, g, G, c1, s[j..]);
      BuildCorrect(r, Node(|g|), g0, G, c, s, d);
    }
  }

  /** A well-formed pattern compiles into an automaton without cycles of Splits. */
  lemma CompileValid<T, C>(p: Partial<T, C>)
    requires WellFormed(p)
    ensures ValidAutomaton(Build(p, EndMatch, []).states)
  {
    var rank := BuildRanked(p, EndMatch, [], []);
  }

  /**
   * Compiling a well-formed pattern in front of EndMatch yields a runnable
   * automaton whose start state, with nothing ignored, accepts a sequence with
   * exactly the contexts the pattern matches it with.
   */
  lemma CompileCorrect<T, C>(p: Partial<T, C>, c: C, s: seq<T>, d: C)
    requires WellFormed(p)
    ensures ValidAutomaton(Build(p, EndMatch, []).states)
    ensures d in EndContexts(Build(p, EndMatch, []).states, Never(), Build(p, EndMatch, []).entry, c, s)
            <==> d in Results(p, c, s)
  {
    var b := Build(p, EndMatch, []);
    CompileValid(p);
    assert Agrees(b.states, b.states, 0);
    BuildCorrect(p, EndMatch, [], b.states, c, s, d);
    if d in Results(p, c, s) {
      assert s[..|s|] == s;
      EndMatchNever(b.states, d, s[|s|..]);
      MatchesThenIntro(b.states, p, EndMatch, c, s, d, |s|, d);
    }
    if MatchesThen(b.states, p, EndMatch, c, s, d) {
      var j, c1 := MatchesThenElim(b.states, p, EndMatch, c, s, d);
      EndMatchNever(b.states, c1, s[j..]);
      assert s[..j] == s;
    }
  }
}
