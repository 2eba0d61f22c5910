/**
 * The pattern tree a sequence query is built from, and its meaning: which
 * token sequences a fragment matches exactly, and with which resulting
 * contexts, when the predicates thread a context from token to token.
 */
module Pattern {
  import opened Automaton

  /** An immutable pattern fragment (the `Partial` implementations). */
  datatype Partial<!T, !C> =
    | Literal(c: Match<T, C>)
    | Concat(left: Partial<T, C>, right: Partial<T, C>)
    | Or(left: Partial<T, C>, right: Partial<T, C>)
    | Repeat(r: Partial<T, C>)
    | Plus(r: Partial<T, C>)

  /** A measure that also decreases from `Plus(r)` to `Concat(r, Repeat(r))`. */
  function Size<T, C>(p: Partial<T, C>): (n: nat)
    ensures n >= 1
  {
    match p
    case Literal(_) => 1
    case Concat(l, r) => Size(l) + Size(r) + 1
    case Or(l, r) => Size(l) + Size(r) + 1
    case Repeat(r) => Size(r) + 2
    case Plus(r) => 2 * Size(r) + 4
  }

  /** Whether the fragment can be passed without reading a token (judged by its shape alone). */
  predicate Nullable<T, C>(p: Partial<T, C>)
  {
    match p
    case Literal(_) => false
    case Concat(l, r) => Nullable(l) && Nullable(r)
    case Or(l, r) => Nullable(l) || Nullable(r)
    case Repeat(_) => true
    case Plus(r) => Nullable(r)
  }

  /**
   * Every repeated fragment must read at least one token per round; otherwise
   * the compiled loop is a cycle of Splits and the epsilon-closure never ends
   * (`Repeat(Repeat(x))` is the smallest example).
   */
  predicate WellFormed<T, C>(p: Partial<T, C>)
  {
    match p
    case Literal(_) => true
    case Concat(l, r) => WellFormed(l) && WellFormed(r)
    case Or(l, r) => WellFormed(l) && WellFormed(r)
    case Repeat(r) => !Nullable(r) && WellFormed(r)
    case Plus(r) => !Nullable(r) && WellFormed(r)
  }

  /**
   * The contexts with which fragment `p`, started with context `c`, matches
   * exactly the tokens `s`: a literal reads one token its predicate accepts
   * and continues with the predicate's context; a concatenation splits `s`;
   * an alternative takes either side; a repetition runs its body zero or more
   * times; `Plus(r)` is `r` followed by the repetition of `r`.
   */
  ghost function Results<T, C>(p: Partial<T, C>, c: C, s: seq<T>): set<C>
    decreases Size(p), |s|
  {
    match p
    case Literal(m) =>
      if |s| == 1 && m(c, s[0]).result then {m(c, s[0]).context} else {}
    case Concat(l, r) =>
      set j, c1, c2 | 0 <= j <= |s| && c1 in Results(l, c, s[..j]) && c2 in Results(r, c1, s[j..]) :: c2
    case Or(l, r) =>
      Results(l, c, s) + Results(r, c, s)
    case Repeat(r) =>
      (if s == [] then {c} else {}) +
      set j, c1, c2 | 1 <= j <= |s| && c1 in Results(r, c, s[..j]) && c2 in Results(p, c1, s[j..]) :: c2
    case Plus(r) =>
      set j, c1, c2 | 0 <= j <= |s| && c1 in Results(r, c, s[..j]) && c2 in Results(Repeat(r), c1, s[j..]) :: c2
  }

  /**
   * On the empty sequence a fragment either does nothing to the context (when
   * it is nullable) or does not match at all: no context changes without a token.
   */
  lemma {:induction false} EmptyResults<T, C>(p: Partial<T, C>, c: C)
    ensures Results(p, c, []) == if Nullable(p) then {c} else {}
  {
    var e: seq<T> := [];
    assert e[..0] == e && e[0..] == e;
    match p
    case Literal(_) =>
    case Concat(l, r) =>
      EmptyResults(l, c);
      EmptyResults(r, c);
      if Nullable(p) {
        assert c in Results(l, c, e[..0]) && c in Results(r, c, e[0..]);
      }
    case Or(l, r) =>
      EmptyResults(l, c);
      EmptyResults(r, c);
    case Repeat(_) =>
    case Plus(r) =>
      EmptyResults(r, c);
      if Nullable(p) {
        assert c in Results(r, c, e[..0]) && c in Results(Repeat(r), c, e[0..]);
      }
  }

  /** One or more rounds are among zero or more rounds. */
  lemma {:induction false} PlusWithinRepeat<T, C>(r: Partial<T, C>, c: C, s: seq<T>)
    ensures Results(Plus(r), c, s) <= Results(Repeat(r), c, s)
  {
    forall c2 | c2 in Results(Plus(r), c, s)
      ensures c2 in Results(Repeat(r), c, s)
    {
      var j, c1 :| 0 <= j <= |s| && c1 in Results(r, c, s[..j]) && c2 in Results(Repeat(r), c1, s[j..]);
      if j == 0 {
        EmptyResults(r, c);
        assert s[..0] == [] && s[0..] == s;
        assert c1 == c;
      }
    }
  }

  /** `Plus(r)` matches exactly what `Concat(r, Repeat(r))` matches. */
  lemma PlusIsConcatRepeat<T, C>(r: Partial<T, C>, c: C, s: seq<T>)
    ensures Results(Plus(r), c, s) == Results(Concat(r, Repeat(r)), c, s)
  {
  }

  /** A concatenation's match splits `s` between its two parts. */
  lemma ConcatSplit<T, C>(l: Partial<T, C>, r: Partial<T, C>, c: C, s: seq<T>, d: C) returns (j: nat, c1: C)
    requires d in Results(Concat(l, r), c, s)
    ensures j <= |s| && c1 in Results(l, c, s[..j]) && d in Results(r, c1, s[j..])
  {
    j, c1 :| 0 <= j <= |s| && c1 in Results(l, c, s[..j]) && d in Results(r, c1, s[j..]);
  }

  /** Matches of the two parts on adjacent pieces of `s` make a match of their concatenation. */
  lemma ConcatJoin<T, C>(l: Partial<T, C>, r: Partial<T, C>, c: C, s: seq<T>, d: C, j: nat, c1: C)
    requires j <= |s| && c1 in Results(l, c, s[..j]) && d in Results(r, c1, s[j..])
    ensures d in Results(Concat(l, r), c, s)
  {
  }

  /** A repetition's match of a non-empty `s` is a first non-empty round followed by the rest. */
  lemma RepeatSplit<T, C>(r: Partial<T, C>, c: C, s: seq<T>, d: C) returns (j: nat, c1: C)
    requires d in Results(Repeat(r), c, s) && s != []
    ensures 1 <= j <= |s| && c1 in Results(r, c, s[..j]) && d in Results(Repeat(r), c1, s[j..])
  {
    j, c1 :| 1 <= j <= |s| && c1 in Results(r, c, s[..j]) && d in Results(Repeat(r), c1, s[j..]);
  }

  /** A non-empty round followed by a repetition's match is a repetition's match. */
  lemma RepeatJoin<T, C>(r: Partial<T, C>, c: C, s: seq<T>, d: C, j: nat, c1: C)
    requires 1 <= j <= |s| && c1 in Results(r, c, s[..j]) && d in Results(Repeat(r), c1, s[j..])
    ensures d in Results(Repeat(r), c, s)
  {
  }
}
