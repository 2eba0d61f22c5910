/**
 * Compiling a pattern tree into the automaton (the `make` methods of the
 * `Partial` implementations). Each fragment is realised in front of a
 * continuation state and returns its entry state; the arena plays the part
 * of the heap the states are allocated on.
 */
module Builder {
  import opened Automaton
  import opened Pattern

  /** The entry state of a realised fragment and the arena after realising it. */
  datatype Built<!T, !C> = Built(entry: StateRef, states: seq<State<T, C>>)

  /**
   * What `p.make(andThen)` allocates on arena `g`. A repetition allocates a
   * placeholder Split with both branches unset, realises its body in front of
   * the placeholder, allocates `Split(bodyEntry, andThen)` and patches the
   * placeholder's first branch to it; the second branch stays unset.
   */
  function Build<T, C>(p: Partial<T, C>, andThen: StateRef, g: seq<State<T, C>>): (b: Built<T, C>)
    decreases Size(p)
    ensures |g| < |b.states| && b.states[..|g|] == g
    ensures b.entry.Node? && |g| <= b.entry.index < |b.states|
    ensures Closed(g) && ValidRef(g, andThen) ==> Closed(b.states)
  {
    match p
    case Literal(m) =>
      Built(Node(|g|), g + [Consume(m, andThen)])
    case Or(l, r) =>
      var left := Build(l, andThen, g);
      var right := Build(r, andThen, left.states);
      Built(Node(|right.states|), right.states + [Split(left.entry, right.entry)])
    case Concat(l, r) =>
      var right := Build(r, andThen, g);
      Build(l, right.entry, right.states)
    case Repeat(r) =>
      var placeHolder := |g|;
      var body := Build(r, Node(placeHolder), g + [Split(Null, Null)]);
      var loop := |body.states|;
      var states := body.states + [Split(body.entry, andThen)];
      PatchedClosed(g, andThen, body);
      Built(Node(placeHolder), states[placeHolder := states[placeHolder].(out1 := Node(loop))])
    case Plus(r) =>
      assert Size(Repeat(r)) == Size(r) + 2;
      Build(Concat(r, Repeat(r)), andThen, g)
  }

  /**
   * The layout of a repetition: the placeholder is still unset after the body
   * is realised, and patching it to the loop Split keeps the arena closed.
   */
  lemma PatchedClosed<T, C>(g: seq<State<T, C>>, andThen: StateRef, body: Built<T, C>)
    requires |g| < |body.states| && body.states[..|g| + 1] == g + [Split(Null, Null)]
    requires RefIn(body.entry, |body.states|)
    requires Closed(g + [Split(Null, Null)]) ==> Closed(body.states)
    ensures body.states[|g|] == Split(Null, Null)
    ensures Closed(g) && ValidRef(g, andThen) ==>
              Closed((body.states + [Split(body.entry, andThen)])[|g| := Split(Node(|body.states|), Null)])
  {
    var g0 := g + [Split(Null, Null)];
    assert body.states[|g|] == body.states[..|g| + 1][|g|];
    if Closed(g) && ValidRef(g, andThen) {
      forall i | 0 <= i < |g0| ensures StateIn(g0[i], |g0|) {
        if i < |g| { assert StateIn(g[i], |g|); }
      }
      var states := (body.states + [Split(body.entry, andThen)])[|g| := Split(Node(|body.states|), Null)];
      forall i | 0 <= i < |states| ensures StateIn(states[i], |states|) {
        if i < |body.states| && i != |g| { assert StateIn(body.states[i], |body.states|); }
      }
    }
  }

  /** The arena the states of one compilation are allocated on. */
  class Arena<!T, !C> {
    var states: seq<State<T, C>>

    constructor ()
      ensures states == []
    {
      states := [];
    }

    method Alloc(st: State<T, C>) returns (r: StateRef)
      modifies this
      ensures states == old(states) + [st] && r == Node(|old(states)|)
    {
      r := Node(|states|);
      states := states + [st];
    }

    /** `p.make(andThen)`: allocates the states of `p` and returns its entry. */
    method Make(p: Partial<T, C>, andThen: StateRef) returns (entry: StateRef)
      modifies this
      decreases Size(p)
      ensures Built(entry, states) == Build(p, andThen, old(states))
    {
      match p
      case Literal(m) =>
        entry := Alloc(Consume(m, andThen));
      case Or(l, r) =>
        var left := Make(l, andThen);
        var right := Make(r, andThen);
        entry := Alloc(Split(left, right));
      case Concat(l, r) =>
        var right := Make(r, andThen);
        entry := Make(l, right);
      case Repeat(r) =>
        var placeHolder := Alloc(Split(Null, Null));
        ghost var withPlaceHolder := states;
        var right := Make(r, placeHolder);
        assert states[..|withPlaceHolder|] == withPlaceHolder;
        assert states[placeHolder.index] == withPlaceHolder[placeHolder.index];
        var loop := Alloc(Split(right, andThen));
        states := states[placeHolder.index := states[placeHolder.index].(out1 := loop)];
        entry := placeHolder;
      case Plus(r) =>
        assert Size(Repeat(r)) == Size(r) + 2;
        entry := Make(Concat(r, Repeat(r)), andThen);
    }
  }

  /**
   * A well-formed fragment compiles into states that can be ranked so that
   * every Split branch goes down: the compiled automaton has no cycle of
   * Splits. The entry of a fragment that must read a token sits at most
   * `Size(p)` high, whatever the continuation.
   */
  lemma {:induction false} BuildRanked<T, C>(p: Partial<T, C>, andThen: StateRef, g: seq<State<T, C>>, rank: seq<nat>)
    returns (rank': seq<nat>)
    requires WellFormed(p) && Closed(g) && Ranked(g, rank) && ValidRef(g, andThen)
    ensures Ranked(Build(p, andThen, g).states, rank') && rank'[..|g|] == rank
    ensures Height(rank', Build(p, andThen, g).entry) <= Size(p) + if Nullable(p) then Height(rank, andThen) else 0
    decreases Size(p), 1
  {
    match p
    case Literal(m) =>
      rank' := rank + [0];
      RankExtended(g, rank, Build(p, andThen, g).states, rank');
    case Or(l, r) =>
      rank' := OrRanked(l, r, andThen, g, rank);
    case Concat(l, r) =>
      var right := Build(r, andThen, g);
      var rankRight := BuildRanked(r, andThen, g, rank);
      rank' := BuildRanked(l, right.entry, right.states, rankRight);
      assert Height(rankRight, andThen) == Height(rank, andThen) by { HeightPrefix(rank, rankRight, andThen); }
      assert rank'[..|g|] == rank'[..|right.states|][..|g|];
    case Repeat(r) =>
      rank' := RepeatRanked(r, andThen, g, rank);
    case Plus(r) =>
      assert Size(Repeat(r)) == Size(r) + 2;
      rank' := BuildRanked(Concat(r, Repeat(r)), andThen, g, rank);
  }

  /** The Or case of BuildRanked: the new Split sits one above the higher of its two branches. */
  lemma OrRanked<T, C>(l: Partial<T, C>, r: Partial<T, C>, andThen: StateRef, g: seq<State<T, C>>, rank: seq<nat>)
    returns (rank': seq<nat>)
    requires WellFormed(l) && WellFormed(r) && Closed(g) && Ranked(g, rank) && ValidRef(g, andThen)
    ensures Ranked(Build(Or(l, r), andThen, g).states, rank') && rank'[..|g|] == rank
    ensures Height(rank', Build(Or(l, r), andThen, g).entry)
            <= Size(Or(l, r)) + if Nullable(Or(l, r)) then Height(rank, andThen) else 0
    decreases Size(Or(l, r)), 0
  {
    var left := Build(l, andThen, g);
    var rankLeft := BuildRanked(l, andThen, g, rank);
    var right := Build(r, andThen, left.states);
    var rankRight := BuildRanked(r, andThen, left.states, rankLeft);
    HeightPrefix(rank, rankLeft, andThen);
    HeightPrefix(rankLeft, rankRight, left.entry);
    rank' := SplitOnTop(right.states, rankRight, left.entry, right.entry);
    assert rank'[..|g|] == rankRight[..|left.states|][..|g|];
  }

  /**
   * The Repeat case of BuildRanked. The placeholder is ranked when it is
   * allocated, above anything the body's entry or the continuation can reach,
   * so the patched branch to the new loop Split still goes down.
   */
  lemma RepeatRanked<T, C>(r: Partial<T, C>, andThen: StateRef, g: seq<State<T, C>>, rank: seq<nat>)
    returns (rank': seq<nat>)
    requires WellFormed(Repeat(r)) && Closed(g) && Ranked(g, rank) && ValidRef(g, andThen)
    ensures Ranked(Build(Repeat(r), andThen, g).states, rank') && rank'[..|g|] == rank
    ensures Height(rank', Build(Repeat(r), andThen, g).entry) <= Size(Repeat(r)) + Height(rank, andThen)
    decreases Size(Repeat(r)), 0
  {
    var placeHolder := |g|;
    var bound := Size(r) + Height(rank, andThen);
    var g0 := g + [Split(Null, Null)];
    var rank0 := rank + [bound + 1];
    PlaceHolderRanked(g, rank, bound + 1);
    var body := Build(r, Node(placeHolder), g0);
    var rankBody := BuildRanked(r, Node(placeHolder), g0, rank0);
    assert rankBody[placeHolder] == bound + 1 by {
      assert rankBody[placeHolder] == rankBody[..|g0|][placeHolder];
    }
    assert Height(rankBody, andThen) == Height(rank, andThen) by {
      HeightPrefix(rank, rank0, andThen);
      HeightPrefix(rank0, rankBody, andThen);
    }
    var loop := |body.states|;
    rank' := SplitOnTop(body.states, rankBody, body.entry, andThen);
    PatchRanked(body.states + [Split(body.entry, andThen)], rank', placeHolder, Node(loop));
    assert body.states[placeHolder] == g0[placeHolder];
    assert rank'[..|g|] == rankBody[..|g0|][..|g|];
  }

  /** Allocating the placeholder of a repetition, with both branches unset, at any rank. */
  lemma PlaceHolderRanked<T, C>(g: seq<State<T, C>>, rank: seq<nat>, top: nat)
    requires Closed(g) && Ranked(g, rank)
    ensures Closed(g + [Split(Null, Null)]) && Ranked(g + [Split(Null, Null)], rank + [top])
  {
    var g0 := g + [Split(Null, Null)];
    RankExtended(g, rank, g0, rank + [top]);
    forall i | 0 <= i < |g0| ensures StateIn(g0[i], |g0|) {
      if i < |g| { assert StateIn(g[i], |g|); }
    }
  }

  /** Allocating a Split on top of a ranked arena: it is ranked at the higher of its two branches. */
  lemma SplitOnTop<T, C>(g: seq<State<T, C>>, rank: seq<nat>, a: StateRef, b: StateRef) returns (rank': seq<nat>)
    requires Closed(g) && Ranked(g, rank) && RefIn(a, |g|) && RefIn(b, |g|)
    ensures Ranked(g + [Split(a, b)], rank') && rank'[..|g|] == rank
    ensures Height(rank', Node(|g|)) == 1 + if Height(rank, a) < Height(rank, b) then Height(rank, b) else Height(rank, a)
  {
    var top := if Height(rank, a) < Height(rank, b) then Height(rank, b) else Height(rank, a);
    rank' := rank + [top];
    HeightPrefix(rank, rank', a);
    HeightPrefix(rank, rank', b);
    RankExtended(g, rank, g + [Split(a, b)], rank');
  }

  /** Re-pointing the Split at `i` to `Split(target, Null)` keeps a ranking when `target` is lower. */
  lemma PatchRanked<T, C>(g: seq<State<T, C>>, rank: seq<nat>, i: nat, target: StateRef)
    requires Ranked(g, rank) && i < |g| && Height(rank, target) <= rank[i]
    ensures Ranked(g[i := Split(target, Null)], rank)
  {
  }

  /** Appending states with their ranks keeps a ranking, when the old states point inside the old arena. */
  lemma RankExtended<T, C>(g: seq<State<T, C>>, rank: seq<nat>, g': seq<State<T, C>>, rank': seq<nat>)
    requires Closed(g) && Ranked(g, rank)
    requires |g| <= |g'| && g'[..|g|] == g && |rank'| == |g'| && rank'[..|g|] == rank
    requires forall i | |g| <= i < |g'| && g'[i].Split? ::
               Height(rank', g'[i].out1) <= rank'[i] && Height(rank', g'[i].out2) <= rank'[i]
    ensures Ranked(g', rank')
  {
    forall i | 0 <= i < |g| && g'[i].Split?
      ensures Height(rank', g'[i].out1) <= rank'[i] && Height(rank', g'[i].out2) <= rank'[i]
    {
      assert g'[i] == g[i] && rank'[i] == rank[i];
      assert StateIn(g[i], |g|);
      HeightPrefix(rank, rank', g[i].out1);
      HeightPrefix(rank, rank', g[i].out2);
    }
  }

  lemma HeightPrefix(rank: seq<nat>, rank': seq<nat>, r: StateRef)
    requires RefIn(r, |rank|) && |rank| <= |rank'| && rank'[..|rank|] == rank
    ensures Height(rank', r) == Height(rank, r)
  {
    if r.Node? {
      assert rank'[r.index] == rank'[..|rank|][r.index];
    }
  }
}
