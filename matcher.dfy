/**
 * The matcher a compiled query runs as (`NFASequenceMatcher`): it keeps the
 * set of waiting (state, context) pairs the automaton can be in, advances
 * all of them over each token, and reports the contexts that reached
 * EndMatch. The ghost functions below say what each step computes; the
 * lemmas tie the run to the automaton semantics `EndContexts`.
 */
module Matcher {
  import opened Automaton

  /** The `HashSet<StateContext>` a run fills and replaces. */
  class StateSet<C(==)> {
    var items: set<StateContext<C>>

    constructor ()
      ensures items == {}
    {
      items := {};
    }

    method Add(x: StateContext<C>)
      modifies this
      ensures items == old(items) + {x}
    {
      items := items + {x};
    }
  }

  datatype SequenceMatcher<!T, !C(==)> = NFASequenceMatcher(ignore: Match<T, C>, states: seq<State<T, C>>, start: StateRef)
  {
    ghost predicate Valid()
    {
      ValidAutomaton(states) && ValidRef(states, start)
    }

    /** The kinds of state a pair can wait in between tokens: a Consume, or EndMatch. */
    predicate Waiting(r: StateRef)
    {
      r == EndMatch || (r.Node? && r.index < |states| && states[r.index].Consume?)
    }

    ghost predicate AllWaiting(live: set<StateContext<C>>)
    {
      forall x | x in live :: Waiting(x.state)
    }

    /**
     * What `addState` adds for the pair (r, c): the waiting states reachable
     * from `r` through Splits, all with context `c`; an unset branch adds nothing.
     */
    ghost function Closure(r: StateRef, c: C): (w: set<StateContext<C>>)
      requires ValidAutomaton(states) && ValidRef(states, r)
      ensures AllWaiting(w)
      ensures forall x | x in w :: x.context == c
      ensures Waiting(r) ==> w == {StateContext(r, c)}
      decreases Height(SomeRank(states), r)
    {
      match r
      case Null => {}
      case EndMatch => {StateContext(r, c)}
      case Node(i) =>
        match states[i]
        case Split(out1, out2) => Closure(out1, c) + Closure(out2, c)
        case Consume(_, _) => {StateContext(r, c)}
    }

    /**
     * What `step` puts in the next set for one waiting pair and token `t`: the
     * pair itself when `ignore` accepts the token (the context is not updated);
     * otherwise, for a Consume whose predicate accepts the token, the closure
     * of its successor with the predicate's new context; otherwise nothing.
     */
    ghost function Successors(x: StateContext<C>, t: T): (next: set<StateContext<C>>)
      requires ValidAutomaton(states) && Waiting(x.state)
      ensures AllWaiting(next)
      ensures ignore(x.context, t).result ==> next == {x}
      ensures x.state == EndMatch && !ignore(x.context, t).result ==> next == {}
    {
      if ignore(x.context, t).result then {x}
      else if x.state.Node? then
        var st := states[x.state.index];
        assert StateIn(st, |states|);
        if st.c(x.context, t).result then Closure(st.out, st.c(x.context, t).context) else {}
      else {}
    }

    /** The set `step` returns: the successors of every pair of `live`. */
    ghost function StepSet(live: set<StateContext<C>>, t: T): (next: set<StateContext<C>>)
      requires ValidAutomaton(states) && AllWaiting(live)
      ensures AllWaiting(next)
    {
      set x, y | x in live && y in Successors(x, t) :: y
    }

    /** The set `run` holds after stepping `live` over every token of `s` in turn. */
    ghost function RunFrom(live: set<StateContext<C>>, s: seq<T>): (last: set<StateContext<C>>)
      requires ValidAutomaton(states) && AllWaiting(live)
      ensures AllWaiting(last)
      decreases |s|
    {
      if s == [] then live else RunFrom(StepSet(live, s[0]), s[1..])
    }

    /** The contexts of the pairs of `live` that stand at EndMatch. */
    ghost function Ends(live: set<StateContext<C>>): set<C>
    {
      set x | x in live && x.state == EndMatch :: x.context
    }

    /** The contexts with which some pair of `live`, run over `s`, ends at EndMatch. */
    ghost function Accepted(live: set<StateContext<C>>, s: seq<T>): set<C>
      requires ValidAutomaton(states) && AllWaiting(live)
    {
      set x, d | x in live && d in EndContexts(states, ignore, x.state, x.context, s) :: d
    }

    /** `addState`: adds to `acc` the waiting pairs reachable from `sc` through Splits. */
    method AddState(acc: StateSet<C>, sc: StateContext<C>)
      requires ValidAutomaton(states) && ValidRef(states, sc.state)
      modifies acc
      ensures acc.items == old(acc.items) + Closure(sc.state, sc.context)
      decreases Height(SomeRank(states), sc.state)
    {
      if sc.state == Null {
        return;
      }
      if sc.state.Node? && states[sc.state.index].Split? {
        var split := states[sc.state.index];
        assert StateIn(split, |states|);
        AddState(acc, StateContext(split.out1, sc.context));
        AddState(acc, StateContext(split.out2, sc.context));
      } else {
        acc.Add(sc);
      }
    }

    /** `step`: a fresh set holding the successors of every pair of `current` on token `t`. */
    method Step(current: StateSet<C>, t: T) returns (next: StateSet<C>)
      requires ValidAutomaton(states) && AllWaiting(current.items)
      ensures fresh(next) && next.items == StepSet(current.items, t)
    {
      next := new StateSet();
      var remaining := current.items;
      while remaining != {}
        invariant remaining <= current.items
        invariant next.items == StepSet(current.items - remaining, t)
        decreases remaining
      {
        var each :| each in remaining;
        if ignore(each.context, t).result {
          next.Add(each);
        } else if each.state.Node? {
          var consume := states[each.state.index];
          assert StateIn(consume, |states|);
          var result := consume.c(each.context, t);
          if result.result {
            AddState(next, StateContext(consume.out, result.context));
          }
        }
        StepSetAdd(current.items - remaining, each, t);
        assert current.items - (remaining - {each}) == (current.items - remaining) + {each};
        remaining := remaining - {each};
      }
      assert current.items - remaining == current.items;
    }

    /** `run`: the closure of the start state, stepped over every token of `sequence`. */
    method Run(sequence: seq<T>, initialContext: C) returns (current: StateSet<C>)
      requires Valid()
      ensures current.items == RunFrom(Closure(start, initialContext), sequence)
    {
      current := new StateSet();
      AddState(current, StateContext(start, initialContext));
      assert current.items == Closure(start, initialContext);
      assert sequence[0..] == sequence;
      for i := 0 to |sequence|
        invariant AllWaiting(current.items)
        invariant RunFrom(current.items, sequence[i..]) == RunFrom(Closure(start, initialContext), sequence)
      {
        assert sequence[i..][1..] == sequence[i + 1..];
        current := Step(current, sequence[i]);
      }
    }

    /** `matches`: whether some pair of the final set stands at EndMatch. */
    method Matches(sequence: seq<T>, initialContext: C) returns (found: bool)
      requires Valid()
      ensures found <==> Ends(RunFrom(Closure(start, initialContext), sequence)) != {}
      ensures found <==> EndContexts(states, ignore, start, initialContext, sequence) != {}
    {
      var current := Run(sequence, initialContext);
      found := exists x | x in current.items :: x.state == EndMatch;
      if found {
        var x :| x in current.items && x.state == EndMatch;
        assert x.context in Ends(current.items);
      }
      RunCorrect(initialContext, sequence);
    }

    /**
     * `contextMatches`: the contexts of the final pairs that stand at EndMatch,
     * each once (the pairs form a set), in the set's iteration order.
     */
    method ContextMatches(sequence: seq<T>, initialContext: C) returns (contexts: seq<C>)
      requires Valid()
      ensures forall i, j | 0 <= i < j < |contexts| :: contexts[i] != contexts[j]
      ensures (set d | d in contexts) == Ends(RunFrom(Closure(start, initialContext), sequence))
      ensures (set d | d in contexts) == EndContexts(states, ignore, start, initialContext, sequence)
    {
      var current := Run(sequence, initialContext);
      var last := current.items;
      var remaining := last;
      contexts := [];
      while remaining != {}
        invariant remaining <= last
        invariant forall i, j | 0 <= i < j < |contexts| :: contexts[i] != contexts[j]
        invariant (set d | d in contexts) == Ends(last - remaining)
        invariant forall x | x in remaining && x.state == EndMatch :: x.context !in contexts
        decreases remaining
      {
        var each :| each in remaining;
        EndsAdd(last - remaining, each);
        if each.state == EndMatch {
          assert (set d | d in contexts + [each.context]) == (set d | d in contexts) + {each.context};
          contexts := contexts + [each.context];
        }
        assert last - (remaining - {each}) == (last - remaining) + {each};
        remaining := remaining - {each};
      }
      assert last - remaining == last;
      RunCorrect(initialContext, sequence);
    }

    /** Stepping one more pair adds exactly that pair's successors. */
    lemma StepSetAdd(live: set<StateContext<C>>, x: StateContext<C>, t: T)
      requires ValidAutomaton(states) && AllWaiting(live) && Waiting(x.state)
      ensures StepSet(live + {x}, t) == StepSet(live, t) + Successors(x, t)
    {
      forall y | y in StepSet(live + {x}, t) ensures y in StepSet(live, t) + Successors(x, t) {
        var x', y' :| x' in live + {x} && y' in Successors(x', t) && y == y';
      }
    }

    lemma EndsAdd(live: set<StateContext<C>>, x: StateContext<C>)
      ensures Ends(live + {x}) == Ends(live) + if x.state == EndMatch then {x.context} else {}
    {
      forall d | d in Ends(live + {x}) ensures d in Ends(live) + if x.state == EndMatch then {x.context} else {} {
        var x' :| x' in live + {x} && x'.state == EndMatch && x'.context == d;
      }
    }

    lemma AcceptedUnion(a: set<StateContext<C>>, b: set<StateContext<C>>, s: seq<T>)
      requires ValidAutomaton(states) && AllWaiting(a) && AllWaiting(b)
      ensures Accepted(a + b, s) == Accepted(a, s) + Accepted(b, s)
    {
      forall d | d in Accepted(a + b, s) ensures d in Accepted(a, s) + Accepted(b, s) {
        var x, d' :| x in a + b && d' in EndContexts(states, ignore, x.state, x.context, s) && d == d';
      }
    }

    lemma AcceptedSingleton(x: StateContext<C>, s: seq<T>)
      requires ValidAutomaton(states) && Waiting(x.state)
      ensures Accepted({x}, s) == EndContexts(states, ignore, x.state, x.context, s)
    {
      forall d | d in Accepted({x}, s) ensures d in EndContexts(states, ignore, x.state, x.context, s) {
        var x', d' :| x' in {x} && d' in EndContexts(states, ignore, x'.state, x'.context, s) && d == d';
      }
    }

    /**
     * What `addState` adds accepts exactly what the pair it was given accepts:
     * following Splits early loses no run and adds none.
     */
    lemma {:induction false} ClosureAccepts(r: StateRef, c: C, s: seq<T>)
      requires ValidAutomaton(states) && ValidRef(states, r)
      ensures Accepted(Closure(r, c), s) == EndContexts(states, ignore, r, c, s)
      decreases Height(SomeRank(states), r)
    {
      match r
      case Null =>
        assert Accepted({}, s) == {};
      case EndMatch =>
        AcceptedSingleton(StateContext(r, c), s);
      case Node(i) =>
        match states[i]
        case Split(out1, out2) =>
          assert StateIn(states[i], |states|);
          ClosureAccepts(out1, c, s);
          ClosureAccepts(out2, c, s);
          AcceptedUnion(Closure(out1, c), Closure(out2, c), s);
        case Consume(_, _) =>
          AcceptedSingleton(StateContext(r, c), s);
    }

    /** The successors of a pair on `t` accept after `s` what the pair accepts after `[t] + s`. */
    lemma SuccessorsAccept(x: StateContext<C>, t: T, s: seq<T>)
      requires ValidAutomaton(states) && Waiting(x.state)
      ensures Accepted(Successors(x, t), s) == EndContexts(states, ignore, x.state, x.context, [t] + s)
    {
      var u := [t] + s;
      assert u[0] == t && u[1..] == s;
      if ignore(x.context, t).result {
        AcceptedSingleton(x, s);
      } else if x.state.Node? {
        var st := states[x.state.index];
        assert StateIn(st, |states|);
        if st.c(x.context, t).result {
          ClosureAccepts(st.out, st.c(x.context, t).context, s);
        } else {
          assert Accepted({}, s) == {};
        }
      } else {
        assert Accepted({}, s) == {};
      }
    }

    /** One step of the run consumes one token of what the live pairs still accept. */
    lemma StepAccepts(live: set<StateContext<C>>, t: T, s: seq<T>)
      requires ValidAutomaton(states) && AllWaiting(live)
      ensures Accepted(StepSet(live, t), s) == Accepted(live, [t] + s)
    {
      forall d | d in Accepted(StepSet(live, t), s) ensures d in Accepted(live, [t] + s) {
        var y, d' :| y in StepSet(live, t) && d' in EndContexts(states, ignore, y.state, y.context, s) && d == d';
        var x, y' :| x in live && y' in Successors(x, t) && y == y';
        SuccessorsAccept(x, t, s);
        assert d in Accepted(Successors(x, t), s);
      }
      forall d | d in Accepted(live, [t] + s) ensures d in Accepted(StepSet(live, t), s) {
        var x, d' :| x in live && d' in EndContexts(states, ignore, x.state, x.context, [t] + s) && d == d';
        SuccessorsAccept(x, t, s);
        var y, d2 :| y in Successors(x, t) && d2 in EndContexts(states, ignore, y.state, y.context, s) && d == d2;
        assert y in StepSet(live, t);
      }
    }

    /** With no token left, a waiting pair accepts exactly when it stands at EndMatch. */
    lemma AcceptedAtEnd(live: set<StateContext<C>>)
      requires ValidAutomaton(states) && AllWaiting(live)
      ensures Accepted(live, []) == Ends(live)
    {
      forall d | d in Accepted(live, []) ensures d in Ends(live) {
        var x, d' :| x in live && d' in EndContexts(states, ignore, x.state, x.context, []) && d == d';
      }
      forall d | d in Ends(live) ensures d in Accepted(live, []) {
        var x :| x in live && x.state == EndMatch && x.context == d;
        assert d in EndContexts(states, ignore, x.state, x.context, []);
      }
    }

    /** Running the live pairs over `s` ends at EndMatch with exactly the contexts they accept. */
    lemma {:induction false} RunAccepts(live: set<StateContext<C>>, s: seq<T>)
      requires ValidAutomaton(states) && AllWaiting(live)
      ensures Ends(RunFrom(live, s)) == Accepted(live, s)
      decreases |s|
    {
      if s == [] {
        AcceptedAtEnd(live);
      } else {
        RunAccepts(StepSet(live, s[0]), s[1..]);
        StepAccepts(live, s[0], s[1..]);
        assert [s[0]] + s[1..] == s;
      }
    }

    /**
     * The matcher is correct: the contexts left at EndMatch after running the
     * closure of the start state over `s` are exactly the contexts with which
     * the automaton accepts `s`.
     */
    lemma RunCorrect(c: C, s: seq<T>)
      requires Valid()
      ensures Ends(RunFrom(Closure(start, c), s)) == EndContexts(states, ignore, start, c, s)
    {
      RunAccepts(Closure(start, c), s);
      ClosureAccepts(start, c, s);
    }

    /**
     * A match that has reached EndMatch is kept through every ignored token
     * that follows (ignore is tested before the kind of the state).
     */
    lemma EndMatchSurvivesIgnored(live: set<StateContext<C>>, d: C, t: T)
      requires ValidAutomaton(states) && AllWaiting(live)
      requires StateContext(EndMatch, d) in live && ignore(d, t).result
      ensures StateContext(EndMatch, d) in StepSet(live, t)
    {
      assert StateContext(EndMatch, d) in Successors(StateContext(EndMatch, d), t);
    }
  }
}
