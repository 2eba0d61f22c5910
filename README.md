# Sequence queries and the Reactor call selector, in Dafny

This project models two pieces of a mutation-testing tool (a fork of PIT with
mutators for Project Reactor):

* **Sequence queries** (`org.pitest.sequence.SequenceQuery`). They are regular
  expressions over a list of tokens, such as bytecode instructions. A query is
  grown from token predicates with `then`, `or`, `thenAnyOf`, `zeroOrMore` and
  `oneOrMore`. `compile` turns it into a Thompson automaton made of `Consume`,
  `Split` and `EndMatch` states. `NFASequenceMatcher` then runs the automaton
  over a sequence as a set of (state, context) pairs. A predicate can read the
  running context and replace it, and an ignore predicate lets a waiting pair
  skip a token unchanged. `matches` asks whether some pair reached `EndMatch`;
  `contextMatches` returns the contexts of those pairs.
* **The Reactor reactive-method selector** (`ReactorReactiveMutator`). It is
  the predicate on (method name, descriptor, owner) that decides which calls to
  Flux or Mono operators the mutator may remove.

Layout:

| file | module | contents |
|---|---|---|
| `automaton.dfy` | `Automaton` | states, `StateContext`, rankings (no cycle of Splits), `EndContexts`: the contexts with which the automaton accepts from a state |
| `pattern.dfy` | `Pattern` | the `Partial` tree, and `Results`: the contexts with which a fragment matches a sequence exactly |
| `builder.dfy` | `Builder` | the `make` methods, as a function `Build` and as the class `Arena`; the arena plays the part of the heap, with states addressed by index; proof that compiled automata have no cycle of Splits |
| `thompson.dfy` | `Thompson` | the compiled automaton accepts exactly what the pattern matches |
| `matcher.dfy` | `Matcher` | `NFASequenceMatcher`: `addState`, `step`, `run`, `matches`, `contextMatches` as methods over a mutable state set, each proved against a ghost function and connected to `EndContexts` |
| `query.dfy` | `Query` | `SequenceQuery`: the combinators, `compile`, and the end-to-end theorem |
| `scenarios.dfy` | `Scenarios` | two concrete queries over integers, compiled and run |
| `reactor.dfy` | `ReactorReactiveMutator` | the class constants, both operator lists, and `reactiveMethods` |

Modelling decisions:

* **Object identity.** Automaton states are objects compared by identity, so
  they become arena indices (`Node(i)`). `EndMatch.MATCH` and `null` get
  constructors of their own.
* **The Repeat placeholder.** The placeholder `Split(null, null)` that
  `Repeat.make` patches after realising its body is modelled literally. It is
  allocated first and patched last, and its second branch stays null.
* **Generic contexts.** `Context` is a type parameter `C` compared by value,
  and a `Match` is a function `(C, T) -> MatchResult<C>` that reads the running context and returns the context to continue with.

## Model

| member | source | states |
|---|---|---|
| Query.SequenceQuery.ThenMatch | pitest-entry/src/main/java/org/pitest/sequence/SequenceQuery.java:17-19 | appending one literal to a valid query keeps it valid |
| Query.SequenceQuery.Then | pitest-entry/src/main/java/org/pitest/sequence/SequenceQuery.java:21-24 | concatenating a well-formed query keeps a valid query valid |
| Query.SequenceQuery.Or | pitest-entry/src/main/java/org/pitest/sequence/SequenceQuery.java:26-29 | the alternative of two valid queries is valid |
| Query.SequenceQuery.ThenAnyOf | pitest-entry/src/main/java/org/pitest/sequence/SequenceQuery.java:31-36 | a valid query followed by an alternative of well-formed queries is valid |
| Query.SequenceQuery.ZeroOrMore | pitest-entry/src/main/java/org/pitest/sequence/SequenceQuery.java:38-41 | a valid query followed by a repetition of a valid query is valid, so every round reads a token |
| Query.SequenceQuery.OneOrMore | pitest-entry/src/main/java/org/pitest/sequence/SequenceQuery.java:43-46 | as for ZeroOrMore, with at least one round |
| Query.SequenceQuery.Compile | pitest-entry/src/main/java/org/pitest/sequence/SequenceQuery.java:53-56 | the matcher keeps the ignore predicate; its arena and start state are what `make(EndMatch)` allocates on an empty heap; for a well-formed pattern the matcher is runnable (closed and free of Split cycles) |
| Query.ThenMatches | pitest-entry/src/main/java/org/pitest/sequence/SequenceQuery.java:21-24 | `a.then(b)` matches exactly the sequences that split into a match of `a` and then a match of `b`, with `b` started from `a`'s resulting context (both directions) |
| Query.OrMatches | pitest-entry/src/main/java/org/pitest/sequence/SequenceQuery.java:26-29 | `a.or(b)` matches with exactly the union of the contexts of both sides |
| Query.ThenAnyOfIsThenOr | pitest-entry/src/main/java/org/pitest/sequence/SequenceQuery.java:31-36 | `x.thenAnyOf(l, r)` builds the same query as `x.then(l.or(r))` |
| Query.ZeroOrMoreKeepsPrefix | pitest-entry/src/main/java/org/pitest/sequence/SequenceQuery.java:38-41 | zero rounds are allowed: every match of `x` is a match of `x.zeroOrMore(q)` |
| Query.OneOrMoreWithinZeroOrMore | pitest-entry/src/main/java/org/pitest/sequence/SequenceQuery.java:43-46 | every match of `x.oneOrMore(q)` is a match of `x.zeroOrMore(q)` |
| Query.CompiledQueryMatches | pitest-entry/src/main/java/org/pitest/sequence/SequenceQuery.java:141-228 | end to end: a compiled well-formed query, run with an ignore predicate that looks only at the token, leaves at EndMatch exactly the contexts with which the query matches the sequence once the ignored tokens are removed |
| Pattern.EmptyResults | pitest-entry/src/main/java/org/pitest/sequence/SequenceQuery.java:62-136 | on the empty sequence a fragment matches only if it can be passed without a token, and then leaves the context unchanged |
| Pattern.PlusWithinRepeat | pitest-entry/src/main/java/org/pitest/sequence/SequenceQuery.java:108-136 | one or more rounds of a fragment are among its zero or more rounds |
| Pattern.PlusIsConcatRepeat | pitest-entry/src/main/java/org/pitest/sequence/SequenceQuery.java:132-136 | `Plus(r)` matches exactly what `Concat(r, Repeat(r))` matches |
| Builder.Build | pitest-entry/src/main/java/org/pitest/sequence/SequenceQuery.java:58-137 | `make` only allocates: earlier states are untouched, the entry is a new state, and the arena stays closed when the continuation is a valid reference |
| Builder.Arena.Make | pitest-entry/src/main/java/org/pitest/sequence/SequenceQuery.java:58-137 | the imperative `make` on the arena allocates exactly the states `Build` describes and returns its entry |
| Builder.PatchedClosed | pitest-entry/src/main/java/org/pitest/sequence/SequenceQuery.java:116-121 | the placeholder is still `Split(null, null)` after the body is realised, and patching its first branch keeps the arena closed |
| Builder.BuildRanked | pitest-entry/src/main/java/org/pitest/sequence/SequenceQuery.java:58-137 | a well-formed fragment compiles into states that can be ranked so that every Split branch goes down; the entry's height is bounded by the fragment's size |
| Builder.OrRanked | pitest-entry/src/main/java/org/pitest/sequence/SequenceQuery.java:85-89 | the Split that `Or.make` allocates keeps the ranking |
| Builder.RepeatRanked | pitest-entry/src/main/java/org/pitest/sequence/SequenceQuery.java:116-121 | the loop that `Repeat.make` closes by patching the placeholder is no cycle of Splits when the body must read a token |
| Thompson.BuildCorrect | pitest-entry/src/main/java/org/pitest/sequence/SequenceQuery.java:58-137 | in any arena that still holds the states `make` allocated, the entry accepts a sequence with context `d` exactly when the fragment matches a prefix and the continuation accepts the rest with `d` |
| Thompson.RepeatLayout | pitest-entry/src/main/java/org/pitest/sequence/SequenceQuery.java:116-121 | from the patched placeholder a run accepts exactly what the body's entry accepts plus what the continuation accepts; the unset second branch adds nothing |
| Thompson.CompileValid | pitest-entry/src/main/java/org/pitest/sequence/SequenceQuery.java:53-56 | compiling a well-formed pattern in front of EndMatch gives a runnable automaton |
| Thompson.CompileCorrect | pitest-entry/src/main/java/org/pitest/sequence/SequenceQuery.java:53-56 | with nothing ignored, the compiled start state accepts a sequence with exactly the contexts with which the pattern matches it |
| Automaton.EndMatchNever | pitest-entry/src/main/java/org/pitest/sequence/SequenceQuery.java:208-228 | with nothing ignored, EndMatch accepts only the end of the input, with the context unchanged |
| Automaton.FilterAppend | pitest-entry/src/main/java/org/pitest/sequence/SequenceQuery.java:208-228 | removing ignored tokens keeps the order of the rest: filtering a concatenation concatenates the filtered parts |
| Automaton.IgnoringIsFiltering | pitest-entry/src/main/java/org/pitest/sequence/SequenceQuery.java:208-228 | when ignore looks only at the token, running with ignore equals running with nothing ignored over the sequence without the ignored tokens |
| Matcher.SequenceMatcher.Closure | pitest-entry/src/main/java/org/pitest/sequence/SequenceQuery.java:189-206 | the pairs `addState` adds all wait in a Consume or EndMatch and carry the given context; a waiting state adds only itself |
| Matcher.SequenceMatcher.Successors | pitest-entry/src/main/java/org/pitest/sequence/SequenceQuery.java:211-226 | an ignored token keeps the pair unchanged; EndMatch with a token that is not ignored yields nothing |
| Matcher.SequenceMatcher.AddState | pitest-entry/src/main/java/org/pitest/sequence/SequenceQuery.java:189-206 | adds exactly the closure of the pair through Splits (an unset branch adds nothing) and keeps what was there |
| Matcher.SequenceMatcher.Step | pitest-entry/src/main/java/org/pitest/sequence/SequenceQuery.java:208-228 | returns a fresh set holding exactly the successors of every pair of the current set |
| Matcher.SequenceMatcher.Run | pitest-entry/src/main/java/org/pitest/sequence/SequenceQuery.java:176-186 | the final set is the start closure stepped over every token in order |
| Matcher.SequenceMatcher.Matches | pitest-entry/src/main/java/org/pitest/sequence/SequenceQuery.java:159-165 | true exactly when some final pair stands at EndMatch, that is, exactly when the automaton accepts the sequence with some context |
| Matcher.SequenceMatcher.ContextMatches | pitest-entry/src/main/java/org/pitest/sequence/SequenceQuery.java:167-174 | the contexts of the final pairs at EndMatch, each once: exactly the contexts with which the automaton accepts the sequence |
| Matcher.SequenceMatcher.ClosureAccepts | pitest-entry/src/main/java/org/pitest/sequence/SequenceQuery.java:189-206 | following Splits early in `addState` loses no run and adds none |
| Matcher.SequenceMatcher.StepAccepts | pitest-entry/src/main/java/org/pitest/sequence/SequenceQuery.java:208-228 | one step consumes exactly one token of what the live pairs still accept |
| Matcher.SequenceMatcher.RunAccepts | pitest-entry/src/main/java/org/pitest/sequence/SequenceQuery.java:176-186 | running live pairs over a sequence leaves at EndMatch exactly the contexts they accept |
| Matcher.SequenceMatcher.RunCorrect | pitest-entry/src/main/java/org/pitest/sequence/SequenceQuery.java:176-186 | the contexts at EndMatch after `run` are exactly those with which the automaton accepts from the start state |
| Matcher.SequenceMatcher.EndMatchSurvivesIgnored | pitest-entry/src/main/java/org/pitest/sequence/SequenceQuery.java:212-214 | a pair already at EndMatch is kept through an ignored token, because ignore is tested before the kind of state |
| Scenarios.CaptureThenSameResults | pitest-entry/src/main/java/org/pitest/sequence/SequenceQuery.java:17-24 | "capture a token, then the same token": `[1, 1]` matches with context 1 only, and `[1, 2]` does not match |
| Scenarios.CaptureExample | pitest-entry/src/main/java/org/pitest/sequence/SequenceQuery.java:167-174 | `contextMatches` on the compiled capture query returns `[1]` for `[1, 1]` and `[]` for `[1, 2]` |
| Scenarios.IgnoreExample | pitest-entry/src/main/java/org/pitest/sequence/SequenceQuery.java:208-228 | "a 1, then a 2" with 3 ignored matches `[3, 1, 3, 2, 3]` |
| ReactorReactiveMutator.ReactiveMethods | pitest/src/main/java/org/pitest/mutationtest/engine/gregor/mutators/ReactorReactiveMutator.java:162-169 | a selected call is owned by Flux or Mono; for each owner, selected exactly when the descriptor returns that class and the name is in that class's list |
| ReactorReactiveMutator.SuffixesExclusive | pitest/src/main/java/org/pitest/mutationtest/engine/gregor/mutators/ReactorReactiveMutator.java:163-169 | no descriptor ends with both the Flux and the Mono return type |
| ReactorReactiveMutator.NoMixing | pitest/src/main/java/org/pitest/mutationtest/engine/gregor/mutators/ReactorReactiveMutator.java:162-169 | a Flux-returning descriptor is never selected for the Mono owner, and the converse |
| ReactorReactiveMutator.CacheInvalidateIfNotForFlux | pitest/src/main/java/org/pitest/mutationtest/engine/gregor/mutators/ReactorReactiveMutator.java:17-92 | `cacheInvalidateIf` is not a listed Flux operator |
| ReactorReactiveMutator.SingleNotForFlux | pitest/src/main/java/org/pitest/mutationtest/engine/gregor/mutators/ReactorReactiveMutator.java:17-92 | `single` is not a listed Flux operator |
| ReactorReactiveMutator.ConcatWithNotForMono | pitest/src/main/java/org/pitest/mutationtest/engine/gregor/mutators/ReactorReactiveMutator.java:93-144 | `concatWith` is not a listed Mono operator |
| ReactorReactiveMutator.SkipNotForMono | pitest/src/main/java/org/pitest/mutationtest/engine/gregor/mutators/ReactorReactiveMutator.java:93-144 | `skip` is not a listed Mono operator |
| ReactorReactiveMutator.SharedOperatorsListed | pitest/src/main/java/org/pitest/mutationtest/engine/gregor/mutators/ReactorReactiveMutator.java:17-144 | `filter` and `doOnNext` are listed for both classes |
| ReactorReactiveMutator.UnlistedRejectedOnFlux | pitest/src/main/java/org/pitest/mutationtest/engine/gregor/mutators/ReactorReactiveMutator.java:162-169 | for every name not in the Flux list and every descriptor, a Flux-owned call is not selected |
| ReactorReactiveMutator.UnlistedRejectedOnMono | pitest/src/main/java/org/pitest/mutationtest/engine/gregor/mutators/ReactorReactiveMutator.java:162-169 | for every name not in the Mono list and every descriptor, a Mono-owned call is not selected |
| ReactorReactiveMutator.MonoOnlyRejectedOnFlux | pitest/src/main/java/org/pitest/mutationtest/engine/gregor/mutators/ReactorReactiveMutator.java:162-169 | examples: `cacheInvalidateIf` and `single`, listed for Mono only, are never selected on Flux |
| ReactorReactiveMutator.FluxOnlyRejectedOnMono | pitest/src/main/java/org/pitest/mutationtest/engine/gregor/mutators/ReactorReactiveMutator.java:162-169 | examples: `concatWith` and `skip`, listed for Flux only, are never selected on Mono |
| ReactorReactiveMutator.DescriptorSuffix | pitest/src/main/java/org/pitest/mutationtest/engine/gregor/mutators/ReactorReactiveMutator.java:162-169 | only the descriptor's suffix counts: whatever the parameters, a Flux-owned call returning Flux is selected exactly for the Flux operators, and likewise for Mono |
| ReactorReactiveMutator.SharedOperators | pitest/src/main/java/org/pitest/mutationtest/engine/gregor/mutators/ReactorReactiveMutator.java:162-169 | every name listed for both classes is selected on either class, whatever the parameter list |
| ReactorReactiveMutator.FilterAndDoOnNextShared | pitest/src/main/java/org/pitest/mutationtest/engine/gregor/mutators/ReactorReactiveMutator.java:162-169 | examples: `filter` and `doOnNext` are selected on both classes |
| ReactorReactiveMutator.OwnerExact | pitest/src/main/java/org/pitest/mutationtest/engine/gregor/mutators/ReactorReactiveMutator.java:162-169 | for every owner other than exactly the Flux or Mono class (including one whose name only starts with Flux's), no call is selected |

## Left out

- Matcher.SequenceMatcher.Run: requires an automaton without a cycle of Splits (`Valid`). The original recurses without end in `addState` on such a cycle, for example for a pattern `Repeat(Repeat(x))`. Every query grown from single-token literals by the combinators satisfies `Valid`, since the combinators' contracts preserve it. Matches and ContextMatches share this requirement.
- Query.CompiledQueryMatches: stated for ignore predicates that look only at the token. An ignore predicate that reads the context is modelled by `EndContexts` but is not reduced to filtering.
- Thompson.CompileCorrect: stated with nothing ignored; Query.CompiledQueryMatches adds the ignore predicate.
- `compile()` with default parameters, and the debug flag: `QueryParams` and `Context.start` are not part of this model. The ignore predicate and the initial context are parameters instead.
- `matches(List)` without a context: the same reason; it is `matches` with the starting context.
- Context equality: `Context` is not part of this model, so contexts are compared by value.
- `hashCode`, `HashSet` internals and iteration order: the state set is a mathematical set. ContextMatches returns the contexts in an unspecified order, as iteration over the set does.
- The null check on the `StateContext` argument of `addState`: the model never passes a null pair, only pairs whose state may be null.
- `ReactorReactiveMutator.create`, `getGloballyUniqueId` and `getName`: they build a bytecode visitor or return names. The visitor is not part of this model.
- `reactiveMethods()` returns a `TriFunction`; the model is the function it returns, applied to its arguments.
- `CommunicationThread` and `MutationContext`: they are not part of this model.
