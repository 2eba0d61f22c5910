/**
 * Which method calls the Reactor mutator may remove: a call whose owner is
 * exactly the Flux (or Mono) publisher class, whose descriptor returns that
 * same class, and whose name is one of the operators listed for that class.
 * Strings are JVM internal names and method descriptors.
 */
module ReactorReactiveMutator {

  const ReactorFluxClass: string := "reactor/core/publisher/Flux"
  const ReactorMonoClass: string := "reactor/core/publisher/Mono"

  /** The Flux operators whose calls are candidates for removal. */
  const FluxMethods: seq<string> :=
    ["cache", "cancelOn", "checkpoint", "concatWith", "concatWithValues", "contextWrite"]
    + ["defaultIfEmpty", "delayElements", "delaySequence", "delaySubscription", "delayUntil"]
    + ["distinct", "distinctUntilChanged", "doAfterTerminate", "doFinally", "doFirst", "doOnCancel"]
    + ["doOnComplete", "doOnEach", "doOnError", "doOnNext", "doOnRequest", "doOnSubscribe"]
    + ["doOnTerminate", "expand", "expandDeep", "filter", "filterWhen", "hide", "limitRate"]
    + ["limitRequest", "log", "mergeComparingWith", "mergeOrderedWith", "mergeWith", "metrics"]
    + ["name", "onBackpressureBuffer", "onBackpressureDrop", "onBackpressureError"]
    + ["onBackpressureLatest", "onErrorContinue", "onErrorMap", "onErrorResume", "onErrorReturn"]
    + ["onErrorStop", "onTerminateDetach", "or", "publishOn", "repeat", "repeatWhen", "retry"]
    + ["retryWhen", "sample", "sampleFirst", "scan", "share", "skip", "skipLast", "skipUntil"]
    + ["skipUntilOther", "skipWhile", "sort", "startWith", "subscribeOn", "subscriberContext"]
    + ["switchIfEmpty", "tag", "take", "takeLast", "takeUntil", "takeUntilOther", "takeWhile"]
    + ["timeout"]

  /** The Mono operators whose calls are candidates for removal. */
  const MonoMethods: seq<string> :=
    ["cache", "cacheInvalidateIf", "cacheInvalidateWhen", "cancelOn", "checkpoint", "contextWrite"]
    + ["defaultIfEmpty", "delayElement", "delaySubscription", "delayUntil", "doAfterSuccessOrError"]
    + ["doAfterTerminate", "doFinally", "doFirst", "doOnCancel", "doOnEach", "doOnError", "doOnNext"]
    + ["doOnRequest", "doOnSubscribe", "doOnSuccess", "doOnSuccessOrError", "doOnTerminate", "filter"]
    + ["filterWhen", "hide", "ignoreElement", "log", "metrics", "name", "onErrorContinue"]
    + ["onErrorMap", "onErrorResume", "onErrorReturn", "onErrorStop", "onTerminateDetach", "or"]
    + ["publishOn", "repeatWhenEmpty", "retry", "retryWhen", "share", "single", "subscribeOn"]
    + ["subscriberContext", "switchIfEmpty", "tag", "take", "takeUntilOther", "timeout"]

  /** Java's `String.endsWith`. */
  predicate EndsWith(s: string, suffix: string)
  {
    |suffix| <= |s| && s[|s| - |suffix|..] == suffix
  }

  /**
   * The selector `reactiveMethods()` returns, applied to (name, descriptor,
   * owner): the Flux conditions all together, or the Mono conditions all
   * together; a selected call is owned by one of the two classes, and its
   * descriptor and name belong to that same class.
   */
  function ReactiveMethods(name: string, desc: string, owner: string): (r: bool)
    ensures r ==> owner == ReactorFluxClass || owner == ReactorMonoClass
    ensures owner == ReactorFluxClass ==> (r <==> EndsWith(desc, ReactorFluxClass + ";") && name in FluxMethods)
    ensures owner == ReactorMonoClass ==> (r <==> EndsWith(desc, ReactorMonoClass + ";") && name in MonoMethods)
  {
    (EndsWith(desc, ReactorFluxClass + ";") && owner == ReactorFluxClass && name in FluxMethods)
    || (EndsWith(desc, ReactorMonoClass + ";") && owner == ReactorMonoClass && name in MonoMethods)
  }

  /** No descriptor returns both classes: the two suffixes have the same length and differ. */
  lemma SuffixesExclusive(desc: string)
    ensures !(EndsWith(desc, ReactorFluxClass + ";") && EndsWith(desc, ReactorMonoClass + ";"))
  {
    var flux := ReactorFluxClass + ";";
    var mono := ReactorMonoClass + ";";
    assert |flux| == |mono| && flux[24] != mono[24];
    if EndsWith(desc, flux) && EndsWith(desc, mono) {
      assert false;
    }
  }

  /** Conditions of the two classes never mix: a Flux-returning descriptor is never selected for the Mono owner, nor the converse. */
  lemma NoMixing(name: string, desc: string)
    ensures EndsWith(desc, ReactorFluxClass + ";") ==> !ReactiveMethods(name, desc, ReactorMonoClass)
    ensures EndsWith(desc, ReactorMonoClass + ";") ==> !ReactiveMethods(name, desc, ReactorFluxClass)
  {
    SuffixesExclusive(desc);
  }

  lemma CacheInvalidateIfNotForFlux()
    ensures "cacheInvalidateIf" !in FluxMethods
  {
  }

  lemma SingleNotForFlux()
    ensures "single" !in FluxMethods
  {
  }

  lemma ConcatWithNotForMono()
    ensures "concatWith" !in MonoMethods
  {
  }

  lemma SkipNotForMono()
    ensures "skip" !in MonoMethods
  {
  }

  lemma SharedOperatorsListed()
    ensures "filter" in FluxMethods && "filter" in MonoMethods
    ensures "doOnNext" in FluxMethods && "doOnNext" in MonoMethods
  {
  }

  /** A name missing from the Flux list is never selected on Flux, whatever the descriptor. */
  lemma UnlistedRejectedOnFlux(name: string, desc: string)
    requires name !in FluxMethods
    ensures !ReactiveMethods(name, desc, ReactorFluxClass)
  {
  }

  /** A name missing from the Mono list is never selected on Mono, whatever the descriptor. */
  lemma UnlistedRejectedOnMono(name: string, desc: string)
    requires name !in MonoMethods
    ensures !ReactiveMethods(name, desc, ReactorMonoClass)
  {
  }

  /** Operators listed for Mono only (for example `cacheInvalidateIf`, `single`) are never selected on Flux. */
  lemma MonoOnlyRejectedOnFlux(desc: string)
    ensures !ReactiveMethods("cacheInvalidateIf", desc, ReactorFluxClass)
    ensures !ReactiveMethods("single", desc, ReactorFluxClass)
  {
    CacheInvalidateIfNotForFlux();
    SingleNotForFlux();
    UnlistedRejectedOnFlux("cacheInvalidateIf", desc);
    UnlistedRejectedOnFlux("single", desc);
  }

  /** Operators listed for Flux only (for example `concatWith`, `skip`) are never selected on Mono. */
  lemma FluxOnlyRejectedOnMono(desc: string)
    ensures !ReactiveMethods("concatWith", desc, ReactorMonoClass)
    ensures !ReactiveMethods("skip", desc, ReactorMonoClass)
  {
    ConcatWithNotForMono();
    SkipNotForMono();
    UnlistedRejectedOnMono("concatWith", desc);
    UnlistedRejectedOnMono("skip", desc);
  }

  /**
   * The descriptor is matched by suffix only: whatever the parameter list
   * before the return type, a call owned by Flux and returning Flux is selected
   * exactly for the Flux operators, and likewise for Mono.
   */
  lemma DescriptorSuffix(name: string, params: string)
    ensures ReactiveMethods(name, params + ReactorFluxClass + ";", ReactorFluxClass) <==> name in FluxMethods
    ensures ReactiveMethods(name, params + ReactorMonoClass + ";", ReactorMonoClass) <==> name in MonoMethods
  {
    var fluxDesc := params + ReactorFluxClass + ";";
    var monoDesc := params + ReactorMonoClass + ";";
    assert fluxDesc[|fluxDesc| - |ReactorFluxClass + ";"|..] == ReactorFluxClass + ";";
    assert monoDesc[|monoDesc| - |ReactorMonoClass + ";"|..] == ReactorMonoClass + ";";
  }

  /** Every operator listed for both classes is selected on either class, for any parameter list. */
  lemma SharedOperators(name: string, params: string)
    requires name in FluxMethods && name in MonoMethods
    ensures ReactiveMethods(name, params + ReactorFluxClass + ";", ReactorFluxClass)
    ensures ReactiveMethods(name, params + ReactorMonoClass + ";", ReactorMonoClass)
  {
    DescriptorSuffix(name, params);
  }

  /** `filter` and `doOnNext` are among the operators selected on both classes. */
  lemma FilterAndDoOnNextShared(params: string)
    ensures ReactiveMethods("filter", params + ReactorFluxClass + ";", ReactorFluxClass)
    ensures ReactiveMethods("filter", params + ReactorMonoClass + ";", ReactorMonoClass)
    ensures ReactiveMethods("doOnNext", params + ReactorFluxClass + ";", ReactorFluxClass)
    ensures ReactiveMethods("doOnNext", params + ReactorMonoClass + ";", ReactorMonoClass)
  {
    SharedOperatorsListed();
    SharedOperators("filter", params);
    SharedOperators("doOnNext", params);
  }

  /**
   * The owner is compared whole: no other owner is ever selected, including
   * a class whose name merely starts with Flux's or Mono's.
   */
  lemma OwnerExact(name: string, desc: string, owner: string)
    requires owner != ReactorFluxClass && owner != ReactorMonoClass
    ensures !ReactiveMethods(name, desc, owner)
  {
  }
}
