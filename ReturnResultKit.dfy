/**
  A model of ReturnResultKit: `ReturnResult` wraps a callback-taking promise
  into a deferred computation. Building a wrapper (`Init`) or deriving one
  (`Map`) runs nothing; only `Sink` runs the stored promise, handing it the
  caller's callback.

  The model is written in continuation-passing style. A callback returns an
  answer of type `R`, which stands for Swift's `Void` together with whatever
  the callback does when it is called. With `R := seq<E>` the answer is a
  trace of events, so that the promise's own effects and every call of the
  callback become observable (see `Reports`).
 */
module ReturnResultKit {

  /** Swift's `Result`: exactly one of a success value or a failure. */
  datatype Result<O, F> = Success(value: O) | Failure(error: F)

  /** A completion callback: it receives one outcome and yields its answer. */
  type SimplePromise<!O, !F, R> = Result<O, F> -> R

  /** The wrapper. `result` is the stored promise: given the callback, it
      does its work and reports outcomes by calling that callback. */
  datatype ReturnResult<!O, !F, !R> = ReturnResult(result: SimplePromise<O, F, R> -> R)

  /** The stored promise, when run with any callback, hands exactly `outcome`
      to it once, and that call is all the run amounts to. */
  ghost predicate Delivers<O(!new), F(!new), R(!new)>(w: ReturnResult<O, F, R>, outcome: Result<O, F>)
  {
    forall k :: w.result(k) == k(outcome)
  }

  /** Two callbacks that answer alike on every outcome. */
  ghost predicate SameCallback<O(!new), F(!new), R(!new)>(k1: SimplePromise<O, F, R>, k2: SimplePromise<O, F, R>)
  {
    forall o :: k1(o) == k2(o)
  }

  /** The stored promise observes its callback only by calling it, as every
      Swift closure does: callbacks that answer alike give runs that answer
      alike. Dafny's function values are not extensional, so the laws that
      compare two different callbacks need this of the promise. */
  ghost predicate Extensional<O(!new), F(!new), R(!new)>(w: ReturnResult<O, F, R>)
  {
    forall k1, k2 :: SameCallback(k1, k2) ==> w.result(k1) == w.result(k2)
  }

  /** `init(promise:)`: stores the promise without running it. */
  function Init<O(!new), F(!new), R(!new)>(promise: SimplePromise<O, F, R> -> R): (w: ReturnResult<O, F, R>)
    ensures forall k :: Sink(w, k) == promise(k)
  {
    ReturnResult(promise)
  }

  /** `sink(result:)`: runs the stored promise with the caller's callback.
      Every call runs the promise afresh; nothing is cached. */
  function Sink<O(!new), F(!new), R(!new)>(w: ReturnResult<O, F, R>, k: SimplePromise<O, F, R>): (answer: R)
    ensures forall o :: Delivers(w, o) ==> answer == k(o)
  {
    w.result(k)
  }

  /** The outcome a mapped wrapper passes on for an outcome of the original:
      a success is transformed, a failure passes through with the same error. */
  function Transform<O(!new), F(!new), N(!new)>(transform: O -> N, outcome: Result<O, F>): Result<N, F>
  {
    match outcome
    case Success(v) => Success(transform(v))
    case Failure(e) => Failure(e)
  }

  /** The callback that `map` hands to the original promise: it switches on
      the outcome and calls the new callback once in either branch. */
  function Forward<O(!new), F(!new), R(!new), N(!new)>(transform: O -> N, newPromise: SimplePromise<N, F, R>): SimplePromise<O, F, R>
  {
    (newResult: Result<O, F>) =>
      match newResult
      case Success(newOutput) => newPromise(Success(transform(newOutput)))
      case Failure(error) => newPromise(Failure(error))
  }

  /** `map(_:)`: a new wrapper whose promise runs the original once, with
      `Forward` as its callback. Only the output type changes; the failure
      type `F` is the same on both sides. */
  function Map<O(!new), F(!new), R(!new), N(!new)>(w: ReturnResult<O, F, R>, transform: O -> N): (mapped: ReturnResult<N, F, R>)
    ensures forall v :: Delivers(w, Success(v)) ==> Delivers(mapped, Success(transform(v)))
    ensures forall e :: Delivers(w, Failure(e)) ==> Delivers(mapped, Failure(e))
  {
    var mapped := ReturnResult((newPromise: SimplePromise<N, F, R>) => w.result(Forward(transform, newPromise)));
    assert forall o :: Delivers(w, o) ==> Delivers(mapped, Transform(transform, o)) by {
      forall o | Delivers(w, o) ensures Delivers(mapped, Transform(transform, o)) {
        forall k ensures mapped.result(k) == k(Transform(transform, o)) {
          ForwardCallsOnce(transform, k, o);
        }
      }
    }
    mapped
  }

  /** The forwarding callback calls the new callback exactly once, with the
      transformed outcome. */
  lemma ForwardCallsOnce<O(!new), F(!new), R(!new), N(!new)>(transform: O -> N, newPromise: SimplePromise<N, F, R>, outcome: Result<O, F>)
    ensures Forward(transform, newPromise)(outcome) == newPromise(Transform(transform, outcome))
  {
  }

  /** On the failure path the answer does not depend on `transform`: whatever
      it is, the mapped wrapper answers as the callback does on the original
      error. */
  lemma MapFailureIgnoresTransform<O(!new), F(!new), R(!new), N(!new)>(w: ReturnResult<O, F, R>, e: F, f: O -> N, g: O -> N, k: SimplePromise<N, F, R>)
    requires Delivers(w, Failure(e))
    ensures Sink(Map(w, f), k) == Sink(Map(w, g), k) == k(Failure(e))
  {
  }

  /** Forwarding preserves "answers alike on every outcome". */
  lemma ForwardSameCallback<O(!new), F(!new), R(!new), N(!new)>(transform: O -> N, k1: SimplePromise<N, F, R>, k2: SimplePromise<N, F, R>)
    requires SameCallback(k1, k2)
    ensures SameCallback(Forward(transform, k1), Forward(transform, k2))
  {
  }

  /** A mapped wrapper observes its callback only by calling it when the
      original does, so the functor laws apply to chains of maps too. */
  lemma MapExtensional<O(!new), F(!new), R(!new), N(!new)>(w: ReturnResult<O, F, R>, transform: O -> N)
    requires Extensional(w)
    ensures Extensional(Map(w, transform))
  {
    forall k1, k2 | SameCallback(k1, k2)
      ensures Map(w, transform).result(k1) == Map(w, transform).result(k2)
    {
      ForwardSameCallback(transform, k1, k2);
    }
  }

  /** Functor identity law: `map` with the identity delivers what the
      original delivers, for every callback. */
  lemma MapIdentity<O(!new), F(!new), R(!new)>(w: ReturnResult<O, F, R>, k: SimplePromise<O, F, R>)
    requires Extensional(w)
    ensures Sink(Map(w, (x: O) => x), k) == Sink(w, k)
  {
    var id := (x: O) => x;
    forall o: Result<O, F> ensures Forward(id, k)(o) == k(o) {
      ForwardCallsOnce(id, k, o);
    }
    assert SameCallback(Forward(id, k), k);
  }

  /** Functor composition law: `map(f).map(g)` delivers what `map(g . f)`
      delivers, for every callback. */
  lemma MapComposition<O(!new), F(!new), R(!new), M(!new), N(!new)>(w: ReturnResult<O, F, R>, f: O -> M, g: M -> N, k: SimplePromise<N, F, R>)
    requires Extensional(w)
    ensures Sink(Map(Map(w, f), g), k) == Sink(Map(w, (x: O) => g(f(x))), k)
  {
    var gf := (x: O) => g(f(x));
    forall o: Result<O, F> ensures Forward(f, Forward(g, k))(o) == Forward(gf, k)(o) {
      ForwardCallsOnce(f, Forward(g, k), o);
      ForwardCallsOnce(g, k, Transform(f, o));
      ForwardCallsOnce(gf, k, o);
    }
    assert SameCallback(Forward(f, Forward(g, k)), Forward(gf, k));
  }

  // ---------------------------------------------------------------------
  // Observable runs: the answer is a trace of events.
  // ---------------------------------------------------------------------

  /** The trace of a run that performs `effects[0]`, calls the callback with
      `outcomes[0]`, performs `effects[1]`, and so on, ending with the last
      effects. The promise is free to call its callback any number of times;
      the wrapper does not enforce once. */
  function Weave<O(!new), F(!new), E(!new)>(effects: seq<seq<E>>, outcomes: seq<Result<O, F>>, k: SimplePromise<O, F, seq<E>>): seq<E>
    requires |effects| == |outcomes| + 1
    decreases |outcomes|
  {
    if outcomes == [] then effects[0]
    else effects[0] + k(outcomes[0]) + Weave(effects[1..], outcomes[1..], k)
  }

  /** Every run of the stored promise interleaves `effects` with one call of
      the callback per element of `outcomes`, in order. */
  ghost predicate Reports<O(!new), F(!new), E(!new)>(w: ReturnResult<O, F, seq<E>>, outcomes: seq<Result<O, F>>, effects: seq<seq<E>>)
  {
    && |effects| == |outcomes| + 1
    && forall k :: w.result(k) == Weave(effects, outcomes, k)
  }

  /** The outcomes a mapped wrapper passes on: one per outcome of the
      original, in the same order. */
  function TransformAll<O(!new), F(!new), N(!new)>(transform: O -> N, outcomes: seq<Result<O, F>>): (forwarded: seq<Result<N, F>>)
    ensures |forwarded| == |outcomes|
    ensures forall i :: 0 <= i < |outcomes| ==> forwarded[i] == Transform(transform, outcomes[i])
  {
    if outcomes == [] then []
    else [Transform(transform, outcomes[0])] + TransformAll(transform, outcomes[1..])
  }

  /** Running with the forwarding callback is running with the transformed
      outcomes: the effects are untouched. */
  lemma {:induction false} WeaveForward<O(!new), F(!new), E(!new), N(!new)>(effects: seq<seq<E>>, outcomes: seq<Result<O, F>>, transform: O -> N, k: SimplePromise<N, F, seq<E>>)
    requires |effects| == |outcomes| + 1
    ensures Weave(effects, outcomes, Forward(transform, k)) == Weave(effects, TransformAll(transform, outcomes), k)
    decreases |outcomes|
  {
    if outcomes != [] {
      ForwardCallsOnce(transform, k, outcomes[0]);
      WeaveForward(effects[1..], outcomes[1..], transform, k);
      assert TransformAll(transform, outcomes)[1..] == TransformAll(transform, outcomes[1..]);
    }
  }

  /** A run of the mapped wrapper runs the original exactly once (its
      effects appear once, unchanged) and forwards exactly one outcome for
      each outcome the original reports: successes transformed, failures as
      they were. */
  lemma MapReports<O(!new), F(!new), E(!new), N(!new)>(w: ReturnResult<O, F, seq<E>>, outcomes: seq<Result<O, F>>, effects: seq<seq<E>>, transform: O -> N)
    requires Reports(w, outcomes, effects)
    ensures Reports(Map(w, transform), TransformAll(transform, outcomes), effects)
  {
    forall k: SimplePromise<N, F, seq<E>>
      ensures Map(w, transform).result(k) == Weave(effects, TransformAll(transform, outcomes), k)
    {
      WeaveForward(effects, outcomes, transform, k);
    }
  }

  /** Two maps that each change the output type, `O` to `M` to `N`: the
      original still runs once with its effects unchanged, and each outcome
      is passed on once, transformed by both maps in turn. */
  lemma MapTwiceReports<O(!new), F(!new), E(!new), M(!new), N(!new)>(w: ReturnResult<O, F, seq<E>>, outcomes: seq<Result<O, F>>, effects: seq<seq<E>>, f: O -> M, g: M -> N)
    requires Reports(w, outcomes, effects)
    ensures Reports(Map(Map(w, f), g), TransformAll(g, TransformAll(f, outcomes)), effects)
  {
    MapReports(w, outcomes, effects, f);
    MapReports(Map(w, f), TransformAll(f, outcomes), effects, g);
  }

  /** Failure pass-through for any run, with effects and any number of
      callback calls: when every outcome the original reports is a failure,
      the mapped wrapper passes on the same errors, and its trace does not
      depend on `transform`. */
  lemma MapFailuresIgnoreTransform<O(!new), F(!new), E(!new), N(!new)>(w: ReturnResult<O, F, seq<E>>, outcomes: seq<Result<O, F>>, effects: seq<seq<E>>, f: O -> N, g: O -> N, k: SimplePromise<N, F, seq<E>>)
    requires Reports(w, outcomes, effects)
    requires forall i :: 0 <= i < |outcomes| ==> outcomes[i].Failure?
    ensures forall i :: 0 <= i < |outcomes| ==> TransformAll(f, outcomes)[i] == Failure(outcomes[i].error)
    ensures Sink(Map(w, f), k) == Sink(Map(w, g), k) == Weave(effects, TransformAll(f, outcomes), k)
  {
    MapReports(w, outcomes, effects, f);
    MapReports(w, outcomes, effects, g);
    assert TransformAll(f, outcomes) == TransformAll(g, outcomes);
  }

  /** Callbacks that answer alike give the same trace. */
  lemma {:induction false} WeaveSameCallback<O(!new), F(!new), E(!new)>(effects: seq<seq<E>>, outcomes: seq<Result<O, F>>, k1: SimplePromise<O, F, seq<E>>, k2: SimplePromise<O, F, seq<E>>)
    requires |effects| == |outcomes| + 1
    requires SameCallback(k1, k2)
    ensures Weave(effects, outcomes, k1) == Weave(effects, outcomes, k2)
    decreases |outcomes|
  {
    if outcomes != [] {
      WeaveSameCallback(effects[1..], outcomes[1..], k1, k2);
    }
  }

  /** A promise described by `Reports` observes its callback only by calling
      it, so the functor laws hold of it without further assumption. */
  lemma ReportsExtensional<O(!new), F(!new), E(!new)>(w: ReturnResult<O, F, seq<E>>, outcomes: seq<Result<O, F>>, effects: seq<seq<E>>)
    requires Reports(w, outcomes, effects)
    ensures Extensional(w)
  {
    forall k1, k2 | SameCallback(k1, k2) ensures w.result(k1) == w.result(k2) {
      WeaveSameCallback(effects, outcomes, k1, k2);
    }
  }

  /** A pipeline of same-typed maps, built left to right. */
  function MapChain<O(!new), F(!new), R(!new)>(w: ReturnResult<O, F, R>, transforms: seq<O -> O>): ReturnResult<O, F, R>
    decreases |transforms|
  {
    if transforms == [] then w else MapChain(Map(w, transforms[0]), transforms[1..])
  }

  /** The outcomes a pipeline of maps passes on. */
  function TransformChain<O(!new), F(!new)>(transforms: seq<O -> O>, outcomes: seq<Result<O, F>>): (forwarded: seq<Result<O, F>>)
    ensures |forwarded| == |outcomes|
    decreases |transforms|
  {
    if transforms == [] then outcomes
    else TransformChain(transforms[1..], TransformAll(transforms[0], outcomes))
  }

  /** However many maps are chained, building the chain runs nothing, and
      sinking it runs the original promise's effects exactly once. */
  lemma {:induction false} MapChainReports<O(!new), F(!new), E(!new)>(w: ReturnResult<O, F, seq<E>>, outcomes: seq<Result<O, F>>, effects: seq<seq<E>>, transforms: seq<O -> O>)
    requires Reports(w, outcomes, effects)
    ensures Reports(MapChain(w, transforms), TransformChain(transforms, outcomes), effects)
    decreases |transforms|
  {
    if transforms != [] {
      MapReports(w, outcomes, effects, transforms[0]);
      MapChainReports(Map(w, transforms[0]), TransformAll(transforms[0], outcomes), effects, transforms[1..]);
    }
  }

  /** A promise that records `tick` when it starts and then reports one
      outcome: each sink of a chain of maps over it records exactly one
      tick, and sinking twice records two: a wrapper is a value with no
      state, so every sink runs the whole chain again. */
  lemma SinkRunsPromiseOncePerCall<O(!new), F(!new), E(!new)>(promise: SimplePromise<O, F, seq<E>> -> seq<E>, outcome: Result<O, F>, tick: E, transforms: seq<O -> O>, k: SimplePromise<O, F, seq<E>>)
    requires forall c :: promise(c) == [tick] + c(outcome)
    requires forall o :: tick !in k(o)
    ensures multiset(Sink(MapChain(Init(promise), transforms), k))[tick] == 1
    ensures multiset(Sink(MapChain(Init(promise), transforms), k) + Sink(MapChain(Init(promise), transforms), k))[tick] == 2
  {
    var effects: seq<seq<E>> := [[tick], []];
    forall c ensures Init(promise).result(c) == Weave(effects, [outcome], c) {
      assert Weave(effects, [outcome], c) == [tick] + c(outcome) + effects[1];
    }
    MapChainReports(Init(promise), [outcome], effects, transforms);
    var forwarded := TransformChain(transforms, [outcome]);
    var run := Sink(MapChain(Init(promise), transforms), k);
    assert run == Weave(effects, forwarded, k);
    assert Weave(effects[1..], forwarded[1..], k) == [];
    assert run == [tick] + k(forwarded[0]) + [];
    assert tick !in k(forwarded[0]);
  }
}
