# ReturnResultKit in Dafny

ReturnResultKit has one type, `ReturnResult<Output, Failure>`. It wraps a
callback-taking promise, a closure that does some work and reports a Swift
`Result` (`.success` or `.failure`) by calling the completion callback it is
given. The wrapper defers that work. `init(promise:)` stores the closure,
`map(_:)` builds a new wrapper that transforms success values and passes
failures through, and `sink(result:)` runs the stored closure with the
caller's callback. Only `sink` runs anything, and every `sink` runs the whole
chain again.

The model is one module, `ReturnResultKit` (`ReturnResultKit.dfy`), written
in continuation-passing style:

- `Result<O, F>` is Swift's `Result`. `SimplePromise<O, F, R>` is the
  callback type `Result<O, F> -> R`. The answer type `R` stands for Swift's
  `Void` together with whatever the callback does when it is called.
- `ReturnResult<O, F, R>` holds the stored promise `result: SimplePromise<O, F, R> -> R`.
- `Init`, `Map` and `Sink` are the three operations. `Forward` is the
  callback that `map` hands to the original promise: the `switch` of the
  source. `Transform` is the per-outcome reference for it.
- `Init` and `Map` return a wrapper, not an answer. They therefore cannot
  run a promise or produce an effect. Only `Sink` yields an answer.
- `Delivers(w, o)` says that every run of `w`'s promise calls its callback
  once, with `o`, and does nothing else.
- Side effects are made observable by taking the answer to be a trace,
  `R := seq<E>`. `Reports(w, outcomes, effects)` says that every run of the
  promise performs `effects[0]`, calls the callback with `outcomes[0]`,
  performs `effects[1]`, and so on. This covers promises that call their
  callback zero, one or many times. The wrapper does not enforce "once", so
  "once" is only ever an assumption about a given promise.
- `Extensional(w)` says that the promise observes its callback only by
  calling it: two callbacks that answer alike on every outcome give the same
  run. Every Swift closure has this property. Dafny does not treat function
  values as equal when they agree pointwise, so the functor laws are stated
  for callbacks pointwise and assume it. `MapExtensional` shows that `Map`
  preserves it, and `ReportsExtensional` shows that every promise described
  by `Reports` has it.

## Model

| member | source | states |
|---|---|---|
| `ReturnResultKit.Init` | Sources/ReturnResultKit/ReturnResultKit.swift:35-37 | Sinking a freshly built wrapper with any callback `k` is exactly running the stored promise with `k`. The promise is handed the caller's callback directly. |
| `ReturnResultKit.Sink` | Sources/ReturnResultKit/ReturnResultKit.swift:57-59 | Sinking a wrapper whose promise delivers `o` answers exactly as the caller's callback does on `o`. |
| `ReturnResultKit.Map` | Sources/ReturnResultKit/ReturnResultKit.swift:42-53 | If the original delivers `.success(v)`, the mapped wrapper delivers `.success(transform(v))`. If the original delivers `.failure(e)`, the mapped wrapper delivers `.failure(e)` with the same error. The failure type is the same on input and output. |
| `ReturnResultKit.ForwardCallsOnce` | Sources/ReturnResultKit/ReturnResultKit.swift:44-50 | The internal callback that `map` passes to the original promise calls the new callback exactly once per outcome it receives, with the success value transformed or the failure unchanged. |
| `ReturnResultKit.MapFailureIgnoresTransform` | Sources/ReturnResultKit/ReturnResultKit.swift:48-49 | When the original delivers a failure, the answer does not depend on `transform`: any two transforms give the same answer, which is the callback's answer on the original error. |
| `ReturnResultKit.MapExtensional` | Sources/ReturnResultKit/ReturnResultKit.swift:42-53 | If the original promise observes its callback only by calling it, so does the mapped one. The laws below therefore carry over to chains of maps. |
| `ReturnResultKit.MapIdentity` | Sources/ReturnResultKit/ReturnResultKit.swift:40-53 | Functor identity law: for every callback, sinking `map(identity)` answers as sinking the original does. |
| `ReturnResultKit.MapComposition` | Sources/ReturnResultKit/ReturnResultKit.swift:40-53 | Functor composition law: for every callback, sinking `map(f).map(g)` answers as sinking `map(g . f)` does. |
| `ReturnResultKit.TransformAll` | Sources/ReturnResultKit/ReturnResultKit.swift:43-51 | The outcomes a mapped promise passes on are exactly one per outcome of the original, in the same order: position `i` holds the `i`-th outcome with its success value transformed or its failure unchanged. |
| `ReturnResultKit.WeaveForward` | Sources/ReturnResultKit/ReturnResultKit.swift:43-51 | Running a promise with the forwarding callback gives the same trace as the same run delivering the transformed outcomes directly to the new callback. The promise's own effects are untouched. |
| `ReturnResultKit.MapReports` | Sources/ReturnResultKit/ReturnResultKit.swift:42-53 | Each run of the mapped wrapper runs the original exactly once: its effects appear once and unchanged. The mapped wrapper forwards exactly one outcome for each outcome the original reports, successes transformed and failures unchanged. This holds whether the original calls its callback zero, one or many times. |
| `ReturnResultKit.ReportsExtensional` | Sources/ReturnResultKit/ReturnResultKit.swift:13 | A stored promise described by a trace of effects and callback calls observes its callback only by calling it, so the functor laws hold of it with no extra assumption. |
| `ReturnResultKit.MapTwiceReports` | Sources/ReturnResultKit/ReturnResultKit.swift:42-53 | Two maps that each change the output type (`O` to `M` to `N`): the original runs once with its effects unchanged, and each outcome it reports is passed on once, transformed by both maps in turn. |
| `ReturnResultKit.MapFailuresIgnoreTransform` | Sources/ReturnResultKit/ReturnResultKit.swift:48-49 | For a promise with any effects and any number of callback calls, all of them failures: the mapped wrapper passes on the same errors in the same places, and its trace does not depend on `transform`. |
| `ReturnResultKit.MapChainReports` | Sources/ReturnResultKit/ReturnResultKit.swift:42-59 | However many same-type maps (`O -> O`) are chained, sinking the chain runs the original promise's effects exactly once. It delivers one outcome per original outcome, each transformed by every map in turn. Building the chain runs nothing. |
| `ReturnResultKit.SinkRunsPromiseOncePerCall` | Sources/ReturnResultKit/ReturnResultKit.swift:35-59 | Take a promise that records a tick when it starts and then reports one outcome. One sink of a chain of maps over it records exactly one tick. Two sinks record two ticks. Re-running on every sink is built into the model, since `Sink` has no state to cache in; the lemma shows what that means for the trace rather than proving it separately. |

## Left out

- The `fetchImage` / `URLSession` example in the documentation comment of `init` (ReturnResultKit.swift:18-33). It is network I/O and only documentation.
- When and on which thread a callback fires (`@escaping`). The code imposes nothing about timing, and the model runs a promise as one function application.
- The `unowned self` capture and closure memory management of the documentation example.
- `import Foundation` and the `Error` bound on `Failure`. `F` is a plain type parameter.
- Enforcing that a promise calls its callback exactly once. The source does not check it. The model states it only as an assumption on a given promise (`Delivers`, or `Reports` with one outcome).
- Every type parameter is declared `(!new)`: outcome, error and answer values are plain values without heap references. Dafny needs this to quantify over callbacks. Closures that capture mutable objects are not modelled.
- MapIdentity: assumes `Extensional` of the original promise, because Dafny function values are not extensional. Every Swift closure satisfies it, and `ReportsExtensional` proves it for every promise described by a trace.
- MapComposition: assumes `Extensional` of the original promise, for the same reason as `MapIdentity`.
- MapChainReports: covers only chains whose maps all keep the output type (`seq<O -> O>`), because a Dafny sequence holds functions of one type. Chains that change the output type are covered by applying `MapReports` once per map, as `MapTwiceReports` does for two maps.
- Map: `transform` is modelled as a pure function. Its own effects, and how many times it runs, are not modelled. "Not applied on the failure path" (`MapFailureIgnoresTransform`, `MapFailuresIgnoreTransform`) therefore means that the answer does not depend on `transform`.
- Sink: re-running the whole chain on every sink, with nothing cached, holds by construction in this model, since a wrapper is a value with no state. It is not a separately proved property.
