/**
 * The three ways a Reactor `Mono` can complete, and the operators the
 * context-resolution code composes them with, read sequentially.
 */
module Reactive {
  import opened Wrappers

  /** The exceptions the modelled code throws or propagates. */
  datatype Throwable =
    | IllegalArgument(message: string)
    | NullPointer(message: string)
    | Failed(reason: string)

  /** A `Mono<T>` once subscribed: one value, completion without a value, or an error. */
  datatype Mono<+T> = Just(value: T) | Empty | Error(error: Throwable)

  /** `mono.switchIfEmpty(fallback)`: the fallback is used only when the first completes empty. */
  function SwitchIfEmpty<T>(m: Mono<T>, fallback: Mono<T>): Mono<T> {
    if m.Empty? then fallback else m
  }

  /** `Mono.justOrEmpty`: a nullable value as a `Mono`. */
  function FromNullable<T>(o: Option<T>): Mono<T> {
    match o
    case Some(v) => Just(v)
    case None => Empty
  }
}
