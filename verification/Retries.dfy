/** `retry`: run a function again each time it asks for it, within a budget. */
module Retries {
  import opened Wrappers

  /** How one call of the function ends: with a value, with an exception, or after calling its `retry` argument. */
  datatype Attempt<T, E> = Settled(value: T) | Threw(error: E) | Again

  datatype Failure<E> = Thrown(error: E) | RetryFailed(attempts: nat)

  /** The attempts made, counted from `attempt`, and the outcome of the last of them alone. */
  method Retry<T, E>(func: nat -> Attempt<T, E>, retries: nat, attempt: nat) returns (r: Result<T, Failure<E>>, calls: nat)
    requires attempt <= retries
    ensures 1 <= calls <= retries - attempt + 1
    ensures forall i | attempt <= i < attempt + calls - 1 :: func(i).Again?
    ensures match func(attempt + calls - 1)
            case Settled(value) => r == Ok(value)
            case Threw(error) => r == Err(Thrown(error))
            case Again => attempt + calls - 1 == retries && r == Err(RetryFailed(retries))
    decreases retries - attempt
  {
    var outer := func(attempt);
    match outer
    case Settled(value) =>
      r, calls := Ok(value), 1;
    case Threw(error) =>
      r, calls := Err(Thrown(error)), 1;
    case Again =>
      if attempt == retries {
        r, calls := Err(RetryFailed(attempt)), 1;
      } else {
        var inner, more := Retry(func, retries, attempt + 1);
        r, calls := inner, more + 1;
      }
  }
}
