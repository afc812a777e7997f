/** Retry with a ceiling, as the scraper writes it: a fetch function that
    catches an error, calls itself again with `retries + 1`, and gives up
    with an empty result once `retries > 5`. */
module Retry {
  import opened Basics

  /** Attempts are abandoned once the counter exceeds this value. */
  const RetryCeiling: nat := 5

  /** What one attempt did: the error its navigation or fetch threw, if any,
      and the content the code goes on with when it does not retry. */
  datatype Attempt<T> = Attempt(error: Option<ErrorKind>, content: T)

  /** How a chain of attempts ends: abandoned past the ceiling, or settled
      at the attempt with counter value `counter`, which did not retry. */
  datatype Outcome<T> = Abandoned | Settled(counter: nat, last: Attempt<T>)

  /** The attempt threw an error of a kind the catch block retries on. */
  predicate Retries<T>(a: Attempt<T>, retryOn: ErrorKind -> bool)
  {
    a.error.Some? && retryOn(a.error.value)
  }

  /** The self-recursive fetch, started with counter value `retries`;
      `attempt(k)` is what the attempt made with counter k does. */
  function RetryFrom<T>(attempt: nat -> Attempt<T>, retryOn: ErrorKind -> bool, retries: nat): (r: Outcome<T>)
    decreases RetryCeiling + 1 - retries
    ensures r.Settled? ==> retries <= r.counter <= RetryCeiling
    ensures r.Settled? ==> r.last == attempt(r.counter) && !Retries(r.last, retryOn)
    ensures r.Settled? ==> forall k: nat :: retries <= k < r.counter ==> Retries(attempt(k), retryOn)
    ensures r.Abandoned? <==> forall k: nat :: retries <= k <= RetryCeiling ==> Retries(attempt(k), retryOn)
  {
    if retries > RetryCeiling then Abandoned
    else if Retries(attempt(retries), retryOn) then RetryFrom(attempt, retryOn, retries + 1)
    else Settled(retries, attempt(retries))
  }

  /** How many attempts the chain started at `retries` makes. */
  function AttemptsMade<T>(attempt: nat -> Attempt<T>, retryOn: ErrorKind -> bool, retries: nat): (n: nat)
    decreases RetryCeiling + 1 - retries
    ensures retries <= RetryCeiling + 1 ==> n <= RetryCeiling + 1 - retries
  {
    if retries > RetryCeiling then 0
    else if Retries(attempt(retries), retryOn) then 1 + AttemptsMade(attempt, retryOn, retries + 1)
    else 1
  }

  /** Each failed attempt raises the counter by exactly one: a chain that
      settles made one attempt per counter value up to the one it settled
      at, and an abandoned chain made one per value up to the ceiling. */
  lemma {:induction false} AttemptsMatchCounter<T>(attempt: nat -> Attempt<T>, retryOn: ErrorKind -> bool, retries: nat)
    requires retries <= RetryCeiling + 1
    ensures var r := RetryFrom(attempt, retryOn, retries);
            AttemptsMade(attempt, retryOn, retries) ==
              if r.Settled? then r.counter - retries + 1 else RetryCeiling + 1 - retries
    decreases RetryCeiling + 1 - retries
  {
    if retries <= RetryCeiling && Retries(attempt(retries), retryOn) {
      AttemptsMatchCounter(attempt, retryOn, retries + 1);
    }
  }

  /** Only the attempts with counter values up to the ceiling matter. */
  lemma {:induction false} RetryIgnoresLaterAttempts<T>(a1: nat -> Attempt<T>, a2: nat -> Attempt<T>, retryOn: ErrorKind -> bool, retries: nat)
    requires forall k: nat :: retries <= k <= RetryCeiling ==> a1(k) == a2(k)
    ensures RetryFrom(a1, retryOn, retries) == RetryFrom(a2, retryOn, retries)
    decreases RetryCeiling + 1 - retries
  {
    if retries <= RetryCeiling {
      RetryIgnoresLaterAttempts(a1, a2, retryOn, retries + 1);
    }
  }
}
