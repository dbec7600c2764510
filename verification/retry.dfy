/**
 * The bounded retry of the API client (`makeRequest`): a failed call is
 * retried while the retry count is below `maxRetries`, then the last error
 * propagates. The delay between attempts is not modelled; each attempt's
 * outcome is supplied by the caller as `attempt(n)` for the n-th call,
 * counting from 0.
 */
module Retry {

  datatype Response<T> = Ok(data: T) | Failed(message: string)

  /** The response the caller finally sees, and how many calls were made. */
  datatype Outcome<T> = Outcome(response: Response<T>, attempts: nat)

  /** The attempt index after which no further retry is made. */
  function LastAllowed(retryCount: nat, maxRetries: nat): nat {
    if retryCount < maxRetries then maxRetries else retryCount
  }

  /**
   * `makeRequest(endpoint, retryCount)`: call number `retryCount` is made; on
   * failure with `retryCount < maxRetries` the request recurses with the
   * count incremented, otherwise the error is raised.
   */
  function Request<T>(attempt: nat -> Response<T>, retryCount: nat, maxRetries: nat): (r: Outcome<T>)
    ensures 1 <= r.attempts && retryCount + r.attempts <= LastAllowed(retryCount, maxRetries) + 1
    ensures forall n :: retryCount <= n < retryCount + r.attempts - 1 ==> attempt(n).Failed?
    ensures r.response == attempt(retryCount + r.attempts - 1)
    ensures r.response.Failed? ==> retryCount + r.attempts == LastAllowed(retryCount, maxRetries) + 1
    decreases if retryCount < maxRetries then maxRetries - retryCount else 0
  {
    match attempt(retryCount)
    case Ok(_) => Outcome(attempt(retryCount), 1)
    case Failed(_) =>
      if retryCount < maxRetries then
        var rest := Request(attempt, retryCount + 1, maxRetries);
        Outcome(rest.response, rest.attempts + 1)
      else Outcome(attempt(retryCount), 1)
  }

  /**
   * A request as every caller issues it, from retry count 0: at most
   * `maxRetries + 1` calls; the result is the first successful call's, and an
   * error is raised only after `maxRetries + 1` consecutive failures.
   */
  function MakeRequest<T>(attempt: nat -> Response<T>, maxRetries: nat): (r: Outcome<T>)
    ensures 1 <= r.attempts <= maxRetries + 1
    ensures r.response.Ok? <==> exists n :: 0 <= n <= maxRetries && attempt(n).Ok?
    ensures r.response.Ok? ==> r.response == attempt(r.attempts - 1) &&
                               forall n :: 0 <= n < r.attempts - 1 ==> attempt(n).Failed?
    ensures r.response.Failed? ==> r.attempts == maxRetries + 1 && r.response == attempt(maxRetries)
  {
    Request(attempt, 0, maxRetries)
  }

  /** Failures on the first `k` calls followed by a success within the bound return that success after `k + 1` calls. */
  lemma SucceedsAfterFailures<T>(attempt: nat -> Response<T>, maxRetries: nat, k: nat)
    requires k <= maxRetries && attempt(k).Ok?
    requires forall n :: 0 <= n < k ==> attempt(n).Failed?
    ensures MakeRequest(attempt, maxRetries) == Outcome(attempt(k), k + 1)
  {
  }
}
