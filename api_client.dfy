/**
 * The HTTP client configuration and the decision rule of its response
 * interceptor: which failed requests are sent again, after how long, and
 * what the interceptor writes on the request before resending it.
 * Creating the axios instance, waiting and re-dispatching are not modelled;
 * `Dispatch` below replays the rule over a given sequence of server replies.
 */
module ApiClient {
  import opened Wrappers

  const DefaultBaseUrl: string := "http://127.0.0.1:8000/api"
  /** Milliseconds before a request is abandoned. */
  const Timeout: int := 10000
  const RetryAttempts: int := 2

  const TestEndpoint: string := "/test"
  const GoogleReviewsEndpoint: string := "/reviews/google"
  const FacebookReviewsEndpoint: string := "/reviews/facebook"
  const TestApisEndpoint: string := "/test-apis"

  /** `process.env.VUE_APP_API_BASE_URL || default`: an unset or empty variable gives the default. */
  function BaseUrl(env: Option<string>): (url: string)
    ensures env.Some? && env.value != "" ==> url == env.value
    ensures env.None? || env.value == "" ==> url == DefaultBaseUrl
  {
    if env.Some? && env.value != "" then env.value else DefaultBaseUrl
  }

  /** An HTTP reply as axios sees it. */
  datatype Reply = Reply(status: int)

  /** axios resolves 2xx replies and rejects everything else. */
  predicate IsSuccess(status: int)
  {
    200 <= status < 300
  }

  /** An axios error: the reply when the server answered, none on a timeout or a network failure. */
  datatype AxiosError = AxiosError(response: Option<Reply>)

  /** `_retry` and `_retryCount` of a request config. An unset `_retry` reads
      as false; an unset `_retryCount` is `None`. */
  datatype RetryState = RetryState(retry: bool, retryCount: Option<int>)

  /** A request config as axios builds it: neither field set. */
  const Unmarked: RetryState := RetryState(false, None)

  /** The guard as written. `undefined < RETRY_ATTEMPTS` is false in
      JavaScript, so an unset `_retryCount` fails it. */
  predicate ShouldRetry(response: Option<Reply>, s: RetryState)
    ensures ShouldRetry(response, s) ==> response.Some? && response.value.status >= 500 && !s.retry
    ensures s.retryCount.None? ==> !ShouldRetry(response, s)
  {
    && response.Some?
    && response.value.status >= 500
    && !s.retry
    && s.retryCount.Some? && s.retryCount.value < RetryAttempts
  }

  /** The guard the comment and the configuration describe: retry a 5xx up to
      RETRY_ATTEMPTS times, counting an unset `_retryCount` as zero. */
  predicate ShouldRetryIntended(response: Option<Reply>, s: RetryState)
    ensures ShouldRetryIntended(response, s) ==> response.Some? && response.value.status >= 500
    ensures response.Some? && response.value.status >= 500 && s.retryCount.None? ==>
              ShouldRetryIntended(response, s)
  {
    && response.Some?
    && response.value.status >= 500
    && s.retryCount.GetOr(0) < RetryAttempts
  }

  /** `_retry = true; _retryCount = (_retryCount || 0) + 1`. */
  function Mark(s: RetryState): (s': RetryState)
    ensures s'.retry && s'.retryCount.Some?
    ensures s'.retryCount.value == s.retryCount.GetOr(0) + 1
  {
    RetryState(true, Some(s.retryCount.GetOr(0) + 1))
  }

  /** The wait before a retry, `1000 * _retryCount` milliseconds: linear in the count. */
  function Backoff(retryCount: int): (ms: int)
    ensures 1 <= retryCount <= RetryAttempts ==> 1000 <= ms <= 1000 * RetryAttempts
  {
    1000 * retryCount
  }

  /** Each further retry waits one more second than the one before: the
      growth is linear, not exponential. */
  lemma BackoffLinear(retryCount: int)
    ensures Backoff(retryCount + 1) == Backoff(retryCount) + Backoff(1)
  {
  }

  /** The interceptor's success handler: the reply goes through as it came. */
  function OnFulfilled(reply: Reply): (r: Reply)
    ensures r == reply
  {
    reply
  }

  /** The request config the interceptor updates in place. */
  class RequestConfig {
    var retry: bool
    var retryCount: Option<int>

    constructor ()
      ensures retry == Unmarked.retry && retryCount == Unmarked.retryCount
    {
      retry := false;
      retryCount := None;
    }

    function State(): RetryState
      reads this
    {
      RetryState(retry, retryCount)
    }
  }

  /** What the error handler does: wait this long and resend, or reject with the error. */
  datatype Decision = RetryAfter(delayMs: int) | Reject(error: AxiosError)

  /** The interceptor's error handler. When the guard passes, the config is
      marked and the request is resent after the backoff; otherwise the
      error is rejected and the config left alone. */
  method OnRejected(error: AxiosError, config: RequestConfig) returns (d: Decision)
    modifies config
    ensures ShouldRetry(error.response, old(config.State())) ==>
              config.State() == Mark(old(config.State())) && d == RetryAfter(Backoff(config.retryCount.value))
    ensures !ShouldRetry(error.response, old(config.State())) ==>
              d == Reject(error) && unchanged(config)
  {
    if error.response.Some? && error.response.value.status >= 500 && !config.retry
       && config.retryCount.Some? && config.retryCount.value < RetryAttempts {
      config.retry := true;
      config.retryCount := Some(config.retryCount.GetOr(0) + 1);
      return RetryAfter(1000 * config.retryCount.value);
    }
    return Reject(error);
  }

  // ---------------------------------------------------------------------------
  // One logical request, replayed over the replies of successive attempts
  // ---------------------------------------------------------------------------

  /** How a logical request ends. */
  datatype Final = Resolved(reply: Reply) | Rejected(response: Option<Reply>)

  /** The end of a logical request, the number of retries and the total wait. */
  datatype Run = Run(final: Final, retries: nat, waitedMs: int)

  /** Which guard is applied. */
  predicate Guard(intended: bool, response: Option<Reply>, s: RetryState)
  {
    if intended then ShouldRetryIntended(response, s) else ShouldRetry(response, s)
  }

  /** Both guards retry only a reply with a 5xx status, never a timeout or a network failure. */
  lemma GuardNeedsServerError(intended: bool, response: Option<Reply>, s: RetryState)
    requires Guard(intended, response, s)
    ensures response.Some? && response.value.status >= 500 && !IsSuccess(response.value.status)
  {
  }

  function RetryBudget(s: RetryState): nat
  {
    if s.retryCount.GetOr(0) < RetryAttempts then RetryAttempts - s.retryCount.GetOr(0) else 0
  }

  /** Attempt number `attempt` gets `server(attempt)` (none: no reply at all);
      a rejected attempt goes through the guard, and a passing guard marks
      the config and tries again. */
  function Dispatch(server: nat -> Option<Reply>, attempt: nat, s: RetryState, intended: bool): (r: Run)
    ensures r.final.Resolved? ==> IsSuccess(r.final.reply.status)
    ensures r.final.Rejected? ==> r.final.response.None? || !IsSuccess(r.final.response.value.status)
    ensures r.retries == 0 ==> r.final == Unretried(server(attempt))
    ensures r.retries > 0 ==> Guard(intended, server(attempt), s)
    decreases RetryBudget(s)
  {
    var reply := server(attempt);
    if reply.Some? && IsSuccess(reply.value.status) then Run(Resolved(reply.value), 0, 0)
    else if Guard(intended, reply, s) then
      var s' := Mark(s);
      var rest := Dispatch(server, attempt + 1, s', intended);
      Run(rest.final, rest.retries + 1, rest.waitedMs + Backoff(s'.retryCount.value))
    else Run(Rejected(reply), 0, 0)
  }

  /** The outcome of a logical request that is never retried. */
  function Unretried(reply: Option<Reply>): Final
  {
    if reply.Some? && IsSuccess(reply.value.status) then Resolved(reply.value) else Rejected(reply)
  }

  /** As written, a request config that nobody marked is never retried: its
      first failure, 5xx included, is what the caller gets. */
  lemma FreshRequestNeverRetried(server: nat -> Option<Reply>)
    ensures Dispatch(server, 0, Unmarked, false) == Run(Unretried(server(0)), 0, 0)
  {
  }

  /** As written, `_retry` allows at most one retry per request config, whatever its count. */
  lemma AtMostOneRetryAsWritten(server: nat -> Option<Reply>, attempt: nat, s: RetryState)
    ensures Dispatch(server, attempt, s, false).retries <= 1
  {
  }

  /** The replies [500, 500, 200]. */
  function TwoFailuresThenOk(n: nat): Option<Reply>
  {
    if n < 2 then Some(Reply(500)) else Some(Reply(200))
  }

  /** Even with `_retryCount` preset to 0, the written guard gives up after
      one retry on [500, 500, 200] and rejects with the second 500. */
  lemma PresetCountStopsAfterOneRetry()
    ensures Dispatch(TwoFailuresThenOk, 0, RetryState(false, Some(0)), false)
            == Run(Rejected(Some(Reply(500))), 1, 1000)
  {
  }

  /** With the intended guard, [500, 500, 200] is retried twice and resolves
      with the 200, after waiting 1000 + 2000 ms. */
  lemma IntendedRecoversAfterTwoRetries()
    ensures Dispatch(TwoFailuresThenOk, 0, Unmarked, true) == Run(Resolved(Reply(200)), 2, 3000)
  {
  }

  /** With the intended guard a request is retried at most the budget its
      count leaves, so at most RETRY_ATTEMPTS times from an unmarked config. */
  lemma {:induction false} IntendedRetriesBounded(server: nat -> Option<Reply>, attempt: nat, s: RetryState)
    ensures Dispatch(server, attempt, s, true).retries <= RetryBudget(s)
    decreases RetryBudget(s)
  {
    var reply := server(attempt);
    if !(reply.Some? && IsSuccess(reply.value.status)) && ShouldRetryIntended(reply, s) {
      IntendedRetriesBounded(server, attempt + 1, Mark(s));
    }
  }

  /** With the intended guard, a request whose every reply is a 5xx is tried
      exactly its budget more times, and the last 5xx is what the caller gets. */
  lemma {:induction false} IntendedExhaustsBudget(server: nat -> Option<Reply>, attempt: nat, s: RetryState)
    requires forall n :: n >= attempt ==> server(n).Some? && server(n).value.status >= 500
    ensures Dispatch(server, attempt, s, true).retries == RetryBudget(s)
    ensures Dispatch(server, attempt, s, true).final == Rejected(server(attempt + RetryBudget(s)))
    decreases RetryBudget(s)
  {
    var reply := server(attempt);
    assert !IsSuccess(reply.value.status);
    if ShouldRetryIntended(reply, s) {
      IntendedExhaustsBudget(server, attempt + 1, Mark(s));
    }
  }

  /** With the intended guard, a request whose first `k <= RETRY_ATTEMPTS`
      replies are 5xx and whose next reply succeeds resolves with that reply
      after `k` retries and `1000 + … + 1000 k` ms of waiting. */
  lemma {:induction false} IntendedRecovers(server: nat -> Option<Reply>, attempt: nat, s: RetryState, k: nat)
    requires 0 <= s.retryCount.GetOr(0) && s.retryCount.GetOr(0) + k <= RetryAttempts
    requires forall n :: attempt <= n < attempt + k ==> server(n).Some? && server(n).value.status >= 500
    requires server(attempt + k).Some? && IsSuccess(server(attempt + k).value.status)
    ensures var c := s.retryCount.GetOr(0);
            Dispatch(server, attempt, s, true) ==
              Run(Resolved(server(attempt + k).value), k, 500 * ((c + k) * (c + k + 1) - c * (c + 1)))
    decreases k
  {
    if k > 0 {
      var c := s.retryCount.GetOr(0);
      assert !IsSuccess(server(attempt).value.status);
      IntendedRecovers(server, attempt + 1, Mark(s), k - 1);
      assert 500 * ((c + k) * (c + k + 1) - (c + 1) * (c + 2)) + 1000 * (c + 1)
          == 500 * ((c + k) * (c + k + 1) - c * (c + 1));
    }
  }
}
