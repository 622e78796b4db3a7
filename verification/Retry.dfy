/** Bounded retries of idempotent reads. Models `reliability/policy.py` and the loop of `reliability/http_retry.py`. */
module Retry {
  import opened Errors
  import opened Outcomes
  import opened Redaction

  const MAX_SAFE_RETRIES := 2

  datatype ErrorClass = RateLimit | TimeLimit

  datatype ReliabilityPolicy = ReliabilityPolicy(
    maxRetries: int, backoffSeconds: seq<real>, retryOnRateLimit: bool, retryOnTimeout: bool)
  {
    /** What `__post_init__` insists on. */
    predicate Valid() {
      0 <= maxRetries <= MAX_SAFE_RETRIES && |backoffSeconds| >= maxRetries
    }

    function DelayForAttempt(attempt: int): Result<real, Raised>
      requires Valid()
    {
      if attempt < 0 || attempt >= maxRetries then Err(Foreign("ValueError")) else Ok(backoffSeconds[attempt])
    }

    predicate ShouldRetry(errorClass: ErrorClass, attempt: int) {
      attempt < maxRetries && (if errorClass == RateLimit then retryOnRateLimit else retryOnTimeout)
    }

    /** How many rate-limited responses are retried. */
    function Budget(): nat
      requires Valid()
    {
      if retryOnRateLimit then maxRetries else 0
    }
  }

  /**
   * What decoding a body gives: a value, one of the two faults the loop catches (bytes that are
   * not UTF-8, text that is not JSON), or another exception, such as the one for an integer of
   * too many digits.
   */
  datatype Decoding = Decoded(value: Value) | Undecodable | OtherFault(typeName: string)

  /** One response of the upstream; `Breaks` is an exception the loop does not know. */
  datatype Response =
    | HttpFailure(status: int) | TimedOut | Unreachable | Breaks(typeName: string)
    | Body(length: nat, decoding: Decoding)

  predicate RateLimits(response: Response) {
    response.HttpFailure? && (response.status == 403 || response.status == 429)
  }

  function Failure(kind: ErrorKind, message: string): Result<Value, Raised> {
    Err(Structured(McpError(kind, message, map[])))
  }

  /** What a response other than a rate limit is turned into. */
  function Interpret(response: Response, maxBytes: nat): Result<Value, Raised> {
    match response
    case HttpFailure(status) =>
      if status == 401 then Failure(Unauthenticated, "GitHub authentication failed")
      else if status == 404 then Failure(NotFound, "GitHub resource was not found")
      else if status == 403 || status == 429 then
        Failure(RateLimited, "GitHub denied the request or rate limit was reached")
      else Failure(UpstreamError, "GitHub returned an HTTP error")
    case TimedOut => Failure(Timeout, "GitHub request timed out")
    case Unreachable => Failure(UnavailableDependency, "GitHub is unavailable")
    case Breaks(typeName) => Err(Foreign(typeName))
    case Body(length, decoding) =>
      if length > maxBytes then Failure(UpstreamError, "GitHub response exceeded the configured size limit")
      else
        match decoding
        case Decoded(value) => Ok(value)
        case Undecodable => Failure(UpstreamError, "GitHub returned invalid JSON")
        case OtherFault(typeName) => Err(Foreign(typeName))
  }

  /** The upstream says that there were too many requests, or refuses this one, which it does for the same reason. */
  ghost predicate LimitsUs(response: Response) {
    response == HttpFailure(403) || response == HttpFailure(429)
  }

  /**
   * The number of requests a read should make: up to and including the first response that is
   * not a rate limit, and never more than the budget allows.
   */
  ghost predicate StopsAfter(policy: ReliabilityPolicy, upstream: nat -> Response, requests: nat)
    requires policy.Valid()
  {
    && 1 <= requests <= (if policy.retryOnRateLimit then policy.maxRetries else 0) + 1
    && (forall i: nat | i < requests - 1 :: LimitsUs(upstream(i)))
    && (requests == (if policy.retryOnRateLimit then policy.maxRetries else 0) + 1 || !LimitsUs(upstream(requests - 1)))
  }

  /** The stopping point is unique, so it determines the result and the sleeps. */
  lemma StopIsUnique(policy: ReliabilityPolicy, upstream: nat -> Response, m: nat, n: nat)
    requires policy.Valid() && StopsAfter(policy, upstream, m) && StopsAfter(policy, upstream, n)
    ensures m == n
  {
    var i: nat, j: nat := m - 1, n - 1;
    assert i >= j || LimitsUs(upstream(i));
    assert j >= i || LimitsUs(upstream(j));
  }

  /** The result fails with a structured error of this kind. */
  predicate FailsWith(r: Result<Value, Raised>, kind: ErrorKind) {
    r.Err? && r.error.Structured? && r.error.error.kind == kind
  }

  /** What each result says about the last response. */
  ghost predicate AnswersTo(r: Result<Value, Raised>, last: Response, maxBytes: nat) {
    var fits := last.Body? && last.length <= maxBytes;
    && (FailsWith(r, Unauthenticated) <==> last == HttpFailure(401))
    && (FailsWith(r, NotFound) <==> last == HttpFailure(404))
    && (FailsWith(r, RateLimited) <==> last == HttpFailure(403) || last == HttpFailure(429))
    && (FailsWith(r, Timeout) <==> last == TimedOut)
    && (FailsWith(r, UnavailableDependency) <==> last == Unreachable)
    && (FailsWith(r, UpstreamError) <==>
          || (last.HttpFailure? && last.status != 401 && last.status != 404 && !RateLimits(last))
          || (last.Body? && (last.length > maxBytes || last.decoding == Undecodable)))
    && (r.Ok? <==> fits && last.decoding.Decoded?) && (r.Ok? ==> last.decoding == Decoded(r.value))
    && (r.Err? && r.error.Foreign? <==> last.Breaks? || (fits && last.decoding.OtherFault?))
    && (r.Err? && r.error.Foreign? ==>
          r.error.typeName == if last.Breaks? then last.typeName else last.decoding.typeName)
  }

  lemma InterpretAnswers(last: Response, maxBytes: nat)
    ensures AnswersTo(Interpret(last, maxBytes), last, maxBytes)
  {
  }

  lemma LimitIsInterpreted(last: Response, maxBytes: nat)
    requires RateLimits(last)
    ensures Interpret(last, maxBytes) == Failure(RateLimited, "GitHub denied the request or rate limit was reached")
  {
  }

  /**
   * The loop of `github_get_json` against any upstream. It stops where it should, answers with
   * the last response it saw (a rate limit only once the budget is spent), and has slept
   * exactly the first entries of the backoff table. `DelayForAttempt` never fails in it.
   */
  method GithubGetJson(policy: ReliabilityPolicy, upstream: nat -> Response, maxBytes: nat)
    returns (r: Result<Value, Raised>, requests: nat, sleeps: seq<real>)
    requires policy.Valid()
    ensures StopsAfter(policy, upstream, requests)
    ensures requests <= 3 && AnswersTo(r, upstream(requests - 1), maxBytes)
    ensures requests - 1 <= |policy.backoffSeconds| && sleeps == policy.backoffSeconds[..requests - 1]
  {
    hide AnswersTo, Interpret;
    var attempt := 0;
    requests, sleeps := 0, [];
    while true
      invariant 0 <= attempt <= policy.Budget() && requests == attempt
      invariant forall i: nat | i < attempt :: LimitsUs(upstream(i))
      invariant sleeps == policy.backoffSeconds[..attempt]
      decreases policy.Budget() - attempt
    {
      var response := upstream(requests);
      requests := requests + 1;
      if RateLimits(response) {
        if policy.ShouldRetry(RateLimit, attempt) {
          var delay := policy.DelayForAttempt(attempt);
          assert delay.Ok?;
          sleeps := sleeps + [delay.value];
          attempt := attempt + 1;
          continue;
        }
        InterpretAnswers(response, maxBytes);
        LimitIsInterpreted(response, maxBytes);
        return Failure(RateLimited, "GitHub denied the request or rate limit was reached"), requests, sleeps;
      }
      InterpretAnswers(response, maxBytes);
      return Interpret(response, maxBytes), requests, sleeps;
    }
  }
}
