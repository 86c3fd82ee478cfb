/** The retry loop of the browser client. */
module ApiClient {
  import opened Wrappers

  datatype Verb = Get | Post

  /** What one attempt gives: a response with its status, and whether its payload has the expected shape, or an
      exception, and whether it is the abort of a timeout. */
  datatype Fetch =
    | Response(status: nat, payloadValid: bool)
    | Thrown(aborted: bool)

  datatype ErrorCode =
    | BadRequest | Unauthorized | Forbidden | NotFound | Conflict | RateLimited | Timeout | NetworkError
    | ServerError | InvalidResponse | Unknown

  datatype ClientError = ClientError(code: ErrorCode, status: Option<nat>, retriable: bool, retryCount: int)

  const MAX_RETRIES := 3

  const RETRYABLE_STATUS_CODES: set<nat> := {408, 425, 429, 500, 502, 503, 504}

  function CodeOfStatus(status: nat): ErrorCode {
    if status == 400 then BadRequest
    else if status == 401 then Unauthorized
    else if status == 403 then Forbidden
    else if status == 404 then NotFound
    else if status == 409 then Conflict
    else if status == 429 then RateLimited
    else if status >= 500 then ServerError
    else Unknown
  }

  /** `response.ok` of the Fetch standard. */
  predicate IsOk(status: nat) {
    200 <= status <= 299
  }

  predicate Succeeds(f: Fetch) {
    f.Response? && IsOk(f.status) && f.payloadValid
  }

  /** The failure of one attempt may go away: the request may be repeated, and the attempt threw or was answered with
      one of the retryable statuses. */
  predicate IsTransient(f: Fetch, repeatable: bool) {
    repeatable && (f.Thrown? || (!IsOk(f.status) && f.status in RETRYABLE_STATUS_CODES))
  }

  /** The error reported for a failed attempt. */
  function ErrorOf(f: Fetch, repeatable: bool, attempt: int): ClientError
    requires !Succeeds(f)
  {
    match f
    case Thrown(aborted) => ClientError(if aborted then Timeout else NetworkError, None, repeatable, attempt)
    case Response(status, _) =>
      if IsOk(status) then ClientError(InvalidResponse, None, false, attempt)
      else ClientError(CodeOfStatus(status), Some(status), repeatable && status in RETRYABLE_STATUS_CODES, attempt)
  }

  /** Which attempts succeed, and which failures may go away, by status. */
  lemma TransientExactly(f: Fetch, repeatable: bool)
    ensures Succeeds(f) <==> f.Response? && 200 <= f.status <= 299 && f.payloadValid
    ensures IsTransient(f, repeatable) <==>
            repeatable && (f.Thrown? || f.status in {408, 425, 429, 500, 502, 503, 504})
  {
  }

  /** The error of a failed attempt, by its status; `Unknown` is left for the other statuses. */
  lemma ErrorExactly(f: Fetch, repeatable: bool, attempt: int)
    requires !Succeeds(f)
    ensures var e := ErrorOf(f, repeatable, attempt);
            && (e.code == Timeout <==> f == Thrown(true))
            && (e.code == NetworkError <==> f == Thrown(false))
            && (e.code == InvalidResponse <==> f.Response? && 200 <= f.status <= 299)
            && (e.code == BadRequest <==> f.Response? && f.status == 400)
            && (e.code == Unauthorized <==> f.Response? && f.status == 401)
            && (e.code == Forbidden <==> f.Response? && f.status == 403)
            && (e.code == NotFound <==> f.Response? && f.status == 404)
            && (e.code == Conflict <==> f.Response? && f.status == 409)
            && (e.code == RateLimited <==> f.Response? && f.status == 429)
            && (e.code == ServerError <==> f.Response? && f.status >= 500)
            && e.status == (if f.Response? && !(200 <= f.status <= 299) then Some(f.status) else None)
            && (e.retriable <==> repeatable && (f.Thrown? || f.status in {408, 425, 429, 500, 502, 503, 504}))
            && e.retryCount == attempt
  {
  }

  function Pow2(n: nat): nat {
    if n == 0 then 1 else 2 * Pow2(n - 1)
  }

  /** The delay after a failed attempt, in milliseconds. */
  function Wait(attempt: nat): nat {
    250 * Pow2(attempt)
  }

  /** The delays after the first `n` attempts. */
  function TotalWait(n: nat): nat {
    if n == 0 then 0 else TotalWait(n - 1) + Wait(n - 1)
  }

  lemma {:induction false} TotalWaitClosedForm(n: nat)
    ensures TotalWait(n) == 250 * (Pow2(n) - 1)
  {
    if n > 0 {
      TotalWaitClosedForm(n - 1);
    }
  }

  function MaxRetries(retries: Option<int>): int {
    var r := if retries.Some? then retries.value else MAX_RETRIES;
    if r < MAX_RETRIES then r else MAX_RETRIES
  }

  /** The number of attempts made when the attempts give `answers(0)`, `answers(1)`, and so on. */
  function Attempts(answers: nat -> Fetch, repeatable: bool, maxRetries: int, attempt: nat): (n: nat)
    ensures n >= attempt
    ensures attempt <= maxRetries ==> attempt < n <= maxRetries + 1
    decreases maxRetries - attempt
  {
    if attempt > maxRetries then attempt
    else if IsTransient(answers(attempt), repeatable) && attempt < maxRetries then
      Attempts(answers, repeatable, maxRetries, attempt + 1)
    else attempt + 1
  }

  /** Every attempt but the last is transient, and so is not the last unless no more were allowed. */
  lemma {:induction false} AttemptsStop(answers: nat -> Fetch, repeatable: bool, maxRetries: int, attempt: nat)
    ensures var n := Attempts(answers, repeatable, maxRetries, attempt);
            && (forall i :: attempt <= i < n - 1 ==> IsTransient(answers(i), repeatable))
            && (attempt < n <= maxRetries ==> !IsTransient(answers(n - 1), repeatable))
    decreases maxRetries - attempt
  {
    if attempt < maxRetries && IsTransient(answers(attempt), repeatable) {
      AttemptsStop(answers, repeatable, maxRetries, attempt + 1);
    }
  }

  /** The retries allowed after the first attempt, for the caller's count if there is one: never more than three. */
  function Limit(retries: Option<int>): int {
    match retries
    case None => 3
    case Some(n) => if n >= 3 then 3 else n
  }

  /** The number of attempts, counted out: one more than the limit when every attempt before the limit is transient, and
      otherwise up to the first attempt that is not. */
  lemma AttemptsCounted(answers: nat -> Fetch, repeatable: bool, retries: Option<int>)
    ensures var n, limit := Attempts(answers, repeatable, MaxRetries(retries), 0), Limit(retries);
            && MaxRetries(retries) == limit
            && (limit < 0 ==> n == 0)
            && (limit >= 0 && (forall i :: 0 <= i < limit ==> IsTransient(answers(i), repeatable)) ==> n == limit + 1)
            && (forall k :: 0 <= k <= limit && FirstToStop(answers, repeatable, k) ==> n == k + 1)
  {
    var n := Attempts(answers, repeatable, MaxRetries(retries), 0);
    AttemptsStop(answers, repeatable, MaxRetries(retries), 0);
    assert 0 < n <= Limit(retries) ==> !IsTransient(answers(n - 1), repeatable);
  }

  /** Attempt `k` is the first that is not transient. */
  predicate FirstToStop(answers: nat -> Fetch, repeatable: bool, k: nat) {
    !IsTransient(answers(k), repeatable) && forall i :: 0 <= i < k ==> IsTransient(answers(i), repeatable)
  }

  /** The waiting time of so many attempts, counted out in milliseconds. */
  lemma WaitCounted()
    ensures TotalWait(0) == 0 && TotalWait(1) == 250 && TotalWait(2) == 750 && TotalWait(3) == 1750
  {
    TotalWaitClosedForm(1);
    TotalWaitClosedForm(2);
    TotalWaitClosedForm(3);
    assert Pow2(1) == 2 && Pow2(2) == 4 && Pow2(3) == 8;
  }

  /** The body of the loop: nothing, when the attempt is to be repeated, or the final result. */
  method Attempt(fetched: Fetch, repeatable: bool, attempt: nat, maxRetries: int)
    returns (r: Option<Result<(), ClientError>>)
    ensures r.None? <==> IsTransient(fetched, repeatable) && attempt < maxRetries
    ensures r.None? <==>
            repeatable && (fetched.Thrown? || fetched.status in {408, 425, 429, 500, 502, 503, 504}) && attempt < maxRetries
    ensures r.Some? ==> r.value == if Succeeds(fetched) then Ok(()) else Err(ErrorOf(fetched, repeatable, attempt))
  {
    match fetched {
      case Response(status, payloadValid) =>
        if !IsOk(status) {
          var error := ClientError(CodeOfStatus(status), Some(status),
                                   repeatable && status in RETRYABLE_STATUS_CODES, attempt);
          if error.retriable && attempt < maxRetries {
            return None;
          }
          return Some(Err(error));
        }
        if !payloadValid {
          return Some(Err(ClientError(InvalidResponse, None, false, attempt)));
        }
        return Some(Ok(()));
      case Thrown(aborted) =>
        var error := ClientError(if aborted then Timeout else NetworkError, None, repeatable, attempt);
        if error.retriable && attempt < maxRetries {
          return None;
        }
        return Some(Err(error));
    }
  }

  /** `request`. The result is decided by the last attempt: the first that is not transient, or the last one allowed.
      The error after the loop is returned exactly when `retries` is negative. */
  method Request(verb: Verb, retryUnsafe: bool, retries: Option<int>, answers: nat -> Fetch)
    returns (r: Result<(), ClientError>, fetches: nat, waitedMs: nat)
    ensures var repeatable := verb == Get || retryUnsafe;
            var maxRetries := MaxRetries(retries);
            && fetches == Attempts(answers, repeatable, maxRetries, 0)
            && (fetches == 0 <==> retries.Some? && retries.value < 0)
            && (fetches == 0 ==> r == Err(ClientError(Unknown, None, false, maxRetries)) && waitedMs == 0)
            && (fetches > 0 ==>
                  var last := answers(fetches - 1);
                  && r == (if Succeeds(last) then Ok(()) else Err(ErrorOf(last, repeatable, fetches - 1)))
                  && waitedMs == TotalWait(fetches - 1))
    ensures var repeatable := verb == Get || retryUnsafe;
            var limit := if retries.None? || retries.value >= 3 then 3 else retries.value;
            && (limit < 0 ==> fetches == 0)
            && (limit >= 0 && (forall i :: 0 <= i < limit ==> IsTransient(answers(i), repeatable)) ==> fetches == limit + 1)
            && (forall k :: 0 <= k <= limit && FirstToStop(answers, repeatable, k) ==> fetches == k + 1)
            && waitedMs == (if fetches <= 1 then 0 else if fetches == 2 then 250 else if fetches == 3 then 750 else 1750)
            && fetches <= 4
  {
    AttemptsCounted(answers, verb == Get || retryUnsafe, retries);
    WaitCounted();
    var maxRetries := MaxRetries(retries);
    var repeatable := verb == Get || retryUnsafe;
    var attempt := 0;
    fetches, waitedMs := 0, 0;
    while attempt <= maxRetries
      invariant 0 <= attempt == fetches
      invariant attempt <= maxRetries || attempt == 0
      invariant Attempts(answers, repeatable, maxRetries, attempt) == Attempts(answers, repeatable, maxRetries, 0)
      invariant waitedMs == TotalWait(attempt)
      decreases maxRetries - attempt
    {
      fetches := fetches + 1;
      var done := Attempt(answers(attempt), repeatable, attempt, maxRetries);
      if done.Some? {
        return done.value, fetches, waitedMs;
      }
      waitedMs := waitedMs + Wait(attempt);
      attempt := attempt + 1;
    }
    return Err(ClientError(Unknown, None, false, maxRetries)), fetches, waitedMs;
  }

  /** At most four attempts are made, and at most 1750 ms are spent waiting between them. */
  lemma RetryBound(answers: nat -> Fetch, repeatable: bool, retries: Option<int>)
    requires retries.Some? ==> retries.value >= 0
    ensures var n := Attempts(answers, repeatable, MaxRetries(retries), 0);
            && 1 <= n <= 4
            && (retries.Some? ==> n <= retries.value + 1)
            && TotalWait(n - 1) == 250 * (Pow2(n - 1) - 1) <= 1750
  {
    TotalWaitClosedForm(Attempts(answers, repeatable, MaxRetries(retries), 0) - 1);
    assert Pow2(0) == 1 && Pow2(1) == 2 && Pow2(2) == 4 && Pow2(3) == 8;
  }

  /** A request that must not be repeated is made exactly once. */
  lemma UnsafeOnce(answers: nat -> Fetch, retries: Option<int>)
    requires retries.Some? ==> retries.value >= 0
    ensures Attempts(answers, false, MaxRetries(retries), 0) == 1
  {
  }

  /** An attempt stops the loop exactly when it is not transient or is the last one allowed. */
  lemma StopsExactly(answers: nat -> Fetch, repeatable: bool, retries: Option<int>, n: nat)
    requires 1 <= n <= MaxRetries(retries) + 1
    ensures Attempts(answers, repeatable, MaxRetries(retries), 0) == n <==>
            && (forall i :: 0 <= i < n - 1 ==> IsTransient(answers(i), repeatable))
            && (n <= MaxRetries(retries) ==> !IsTransient(answers(n - 1), repeatable))
  {
    var m := Attempts(answers, repeatable, MaxRetries(retries), 0);
    AttemptsStop(answers, repeatable, MaxRetries(retries), 0);
    assert m < n ==> 0 <= m - 1 < n - 1;
    assert n < m ==> 0 <= n - 1 < m - 1;
  }
}
