/** Retrying and disposing of one message (pkg/kafka/consumer/processor.go, result_handler.go). */
module MessageRetry {

  // What one call of the handler does; the flags say which sentinel errors the returned error wraps, and whether the
  // handler itself made it a backoff.Permanent.
  datatype Attempt = Returns | Fails(skip: bool, permanent: bool, stops: bool) | Panics

  datatype Outcome = Processed | Error(skip: bool, permanent: bool)

  const CONTEXT_ERROR := Error(false, false)

  /** `process`: a panic is recovered as an error that wraps only ErrPermanent. */
  function Process(a: Attempt): Outcome
  {
    match a
    case Returns => Processed
    case Fails(skip, permanent, _) => Error(skip, permanent)
    case Panics => Error(false, true)
  }

  /** No retry follows: success, an error that executeWithRetry makes permanent, or one that the handler did. */
  predicate Final(a: Attempt)
  {
    match a
    case Returns => true
    case Fails(skip, permanent, stops) => skip || permanent || stops
    case Panics => true
  }

  /** One complete retry: the n-th call of the handler does handler(n), and cancelled(n) says whether the context
      is done by the end of the backoff that follows it. */
  ghost predicate RetryEndsWith(handler: nat -> Attempt, cancelled: nat -> bool, maxRetries: nat,
                                calls: nat, o: Outcome)
  {
    && 1 <= calls <= maxRetries + 1
    && (forall n: nat :: 1 <= n < calls ==> !Final(handler(n)) && !cancelled(n))
    && (Final(handler(calls)) || cancelled(calls) || calls == maxRetries + 1)
    && o == if !Final(handler(calls)) && cancelled(calls) then CONTEXT_ERROR else Process(handler(calls))
  }

  /** executeWithRetry, with backoff.Retry written out: stop on success or a permanent error, when the context
      is done, or when the retries are used up. Exactly a failure without any of the three flags is followed by
      another call, unless the context is done; a panic ends as a permanent error. */
  method ExecuteWithRetry(handler: nat -> Attempt, cancelled: nat -> bool, maxRetries: nat)
    returns (o: Outcome, calls: nat)
    ensures RetryEndsWith(handler, cancelled, maxRetries, calls, o)
    ensures 1 <= calls <= maxRetries + 1
    ensures forall n: nat :: 1 <= n < calls ==>
              && handler(n).Fails? && !handler(n).skip && !handler(n).permanent && !handler(n).stops
              && !cancelled(n)
    ensures handler(calls).Fails? && !handler(calls).skip && !handler(calls).permanent && !handler(calls).stops ==>
              if cancelled(calls) then o == Error(false, false)
              else calls == maxRetries + 1 && o == Error(false, false)
    ensures match handler(calls)
            case Returns => o == Processed
            case Panics => o == Error(false, true)
            case Fails(skip, permanent, stops) => o == Error(skip, permanent)
  {
    calls := 0;
    var retries := 0;
    while true
      invariant calls == retries <= maxRetries
      invariant forall n: nat :: 1 <= n <= calls ==> !Final(handler(n)) && !cancelled(n)
      decreases maxRetries - retries
    {
      calls := calls + 1;
      var attempt := handler(calls);
      o := Process(attempt);
      if o.Processed? || o.skip || o.permanent {
        return;
      }
      if attempt.stops {
        return;
      }
      if cancelled(calls) {
        return CONTEXT_ERROR, calls;
      }
      if maxRetries <= retries {
        return;
      }
      retries := retries + 1;
    }
  }

  /** Without cancellation the handler runs min(k, maxRetries + 1) times, k being its first final attempt;
      if no attempt is final it runs maxRetries + 1 times. The last attempt's outcome is the result. */
  lemma CallsWithoutCancellation(handler: nat -> Attempt, cancelled: nat -> bool, maxRetries: nat,
                                 calls: nat, o: Outcome, k: nat)
    requires RetryEndsWith(handler, cancelled, maxRetries, calls, o)
    requires forall n: nat :: !cancelled(n)
    requires k >= 1
    requires forall n: nat :: 1 <= n < k ==>
               handler(n).Fails? && !handler(n).skip && !handler(n).permanent && !handler(n).stops
    requires k > maxRetries || !handler(k).Fails? || handler(k).skip || handler(k).permanent || handler(k).stops
    ensures calls == if k <= maxRetries + 1 then k else maxRetries + 1
    ensures o == Process(handler(calls))
    ensures Final(handler(calls)) <==> exists n: nat :: 1 <= n <= maxRetries + 1 && Final(handler(n))
  {
  }
}
