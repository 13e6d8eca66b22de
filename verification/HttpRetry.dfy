/** The retrying HTTP transport (pkg/http/client/retry.go). */
module HttpRetry {
  import opened Wrappers

  // The sentinel errors that errors.Is can find in an error; Other stands for everything else.
  datatype Sentinel =
    | ErrConnExpired
    | ECONNREFUSED | ECONNRESET | ENETUNREACH | EOF | ErrUnexpectedEOF | EPIPE | ErrClosed
    | Other

  datatype Reply = Response | Error(wraps: set<Sentinel>)

  predicate Transient(x: Sentinel)
  {
    match x
    case ECONNREFUSED => true
    case ECONNRESET => true
    case ENETUNREACH => true
    case EOF => true
    case ErrUnexpectedEOF => true
    case EPIPE => true
    case ErrClosed => true
    case _ => false
  }

  predicate IsRetryableError(e: Reply)
    requires e.Error?
  {
    exists x :: x in e.wraps && Transient(x)
  }

  predicate Expired(r: Reply) { r.Error? && ErrConnExpired in r.wraps }

  /** Ends the loop at once: a response, or an error that is neither an expiry nor retryable. */
  predicate Conclusive(r: Reply) { r.Response? || (!Expired(r) && !IsRetryableError(r)) }

  /** Which errors are which, sentinel by sentinel; an expiry is one even if it wraps more. */
  lemma ReplyKinds(r: Reply)
    ensures r.Error? ==>
              (IsRetryableError(r) <==>
                 || ECONNREFUSED in r.wraps || ECONNRESET in r.wraps || ENETUNREACH in r.wraps || EOF in r.wraps
                 || ErrUnexpectedEOF in r.wraps || EPIPE in r.wraps || ErrClosed in r.wraps)
    ensures Expired(r) <==> r.Error? && ErrConnExpired in r.wraps
    ensures Conclusive(r) <==> r.Response? || r.wraps <= {Other}
  {
    if r.Error? {
      assert IsRetryableError(r) || Expired(r) <==> exists x :: x in r.wraps && x != Other by {
        if x :| x in r.wraps && x != Other {
          assert Transient(x) || x == ErrConnExpired;
        }
      }
    }
  }

  /** The world around one RoundTrip: how the n-th call of doRequest fares, counting from zero. A request with
      GetBody may fail on a retry before anything is sent. */
  datatype Script = Script(hasGetBody: bool, body: nat -> Option<set<Sentinel>>, base: nat -> Reply)

  predicate BodyFails(s: Script, n: nat, attempt: int)
  {
    attempt > 0 && s.hasGetBody && s.body(n).Some?
  }

  function ReplyTo(s: Script, n: nat, attempt: int): Reply
  {
    if BodyFails(s, n, attempt) then Error(s.body(n).value) else s.base(n)
  }

  // ---------- The loop as a function of the number of requests made ----------

  datatype Phase = Looping(attempt: nat) | Finished(reply: Reply)

  function PhaseAfter(s: Script, maxRetries: int, n: nat): Phase
  {
    if n == 0 then Looping(0)
    else match PhaseAfter(s, maxRetries, n - 1)
      case Finished(r) => Finished(r)
      case Looping(a) =>
        if a > maxRetries then Finished(ReplyTo(s, n - 1, maxRetries + 1))
        else
          var r := ReplyTo(s, n - 1, a);
          if Conclusive(r) then Finished(r) else if Expired(r) then Looping(a) else Looping(a + 1)
  }

  /** Request n is made inside the loop and finds its connection expired. */
  predicate ExpiresAt(s: Script, maxRetries: int, n: nat)
  {
    var p := PhaseAfter(s, maxRetries, n);
    p.Looping? && p.attempt <= maxRetries && Expired(ReplyTo(s, n, p.attempt))
  }

  function Expiries(s: Script, maxRetries: int, n: nat): nat
  {
    if n == 0 then 0 else Expiries(s, maxRetries, n - 1) + if ExpiresAt(s, maxRetries, n - 1) then 1 else 0
  }

  class RetryTransport {
    const maxRetries: int
    const hasTransport: bool     // base is an *http.Transport whose idle connections can be closed
    var baseCalls: nat
    var idleCloses: nat

    constructor (maxRetries: int, hasTransport: bool)
      ensures this.maxRetries == maxRetries && this.hasTransport == hasTransport && baseCalls == 0 && idleCloses == 0
    {
      this.maxRetries, this.hasTransport := maxRetries, hasTransport;
      baseCalls, idleCloses := 0, 0;
    }

    method DoRequest(s: Script, n: nat, attempt: int) returns (r: Reply)
      modifies this`baseCalls
      ensures r == ReplyTo(s, n, attempt)
      ensures baseCalls == old(baseCalls) + if BodyFails(s, n, attempt) then 0 else 1
      ensures if attempt > 0 && s.hasGetBody && s.body(n).Some?
              then r == Error(s.body(n).value) && baseCalls == old(baseCalls)
              else r == s.base(n) && baseCalls == old(baseCalls) + 1
    {
      if attempt > 0 && s.hasGetBody {
        match s.body(n) {
          case Some(wraps) => return Error(wraps);
          case None =>
        }
      }
      baseCalls := baseCalls + 1;
      r := s.base(n);
    }

    /** Follows a RoundTrip for as long as it makes at most `limit` requests: None when it is then still looping.
        `requests` counts the calls of doRequest. */
    method RoundTrip(s: Script, limit: nat) returns (r: Option<Reply>, requests: nat)
      modifies this
      ensures requests <= limit
      ensures match r
              case None => requests == limit && PhaseAfter(s, maxRetries, limit).Looping?
              case Some(reply) =>
                && requests > 0 && PhaseAfter(s, maxRetries, requests) == Finished(reply)
                && PhaseAfter(s, maxRetries, requests - 1).Looping?
      ensures idleCloses == old(idleCloses)
                + if r.Some? && hasTransport && PhaseAfter(s, maxRetries, requests - 1).attempt > maxRetries
                  then 1 else 0
      ensures baseCalls <= old(baseCalls) + requests
      ensures !s.hasGetBody ==> baseCalls == old(baseCalls) + requests
    {
      requests := 0;
      var attempt := 0;
      while attempt <= maxRetries
        invariant requests <= limit
        invariant attempt >= 0 && PhaseAfter(s, maxRetries, requests) == Looping(attempt)
        invariant idleCloses == old(idleCloses) && baseCalls <= old(baseCalls) + requests
        invariant !s.hasGetBody ==> baseCalls == old(baseCalls) + requests
        decreases limit - requests
      {
        if requests == limit {
          return None, requests;
        }
        var reply := DoRequest(s, requests, attempt);
        requests := requests + 1;
        if reply.Response? {
          return Some(reply), requests;
        }
        if ErrConnExpired in reply.wraps {
          continue;
        }
        if !IsRetryableError(reply) {
          return Some(reply), requests;
        }
        attempt := attempt + 1;
      }
      if requests == limit {
        return None, requests;
      }
      if hasTransport {
        idleCloses := idleCloses + 1;
      }
      var reply := DoRequest(s, requests, maxRetries + 1);
      r, requests := Some(reply), requests + 1;
    }
  }

  // ---------- What that amounts to ----------

  /** While the loop runs, every request made so far was an expiry or one counted, retryable failure. */
  lemma {:induction false} LoopingCounts(s: Script, maxRetries: int, n: nat)
    ensures var p := PhaseAfter(s, maxRetries, n);
            p.Looping? ==>
              && n == p.attempt + Expiries(s, maxRetries, n)
              && (maxRetries >= 0 ==> p.attempt <= maxRetries + 1)
  {
    if n > 0 {
      LoopingCounts(s, maxRetries, n - 1);
    }
  }

  /** The retry bound: with E expiries in the loop a RoundTrip makes at most maxRetries + 2 + E requests, and the
      final one, after the idle connections were closed, only after exactly maxRetries + 1 counted failures. */
  lemma RequestsBounded(s: Script, maxRetries: int, requests: nat)
    requires maxRetries >= 0 && requests > 0
    requires PhaseAfter(s, maxRetries, requests - 1).Looping? && PhaseAfter(s, maxRetries, requests).Finished?
    ensures requests <= maxRetries + 2 + Expiries(s, maxRetries, requests)
    ensures PhaseAfter(s, maxRetries, requests - 1).attempt > maxRetries ==>
              requests == maxRetries + 2 + Expiries(s, maxRetries, requests - 1)
  {
    LoopingCounts(s, maxRetries, requests - 1);
  }

  /** The request that ends the loop is the first conclusive one; failing that, the extra attempt's reply counts,
      whatever it is. No earlier reply was conclusive. */
  lemma ResultIsFirstConclusive(s: Script, maxRetries: int, requests: nat)
    requires requests > 0
    requires PhaseAfter(s, maxRetries, requests - 1).Looping? && PhaseAfter(s, maxRetries, requests).Finished?
    ensures var r := PhaseAfter(s, maxRetries, requests).reply;
            var a := PhaseAfter(s, maxRetries, requests - 1).attempt;
            if a <= maxRetries then Conclusive(r) && r == ReplyTo(s, requests - 1, a)
            else r == ReplyTo(s, requests - 1, maxRetries + 1)
    ensures forall k: nat :: k < requests - 1 ==>
              PhaseAfter(s, maxRetries, k).Looping? && PhaseAfter(s, maxRetries, k).attempt <= maxRetries
              && !Conclusive(ReplyTo(s, k, PhaseAfter(s, maxRetries, k).attempt))
  {
    forall k: nat | k < requests - 1
      ensures PhaseAfter(s, maxRetries, k).Looping? && PhaseAfter(s, maxRetries, k).attempt <= maxRetries
              && !Conclusive(ReplyTo(s, k, PhaseAfter(s, maxRetries, k).attempt))
    {
      LoopingBefore(s, maxRetries, k + 1, requests - 1);
      LoopingBefore(s, maxRetries, k, requests - 1);
    }
  }

  lemma {:induction false} LoopingBefore(s: Script, maxRetries: int, k: nat, n: nat)
    requires k <= n && PhaseAfter(s, maxRetries, n).Looping?
    ensures PhaseAfter(s, maxRetries, k).Looping?
    decreases n
  {
    if k < n {
      LoopingBefore(s, maxRetries, k, n - 1);
    }
  }

  // ---------- Exactly when it ends ----------

  /** How many of the first n replies are not an expiry, read off the script alone. */
  function Counted(s: Script, n: nat): nat
    decreases n, 0
  {
    if n == 0 then 0 else Counted(s, n - 1) + if Expired(Seen(s, n - 1)) then 0 else 1
  }

  /** What request n gets; only the first attempt, before any counted reply, never asks for a new body. */
  function Seen(s: Script, n: nat): Reply
    decreases n, 1
  {
    ReplyTo(s, n, Counted(s, n))
  }

  lemma {:induction false} PhaseIsCount(s: Script, maxRetries: int, n: nat)
    requires forall k: nat :: k < n ==> !Conclusive(Seen(s, k))
    requires Counted(s, n) <= maxRetries
    ensures PhaseAfter(s, maxRetries, n) == Looping(Counted(s, n))
  {
    if n > 0 {
      PhaseIsCount(s, maxRetries, n - 1);
    }
  }

  /** After n requests the loop has found what it needs to end. */
  predicate Suffices(s: Script, maxRetries: int, n: nat)
  {
    Conclusive(Seen(s, n)) || Counted(s, n) > maxRetries
  }

  /** A RoundTrip ends if and only if some reply is conclusive or more than maxRetries of them are not expiries;
      expiries themselves are never counted. */
  lemma TerminatesExactly(s: Script, maxRetries: int)
    ensures (exists n: nat :: PhaseAfter(s, maxRetries, n).Finished?)
            <==> (exists n: nat :: Suffices(s, maxRetries, n))
  {
    if n: nat :| Suffices(s, maxRetries, n) {
      var end := FirstSufficient(s, maxRetries, n);
      EndsAfter(s, maxRetries, end);
    } else {
      forall n: nat ensures PhaseAfter(s, maxRetries, n).Looping? {
        forall k: nat | k < n ensures !Conclusive(Seen(s, k)) {
          assert !Suffices(s, maxRetries, k);
        }
        assert !Suffices(s, maxRetries, n);
        PhaseIsCount(s, maxRetries, n);
      }
    }
  }

  lemma {:induction false} FirstSufficient(s: Script, maxRetries: int, n: nat) returns (first: nat)
    requires Suffices(s, maxRetries, n)
    ensures first <= n && Suffices(s, maxRetries, first)
    ensures forall k: nat :: k < first ==> !Suffices(s, maxRetries, k)
  {
    if k: nat :| k < n && Suffices(s, maxRetries, k) {
      first := FirstSufficient(s, maxRetries, k);
    } else {
      first := n;
    }
  }

  lemma EndsAfter(s: Script, maxRetries: int, n: nat)
    requires Suffices(s, maxRetries, n) && forall k: nat :: k < n ==> !Suffices(s, maxRetries, k)
    ensures PhaseAfter(s, maxRetries, n + 1).Finished?
  {
    forall k: nat | k < n ensures !Conclusive(Seen(s, k)) {
      assert !Suffices(s, maxRetries, k);
    }
    if Counted(s, n) <= maxRetries {
      PhaseIsCount(s, maxRetries, n);
    } else if n > 0 {
      assert !Suffices(s, maxRetries, n - 1);
      PhaseIsCount(s, maxRetries, n - 1);
    }
  }

  ghost predicate RecoversAfter(s: Script, n: nat)
  {
    exists k: nat :: k >= n && !Expired(s.base(k))
  }

  /** It is enough that the base transport keeps giving replies that are no expiry, and that GetBody never fails
      with one. */
  lemma EndsWhenConnectionsRecover(s: Script, maxRetries: int)
    requires forall n: nat :: RecoversAfter(s, n)
    requires forall n: nat :: s.body(n).Some? ==> ErrConnExpired !in s.body(n).value
    ensures exists n: nat :: PhaseAfter(s, maxRetries, n).Finished?
  {
    var n := CountReaches(s, if maxRetries < 0 then 0 else maxRetries + 1);
    assert Suffices(s, maxRetries, n);
    TerminatesExactly(s, maxRetries);
  }

  lemma {:induction false} CountReaches(s: Script, count: nat) returns (n: nat)
    requires forall n: nat :: RecoversAfter(s, n)
    requires forall n: nat :: s.body(n).Some? ==> ErrConnExpired !in s.body(n).value
    ensures Counted(s, n) >= count
  {
    if count == 0 {
      n := 0;
    } else {
      var m := CountReaches(s, count - 1);
      assert RecoversAfter(s, m);
      var k: nat :| k >= m && !Expired(s.base(k));
      CountGrows(s, m, k);
      assert !Expired(Seen(s, k));
      n := k + 1;
    }
  }

  lemma {:induction false} CountGrows(s: Script, m: nat, n: nat)
    requires m <= n
    ensures Counted(s, m) <= Counted(s, n)
    decreases n
  {
    if m < n {
      CountGrows(s, m, n - 1);
    }
  }

  /** A base transport whose every answer wraps ErrConnExpired keeps a RoundTrip going forever. */
  lemma {:induction false} ExpiredForever(s: Script, maxRetries: int, n: nat)
    requires maxRetries >= 0 && forall k: nat :: Expired(s.base(k))
    ensures PhaseAfter(s, maxRetries, n) == Looping(0)
    ensures Expiries(s, maxRetries, n) == n
  {
    if n > 0 {
      ExpiredForever(s, maxRetries, n - 1);
    }
  }

  /** There is such a script, so RoundTrip does not end for every transport. */
  lemma SomeRoundTripNeverEnds(maxRetries: int) returns (s: Script)
    requires maxRetries >= 0
    ensures forall n: nat :: PhaseAfter(s, maxRetries, n).Looping?
  {
    s := Script(false, n => None, n => Error({ErrConnExpired}));
    forall n: nat ensures PhaseAfter(s, maxRetries, n).Looping? {
      ExpiredForever(s, maxRetries, n);
    }
  }
}
