/** GetRetryPolicy: Polly's HandleTransientHttpError().WaitAndRetryAsync with
    three retries and a 2^k-second sleep before retry k. A run is described
    by what the server answers on each successive attempt. */
module RetryPolicy {
  import opened Client

  /** The literal retry count; ExternalApiOptions.MaxRetryAttempts is not consulted. */
  const RetryCount: nat := 3

  const MaxAttempts: nat := RetryCount + 1

  /** HandleTransientHttpError: an HttpRequestException, any status >= 500,
      or 408 Request Timeout. A TaskCanceledException is not handled. */
  predicate IsTransient<E>(o: Transport<E>)
  {
    o.RequestError? || (o.Response? && (o.status >= 500 || o.status == 408))
  }

  /** The outcomes HandleTransientHttpError retries: a failed request, a 5xx
      or a 408, and no other. In particular a 2xx, a 404, a 429 and a
      cancellation are not retried. */
  lemma TransientOutcomes<E>(o: Transport<E>)
    ensures o.RequestError? ==> IsTransient(o)
    ensures o.Canceled? ==> !IsTransient(o)
    ensures o.Response? ==> (IsTransient(o) <==> 500 <= o.status || o.status == 408)
    ensures o.Response? && (IsSuccessStatus(o.status) || o.status == NotFound || o.status == 429) ==>
              !IsTransient(o)
  {
  }

  function Pow2(k: nat): (r: nat)
    ensures r >= 1
  {
    if k == 0 then 1 else 2 * Pow2(k - 1)
  }

  /** Seconds slept before retry number retryAttempt (1, 2, 3). */
  function Backoff(retryAttempt: nat): nat
  {
    Pow2(retryAttempt)
  }

  /** The sleeps before retries start + 1 .. start + n. */
  function Schedule(start: nat, n: nat): seq<nat>
    decreases n
  {
    if n == 0 then [] else [Backoff(start + 1)] + Schedule(start + 1, n - 1)
  }

  function TotalDelay(delays: seq<nat>): nat
  {
    if delays == [] then 0 else delays[0] + TotalDelay(delays[1..])
  }

  /** One request through the policy: how many attempts were made, the
      outcome of the last one (what the client then sees), and the sleeps. */
  datatype Run<E> = Run(attempts: nat, final: Transport<E>, delays: seq<nat>)

  /** The policy from attempt number `retry` on (0 is the first try);
      server(j) is the answer to attempt j. */
  function RunFrom<E>(server: nat -> Transport<E>, retry: nat): (r: Run<E>)
    requires retry <= RetryCount
    ensures 1 <= r.attempts <= MaxAttempts - retry
    ensures r.delays == Schedule(retry, r.attempts - 1)
    ensures r.final == server(retry + r.attempts - 1)
    // every attempt but the last failed transiently
    ensures forall j :: retry <= j < retry + r.attempts - 1 ==> IsTransient(server(j))
    // the run stops on a non-transient outcome or when the retries are used up
    ensures !IsTransient(r.final) || retry + r.attempts == MaxAttempts
    decreases RetryCount - retry
  {
    var o := server(retry);
    if IsTransient(o) && retry < RetryCount then
      var rest := RunFrom(server, retry + 1);
      Run(rest.attempts + 1, rest.final, [Backoff(retry + 1)] + rest.delays)
    else
      Run(1, o, [])
  }

  /** The whole policy for one request. */
  function Execute<E>(server: nat -> Transport<E>): (r: Run<E>)
    ensures 1 <= r.attempts <= MaxAttempts
    ensures r.delays == Schedule(0, r.attempts - 1)
    ensures r.final == server(r.attempts - 1)
    ensures forall j :: 0 <= j < r.attempts - 1 ==> IsTransient(server(j))
    ensures !IsTransient(r.final) || r.attempts == MaxAttempts
  {
    RunFrom(server, 0)
  }

  /** The sleeps are 2 s, 4 s and 8 s. */
  lemma BackoffSchedule()
    ensures Schedule(0, RetryCount) == [2, 4, 8]
  {
    assert Backoff(1) == 2 && Backoff(2) == 4 && Backoff(3) == 8;
  }

  /** Each sleep is twice the one before. */
  lemma BackoffDoubles(k: nat)
    ensures Backoff(k + 1) == 2 * Backoff(k)
  {
  }

  lemma {:induction false} BackoffIncreasing(i: nat, j: nat)
    requires i < j
    ensures Backoff(i) < Backoff(j)
    decreases j
  {
    if i < j - 1 {
      BackoffIncreasing(i, j - 1);
    }
  }

  lemma {:induction false} TotalOfSchedule(start: nat, n: nat)
    ensures TotalDelay(Schedule(start, n)) == Pow2(start + n + 1) - Pow2(start + 1)
    decreases n
  {
    if n > 0 {
      assert Schedule(start, n)[1..] == Schedule(start + 1, n - 1);
      TotalOfSchedule(start + 1, n - 1);
      assert Pow2(start + 2) == 2 * Pow2(start + 1);
    }
  }

  /** At most four attempts per request and at most 14 seconds of sleep. */
  lemma ExecuteBounds<E>(server: nat -> Transport<E>)
    ensures Execute(server).attempts <= 4
    ensures TotalDelay(Execute(server).delays) <= 14
  {
    var r := Execute(server);
    TotalOfSchedule(0, r.attempts - 1);
    if r.attempts - 1 < RetryCount {
      BackoffIncreasing(r.attempts, RetryCount + 1);
    }
  }

  /** A non-transient first answer (a 404, any other 4xx but 408, a 2xx, a
      cancellation) ends the request after one attempt, unchanged. */
  lemma NonTransientIsNotRetried<E>(server: nat -> Transport<E>)
    requires !IsTransient(server(0))
    ensures Execute(server) == Run(1, server(0), [])
  {
  }
}
