/** The retrying fetch: the backoff schedule, the retry classifier, the per-response outcome and
    the whole bounded retry run, as functions of the responses the endpoint gives and of the
    values the jitter's random source returns. */
module Retry {
  import opened Wrappers
  import opened Tokens
  import opened Query

  /** Backoff slots in seconds, Fibonacci-shaped. */
  const RetrySlots: seq<int> := [1, 1, 2, 3, 5, 8, 13, 21, 34, 55, 89, 144, 233, 377, 610, 987, 1597, 2584, 4181, 6765]

  /** The number of requests a fetch may send: one per backoff slot. */
  const MaxRetry: nat := |RetrySlots|

  /** Attempts are counted from one. */
  const FirstAttempt: nat := 1

  /** The schedule has twenty positive slots, each the sum of the two before it, and never
      decreases. */
  lemma RetrySlotsShape()
    ensures MaxRetry == 20
    ensures forall i :: 0 <= i < MaxRetry ==> RetrySlots[i] >= 1
    ensures forall i :: 2 <= i < MaxRetry ==> RetrySlots[i] == RetrySlots[i - 1] + RetrySlots[i - 2]
    ensures forall i, j :: 0 <= i <= j < MaxRetry ==> RetrySlots[i] <= RetrySlots[j]
  {
    forall i, j | 0 <= i <= j < MaxRetry ensures RetrySlots[i] <= RetrySlots[j] {
      SlotsNondecreasing(i, j);
    }
  }

  lemma SlotsAdjacent()
    ensures forall k :: 0 <= k < MaxRetry - 1 ==> RetrySlots[k] <= RetrySlots[k + 1]
  {
  }

  lemma {:induction false} SlotsMonotone(i: nat, j: nat)
    requires i <= j < MaxRetry
    requires forall k :: 0 <= k < MaxRetry - 1 ==> RetrySlots[k] <= RetrySlots[k + 1]
    ensures RetrySlots[i] <= RetrySlots[j]
    decreases j - i
  {
    if i < j {
      SlotsMonotone(i + 1, j);
    }
  }

  /** A later slot is never shorter than an earlier one, and every slot is at least one second. */
  lemma SlotsNondecreasing(i: nat, j: nat)
    requires i <= j < MaxRetry
    ensures 1 <= RetrySlots[i] <= RetrySlots[j]
  {
    SlotsAdjacent();
    SlotsMonotone(0, i);
    SlotsMonotone(i, j);
  }

  /** Statuses that are retried: too many requests, not found, and every server error. */
  predicate ShouldRetry(status: int)
  {
    status == 429 || status == 404 || (status >= 500 && status <= 599)
  }

  /** A success status is never retried, and neither is any status below 404 or above 599. */
  lemma RetryableStatuses(status: int)
    ensures ShouldRetry(status) ==> 404 <= status <= 599 && status != 200
  {
  }

  /** The parsed body of a response; every field may be missing (null). */
  datatype Body = Body(accessToken: Option<string>, expiresOn: Option<string>, tokenType: Option<string>)

  datatype Response = Response(status: int, body: Body)

  /** The client's exceptions as tagged errors. */
  datatype Error =
    | ConfigurationError          // no identity selector set
    | FetchFailed(status: int)    // a non-retryable, non-success status
    | InvalidToken                // a success status without an access token
    | MaxRetryReached(maxRetry: nat)

  /** What one fetch produces: its result, the delays it waited (in milliseconds, in order) and
      the query of each request it sent. */
  datatype Run = Run(result: Result<Token, Error>, delays: seq<int>, requests: seq<string>)

  /** The endpoint answers at least as many requests as a fetch can send. */
  predicate Answers(responses: seq<Response>) { |responses| >= MaxRetry }

  /** `picks[k]` is what the random source returns on the (k+1)-th retry, when it is asked for
      a value below k + 1. */
  predicate JitterOracle(picks: seq<nat>)
  {
    |picks| >= MaxRetry && forall k :: 0 <= k < |picks| ==> picks[k] <= k
  }

  /** The outcome of a response that is not retried. */
  function Classify(r: Response): (res: Result<Token, Error>)
    requires !ShouldRetry(r.status)
  {
    if r.status != 200 then Failure(FetchFailed(r.status))
    else if r.body.accessToken.None? then Failure(InvalidToken)
    else Success(Token(r.body.tokenType, r.body.accessToken.value, r.body.expiresOn))
  }

  /** A success carries the fields of a 200 response that had an access token; a failure names
      the status or the missing token. An empty access token is accepted. */
  lemma ClassifyMeaning(r: Response)
    requires !ShouldRetry(r.status)
    ensures Classify(r).Success? <==> r.status == 200 && r.body.accessToken.Some?
    ensures Classify(r).Success? ==>
      && Classify(r).value.accessToken == r.body.accessToken.value
      && Classify(r).value.expireOn == r.body.expiresOn
      && Classify(r).value.tokenType == r.body.tokenType
    ensures Classify(r) == Failure(InvalidToken) <==> r.status == 200 && r.body.accessToken.None?
    ensures Classify(r).Failure? && Classify(r).error.FetchFailed? <==> r.status != 200
  {
  }

  /** The delay before the next attempt after a retryable response on attempt `retry`. */
  function Delay(picks: seq<nat>, retry: nat): int
    requires JitterOracle(picks) && 1 <= retry <= MaxRetry
  {
    RetrySlots[picks[retry - 1]] * 1000
  }

  /** Attempts `retry` onwards of a fetch whose requests carry `query`. */
  function Attempts(query: string, responses: seq<Response>, picks: seq<nat>, retry: nat): Run
    requires Answers(responses) && JitterOracle(picks) && 1 <= retry <= MaxRetry + 1
    decreases MaxRetry + 1 - retry
  {
    if retry > MaxRetry then Run(Failure(MaxRetryReached(MaxRetry)), [], [])
    else
      var response := responses[retry - 1];
      if ShouldRetry(response.status) then
        var rest := Attempts(query, responses, picks, retry + 1);
        Run(rest.result, [Delay(picks, retry)] + rest.delays, [query] + rest.requests)
      else Run(Classify(response), [], [query])
  }

  /** A whole fetch: the configuration check, then the attempts. */
  function Retrieve(id: Identity, resource: string, responses: seq<Response>, picks: seq<nat>): Run
    requires Answers(responses) && JitterOracle(picks)
  {
    match Entries(id, resource)
    case None => Run(Failure(ConfigurationError), [], [])
    case Some(q) => Attempts(QueryString(q), responses, picks, FirstAttempt)
  }

  /** Retryable statuses before `n`. */
  predicate RetryableBefore(responses: seq<Response>, n: nat)
    requires n <= |responses|
  {
    forall k :: 0 <= k < n ==> ShouldRetry(responses[k].status)
  }

  /** When attempt `stop` is the first whose status is not retryable, the attempts from `retry`
      send one request each up to and including `stop`, wait once after each earlier one, and
      end with that response's classification. */
  lemma {:induction false} AttemptsStopAt(query: string, responses: seq<Response>, picks: seq<nat>, retry: nat, stop: nat)
    requires Answers(responses) && JitterOracle(picks)
    requires 1 <= retry <= stop <= MaxRetry
    requires forall k :: retry - 1 <= k < stop - 1 ==> ShouldRetry(responses[k].status)
    requires !ShouldRetry(responses[stop - 1].status)
    ensures var run := Attempts(query, responses, picks, retry);
      && run.result == Classify(responses[stop - 1])
      && |run.requests| == stop - retry + 1
      && |run.delays| == stop - retry
      && (forall n :: retry <= n < stop ==> run.delays[n - retry] == Delay(picks, n))
    decreases stop - retry
  {
    if retry < stop {
      AttemptsStopAt(query, responses, picks, retry + 1, stop);
      var run := Attempts(query, responses, picks, retry);
      var rest := Attempts(query, responses, picks, retry + 1);
      assert run.delays == [Delay(picks, retry)] + rest.delays;
      forall n | retry < n < stop ensures run.delays[n - retry] == Delay(picks, n) {
        assert run.delays[n - retry] == rest.delays[n - (retry + 1)];
      }
    }
  }

  /** When every attempt from `retry` on is retryable, the fetch sends every remaining request,
      waits after each, and gives up. */
  lemma {:induction false} AttemptsExhaust(query: string, responses: seq<Response>, picks: seq<nat>, retry: nat)
    requires Answers(responses) && JitterOracle(picks)
    requires 1 <= retry <= MaxRetry + 1
    requires forall k :: retry - 1 <= k < MaxRetry ==> ShouldRetry(responses[k].status)
    ensures var run := Attempts(query, responses, picks, retry);
      && run.result == Failure(MaxRetryReached(MaxRetry))
      && |run.requests| == MaxRetry + 1 - retry
      && |run.delays| == MaxRetry + 1 - retry
    decreases MaxRetry + 1 - retry
  {
    if retry <= MaxRetry {
      AttemptsExhaust(query, responses, picks, retry + 1);
    }
  }

  /** The bounds of every attempt run: between one and MaxRetry requests, all carrying the same
      query, and one delay per retried response (all of them when the retries run out). */
  lemma {:induction false} AttemptsBounds(query: string, responses: seq<Response>, picks: seq<nat>, retry: nat)
    requires Answers(responses) && JitterOracle(picks) && 1 <= retry <= MaxRetry + 1
    ensures var run := Attempts(query, responses, picks, retry);
      && |run.requests| <= MaxRetry + 1 - retry
      && (retry <= MaxRetry ==> |run.requests| >= 1)
      && (forall k :: 0 <= k < |run.requests| ==> run.requests[k] == query)
      && (run.result.Failure? && run.result.error.MaxRetryReached? <==> |run.delays| == |run.requests|)
      && (run.result.Failure? && run.result.error.MaxRetryReached? ==> |run.requests| == MaxRetry + 1 - retry)
      && (!(run.result.Failure? && run.result.error.MaxRetryReached?) ==> |run.delays| == |run.requests| - 1)
    decreases MaxRetry + 1 - retry
  {
    if retry <= MaxRetry && ShouldRetry(responses[retry - 1].status) {
      AttemptsBounds(query, responses, picks, retry + 1);
      var run := Attempts(query, responses, picks, retry);
      var rest := Attempts(query, responses, picks, retry + 1);
      assert run.requests == [query] + rest.requests;
    }
  }

  /** The response to attempt `n` (counted from 1) was retried. */
  predicate RetriedAt(responses: seq<Response>, n: nat)
    requires 1 <= n <= |responses|
  {
    ShouldRetry(responses[n - 1].status)
  }

  /** Each delay of an attempt run follows a retried response, and is the slot the random
      source picked for that attempt. */
  lemma {:induction false} AttemptsWaits(query: string, responses: seq<Response>, picks: seq<nat>, retry: nat)
    requires Answers(responses) && JitterOracle(picks) && 1 <= retry <= MaxRetry + 1
    ensures var run := Attempts(query, responses, picks, retry);
      && |run.delays| <= MaxRetry + 1 - retry
      && (forall n :: retry <= n < retry + |run.delays| ==>
            RetriedAt(responses, n) && run.delays[n - retry] == Delay(picks, n))
    decreases MaxRetry + 1 - retry
  {
    if retry <= MaxRetry && ShouldRetry(responses[retry - 1].status) {
      AttemptsWaits(query, responses, picks, retry + 1);
      var run := Attempts(query, responses, picks, retry);
      var rest := Attempts(query, responses, picks, retry + 1);
      assert run.delays == [Delay(picks, retry)] + rest.delays;
      forall n | retry <= n < retry + |run.delays|
        ensures RetriedAt(responses, n) && run.delays[n - retry] == Delay(picks, n)
      {
        if n > retry {
          assert run.delays[n - retry] == rest.delays[n - (retry + 1)];
        }
      }
    }
  }

  /** Unless the retries ran out, an attempt run ends at the first response that is not
      retryable, with its classification. */
  lemma {:induction false} AttemptsEnd(query: string, responses: seq<Response>, picks: seq<nat>, retry: nat)
    requires Answers(responses) && JitterOracle(picks) && 1 <= retry <= MaxRetry + 1
    ensures var run := Attempts(query, responses, picks, retry);
      !(run.result.Failure? && run.result.error.MaxRetryReached?) ==>
        && retry + |run.delays| <= MaxRetry
        && !RetriedAt(responses, retry + |run.delays|)
        && run.result == Classify(responses[retry - 1 + |run.delays|])
    decreases MaxRetry + 1 - retry
  {
    if retry <= MaxRetry && ShouldRetry(responses[retry - 1].status) {
      AttemptsEnd(query, responses, picks, retry + 1);
      var run := Attempts(query, responses, picks, retry);
      var rest := Attempts(query, responses, picks, retry + 1);
      assert |run.delays| == 1 + |rest.delays| && run.result == rest.result;
    }
  }

  /** Every delay is at most the slot of the attempt that caused it, and at most the largest slot. */
  lemma DelayBound(picks: seq<nat>, retry: nat)
    requires JitterOracle(picks) && 1 <= retry <= MaxRetry
    ensures 1000 <= Delay(picks, retry) <= RetrySlots[retry - 1] * 1000 <= RetrySlots[MaxRetry - 1] * 1000
  {
    SlotsNondecreasing(picks[retry - 1], retry - 1);
    SlotsNondecreasing(retry - 1, MaxRetry - 1);
  }

  /** The k-th wait follows a retried k-th response and lasts between one second and the
      k-th slot. */
  predicate WaitsBounded(delays: seq<int>, responses: seq<Response>)
    requires Answers(responses) && |delays| <= MaxRetry
  {
    forall k :: 0 <= k < |delays| ==>
      RetriedAt(responses, k + 1) && 1000 <= delays[k] <= RetrySlots[k] * 1000
  }

  /** What every fetch satisfies: at most MaxRetry requests, all with the same query, and none
      exactly when the configuration is rejected; one wait per retried response, the k-th at
      most slot k; running out of retries takes MaxRetry requests and waits; any other end is
      the classification of the last response, after one wait per earlier response. */
  predicate Bounded(run: Run, responses: seq<Response>)
    requires Answers(responses)
  {
    && |run.requests| <= MaxRetry
    && |run.delays| <= |run.requests|
    && (run.requests == [] <==> run.result == Failure(ConfigurationError))
    && (forall k :: 0 <= k < |run.requests| ==> run.requests[k] == run.requests[0])
    && WaitsBounded(run.delays, responses)
    && (run.result.Failure? && run.result.error.MaxRetryReached? ==>
          |run.requests| == |run.delays| == MaxRetry)
    && (run.result.Success? || run.result == Failure(InvalidToken) || run.result.error.FetchFailed? ==>
          && |run.delays| == |run.requests| - 1
          && !ShouldRetry(responses[|run.delays|].status)
          && run.result == Classify(responses[|run.delays|]))
  }

  /** The attempts of a fetch that got past the configuration check, seen from the start. */
  lemma AttemptsFromFirst(query: string, responses: seq<Response>, picks: seq<nat>)
    requires Answers(responses) && JitterOracle(picks)
    ensures var run := Attempts(query, responses, picks, FirstAttempt);
      && run.result != Failure(ConfigurationError)
      && 1 <= |run.requests| <= MaxRetry
      && |run.delays| <= |run.requests|
      && (forall k :: 0 <= k < |run.requests| ==> run.requests[k] == query)
      && (run.result.Failure? && run.result.error.MaxRetryReached? ==>
            |run.requests| == |run.delays| == MaxRetry)
      && (!(run.result.Failure? && run.result.error.MaxRetryReached?) ==>
            && |run.delays| == |run.requests| - 1
            && !ShouldRetry(responses[|run.delays|].status)
            && run.result == Classify(responses[|run.delays|]))
  {
    AttemptsBounds(query, responses, picks, FirstAttempt);
    AttemptsEnd(query, responses, picks, FirstAttempt);
  }

  /** The k-th wait of a fetch follows a retried response and lasts between one second and
      the k-th slot. */
  lemma AttemptsDelaysBounded(query: string, responses: seq<Response>, picks: seq<nat>)
    requires Answers(responses) && JitterOracle(picks)
    ensures var run := Attempts(query, responses, picks, FirstAttempt);
      && |run.delays| <= MaxRetry
      && WaitsBounded(run.delays, responses)
  {
    AttemptsWaits(query, responses, picks, FirstAttempt);
    DelaysBounded(responses, picks, Attempts(query, responses, picks, FirstAttempt).delays);
  }

  lemma DelaysBounded(responses: seq<Response>, picks: seq<nat>, delays: seq<int>)
    requires Answers(responses) && JitterOracle(picks) && |delays| <= MaxRetry
    requires forall n :: 1 <= n < 1 + |delays| ==> RetriedAt(responses, n) && delays[n - 1] == Delay(picks, n)
    ensures WaitsBounded(delays, responses)
  {
    forall k | 0 <= k < |delays|
      ensures RetriedAt(responses, k + 1) && 1000 <= delays[k] <= RetrySlots[k] * 1000
    {
      assert RetriedAt(responses, k + 1) && delays[k + 1 - 1] == Delay(picks, k + 1);
      DelayBound(picks, k + 1);
    }
  }

  lemma AttemptsBounded(query: string, responses: seq<Response>, picks: seq<nat>)
    requires Answers(responses) && JitterOracle(picks)
    ensures Bounded(Attempts(query, responses, picks, FirstAttempt), responses)
  {
    AttemptsFromFirst(query, responses, picks);
    AttemptsDelaysBounded(query, responses, picks);
  }

  /** Every fetch, whatever the configuration and the responses, is bounded as above. */
  lemma RetrieveBounds(id: Identity, resource: string, responses: seq<Response>, picks: seq<nat>)
    requires Answers(responses) && JitterOracle(picks)
    ensures Bounded(Retrieve(id, resource, responses, picks), responses)
  {
    if Entries(id, resource).Some? {
      var query := QueryString(Entries(id, resource).value);
      AttemptsBounded(query, responses, picks);
      assert Retrieve(id, resource, responses, picks) == Attempts(query, responses, picks, FirstAttempt);
    }
  }

  /** The first response is waited on and followed by another request exactly when its status
      is retryable; otherwise it alone decides the fetch. */
  lemma FirstResponseRetried(query: string, responses: seq<Response>, picks: seq<nat>)
    requires Answers(responses) && JitterOracle(picks)
    ensures var run := Attempts(query, responses, picks, FirstAttempt);
      && (ShouldRetry(responses[0].status) <==> |run.delays| >= 1)
      && (ShouldRetry(responses[0].status) <==> |run.requests| >= 2)
      && (!ShouldRetry(responses[0].status) ==> run.result == Classify(responses[0]))
  {
    var run := Attempts(query, responses, picks, FirstAttempt);
    if ShouldRetry(responses[0].status) {
      AttemptsBounds(query, responses, picks, FirstAttempt + 1);
      assert run.requests == [query] + Attempts(query, responses, picks, FirstAttempt + 1).requests;
    }
  }

  /** A configuration without a selector fails before any request is sent. */
  lemma NoSelectorNoRequest(resource: string, responses: seq<Response>, picks: seq<nat>)
    requires Answers(responses) && JitterOracle(picks)
    ensures Retrieve(Identity(None, None, None), resource, responses, picks)
            == Run(Failure(ConfigurationError), [], [])
  {
  }

  /** MaxRetry retryable responses in a row end the fetch with MaxRetryReached after MaxRetry
      requests and MaxRetry delays. */
  lemma AllRetryableExhausts(id: Identity, resource: string, responses: seq<Response>, picks: seq<nat>)
    requires Answers(responses) && JitterOracle(picks)
    requires Entries(id, resource).Some?
    requires RetryableBefore(responses, MaxRetry)
    ensures var run := Retrieve(id, resource, responses, picks);
      run.result == Failure(MaxRetryReached(MaxRetry)) && |run.requests| == MaxRetry && |run.delays| == MaxRetry
  {
    AttemptsExhaust(QueryString(Entries(id, resource).value), responses, picks, FirstAttempt);
  }

  /** The k-th wait is the slot the random source picked on the k-th retry. */
  predicate PickedWaits(delays: seq<int>, picks: seq<nat>)
    requires JitterOracle(picks) && |delays| <= MaxRetry
  {
    forall k :: 0 <= k < |delays| ==> delays[k] == RetrySlots[picks[k]] * 1000
  }

  lemma StopWaits(query: string, responses: seq<Response>, picks: seq<nat>, i: nat)
    requires Answers(responses) && JitterOracle(picks)
    requires i < MaxRetry && RetryableBefore(responses, i) && !ShouldRetry(responses[i].status)
    ensures var run := Attempts(query, responses, picks, FirstAttempt);
      && run.result == Classify(responses[i])
      && |run.requests| == i + 1
      && |run.delays| == i
      && PickedWaits(run.delays, picks)
  {
    AttemptsStopAt(query, responses, picks, FirstAttempt, i + 1);
    var delays := Attempts(query, responses, picks, FirstAttempt).delays;
    forall k | 0 <= k < i ensures delays[k] == RetrySlots[picks[k]] * 1000 {
      assert delays[k + 1 - FirstAttempt] == Delay(picks, k + 1);
    }
  }

  /** The fetch is decided by the first response that is not retried: it sends exactly the
      requests up to that one, waits once after each earlier one, the k-th for the slot picked
      on the k-th retry, and ends with its outcome. */
  lemma FirstStopDecides(id: Identity, resource: string, responses: seq<Response>, picks: seq<nat>, i: nat)
    requires Answers(responses) && JitterOracle(picks)
    requires Entries(id, resource).Some?
    requires i < MaxRetry && RetryableBefore(responses, i) && !ShouldRetry(responses[i].status)
    ensures var run := Retrieve(id, resource, responses, picks);
      && run.result == Classify(responses[i])
      && |run.requests| == i + 1
      && |run.delays| == i
      && PickedWaits(run.delays, picks)
  {
    var query := QueryString(Entries(id, resource).value);
    StopWaits(query, responses, picks, i);
    assert Retrieve(id, resource, responses, picks) == Attempts(query, responses, picks, FirstAttempt);
  }

  /** Responses 429, 500 and then 200 with a token: two delays, three requests, and the token
      built from the third response. */
  lemma ThreeResponseExample(id: Identity, resource: string, responses: seq<Response>, picks: seq<nat>, b: Body)
    requires Answers(responses) && JitterOracle(picks)
    requires Entries(id, resource).Some?
    requires responses[0].status == 429 && responses[1].status == 500 && responses[2] == Response(200, b)
    requires b.accessToken.Some?
    ensures var run := Retrieve(id, resource, responses, picks);
      && run.result == Success(Token(b.tokenType, b.accessToken.value, b.expiresOn))
      && |run.delays| == 2 && |run.requests| == 3
  {
    FirstStopDecides(id, resource, responses, picks, 2);
  }
}
