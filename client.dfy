/** The client object: its identity-selector settings, its token cache and its refresh lock,
    the retrying fetch it runs, and the get-or-refresh protocol. */
module Client {
  import opened Wrappers
  import opened Tokens
  import opened Query
  import opened Retry

  /** The resource id the client is configured with when it is created: an Azure Resource
      Manager id built from its subscription, resource group and identity name. */
  const SubscriptionId: string := "ec0aa5f7-9e78-40c9-85cd-535c6305b380"
  const ResourceGroup: string := "1c2b4bf7e1f448e"
  const IdentityName: string := "msi-idd7b42487"
  const DefaultResourceId: string :=
    "/subscriptions/" + SubscriptionId + "/resourcegroups/" + ResourceGroup
    + "/providers/" + "Microsoft.ManagedIdentity" + "/userAssignedIdentities/" + IdentityName

  /** The resource the program asks tokens for. */
  const DefaultResource: string := "https://management.azure.com/"

  /** Free of the characters the query reader splits on or decodes. */
  predicate Plain(s: string)
  {
    '&' !in s && '%' !in s
  }

  lemma SubscriptionPlain() ensures Plain(SubscriptionId) {}
  lemma ResourceGroupPlain() ensures Plain(ResourceGroup) {}
  lemma IdentityNamePlain() ensures Plain(IdentityName) {}
  lemma PathWordsPlain() ensures Plain("/subscriptions/") && Plain("/resourcegroups/") && Plain("/providers/") {}
  lemma ProviderPlain() ensures Plain("Microsoft.ManagedIdentity") {}
  lemma IdentitiesWordPlain() ensures Plain("/userAssignedIdentities/") {}

  /** Neither default contains `&` or `%`. */
  lemma DefaultsPlain()
    ensures Plain(DefaultResourceId) && Plain(DefaultResource)
  {
    SubscriptionPlain();
    ResourceGroupPlain();
    IdentityNamePlain();
    PathWordsPlain();
    ProviderPlain();
    IdentitiesWordPlain();
  }

  /** The query a newly created client sends for the program's resource reads back as exactly
      its entries. */
  lemma DefaultQueryRoundTrip()
    ensures Entries(Identity(None, None, Some(DefaultResourceId)), DefaultResource).Some?
    ensures ParseQuery(QueryString(Entries(Identity(None, None, Some(DefaultResourceId)), DefaultResource).value))
            == Entries(Identity(None, None, Some(DefaultResourceId)), DefaultResource).value
  {
    DefaultsPlain();
    ResourceIdQueryRoundTrip(DefaultResource, DefaultResourceId);
  }

  /** A cached token for `key` that has not expired at `now`. */
  predicate FreshIn(cache: map<string, Token>, key: string, now: int)
  {
    key in cache && !IsExpired(cache[key], now)
  }

  /** A run that a prefix of delays and requests has already been recorded for. */
  function After(delays: seq<int>, requests: seq<string>, rest: Run): Run
  {
    Run(rest.result, delays + rest.delays, requests + rest.requests)
  }

  lemma AfterStep(delays: seq<int>, requests: seq<string>, d: int, url: string, rest: Run)
    ensures After(delays, requests, Run(rest.result, [d] + rest.delays, [url] + rest.requests))
            == After(delays + [d], requests + [url], rest)
  {
    assert delays + ([d] + rest.delays) == (delays + [d]) + rest.delays;
    assert requests + ([url] + rest.requests) == (requests + [url]) + rest.requests;
  }

  lemma AfterLast(delays: seq<int>, requests: seq<string>, result: Result<Token, Error>, url: string)
    ensures After(delays, requests, Run(result, [], [url])) == Run(result, delays, requests + [url])
  {
    assert delays + [] == delays;
  }

  /** The retry loop: one request per attempt; a retryable status waits the jittered slot and
      tries again, any other status ends the fetch, and MaxRetry retried attempts give up. */
  method SendWithRetry(url: string, responses: seq<Response>, picks: seq<nat>)
    returns (result: Result<Token, Error>, delays: seq<int>, requests: seq<string>)
    requires Answers(responses) && JitterOracle(picks)
    ensures Run(result, delays, requests) == Attempts(url, responses, picks, FirstAttempt)
  {
    var retry := FirstAttempt;
    delays, requests := [], [];
    ghost var whole := Attempts(url, responses, picks, FirstAttempt);
    while retry <= MaxRetry
      invariant FirstAttempt <= retry <= MaxRetry + 1
      invariant After(delays, requests, Attempts(url, responses, picks, retry)) == whole
      decreases MaxRetry + 1 - retry
    {
      var response := responses[retry - 1];
      if ShouldRetry(response.status) {
        var retryTimeout := RetrySlots[picks[retry - 1]];
        AfterStep(delays, requests, retryTimeout * 1000, url, Attempts(url, responses, picks, retry + 1));
        delays, requests := delays + [retryTimeout * 1000], requests + [url];
        retry := retry + 1;
      } else if response.status != 200 {
        AfterLast(delays, requests, Failure(FetchFailed(response.status)), url);
        return Failure(FetchFailed(response.status)), delays, requests + [url];
      } else if response.body.accessToken == None {
        AfterLast(delays, requests, Failure(InvalidToken), url);
        return Failure(InvalidToken), delays, requests + [url];
      } else {
        var token := Token(response.body.tokenType, response.body.accessToken.value, response.body.expiresOn);
        AfterLast(delays, requests, Success(token), url);
        return Success(token), delays, requests + [url];
      }
    }
    assert delays + [] == delays && requests + [] == requests;
    return Failure(MaxRetryReached(MaxRetry)), delays, requests;
  }

  class TokenClient {
    var objectId: Option<string>
    var clientId: Option<string>
    var resourceId: Option<string>
    /** Resource key to the token most recently fetched for it. */
    var cache: map<string, Token>
    /** Whether the refresh lock (a one-slot semaphore) is held. */
    var locked: bool

    constructor ()
      ensures objectId == None && clientId == None && resourceId == Some(DefaultResourceId)
      ensures cache == map[] && !locked
    {
      objectId, clientId, resourceId := None, None, Some(DefaultResourceId);
      cache, locked := map[], false;
    }

    /** The identity-selector settings as one value. */
    function Selector(): Identity
      reads this
    {
      Identity(objectId, clientId, resourceId)
    }

    /** Builds the query (configuration error when no selector is set), then runs the attempts.
        `responses[k]` answers the (k+1)-th request and `picks[k]` is what the random source
        returns on the (k+1)-th retry. */
    method RetrieveTokenWithRetry(resource: string, responses: seq<Response>, picks: seq<nat>)
      returns (result: Result<Token, Error>, delays: seq<int>, requests: seq<string>)
      requires Answers(responses) && JitterOracle(picks)
      ensures Run(result, delays, requests) == Retrieve(Selector(), resource, responses, picks)
    {
      var query: seq<Pair> := [("api-version", ApiVersion), ("resource", resource)];
      if objectId != None {
        query := query + [("object_id", objectId.value)];
      } else if clientId != None {
        query := query + [("client_id", clientId.value)];
      } else if resourceId != None {
        query := query + [("msi_res_id", resourceId.value)];
      } else {
        return Failure(ConfigurationError), [], [];
      }
      assert Entries(Selector(), resource) == Some(query);
      result, delays, requests := SendWithRetry(QueryString(query), responses, picks);
    }

    /** Takes the refresh lock. */
    method Acquire()
      requires !locked
      modifies this`locked
      ensures locked
    {
      locked := true;
    }

    /** Releases the refresh lock. */
    method Release()
      requires locked
      modifies this`locked
      ensures !locked
    {
      locked := false;
    }

    /** The part of the protocol run while the lock is held: look again, then fetch and store. */
    method RefreshLocked(resource: string, now: int, responses: seq<Response>, picks: seq<nat>)
      returns (result: Result<Token, Error>, delays: seq<int>, requests: seq<string>)
      requires locked && Answers(responses) && JitterOracle(picks)
      modifies this`cache
      ensures FreshIn(old(cache), resource, now) ==>
        result == Success(old(cache)[resource]) && delays == [] && requests == [] && cache == old(cache)
      ensures !FreshIn(old(cache), resource, now) ==>
        && Run(result, delays, requests) == Retrieve(Selector(), resource, responses, picks)
        && cache == (if result.Success? then old(cache)[resource := result.value] else old(cache))
    {
      if FreshIn(cache, resource, now) {
        return Success(cache[resource]), [], [];
      }
      result, delays, requests := RetrieveTokenWithRetry(resource, responses, picks);
      if result.Success? {
        cache := cache[resource := result.value];
      }
    }

    /** Returns a fresh cached token for `resource` without any request; otherwise takes the
        lock, looks again, fetches, stores a fetched token (replacing any old one) and releases
        the lock on every path. A failed fetch leaves the cache as it was. */
    method GetToken(resource: string, now: int, responses: seq<Response>, picks: seq<nat>)
      returns (result: Result<Token, Error>, delays: seq<int>, requests: seq<string>)
      requires !locked && Answers(responses) && JitterOracle(picks)
      modifies this`cache, this`locked
      ensures !locked
      ensures FreshIn(old(cache), resource, now) ==>
        result == Success(old(cache)[resource]) && delays == [] && requests == [] && cache == old(cache)
      ensures !FreshIn(old(cache), resource, now) ==>
        && Run(result, delays, requests) == Retrieve(Selector(), resource, responses, picks)
        && cache == (if result.Success? then old(cache)[resource := result.value] else old(cache))
      ensures forall k :: k != resource ==> (k in cache <==> k in old(cache))
      ensures forall k :: k != resource && k in cache ==> cache[k] == old(cache)[k]
    {
      if FreshIn(cache, resource, now) {
        return Success(cache[resource]), [], [];
      }
      Acquire();
      result, delays, requests := RefreshLocked(resource, now, responses, picks);
      Release();
    }
  }

  /** Two calls in a row for the same resource, each answered by its own responses: when the
      first hands out a token that is still fresh at the second call's time, the second sends no
      request, returns the same token and leaves the cache as it was. `afterFirst` is the cache
      between the two calls: each call stores a token it hands out and leaves the cache alone
      when it fails. The lock is free afterwards and the selector settings are untouched, so
      further calls can follow. */
  method RepeatedCalls(c: TokenClient, resource: string, now: int, later: int,
                       responses: seq<Response>, picks: seq<nat>,
                       responses2: seq<Response>, picks2: seq<nat>)
    returns (first: Result<Token, Error>, second: Result<Token, Error>, secondRequests: seq<string>,
             ghost afterFirst: map<string, Token>)
    requires !c.locked && Answers(responses) && JitterOracle(picks)
    requires Answers(responses2) && JitterOracle(picks2)
    modifies c`cache, c`locked
    ensures !c.locked
    ensures first.Success? ==> afterFirst == old(c.cache)[resource := first.value]
    ensures first.Failure? ==> afterFirst == old(c.cache)
    ensures c.cache == (if second.Success? then afterFirst[resource := second.value] else afterFirst)
    ensures first.Success? && !IsExpired(first.value, later) ==>
      second == first && secondRequests == [] && c.cache == afterFirst
  {
    var d1, r1, d2;
    first, d1, r1 := c.GetToken(resource, now, responses, picks);
    afterFirst := c.cache;
    second, d2, secondRequests := c.GetToken(resource, later, responses2, picks2);
  }
}
