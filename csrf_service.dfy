/** The client's module-level CSRF token cache: a token is requested from the server only
    while the cache holds nothing truthy. */
module CsrfService {
  import opened Js

  /** The outcome of one `fetchCsrfToken()`: the new cache, the returned token (None when
      the call threw) and whether a request was sent. */
  datatype Fetched = Fetched(cache: Option<string>, token: Option<string>, requested: bool)

  /** `fetchCsrfToken()` on cache `cache`, where `served` is the server's token, or None
      when the request fails and the call throws before the cache is written. */
  function FetchStep(cache: Option<string>, served: Option<string>): (r: Fetched)
    ensures r.requested <==> !Truthy(cache)
    ensures !r.requested ==> r.token == cache && r.cache == cache
    ensures r.requested ==> r.token == served
    ensures r.token.Some? ==> r.cache == r.token
    ensures r.token.None? ==> r.cache == cache && !Truthy(r.cache)
  {
    if Truthy(cache) then Fetched(cache, cache, false)
    else if served.None? then Fetched(cache, None, true)
    else Fetched(served, served, true)
  }

  /** Two calls with no clear in between send at most one request and return the same
      token, as long as the first call returned a non-empty token. */
  lemma AtMostOneRequest(cache: Option<string>, served1: Option<string>, served2: Option<string>)
    ensures var first := FetchStep(cache, served1);
            var second := FetchStep(first.cache, served2);
            Truthy(first.token) ==> !second.requested && second.token == first.token
  {
  }

  /** An empty token from the server is not kept as a hit: the next call asks again. */
  lemma EmptyTokenRequestedAgain(cache: Option<string>, served: Option<string>)
    requires !Truthy(cache)
    ensures FetchStep(FetchStep(cache, Some("")).cache, served).requested
  {
  }

  /** A failed request leaves nothing cached: the next call asks again. */
  lemma FailureRequestedAgain(cache: Option<string>, served: Option<string>)
    ensures var first := FetchStep(cache, None);
            first.token.None? ==> FetchStep(first.cache, served).requested
  {
  }

  /** After `clearCsrfToken()` the next call sends a request. */
  lemma ClearForcesRequest(served: Option<string>)
    ensures FetchStep(None, served).requested && FetchStep(None, served).token == served
  {
  }

  /** The module's mutable `csrfTokenCache`. */
  class TokenCache {
    var cache: Option<string>

    constructor ()
      ensures cache == None
    {
      cache := None;
    }

    /** `token` is None when the call throws. */
    method FetchCsrfToken(served: Option<string>) returns (token: Option<string>, requested: bool)
      modifies this
      ensures Fetched(cache, token, requested) == FetchStep(old(cache), served)
    {
      if Truthy(cache) {
        return cache, false;
      }
      requested := true;
      token := served;
      if served.Some? {
        cache := served;
      }
    }

    method ClearCsrfToken()
      modifies this
      ensures cache == None
    {
      cache := None;
    }
  }
}
