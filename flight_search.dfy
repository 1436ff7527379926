/** The `FlightSearchAPI` client: a cached OAuth token and the flight-offer
    search that uses it. The network is a parameter: each method receives
    the reply the vendor would send, and the clock readings it would see. */
module FlightSearch {
  import opened Wrappers
  import opened Decimal
  import opened SearchQuery
  import opened Offers

  /** The token endpoint's reply: `access_token` and `expires_in` (in
      seconds), None when the field is absent. */
  datatype TokenGrant = TokenGrant(accessToken: Option<string>, expiresIn: Option<nat>)

  /** The two cached fields. A `tokenExpiry` of None stands both for the
      initial `null` and for the `NaN` a grant without `expires_in` leaves:
      neither compares greater than a clock reading. */
  datatype TokenCache = TokenCache(accessToken: Option<string>, tokenExpiry: Option<int>)

  /** The state the constructor sets up. */
  const Initial := TokenCache(None, None)

  /** JavaScript truthiness of a string field. */
  predicate Truthy(s: Option<string>) {
    s.Some? && s.value != []
  }

  /** The cached token may be returned without a request at time `now`. */
  predicate Reusable(c: TokenCache, now: nat) {
    Truthy(c.accessToken) && c.tokenExpiry.Some? && c.tokenExpiry.value > now
  }

  /** The cache after a token request whose reply arrived at `receivedAt`
      (milliseconds). */
  function Refreshed(grant: TokenGrant, receivedAt: nat): (c: TokenCache)
    ensures c.accessToken == grant.accessToken
    ensures grant.expiresIn.Some? ==> c.tokenExpiry == Some(receivedAt + grant.expiresIn.value * 1000)
    ensures grant.expiresIn.None? ==> c.tokenExpiry.None?
  {
    TokenCache(grant.accessToken,
               if grant.expiresIn.Some? then Some(receivedAt + grant.expiresIn.value * 1000) else None)
  }

  /** What one `getAccessToken` call leaves behind. */
  datatype Acquired = Acquired(cache: TokenCache, token: Option<string>, fetched: bool)

  /** `getAccessToken` from cache `c`: checked at `now`; when it must fetch,
      the vendor answers `grant` and the clock then reads `receivedAt`. */
  function Acquire(c: TokenCache, now: nat, grant: TokenGrant, receivedAt: nat): (a: Acquired)
    ensures a.token == a.cache.accessToken
    ensures a.fetched <==> !Reusable(c, now)
    ensures !a.fetched ==> a.cache == c
    ensures a.fetched ==> a.cache == Refreshed(grant, receivedAt) && a.token == grant.accessToken
  {
    if Reusable(c, now) then Acquired(c, c.accessToken, false)
    else Acquired(Refreshed(grant, receivedAt), grant.accessToken, true)
  }

  /** The `Authorization` header; a missing token interpolates as
      "undefined". */
  function BearerHeader(token: Option<string>): (h: string)
    ensures token.Some? ==> h == "Bearer " + token.value
    ensures token.None? ==> h == "Bearer undefined"
  {
    "Bearer " + (if token.Some? then token.value else "undefined")
  }

  /** The message of the Error thrown on a non-OK reply. */
  function ApiError(status: nat, statusText: string): (r: string) {
    "API Error: " + Show(status) + " " + statusText
  }

  /** The vendor's reply to the search request. */
  datatype HttpReply = HttpReply(ok: bool, status: nat, statusText: string, body: SearchResponse)

  /** The search request: its query parameters and its header. */
  datatype SearchRequest = SearchRequest(query: Query, authorization: string)

  /** What `searchFlights` resolves to, or the message it rejects with. */
  function Outcome(reply: HttpReply): (r: Result<SearchResponse, string>)
    ensures r.Ok? <==> reply.ok
    ensures r.Ok? ==> r.value == reply.body
    ensures r.Err? ==> r.error == ApiError(reply.status, reply.statusText)
  {
    if !reply.ok then Err(ApiError(reply.status, reply.statusText)) else Ok(reply.body)
  }

  class FlightSearchApi {
    var accessToken: Option<string>
    var tokenExpiry: Option<int>

    constructor()
      ensures Cache() == Initial
    {
      accessToken := None;
      tokenExpiry := None;
    }

    function Cache(): (c: TokenCache)
      reads this
    {
      TokenCache(accessToken, tokenExpiry)
    }

    /** `getAccessToken`: the cached token while it is valid, else a new one. */
    method GetAccessToken(now: nat, grant: TokenGrant, receivedAt: nat) returns (token: Option<string>, fetched: bool)
      modifies this
      ensures Acquired(Cache(), token, fetched) == Acquire(old(Cache()), now, grant, receivedAt)
    {
      if Truthy(accessToken) && tokenExpiry.Some? && tokenExpiry.value > now {
        return accessToken, false;
      }
      accessToken := grant.accessToken;
      tokenExpiry := if grant.expiresIn.Some? then Some(receivedAt + grant.expiresIn.value * 1000) else None;
      return accessToken, true;
    }

    /** `searchFlights`: obtains a token, sends the query with it, and
      returns the reply's body or the error built from its status. */
    method SearchFlights(params: SearchParams, now: nat, grant: TokenGrant, receivedAt: nat, reply: HttpReply)
      returns (request: SearchRequest, result: Result<SearchResponse, string>)
      modifies this
      ensures Cache() == Acquire(old(Cache()), now, grant, receivedAt).cache
      ensures request == SearchRequest(QueryOf(params), BearerHeader(Acquire(old(Cache()), now, grant, receivedAt).token))
      ensures result == Outcome(reply)
    {
      var token, _ := GetAccessToken(now, grant, receivedAt);
      request := SearchRequest(QueryOf(params), BearerHeader(token));
      if !reply.ok {
        return request, Err(ApiError(reply.status, reply.statusText));
      }
      return request, Ok(reply.body);
    }
  }

  // ---------------------------------------------------------------------
  // Properties of the token cache

  /** A fresh client always requests a token. */
  lemma FirstCallFetches(now: nat, grant: TokenGrant, receivedAt: nat)
    ensures Acquire(Initial, now, grant, receivedAt).fetched
  {
  }

  /** After a fetch that yields a token lasting `e` seconds, every call
      before `receivedAt + e * 1000` returns the same token without a
      request, and the cache stays put. */
  lemma ReuseWithinLifetime(c: TokenCache, now: nat, grant: TokenGrant, receivedAt: nat,
                            later: nat, grant2: TokenGrant, receivedAt2: nat)
    requires Acquire(c, now, grant, receivedAt).fetched
    requires Truthy(grant.accessToken) && grant.expiresIn.Some?
    requires later < receivedAt + grant.expiresIn.value * 1000
    ensures var first := Acquire(c, now, grant, receivedAt);
            var second := Acquire(first.cache, later, grant2, receivedAt2);
            !second.fetched && second.token == first.token && second.cache == first.cache
  {
  }

  /** The expiry is exclusive: at or after `receivedAt + e * 1000` the
      next call requests a new token. */
  lemma RefetchFromExpiry(c: TokenCache, now: nat, grant: TokenGrant, receivedAt: nat,
                          later: nat, grant2: TokenGrant, receivedAt2: nat)
    requires Acquire(c, now, grant, receivedAt).fetched && grant.expiresIn.Some?
    requires later >= receivedAt + grant.expiresIn.value * 1000
    ensures Acquire(Acquire(c, now, grant, receivedAt).cache, later, grant2, receivedAt2).fetched
  {
  }

  /** At the expiry instant itself the token is no longer reused. */
  lemma ExpiryBoundary(c: TokenCache, now: nat, grant: TokenGrant, receivedAt: nat)
    requires c.tokenExpiry == Some(now as int)
    ensures Acquire(c, now, grant, receivedAt).fetched
    ensures Acquire(c, now, grant, receivedAt).cache == Refreshed(grant, receivedAt)
  {
  }

  /** A grant without a usable token, or without `expires_in`, is never
      reused. */
  lemma UnusableGrantRefetches(c: TokenCache, now: nat, grant: TokenGrant, receivedAt: nat,
                               later: nat, grant2: TokenGrant, receivedAt2: nat)
    requires Acquire(c, now, grant, receivedAt).fetched
    requires !Truthy(grant.accessToken) || grant.expiresIn.None?
    ensures Acquire(Acquire(c, now, grant, receivedAt).cache, later, grant2, receivedAt2).fetched
  {
  }

  /** A token valid at some time is valid at every earlier time. */
  lemma ReusableEarlier(c: TokenCache, now: nat, earlier: nat)
    requires Reusable(c, now) && earlier <= now
    ensures Reusable(c, earlier)
  {
  }

  /** Two calls made one after the other, with the clock unchanged, make at
      most one request when the grant is usable for at least a second. */
  lemma AtMostOneFetch(c: TokenCache, now: nat, grant: TokenGrant, grant2: TokenGrant, receivedAt2: nat)
    requires Truthy(grant.accessToken) && grant.expiresIn.Some? && grant.expiresIn.value > 0
    ensures var first := Acquire(c, now, grant, now);
            !Acquire(first.cache, now, grant2, receivedAt2).fetched
  {
  }

  // ---------------------------------------------------------------------
  // Properties of the request and the error

  /** The header carries the token after the "Bearer " prefix. */
  lemma BearerCarriesToken(token: string)
    ensures BearerHeader(Some(token))[7..] == token
  {
  }

  /** The error message determines the status and the status text. */
  lemma ApiErrorInjective(s1: nat, t1: string, s2: nat, t2: string)
    requires ApiError(s1, t1) == ApiError(s2, t2)
    ensures s1 == s2 && t1 == t2
  {
    var prefix := "API Error: ";
    var m1, m2 := ApiError(s1, t1), ApiError(s2, t2);
    assert m1 == prefix + (Show(s1) + (" " + t1));
    assert m2 == prefix + (Show(s2) + (" " + t2));
    assert m1[|prefix|..] == Show(s1) + (" " + t1);
    assert m2[|prefix|..] == Show(s2) + (" " + t2);
    DigitPrefixUnique(Show(s1), " " + t1, Show(s2), " " + t2);
    ShowInjective(s1, s2);
    assert t1 == (" " + t1)[1..];
    assert t2 == (" " + t2)[1..];
  }
}
