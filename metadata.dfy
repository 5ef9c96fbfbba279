/**
 * `fetchIcyMetadata`: ask the radio URL for its headers, following redirects
 * for at most five hops, and hand back the final response's headers, or
 * nothing on a transport error or when the hop budget runs out.
 *
 * The network is abstracted away: `upstream(n)` is what the n-th request of
 * the chain (counting from 0) gets back, and `resolve(location, base)` stands
 * for `new URL(location, base).href`. The model records every request the
 * chain issues, so what is sent upstream can be stated.
 */
module Metadata {
  import opened Wrappers

  type Url = string

  /** A header map as Node presents it: lower-case names, string values. */
  type Headers = map<string, string>

  /** What one upstream request yields: a transport error or a status line with headers. */
  datatype Outcome = TransportError | Response(status: int, headers: Headers)

  /** One request as issued: over `https` or `http`, to `url`, with `headers`. */
  datatype Request = Request(secure: bool, url: Url, headers: Headers)

  /** The metadata handed to the callback (`None` for `null`) and the requests made. */
  datatype Resolution = Resolution(metadata: Option<Headers>, requests: seq<Request>)

  /** The largest `redirectCount` for which a request is still made. */
  const MaxRedirects := 5

  /** A header is present with a truthy (non-empty) value. */
  predicate HasHeader(h: Headers, name: string) {
    name in h && h[name] != ""
  }

  /** A response the chain follows: status 300-399 and a `location` header. */
  predicate IsFollowed(o: Outcome) {
    o.Response? && 300 <= o.status < 400 && HasHeader(o.headers, "location")
  }

  /** The client module is chosen by the URL's first five characters. */
  predicate UsesHttps(url: Url) {
    |url| >= 5 && url[..5] == "https"
  }

  /**
   * The headers sent upstream: a copy of the inbound headers without `host`.
   * The key is deleted only when its value is truthy, so an empty `host`
   * header is forwarded as it is.
   */
  function ForwardedHeaders(inbound: Headers): (h: Headers)
    ensures "host" in h <==> "host" in inbound && inbound["host"] == ""
    ensures forall k :: k != "host" ==> (k in h <==> k in inbound)
    ensures forall k :: k in h ==> h[k] == inbound[k]
  {
    if HasHeader(inbound, "host") then inbound - {"host"} else inbound
  }

  /**
   * `{ ...rawHeaders }` followed by the conditional `delete`. Maps are values,
   * so the copy is independent of the caller's map, which is left as it was.
   */
  method StripHost(rawHeaders: Headers) returns (headers: Headers)
    ensures headers == ForwardedHeaders(rawHeaders)
  {
    headers := rawHeaders;
    if "host" in headers && headers["host"] != "" {
      headers := headers - {"host"};
    }
  }

  /**
   * The redirect chain from hop `redirectCount` on: at most one request per
   * remaining hop, none once the count is past the limit, and the first one
   * goes to `radioUrl` itself.
   */
  function FetchIcyMetadata(radioUrl: Url, rawHeaders: Headers, upstream: nat -> Outcome,
                            resolve: (Url, Url) -> Url, redirectCount: nat): (r: Resolution)
    ensures redirectCount > MaxRedirects ==> r == Resolution(None, [])
    ensures redirectCount <= MaxRedirects ==>
      1 <= |r.requests| <= MaxRedirects + 1 - redirectCount && r.requests[0].url == radioUrl
    decreases MaxRedirects + 1 - redirectCount
  {
    if redirectCount > MaxRedirects then Resolution(None, [])
    else
      var request := Request(UsesHttps(radioUrl), radioUrl, ForwardedHeaders(rawHeaders));
      var outcome := upstream(redirectCount);
      if IsFollowed(outcome) then
        var nextUrl := resolve(outcome.headers["location"], radioUrl);
        var rest := FetchIcyMetadata(nextUrl, rawHeaders, upstream, resolve, redirectCount + 1);
        Resolution(rest.metadata, [request] + rest.requests)
      else if outcome.Response? then Resolution(Some(outcome.headers), [request])
      else Resolution(None, [request])
  }

  /**
   * Request `i` of a chain that started at hop `first` went to the `location`
   * of the redirect that request `i - 1` received, resolved against that
   * request's URL.
   */
  ghost predicate HopFollows(requests: seq<Request>, upstream: nat -> Outcome, resolve: (Url, Url) -> Url,
                             first: nat, i: nat)
    requires 0 < i < |requests|
  {
    var previous := upstream(first + i - 1);
    IsFollowed(previous) && requests[i].url == resolve(previous.headers["location"], requests[i - 1].url)
  }

  /** Request `i` of the chain sends the inbound headers minus `host`, over the client its URL selects. */
  lemma {:induction false} HopForwardsAt(radioUrl: Url, rawHeaders: Headers, upstream: nat -> Outcome,
                                         resolve: (Url, Url) -> Url, redirectCount: nat, i: nat)
    requires i < |FetchIcyMetadata(radioUrl, rawHeaders, upstream, resolve, redirectCount).requests|
    ensures var request := FetchIcyMetadata(radioUrl, rawHeaders, upstream, resolve, redirectCount).requests[i];
      request.headers == ForwardedHeaders(rawHeaders) && request.secure == UsesHttps(request.url)
    decreases i
  {
    if i > 0 {
      var r := FetchIcyMetadata(radioUrl, rawHeaders, upstream, resolve, redirectCount);
      var outcome := upstream(redirectCount);
      var nextUrl := resolve(outcome.headers["location"], radioUrl);
      var rest := FetchIcyMetadata(nextUrl, rawHeaders, upstream, resolve, redirectCount + 1);
      assert r.requests == [Request(UsesHttps(radioUrl), radioUrl, ForwardedHeaders(rawHeaders))] + rest.requests;
      HopForwardsAt(nextUrl, rawHeaders, upstream, resolve, redirectCount + 1, i - 1);
      assert r.requests[i] == rest.requests[i - 1];
    }
  }

  /** Every hop sends the original inbound headers minus `host`, over the client the URL selects. */
  lemma {:induction false} EveryHopForwardsInboundHeaders(radioUrl: Url, rawHeaders: Headers, upstream: nat -> Outcome,
                                                         resolve: (Url, Url) -> Url, redirectCount: nat)
    ensures var r := FetchIcyMetadata(radioUrl, rawHeaders, upstream, resolve, redirectCount);
      forall i :: 0 <= i < |r.requests| ==>
        r.requests[i].headers == ForwardedHeaders(rawHeaders) && r.requests[i].secure == UsesHttps(r.requests[i].url)
  {
    var r := FetchIcyMetadata(radioUrl, rawHeaders, upstream, resolve, redirectCount);
    forall i | 0 <= i < |r.requests|
      ensures r.requests[i].headers == ForwardedHeaders(rawHeaders) && r.requests[i].secure == UsesHttps(r.requests[i].url)
    {
      HopForwardsAt(radioUrl, rawHeaders, upstream, resolve, redirectCount, i);
    }
  }

  /** Request `i` of the chain, for `i > 0`, is the redirect target of request `i - 1`. */
  lemma {:induction false} HopFollowsAt(radioUrl: Url, rawHeaders: Headers, upstream: nat -> Outcome,
                                        resolve: (Url, Url) -> Url, redirectCount: nat, i: nat)
    requires 0 < i < |FetchIcyMetadata(radioUrl, rawHeaders, upstream, resolve, redirectCount).requests|
    ensures HopFollows(FetchIcyMetadata(radioUrl, rawHeaders, upstream, resolve, redirectCount).requests,
                       upstream, resolve, redirectCount, i)
    decreases i
  {
    var r := FetchIcyMetadata(radioUrl, rawHeaders, upstream, resolve, redirectCount);
    var outcome := upstream(redirectCount);
    var nextUrl := resolve(outcome.headers["location"], radioUrl);
    var next := redirectCount + 1;
    var rest := FetchIcyMetadata(nextUrl, rawHeaders, upstream, resolve, next);
    assert r.requests == [Request(UsesHttps(radioUrl), radioUrl, ForwardedHeaders(rawHeaders))] + rest.requests;
    if i > 1 {
      HopFollowsAt(nextUrl, rawHeaders, upstream, resolve, next, i - 1);
      assert rest.requests[i - 1] == r.requests[i] && rest.requests[i - 2] == r.requests[i - 1];
      assert next + (i - 1) - 1 == redirectCount + i - 1;
    }
  }

  /** Every request after the first is the redirect target of the one before it. */
  lemma {:induction false} ChainFollowsRedirects(radioUrl: Url, rawHeaders: Headers, upstream: nat -> Outcome,
                                                 resolve: (Url, Url) -> Url, redirectCount: nat)
    ensures var r := FetchIcyMetadata(radioUrl, rawHeaders, upstream, resolve, redirectCount);
      forall i :: 0 < i < |r.requests| ==> HopFollows(r.requests, upstream, resolve, redirectCount, i)
  {
    var r := FetchIcyMetadata(radioUrl, rawHeaders, upstream, resolve, redirectCount);
    forall i | 0 < i < |r.requests|
      ensures HopFollows(r.requests, upstream, resolve, redirectCount, i)
    {
      HopFollowsAt(radioUrl, rawHeaders, upstream, resolve, redirectCount, i);
    }
  }

  /**
   * The last request decides the result: if it got a followed redirect, the
   * hop budget is spent and there is no metadata; otherwise a response gives
   * exactly its headers and a transport error gives none.
   */
  lemma {:induction false} LastRequestDecides(radioUrl: Url, rawHeaders: Headers, upstream: nat -> Outcome,
                                              resolve: (Url, Url) -> Url, redirectCount: nat)
    ensures var r := FetchIcyMetadata(radioUrl, rawHeaders, upstream, resolve, redirectCount);
      |r.requests| > 0 ==>
        var last := upstream(redirectCount + |r.requests| - 1);
        && (IsFollowed(last) ==> |r.requests| == MaxRedirects + 1 - redirectCount && r.metadata == None)
        && (!IsFollowed(last) ==> r.metadata == if last.Response? then Some(last.headers) else None)
    decreases MaxRedirects + 1 - redirectCount
  {
    var outcome := upstream(redirectCount);
    if redirectCount <= MaxRedirects && IsFollowed(outcome) {
      var nextUrl := resolve(outcome.headers["location"], radioUrl);
      LastRequestDecides(nextUrl, rawHeaders, upstream, resolve, redirectCount + 1);
    }
  }

  /**
   * When every remaining hop answers with a followed redirect, the chain
   * makes one request per remaining hop (six from the start) and ends with
   * no metadata rather than an error.
   */
  lemma RedirectLoopGivesNoMetadata(radioUrl: Url, rawHeaders: Headers, upstream: nat -> Outcome,
                                    resolve: (Url, Url) -> Url, redirectCount: nat)
    requires redirectCount <= MaxRedirects + 1
    requires forall k :: redirectCount <= k <= MaxRedirects ==> IsFollowed(upstream(k))
    ensures var r := FetchIcyMetadata(radioUrl, rawHeaders, upstream, resolve, redirectCount);
      r.metadata == None && |r.requests| == MaxRedirects + 1 - redirectCount
  {
    LastRequestDecides(radioUrl, rawHeaders, upstream, resolve, redirectCount);
  }

  /**
   * The first hop whose outcome is not a followed redirect decides: the chain
   * stops there after one request per hop, with that response's headers, or
   * with nothing on a transport error. This covers a 3xx without `location`.
   */
  lemma FirstUnfollowedOutcomeDecides(radioUrl: Url, rawHeaders: Headers, upstream: nat -> Outcome,
                                      resolve: (Url, Url) -> Url, redirectCount: nat, k: nat)
    requires redirectCount <= k <= MaxRedirects
    requires forall j :: redirectCount <= j < k ==> IsFollowed(upstream(j))
    requires !IsFollowed(upstream(k))
    ensures var r := FetchIcyMetadata(radioUrl, rawHeaders, upstream, resolve, redirectCount);
      && |r.requests| == k - redirectCount + 1
      && r.metadata == if upstream(k).Response? then Some(upstream(k).headers) else None
  {
    var r := FetchIcyMetadata(radioUrl, rawHeaders, upstream, resolve, redirectCount);
    ChainFollowsRedirects(radioUrl, rawHeaders, upstream, resolve, redirectCount);
    LastRequestDecides(radioUrl, rawHeaders, upstream, resolve, redirectCount);
    var next := k - redirectCount + 1;
    assert next < |r.requests| ==> HopFollows(r.requests, upstream, resolve, redirectCount, next);
  }
}
