/**
 * `handleStream` up to the point where the encoder is spawned: read the two
 * query parameters, resolve the metadata, derive the response headers, write
 * status 200 and build the encoder's command line.
 */
module Stream {
  import opened Wrappers
  import opened Metadata
  import opened ResponseHeaders
  import opened Encoder

  /**
   * `Thrown` when the handler throws before answering; otherwise the status
   * and headers written, the encoder's arguments, and the metadata requests.
   */
  datatype StreamStart =
    | Thrown
    | Started(status: int, headers: Headers, encoderArgs: seq<string>, requests: seq<Request>)

  /**
   * A missing `_radio` reaches `fetchIcyMetadata` as `null`, whose
   * `startsWith` throws; with a radio URL the response always starts with
   * status 200, whatever the metadata chain gives.
   */
  function HandleStream(radio: Option<Url>, bitrateParam: Option<string>, defaultBitrate: string,
                        inbound: Headers, upstream: nat -> Outcome, resolve: (Url, Url) -> Url,
                        jsNumberText: string -> string): (r: StreamStart)
    ensures r.Thrown? <==> radio.None?
    ensures r.Started? ==>
      && r.status == 200
      && ContentType in r.headers && r.headers[ContentType] == OpusMediaType
      && (forall k :: k in r.headers ==> k == ContentType || k in AllowList)
      && ParseEncoderArgs(r.encoderArgs) == Some((radio.value, BitrateText(bitrateParam, defaultBitrate, jsNumberText)))
      && 1 <= |r.requests| <= MaxRedirects + 1
  {
    match radio
    case None => Thrown
    case Some(url) =>
      var bitrate := BitrateText(bitrateParam, defaultBitrate, jsNumberText);
      var resolution := FetchIcyMetadata(url, inbound, upstream, resolve, 0);
      ParseEncoderArgsRoundTrip(url, bitrate);
      Started(200, ResponseHeadersFor(resolution.metadata), EncoderArgs(url, bitrate), resolution.requests)
  }

  /**
   * The headers a client receives are those of the first upstream response
   * that is not a followed redirect, filtered by the allow-list; after a
   * transport error they are the content type alone.
   */
  lemma ClientHeadersFollowChain(radio: Url, bitrateParam: Option<string>, defaultBitrate: string,
                                 inbound: Headers, upstream: nat -> Outcome, resolve: (Url, Url) -> Url,
                                 jsNumberText: string -> string, k: nat)
    requires k <= MaxRedirects
    requires forall j :: 0 <= j < k ==> IsFollowed(upstream(j))
    requires !IsFollowed(upstream(k))
    ensures var r := HandleStream(Some(radio), bitrateParam, defaultBitrate, inbound, upstream, resolve, jsNumberText);
      r.headers == ResponseHeadersFor(if upstream(k).Response? then Some(upstream(k).headers) else None)
      && |r.requests| == k + 1
  {
    FirstUnfollowedOutcomeDecides(radio, inbound, upstream, resolve, 0, k);
  }

  /**
   * When all six hops answer with a followed redirect, the client gets the
   * content type alone, after six metadata requests.
   */
  lemma RedirectLoopScenario(radio: Url, bitrateParam: Option<string>, defaultBitrate: string,
                             inbound: Headers, upstream: nat -> Outcome, resolve: (Url, Url) -> Url,
                             jsNumberText: string -> string)
    requires forall k :: 0 <= k <= MaxRedirects ==> IsFollowed(upstream(k))
    ensures var r := HandleStream(Some(radio), bitrateParam, defaultBitrate, inbound, upstream, resolve, jsNumberText);
      r.Started? && r.status == 200 && r.headers == map[ContentType := OpusMediaType] && |r.requests| == MaxRedirects + 1
  {
    RedirectLoopGivesNoMetadata(radio, inbound, upstream, resolve, 0);
  }

  /**
   * An unreachable radio host: the stream still starts with status 200 and
   * the content type alone, after a single metadata request.
   */
  lemma UnreachableRadioScenario(radio: Url, bitrateParam: Option<string>, defaultBitrate: string,
                                 inbound: Headers, upstream: nat -> Outcome, resolve: (Url, Url) -> Url,
                                 jsNumberText: string -> string)
    requires upstream(0) == TransportError
    ensures var r := HandleStream(Some(radio), bitrateParam, defaultBitrate, inbound, upstream, resolve, jsNumberText);
      r.Started? && r.status == 200 && r.headers == map[ContentType := OpusMediaType] && |r.requests| == 1
  {
    ClientHeadersFollowChain(radio, bitrateParam, defaultBitrate, inbound, upstream, resolve, jsNumberText, 0);
  }

  /** The upstream of the scenario below: a 301 to a second server that names the station. */
  function ExampleUpstream(n: nat): Outcome {
    if n == 0 then Response(301, map["location" := "http://example2.test/live"])
    else Response(200, map["icy-name" := "TestRadio"])
  }

  /**
   * The 301 scenario, asked for `_bitrate=96`: the client gets the content
   * type and the station name, and the encoder reads the original URL at
   * `96k`, after two metadata requests.
   */
  lemma RedirectScenario(jsNumberText: string -> string, resolve: (Url, Url) -> Url, inbound: Headers)
    ensures var r := HandleStream(Some("http://example.test/live"), Some("96"), "128", inbound, ExampleUpstream, resolve, jsNumberText);
      && r.Started? && r.status == 200
      && r.headers == map[ContentType := OpusMediaType, "icy-name" := "TestRadio"]
      && r.encoderArgs == EncoderArgs("http://example.test/live", "96")
      && |r.requests| == 2
      && r.requests[1].url == resolve("http://example2.test/live", "http://example.test/live")
  {
    var r := HandleStream(Some("http://example.test/live"), Some("96"), "128", inbound, ExampleUpstream, resolve, jsNumberText);
    assert IsFollowed(ExampleUpstream(0)) && !IsFollowed(ExampleUpstream(1));
    ClientHeadersFollowChain("http://example.test/live", Some("96"), "128", inbound, ExampleUpstream, resolve, jsNumberText, 1);
    assert r.requests[1].url == resolve("http://example2.test/live", "http://example.test/live") by {
      ChainFollowsRedirects("http://example.test/live", inbound, ExampleUpstream, resolve, 0);
      assert HopFollows(r.requests, ExampleUpstream, resolve, 0, 1);
    }
    assert r.headers == map[ContentType := OpusMediaType, "icy-name" := "TestRadio"] by {
      NameOnlyMetadata("TestRadio");
    }
    assert BitrateText(Some("96"), "128", jsNumberText) == "96" by {
      BitrateTextCases(Some("96"), "128", jsNumberText);
    }
  }
}
