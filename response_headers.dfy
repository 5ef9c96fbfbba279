/**
 * The headers `handleStream` answers with: the fixed content type, plus every
 * allow-listed ICY header that the upstream metadata carries with a truthy
 * value, copied unchanged.
 */
module ResponseHeaders {
  import opened Wrappers
  import opened Metadata

  const ContentType := "Content-Type"
  const OpusMediaType := "audio/opus"

  /** The allow-list as the source spells it, `icy-name` included twice. */
  const TransferableHeaders: seq<string> :=
    ["icy-description", "icy-name", "icy-genre", "icy-name", "icy-pub", "icy-url"]

  /** The names the allow-list admits. */
  const AllowList: set<string> := set name | name in TransferableHeaders

  /** The header `name` is copied: metadata exists and has a truthy value for it. */
  predicate Transfers(metadata: Option<Headers>, name: string) {
    metadata.Some? && HasHeader(metadata.value, name)
  }

  /** The metadata headers among `names` that are copied, with their upstream values. */
  function Copied(metadata: Option<Headers>, names: set<string>): Headers
  {
    map name | name in names && Transfers(metadata, name) :: metadata.value[name]
  }

  /** The response headers for the given metadata (`None` for `null`). */
  function ResponseHeadersFor(metadata: Option<Headers>): (r: Headers)
    ensures ContentType in r && r[ContentType] == OpusMediaType
    ensures forall k :: k in r ==> k == ContentType || k in AllowList
    ensures forall k :: k in AllowList ==> (k in r <==> Transfers(metadata, k))
    ensures forall k :: k in AllowList && Transfers(metadata, k) ==> r[k] == metadata.value[k]
    ensures metadata.None? ==> r == map[ContentType := OpusMediaType]
  {
    map[ContentType := OpusMediaType] + Copied(metadata, AllowList)
  }

  /**
   * The source's loop: start from the content type and, for each entry of the
   * list in order, insert the metadata value when it is truthy. The repeated
   * `icy-name` writes the same value a second time, so the result is exactly
   * the set-based definition above.
   */
  method DeriveResponseHeaders(metadata: Option<Headers>) returns (responseHeaders: Headers)
    ensures responseHeaders == ResponseHeadersFor(metadata)
  {
    AllowListHasFiveNames();
    responseHeaders := map[ContentType := OpusMediaType];
    for i := 0 to |TransferableHeaders|
      invariant responseHeaders == WithCopied(metadata, NamesBefore(i))
    {
      var header := TransferableHeaders[i];
      CopyOneMore(metadata, NamesBefore(i), header);
      NamesBeforeNext(i);
      if metadata.Some? && header in metadata.value && metadata.value[header] != "" {
        responseHeaders := responseHeaders[header := metadata.value[header]];
      }
    }
    assert TransferableHeaders[..|TransferableHeaders|] == TransferableHeaders;
  }

  /** The content type plus the copied headers among `names`. */
  function WithCopied(metadata: Option<Headers>, names: set<string>): Headers {
    map[ContentType := OpusMediaType] + Copied(metadata, names)
  }

  /** The names the loop has visited before index `i`. */
  function NamesBefore(i: nat): set<string>
    requires i <= |TransferableHeaders|
  {
    set name | name in TransferableHeaders[..i]
  }

  lemma NamesBeforeNext(i: nat)
    requires i < |TransferableHeaders|
    ensures NamesBefore(i + 1) == NamesBefore(i) + {TransferableHeaders[i]}
  {
    assert TransferableHeaders[..i + 1] == TransferableHeaders[..i] + [TransferableHeaders[i]];
  }

  /** One iteration: visiting `name` inserts its value exactly when it transfers. */
  lemma CopyOneMore(metadata: Option<Headers>, names: set<string>, name: string)
    requires name != ContentType
    ensures WithCopied(metadata, names + {name})
      == if Transfers(metadata, name) then WithCopied(metadata, names)[name := metadata.value[name]]
         else WithCopied(metadata, names)
  {
  }

  /** The list has six entries but admits five names: the duplicate adds nothing. */
  lemma AllowListHasFiveNames()
    ensures |TransferableHeaders| == 6
    ensures AllowList == {"icy-description", "icy-name", "icy-genre", "icy-pub", "icy-url"}
    ensures ContentType !in AllowList
  {
  }

  /** Metadata that names the station and nothing else gives exactly two response headers. */
  lemma NameOnlyMetadata(name: string)
    requires name != ""
    ensures ResponseHeadersFor(Some(map["icy-name" := name])) == map[ContentType := OpusMediaType, "icy-name" := name]
  {
    AllowListHasFiveNames();
  }
}
