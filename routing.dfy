/**
 * The request callback of the HTTP server: a URL starting with the configured
 * output path goes to the stream handler, checked first; otherwise exactly
 * `/healthcheck` or `/healthcheck/` gets an empty 200 and anything else an
 * empty 404.
 */
module Routing {
  import opened Env

  datatype Handler = StreamHandler | HealthcheckHandler | NotFoundHandler

  /** The paths the healthcheck answers on. */
  predicate IsHealthcheckPath(url: string) {
    url == "/healthcheck" || url == "/healthcheck/"
  }

  function Route(url: string, outputPath: string): (h: Handler)
    ensures h == StreamHandler <==> outputPath <= url
    ensures h == HealthcheckHandler ==> IsHealthcheckPath(url)
  {
    if outputPath <= url then StreamHandler
    else if IsHealthcheckPath(url) then HealthcheckHandler
    else NotFoundHandler
  }

  /** A response written and ended at once: its status; the body is always empty. */
  datatype PlainReply = PlainReply(status: int)

  /** What the two non-streaming handlers answer. */
  function ReplyOf(h: Handler): (r: PlainReply)
    requires h != StreamHandler
    ensures r.status == if h == HealthcheckHandler then 200 else 404
  {
    match h
    case HealthcheckHandler => PlainReply(200)
    case NotFoundHandler => PlainReply(404)
  }

  /** A URL outside the output path is answered 200 exactly on the two healthcheck paths, 404 otherwise. */
  lemma PlainReplyStatus(url: string, outputPath: string)
    requires !(outputPath <= url)
    ensures ReplyOf(Route(url, outputPath)).status == (if IsHealthcheckPath(url) then 200 else 404)
  {
  }

  /** The healthcheck is reachable on a path exactly when the output path is not a prefix of it. */
  lemma HealthcheckReachable(url: string, outputPath: string)
    requires IsHealthcheckPath(url)
    ensures Route(url, outputPath) == HealthcheckHandler <==> !(outputPath <= url)
  {
  }

  /**
   * With the default output path `/` every URL that starts with `/` is
   * streamed, so the healthcheck route can never be taken.
   */
  lemma DefaultOutputPathHidesHealthcheck(url: string)
    ensures |url| > 0 && url[0] == '/' ==> Route(url, "/") == StreamHandler
    ensures Route(url, "/") != HealthcheckHandler
  {
    if IsHealthcheckPath(url) {
      assert url[..1] == "/";
    }
  }

  /**
   * An environment that leaves `OUTPUT_PATH` unset, or sets it to the empty
   * string (kept as is by defaulting), never reaches the healthcheck.
   */
  lemma UnsetOrEmptyOutputPathHidesHealthcheck(env: EnvMap, url: string)
    requires OutputPathKey !in env || env[OutputPathKey] == ""
    ensures Route(url, ConfigOf(env).outputPath) != HealthcheckHandler
  {
    DefaultOutputPathHidesHealthcheck(url);
  }
}
