/**
 * The `ffmpeg` command line `handleStream` spawns: a fixed list of 22
 * arguments with two holes, the radio URL after `-i` and the bitrate plus
 * `k` after `-b:a`. The bitrate is `parseInt` of the `_bitrate` query
 * parameter, or of the configured default when the parameter is absent.
 */
module Encoder {
  import opened Wrappers
  import opened JsText

  /**
   * Longest decimal string whose value a double holds exactly and `String`
   * prints back in plain decimal form.
   */
  const ExactDigits := 15

  /** `_bitrate ?? DEFAULT_BITRATE`: the parameter when present (even empty), else the default. */
  function BitrateSource(bitrateParam: Option<string>, defaultBitrate: string): string {
    bitrateParam.GetOr(defaultBitrate)
  }

  /**
   * `String(parseInt(text))`. For a decimal string of at most 15 digits this
   * is the canonical text of its value (leading zeros dropped); for any other
   * text JavaScript's number parsing and printing are not modelled and
   * `jsNumberText` supplies the result (for instance `"NaN"`).
   */
  function NumberText(text: string, jsNumberText: string -> string): (r: string)
    ensures IsDecimal(text) && |text| <= ExactDigits ==> IsCanonicalDecimal(r) && DigitsValue(r) == DigitsValue(text)
  {
    if IsDecimal(text) && |text| <= ExactDigits then
      DecimalTextValue(DigitsValue(text));
      DecimalText(DigitsValue(text))
    else jsNumberText(text)
  }

  /** The argument list, in the source's order. */
  function EncoderArgs(radio: string, bitrateText: string): (args: seq<string>)
    ensures |args| == 22
  {
    [ "-nostdin",
      "-loglevel", "warning",
      "-thread_queue_size", "512",
      "-re",
      "-probesize", "7500000",
      "-i",
      radio,
      "-vn",
      "-c:a", "libopus",
      "-b:a", bitrateText + "k",
      "-vbr", "constrained",
      "-flush_packets", "0",
      "-f", "opus",
      "pipe:1" ]
  }

  /** The fixed arguments before the input URL. */
  const InputOptions: seq<string> :=
    ["-nostdin", "-loglevel", "warning", "-thread_queue_size", "512", "-re", "-probesize", "7500000", "-i"]

  /** The fixed arguments between the input URL and the bitrate. */
  const CodecOptions: seq<string> := ["-vn", "-c:a", "libopus", "-b:a"]

  /** The fixed arguments after the bitrate. */
  const OutputOptions: seq<string> := ["-vbr", "constrained", "-flush_packets", "0", "-f", "opus", "pipe:1"]

  /**
   * Reads a command line back into the radio URL and the bitrate text, when
   * it has the shape `EncoderArgs` builds.
   */
  function ParseEncoderArgs(args: seq<string>): (r: Option<(string, string)>)
  {
    if |args| == 22 && args[..9] == InputOptions && args[10..14] == CodecOptions && args[15..] == OutputOptions
       && |args[14]| >= 1 && args[14][|args[14]| - 1] == 'k'
    then Some((args[9], args[14][..|args[14]| - 1]))
    else None
  }

  /**
   * The list is the three fixed groups around the two holes; it ends with
   * `pipe:1`, the URL follows `-i` and the bitrate with `k` follows `-b:a`.
   */
  lemma EncoderArgsLayout(radio: string, bitrateText: string)
    ensures EncoderArgs(radio, bitrateText)
      == InputOptions + [radio] + CodecOptions + [bitrateText + "k"] + OutputOptions
    ensures var args := EncoderArgs(radio, bitrateText);
      args[21] == "pipe:1" && args[8] == "-i" && args[9] == radio && args[13] == "-b:a" && args[14] == bitrateText + "k"
  {
  }

  /** Reading back a built command line gives the two values it was built from. */
  lemma ParseEncoderArgsRoundTrip(radio: string, bitrateText: string)
    ensures ParseEncoderArgs(EncoderArgs(radio, bitrateText)) == Some((radio, bitrateText))
  {
    var args := EncoderArgs(radio, bitrateText);
    EncoderArgsLayout(radio, bitrateText);
    assert args[..9] == InputOptions;
    assert args[10..14] == CodecOptions;
    assert args[15..] == OutputOptions;
    assert (bitrateText + "k")[..|bitrateText|] == bitrateText;
  }

  /** Any command line that reads back was built by `EncoderArgs` from what it reads back to. */
  lemma ParseEncoderArgsOnlyBuilt(args: seq<string>)
    requires ParseEncoderArgs(args).Some?
    ensures var (radio, bitrateText) := ParseEncoderArgs(args).value;
      args == EncoderArgs(radio, bitrateText)
  {
    var (radio, bitrateText) := ParseEncoderArgs(args).value;
    EncoderArgsLayout(radio, bitrateText);
    assert args[14] == bitrateText + "k";
    assert args == args[..9] + [args[9]] + args[10..14] + [args[14]] + args[15..];
  }

  /** The bitrate given to the encoder for the request's `_bitrate` parameter. */
  function BitrateText(bitrateParam: Option<string>, defaultBitrate: string, jsNumberText: string -> string): string {
    NumberText(BitrateSource(bitrateParam, defaultBitrate), jsNumberText)
  }

  /**
   * Without `_bitrate` the configured default is used; with a decimal one of
   * at most 15 digits the encoder gets its value (and a canonical one as is).
   */
  lemma BitrateTextCases(bitrateParam: Option<string>, defaultBitrate: string, jsNumberText: string -> string)
    ensures bitrateParam.None? ==> BitrateText(bitrateParam, defaultBitrate, jsNumberText) == NumberText(defaultBitrate, jsNumberText)
    ensures bitrateParam.Some? && IsCanonicalDecimal(bitrateParam.value) && |bitrateParam.value| <= ExactDigits ==>
      BitrateText(bitrateParam, defaultBitrate, jsNumberText) == bitrateParam.value
  {
    if bitrateParam.Some? && IsCanonicalDecimal(bitrateParam.value) && |bitrateParam.value| <= ExactDigits {
      CanonicalDecimalText(bitrateParam.value);
    }
  }
}
