/**
 * `validateEnv`: the process environment is one shared string map that the
 * function completes in place with a default for each of five settings that
 * is unset, and then hands back.
 */
module Env {

  type EnvMap = map<string, string>

  const LogLevelKey := "LOG_LEVEL"
  const OutputPathKey := "OUTPUT_PATH"
  const DefaultBitrateKey := "DEFAULT_BITRATE"
  const TimeZoneKey := "TZ"
  const HttpPortKey := "HTTP_PORT"

  /** The five settings and the value each one receives when it is unset. */
  const Defaults: map<string, string> := map[
    LogLevelKey := "INFO",
    OutputPathKey := "/",
    DefaultBitrateKey := "128",
    TimeZoneKey := "UTC",
    HttpPortKey := "3000"
  ]

  /**
   * The environment after defaulting. A setting counts as unset only when the
   * key is missing (`== null`); a key set to the empty string keeps it.
   */
  function WithDefaults(env: EnvMap): (r: EnvMap)
    ensures r.Keys == env.Keys + Defaults.Keys
    ensures forall k :: k in env ==> r[k] == env[k]
    ensures forall k :: k in Defaults && k !in env ==> r[k] == Defaults[k]
  {
    env + map k | k in Defaults && k !in env :: Defaults[k]
  }

  /** Defaulting a second time changes nothing. */
  lemma WithDefaultsIdempotent(env: EnvMap)
    ensures WithDefaults(WithDefaults(env)) == WithDefaults(env)
  {
  }

  /** The table's entries, one by one. */
  lemma DefaultsTable()
    ensures Defaults.Keys == {LogLevelKey, OutputPathKey, DefaultBitrateKey, TimeZoneKey, HttpPortKey}
    ensures Defaults[LogLevelKey] == "INFO" && Defaults[OutputPathKey] == "/"
    ensures Defaults[DefaultBitrateKey] == "128" && Defaults[TimeZoneKey] == "UTC"
    ensures Defaults[HttpPortKey] == "3000"
  {
  }

  /** `env` with the settings in `done` defaulted, the others not yet. */
  function PartlyDefaulted(env: EnvMap, done: set<string>): EnvMap {
    env + map k | k in done && k in Defaults && k !in env :: Defaults[k]
  }

  /** One conditional assignment of `validateEnv` extends the defaulted part by one key. */
  lemma FillStep(env: EnvMap, done: set<string>, k: string)
    requires k in Defaults
    ensures Fill(PartlyDefaulted(env, done), k) == PartlyDefaulted(env, done + {k})
  {
  }

  lemma AllDefaulted(env: EnvMap)
    ensures PartlyDefaulted(env, Defaults.Keys) == WithDefaults(env)
  {
  }

  /** One defaulting step on its own. */
  function Fill(env: EnvMap, k: string): EnvMap
    requires k in Defaults
  {
    if k in env then env else env[k := Defaults[k]]
  }

  /** The settings in the order `validateEnv` tests them. */
  const SettingOrder: seq<string> := [LogLevelKey, OutputPathKey, DefaultBitrateKey, TimeZoneKey, HttpPortKey]

  /** The defaulting steps for `keys`, applied left to right. */
  function FillAll(env: EnvMap, keys: seq<string>): EnvMap
    requires forall i :: 0 <= i < |keys| ==> keys[i] in Defaults
  {
    if keys == [] then env else Fill(FillAll(env, keys[..|keys| - 1]), keys[|keys| - 1])
  }

  lemma {:induction false} FillAllDefaulted(env: EnvMap, keys: seq<string>)
    requires forall i :: 0 <= i < |keys| ==> keys[i] in Defaults
    ensures FillAll(env, keys) == PartlyDefaulted(env, set k | k in keys)
  {
    if keys == [] {
      assert env == PartlyDefaulted(env, {});
    } else {
      var init := keys[..|keys| - 1];
      var last := keys[|keys| - 1];
      FillAllDefaulted(env, init);
      FillStep(env, (set k | k in init), last);
      assert (set k | k in keys) == (set k | k in init) + {last};
    }
  }

  /** The five steps, in the source's order, together default every setting. */
  lemma FiveSteps(env: EnvMap)
    ensures Fill(Fill(Fill(Fill(Fill(env, LogLevelKey), OutputPathKey), DefaultBitrateKey), TimeZoneKey), HttpPortKey)
            == WithDefaults(env)
  {
    DefaultsTable();
    var ks := SettingOrder;
    var e1 := Fill(env, LogLevelKey);
    var e2 := Fill(e1, OutputPathKey);
    var e3 := Fill(e2, DefaultBitrateKey);
    var e4 := Fill(e3, TimeZoneKey);
    assert ks[..1][..0] == [] && ks[..1][0] == LogLevelKey;
    assert FillAll(env, ks[..1]) == e1;
    assert ks[..2][..1] == ks[..1] && ks[..2][1] == OutputPathKey;
    assert FillAll(env, ks[..2]) == e2;
    assert ks[..3][..2] == ks[..2] && ks[..3][2] == DefaultBitrateKey;
    assert FillAll(env, ks[..3]) == e3;
    assert ks[..4][..3] == ks[..3] && ks[..4][3] == TimeZoneKey;
    assert FillAll(env, ks[..4]) == e4;
    assert ks[..5] == ks;
    assert FillAll(env, ks) == Fill(e4, HttpPortKey);
    FillAllDefaulted(env, ks);
    assert (set k | k in ks) == Defaults.Keys;
    AllDefaulted(env);
  }

  /** The process environment, the map `validateEnv` mutates. */
  class ProcessEnv {
    var vars: EnvMap

    constructor (initial: EnvMap)
      ensures vars == initial
    {
      vars := initial;
    }

    /** One `if (process.env.KEY == null) process.env.KEY = value` step. */
    method SetIfUnset(key: string, value: string)
      requires key in Defaults && Defaults[key] == value
      modifies this
      ensures vars == Fill(old(vars), key)
    {
      if key !in vars {
        vars := vars[key := value];
      }
    }

    /**
     * Five conditional assignments, in the source's order, each filling one
     * unset setting; the result is the environment object itself.
     */
    method ValidateEnv() returns (r: ProcessEnv)
      modifies this
      ensures r == this
      ensures vars == WithDefaults(old(vars))
    {
      ghost var before := vars;
      SetIfUnset(LogLevelKey, "INFO");
      SetIfUnset(OutputPathKey, "/");
      SetIfUnset(DefaultBitrateKey, "128");
      SetIfUnset(TimeZoneKey, "UTC");
      SetIfUnset(HttpPortKey, "3000");
      FiveSteps(before);
      r := this;
    }
  }

  /** The three settings the server takes from `validateEnv()` once at start-up. */
  datatype Config = Config(httpPort: string, outputPath: string, defaultBitrate: string)

  /**
   * The start-up configuration for the environment as the process found it:
   * each setting is the environment's own value when the key is set (even to
   * the empty string), and its default otherwise.
   */
  function ConfigOf(env: EnvMap): (c: Config)
    ensures c.httpPort == if HttpPortKey in env then env[HttpPortKey] else "3000"
    ensures c.outputPath == if OutputPathKey in env then env[OutputPathKey] else "/"
    ensures c.defaultBitrate == if DefaultBitrateKey in env then env[DefaultBitrateKey] else "128"
  {
    var validated := WithDefaults(env);
    DefaultsTable();
    Config(validated[HttpPortKey], validated[OutputPathKey], validated[DefaultBitrateKey])
  }

  /** Start-up over an empty environment yields the documented defaults. */
  lemma EmptyEnvConfig()
    ensures ConfigOf(map[]) == Config("3000", "/", "128")
  {
  }
}
