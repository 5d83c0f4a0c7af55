/** The exporter's run settings (scripts/fetch-square.mjs, lines 51-66 and the
    check at the start of `main`, lines 183-188). */
module ExportConfig {
  import opened Wrappers
  import opened JsStrings
  import OutputPaths

  datatype Config = Config(
    outputPaths: seq<string>,
    environment: string,
    accessToken: string,
    locationId: string,
    strict: bool,
    includeOutOfStock: bool)

  /** Each way the exporter stops before reading the catalog. */
  datatype ConfigError =
    | MissingOutValue(flag: string)
    | InvalidEnvironment
    | MissingCredentials
    | MissingEnv(names: seq<string>)

  /** `!!process.env[key]`: set to a non-empty value. */
  predicate IsSet(env: map<string, string>, key: string) {
    key in env && env[key] != ""
  }

  /** `process.env[key] || fallback`. */
  function SettingOr(env: map<string, string>, key: string, fallback: string): string {
    if IsSet(env, key) then env[key] else fallback
  }

  /** `ENV`: the environment name lowered, `production` when unset. */
  function EnvironmentName(env: map<string, string>): string {
    Lower(SettingOr(env, "SQUARE_ENVIRONMENT", "production"))
  }

  predicate IsKnownEnvironment(name: string) {
    name == "production" || name == "sandbox"
  }

  /** `STRICT`: `/^true$/i` on the setting, which defaults to "true". */
  function StrictFlag(env: map<string, string>): bool {
    EqualsIgnoringCase(SettingOr(env, "STRICT", "true"), "true")
  }

  /** `INCLUDE_OOS`: `/^true$/i` on the setting, which defaults to "false". */
  function IncludeOutOfStockFlag(env: map<string, string>): bool {
    EqualsIgnoringCase(SettingOr(env, "INCLUDE_OUT_OF_STOCK", "false"), "true")
  }

  const RequiredNames: seq<string> := ["SQUARE_ENVIRONMENT", "SQUARE_ACCESS_TOKEN", "SQUARE_LOCATION_ID"]

  /** `names.filter(k => !process.env[k])`. */
  function MissingNames(env: map<string, string>, names: seq<string>): (r: seq<string>)
    ensures forall n :: n in r <==> n in names && !IsSet(env, n)
  {
    if names == [] then []
    else (if IsSet(env, names[0]) then [] else [names[0]]) + MissingNames(env, names[1..])
  }

  /** The settings the exporter runs with, or the first check that stops it:
      a flag without a value, an unknown environment, a missing token or
      location, and then `main`'s list of unset variables. */
  method ResolveConfig(env: map<string, string>, argv: seq<string>) returns (r: Result<Config, ConfigError>)
    ensures (r.Err? && r.error.MissingOutValue?) <==> OutputPaths.OutputPathsOf(env, argv).Err?
    ensures r.Err? && r.error.MissingOutValue? ==> r.error.flag == OutputPaths.OutputPathsOf(env, argv).error
    ensures OutputPaths.OutputPathsOf(env, argv).Ok? ==>
      (r == Err(InvalidEnvironment) <==> !IsKnownEnvironment(EnvironmentName(env)))
    ensures r.Ok? <==>
      && OutputPaths.OutputPathsOf(env, argv).Ok?
      && IsKnownEnvironment(EnvironmentName(env))
      && IsSet(env, "SQUARE_ACCESS_TOKEN") && IsSet(env, "SQUARE_LOCATION_ID")
      && IsSet(env, "SQUARE_ENVIRONMENT")
    ensures r.Ok? ==> r.value == Config(
      OutputPaths.OutputPathsOf(env, argv).value, EnvironmentName(env),
      env["SQUARE_ACCESS_TOKEN"], env["SQUARE_LOCATION_ID"],
      StrictFlag(env), IncludeOutOfStockFlag(env))
    ensures r == Err(MissingCredentials) <==>
      && OutputPaths.OutputPathsOf(env, argv).Ok?
      && IsKnownEnvironment(EnvironmentName(env))
      && !(IsSet(env, "SQUARE_ACCESS_TOKEN") && IsSet(env, "SQUARE_LOCATION_ID"))
    ensures (r.Err? && r.error.MissingEnv?) <==>
      && OutputPaths.OutputPathsOf(env, argv).Ok?
      && IsKnownEnvironment(EnvironmentName(env))
      && IsSet(env, "SQUARE_ACCESS_TOKEN") && IsSet(env, "SQUARE_LOCATION_ID")
      && !IsSet(env, "SQUARE_ENVIRONMENT")
    ensures r.Err? && r.error.MissingEnv? ==> r.error.names == ["SQUARE_ENVIRONMENT"]
  {
    var paths := OutputPaths.CollectOutputPaths(env, argv);
    if paths.Err? {
      return Err(MissingOutValue(paths.error));
    }
    var environment := EnvironmentName(env);
    var strict := StrictFlag(env);
    var includeOos := IncludeOutOfStockFlag(env);
    if !IsKnownEnvironment(environment) {
      return Err(InvalidEnvironment);
    }
    if !IsSet(env, "SQUARE_ACCESS_TOKEN") || !IsSet(env, "SQUARE_LOCATION_ID") {
      return Err(MissingCredentials);
    }
    var missing := MissingNames(env, RequiredNames);
    OnlyEnvironmentCanBeMissing(env);
    if missing != [] {
      return Err(MissingEnv(missing));
    }
    r := Ok(Config(paths.value, environment, env["SQUARE_ACCESS_TOKEN"], env["SQUARE_LOCATION_ID"], strict, includeOos));
  }

  /** Once the token and location are known to be set, `main`'s check can only
      find the environment name missing. */
  lemma OnlyEnvironmentCanBeMissing(env: map<string, string>)
    requires IsSet(env, "SQUARE_ACCESS_TOKEN") && IsSet(env, "SQUARE_LOCATION_ID")
    ensures MissingNames(env, RequiredNames)
         == (if IsSet(env, "SQUARE_ENVIRONMENT") then [] else ["SQUARE_ENVIRONMENT"])
  {
    var tail := RequiredNames[1..];
    assert tail == ["SQUARE_ACCESS_TOKEN", "SQUARE_LOCATION_ID"];
    assert MissingNames(env, tail[1..]) == [];
    assert MissingNames(env, tail) == [];
  }

  /** Strict mode is on unless STRICT is set to something other than "true" in any case. */
  lemma StrictDefaultsOn(env: map<string, string>)
    ensures !IsSet(env, "STRICT") ==> StrictFlag(env)
    ensures IsSet(env, "STRICT") && env["STRICT"] == "TRUE" ==> StrictFlag(env)
    ensures IsSet(env, "STRICT") && env["STRICT"] == "false" ==> !StrictFlag(env)
  {
    if IsSet(env, "STRICT") && env["STRICT"] == "false" {
      assert Lower("false")[0] != Lower("true")[0];
    }
  }

  /** Out-of-stock variations are dropped unless INCLUDE_OUT_OF_STOCK says "true". */
  lemma IncludeOutOfStockDefaultsOff(env: map<string, string>)
    ensures !IsSet(env, "INCLUDE_OUT_OF_STOCK") ==> !IncludeOutOfStockFlag(env)
  {
    if !IsSet(env, "INCLUDE_OUT_OF_STOCK") {
      assert Lower("false")[0] != Lower("true")[0];
    }
  }

  /** The environment name is compared after lowering: "Sandbox" is accepted as "sandbox". */
  lemma EnvironmentIgnoresCase()
    ensures EnvironmentName(map["SQUARE_ENVIRONMENT" := "Sandbox"]) == "sandbox"
  {
    var env := map["SQUARE_ENVIRONMENT" := "Sandbox"];
    assert IsSet(env, "SQUARE_ENVIRONMENT");
    assert Lower("Sandbox") == "sandbox";
  }
}
