/** The preflight check of scripts/preflight.mjs (lines 32-81): load `.env`,
    validate the Square settings, normalise SQUARE_ENVIRONMENT in the process
    environment, and summarise the run settings when everything is in order. */
module Preflight {
  import opened Wrappers
  import opened JsStrings
  import opened EnvFile
  import ExportConfig

  /** A reason the preflight fails. */
  datatype Problem = MissingAccessToken | MissingLocationId | UnknownEnvironment(got: string)

  /** A warning that never fails the preflight. */
  datatype Notice = EnvironmentDefaulted | UnexpectedTokenFormat

  /** What the script prints once the checks pass; the token shows only its
      first six characters and its length. */
  datatype Summary = Summary(
    environment: string,
    tokenPrefix: string,
    tokenLength: nat,
    locationId: string,
    apiVersion: string,
    strict: string,
    includeOutOfStock: string,
    outputPaths: string)

  datatype Report = Report(problems: seq<Problem>, notices: seq<Notice>, summary: Option<Summary>)

  /** A setting the script treats as missing: unset, or nothing but
      whitespace (see BlankMeansTrimsToEmpty). */
  predicate Blank(vars: map<string, string>, key: string) {
    key !in vars || AllWhitespace(vars[key])
  }

  /** Blank is the script's test: the value is unset or trims to "". */
  lemma BlankMeansTrimsToEmpty(vars: map<string, string>, key: string)
    ensures Blank(vars, key) <==> key !in vars || Trim(vars[key]) == ""
  {
  }

  /** `process.env[key] ?? fallback`: an empty value is kept. */
  function IfAbsent(vars: map<string, string>, key: string, fallback: string): string {
    if key in vars then vars[key] else fallback
  }

  /** The environment name the preflight settles on: trimmed, `production`
      when blank. */
  function ResolvedEnvironment(vars: map<string, string>): string {
    if Blank(vars, "SQUARE_ENVIRONMENT") then "production" else Trim(vars["SQUARE_ENVIRONMENT"])
  }

  /** `/^EAAA/i`. */
  predicate LooksLikeSquareToken(token: string) {
    StartsWithIgnoringCase(token, "EAAA")
  }

  /** `token.slice(0, 6)`. */
  function TokenPrefix(token: string): (r: string)
    ensures |r| <= 6 && |r| <= |token| && r == token[..|r|]
    ensures |token| >= 6 ==> |r| == 6
    ensures |token| < 6 ==> r == token
  {
    if |token| <= 6 then token else token[..6]
  }

  function SummaryOf(vars: map<string, string>): Summary {
    var token := ExportConfig.SettingOr(vars, "SQUARE_ACCESS_TOKEN", "");
    Summary(
      ResolvedEnvironment(vars),
      TokenPrefix(token),
      |token|,
      IfAbsent(vars, "SQUARE_LOCATION_ID", ""),
      ExportConfig.SettingOr(vars, "SQUARE_API_VERSION", "(default: 2024-08-21)"),
      IfAbsent(vars, "STRICT", "true"),
      IfAbsent(vars, "INCLUDE_OUT_OF_STOCK", "false"),
      ExportConfig.SettingOr(vars, "OUTPUT_PATHS", ExportConfig.SettingOr(vars, "OUTPUT_PATH", "(default outputs)")))
  }

  /** The failures, in the order the script reports them. */
  function Problems(vars: map<string, string>): seq<Problem> {
    ProblemsFor(Blank(vars, "SQUARE_ACCESS_TOKEN"), Blank(vars, "SQUARE_LOCATION_ID"), ResolvedEnvironment(vars))
  }

  function ProblemsFor(tokenMissing: bool, locationMissing: bool, env: string): seq<Problem> {
    CredentialProblems(tokenMissing, locationMissing) + EnvironmentProblems(env)
  }

  function CredentialProblems(tokenMissing: bool, locationMissing: bool): seq<Problem> {
    (if tokenMissing then [MissingAccessToken] else [])
      + (if locationMissing then [MissingLocationId] else [])
  }

  function EnvironmentProblems(env: string): seq<Problem> {
    if ExportConfig.IsKnownEnvironment(env) then [] else [UnknownEnvironment(env)]
  }

  /** The warnings, in the order the script prints them. */
  function Notices(vars: map<string, string>): seq<Notice> {
    NoticesFor(Blank(vars, "SQUARE_ENVIRONMENT"), LooksLikeSquareToken(ExportConfig.SettingOr(vars, "SQUARE_ACCESS_TOKEN", "")))
  }

  function NoticesFor(defaulted: bool, tokenLooksRight: bool): seq<Notice> {
    (if defaulted then [EnvironmentDefaulted] else [])
      + (if tokenLooksRight then [] else [UnexpectedTokenFormat])
  }

  function ReportOf(vars: map<string, string>): Report {
    var problems := Problems(vars);
    Report(problems, Notices(vars), if problems == [] then Some(SummaryOf(vars)) else None)
  }

  /** The checks of lines 35-67 on the loaded environment. */
  method Validate(vars: map<string, string>) returns (report: Report)
    ensures report == ReportOf(vars)
  {
    var problems := CheckCredentials(vars);
    var env, defaulted := ResolveEnvironment(vars);
    if !ExportConfig.IsKnownEnvironment(env) {
      problems := problems + [UnknownEnvironment(env)];
    }
    var notices := CollectNotices(vars, defaulted);
    if problems != [] {
      return Report(problems, notices, None);
    }
    report := Report(problems, notices, Some(SummaryOf(vars)));
  }

  /** Lines 50 and 59-62: the defaulted environment and a token without the
      `EAAA` prefix are warned about, in that order. */
  method CollectNotices(vars: map<string, string>, defaulted: bool) returns (notices: seq<Notice>)
    ensures notices == NoticesFor(defaulted, LooksLikeSquareToken(ExportConfig.SettingOr(vars, "SQUARE_ACCESS_TOKEN", "")))
  {
    notices := [];
    if defaulted {
      notices := notices + [EnvironmentDefaulted];
    }
    var token := ExportConfig.SettingOr(vars, "SQUARE_ACCESS_TOKEN", "");
    if !LooksLikeSquareToken(token) {
      notices := notices + [UnexpectedTokenFormat];
    }
  }

  /** Lines 37-45: each blank credential is a problem. */
  method CheckCredentials(vars: map<string, string>) returns (problems: seq<Problem>)
    ensures problems == CredentialProblems(Blank(vars, "SQUARE_ACCESS_TOKEN"), Blank(vars, "SQUARE_LOCATION_ID"))
  {
    problems := [];
    if Blank(vars, "SQUARE_ACCESS_TOKEN") {
      problems := problems + [MissingAccessToken];
    }
    if Blank(vars, "SQUARE_LOCATION_ID") {
      problems := problems + [MissingLocationId];
    }
  }

  /** Lines 47-57: the trimmed SQUARE_ENVIRONMENT, or `production` with a
      notice when it is blank. */
  method ResolveEnvironment(vars: map<string, string>) returns (env: string, defaulted: bool)
    ensures env == ResolvedEnvironment(vars)
    ensures defaulted <==> Blank(vars, "SQUARE_ENVIRONMENT")
  {
    defaulted := Blank(vars, "SQUARE_ENVIRONMENT");
    if defaulted {
      // Trimming the default would change nothing, so only a given name is
      // trimmed.
      env := "production";
    } else {
      env := Trim(vars["SQUARE_ENVIRONMENT"]);
    }
  }

  /** Each missing credential and an unknown environment name is reported,
      in that order. */
  lemma ProblemsSpec(vars: map<string, string>)
    ensures MissingAccessToken in Problems(vars) <==> Blank(vars, "SQUARE_ACCESS_TOKEN")
    ensures MissingLocationId in Problems(vars) <==> Blank(vars, "SQUARE_LOCATION_ID")
    ensures forall got :: UnknownEnvironment(got) in Problems(vars) <==>
      got == ResolvedEnvironment(vars) && !ExportConfig.IsKnownEnvironment(got)
    ensures |Problems(vars)| <= 3
  {
    ProblemsForSpec(Blank(vars, "SQUARE_ACCESS_TOKEN"), Blank(vars, "SQUARE_LOCATION_ID"), ResolvedEnvironment(vars));
  }

  lemma ProblemsForSpec(tokenMissing: bool, locationMissing: bool, env: string)
    ensures MissingAccessToken in ProblemsFor(tokenMissing, locationMissing, env) <==> tokenMissing
    ensures MissingLocationId in ProblemsFor(tokenMissing, locationMissing, env) <==> locationMissing
    ensures forall got :: UnknownEnvironment(got) in ProblemsFor(tokenMissing, locationMissing, env) <==>
      got == env && !ExportConfig.IsKnownEnvironment(got)
    ensures |ProblemsFor(tokenMissing, locationMissing, env)| <= 3
  {
  }

  /** The defaulted environment and an unusual token shape are notices only. */
  lemma NoticesSpec(vars: map<string, string>)
    ensures EnvironmentDefaulted in Notices(vars) <==> Blank(vars, "SQUARE_ENVIRONMENT")
    ensures UnexpectedTokenFormat in Notices(vars) <==> !LooksLikeSquareToken(ExportConfig.SettingOr(vars, "SQUARE_ACCESS_TOKEN", ""))
  {
  }

  /** The summary appears exactly when the token and location are given and
      the environment name is known; the token's shape plays no part. */
  lemma PassesExactlyWhenValid(vars: map<string, string>)
    ensures ReportOf(vars).summary.Some? <==>
      && !Blank(vars, "SQUARE_ACCESS_TOKEN") && !Blank(vars, "SQUARE_LOCATION_ID")
      && ExportConfig.IsKnownEnvironment(ResolvedEnvironment(vars))
  {
  }

  /** The whole script against the process environment: the `.env` text
      (`None` when it cannot be read) is loaded, the checks run, and
      SQUARE_ENVIRONMENT is replaced by the resolved name whether or not the
      checks pass. */
  method RunPreflight(process: ProcessEnv, file: Option<string>) returns (report: Report)
    modifies process
    ensures var loaded := if file.None? then old(process.vars) else LoadEntries(old(process.vars), ParseLines(SplitLines(file.value)));
      process.vars == loaded["SQUARE_ENVIRONMENT" := ResolvedEnvironment(loaded)]
    ensures var loaded := if file.None? then old(process.vars) else LoadEntries(old(process.vars), ParseLines(SplitLines(file.value)));
      report == ReportOf(loaded)
  {
    process.LoadEnvFile(file);
    var loaded := process.vars;
    report := Validate(loaded);
    process.vars := process.vars["SQUARE_ENVIRONMENT" := ResolvedEnvironment(loaded)];
  }

  /** The exporter runs as a process of its own and reads the caller's
      environment, not the one the preflight loaded and rewrote. With the
      environment name unset, the preflight defaults it and passes, while
      `main`'s check names SQUARE_ENVIRONMENT as missing. */
  lemma UnsetEnvironmentDivergence(vars: map<string, string>)
    requires "SQUARE_ENVIRONMENT" !in vars
    requires !Blank(vars, "SQUARE_ACCESS_TOKEN") && !Blank(vars, "SQUARE_LOCATION_ID")
    ensures ReportOf(vars).summary.Some?
    ensures ReportOf(vars).summary.value.environment == "production"
    ensures ExportConfig.MissingNames(vars, ExportConfig.RequiredNames) == ["SQUARE_ENVIRONMENT"]
  {
    assert AllWhitespace("");
    ExportConfig.OnlyEnvironmentCanBeMissing(vars);
  }

  /** A padded name such as " sandbox " passes the preflight, which trims
      it, and fails the exporter, which does not. */
  lemma PaddedEnvironmentDivergence(vars: map<string, string>, name: string)
    requires ExportConfig.IsKnownEnvironment(name)
    requires "SQUARE_ENVIRONMENT" in vars && vars["SQUARE_ENVIRONMENT"] == " " + name + " "
    ensures ResolvedEnvironment(vars) == name
    ensures !ExportConfig.IsKnownEnvironment(ExportConfig.EnvironmentName(vars))
  {
    var padded := " " + name + " ";
    assert padded[1..] == name + " ";
    assert TrimStart(name + " ") == name + " ";
    assert TrimStart(padded) == name + " ";
    assert (name + " ")[..|name|] == name;
    assert TrimEnd(name) == name;
    assert !AllWhitespace(padded) by {
      assert !IsWhitespace(padded[1]);
    }
    assert |ExportConfig.EnvironmentName(vars)| == |name| + 2;
  }

  /** Credentials that only `.env` defines pass the preflight, which loads
      the file, and are missing for the exporter, which never reads it. */
  lemma EnvFileCredentialsDivergence(vars: map<string, string>, entries: seq<Option<Setting>>, token: string)
    requires "SQUARE_ACCESS_TOKEN" !in vars
    requires FirstValue(entries, "SQUARE_ACCESS_TOKEN") == Some(token) && !AllWhitespace(token)
    ensures !Blank(LoadEntries(vars, entries), "SQUARE_ACCESS_TOKEN")
    ensures !ExportConfig.IsSet(vars, "SQUARE_ACCESS_TOKEN")
  {
    FirstValueDefined(entries, "SQUARE_ACCESS_TOKEN");
    LoadTakesFirstValue(vars, entries);
  }

  /** The summary's optional settings: STRICT and INCLUDE_OUT_OF_STOCK show
      their value whenever set, even empty, and "true" and "false" otherwise;
      the output paths show OUTPUT_PATHS, then OUTPUT_PATH, skipping empty
      values, then "(default outputs)"; the token shows its first six
      characters and its full length. */
  lemma SummaryDefaults(vars: map<string, string>)
    ensures "STRICT" !in vars ==> SummaryOf(vars).strict == "true"
    ensures "STRICT" in vars ==> SummaryOf(vars).strict == vars["STRICT"]
    ensures "INCLUDE_OUT_OF_STOCK" !in vars ==> SummaryOf(vars).includeOutOfStock == "false"
    ensures "INCLUDE_OUT_OF_STOCK" in vars ==> SummaryOf(vars).includeOutOfStock == vars["INCLUDE_OUT_OF_STOCK"]
    ensures "OUTPUT_PATHS" in vars && vars["OUTPUT_PATHS"] != "" ==> SummaryOf(vars).outputPaths == vars["OUTPUT_PATHS"]
    ensures ("OUTPUT_PATHS" !in vars || vars["OUTPUT_PATHS"] == "") && "OUTPUT_PATH" in vars && vars["OUTPUT_PATH"] != "" ==>
      SummaryOf(vars).outputPaths == vars["OUTPUT_PATH"]
    ensures ("OUTPUT_PATHS" !in vars || vars["OUTPUT_PATHS"] == "") && ("OUTPUT_PATH" !in vars || vars["OUTPUT_PATH"] == "") ==>
      SummaryOf(vars).outputPaths == "(default outputs)"
    ensures !Blank(vars, "SQUARE_ACCESS_TOKEN") ==>
      SummaryOf(vars).tokenLength == |vars["SQUARE_ACCESS_TOKEN"]|
        && SummaryOf(vars).tokenPrefix == vars["SQUARE_ACCESS_TOKEN"][..if |vars["SQUARE_ACCESS_TOKEN"]| < 6 then |vars["SQUARE_ACCESS_TOKEN"]| else 6]
  {
  }

  /** The two scripts disagree on case: "Sandbox" fails the preflight, which
      compares exactly, but the exporter lowers it and accepts it. */
  lemma EnvironmentCaseDivergence(vars: map<string, string>)
    requires vars == map["SQUARE_ENVIRONMENT" := "Sandbox"]
    ensures ResolvedEnvironment(vars) == "Sandbox"
    ensures ExportConfig.IsKnownEnvironment(ExportConfig.EnvironmentName(vars))
  {
    TrimUnpadded("Sandbox");
    assert Lower("Sandbox") == "sandbox";
  }

  /** A token of spaces fails the preflight, which trims, but passes the
      exporter's check, which does not. */
  lemma BlankTokenDivergence(vars: map<string, string>)
    requires vars == map["SQUARE_ACCESS_TOKEN" := "  "]
    ensures Blank(vars, "SQUARE_ACCESS_TOKEN")
    ensures ExportConfig.IsSet(vars, "SQUARE_ACCESS_TOKEN")
  {
    assert AllWhitespace("  ");
  }

  /** STRICT set to the empty string shows as empty in the preflight summary
      (`??`), while the exporter falls back to "true" (`||`) and runs strict. */
  lemma EmptyStrictDivergence(vars: map<string, string>)
    requires vars == map["STRICT" := ""]
    ensures SummaryOf(vars).strict == ""
    ensures ExportConfig.StrictFlag(vars)
  {
  }
}
