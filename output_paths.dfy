/** Where the exporter writes: `collectOutputPaths` in scripts/fetch-square.mjs.
    Paths come from the comma-separated `OUTPUT_PATHS` (or `OUTPUT_PATH`)
    variable and from repeated `--out`/`-o` flags, kept once each in the
    order first seen, with one conventional default when none is given. */
module OutputPaths {
  import opened Wrappers
  import opened JsStrings

  const DefaultPath: string := "data/products.json"

  predicate NoDuplicates(s: seq<string>) {
    forall i, j :: 0 <= i < j < |s| ==> s[i] != s[j]
  }

  /** `Set.add` on an insertion-ordered set. */
  function AddUnique(acc: seq<string>, x: string): seq<string> {
    if x in acc then acc else acc + [x]
  }

  /** Adding every element of `xs` in turn. */
  function AddAll(acc: seq<string>, xs: seq<string>): seq<string>
    decreases |xs|
  {
    if xs == [] then acc else AddAll(AddUnique(acc, xs[0]), xs[1..])
  }

  /** `process.env.OUTPUT_PATHS || process.env.OUTPUT_PATH`: the first one set to a non-empty value. */
  function EnvPathSetting(env: map<string, string>): Option<string> {
    if "OUTPUT_PATHS" in env && env["OUTPUT_PATHS"] != "" then Some(env["OUTPUT_PATHS"])
    else if "OUTPUT_PATH" in env && env["OUTPUT_PATH"] != "" then Some(env["OUTPUT_PATH"])
    else None
  }

  /** The trimmed, non-blank comma-separated entries, in order. */
  function TrimmedEntries(pieces: seq<string>): (r: seq<string>)
    ensures forall i :: 0 <= i < |r| ==> r[i] != "" && !IsWhitespace(r[i][0]) && !IsWhitespace(r[i][|r[i]| - 1])
  {
    if pieces == [] then []
    else (if Trim(pieces[0]) != "" then [Trim(pieces[0])] else []) + TrimmedEntries(pieces[1..])
  }

  /** Each entry kept is the trim of some piece, and every piece that is not
      blank contributes its trim. */
  lemma {:induction false} TrimmedEntriesFromPieces(pieces: seq<string>)
    ensures forall i :: 0 <= i < |TrimmedEntries(pieces)| ==>
      exists p :: 0 <= p < |pieces| && TrimmedEntries(pieces)[i] == Trim(pieces[p])
    ensures forall p :: 0 <= p < |pieces| && Trim(pieces[p]) != "" ==> Trim(pieces[p]) in TrimmedEntries(pieces)
  {
    var r := TrimmedEntries(pieces);
    forall i | 0 <= i < |r|
      ensures exists p :: 0 <= p < |pieces| && r[i] == Trim(pieces[p])
    {
      var p := TrimmedEntrySource(pieces, i);
      assert r[i] == Trim(pieces[p]);
    }
    TrimmedEntriesComplete(pieces);
  }

  /** The piece that entry `i` was trimmed from. */
  lemma {:induction false} TrimmedEntrySource(pieces: seq<string>, i: nat) returns (p: nat)
    requires i < |TrimmedEntries(pieces)|
    ensures p < |pieces| && TrimmedEntries(pieces)[i] == Trim(pieces[p])
  {
    var rest := pieces[1..];
    var head := if Trim(pieces[0]) != "" then [Trim(pieces[0])] else [];
    assert TrimmedEntries(pieces) == head + TrimmedEntries(rest);
    if i < |head| {
      p := 0;
    } else {
      var q := TrimmedEntrySource(rest, i - |head|);
      p := q + 1;
    }
  }

  /** Every piece that is not blank contributes its trim. */
  lemma {:induction false} TrimmedEntriesComplete(pieces: seq<string>)
    ensures forall p :: 0 <= p < |pieces| && Trim(pieces[p]) != "" ==> Trim(pieces[p]) in TrimmedEntries(pieces)
  {
    if pieces != [] {
      var rest := pieces[1..];
      TrimmedEntriesComplete(rest);
      forall p | 0 <= p < |pieces| && Trim(pieces[p]) != ""
        ensures Trim(pieces[p]) in TrimmedEntries(pieces)
      {
        if p > 0 {
          assert pieces[p] == rest[p - 1];
        }
      }
    }
  }

  /** The entries of consecutive runs of pieces follow each other in order. */
  lemma {:induction false} TrimmedEntriesConcat(a: seq<string>, b: seq<string>)
    ensures TrimmedEntries(a + b) == TrimmedEntries(a) + TrimmedEntries(b)
  {
    if a == [] {
      assert a + b == b;
    } else {
      assert (a + b)[1..] == a[1..] + b;
      TrimmedEntriesConcat(a[1..], b);
    }
  }

  function EnvEntries(env: map<string, string>): seq<string> {
    match EnvPathSetting(env)
    case None => []
    case Some(v) => TrimmedEntries(Split(v, ','))
  }

  predicate IsOutFlag(token: string) {
    token == "--out" || token == "-o"
  }

  /** The values of the `--out`/`-o` flags from position `i` of the arguments on,
      or the flag whose value is missing or empty. A flag's value is never itself
      read as a flag. */
  function OutValues(argv: seq<string>, i: nat): Result<seq<string>, string>
    requires i <= |argv|
    decreases |argv| - i
  {
    if i == |argv| then Ok([])
    else if IsOutFlag(argv[i]) then
      if i + 1 == |argv| || argv[i + 1] == "" then Err(argv[i])
      else match OutValues(argv, i + 2)
        case Ok(vs) => Ok([argv[i + 1]] + vs)
        case Err(flag) => Err(flag)
    else OutValues(argv, i + 1)
  }

  /** Adding the outcome of the rest of the argument scan to `acc`. */
  function Continue(acc: seq<string>, rest: Result<seq<string>, string>): Result<seq<string>, string> {
    match rest
    case Ok(vs) => Ok(AddAll(acc, vs))
    case Err(flag) => Err(flag)
  }

  /** The list `collectOutputPaths` returns, or the flag it exits on. */
  function OutputPathsOf(env: map<string, string>, argv: seq<string>): Result<seq<string>, string> {
    match Continue(AddAll([], EnvEntries(env)), OutValues(argv, 0))
    case Err(flag) => Err(flag)
    case Ok(paths) => Ok(if paths == [] then [DefaultPath] else paths)
  }

  method CollectOutputPaths(env: map<string, string>, argv: seq<string>) returns (r: Result<seq<string>, string>)
    ensures r == OutputPathsOf(env, argv)
  {
    var outputs: seq<string> := [];
    var setting := EnvPathSetting(env);
    if setting.Some? {
      var pieces := Split(setting.value, ',');
      var k := 0;
      while k < |pieces|
        invariant 0 <= k <= |pieces|
        invariant AddAll(outputs, TrimmedEntries(pieces[k..])) == AddAll([], TrimmedEntries(pieces))
      {
        var trimmed := Trim(pieces[k]);
        TrimmedEntriesStep(pieces, k);
        if trimmed != "" {
          AddAllCons(outputs, trimmed, TrimmedEntries(pieces[k + 1..]));
          outputs := AddUnique(outputs, trimmed);
        } else {
          assert [] + TrimmedEntries(pieces[k + 1..]) == TrimmedEntries(pieces[k + 1..]);
        }
        k := k + 1;
      }
      assert pieces[k..] == [];
    }
    var seed := outputs;
    var i := 0;
    while i < |argv|
      invariant 0 <= i <= |argv|
      invariant Continue(outputs, OutValues(argv, i)) == Continue(seed, OutValues(argv, 0))
      decreases |argv| - i
    {
      var token := argv[i];
      if IsOutFlag(token) {
        if i + 1 == |argv| || argv[i + 1] == "" {
          assert OutValues(argv, i) == Err(token);
          return Err(token);
        }
        ContinueAfterValue(outputs, argv, i);
        outputs := AddUnique(outputs, argv[i + 1]);
        i := i + 1;
      }
      i := i + 1;
    }
    assert Continue(seed, OutValues(argv, 0)) == Ok(outputs);
    if outputs == [] {
      outputs := [DefaultPath];
    }
    r := Ok(outputs);
  }

  lemma AddAllCons(acc: seq<string>, x: string, xs: seq<string>)
    ensures AddAll(acc, [x] + xs) == AddAll(AddUnique(acc, x), xs)
  {
    assert ([x] + xs)[1..] == xs;
  }

  lemma TrimmedEntriesStep(pieces: seq<string>, k: nat)
    requires k < |pieces|
    ensures TrimmedEntries(pieces[k..])
         == (if Trim(pieces[k]) != "" then [Trim(pieces[k])] else []) + TrimmedEntries(pieces[k + 1..])
  {
    assert pieces[k..][1..] == pieces[k + 1..];
  }

  /** One step of the argument scan: a flag and its value. */
  lemma ContinueAfterValue(acc: seq<string>, argv: seq<string>, i: nat)
    requires i + 1 < |argv| && IsOutFlag(argv[i]) && argv[i + 1] != ""
    ensures Continue(acc, OutValues(argv, i)) == Continue(AddUnique(acc, argv[i + 1]), OutValues(argv, i + 2))
  {
    match OutValues(argv, i + 2)
    case Err(_) =>
    case Ok(vs) =>
      AddAllCons(acc, argv[i + 1], vs);
  }

  /** `AddAll` keeps what was there as a prefix, never repeats an element, and
      holds exactly the elements of both lists. */
  lemma {:induction false} AddAllProperties(acc: seq<string>, xs: seq<string>)
    requires NoDuplicates(acc)
    ensures NoDuplicates(AddAll(acc, xs))
    ensures acc <= AddAll(acc, xs)
    ensures forall p :: p in AddAll(acc, xs) <==> p in acc || p in xs
    decreases |xs|
  {
    if xs != [] {
      var next := AddUnique(acc, xs[0]);
      AddAllProperties(next, xs[1..]);
      assert xs == [xs[0]] + xs[1..];
    }
  }

  /** A trailing `--out` or an empty value stops the run naming the flag,
      and a value is taken as it stands even when it looks like a flag. */
  lemma FlagScenarios()
    ensures OutputPathsOf(map[], ["--out"]) == Err("--out")
    ensures OutputPathsOf(map[], ["-o", "", "--out", "b"]) == Err("-o")
    ensures OutputPathsOf(map[], ["--out", "-o"]) == Ok(["-o"])
  {
    var argv := ["--out", "-o"];
    assert OutValues(argv, 2) == Ok([]);
    assert IsOutFlag(argv[0]) && argv[1] != "";
    assert OutValues(argv, 0) == Ok([argv[1]] + []);
    assert EnvEntries(map[]) == [];
    assert AddAll([], [argv[1]]) == [argv[1]];
  }

  /** The collected list never repeats a path and is never empty. When no path
      was given it is exactly the default; otherwise it holds exactly the
      trimmed environment entries and the flag values, the environment entries
      first. */
  lemma OutputPathsSpec(env: map<string, string>, argv: seq<string>, values: seq<string>)
    requires OutValues(argv, 0) == Ok(values)
    ensures OutputPathsOf(env, argv).Ok?
    ensures NoDuplicates(OutputPathsOf(env, argv).value)
    ensures EnvEntries(env) == [] && values == [] ==> OutputPathsOf(env, argv).value == [DefaultPath]
    ensures EnvEntries(env) != [] || values != [] ==>
      forall p :: p in OutputPathsOf(env, argv).value <==> p in EnvEntries(env) || p in values
    ensures EnvEntries(env) != [] || values != [] ==>
      AddAll([], EnvEntries(env)) <= OutputPathsOf(env, argv).value
  {
    var seed := AddAll([], EnvEntries(env));
    AddAllProperties([], EnvEntries(env));
    AddAllProperties(seed, values);
    if EnvEntries(env) != [] {
      assert EnvEntries(env)[0] in seed;
    } else if values != [] {
      assert values[0] in AddAll(seed, values);
    }
  }

}
