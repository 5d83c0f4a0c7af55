/** The `.env` reader of scripts/preflight.mjs (`loadEnvFile`, lines 6-30):
    line splitting, one line's `KEY=value` parse, and loading into the
    process environment without overwriting what is already set. */
module EnvFile {
  import opened Wrappers
  import opened JsStrings

  datatype Setting = Setting(key: string, value: string)

  /** Drops one trailing carriage return. */
  function StripCarriageReturn(line: string): string {
    if line != [] && line[|line| - 1] == '\r' then line[..|line| - 1] else line
  }

  /** `text.split(/\r?\n/)`: split at each line feed, together with a
      carriage return just before it. */
  function SplitLines(text: string): (lines: seq<string>)
    ensures |lines| == |Split(text, '\n')|
    ensures forall i :: 0 <= i < |lines| ==> '\n' !in lines[i]
    ensures lines[|lines| - 1] == Split(text, '\n')[|lines| - 1]
    ensures forall i :: 0 <= i < |lines| - 1 ==> lines[i] == StripCarriageReturn(Split(text, '\n')[i])
  {
    var pieces := Split(text, '\n');
    seq(|pieces|, i requires 0 <= i < |pieces| => if i < |pieces| - 1 then StripCarriageReturn(pieces[i]) else pieces[i])
  }

  /** `value.replace(/\\n/g, "\n")`: each backslash followed by `n`, taken
      left to right, becomes a line feed. */
  function Unescape(s: string): (r: string)
    ensures |r| <= |s|
  {
    if |s| >= 2 && s[0] == '\\' && s[1] == 'n' then "\n" + Unescape(s[2..])
    else if s == [] then []
    else [s[0]] + Unescape(s[1..])
  }

  /** No backslash is directly followed by `n`. */
  predicate NoEscapes(s: string) {
    forall i :: 0 <= i < |s| - 1 ==> !(s[i] == '\\' && s[i + 1] == 'n')
  }

  /** Starts and ends with the same quote character, double or single. */
  predicate Quoted(value: string) {
    value != [] && (value[0] == '"' || value[0] == '\'') && value[|value| - 1] == value[0]
  }

  /** Surrounding quotes come off once; a lone quote character leaves an
      empty value. */
  function Unquote(value: string): (r: string)
    ensures Quoted(value) && |value| >= 2 ==> value == [value[0]] + r + [value[0]]
    ensures Quoted(value) && |value| == 1 ==> r == []
    ensures !Quoted(value) ==> r == value
  {
    if Quoted(value) then (if |value| >= 2 then value[1..|value| - 1] else []) else value
  }

  /** One line of the file: skipped when blank, a `#` comment, or without
      `=`; otherwise the trimmed text before the first `=` is the key and the
      rest, unquoted and unescaped, the value. */
  function ParseLine(rawLine: string): Option<Setting> {
    ParseTrimmed(Trim(rawLine))
  }

  /** `ParseLine` once the line is trimmed. */
  function ParseTrimmed(line: string): (r: Option<Setting>)
    ensures r.Some? ==> '=' !in r.value.key && NoEscapes(r.value.value)
    ensures line == [] || line[0] == '#' || '=' !in line ==> r.None?
  {
    if line == [] || line[0] == '#' then None
    else match IndexOf(line, '=')
      case None => None
      case Some(eq) => Some(SettingAt(line, eq))
  }

  /** The setting a line defines when its first `=` is at `eq`. */
  function SettingAt(line: string, eq: nat): (r: Setting)
    requires eq < |line|
    ensures '=' !in line[..eq] ==> '=' !in r.key
    ensures NoEscapes(r.value)
  {
    TrimIsInfix(line[..eq]);
    UnescapeLeavesNoEscapes(Unquote(line[eq + 1..]));
    Setting(Trim(line[..eq]), Unescape(Unquote(line[eq + 1..])))
  }

  lemma {:induction false} TrimIsInfix(s: string)
    ensures forall c :: c in Trim(s) ==> c in s
  {
    var t := TrimStart(s);
    TrimStartSpec(s);
    TrimEndSpec(t);
    assert forall c :: c in t ==> c in s;
    assert forall c :: c in TrimEnd(t) ==> c in t;
  }

  /** Unescaping leaves no backslash-`n` pair behind. */
  lemma {:induction false} UnescapeLeavesNoEscapes(s: string)
    ensures NoEscapes(Unescape(s))
  {
    if |s| >= 2 && s[0] == '\\' && s[1] == 'n' {
      UnescapeLeavesNoEscapes(s[2..]);
    } else if s != [] {
      UnescapeLeavesNoEscapes(s[1..]);
      var rest := Unescape(s[1..]);
      if s[0] == '\\' && rest != [] {
        assert rest[0] != 'n' by {
          UnescapeHead(s[1..]);
        }
      }
    }
  }

  /** The first character of an unescaped string is a line feed or the first
      character of the input. */
  lemma UnescapeHead(s: string)
    requires s != []
    ensures Unescape(s) != [] && (Unescape(s)[0] == '\n' || Unescape(s)[0] == s[0])
  {
  }

  /** A string without backslashes is its own unescaping. */
  lemma {:induction false} UnescapeWithoutBackslash(s: string)
    requires '\\' !in s
    ensures Unescape(s) == s
  {
    if s != [] {
      UnescapeWithoutBackslash(s[1..]);
    }
  }

  /** A backslash-`n` becomes a line feed wherever it stands: text before
      it cannot reach into it, and the text after it is unescaped on its own. */
  lemma {:induction false} UnescapeAtEscape(s: string, t: string)
    ensures Unescape(s + "\\n" + t) == Unescape(s) + "\n" + Unescape(t)
  {
    var u := s + "\\n" + t;
    if s == [] {
      assert u == "\\n" + t;
      assert u[2..] == t;
    } else if |s| >= 2 && s[0] == '\\' && s[1] == 'n' {
      assert u[2..] == s[2..] + "\\n" + t;
      calc {
        Unescape(u);
        "\n" + Unescape(s[2..] + "\\n" + t);
        { UnescapeAtEscape(s[2..], t); }
        "\n" + (Unescape(s[2..]) + "\n" + Unescape(t));
        ("\n" + Unescape(s[2..])) + "\n" + Unescape(t);
      }
    } else {
      assert u[1..] == s[1..] + "\\n" + t;
      calc {
        Unescape(u);
        [s[0]] + Unescape(s[1..] + "\\n" + t);
        { UnescapeAtEscape(s[1..], t); }
        [s[0]] + (Unescape(s[1..]) + "\n" + Unescape(t));
        ([s[0]] + Unescape(s[1..])) + "\n" + Unescape(t);
      }
    }
  }

  /** Text without backslashes passes through unchanged ahead of whatever
      follows it. */
  lemma {:induction false} UnescapeKeepsPlainPrefix(s: string, t: string)
    requires '\\' !in s
    ensures Unescape(s + t) == s + Unescape(t)
  {
    if s == [] {
      assert s + t == t;
    } else {
      assert (s + t)[1..] == s[1..] + t;
      UnescapeKeepsPlainPrefix(s[1..], t);
    }
  }

  /** A backslash not followed by `n` is kept as it is. */
  lemma UnescapeKeepsLoneBackslash(t: string)
    requires t == [] || t[0] != 'n'
    ensures Unescape("\\" + t) == "\\" + Unescape(t)
  {
    assert ("\\" + t)[1..] == t;
  }

  /** The parse of every line, in file order. */
  function ParseLines(lines: seq<string>): (entries: seq<Option<Setting>>)
    ensures |entries| == |lines|
  {
    if lines == [] then [] else [ParseLine(lines[0])] + ParseLines(lines[1..])
  }

  /** The properties every object inherits from `Object.prototype`, for
      which `key in process.env` holds although no variable has that name. */
  const InheritedNames: set<string> := {
    "constructor", "hasOwnProperty", "isPrototypeOf", "propertyIsEnumerable",
    "toLocaleString", "toString", "valueOf", "__proto__",
    "__defineGetter__", "__defineSetter__", "__lookupGetter__", "__lookupSetter__"}

  /** A key the file can add: not an inherited name, which the `in` test
      reports as present, and not the empty name, whose assignment
      `process.env` drops. */
  predicate Storable(key: string) {
    key != "" && key !in InheritedNames
  }

  /** One parsed line applied to the environment: a key already present
      keeps its value, and a key that is not storable is never added. */
  function Define(env: map<string, string>, entry: Option<Setting>): map<string, string> {
    if entry.Some? && Storable(entry.value.key) && entry.value.key !in env
    then env[entry.value.key := entry.value.value]
    else env
  }

  /** Loading parsed lines, first to last. */
  function LoadEntries(env: map<string, string>, entries: seq<Option<Setting>>): map<string, string>
    decreases |entries|
  {
    if entries == [] then env else LoadEntries(Define(env, entries[0]), entries[1..])
  }

  /** The storable keys the parsed lines define. */
  function DefinedKeys(entries: seq<Option<Setting>>): (keys: set<string>)
    ensures forall k :: k in keys ==> Storable(k)
  {
    if entries == [] then {}
    else
      var head := if entries[0].Some? && Storable(entries[0].value.key) then {entries[0].value.key} else {};
      head + DefinedKeys(entries[1..])
  }

  /** The value the first line defining `key` gives it, when `key` is storable. */
  function FirstValue(entries: seq<Option<Setting>>, key: string): Option<string> {
    if entries == [] || !Storable(key) then None
    else if entries[0].Some? && entries[0].value.key == key then Some(entries[0].value.value)
    else FirstValue(entries[1..], key)
  }

  /** A key with a first value is one the lines define. */
  lemma {:induction false} FirstValueDefined(entries: seq<Option<Setting>>, key: string)
    ensures FirstValue(entries, key).Some? ==> key in DefinedKeys(entries)
  {
    if entries != [] {
      FirstValueDefined(entries[1..], key);
    }
  }

  /** The file never overwrites a variable that is already set. */
  lemma {:induction false} LoadKeepsExisting(env: map<string, string>, entries: seq<Option<Setting>>)
    ensures forall k :: k in env ==> k in LoadEntries(env, entries) && LoadEntries(env, entries)[k] == env[k]
    decreases |entries|
  {
    if entries != [] {
      LoadKeepsExisting(Define(env, entries[0]), entries[1..]);
    }
  }

  /** It adds exactly the keys it defines. */
  lemma {:induction false} LoadAddsDefinedKeys(env: map<string, string>, entries: seq<Option<Setting>>)
    ensures LoadEntries(env, entries).Keys == env.Keys + DefinedKeys(entries)
    decreases |entries|
  {
    if entries != [] {
      LoadAddsDefinedKeys(Define(env, entries[0]), entries[1..]);
    }
  }

  /** An inherited name or the empty name is present after loading exactly
      when it was present before: the file never adds it. */
  lemma LoadSkipsUnstorable(env: map<string, string>, entries: seq<Option<Setting>>, key: string)
    requires !Storable(key)
    ensures key in LoadEntries(env, entries) <==> key in env
  {
    LoadAddsDefinedKeys(env, entries);
  }

  /** A new key takes the value of its FIRST definition in the file. */
  lemma {:induction false} LoadTakesFirstValue(env: map<string, string>, entries: seq<Option<Setting>>)
    ensures forall k :: k in DefinedKeys(entries) && k !in env ==>
      FirstValue(entries, k).Some? && k in LoadEntries(env, entries) && LoadEntries(env, entries)[k] == FirstValue(entries, k).value
    decreases |entries|
  {
    if entries != [] {
      var next := Define(env, entries[0]);
      LoadTakesFirstValue(next, entries[1..]);
      LoadAddsDefinedKeys(next, entries[1..]);
      LoadKeepsExisting(next, entries[1..]);
    }
  }

  /** Loading the same file twice changes nothing the second time. */
  lemma LoadIdempotent(env: map<string, string>, entries: seq<Option<Setting>>)
    ensures LoadEntries(LoadEntries(env, entries), entries) == LoadEntries(env, entries)
  {
    LoadAddsDefinedKeys(env, entries);
    LoadingKnownKeysIsIdentity(LoadEntries(env, entries), entries);
  }

  lemma {:induction false} LoadingKnownKeysIsIdentity(env: map<string, string>, entries: seq<Option<Setting>>)
    requires DefinedKeys(entries) <= env.Keys
    ensures LoadEntries(env, entries) == env
    decreases |entries|
  {
    if entries != [] {
      LoadingKnownKeysIsIdentity(env, entries[1..]);
    }
  }

  /** The line splits at its FIRST `=`: the key is trimmed, while the value
      keeps any later `=` and the spaces after the sign. */
  lemma ParseLineSplitsAtFirstEquals(line: string, eq: nat)
    requires eq < |line| && line[0] != '#' && line[eq] == '=' && '=' !in line[..eq]
    ensures ParseTrimmed(line) == Some(Setting(Trim(line[..eq]), Unescape(Unquote(line[eq + 1..]))))
  {
    IndexOfFirst(line, '=', eq);
  }

  /** A line that is blank once trimmed, a `#` comment, or without `=`
      leaves the environment as it was. */
  lemma SkippedLineChangesNothing(env: map<string, string>, rawLine: string)
    requires var line := Trim(rawLine); line == [] || line[0] == '#' || '=' !in line
    ensures Define(env, ParseLine(rawLine)) == env
  {
  }

  /** An escaped line break becomes a real one. */
  lemma UnescapeExample()
    ensures Unescape("a\\nb") == "a\nb"
  {
  }

  /** The process environment, which the preflight script updates in place. */
  class ProcessEnv {
    var vars: map<string, string>

    constructor(initial: map<string, string>)
      ensures vars == initial
    {
      vars := initial;
    }

    /** `loadEnvFile`: `file` is the text of `.env`, `None` when it cannot be
        read (a missing file is silent, any other failure a warning; both
        leave the environment as it was). */
    method LoadEnvFile(file: Option<string>)
      modifies this
      ensures file.None? ==> vars == old(vars)
      ensures file.Some? ==> vars == LoadEntries(old(vars), ParseLines(SplitLines(file.value)))
    {
      if file.None? {
        return;
      }
      var lines := SplitLines(file.value);
      for i := 0 to |lines|
        invariant LoadEntries(vars, ParseLines(lines[i..])) == LoadEntries(old(vars), ParseLines(lines))
      {
        var parsed := ParseLine(lines[i]);
        assert lines[i..][1..] == lines[i + 1..];
        if parsed.Some? && Storable(parsed.value.key) && parsed.value.key !in vars {
          vars := vars[parsed.value.key := parsed.value.value];
        }
      }
      assert lines[|lines|..] == [];
    }
  }
}
