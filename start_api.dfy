/**
 * app/start_api.py: loading `KEY=value` lines from a `.env` file into the
 * process environment, and checking that the required keys are set.
 */
module StartApi {
  import opened Text
  import opened Values

  // ---------------------------------------------------------------------
  // One line of a .env file
  // ---------------------------------------------------------------------

  /** What a line of the file means once stripped. */
  datatype EnvLine = Skipped | Assignment(key: string, value: string)

  /** The index of the first `c` in `s`. */
  function FirstIndex(s: string, c: char): (i: nat)
    requires c in s
    ensures i < |s| && s[i] == c
    ensures c !in s[..i]
  {
    if s[0] == c then 0
    else
      assert c in s[1..];
      1 + FirstIndex(s[1..], c)
  }

  /** The first `c` is the one with no `c` before it. */
  lemma {:induction false} FirstIndexUnique(s: string, c: char, i: nat)
    requires i < |s| && s[i] == c && c !in s[..i]
    ensures FirstIndex(s, c) == i
  {
    if i > 0 {
      assert s[0] == s[..i][0];
      assert s[1..][..i - 1] == s[1..i];
      assert forall j :: 0 <= j < i - 1 ==> s[1..i][j] == s[..i][j + 1];
      FirstIndexUnique(s[1..], c, i - 1);
    }
  }

  /**
   * A stripped line that is not empty, does not start with `#` and holds an
   * `=` is split on its first `=`: the key is the text before it and the
   * value all the rest, neither trimmed again.
   */
  function ParseEnvLine(raw: string): EnvLine {
    var line := Strip(raw);
    if line != [] && line[0] != '#' && '=' in line then
      var eq := FirstIndex(line, '=');
      Assignment(line[..eq], line[eq + 1..])
    else Skipped
  }

  /** An assignment is read exactly from a non-empty, non-comment line with an `=`, and puts that line back together. */
  lemma ParseEnvLineSplitsOnFirstEquals(raw: string)
    ensures var line := Strip(raw);
            ParseEnvLine(raw).Assignment? <==> line != [] && line[0] != '#' && '=' in line
    ensures ParseEnvLine(raw).Assignment? ==>
              var p := ParseEnvLine(raw);
              && p.key + "=" + p.value == Strip(raw)
              && '=' !in p.key
  {
    var line := Strip(raw);
    if line != [] && line[0] != '#' && '=' in line {
      SplitAt(line, FirstIndex(line, '='));
    }
  }

  /** Cutting out the element at `i` and putting it back gives the sequence again. */
  lemma SplitAt<T>(s: seq<T>, i: nat)
    requires i < |s|
    ensures s[..i] + [s[i]] + s[i + 1..] == s
  {
    assert s[i..] == [s[i]] + s[i + 1..];
    assert s == s[..i] + s[i..];
  }

  /** The line `key=value` as it would be written to the file. */
  function EnvLineText(key: string, value: string): string {
    key + "=" + value
  }

  /**
   * Writing a pair and reading it back gives the pair, for a key that is
   * not empty, has no `=`, does not start with `#` or whitespace, and a
   * value that does not end in whitespace.
   */
  lemma EnvLineRoundTrip(key: string, value: string)
    requires key != [] && '=' !in key && key[0] != '#' && !IsSpace(key[0])
    requires value != [] ==> !IsSpace(value[|value| - 1])
    ensures ParseEnvLine(EnvLineText(key, value)) == Assignment(key, value)
  {
    var line := EnvLineText(key, value);
    StripKeepsUnpadded(line);
    assert line[..|key|] == key;
    FirstIndexUnique(line, '=', |key|);
    assert line[|key| + 1..] == value;
  }

  /** A string that neither starts nor ends with whitespace is its own strip. */
  lemma StripKeepsUnpadded(s: string)
    requires s != [] && !IsSpace(s[0]) && !IsSpace(s[|s| - 1])
    ensures Strip(s) == s
  {
    assert StripStart(s) == s;
  }

  /** With no trimming around the `=`, `KEY = v` sets `KEY ` to ` v`. */
  lemma SpacesAroundEqualsKept(k: char, v: char)
    requires !IsSpace(k) && k != '#' && k != '=' && !IsSpace(v)
    ensures ParseEnvLine([k, ' ', '=', ' ', v]) == Assignment([k, ' '], [' ', v])
  {
    var line := [k, ' ', '=', ' ', v];
    StripKeepsUnpadded(line);
    assert line[..2] == [k, ' '];
    FirstIndexUnique(line, '=', 2);
  }

  // ---------------------------------------------------------------------
  // Loading the file into the environment
  // ---------------------------------------------------------------------

  /**
   * `os.environ[key] = value`: `putenv` refuses a NUL character and an
   * empty name with ValueError.
   */
  function SetEnv(env: map<string, string>, key: string, value: string): Outcome<map<string, string>> {
    if '\0' in key || '\0' in value then Raise(PyError(ValueError, "embedded null byte"))
    else if key == "" then Raise(PyError(ValueError, "illegal environment variable name"))
    else Ok(env[key := value])
  }

  /** The effect of one line: a skipped line changes nothing, an assignment sets its key. */
  function Apply(env: map<string, string>, raw: string): Outcome<map<string, string>> {
    match ParseEnvLine(raw)
    case Skipped => Ok(env)
    case Assignment(key, value) => SetEnv(env, key, value)
  }

  /** The environment after applying `lines` in order, and the error that stopped it, if any. */
  function Load(env: map<string, string>, lines: seq<string>): (map<string, string>, Option<PyError>)
    decreases |lines|
  {
    if lines == [] then (env, None)
    else
      match Apply(env, lines[0])
      case Raise(e) => (env, Some(e))
      case Ok(next) => Load(next, lines[1..])
  }

  /** A line sets only the key it assigns, to the value it gives. */
  lemma ApplySetsOnlyItsKey(env: map<string, string>, raw: string, key: string)
    requires Apply(env, raw).Ok?
    ensures var next := Apply(env, raw).value;
            match ParseEnvLine(raw)
            case Assignment(k, v) =>
              if k == key then key in next && next[key] == v
              else (key in next <==> key in env) && (key in env ==> next[key] == env[key])
            case Skipped => next == env
  {
  }

  /** The value the last assignment to `key` in `lines` gives it, if any. */
  function LastAssignment(lines: seq<string>, key: string): Option<string> {
    if lines == [] then None
    else
      match LastAssignment(lines[1..], key)
      case Some(v) => Some(v)
      case None =>
        match ParseEnvLine(lines[0])
        case Assignment(k, v) => if k == key then Some(v) else None
        case Skipped => None
  }

  /** The process environment. */
  class Environment {
    var vars: map<string, string>

    constructor(initial: map<string, string>)
      ensures vars == initial
    {
      vars := initial;
    }

    /**
     * `load_env_file`: when the file exists, each of its lines is parsed and
     * each assignment written to the environment, in order. An assignment
     * `putenv` refuses raises, and the lines before it stay applied.
     */
    method LoadEnvFile(file: Option<seq<string>>) returns (error: Option<PyError>)
      modifies this
      ensures file.None? ==> vars == old(vars) && error.None?
      ensures file.Some? ==> (vars, error) == Load(old(vars), file.value)
    {
      if file.None? {
        return None;
      }
      var lines := file.value;
      var i := 0;
      while i < |lines|
        invariant 0 <= i <= |lines|
        invariant Load(vars, lines[i..]) == Load(old(vars), lines)
      {
        assert lines[i..][1..] == lines[i + 1..];
        match ParseEnvLine(lines[i]) {
          case Skipped =>
          case Assignment(key, value) =>
            var written := SetEnv(vars, key, value);
            if written.Raise? {
              return Some(written.error);
            }
            vars := written.value;
        }
        i := i + 1;
      }
      assert lines[i..] == [];
      return None;
    }

    /**
     * `check_required_env_vars`: the required names that are unset or empty,
     * in order, and whether there are none.
     */
    method CheckRequiredEnvVars() returns (ok: bool, missing: seq<string>)
      ensures missing == MissingVars(vars, RequiredVars)
      ensures ok <==> missing == []
    {
      missing := [];
      var i := 0;
      while i < |RequiredVars|
        invariant 0 <= i <= |RequiredVars|
        invariant missing == MissingVars(vars, RequiredVars[..i])
      {
        var name := RequiredVars[i];
        assert RequiredVars[..i + 1][..i] == RequiredVars[..i];
        if name !in vars || vars[name] == "" {
          missing := missing + [name];
        }
        i := i + 1;
      }
      assert RequiredVars[..i] == RequiredVars;
      ok := missing == [];
    }
  }

  /**
   * Loading keeps the last assignment of each key and leaves every key the
   * file does not assign as it was.
   */
  lemma {:induction false} LoadLastWins(env: map<string, string>, lines: seq<string>, key: string)
    requires Load(env, lines).1.None?
    ensures var r := Load(env, lines).0;
            match LastAssignment(lines, key)
            case Some(v) => key in r && r[key] == v
            case None => (key in r <==> key in env) && (key in env ==> r[key] == env[key])
    decreases |lines|
  {
    if lines != [] {
      var next := Apply(env, lines[0]).value;
      LoadLastWins(next, lines[1..], key);
      ApplySetsOnlyItsKey(env, lines[0], key);
    }
  }

  /** Loading stops at the first refused assignment, with every line before it applied. */
  lemma {:induction false} LoadStopsAtRefusedLine(env: map<string, string>, lines: seq<string>, n: nat)
    requires n < |lines| && Load(env, lines[..n]).1.None?
    requires Apply(Load(env, lines[..n]).0, lines[n]).Raise?
    ensures Load(env, lines) == (Load(env, lines[..n]).0, Some(Apply(Load(env, lines[..n]).0, lines[n]).error))
    decreases n
  {
    if n > 0 {
      assert lines[..n][1..] == lines[1..][..n - 1];
      LoadStopsAtRefusedLine(Apply(env, lines[0]).value, lines[1..], n - 1);
    } else {
      assert lines[..0] == [];
    }
  }


  // ---------------------------------------------------------------------
  // Required variables
  // ---------------------------------------------------------------------

  const RequiredVars: seq<string> := ["API_KEY", "OPENAI_API_KEY"]

  /** The names in `names` that `os.getenv` reports unset or empty, in order. */
  function MissingVars(env: map<string, string>, names: seq<string>): seq<string> {
    if names == [] then []
    else
      var last := names[|names| - 1];
      MissingVars(env, names[..|names| - 1]) + (if last !in env || env[last] == "" then [last] else [])
  }

  /** A name is reported missing exactly when it is required and unset or empty. */
  lemma {:induction false} MissingVarsExact(env: map<string, string>, names: seq<string>, name: string)
    ensures name in MissingVars(env, names) <==> name in names && (name !in env || env[name] == "")
  {
    if names != [] {
      var init := names[..|names| - 1];
      MissingVarsExact(env, init, name);
      assert names == init + [names[|names| - 1]];
    }
  }

  /** The check passes exactly when both API_KEY and OPENAI_API_KEY are set to non-empty values. */
  lemma RequiredVarsCheck(env: map<string, string>)
    ensures MissingVars(env, RequiredVars) == []
        <==> "API_KEY" in env && env["API_KEY"] != "" && "OPENAI_API_KEY" in env && env["OPENAI_API_KEY"] != ""
  {
    MissingVarsExact(env, RequiredVars, "API_KEY");
    MissingVarsExact(env, RequiredVars, "OPENAI_API_KEY");
    if MissingVars(env, RequiredVars) != [] {
      var m := MissingVars(env, RequiredVars);
      assert m[0] in m;
      MissingVarsExact(env, RequiredVars, m[0]);
    }
  }
}
