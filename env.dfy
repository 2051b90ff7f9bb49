/**
 * The configuration readers of the server (`utils/env.go`): each looks a
 * variable up in the environment, treats an unset or blank variable as
 * missing, and either fails with a message naming the variable or falls
 * back to a default.
 */
module Env {
  import opened Wrappers
  import opened GoTypes
  import opened Text

  /** The process environment as `os.LookupEnv` sees it. */
  type Environment = map<string, string>

  function MissingVariable(name: string): string
  {
    "missing required environment variable: \"" + name + "\""
  }

  function NotAnInteger(name: string): string
  {
    "invalid environment variable: \"" + name + "\" is not a integer value"
  }

  const UnparsableValue: string := "failed to parse environment variable value"

  function UnparsableVariable(name: string): string
  {
    "failed to parse environment variable: \"" + name + "\""
  }

  /** Unset, or set to nothing but white space. */
  predicate Missing(env: Environment, name: string)
  {
    name !in env || |TrimSpace(env[name])| == 0
  }

  /**
   * `RequireIntEnv`. Blankness is judged on the trimmed value but the
   * number is parsed from the value as set, so padding makes it fail.
   */
  function RequireIntEnv(env: Environment, name: string): (r: Result<int, string>)
    ensures Missing(env, name) ==> r == Err(MissingVariable(name))
    ensures !Missing(env, name) ==>
      (r.Ok? <==> Atoi(env[name]).Some?) && (r.Err? ==> r.error == NotAnInteger(name))
    ensures r.Ok? ==> name in env && Atoi(env[name]) == Some(r.value) && MinInt <= r.value <= MaxInt
  {
    if Missing(env, name) then Err(MissingVariable(name))
    else
      match Atoi(env[name])
      case None => Err(NotAnInteger(name))
      case Some(v) => Ok(v)
  }

  /** `RequireStringEnv`: the trimmed value of a variable that is not missing. */
  function RequireStringEnv(env: Environment, name: string): (r: Result<string, string>)
    ensures r.Err? <==> Missing(env, name)
    ensures r.Err? ==> r.error == MissingVariable(name)
    ensures r.Ok? ==> r.value != [] && !IsSpace(r.value[0]) && !IsSpace(r.value[|r.value| - 1])
  {
    if Missing(env, name) then Err(MissingVariable(name))
    else
      TrimSpaceShape(env[name]);
      Ok(TrimSpace(env[name]))
  }

  /** `ReadIntEnv`: RequireIntEnv with the default in place of either error. */
  function ReadIntEnv(env: Environment, name: string, defaultValue: int): (r: int)
    ensures r == (match RequireIntEnv(env, name) case Ok(v) => v case Err(_) => defaultValue)
  {
    if name !in env || |TrimSpace(env[name])| == 0 then defaultValue
    else
      match Atoi(env[name])
      case None => defaultValue
      case Some(v) => v
  }

  /** `ReadStringEnv`: RequireStringEnv with the default in place of the error. */
  function ReadStringEnv(env: Environment, name: string, defaultValue: string): (r: string)
    ensures r == (match RequireStringEnv(env, name) case Ok(v) => v case Err(_) => defaultValue)
  {
    if name !in env || |TrimSpace(env[name])| == 0 then defaultValue
    else TrimSpace(env[name])
  }

  /**
   * `parseBoolValue`. The switch lists "true", "1", "yes" and "y", then
   * "false", "0", "no" and "n", but a Go case whose body is empty does not
   * fall through to the next one: it leaves the switch and reaches the
   * error below it. Only "y" and "n" reach a `return` inside the switch.
   */
  function ParseBoolValue(value: string): (r: Result<bool, string>)
    ensures r == Ok(true) <==> ToLower(TrimSpace(value)) == "y"
    ensures r == Ok(false) <==> ToLower(TrimSpace(value)) == "n"
    ensures r.Err? ==> r.error == UnparsableValue
  {
    var key := ToLower(TrimSpace(value));
    if key == "y" then Ok(true)
    else if key == "n" then Ok(false)
    else Err(UnparsableValue)
  }

  /** `RequireBoolEnv`: parse the trimmed value; a parse error is reported with the variable's name. */
  function RequireBoolEnv(env: Environment, name: string): (r: Result<bool, string>)
    ensures Missing(env, name) ==> r == Err(MissingVariable(name))
    ensures !Missing(env, name) ==> r.Err? ==> r.error == UnparsableVariable(name)
    ensures r.Ok? ==> name in env && ParseBoolValue(env[name]) == r
  {
    match RequireStringEnv(env, name)
    case Err(e) => Err(e)
    case Ok(value) =>
      TrimSpaceIdempotent(env[name]);
      match ParseBoolValue(value)
      case Err(_) => Err(UnparsableVariable(name))
      case Ok(b) => Ok(b)
  }

  /**
   * `ReadBoolEnv`: read the value with "true" or "false" (the default
   * written out) as the fallback, and give the default on a parse error.
   */
  function ReadBoolEnv(env: Environment, name: string, defaultValue: bool): (r: bool)
    ensures r != defaultValue ==> name in env && ParseBoolValue(env[name]) == Ok(r)
  {
    FallbackWordsDoNotParse();
    TrimSpaceIdempotent(if name in env then env[name] else "");
    var value := ReadStringEnv(env, name, if defaultValue then "true" else "false");
    match ParseBoolValue(value)
    case Err(_) => defaultValue
    case Ok(b) => b
  }

  // ---------------------------------------------------------------------------
  // Properties
  // ---------------------------------------------------------------------------

  /** A variable set to the decimal form of an `int` reads back as that number. */
  lemma RequireIntEnvOfFormat(env: Environment, name: string, n: int)
    requires MinInt <= n <= MaxInt
    requires name in env && env[name] == FormatInt(n)
    ensures RequireIntEnv(env, name) == Ok(n)
    ensures ReadIntEnv(env, name, 0) == n
  {
    var s := FormatInt(n);
    assert s[0] == '-' || IsDigit(s[0]);
    NumberRuneIsNotSpace(s[0]);
    TrimSpaceEmptyIffAllSpace(s);
    AtoiFormatInt(n);
  }

  /** A number with white space around it is reported as not an integer. */
  lemma RequireIntEnvRejectsPadding(env: Environment, name: string)
    requires name in env && !Missing(env, name)
    requires IsSpace(env[name][0]) || IsSpace(env[name][|env[name]| - 1])
    ensures RequireIntEnv(env, name) == Err(NotAnInteger(name))
  {
    var s := env[name];
    if IsSpace(s[0]) {
      AtoiRejectsLeadingSpace(s);
    } else {
      AtoiRejectsTrailingSpace(s);
    }
  }

  /**
   * What RequireStringEnv keeps: the value minus white space at both ends,
   * never empty.
   */
  lemma RequireStringEnvShape(env: Environment, name: string)
    requires !Missing(env, name)
    ensures var v, s := RequireStringEnv(env, name).value, env[name];
      exists i :: 0 <= i <= |s| - |v| && s == s[..i] + v + s[i + |v|..]
        && AllSpace(s[..i]) && AllSpace(s[i + |v|..])
  {
    var v, s := RequireStringEnv(env, name).value, env[name];
    TrimSpaceShape(s);
    var i := LeadingSpace(s);
    assert s == s[..i] + s[i..i + |v|] + s[i + |v|..];
  }

  /** Re-reading a trimmed value gives it back: RequireStringEnv is idempotent on its own output. */
  lemma RequireStringEnvIdempotent(env: Environment, name: string, other: string)
    requires !Missing(env, name)
    ensures RequireStringEnv(env[other := RequireStringEnv(env, name).value], other) == RequireStringEnv(env, name)
  {
    var v := RequireStringEnv(env, name).value;
    TrimSpaceIdempotent(env[name]);
  }

  /** A lower-case word without white space other than "y" and "n" does not parse. */
  lemma ParseBoolValueRejectsWord(w: string)
    requires w != [] && IsLowerAscii(w) && w != "y" && w != "n"
    ensures ParseBoolValue(w) == Err(UnparsableValue)
  {
    TrimSpaceOfTrimmed(w);
    ToLowerOfLower(w);
  }

  /** Only "y" and "n" parse: the other six words the switch lists are errors. */
  lemma ParseBoolValueRejectsListedWords(w: string)
    requires w in ["true", "1", "yes", "false", "0", "no"]
    ensures ParseBoolValue(w) == Err(UnparsableValue)
  {
    ParseBoolValueRejectsWord(w);
  }

  /** Case and surrounding white space do not matter: "Y" or "y" padded with spaces is true. */
  lemma ParseBoolValueOfPaddedY(pre: string, c: char, post: string)
    requires AllSpace(pre) && AllSpace(post)
    requires c == 'y' || c == 'Y'
    ensures ParseBoolValue(pre + [c] + post) == Ok(true)
  {
    TrimSpacePadded(pre, [c], post);
  }

  /** Likewise "N" or "n" is false. */
  lemma ParseBoolValueOfPaddedN(pre: string, c: char, post: string)
    requires AllSpace(pre) && AllSpace(post)
    requires c == 'n' || c == 'N'
    ensures ParseBoolValue(pre + [c] + post) == Ok(false)
  {
    TrimSpacePadded(pre, [c], post);
  }

  /**
   * RequireBoolEnv succeeds exactly on a present variable whose trimmed,
   * lower-cased value is "y" or "n"; otherwise it reports the variable as
   * missing or as unparsable.
   */
  lemma RequireBoolEnvOutcome(env: Environment, name: string)
    ensures Missing(env, name) ==> RequireBoolEnv(env, name) == Err(MissingVariable(name))
    ensures RequireBoolEnv(env, name) == Ok(true) <==>
      !Missing(env, name) && ToLower(TrimSpace(env[name])) == "y"
    ensures RequireBoolEnv(env, name) == Ok(false) <==>
      !Missing(env, name) && ToLower(TrimSpace(env[name])) == "n"
    ensures !Missing(env, name) && RequireBoolEnv(env, name).Err? ==>
      RequireBoolEnv(env, name).error == UnparsableVariable(name)
  {
    if !Missing(env, name) {
      TrimSpaceIdempotent(env[name]);
    }
  }

  /** The two fallbacks ReadBoolEnv may use never parse. */
  lemma FallbackWordsDoNotParse()
    ensures ParseBoolValue("true").Err? && ParseBoolValue("false").Err?
  {
    ParseBoolValueRejectsListedWords("true");
    ParseBoolValueRejectsListedWords("false");
  }

  /**
   * ReadBoolEnv is RequireBoolEnv with the default in place of either
   * error: the written-out default it falls back on never parses, so an
   * unset or blank variable, like an unparsable one, gives the default.
   */
  lemma ReadBoolEnvAgrees(env: Environment, name: string, defaultValue: bool)
    ensures ReadBoolEnv(env, name, defaultValue) ==
      match RequireBoolEnv(env, name) case Ok(b) => b case Err(_) => defaultValue
  {
    FallbackWordsDoNotParse();
  }

  /** In particular a variable set to "true" reads as the default, even a false one. */
  lemma ReadBoolEnvIgnoresTrue(env: Environment, name: string)
    requires name in env && env[name] == "true"
    ensures ReadBoolEnv(env, name, false) == false
    ensures RequireBoolEnv(env, name) == Err(UnparsableVariable(name))
  {
    TrimSpaceOfTrimmed("true");
    ParseBoolValueRejectsListedWords("true");
    ReadBoolEnvAgrees(env, name, false);
  }
}
