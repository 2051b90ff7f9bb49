/**
 * Integer options of HTTP requests (`utils/convert.go`): the route
 * variables of a request are a map from names to text, and a missing or
 * malformed value gives the caller's default.
 */
module Convert {
  import opened Wrappers
  import opened GoTypes
  import opened Text
  import Env

  /** `mux.Vars(r)`: the route variables of the request. */
  type RouteVars = map<string, string>

  /** `ToInteger`: the value `strconv.Atoi` reads, or the default when it fails. */
  function ToInteger(val: string, defaultValue: int): (r: int)
    ensures Atoi(val).Some? ==> r == Atoi(val).value
    ensures Atoi(val).None? ==> r == defaultValue
  {
    match Atoi(val)
    case None => defaultValue
    case Some(v) => v
  }

  /** `GetIntOption`: ToInteger of the named route variable, the default when there is none. */
  function GetIntOption(vars: RouteVars, name: string, defaultValue: int): (r: int)
    ensures name !in vars ==> r == defaultValue
    ensures name in vars ==> r == ToInteger(vars[name], defaultValue)
  {
    if name !in vars then defaultValue
    else ToInteger(vars[name], defaultValue)
  }

  /** Every `int` written in decimal is read back, whatever the default. */
  lemma ToIntegerOfFormat(n: int, defaultValue: int)
    requires MinInt <= n <= MaxInt
    ensures ToInteger(FormatInt(n), defaultValue) == n
  {
    AtoiFormatInt(n);
  }

  /** A result other than the default is a value in the range of `int`. */
  lemma ToIntegerRange(val: string, defaultValue: int)
    requires ToInteger(val, defaultValue) != defaultValue
    ensures MinInt <= ToInteger(val, defaultValue) <= MaxInt
  {
  }

  /** Text that is blank, empty or padded with white space gives the default. */
  lemma ToIntegerOfBlank(val: string, defaultValue: int)
    requires val == [] || IsSpace(val[0]) || IsSpace(val[|val| - 1])
    ensures ToInteger(val, defaultValue) == defaultValue
  {
    if val != [] {
      if IsSpace(val[0]) {
        AtoiRejectsLeadingSpace(val);
      } else {
        AtoiRejectsTrailingSpace(val);
      }
    }
  }

  /**
   * The environment reader and the route-option reader agree: ReadIntEnv
   * checks for a blank value first, but Atoi refuses a blank value anyway.
   */
  lemma ReadIntEnvIsGetIntOption(env: Env.Environment, name: string, defaultValue: int)
    ensures Env.ReadIntEnv(env, name, defaultValue) == GetIntOption(env, name, defaultValue)
  {
    if name in env && |TrimSpace(env[name])| == 0 {
      var s := env[name];
      TrimSpaceEmptyIffAllSpace(s);
      if s != [] {
        assert IsSpace(s[0]);
      }
      ToIntegerOfBlank(s, defaultValue);
    }
  }
}
