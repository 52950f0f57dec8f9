/** Settings lookup of app/src/config.py and worker/src/config.py, whose
    `override_value` and log-level lookup are the same code: a setting is read
    from the process environment under its upper-cased name and converted to
    the type of its default. The environment is a map from variable name to
    text; what `int(text)` accepts belongs to Python and is a parameter. */
module Config {
  import opened Wrappers
  import opened Text

  /** A setting's value: the defaults in both modules are `bool`, `int` or
      `str`. */
  datatype Value = BoolV(b: bool) | IntV(i: int) | StrV(s: string)

  /** Both values have the same Python type. */
  predicate SameType(a: Value, b: Value)
  {
    (a.BoolV? && b.BoolV?) || (a.IntV? && b.IntV?) || (a.StrV? && b.StrV?)
  }

  /** `TRUE_CONVERSIONS`: the lower-cased texts that read as True. */
  const TrueConversions: seq<string> := ["true", "t", "1"]

  /** `int(text)` raised ValueError on the variable's text. */
  datatype ConfigError = ValueError(text: string)

  /** `override_value(key, default)`: the environment variable named
      `key.upper()` if it is set, converted to the default's type (a bool
      default reads True iff the lower-cased text is in TRUE_CONVERSIONS),
      otherwise the default itself. */
  function OverrideValue(env: map<string, string>, key: string, default: Value,
                         parseInt: string -> Option<int>): (r: Result<Value, ConfigError>)
    ensures Upper(key) !in env ==> r == Success(default)
    ensures r.Success? ==> SameType(r.value, default)
    ensures default.BoolV? && Upper(key) in env ==>
      r == Success(BoolV(Lower(env[Upper(key)]) in TrueConversions))
    ensures default.StrV? && Upper(key) in env ==> r == Success(StrV(env[Upper(key)]))
    ensures r.Failure? <==> default.IntV? && Upper(key) in env && parseInt(env[Upper(key)]).None?
    ensures r.Failure? ==> r.error == ValueError(env[Upper(key)])
  {
    var name := Upper(key);
    if name !in env then Success(default)
    else
      var text := env[name];
      match default
      case BoolV(_) => Success(BoolV(Lower(text) in TrueConversions))
      case StrV(_) => Success(StrV(text))
      case IntV(_) =>
        match parseInt(text)
        case Some(n) => Success(IntV(n))
        case None => Failure(ValueError(text))
  }

  /** The log records `override_value` writes: none when the variable is
      unset; otherwise the override, with a secret value shown as five
      asterisks, and for a bool default a note that the text is cast. */
  function OverrideLog(env: map<string, string>, key: string, default: Value, secret: bool): (log: seq<string>)
    ensures Upper(key) !in env <==> log == []
  {
    var name := Upper(key);
    if name !in env then []
    else
      ["overriding variable " + key + " with value " + (if secret then "*****" else env[name])]
      + (if default.BoolV? then ["default value for " + key + " is boolean. casting to boolean"] else [])
  }

  /** The setting does not depend on the case the key is written in. */
  lemma KeyCaseIgnored(env: map<string, string>, key: string, default: Value, parseInt: string -> Option<int>)
    ensures OverrideValue(env, Lower(key), default, parseInt) == OverrideValue(env, key, default, parseInt)
  {
    UpperOfLower(key);
  }

  /** A secret setting's log records do not depend on its value: any two
      environments that set the variable log the same text. */
  lemma SecretNotLogged(env1: map<string, string>, env2: map<string, string>, key: string, default: Value)
    requires Upper(key) in env1 && Upper(key) in env2
    ensures OverrideLog(env1, key, default, true) == OverrideLog(env2, key, default, true)
    ensures OverrideLog(env1, key, default, true)[0] == "overriding variable " + key + " with value *****"
  {
  }

  /** `LOG_LEVELS`: the level names and the numbers of Python's logging
      levels. */
  const LogLevels: map<string, int> := map[
    "DEBUG" := 10,
    "INFO" := 20,
    "WARNING" := 30,
    "ERROR" := 40,
    "CRITICAL" := 50]

  /** `LOG_LEVELS.get(name, logging.DEBUG)`. */
  function LevelOf(name: string): (level: int)
    ensures name in LogLevels ==> level == LogLevels[name]
    ensures name !in LogLevels ==> level == 10
  {
    if name in LogLevels then LogLevels[name] else 10
  }

  /** `LOG_LEVEL`: the level named by LOG_LEVEL, "INFO" when unset. */
  function LogLevel(env: map<string, string>): (level: int)
    ensures level in LogLevels.Values
  {
    var name := OverrideValue(env, "log_level", StrV("INFO"), _ => None);
    assert LogLevels["DEBUG"] in LogLevels.Values;
    assert name.value.s in LogLevels ==> LogLevels[name.value.s] in LogLevels.Values;
    LevelOf(name.value.s)
  }

  /** Unset, the level is INFO; a known name gives its own level; an unknown
      name, including a known one written in lower case, gives DEBUG; the level is always one of the
      five. */
  lemma LogLevelCases(env: map<string, string>)
    ensures "LOG_LEVEL" !in env ==> LogLevel(env) == 20
    ensures "LOG_LEVEL" in env && env["LOG_LEVEL"] in LogLevels ==> LogLevel(env) == LogLevels[env["LOG_LEVEL"]]
    ensures "LOG_LEVEL" in env && env["LOG_LEVEL"] !in LogLevels ==> LogLevel(env) == 10
    ensures "LOG_LEVEL" in env && env["LOG_LEVEL"] == "info" ==> LogLevel(env) == 10
    ensures LogLevel(env) in LogLevels.Values
  {
    assert Upper("log_level") == "LOG_LEVEL";
    assert LogLevels["DEBUG"] == 10;
    var v := LevelOf(OverrideValue(env, "log_level", StrV("INFO"), _ => None).value.s);
    assert v == LogLevels["DEBUG"] || v == LogLevels["INFO"] || v == LogLevels["WARNING"]
      || v == LogLevels["ERROR"] || v == LogLevels["CRITICAL"];
  }
}
