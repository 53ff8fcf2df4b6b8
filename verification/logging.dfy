/** The pure parts of `src/utils/structured_logging.py`: secret redaction,
    level and flag parsing, the context map (MDC) and the one-shot
    configuration flag of `setup_logging`, with `get_logger` and the entry
    `log_event` builds.

    The context variable is a value passed in and returned; `None` is the
    unset variable and `Some(m)` a dictionary. The request id is a given
    string. Log records themselves, timestamps and handler objects are not
    modelled beyond the handlers' kind.
 */
module Logging {
  import opened Outcome
  import opened Json
  import opened Http
  import Text
  import Config

  // ---------------------------------------------------------------------------
  // Redaction
  // ---------------------------------------------------------------------------

  /** The keys whose values never reach a log line in clear. */
  const SensitiveKeys: set<string> := {
    "token", "github_token", "gh_token", "authorization", "password", "secret",
    "api_key", "apikey", "access_key", "private_key", "client_secret", "refresh_token"}

  /** The mask written in place of the hidden part. */
  const Mask := "***"

  /** `_redact_value` of a value already turned into its `str()`: empty stays
      empty, up to eight characters become the mask, and a longer string keeps
      only its first and last four characters around the mask. */
  function Redact(s: string): (r: string)
    ensures s == [] <==> r == []
    ensures 1 <= |s| <= 8 ==> r == Mask
    ensures |s| > 8 ==> |r| == 11 && r[..4] == s[..4] && r[4..7] == Mask && r[7..] == s[|s| - 4..]
  {
    if s == [] then s
    else if |s| <= 8 then Mask
    else s[..4] + Mask + s[|s| - 4..]
  }

  /** Redaction hides the middle: two secrets of more than eight characters
      that share their first and last four characters log alike, and so do
      any two secrets of one to eight characters. */
  lemma RedactHidesMiddle(s: string, t: string)
    requires (|s| > 8 && |t| > 8 && s[..4] == t[..4] && s[|s| - 4..] == t[|t| - 4..])
             || (1 <= |s| <= 8 && 1 <= |t| <= 8)
    ensures Redact(s) == Redact(t)
    ensures |Redact(s)| <= 11
  {
  }

  /** Redacting a redacted value changes nothing. */
  lemma RedactIdempotent(s: string)
    ensures Redact(Redact(s)) == Redact(s)
  {
    var r := Redact(s);
    if |s| > 8 {
      assert r[..4] == s[..4] && r[|r| - 4..] == s[|s| - 4..];
    }
  }

  /** `k.lower() in _SENSITIVE_KEYS` (ASCII lower-casing). */
  predicate Sensitive(k: string) {
    Text.Lower(k) in SensitiveKeys
  }

  /** The value `_redact_payload` logs under key `k`. Every decoded JSON
      value serialises, so a value under a key that is not sensitive is kept
      as it is. */
  function SafeValue(k: string, v: Json): Json {
    if Sensitive(k) then Str(Redact(PyStr(v))) else v
  }

  /** `_redact_payload`: the same keys, with the sensitive values redacted. */
  function RedactPayload(payload: map<string, Json>): (safe: map<string, Json>)
    ensures safe.Keys == payload.Keys
    ensures forall k | k in payload && !Sensitive(k) :: safe[k] == payload[k]
    ensures forall k | k in payload && Sensitive(k) :: safe[k].Str? && |safe[k].s| <= 11
  {
    var safe := map k | k in payload :: SafeValue(k, payload[k]);
    safe
  }

  /** Redacting a payload twice is redacting it once. */
  lemma RedactPayloadIdempotent(payload: map<string, Json>)
    ensures RedactPayload(RedactPayload(payload)) == RedactPayload(payload)
  {
    var once := RedactPayload(payload);
    forall k | k in once
      ensures SafeValue(k, once[k]) == once[k]
    {
      if Sensitive(k) {
        RedactIdempotent(PyStr(payload[k]));
      }
    }
  }

  // ---------------------------------------------------------------------------
  // Levels and flags
  // ---------------------------------------------------------------------------

  /** The standard `logging` level numbers by name. */
  const LevelNumbers: map<string, int> := map[
    "CRITICAL" := 50, "ERROR" := 40, "WARNING" := 30, "INFO" := 20, "DEBUG" := 10, "NOTSET" := 0]

  /** `logging.INFO`. */
  const Info := 20

  /** `_parse_level`: the name upper-cased and stripped; `None` or an unknown
      name is `INFO`. */
  function ParseLevel(value: Option<string>): (n: int)
    ensures n in LevelNumbers.Values
    ensures value.None? ==> n == Info
    ensures n != Info ==> value.Some? && Text.Strip(Text.Upper(value.value)) in LevelNumbers
  {
    assert LevelNumbers["INFO"] == Info;
    if value.None? then Info
    else
      var name := Text.Strip(Text.Upper(value.value));
      if name in LevelNumbers then LevelNumbers[name] else Info
  }

  /** A level name is read without regard to case or surrounding blanks. */
  lemma ParseLevelPadded(pre: string, w: string, post: string)
    requires Text.IsBlank(pre) && Text.IsBlank(post)
    requires w != [] && Text.Unpadded(w)
    ensures ParseLevel(Some(pre + w + post)) ==
            (if Text.Upper(w) in LevelNumbers then LevelNumbers[Text.Upper(w)] else Info)
  {
    Text.UpperUnpadded(w);
    UpperBlank(pre);
    UpperBlank(post);
    Text.UpperAppend(pre + w, post);
    Text.UpperAppend(pre, w);
    Text.StripPadded(Text.Upper(pre), Text.Upper(w), Text.Upper(post));
  }

  /** Upper-casing leaves whitespace alone. */
  lemma UpperBlank(s: string)
    requires Text.IsBlank(s)
    ensures Text.Upper(s) == s
  {
    assert forall i | 0 <= i < |s| :: Text.UpperChar(s[i]) == s[i];
  }

  /** `_env_flag(name, default=default)`: an unset variable gives the
      default; a set one is true exactly for the five true words. */
  function EnvFlag(env: Env, name: string, default: bool): (r: bool)
    ensures name !in env ==> r == default
    ensures name in env ==> (r <==> Config.BoolWord(env[name]) in Config.TrueWords)
  {
    match GetEnv(env, name)
    case None => default
    case Some(v) => Config.BoolWord(v) in Config.TrueWords
  }

  /** Unlike `_parse_bool`, a set variable outside the ten words reads as
      false, not as the default: `_env_flag` is `_parse_bool` with a false
      default once the variable is set. */
  lemma EnvFlagVersusParseBool(env: Env, name: string, default: bool)
    ensures name in env ==> EnvFlag(env, name, default) == Config.ParseBool(GetEnv(env, name), false)
    ensures name !in env ==> EnvFlag(env, name, default) == Config.ParseBool(GetEnv(env, name), default)
  {
  }

  // ---------------------------------------------------------------------------
  // Context (MDC)
  // ---------------------------------------------------------------------------

  /** The context variable: unset, or a dictionary. */
  type Context = Option<map<string, Json>>

  /** `get_context()`: a copy, empty when unset. */
  function GetContext(ctx: Context): (r: map<string, Json>)
    ensures ctx.None? ==> r == map[]
    ensures ctx.Some? ==> r == ctx.value
  {
    if ctx.None? then map[] else ctx.value
  }

  /** `set_context(key, value)`: adds or replaces one key. */
  function SetContext(ctx: Context, key: string, value: Json): (r: Context)
    ensures r.Some?
    ensures GetContext(r).Keys == GetContext(ctx).Keys + {key}
    ensures GetContext(r)[key] == value
    ensures forall k | k in GetContext(ctx) && k != key :: GetContext(r)[k] == GetContext(ctx)[k]
  {
    Some(GetContext(ctx)[key := value])
  }

  /** `clear_context(keys)`: `None` unsets the variable; a list removes those
      keys, and an unset or empty context is left as it is. */
  function ClearContext(ctx: Context, keys: Option<seq<string>>): (r: Context)
    ensures keys.None? ==> GetContext(r) == map[]
    ensures keys.Some? ==> GetContext(r).Keys == GetContext(ctx).Keys - set k | k in keys.value
    ensures forall k | k in GetContext(r) :: k in GetContext(ctx) && GetContext(r)[k] == GetContext(ctx)[k]
  {
    if keys.None? then None
    else if ctx.None? || ctx.value == map[] then ctx
    else Some(ctx.value - set k | k in keys.value)
  }

  /** Setting a key and clearing it again leaves the context without that
      key and otherwise as it was. */
  lemma SetThenClear(ctx: Context, key: string, value: Json)
    ensures GetContext(ClearContext(SetContext(ctx, key, value), Some([key]))) ==
            GetContext(ctx) - {key}
  {
    var after := GetContext(ClearContext(SetContext(ctx, key, value), Some([key])));
    assert after.Keys == (GetContext(ctx) - {key}).Keys;
  }

  /** A change made inside a `scoped_context` block. */
  datatype ContextOp = Set(key: string, value: Json) | Clear(keys: Option<seq<string>>)

  /** The context after a sequence of changes. */
  function Run(ctx: Context, ops: seq<ContextOp>): Context
    decreases |ops|
  {
    if ops == [] then ctx
    else
      var next := match ops[0]
        case Set(k, v) => SetContext(ctx, k, v)
        case Clear(keys) => ClearContext(ctx, keys);
      Run(next, ops[1..])
  }

  /** What a `scoped_context(**kwargs)` block sees, and the context once the
      block is left. */
  datatype Scoped = Scoped(merged: map<string, Json>, inside: Context, after: Context)

  /** `with scoped_context(**kwargs): <ops>`: the block starts from the
      previous context updated with `kwargs`, and leaving it resets the
      variable to what it was before, whatever the block did. */
  function ScopedContext(ctx: Context, kwargs: map<string, Json>, ops: seq<ContextOp>): (s: Scoped)
    ensures s.merged.Keys == GetContext(ctx).Keys + kwargs.Keys
    ensures forall k | k in kwargs :: s.merged[k] == kwargs[k]
    ensures forall k | k in GetContext(ctx) && k !in kwargs :: s.merged[k] == GetContext(ctx)[k]
    ensures s.after == ctx
  {
    var merged := GetContext(ctx) + kwargs;
    Scoped(merged, Run(Some(merged), ops), ctx)
  }

  /** Nested scopes unwind in order: leaving the inner one gives back the
      outer one's context, and leaving the outer one the original. */
  lemma ScopedNests(ctx: Context, outer: map<string, Json>, inner: map<string, Json>, ops: seq<ContextOp>)
    ensures var o := ScopedContext(ctx, outer, []);
            var i := ScopedContext(o.inside, inner, ops);
            i.after == Some(o.merged) && o.after == ctx
            && i.merged == GetContext(ctx) + outer + inner
  {
  }

  // ---------------------------------------------------------------------------
  // setup_logging
  // ---------------------------------------------------------------------------

  /** The handlers `setup_logging` attaches to the root logger. */
  datatype Handler =
      Console(json: bool)
    | NullHandler
    | RotatingFile(path: string, maxBytes: int, backups: int, json: bool)

  /** The module flag `_configured` and the root logger it configured. */
  datatype LogState = LogState(configured: bool, rootLevel: int, handlers: seq<Handler>)

  /** The arguments of `setup_logging`; `None` means "read the environment". */
  datatype SetupArgs = SetupArgs(level: Option<string>, jsonMode: Option<bool>, console: Option<bool>)

  /** `int(os.getenv(name, str(fallback)))`: the fallback when unset,
      otherwise the number written, or `ValueError` when it is not one. */
  function EnvInt(env: Env, name: string, fallback: int): (r: Result<int>)
    ensures name !in env ==> r == Ok(fallback)
    ensures name in env ==> (r.Ok? <==> Text.ParseInt(env[name]).Some?)
    ensures r.Err? ==> r.error == ValueError
  {
    if name !in env then Ok(fallback)
    else
      match Text.ParseInt(env[name])
      case Some(n) => Ok(n)
      case None => Err(ValueError)
  }

  /** Reading the default text gives the default number back. */
  lemma EnvIntDefault(fallback: int)
    ensures Text.ParseInt(Text.DecimalString(fallback)) == Some(fallback)
  {
    Text.ParseDecimalString(fallback);
  }

  /** The root level `setup_logging` sets: `(level or LOG_LEVEL or "INFO")`
      upper-cased, stripped and looked up. */
  function RootLevel(env: Env, args: SetupArgs): (n: int)
    ensures n in LevelNumbers.Values
  {
    var raw := if args.level.Some? then args.level else GetEnv(env, "LOG_LEVEL");
    ParseLevel(Some(Text.Strip(Text.Upper(Http.OrElse(raw.GetOr(""), "INFO")))))
  }

  /** The first handler: a console one when asked for, otherwise a null one. */
  function FirstHandler(env: Env, args: SetupArgs): Handler {
    var useJson := args.jsonMode.GetOr(EnvFlag(env, "LOG_JSON", true));
    if args.console.GetOr(EnvFlag(env, "LOG_CONSOLE", false)) then Console(useJson) else NullHandler
  }

  /** The handlers `setup_logging` adds when the flag is down, and the
      `ValueError` a malformed `LOG_MAX_BYTES` or `LOG_BACKUP_COUNT` raises
      after the first one was added. */
  function NewHandlers(env: Env, args: SetupArgs): (r: (seq<Handler>, Option<Error>))
    ensures 1 <= |r.0| <= 2
    ensures r.1.Some? ==> r.1.value == ValueError && |r.0| == 1
    ensures Text.IsBlank(EnvOrEmpty(env, "LOG_FILE")) ==> r == ([FirstHandler(env, args)], None)
  {
    var first := FirstHandler(env, args);
    var logFile := Text.Strip(EnvOrEmpty(env, "LOG_FILE"));
    if logFile == [] then ([first], None)
    else
      var maxBytes := EnvInt(env, "LOG_MAX_BYTES", 5000000);
      var backups := EnvInt(env, "LOG_BACKUP_COUNT", 3);
      if maxBytes.Err? || backups.Err? then ([first], Some(ValueError))
      else
        var useJson := args.jsonMode.GetOr(EnvFlag(env, "LOG_JSON", true));
        ([first, RotatingFile(logFile, maxBytes.value, backups.value, useJson)], None)
  }

  /** `setup_logging(...)` against the module state: a no-op once configured;
      otherwise it sets the root level, adds the console (or null) handler
      and, with `LOG_FILE` set, a rotating file handler, then raises the
      flag. A malformed `LOG_MAX_BYTES` or `LOG_BACKUP_COUNT` raises
      `ValueError` after the first two steps and leaves the flag down. */
  function SetupLogging(s: LogState, env: Env, args: SetupArgs): (r: (LogState, Option<Error>))
    ensures s.configured ==> r == (s, None)
    ensures r.1.None? <==> r.0.configured
    ensures r.1 == None || r.1 == Some(ValueError)
  {
    if s.configured then (s, None)
    else
      var added := NewHandlers(env, args);
      (LogState(added.1.None?, RootLevel(env, args), s.handlers + added.0), added.1)
  }

  /** A first call sets the root level and only ever adds handlers after
      the ones already attached. */
  lemma SetupAppends(s: LogState, env: Env, args: SetupArgs)
    requires !s.configured
    ensures var r := SetupLogging(s, env, args).0;
            r.rootLevel in LevelNumbers.Values
            && |s.handlers| < |r.handlers| && r.handlers[..|s.handlers|] == s.handlers
  {
    var added := NewHandlers(env, args);
    assert (s.handlers + added.0)[..|s.handlers|] == s.handlers;
  }

  /** Once a call has succeeded, every later call, whatever its arguments and
      environment, changes nothing. */
  lemma SetupIdempotent(s: LogState, env1: Env, args1: SetupArgs, env2: Env, args2: SetupArgs)
    requires SetupLogging(s, env1, args1).1.None?
    ensures var once := SetupLogging(s, env1, args1).0;
            SetupLogging(once, env2, args2) == (once, None)
  {
  }

  /** A failed call leaves the flag down, so the next call runs again and
      adds its handlers a second time. */
  lemma SetupRetryAddsHandlers(s: LogState, env: Env, args: SetupArgs)
    requires SetupLogging(s, env, args).1.Some?
    ensures var once := SetupLogging(s, env, args).0;
            |SetupLogging(once, env, args).0.handlers| > |once.handlers| > |s.handlers|
  {
  }
  /** `get_logger(name, level=level, json_mode=json_mode)`: runs
      `setup_logging` with no level and no console choice of its own, then
      gives the named logger its own level when `level` is not empty. The
      level of the named logger is `None` when left unset. */
  function GetLogger(s: LogState, env: Env, level: Option<string>, jsonMode: Option<bool>)
    : (r: (LogState, Option<int>, Option<Error>))
    ensures (r.0, r.2) == SetupLogging(s, env, SetupArgs(None, jsonMode, None))
    ensures r.2.None? && level.Some? && level.value != [] ==> r.1 == Some(ParseLevel(level))
    ensures r.1.Some? ==> r.2.None? && level.Some? && level.value != []
  {
    var setup := SetupLogging(s, env, SetupArgs(None, jsonMode, None));
    (setup.0, if setup.1.None? then OwnLevel(level) else None, setup.1)
  }

  /** The level `get_logger` gives the named logger: none for an absent or
      empty name, otherwise the name read as `_parse_level` reads it. */
  function OwnLevel(level: Option<string>): (n: Option<int>)
    ensures n.Some? <==> level.Some? && level.value != []
  {
    if level.Some? && level.value != [] then Some(ParseLevel(level)) else None
  }

  /** The level passed to `get_logger` never reaches the root logger: on a
      first call the root level comes from `LOG_LEVEL` alone. */
  lemma GetLoggerRootFromEnv(s: LogState, env: Env, level: Option<string>, jsonMode: Option<bool>)
    requires !s.configured
    ensures GetLogger(s, env, level, jsonMode).0.rootLevel == GetLogger(s, env, None, jsonMode).0.rootLevel
    ensures var n := GetLogger(s, env, level, jsonMode).0.rootLevel;
            GetEnv(env, "LOG_LEVEL") == None ==> n == Info
  {
    if GetEnv(env, "LOG_LEVEL") == None {
      InfoReadsAsInfo();
    }
  }

  /** The default name `"INFO"` reads as the level `INFO`. */
  lemma InfoReadsAsInfo()
    ensures ParseLevel(Some(Text.Strip(Text.Upper(Http.OrElse("", "INFO"))))) == Info
  {
    var w := "INFO";
    UpperBlankFree(w);
    assert Text.Unpadded(w);
    Text.StripKeepsTrimmed(w);
    var name := Text.Strip(Text.Upper(w));
    assert name == w;
    InfoNumber();
  }

  /** `INFO` is listed with its own number. */
  lemma InfoNumber()
    ensures "INFO" in LevelNumbers && LevelNumbers["INFO"] == Info
  {
  }

  /** Upper-casing leaves a word of capitals alone. */
  lemma UpperBlankFree(w: string)
    requires forall i | 0 <= i < |w| :: 'A' <= w[i] <= 'Z'
    ensures Text.Upper(w) == w
  {
    assert forall i | 0 <= i < |w| :: Text.UpperChar(w[i]) == w[i];
  }

  /** The message `log_event(logger, event, payload)` logs, without its
      timestamp: `event` and the request id, then the redacted payload
      spread over them, so that a payload key of the same name wins. */
  function LogEntry(event: string, rid: string, payload: map<string, Json>): (entry: map<string, Json>)
    ensures entry.Keys == {"event", "request_id"} + payload.Keys
    ensures forall k | k in payload :: entry[k] == SafeValue(k, payload[k])
    ensures "event" !in payload ==> entry["event"] == Str(event)
    ensures "request_id" !in payload ==> entry["request_id"] == Str(rid)
  {
    map["event" := Str(event), "request_id" := Str(rid)] + RedactPayload(payload)
  }

  /** No sensitive value reaches a log entry in clear: under a sensitive key
      the entry holds a redacted string of at most eleven characters. */
  lemma LogEntryRedacts(event: string, rid: string, payload: map<string, Json>, k: string)
    requires k in payload && Sensitive(k)
    ensures var e := LogEntry(event, rid, payload);
            e[k] == Str(Redact(PyStr(payload[k]))) && |e[k].s| <= 11
  {
  }
}
