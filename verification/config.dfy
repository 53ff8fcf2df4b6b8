/** The environment parsers and the settings of `src/utils/config.py`.

    Only the non-interactive paths are modelled: the prompts read the
    terminal. The process environment is a map passed in, and every
    exception the module raises is an `Err` of the matching kind.
 */
module Config {
  import opened Outcome
  import opened Http
  import Text

  /** The words `_parse_bool` reads as true. */
  const TrueWords: set<string> := {"1", "true", "yes", "y", "on"}

  /** The words `_parse_bool` reads as false. */
  const FalseWords: set<string> := {"0", "false", "no", "n", "off"}

  /** No word reads both ways. */
  lemma WordsDisjoint()
    ensures forall w | w in FalseWords :: w !in TrueWords
  {
  }

  /** The word `_parse_bool` looks at: the value stripped and lower-cased. */
  function BoolWord(s: string): string {
    Text.Lower(Text.Strip(s))
  }

  /** `_parse_bool(value, default=default)`: a known word decides, anything
      else (and a missing value) gives the default. */
  function ParseBool(value: Option<string>, default: bool): (r: bool)
    ensures value.None? ==> r == default
    ensures value.Some? && BoolWord(value.value) in TrueWords ==> r
    ensures value.Some? && BoolWord(value.value) in FalseWords ==> !r
    ensures value.Some? && BoolWord(value.value) !in TrueWords && BoolWord(value.value) !in FalseWords ==> r == default
  {
    if value.None? then default
    else
      WordsDisjoint();
      var word := BoolWord(value.value);
      if word in TrueWords then true
      else if word in FalseWords then false
      else default
  }

  /** Case and surrounding whitespace do not matter: a word in capitals with
      blanks around it reads as the bare word. */
  lemma ParseBoolPadded(pre: string, w: string, post: string, default: bool)
    requires Text.IsBlank(pre) && Text.IsBlank(post)
    requires w != [] && Text.Unpadded(w)
    ensures ParseBool(Some(pre + Text.Upper(w) + post), default) == ParseBool(Some(w), default)
  {
    Text.UpperUnpadded(w);
    Text.StripPadded(pre, Text.Upper(w), post);
    Text.StripKeepsTrimmed(w);
    Text.LowerOfUpper(w);
  }

  /** A word already stripped and in lower case is looked up as it is. */
  lemma PlainWord(w: string)
    requires Text.Unpadded(w) && Text.Lower(w) == w
    ensures BoolWord(w) == w
  {
    Text.StripKeepsTrimmed(w);
  }

  /** The ten words are made of lower-case letters and digits. */
  lemma WordAlnum(w: string)
    requires w in TrueWords || w in FalseWords
    ensures forall i | 0 <= i < |w| :: 'a' <= w[i] <= 'z' || '0' <= w[i] <= '9'
  {
  }

  /** Each of the ten words reads as itself, whatever the default. */
  lemma ParseBoolWords(w: string, default: bool)
    requires w in TrueWords || w in FalseWords
    ensures ParseBool(Some(w), default) == (w in TrueWords)
  {
    WordsDisjoint();
    WordAlnum(w);
    LowerAlnum(w);
    PlainWord(w);
  }

  /** A run of lower-case letters and digits is its own `strip()` and
      `lower()`. */
  lemma LowerAlnum(w: string)
    requires forall i | 0 <= i < |w| :: 'a' <= w[i] <= 'z' || '0' <= w[i] <= '9'
    ensures Text.Unpadded(w) && Text.Lower(w) == w
  {
    assert forall i | 0 <= i < |w| :: Text.LowerChar(w[i]) == w[i];
  }

  /** Both optional bounds of `_parse_int` hold. */
  predicate InBounds(n: int, min: Option<int>, max: Option<int>) {
    (min.None? || min.value <= n) && (max.None? || n <= max.value)
  }

  /** `_parse_int(value, default=default, min_value=min, max_value=max)`: a
      blank, unparseable or out-of-bounds value gives the default. */
  function ParseBoundedInt(value: Option<string>, default: int, min: Option<int>, max: Option<int>): (r: int)
    ensures value.None? || Text.IsBlank(value.value) ==> r == default
    ensures r == default || (value.Some? && Text.ParseInt(value.value) == Some(r) && InBounds(r, min, max))
    ensures InBounds(default, min, max) ==> InBounds(r, min, max)
    ensures (value.Some? && Text.ParseInt(value.value).Some? && InBounds(Text.ParseInt(value.value).value, min, max))
              ==> r == Text.ParseInt(value.value).value
    ensures (value.Some? && Text.ParseInt(value.value).Some? && !InBounds(Text.ParseInt(value.value).value, min, max))
              ==> r == default
    ensures value.Some? && Text.ParseInt(value.value).None? ==> r == default
  {
    // `int()` strips its argument itself and has no reading of a blank
    // string, so the blank test and the failed parse meet in one branch.
    if value.None? then default
    else
      match Text.ParseInt(value.value)
      case None => default
      case Some(n) => if InBounds(n, min, max) then n else default
  }

  /** A number written in decimal is read back when it is within the bounds,
      and replaced by the default when it is not. */
  lemma ParseBoundedIntOfDecimal(n: int, default: int, min: Option<int>, max: Option<int>)
    ensures ParseBoundedInt(Some(Text.DecimalString(n)), default, min, max) ==
            (if InBounds(n, min, max) then n else default)
  {
    var s := Text.DecimalString(n);
    Text.DecimalStringTrimmed(n);
    Text.StripKeepsTrimmed(s);
    Text.ParseDecimalString(n);
    assert !Text.IsBlank(s) by {
      assert !Text.IsSpace(s[0]);
    }
  }

  /** `_ask_if_missing(value, label, interactive=False)`: a value with a
      non-blank character is returned stripped; otherwise `RuntimeError`. */
  function Require(value: Option<string>): (r: Result<string>)
    ensures r.Err? <==> value.None? || Text.IsBlank(value.value)
    ensures r.Err? ==> r.error == RuntimeError
    ensures r.Ok? ==> r.value != [] && Text.Unpadded(r.value)
    ensures r.Ok? ==> exists a :: 0 <= a <= |value.value| - |r.value| && r.value == value.value[a..][..|r.value|]
  {
    if value.Some? && !Text.IsBlank(value.value) then Ok(Text.Strip(value.value))
    else Err(RuntimeError)
  }

  /** Asking again for a value already obtained returns it unchanged. */
  lemma RequireIdempotent(value: Option<string>)
    requires Require(value).Ok?
    ensures Require(Some(Require(value).value)) == Require(value)
  {
    Text.StripIdempotent(value.value);
  }

  /** The two scopes the package operations work in. */
  datatype Scope = Org | User

  /** Python truthiness of an optional string: present and not empty. */
  predicate Given(s: Option<string>) {
    s.Some? && s.value != []
  }

  /** `get_username_or_org(username, org, interactive=False)`: the org wins,
      then the username, then `GH_OWNER` (stripped) taken as an org. */
  function ScopeOf(username: Option<string>, org: Option<string>, env: Env): (r: Result<(Scope, string)>)
    ensures Given(org) ==> r == Ok((Org, org.value))
    ensures r.Ok? ==> r.value.1 != []
    ensures r.Ok? && r.value.0 == User ==> !Given(org) && Given(username) && r.value == (User, username.value)
    ensures r.Err? <==> !Given(org) && !Given(username) && Text.IsBlank(EnvOrEmpty(env, "GH_OWNER"))
    ensures r.Err? ==> r.error == RuntimeError
  {
    if Given(org) then Ok((Org, org.value))
    else if Given(username) then Ok((User, username.value))
    else
      var owner := Text.Strip(EnvOrEmpty(env, "GH_OWNER"));
      if owner != [] then Ok((Org, owner)) else Err(RuntimeError)
  }

  /** With neither parameter, `GH_OWNER` alone decides, and always as an org. */
  lemma ScopeFromEnv(env: Env)
    ensures var r := ScopeOf(None, None, env);
            r.Ok? ==> r.value == (Org, Text.Strip(EnvOrEmpty(env, "GH_OWNER"))) && Text.Unpadded(r.value.1)
  {
    var owner := Text.Strip(EnvOrEmpty(env, "GH_OWNER"));
    assert !Given(None);
    assert ScopeOf(None, None, env) == (if owner != [] then Ok((Org, owner)) else Err(RuntimeError));
    assert Text.Unpadded(owner);
  }

  /** An explicit org makes the username and the environment irrelevant. */
  lemma ScopeOrgWins(username: Option<string>, org: string, env: Env)
    requires org != []
    ensures ScopeOf(username, Some(org), env) == ScopeOf(None, Some(org), map[])
  {
  }

  /** The log levels `get_social_sync_settings` accepts. */
  const Levels: set<string> := {"DEBUG", "INFO", "WARNING", "ERROR", "CRITICAL"}

  /** The largest page size the settings accept. */
  const MaxPageSize := 100

  /** The frozen dataclass `SocialSyncSettings`. */
  datatype Settings = Settings(
    githubToken: string,
    dryRun: bool,
    allowlist: seq<string>,
    blocklist: seq<string>,
    logJson: bool,
    logLevel: string,
    pageSize: int)

  /** What `SocialSyncSettings.__post_init__` checks. */
  predicate Valid(s: Settings) {
    !Text.IsBlank(s.githubToken) && 1 <= s.pageSize <= MaxPageSize
  }

  /** `SocialSyncSettings(...)`: the fields are stored as given (the token is
      stripped only for the check), or `ValueError`. */
  function NewSettings(s: Settings): (r: Result<Settings>)
    ensures r.Ok? ==> r.value == s && Valid(r.value)
    ensures r.Err? ==> r.error == ValueError && !Valid(s)
  {
    if Text.Strip(s.githubToken) == [] then Err(ValueError)
    else if !(1 <= s.pageSize <= MaxPageSize) then Err(ValueError)
    else Ok(s)
  }

  /** The keyword arguments of `get_social_sync_settings`; `None` means
      "read the environment". */
  datatype Overrides = Overrides(
    githubToken: Option<string>,
    dryRun: Option<bool>,
    allowlist: Option<seq<string>>,
    blocklist: Option<seq<string>>,
    logJson: Option<bool>,
    logLevel: Option<string>,
    pageSize: Option<int>)

  /** No override at all. */
  const NoOverrides := Overrides(None, None, None, None, None, None, None)

  /** An override if given, else the environment variable. */
  function Either(o: Option<string>, env: Env, name: string): Option<string> {
    if o.Some? then o else GetEnv(env, name)
  }

  /** The log level: `(raw or "INFO").strip().upper() or "INFO"`, and any
      name outside `Levels` becomes `"INFO"`. A missing or empty `raw` is
      `"INFO"` directly, which `.strip().upper()` leaves as it is. */
  function LevelOf(raw: Option<string>): (level: string)
    ensures level in Levels
    ensures level != "INFO" ==> raw.Some? && Text.Upper(Text.Strip(raw.value)) == level
  {
    var named := if Given(raw) then OrElse(Text.Upper(Text.Strip(raw.value)), "INFO") else "INFO";
    if named in Levels then named else "INFO"
  }

  /** A level name is read without regard to surrounding blanks, and in
      upper case. */
  lemma LevelOfPadded(pre: string, w: string, post: string)
    requires Text.IsBlank(pre) && Text.IsBlank(post)
    requires w != [] && Text.Unpadded(w)
    ensures LevelOf(Some(pre + w + post)) == (if Text.Upper(w) in Levels then Text.Upper(w) else "INFO")
  {
    var raw := pre + w + post;
    Text.StripPadded(pre, w, post);
    assert raw != [] by {
      assert |raw| >= |w| > 0;
    }
    var named := Text.Upper(w);
    assert named != [] by {
      assert |named| == |w|;
    }
    assert Text.Upper(Text.Strip(raw)) == named;
    LevelOfNamed(raw, named);
  }

  /** A given value whose stripped upper-case form is a non-empty `named`
      reads as `named` when that is a level, and as `"INFO"` otherwise. */
  lemma LevelOfNamed(raw: string, named: string)
    requires raw != [] && named != [] && Text.Upper(Text.Strip(raw)) == named
    ensures LevelOf(Some(raw)) == (if named in Levels then named else "INFO")
  {
    assert OrElse(named, "INFO") == named;
  }

  /** The page size from `SYNC_PAGE_SIZE`: out of range falls back to 100. */
  function EnvPageSize(env: Env): (n: int)
    ensures 1 <= n <= MaxPageSize
  {
    ParseBoundedInt(GetEnv(env, "SYNC_PAGE_SIZE"), MaxPageSize, Some(1), Some(MaxPageSize))
  }

  /** `get_social_sync_settings(**overrides)` with `env` as `os.environ`. */
  function SettingsFrom(env: Env, o: Overrides): (r: Result<Settings>)
    ensures r.Ok? ==> Valid(r.value) && r.value.logLevel in Levels
    ensures r.Ok? ==> r.value.githubToken != [] && Text.Unpadded(r.value.githubToken)
    ensures r.Err? ==> r.error == ValueError
    ensures r.Err? <==> Text.IsBlank(Either(o.githubToken, env, "GH_TOKEN").GetOr(""))
                        || (o.pageSize.Some? && !(1 <= o.pageSize.value <= MaxPageSize))
  {
    var token := Text.Strip(Either(o.githubToken, env, "GH_TOKEN").GetOr(""));
    if token == [] then Err(ValueError)
    else
      Text.StripIdempotent(Either(o.githubToken, env, "GH_TOKEN").GetOr(""));
      NewSettings(Settings(
        token,
        o.dryRun.GetOr(ParseBool(GetEnv(env, "SYNC_DRY_RUN"), true)),
        o.allowlist.GetOr(Text.ParseCsv(GetEnv(env, "SYNC_ALLOWLIST"))),
        o.blocklist.GetOr(Text.ParseCsv(GetEnv(env, "SYNC_BLOCKLIST"))),
        o.logJson.GetOr(ParseBool(GetEnv(env, "LOG_JSON"), true)),
        LevelOf(Either(o.logLevel, env, "LOG_LEVEL")),
        o.pageSize.GetOr(EnvPageSize(env))))
  }

  /** Every explicit argument beats its environment variable. */
  lemma SettingsOverridesWin(env: Env, o: Overrides)
    requires SettingsFrom(env, o).Ok?
    ensures var s := SettingsFrom(env, o).value;
            (o.dryRun.Some? ==> s.dryRun == o.dryRun.value)
            && (o.allowlist.Some? ==> s.allowlist == o.allowlist.value)
            && (o.blocklist.Some? ==> s.blocklist == o.blocklist.value)
            && (o.logJson.Some? ==> s.logJson == o.logJson.value)
            && (o.pageSize.Some? ==> s.pageSize == o.pageSize.value)
  {
  }

  /** With every argument given, the environment is not consulted at all. */
  lemma SettingsIgnoreEnv(env1: Env, env2: Env, o: Overrides)
    requires o.githubToken.Some? && o.dryRun.Some? && o.allowlist.Some? && o.blocklist.Some?
    requires o.logJson.Some? && o.logLevel.Some? && o.pageSize.Some?
    ensures SettingsFrom(env1, o) == SettingsFrom(env2, o)
  {
  }

  /** A `SYNC_PAGE_SIZE` outside 1..100 falls back to 100, while the same
      number passed explicitly raises `ValueError`. */
  lemma PageSizeOutOfRange(env: Env, o: Overrides, n: int)
    requires !(1 <= n <= MaxPageSize)
    requires !Text.IsBlank(Either(o.githubToken, env, "GH_TOKEN").GetOr(""))
    requires o.pageSize.None? && GetEnv(env, "SYNC_PAGE_SIZE") == Some(Text.DecimalString(n))
    ensures SettingsFrom(env, o).Ok? && SettingsFrom(env, o).value.pageSize == MaxPageSize
    ensures SettingsFrom(env, o.(pageSize := Some(n))) == Err(ValueError)
  {
    ParseBoundedIntOfDecimal(n, MaxPageSize, Some(1), Some(MaxPageSize));
  }

  /** An explicit empty token is not replaced by `GH_TOKEN`. */
  lemma EmptyTokenOverride(env: Env, o: Overrides)
    requires o.githubToken == Some("")
    ensures SettingsFrom(env, o) == Err(ValueError)
  {
  }

  /** With only a token in the environment, every other setting takes its
      default. */
  lemma SettingsDefaults(token: string)
    requires token != [] && Text.Unpadded(token)
    ensures SettingsFrom(map["GH_TOKEN" := token], NoOverrides) ==
            Ok(Settings(token, true, [], [], true, "INFO", MaxPageSize))
  {
    var env := map["GH_TOKEN" := token];
    Text.StripKeepsTrimmed(token);
    assert Either(None, env, "GH_TOKEN") == Some(token);
    assert GetEnv(env, "SYNC_DRY_RUN") == None;
    assert GetEnv(env, "SYNC_ALLOWLIST") == None;
    assert GetEnv(env, "SYNC_BLOCKLIST") == None;
    assert GetEnv(env, "LOG_JSON") == None;
    assert Either(None, env, "LOG_LEVEL") == None;
    assert EnvPageSize(env) == MaxPageSize;
  }
}
