/** Application configuration: the component records, the checks their construction runs, the
    validation `get_config` applies, and the process-wide instance. The environment is a map
    from variable names to values; a variable that is unset is absent from it. */
module AppConfiguration {
  import opened Strings
  import opened Exceptions

  type Env = map<string, string>

  function Getenv(env: Env, key: string): Option<string> {
    if key in env then Some(env[key]) else None
  }

  /** Testing mode: `ENVIRONMENT` is "testing", or `PYTEST_CURRENT_TEST` is set and non-empty. */
  predicate TestingMode(env: Env) {
    Getenv(env, "ENVIRONMENT") == Some("testing") || Truthy(Getenv(env, "PYTEST_CURRENT_TEST"))
  }

  // ---------------------------------------------------------------- Discord settings

  datatype DiscordConfig = DiscordConfig(token: Option<string>, botId: Option<string> := None,
                                         serverId: Option<string> := None, commandPrefix: string := "!",
                                         maxMessages: int := 1000, shardCount: Option<int> := None)

  const DiscordTokenKey := "DISCORD_BOT_TOKEN"

  const MissingTokenMessage := "Discord bot token is required. Please set " + DiscordTokenKey + " in your environment."

  /** `DiscordConfig.__post_init__`: outside testing mode a missing or empty token raises. */
  function CheckDiscordConfig(env: Env, c: DiscordConfig): (r: Result<DiscordConfig>)
    ensures r.Ok? <==> TestingMode(env) || Truthy(c.token)
    ensures r.Ok? ==> r.value == c
    ensures r.Err? ==> r.error == ConfigurationError(MissingTokenMessage, Some(DiscordTokenKey))
  {
    if TestingMode(env) then Ok(c)
    else if !Truthy(c.token) then Err(ConfigurationError(MissingTokenMessage, Some(DiscordTokenKey)))
    else Ok(c)
  }

  // ---------------------------------------------------------------- API keys

  datatype ApiConfig = ApiConfig(weatherapiKey: Option<string> := None, currencyapiKey: Option<string> := None,
                                 localtimeKey: Option<string> := None, googleApiKey: Option<string> := None,
                                 geoapifyApiKey: Option<string> := None, groqApiKey: Option<string> := None,
                                 acqinApiKey: Option<string> := None)

  /** The attributes `APIConfig.__post_init__` requires, in the order it checks them. */
  const RequiredApiKeys: seq<string> := ["weatherapi_key", "currencyapi_key"]

  /** `getattr(config, name)` for the required attributes. */
  function ApiKeyValue(c: ApiConfig, name: string): Option<string> {
    if name == "weatherapi_key" then c.weatherapiKey
    else if name == "currencyapi_key" then c.currencyapiKey
    else None
  }

  /** The environment variable reported for an attribute: upper-cased, with "KEY" spelled
      "API_KEY". */
  function EnvKey(attribute: string): string {
    Replace(Upper(attribute), "KEY", "API_KEY")
  }

  /** An attribute named `<name>_key`, with no 'k' in `<name>`, is reported as
      `<NAME>_API_KEY`: only the trailing "KEY" is rewritten. */
  lemma EnvKeyOfKeyAttribute(name: string)
    requires forall i :: 0 <= i < |name| ==> name[i] != 'k' && name[i] != 'K'
    ensures EnvKey(name + "_key") == Upper(name) + "_API_KEY"
  {
    var a := Upper(name) + "_";
    assert Upper(name + "_key") == a + "KEY";
    assert forall i :: 0 <= i < |a| ==> a[i] != 'K' by {
      forall i | 0 <= i < |a| ensures a[i] != 'K' {
        if i < |name| { assert a[i] == UpperChar(name[i]); }
      }
    }
    ReplaceAtEnd(a, "KEY", "API_KEY");
    assert a + "API_KEY" == Upper(name) + "_API_KEY";
  }

  /** The weather key is reported as WEATHERAPI_API_KEY. */
  lemma EnvKeyWeather(attribute: string)
    requires attribute == "weatherapi_key"
    ensures EnvKey(attribute) == "WEATHERAPI_API_KEY"
  {
    assert Upper(attribute) == "WEATHERAPI_" + "KEY";
    ReplaceAtEnd("WEATHERAPI_", "KEY", "API_KEY");
  }

  /** The first of `names` whose value is missing or empty. */
  function FirstMissing(c: ApiConfig, names: seq<string>): (r: Option<string>)
    ensures r.None? <==> forall i :: 0 <= i < |names| ==> Truthy(ApiKeyValue(c, names[i]))
    ensures r.Some? ==> exists i :: 0 <= i < |names| && names[i] == r.value && !Truthy(ApiKeyValue(c, names[i]))
                                    && forall j :: 0 <= j < i ==> Truthy(ApiKeyValue(c, names[j]))
  {
    if names == [] then None
    else if !Truthy(ApiKeyValue(c, names[0])) then Some(names[0])
    else
      var r := FirstMissing(c, names[1..]);
      assert forall i :: 1 <= i < |names| ==> names[i] == names[1..][i - 1];
      r
  }

  function MissingKeyMessage(envKey: string): string {
    "Required API key " + envKey + " is missing. Please set it in your environment."
  }

  function MissingKeyError(attribute: string): CocobotException {
    ConfigurationError(MissingKeyMessage(EnvKey(attribute)), Some(EnvKey(attribute)))
  }

  /** `APIConfig.__post_init__`: outside testing mode the weather key and then the currency key
      must be present and non-empty; the first missing one is reported. */
  function CheckApiConfig(env: Env, c: ApiConfig): (r: Result<ApiConfig>)
    ensures r.Ok? <==> TestingMode(env) || (Truthy(c.weatherapiKey) && Truthy(c.currencyapiKey))
    ensures r.Ok? ==> r.value == c
    ensures r.Err? && !Truthy(c.weatherapiKey) ==> r.error == MissingKeyError("weatherapi_key")
    ensures r.Err? && Truthy(c.weatherapiKey) ==> r.error == MissingKeyError("currencyapi_key")
  {
    assert RequiredApiKeys[0] == "weatherapi_key" && RequiredApiKeys[1] == "currencyapi_key";
    if TestingMode(env) then Ok(c)
    else
      match FirstMissing(c, RequiredApiKeys)
      case Some(attribute) => Err(MissingKeyError(attribute))
      case None => Ok(c)
  }

  // ---------------------------------------------------------------- the other components

  /** The remaining components. Their defaults, like the environment name and the debug flag
      of `AppConfig`, are read from the environment once, when the module is imported; those
      values are inputs here (`ImportDefaults`). */
  datatype DatabaseConfig = DatabaseConfig(url: string, poolSize: int, echo: bool)
  datatype RateLimitConfig = RateLimitConfig(defaultCommandsPerMinute: int := 10, userGlobalPerMinute: int := 20,
                                             channelPerMinute: int := 15, guildPerMinute: int := 50)
  datatype LoggingConfig = LoggingConfig(level: string, filePath: string, maxBytes: int, backupCount: int,
                                         format: string)
  datatype CacheConfig = CacheConfig(enabled: bool, redisUrl: Option<string>, defaultTtl: int)
  datatype SecurityConfig = SecurityConfig(maxContentLength: int, allowedMentions: bool, enableCors: bool)
  datatype ImportDefaults = ImportDefaults(environment: string, debug: bool, database: DatabaseConfig,
                                           logging: LoggingConfig, cache: CacheConfig, security: SecurityConfig)

  datatype AppConfig = AppConfig(version: string, name: string, description: string, environment: string,
                                 debug: bool, discord: DiscordConfig, api: ApiConfig, database: DatabaseConfig,
                                 rateLimit: RateLimitConfig, logging: LoggingConfig, cache: CacheConfig,
                                 security: SecurityConfig)

  const Version := "3.3.0"
  const AppName := "cocobot"
  const AppDescription := "A feature-rich Discord bot for the Thailand Discord server"

  /** The Discord settings `AppConfig` builds from the environment. */
  function DiscordFromEnv(env: Env): DiscordConfig {
    DiscordConfig(Getenv(env, "DISCORD_BOT_TOKEN"), Getenv(env, "DISCORD_BOT_ID"), Getenv(env, "DISCORD_SERVER_ID"))
  }

  /** The API keys `AppConfig` builds from the environment (the Geoapify variable is read
      under the name `GEOAPFIY_API_KEY`). */
  function ApiFromEnv(env: Env): ApiConfig {
    ApiConfig(Getenv(env, "WEATHERAPI_API_KEY"), Getenv(env, "CURRENCYAPI_API_KEY"), Getenv(env, "LOCALTIME_API_KEY"),
              Getenv(env, "GOOGLE_API_KEY"), Getenv(env, "GEOAPFIY_API_KEY"), Getenv(env, "GROQ_API_KEY"),
              Getenv(env, "ACQIN_API_KEY"))
  }

  /** `AppConfig(...)` with its `__post_init__`: each component given is kept as it is; each
      one missing is built, the Discord and API ones from the environment with their checks. */
  function NewAppConfig(env: Env, defaults: ImportDefaults, discord: Option<DiscordConfig> := None,
                        api: Option<ApiConfig> := None, database: Option<DatabaseConfig> := None,
                        rateLimit: Option<RateLimitConfig> := None, logging: Option<LoggingConfig> := None,
                        cache: Option<CacheConfig> := None, security: Option<SecurityConfig> := None)
    : (r: Result<AppConfig>)
    ensures discord.Some? && api.Some? ==> r.Ok?
    ensures TestingMode(env) ==> r.Ok?
    ensures discord.None? && CheckDiscordConfig(env, DiscordFromEnv(env)).Err? ==>
      r == Err(ConfigurationError(MissingTokenMessage, Some(DiscordTokenKey)))
    ensures (discord.Some? || CheckDiscordConfig(env, DiscordFromEnv(env)).Ok?) && api.None? &&
            CheckApiConfig(env, ApiFromEnv(env)).Err? ==>
      r == Err(CheckApiConfig(env, ApiFromEnv(env)).error)
    ensures r.Err? ==>
      (discord.None? && CheckDiscordConfig(env, DiscordFromEnv(env)).Err?) ||
      (api.None? && CheckApiConfig(env, ApiFromEnv(env)).Err?)
    ensures r.Ok? ==>
      && r.value.discord == (if discord.Some? then discord.value else DiscordFromEnv(env))
      && r.value.api == (if api.Some? then api.value else ApiFromEnv(env))
      && r.value.database == (if database.Some? then database.value else defaults.database)
      && r.value.rateLimit == (if rateLimit.Some? then rateLimit.value else RateLimitConfig())
      && r.value.logging == (if logging.Some? then logging.value else defaults.logging)
      && r.value.cache == (if cache.Some? then cache.value else defaults.cache)
      && r.value.security == (if security.Some? then security.value else defaults.security)
      && r.value.environment == defaults.environment && r.value.debug == defaults.debug
  {
    var d := if discord.Some? then Ok(discord.value) else CheckDiscordConfig(env, DiscordFromEnv(env));
    if d.Err? then Err(d.error)
    else
      var a := if api.Some? then Ok(api.value) else CheckApiConfig(env, ApiFromEnv(env));
      if a.Err? then Err(a.error)
      else
        Ok(AppConfig(Version, AppName, AppDescription, defaults.environment, defaults.debug, d.value, a.value,
                     if database.Some? then database.value else defaults.database,
                     if rateLimit.Some? then rateLimit.value else RateLimitConfig(),
                     if logging.Some? then logging.value else defaults.logging,
                     if cache.Some? then cache.value else defaults.cache,
                     if security.Some? then security.value else defaults.security))
  }

  // ---------------------------------------------------------------- validation

  const ValidEnvironments: seq<string> := ["development", "staging", "production"]

  function EnvironmentMessage(environment: string): string {
    "Invalid environment '" + environment + "'. Must be one of ['development', 'staging', 'production']"
  }

  /** The checks of `validate_config`, in order: whether each passes, and the key it reports. */
  function ValidationChecks(c: AppConfig): seq<(bool, string)> {
    [(Truthy(c.discord.token), DiscordTokenKey),
     (Truthy(c.api.weatherapiKey), "WEATHERAPI_API_KEY"),
     (Truthy(c.api.currencyapiKey), "CURRENCYAPI_API_KEY"),
     (c.environment in ValidEnvironments, "ENVIRONMENT")]
  }

  /** `validate_config`: true when every check passes; otherwise the first failing check
      raises a configuration error naming its key. */
  function ValidateConfig(c: AppConfig): (r: Result<bool>)
    ensures r.Ok? <==> forall i :: 0 <= i < 4 ==> ValidationChecks(c)[i].0
    ensures r.Ok? ==> r.value
    ensures r.Err? ==> r.error.ConfigurationError?
    ensures r.Err? ==>
      exists i :: 0 <= i < 4 && !ValidationChecks(c)[i].0 && r.error.configKey == Some(ValidationChecks(c)[i].1)
                  && forall j :: 0 <= j < i ==> ValidationChecks(c)[j].0
  {
    var checks := ValidationChecks(c);
    assert checks[0] == (Truthy(c.discord.token), DiscordTokenKey);
    assert checks[1] == (Truthy(c.api.weatherapiKey), "WEATHERAPI_API_KEY");
    assert checks[2] == (Truthy(c.api.currencyapiKey), "CURRENCYAPI_API_KEY");
    assert checks[3] == (c.environment in ValidEnvironments, "ENVIRONMENT");
    if !Truthy(c.discord.token) then
      Err(ConfigurationError("Discord token is required", Some(DiscordTokenKey)))
    else if !Truthy(c.api.weatherapiKey) then
      Err(ConfigurationError("WeatherAPI key is required", Some("WEATHERAPI_API_KEY")))
    else if !Truthy(c.api.currencyapiKey) then
      Err(ConfigurationError("CurrencyAPI key is required", Some("CURRENCYAPI_API_KEY")))
    else if c.environment !in ValidEnvironments then
      Err(ConfigurationError(EnvironmentMessage(c.environment), Some("ENVIRONMENT")))
    else Ok(true)
  }

  /** Outside testing mode, a configuration built from the environment has already passed the
      token and key checks, so validating it can only fail on the environment name. */
  lemma BuiltConfigFailsOnlyOnEnvironment(env: Env, defaults: ImportDefaults)
    requires !TestingMode(env) && NewAppConfig(env, defaults).Ok?
    ensures ValidateConfig(NewAppConfig(env, defaults).value).Ok?
            <==> defaults.environment in ValidEnvironments
  {
    var c := NewAppConfig(env, defaults).value;
    assert CheckDiscordConfig(env, DiscordFromEnv(env)).Ok?;
    assert CheckApiConfig(env, ApiFromEnv(env)).Ok?;
  }

  // ---------------------------------------------------------------- loading

  /** What `get_config` ends in: a configuration, or the process exiting with a status. */
  datatype Startup = Started(config: AppConfig) | Exited(status: int)

  /** `get_config`: testing mode builds without validating; otherwise any error while building
      or validating ends the process with status 1. */
  function GetConfig(env: Env, defaults: ImportDefaults): (r: Startup)
    ensures TestingMode(env) ==> r == Started(NewAppConfig(env, defaults).value)
    ensures !TestingMode(env) ==>
      (r.Started? <==> NewAppConfig(env, defaults).Ok? && ValidateConfig(NewAppConfig(env, defaults).value).Ok?)
    ensures r.Started? ==> NewAppConfig(env, defaults) == Ok(r.config)
    ensures r.Exited? ==> r.status == 1
  {
    var built := NewAppConfig(env, defaults);
    if TestingMode(env) then Started(built.value)
    else if built.Err? then Exited(1)
    else if ValidateConfig(built.value).Err? then Exited(1)
    else Started(built.value)
  }

  /** The module-level `_config`. */
  class ConfigHolder {
    var config: Option<AppConfig>

    constructor()
      ensures config.None?
    {
      config := None;
    }

    /** `get_global_config`: built on the first call; later calls return the stored
        configuration whatever the environment has become. */
    method GetGlobalConfig(env: Env, defaults: ImportDefaults) returns (r: Startup)
      modifies this
      ensures old(config).Some? ==> r == Started(old(config).value) && config == old(config)
      ensures old(config).None? ==> r == GetConfig(env, defaults)
      ensures old(config).None? ==> config == (if r.Started? then Some(r.config) else None)
    {
      if config.Some? {
        return Started(config.value);
      }
      r := GetConfig(env, defaults);
      if r.Started? {
        config := Some(r.config);
      }
    }

    /** `reset_config`: the next `get_global_config` builds again. */
    method ResetConfig()
      modifies this
      ensures config.None?
    {
      config := None;
    }
  }
}
