/**
  Configuration loading, as in internal/config/config.go. The process
  environment is a map from variable names to values; a variable that is
  absent reads as the empty string, as with `os.Getenv`. Durations are
  nanoseconds, like Go's `time.Duration`.
*/
module Config {
  import opened Wrappers
  import opened Strings
  import opened Decimal

  const Second: int := 1_000_000_000
  const Minute: int := 60 * Second

  type Environment = map<string, string>

  /** `os.Getenv`. */
  function Getenv(env: Environment, key: string): string {
    if key in env then env[key] else ""
  }

  /** `getEnv`: the variable's value, or `fallback` when it is empty or unset. */
  function GetEnv(env: Environment, key: string, fallback: string): (r: string)
    ensures Getenv(env, key) == "" ==> r == fallback
    ensures Getenv(env, key) != "" ==> r == Getenv(env, key)
    ensures fallback != "" ==> r != ""
  {
    var value := Getenv(env, key);
    if value != "" then value else fallback
  }

  /** `getEnvAsInt`: the variable's value as a decimal integer, or `fallback` when it is empty or not an integer. */
  function GetEnvAsInt(env: Environment, key: string, fallback: int): (r: int)
    ensures Getenv(env, key) == "" ==> r == fallback
    ensures ParseInt64(Getenv(env, key)).None? ==> r == fallback
    ensures ParseInt64(Getenv(env, key)).Some? ==> r == ParseInt64(Getenv(env, key)).value
  {
    var value := Getenv(env, key);
    if value == "" then fallback
    else match ParseInt64(value)
      case None => fallback
      case Some(parsed) => parsed
  }

  /** A variable holding the decimal text of an integer reads back as that integer. */
  lemma GetEnvAsIntReadsFormatted(env: Environment, key: string, n: int, fallback: int)
    requires Int64Min <= n <= Int64Max
    requires key in env && env[key] == FormatInt(n)
    ensures GetEnvAsInt(env, key, fallback) == n
  {
    ParseFormatRoundTrip(n);
  }

  /** `clampInt`. */
  function ClampInt(value: int, min: int, max: int): (r: int)
    ensures min <= max ==> min <= r <= max
    ensures min <= value <= max ==> r == value
    ensures value < min ==> r == min
    ensures min <= value && max < value ==> r == max
  {
    if value < min then min
    else if value > max then max
    else value
  }

  /** Clamping twice to the same range is clamping once. */
  lemma ClampIdempotent(value: int, min: int, max: int)
    requires min <= max
    ensures ClampInt(ClampInt(value, min, max), min, max) == ClampInt(value, min, max)
  {
  }

  /** `Config`. */
  datatype Config = Config(
    port: string,
    gitHubToken: string,
    gitHubOwner: string,
    gitHubRepo: string,
    dataDir: string,
    requiredUaKeyword: string,
    redisAddr: string,
    redisPassword: string,
    redisDb: int,
    redisKeyPrefix: string,
    issuesPath: string,
    rateWindow: int,
    challengeTtl: int,
    timestampSkew: int,
    duplicateWindow: int,
    powDifficultyBits: int,
    signatureFailThreshold: int,
    signatureBlockDuration: int,
    challengeLimitPerWindow: int,
    submitLimitPerWindow: int,
    queryLimitPerWindow: int)

  /** `Config{}`: every field at its zero value. */
  const ZeroConfig: Config := Config("", "", "", "", "", "", "", "", 0, "", "", 0, 0, 0, 0, 0, 0, 0, 0, 0, 0)

  const MissingTokenMessage: string := "缺少 GITHUB_TOKEN"

  /** What `Load` returns: the configuration and, on failure, the error's message. */
  datatype Loaded = Loaded(config: Config, error: Option<string>)

  /** The fields `Load` sets without looking at the environment. */
  predicate HasFixedFields(c: Config) {
    && c.issuesPath == "/v1/feedback/issues"
    && c.rateWindow == 15 * Minute
    && c.challengeTtl == 120 * Second
    && c.timestampSkew == 90 * Second
    && c.duplicateWindow == 10 * Minute
    && c.signatureFailThreshold == 5
    && c.signatureBlockDuration == 10 * Minute
  }

  /** `Load`: the configuration from the environment, refused when `GITHUB_TOKEN` is empty. */
  function Load(env: Environment): (r: Loaded)
    ensures r.error.Some? <==> Getenv(env, "GITHUB_TOKEN") == ""
    ensures r.error.Some? ==> r.config == ZeroConfig && r.error.value == MissingTokenMessage
    ensures r.error.None? ==> HasFixedFields(r.config) && 0 <= r.config.powDifficultyBits <= 30
    ensures r.error.None? ==> r.config.gitHubToken == Getenv(env, "GITHUB_TOKEN") && r.config.gitHubToken != ""
  {
    var cfg := Config(
      GetEnv(env, "PORT", "8080"),
      Getenv(env, "GITHUB_TOKEN"),
      GetEnv(env, "GITHUB_OWNER", "Eric-Terminal"),
      GetEnv(env, "GITHUB_REPO", "ETOS-LLM-Studio"),
      GetEnv(env, "DATA_DIR", "./data"),
      GetEnv(env, "REQUIRED_UA_KEYWORD", "ETOS LLM Studio"),
      TrimSpace(Getenv(env, "REDIS_ADDR")),
      Getenv(env, "REDIS_PASSWORD"),
      GetEnvAsInt(env, "REDIS_DB", 0),
      GetEnv(env, "REDIS_KEY_PREFIX", "els-feedback"),
      "/v1/feedback/issues",
      15 * Minute,
      120 * Second,
      90 * Second,
      10 * Minute,
      ClampInt(GetEnvAsInt(env, "POW_DIFFICULTY_BITS", 20), 0, 30),
      5,
      10 * Minute,
      GetEnvAsInt(env, "CHALLENGE_LIMIT_PER_WINDOW", 30),
      GetEnvAsInt(env, "SUBMIT_LIMIT_PER_WINDOW", 6),
      GetEnvAsInt(env, "QUERY_LIMIT_PER_WINDOW", 60));
    if cfg.gitHubToken == "" then Loaded(ZeroConfig, Some(MissingTokenMessage))
    else Loaded(cfg, None)
  }

  /** With only a token in the environment, every other field takes its default. */
  lemma LoadDefaults(token: string)
    requires token != ""
    ensures Load(map["GITHUB_TOKEN" := token]) == Loaded(Config(
      "8080", token, "Eric-Terminal", "ETOS-LLM-Studio", "./data", "ETOS LLM Studio",
      "", "", 0, "els-feedback", "/v1/feedback/issues",
      15 * Minute, 120 * Second, 90 * Second, 10 * Minute, 20, 5, 10 * Minute, 30, 6, 60), None)
  {
    var env := map["GITHUB_TOKEN" := token];
    assert TrimSpace("") == "";
  }

  /** Out-of-range proof-of-work difficulties are clamped: 99 becomes 30, -3 becomes 0. */
  lemma PowDifficultyClamped(env: Environment)
    requires Getenv(env, "GITHUB_TOKEN") != ""
    ensures ParseInt64(Getenv(env, "POW_DIFFICULTY_BITS")) == Some(99) ==> Load(env).config.powDifficultyBits == 30
    ensures ParseInt64(Getenv(env, "POW_DIFFICULTY_BITS")) == Some(-3) ==> Load(env).config.powDifficultyBits == 0
  {
  }
}
