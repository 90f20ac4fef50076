/** The server configuration (config/config.go): every setting is read from the environment with
    a default. The environment is a map from variable names to values; a variable that is absent
    from the map is unset. */
module Config {
  import opened Wrappers
  import opened Text

  type Env = map<string, string>

  /** `getEnv`: the variable's value when it is set and non-empty, the default otherwise. */
  function GetEnv(env: Env, key: string, default: string): (r: string)
    ensures key in env && env[key] != "" ==> r == env[key]
    ensures key !in env || env[key] == "" ==> r == default
  {
    if key in env && env[key] != "" then env[key] else default
  }

  /** An empty value is never read: the result is empty only when the default is. */
  lemma GetEnvEmptyOnlyByDefault(env: Env, key: string, default: string)
    ensures GetEnv(env, key, default) == "" <==> default == "" && (key !in env || env[key] == "")
  {
  }

  /** `getEnvAsInt`: the variable's value read by `strconv.Atoi`, or the default when it is unset,
      empty or not an int64 in decimal. */
  function GetEnvAsInt(env: Env, key: string, default: int): (r: int)
    ensures key in env && Atoi(env[key]).Some? ==> r == Atoi(env[key]).value
    ensures key !in env || Atoi(env[key]).None? ==> r == default
  {
    Atoi(GetEnv(env, key, "")).GetOr(default)
  }

  /** Any int64 written in decimal is read back as itself. */
  lemma GetEnvAsIntReads(env: Env, key: string, default: int, n: int)
    requires MinInt64 <= n <= MaxInt64
    ensures GetEnvAsInt(env[key := IntToString(n)], key, default) == n
  {
    AtoiIntToString(n);
  }

  /** Go's `strconv.ParseBool`: the accepted spellings of true and of false; anything else is an
      error (None). */
  function ParseBool(s: string): (r: Option<bool>)
    ensures r == Some(true) <==> s in {"1", "t", "T", "TRUE", "true", "True"}
    ensures r == Some(false) <==> s in {"0", "f", "F", "FALSE", "false", "False"}
  {
    if s in {"1", "t", "T", "TRUE", "true", "True"} then Some(true)
    else if s in {"0", "f", "F", "FALSE", "false", "False"} then Some(false)
    else None
  }

  /** `getEnvAsBool`: the parsed value, or the default when the variable is unset, empty or not
      one of the accepted spellings. */
  function GetEnvAsBool(env: Env, key: string, default: bool): (r: bool)
    ensures key in env && ParseBool(env[key]).Some? ==> r == ParseBool(env[key]).value
    ensures key !in env || ParseBool(env[key]).None? ==> r == default
  {
    var s := GetEnv(env, key, "");
    if s == "" then default
    else match ParseBool(s)
      case None => default
      case Some(b) => b
  }

  /** The Go spelling of a boolean is read back as itself, in any of its three cases. */
  lemma GetEnvAsBoolReads(env: Env, key: string, default: bool, b: bool)
    ensures GetEnvAsBool(env[key := if b then "true" else "false"], key, default) == b
    ensures GetEnvAsBool(env[key := if b then "TRUE" else "FALSE"], key, default) == b
    ensures GetEnvAsBool(env[key := if b then "True" else "False"], key, default) == b
  {
  }

  // ----- Load -----

  /** A `time.Duration` is an int64 count of nanoseconds. */
  const Second: int := 1_000_000_000

  /** Go's int64 multiplication wraps around modulo 2^64. */
  function WrapInt64(x: int): (r: int)
    ensures MinInt64 <= r <= MaxInt64
    ensures (r - x) % 0x1_0000_0000_0000_0000 == 0
    ensures MinInt64 <= x <= MaxInt64 ==> r == x
  {
    (x - MinInt64) % 0x1_0000_0000_0000_0000 + MinInt64
  }

  datatype ServerConfig = ServerConfig(port: string, ginMode: string, logLevel: string)
  datatype DatabaseConfig = DatabaseConfig(path: string)
  /** `cacheTtl` is a duration in nanoseconds. */
  datatype ScanConfig = ScanConfig(hostPath: string, cacheTtl: int)
  datatype WorkerConfig = WorkerConfig(count: int, concurrentFiles: int, chunkSize: int, maxRetries: int,
                                       enableVerification: bool, verifyChunkSize: int)
  datatype ZimaOSConfig = ZimaOSConfig(timeout: int)
  datatype AppConfig = AppConfig(server: ServerConfig, database: DatabaseConfig, scan: ScanConfig,
                                 worker: WorkerConfig, zimaos: ZimaOSConfig)

  /** `Load`: every setting from its variable, or its default. The scan cache lifetime is read
      in seconds and converted to a duration with int64 wrap-around. */
  function Load(env: Env): (r: AppConfig)
    ensures r.scan.cacheTtl == WrapInt64(GetEnvAsInt(env, "SCAN_CACHE_TTL", 300) * Second)
    ensures r.worker.maxRetries == GetEnvAsInt(env, "MAX_RETRIES", 3)
    ensures r.worker.enableVerification == GetEnvAsBool(env, "ENABLE_VERIFICATION", true)
    ensures r.server.port == GetEnv(env, "SERVER_PORT", "8080")
  {
    AppConfig(
      ServerConfig(GetEnv(env, "SERVER_PORT", "8080"), GetEnv(env, "GIN_MODE", "release"),
                   GetEnv(env, "LOG_LEVEL", "info")),
      DatabaseConfig(GetEnv(env, "DB_PATH", "/data/stoz.db")),
      ScanConfig(GetEnv(env, "HOST_PATH", "/host"),
                 WrapInt64(GetEnvAsInt(env, "SCAN_CACHE_TTL", 300) * Second)),
      WorkerConfig(GetEnvAsInt(env, "WORKER_COUNT", 3), GetEnvAsInt(env, "CONCURRENT_FILES", 3),
                   GetEnvAsInt(env, "CHUNK_SIZE", 10485760), GetEnvAsInt(env, "MAX_RETRIES", 3),
                   GetEnvAsBool(env, "ENABLE_VERIFICATION", true),
                   GetEnvAsInt(env, "VERIFY_CHUNK_SIZE", 1048576)),
      ZimaOSConfig(GetEnvAsInt(env, "ZIMAOS_TIMEOUT", 30)))
  }

  /** The configuration of an empty environment. */
  const Defaults: AppConfig := AppConfig(
    ServerConfig("8080", "release", "info"),
    DatabaseConfig("/data/stoz.db"),
    ScanConfig("/host", 300 * Second),
    WorkerConfig(3, 3, 10485760, 3, true, 1048576),
    ZimaOSConfig(30))

  /** With nothing set, every setting takes its default: port 8080, a 300-second scan cache,
      three workers and three retries, verification on. */
  lemma LoadEmptyIsDefaults()
    ensures Load(map[]) == Defaults
  {
  }

  /** An empty or unparseable variable counts as unset. */
  lemma LoadIgnoresBadValues(env: Env)
    requires "MAX_RETRIES" in env && Atoi(env["MAX_RETRIES"]).None?
    requires "ENABLE_VERIFICATION" in env && ParseBool(env["ENABLE_VERIFICATION"]).None?
    ensures Load(env).worker.maxRetries == 3 && Load(env).worker.enableVerification
  {
  }

  /** A cache lifetime whose nanosecond count exceeds the int64 range wraps around: from
      9223372037 seconds (just over 2^63 nanoseconds) up to 2^64 nanoseconds the duration comes
      out negative, so the scan cache is never served. */
  lemma LargeTtlWrapsNegative(env: Env, secs: int)
    requires 9223372037 <= secs <= 18446744073
    ensures Load(env["SCAN_CACHE_TTL" := IntToString(secs)]).scan.cacheTtl < 0
  {
    AtoiIntToString(secs);
    var x := secs * Second;
    assert MaxInt64 < x < 0x1_0000_0000_0000_0000;
    assert WrapInt64(x) == x - 0x1_0000_0000_0000_0000;
  }
}
