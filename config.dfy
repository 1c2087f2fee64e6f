/**
 * Configuration: values read from the environment with defaults, then
 * validated; validation also normalises the listen address in place.
 * The process environment is passed as a map; loading a .env file is not
 * modelled.
 */
module Config {
  import opened Models
  import opened Strconv

  /** What Validate reports; each is joined with the ErrInvalidConfig sentinel. */
  datatype ConfigError = HostRequired | PortRequired | PortNotNumber {
    function Reason(): GoString {
      match this
      case HostRequired => "DB_HOST is required"
      case PortRequired => "DB_PORT is required"
      case PortNotNumber => "DB_PORT must be a number"
    }

    /**
     * errors.Join prints the ErrInvalidConfig sentinel and the reason on
     * separate lines, so every configuration error reads as one.
     */
    function Error(): (r: GoString)
      ensures |r| == |InvalidConfig| + 1 + |Reason()|
      ensures r[..|InvalidConfig|] == InvalidConfig && r[|InvalidConfig|] == '\n'
      ensures r[|InvalidConfig| + 1..] == Reason()
    {
      InvalidConfig + "\n" + Reason()
    }
  }

  /** The text of the ErrInvalidConfig sentinel. */
  const InvalidConfig: GoString := "invalid config"

  /** The three configuration errors are told apart by their texts. */
  lemma ConfigErrorTextsDistinct(e1: ConfigError, e2: ConfigError)
    ensures e1.Error() == e2.Error() <==> e1 == e2
  {
  }

  /** The process environment: the variables that are set, with their values. */
  type Env = map<GoString, GoString>

  const DefaultDBUser: GoString := "postgres"
  const DefaultDBPassword: GoString := "postgres"
  const DefaultDBName: GoString := "postgres"
  const DefaultDBHost: GoString := "localhost"
  const DefaultDBPort: GoString := "5432"
  const DefaultServerPort: GoString := ":8081"

  /** getEnv: a variable that is set wins, even when its value is empty. */
  function GetEnv(env: Env, key: GoString, defaultVal: GoString): (v: GoString)
    ensures key in env ==> v == env[key]
    ensures key !in env ==> v == defaultVal
  {
    if key in env then env[key] else defaultVal
  }

  /**
   * The checks of Validate, in order: the host must be set, then the port
   * must be set, then the port must read as an integer.
   */
  function CheckRequired(dbHost: GoString, dbPort: GoString): (err: Option<ConfigError>)
    ensures err.None? <==> dbHost != [] && Atoi(dbPort).Some?
    ensures dbHost == [] ==> err == Some(HostRequired)
    ensures dbHost != [] && dbPort == [] ==> err == Some(PortRequired)
    ensures dbHost != [] && dbPort != [] && Atoi(dbPort).None? ==> err == Some(PortNotNumber)
  {
    if dbHost == [] then Some(HostRequired)
    else if dbPort == [] then Some(PortRequired)
    else if Atoi(dbPort).None? then Some(PortNotNumber)
    else None
  }

  predicate HasColonPrefix(s: GoString) {
    |s| > 0 && s[0] == ':'
  }

  /** A non-empty listen address always ends up as ":port". */
  function NormalizeServerPort(s: GoString): (r: GoString)
    ensures s == [] || HasColonPrefix(s) ==> r == s
    ensures s != [] && !HasColonPrefix(s) ==> r == ":" + s
    ensures r == [] <==> s == []
    ensures r != [] ==> HasColonPrefix(r)
  {
    if s != [] && !HasColonPrefix(s) then ":" + s else s
  }

  lemma NormalizeServerPortIdempotent(s: GoString)
    ensures NormalizeServerPort(NormalizeServerPort(s)) == NormalizeServerPort(s)
  {
  }

  /** The default host and port pass validation. */
  lemma DefaultsPass()
    ensures CheckRequired(DefaultDBHost, DefaultDBPort) == None
  {
    AtoiItoa(5432);
    assert Decimal(5) == "5";
    assert Decimal(54) == "54";
    assert Decimal(543) == "543";
    assert Itoa(5432) == DefaultDBPort;
  }

  class Config {
    var dbUser: GoString
    var dbPassword: GoString
    var dbName: GoString
    var dbHost: GoString
    var dbPort: GoString
    var serverPort: GoString

    constructor (dbUser: GoString, dbPassword: GoString, dbName: GoString,
                 dbHost: GoString, dbPort: GoString, serverPort: GoString)
      ensures this.dbUser == dbUser && this.dbPassword == dbPassword && this.dbName == dbName
      ensures this.dbHost == dbHost && this.dbPort == dbPort && this.serverPort == serverPort
    {
      this.dbUser := dbUser;
      this.dbPassword := dbPassword;
      this.dbName := dbName;
      this.dbHost := dbHost;
      this.dbPort := dbPort;
      this.serverPort := serverPort;
    }

    /**
     * Config.Validate: reports the first failing check; when all pass it
     * prefixes the listen address with ':' if it lacks one. Only that field
     * may change.
     */
    method Validate() returns (err: Option<ConfigError>)
      modifies this`serverPort
      ensures err == CheckRequired(dbHost, dbPort)
      ensures err.None? ==> serverPort == NormalizeServerPort(old(serverPort))
      ensures err.Some? ==> serverPort == old(serverPort)
    {
      if dbHost == [] {
        return Some(HostRequired);
      }
      if dbPort == [] {
        return Some(PortRequired);
      }
      if Atoi(dbPort).None? {
        return Some(PortNotNumber);
      }
      if serverPort != [] && !HasColonPrefix(serverPort) {
        serverPort := ":" + serverPort;
      }
      return None;
    }
  }

  /** config.New: no Config at all when validation fails. */
  method New(env: Env) returns (cfg: Config?, err: Option<ConfigError>)
    ensures err == CheckRequired(GetEnv(env, "DB_HOST", DefaultDBHost), GetEnv(env, "DB_PORT", DefaultDBPort))
    ensures cfg == null <==> err.Some?
    ensures cfg != null ==>
              && fresh(cfg)
              && cfg.dbUser == GetEnv(env, "DB_USER", DefaultDBUser)
              && cfg.dbPassword == GetEnv(env, "DB_PASSWORD", DefaultDBPassword)
              && cfg.dbName == GetEnv(env, "DB_NAME", DefaultDBName)
              && cfg.dbHost == GetEnv(env, "DB_HOST", DefaultDBHost)
              && cfg.dbPort == GetEnv(env, "DB_PORT", DefaultDBPort)
              && cfg.serverPort == NormalizeServerPort(GetEnv(env, "SERVER_PORT", DefaultServerPort))
    ensures env == map[] ==>
              && cfg != null
              && cfg.dbUser == "postgres" && cfg.dbPassword == "postgres" && cfg.dbName == "postgres"
              && cfg.dbHost == "localhost" && cfg.dbPort == "5432" && cfg.serverPort == ":8081"
  {
    var c := new Config(GetEnv(env, "DB_USER", DefaultDBUser),
                        GetEnv(env, "DB_PASSWORD", DefaultDBPassword),
                        GetEnv(env, "DB_NAME", DefaultDBName),
                        GetEnv(env, "DB_HOST", DefaultDBHost),
                        GetEnv(env, "DB_PORT", DefaultDBPort),
                        GetEnv(env, "SERVER_PORT", DefaultServerPort));
    DefaultsPass();
    err := c.Validate();
    if err.Some? {
      return null, err;
    }
    return c, None;
  }
}
