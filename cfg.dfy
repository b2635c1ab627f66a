/**
 * The configuration record of internal/cfg/config.go (the fields the checks
 * read) and validateConfigValues of internal/cfg/utils.go: an ordered chain
 * of checks where the first failing one decides the error.
 */
module Cfg {
  import opened Common

  /** Go's `uint16`. */
  type Uint16 = x: nat | x < 0x1_0000

  datatype DatabaseConfig = DatabaseConfig(
    dbType: string,
    host: string,
    port: Uint16,
    username: string,
    password: string,
    name: string,
    extraArgs: map<string, string>)

  datatype ServerConfig = ServerConfig(
    host: string,
    port: Uint16,
    useTLS: bool,
    tlsCertificate: string,
    tlsPrivateKey: string,
    useCache: bool,
    cacheCapacity: nat,
    useCORS: bool,
    corsOrigins: seq<string>)

  datatype Config = Config(urlPrefix: string, database: DatabaseConfig, server: ServerConfig)

  /** One constructor per error message of validateConfigValues. */
  datatype ConfigError =
    | HostRequired
    | PortRequired
    | UsernameRequired
    | PasswordRequired
    | NameRequired
    | SqliteNameRequired
    | InvalidType(dbType: string)
    | TLSCertificateRequired
    | TLSPrivateKeyRequired
    | CORSOriginRequired
    | CacheCapacityNotPositive

  /** `validateConfigValues`: the error of the first failing check, in the order the checks are listed by `Checks`. */
  function ValidateConfigValues(conf: Config): (r: Outcome<ConfigError>)
    ensures r == FirstFailure(Checks(conf))
  {
    FirstFailureAppend(DatabaseChecks(conf.database), ServerChecks(conf.server));
    FirstFailureUnfolds(DatabaseChecks(conf.database));
    FirstFailureUnfolds(ServerChecks(conf.server));
    var d := conf.database;
    var srv := conf.server;
    if d.dbType == "postgresql" && d.host == "" then Fail(HostRequired)
    else if d.dbType == "postgresql" && d.port == 0 then Fail(PortRequired)
    else if d.dbType == "postgresql" && d.username == "" then Fail(UsernameRequired)
    else if d.dbType == "postgresql" && d.password == "" then Fail(PasswordRequired)
    else if d.dbType == "postgresql" && d.name == "" then Fail(NameRequired)
    else if d.dbType != "postgresql" && d.dbType == "sqlite3" && d.name == "" then Fail(SqliteNameRequired)
    else if d.dbType != "postgresql" && d.dbType != "sqlite3" then Fail(InvalidType(d.dbType))
    else if srv.useTLS && srv.tlsCertificate == "" then Fail(TLSCertificateRequired)
    else if srv.useTLS && srv.tlsPrivateKey == "" then Fail(TLSPrivateKeyRequired)
    else if srv.useCORS && |srv.corsOrigins| < 1 then Fail(CORSOriginRequired)
    else if srv.useCache && srv.cacheCapacity < 1 then Fail(CacheCapacityNotPositive)
    else Pass
  }

  /** A single check of the chain: whether it applies and fails, and the error it reports. */
  datatype Check = Check(fails: bool, error: ConfigError)

  /** The checks in the order the source performs them, database first. */
  function DatabaseChecks(d: DatabaseConfig): seq<Check>
  {
    if d.dbType == "postgresql" then
      [ Check(d.host == "", HostRequired),
        Check(d.port == 0, PortRequired),
        Check(d.username == "", UsernameRequired),
        Check(d.password == "", PasswordRequired),
        Check(d.name == "", NameRequired) ]
    else if d.dbType == "sqlite3" then
      [ Check(d.name == "", SqliteNameRequired) ]
    else
      [ Check(true, InvalidType(d.dbType)) ]
  }

  function ServerChecks(srv: ServerConfig): seq<Check>
  {
    [ Check(srv.useTLS && srv.tlsCertificate == "", TLSCertificateRequired),
      Check(srv.useTLS && srv.tlsPrivateKey == "", TLSPrivateKeyRequired),
      Check(srv.useCORS && |srv.corsOrigins| < 1, CORSOriginRequired),
      Check(srv.useCache && srv.cacheCapacity < 1, CacheCapacityNotPositive) ]
  }

  function Checks(conf: Config): seq<Check>
  {
    DatabaseChecks(conf.database) + ServerChecks(conf.server)
  }

  /** The error of the first failing check, or Pass when none fails. */
  function FirstFailure(cs: seq<Check>): (r: Outcome<ConfigError>)
    ensures r == Pass <==> forall i | 0 <= i < |cs| :: !cs[i].fails
    ensures r.Fail? ==> exists i | 0 <= i < |cs| :: cs[i].fails && cs[i].error == r.error && forall j | 0 <= j < i :: !cs[j].fails
  {
    if cs == [] then Pass
    else if cs[0].fails then Fail(cs[0].error)
    else
      var rest := FirstFailure(cs[1..]);
      assert forall i | 1 <= i < |cs| :: cs[i] == cs[1..][i - 1];
      rest
  }

  /** FirstFailure on a list of at most five checks, written out. */
  lemma FirstFailureUnfolds(cs: seq<Check>)
    requires |cs| <= 5
    ensures FirstFailure(cs) ==
      if |cs| > 0 && cs[0].fails then Fail(cs[0].error)
      else if |cs| > 1 && cs[1].fails then Fail(cs[1].error)
      else if |cs| > 2 && cs[2].fails then Fail(cs[2].error)
      else if |cs| > 3 && cs[3].fails then Fail(cs[3].error)
      else if |cs| > 4 && cs[4].fails then Fail(cs[4].error)
      else Pass
  {
    if |cs| > 0 { assert cs[1..][0..] == cs[1..]; }
    if |cs| > 1 { assert cs[1..][1..] == cs[2..]; }
    if |cs| > 2 { assert cs[2..][1..] == cs[3..]; }
    if |cs| > 3 { assert cs[3..][1..] == cs[4..]; }
    if |cs| > 4 { assert cs[4..][1..] == cs[5..]; }
  }

  lemma {:induction false} FirstFailureAppend(a: seq<Check>, b: seq<Check>)
    ensures FirstFailure(a + b) == if FirstFailure(a) == Pass then FirstFailure(b) else FirstFailure(a)
  {
    if a == [] {
      assert a + b == b;
    } else {
      assert (a + b)[0] == a[0];
      assert (a + b)[1..] == a[1..] + b;
      FirstFailureAppend(a[1..], b);
    }
  }

  /** Every rule the configuration must obey, stated at once. */
  predicate WellFormed(conf: Config)
  {
    var d := conf.database;
    var srv := conf.server;
    && (d.dbType == "postgresql" || d.dbType == "sqlite3")
    && (d.dbType == "postgresql" ==> d.host != "" && d.port != 0 && d.username != "" && d.password != "" && d.name != "")
    && (d.dbType == "sqlite3" ==> d.name != "")
    && (srv.useTLS ==> srv.tlsCertificate != "" && srv.tlsPrivateKey != "")
    && (srv.useCORS ==> |srv.corsOrigins| >= 1)
    && (srv.useCache ==> srv.cacheCapacity >= 1)
  }

  /** The validation passes exactly the well-formed configurations. */
  lemma ValidateAcceptsWellFormed(conf: Config)
    ensures ValidateConfigValues(conf) == Pass <==> WellFormed(conf)
  {
  }

  /** Any database type other than postgresql and sqlite3 is refused before the server section is looked at. */
  lemma UnknownTypeRefusedFirst(conf: Config)
    requires conf.database.dbType != "postgresql" && conf.database.dbType != "sqlite3"
    ensures ValidateConfigValues(conf) == Fail(InvalidType(conf.database.dbType))
  {
  }

  /** A database error always takes precedence over a server error. */
  lemma DatabaseErrorsFirst(conf: Config)
    requires FirstFailure(DatabaseChecks(conf.database)) != Pass
    ensures ValidateConfigValues(conf) == FirstFailure(DatabaseChecks(conf.database))
  {
    FirstFailureAppend(DatabaseChecks(conf.database), ServerChecks(conf.server));
  }
}
