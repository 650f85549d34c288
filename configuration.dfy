/**
  The pure pieces of the settings code: the deployment environment's
  name (parse and print), the e-mail client's timeout and the two choices
  the database connection options make.
 */
module Configuration {
  import opened Wrappers
  import opened StdTime

  type U16 = x: nat | x < 0x1_0000

  datatype Environment = Local | Production

  /** Environment::as_str: the canonical, lower-case name. */
  function AsStr(e: Environment): (s: string)
    ensures ToLowerAscii(s) == s
    ensures s == "local" <==> e == Local
    ensures s == "production" <==> e == Production
  {
    match e
    case Local => "local"
    case Production => "production"
  }

  /** Lower-cases one character (ASCII letters only; every other character is kept). */
  function LowerChar(c: char): char {
    if 'A' <= c <= 'Z' then (c as int + 32) as char else c
  }

  /** str::to_lowercase, restricted to ASCII letters. */
  function ToLowerAscii(s: string): (r: string)
    ensures |r| == |s|
    ensures forall i :: 0 <= i < |s| ==> r[i] == LowerChar(s[i])
  {
    if s == [] then [] else [LowerChar(s[0])] + ToLowerAscii(s[1..])
  }

  lemma ToLowerIdempotent(s: string)
    ensures ToLowerAscii(ToLowerAscii(s)) == ToLowerAscii(s)
  {
  }

  const UNSUPPORTED_SUFFIX: string :=
    " is not supported environment. Use either 'local' or 'production'"

  /**
    TryFrom<String> for Environment: the input is lower-cased first, so
    the match is case-insensitive; anything else is an error message that
    names the lower-cased input.
   */
  function TryFrom(value: string): (r: Result<Environment, string>)
    ensures r.Ok? <==> ToLowerAscii(value) in {"local", "production"}
    ensures r.Ok? ==> AsStr(r.value) == ToLowerAscii(value)
    ensures r.Err? ==> r.error == ToLowerAscii(value) + UNSUPPORTED_SUFFIX
  {
    var lower := ToLowerAscii(value);
    if lower == "local" then Ok(Local)
    else if lower == "production" then Ok(Production)
    else Err(lower + UNSUPPORTED_SUFFIX)
  }

  /** Printing an environment and parsing the name gives the environment back. */
  lemma ParsePrintRoundTrip(e: Environment)
    ensures TryFrom(AsStr(e)) == Ok(e)
  {
  }

  /** Parsing then printing gives the lower-cased input back. */
  lemma PrintParseRoundTrip(value: string)
    requires TryFrom(value).Ok?
    ensures AsStr(TryFrom(value).value) == ToLowerAscii(value)
  {
  }

  /** Two spellings that differ only in letter case parse to the same result. */
  lemma {:induction false} ParseIsCaseInsensitive(value: string)
    ensures TryFrom(value) == TryFrom(ToLowerAscii(value))
  {
    ToLowerIdempotent(value);
  }

  /**
    The environment get_configurations selects: APP_ENVIRONMENT when it is
    set, "local" otherwise; a name that does not parse stops the program.
   */
  function SelectEnvironment(appEnvironment: Option<string>): (r: Result<Environment, string>)
    ensures appEnvironment.None? ==> r == Ok(Local)
    ensures appEnvironment.Some? ==> r == TryFrom(appEnvironment.value)
  {
    match appEnvironment
    case Some(name) => TryFrom(name)
    case None => TryFrom("local")
  }

  datatype EmailClientSettings = EmailClientSettings(
    baseUrl: string,
    senderEmail: string,
    authorizationToken: string,
    timeoutMilliseconds: U64)

  /** EmailClientSettings::timeout: exactly timeout_milliseconds milliseconds. */
  function Timeout(settings: EmailClientSettings): (d: Duration)
    ensures d.Normalized()
    ensures AsMillis(d) == settings.timeoutMilliseconds
    ensures AsNanos(d) == settings.timeoutMilliseconds * 1_000_000
  {
    FromMillis(settings.timeoutMilliseconds)
  }

  datatype DatabaseSettings = DatabaseSettings(
    username: string,
    password: string,
    port: U16,
    host: string,
    databaseName: string,
    requireSsl: bool)

  datatype PgSslMode = Disable | Allow | Prefer | Require | VerifyCa | VerifyFull

  /** The connection options the settings fill in (PgConnectOptions). */
  datatype PgConnectOptions = PgConnectOptions(
    host: string,
    username: string,
    password: string,
    port: U16,
    sslMode: PgSslMode,
    database: Option<string>)

  /** DatabaseSettings::without_db: connect to the server, no database chosen. */
  function WithoutDb(settings: DatabaseSettings): (o: PgConnectOptions)
    ensures o.sslMode == Require <==> settings.requireSsl
    ensures o.sslMode == Prefer <==> !settings.requireSsl
    ensures o.database.None?
    ensures o.host == settings.host && o.username == settings.username
    ensures o.password == settings.password && o.port == settings.port
  {
    var sslMode := if settings.requireSsl then Require else Prefer;
    PgConnectOptions(settings.host, settings.username, settings.password, settings.port, sslMode, None)
  }

  /** DatabaseSettings::with_db: without_db's options plus the database name. */
  function WithDb(settings: DatabaseSettings): (o: PgConnectOptions)
    ensures o.database == Some(settings.databaseName)
    ensures o.(database := None) == WithoutDb(settings)
  {
    WithoutDb(settings).(database := Some(settings.databaseName))
  }
}
