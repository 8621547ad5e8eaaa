/** Start-up configuration: two variables are required, four have defaults.
    The process environment is passed in as a map. */
module Environment {
  import opened Common
  import opened Text
  import opened Seqs

  datatype Config = Config(
    port: Option<int>, nodeEnv: string, databaseUrl: string,
    jwtSecret: string, jwtExpiresIn: string, corsOrigin: string)

  const Required: seq<string> := ["DATABASE_URL", "JWT_SECRET"]
  const MissingPrefix: string := "Missing required environment variables: "

  /** A variable counts as set when it is present and not empty. */
  predicate IsSet(env: map<string, string>, name: string) {
    name in env && env[name] != ""
  }

  /** `process.env[name] || fallback`. */
  function OrDefault(env: map<string, string>, name: string, fallback: string): (v: string)
    ensures IsSet(env, name) ==> v == env[name]
    ensures !IsSet(env, name) ==> v == fallback
  {
    if IsSet(env, name) then env[name] else fallback
  }

  function Unset(env: map<string, string>): string -> bool {
    name => !IsSet(env, name)
  }

  /** The required names that are not set, in declaration order. */
  function MissingRequired(env: map<string, string>): seq<string> {
    Filter(Required, Unset(env))
  }

  function ValidateEnv(env: map<string, string>): (r: Result<Config, string>)
    ensures r.Ok? <==> IsSet(env, "DATABASE_URL") && IsSet(env, "JWT_SECRET")
    ensures !IsSet(env, "DATABASE_URL") && !IsSet(env, "JWT_SECRET") ==>
      r == Err(MissingPrefix + "DATABASE_URL, JWT_SECRET")
    ensures !IsSet(env, "DATABASE_URL") && IsSet(env, "JWT_SECRET") ==>
      r == Err(MissingPrefix + "DATABASE_URL")
    ensures IsSet(env, "DATABASE_URL") && !IsSet(env, "JWT_SECRET") ==>
      r == Err(MissingPrefix + "JWT_SECRET")
    ensures r.Ok? ==>
      && r.value.databaseUrl == env["DATABASE_URL"]
      && r.value.jwtSecret == env["JWT_SECRET"]
      && r.value.port == ParseInt(OrDefault(env, "PORT", "3001"))
      && r.value.nodeEnv == OrDefault(env, "NODE_ENV", "development")
      && r.value.jwtExpiresIn == OrDefault(env, "JWT_EXPIRES_IN", "7d")
      && r.value.corsOrigin == OrDefault(env, "CORS_ORIGIN", "http://localhost:5173")
  {
    var missing := MissingRequired(env);
    MissingNames(env);
    MissingMessages();
    if |missing| > 0 then Err(MissingPrefix + Join(missing, ", "))
    else
      Ok(Config(
        ParseInt(OrDefault(env, "PORT", "3001")),
        OrDefault(env, "NODE_ENV", "development"),
        env["DATABASE_URL"],
        env["JWT_SECRET"],
        OrDefault(env, "JWT_EXPIRES_IN", "7d"),
        OrDefault(env, "CORS_ORIGIN", "http://localhost:5173")))
  }

  /** Which names the filter keeps, in order. */
  lemma MissingNames(env: map<string, string>)
    ensures !IsSet(env, "DATABASE_URL") && !IsSet(env, "JWT_SECRET") ==> MissingRequired(env) == ["DATABASE_URL", "JWT_SECRET"]
    ensures !IsSet(env, "DATABASE_URL") && IsSet(env, "JWT_SECRET") ==> MissingRequired(env) == ["DATABASE_URL"]
    ensures IsSet(env, "DATABASE_URL") && !IsSet(env, "JWT_SECRET") ==> MissingRequired(env) == ["JWT_SECRET"]
    ensures IsSet(env, "DATABASE_URL") && IsSet(env, "JWT_SECRET") ==> MissingRequired(env) == []
  {
    assert Required[1..] == ["JWT_SECRET"];
    assert Required[1..][1..] == [];
  }

  /** The missing names as the message lists them. */
  lemma MissingMessages()
    ensures Join(["DATABASE_URL", "JWT_SECRET"], ", ") == "DATABASE_URL, JWT_SECRET"
    ensures Join(["DATABASE_URL"], ", ") == "DATABASE_URL"
    ensures Join(["JWT_SECRET"], ", ") == "JWT_SECRET"
  {
    var parts := ["DATABASE_URL", "JWT_SECRET"];
    assert parts[1..] == ["JWT_SECRET"];
    assert Join(parts, ", ") == "DATABASE_URL" + ", " + "JWT_SECRET";
  }

  /** Without PORT the server listens on 3001; an all-digit PORT is read as
      its decimal value. */
  lemma PortValue(env: map<string, string>)
    requires ValidateEnv(env).Ok?
    ensures !IsSet(env, "PORT") ==> ValidateEnv(env).value.port == Some(3001)
    ensures IsSet(env, "PORT") && AllDigits(env["PORT"]) ==> ValidateEnv(env).value.port == Some(DecimalValue(env["PORT"]))
  {
    var port := ValidateEnv(env).value.port;
    assert port == ParseInt(OrDefault(env, "PORT", "3001"));
    if IsSet(env, "PORT") {
      if AllDigits(env["PORT"]) {
        ParseIntOfDigits(env["PORT"]);
      }
    } else {
      DefaultPort();
    }
  }

  /** The default "3001" reads as 3001. */
  lemma DefaultPort()
    ensures ParseInt("3001") == Some(3001)
  {
    DefaultPortDigits();
    ParseIntOfDigits("3001");
  }

  lemma DefaultPortDigits()
    ensures AllDigits("3001") && DecimalValue("3001") == 3001
  {
    var s := "3001";
    assert s[..3] == "300" && s[..2] == "30" && s[..1] == "3";
    assert "300"[..2] == "30" && "30"[..1] == "3" && "3"[..0] == "";
  }
}
