/**
 * SMTP settings of the in-memory server (email_config.go), read from the
 * process environment, given here as a map from variable name to value.
 */
module Mail {
  import opened Wrappers
  import opened Strs

  type Env = map<string, string>

  datatype EmailConfig = EmailConfig(smtpHost: string, smtpPort: int, smtpUser: string, smtpPass: string)

  /** `getEnv`: an unset and an empty variable both give the default. */
  function GetEnv(env: Env, key: string, default: string): (r: string)
    ensures (key in env && env[key] != "") ==> r == env[key]
    ensures !(key in env && env[key] != "") ==> r == default
  {
    if key in env && env[key] != "" then env[key] else default
  }

  /** The configuration that makes `sendVerificationEmail` skip sending. */
  const TestConfig := EmailConfig("test", 0, "test@example.com", "test")

  const DefaultPort := 587

  /** `getEmailConfig`. */
  function GetEmailConfig(env: Env): (c: EmailConfig)
    ensures GetEnv(env, "SMTP_USER", "") == "" || GetEnv(env, "SMTP_PASS", "") == "" ==> c == TestConfig
    ensures GetEnv(env, "SMTP_USER", "") != "" && GetEnv(env, "SMTP_PASS", "") != "" ==>
      c.smtpHost == GetEnv(env, "SMTP_HOST", "smtp.qq.com")
      && c.smtpUser == env["SMTP_USER"] && c.smtpPass == env["SMTP_PASS"]
      && c.smtpPort != 0
      && (Atoi(GetEnv(env, "SMTP_PORT", "587")).value == 0 ==> c.smtpPort == DefaultPort)
      && (Atoi(GetEnv(env, "SMTP_PORT", "587")).value != 0 ==> c.smtpPort == Atoi(GetEnv(env, "SMTP_PORT", "587")).value)
  {
    var host := GetEnv(env, "SMTP_HOST", "smtp.qq.com");
    var portStr := GetEnv(env, "SMTP_PORT", "587");
    var user := GetEnv(env, "SMTP_USER", "");
    var pass := GetEnv(env, "SMTP_PASS", "");
    var port := Atoi(portStr).value;
    var port := if port == 0 then DefaultPort else port;
    if user == "" || pass == "" then TestConfig
    else EmailConfig(host, port, user, pass)
  }

  /** Credentials set, but no host or port set: the QQ mail defaults. */
  lemma DefaultsWithCredentials(user: string, pass: string)
    requires user != "" && pass != ""
    ensures GetEmailConfig(map["SMTP_USER" := user, "SMTP_PASS" := pass])
         == EmailConfig("smtp.qq.com", 587, user, pass)
  {
    AtoiRoundTrip(587);
  }

  /** A port that does not parse falls back to 587 instead of being rejected. */
  lemma MalformedPortFallsBack(env: Env)
    requires "SMTP_USER" in env && env["SMTP_USER"] != "" && "SMTP_PASS" in env && env["SMTP_PASS"] != ""
    requires "SMTP_PORT" in env && env["SMTP_PORT"] != "" && Atoi(env["SMTP_PORT"]).err == Some(ErrSyntax)
    ensures GetEmailConfig(env).smtpPort == DefaultPort
  {
  }

  /** The configuration is in test mode exactly when a credential is missing, unless the host itself is set to "test". */
  lemma TestModeIff(env: Env)
    requires GetEnv(env, "SMTP_HOST", "smtp.qq.com") != "test"
    ensures GetEmailConfig(env).smtpHost == "test" <==>
      GetEnv(env, "SMTP_USER", "") == "" || GetEnv(env, "SMTP_PASS", "") == ""
  {
  }
}
