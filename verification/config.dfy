/**
 * Configuration checks and derived values of the GORM-based backend
 * (internal/config): required settings in a fixed order, the MySQL DSN,
 * the Redis address, the JWT lifetime in hours and the run modes.
 */
module Config {
  import opened Wrappers
  import opened Strs

  datatype ServerConfig = ServerConfig(port: string, mode: string)

  datatype DatabaseConfig = DatabaseConfig(
    host: string, port: int, username: string, password: string, database: string, charset: string)

  datatype RedisConfig = RedisConfig(host: string, port: int, password: string, db: int)

  /** `expireTime` is a `time.Duration`: nanoseconds. */
  datatype JWTConfig = JWTConfig(secret: string, expireTime: int)

  datatype Config = Config(server: ServerConfig, database: DatabaseConfig, redis: RedisConfig, jwt: JWTConfig)

  const PortMissing := "服务器端口不能为空"
  const DBHostMissing := "数据库主机不能为空"
  const DBUserMissing := "数据库用户名不能为空"
  const DBNameMissing := "数据库名称不能为空"
  const JWTSecretMissing := "JWT密钥不能为空"

  /**
   * `validateConfig`: the first missing setting, checked in the order
   * server port, database host, database user, database name, JWT secret.
   */
  function ValidateConfig(c: Config): (r: Option<string>)
    ensures r == None <==>
      c.server.port != "" && c.database.host != "" && c.database.username != ""
      && c.database.database != "" && c.jwt.secret != ""
    ensures r == Some(PortMissing) <==> c.server.port == ""
    ensures r == Some(DBHostMissing) <==> c.server.port != "" && c.database.host == ""
    ensures r == Some(DBUserMissing) <==>
      c.server.port != "" && c.database.host != "" && c.database.username == ""
    ensures r == Some(DBNameMissing) <==>
      c.server.port != "" && c.database.host != "" && c.database.username != "" && c.database.database == ""
    ensures r == Some(JWTSecretMissing) <==>
      c.server.port != "" && c.database.host != "" && c.database.username != ""
      && c.database.database != "" && c.jwt.secret == ""
  {
    if c.server.port == "" then Some(PortMissing)
    else if c.database.host == "" then Some(DBHostMissing)
    else if c.database.username == "" then Some(DBUserMissing)
    else if c.database.database == "" then Some(DBNameMissing)
    else if c.jwt.secret == "" then Some(JWTSecretMissing)
    else None
  }

  /** Settings that are not checked never change the verdict. */
  lemma ValidationIgnoresOptionalSettings(c: Config, password: string, charset: string, redis: RedisConfig, mode: string)
    ensures ValidateConfig(c) == ValidateConfig(c.(server := c.server.(mode := mode),
                                                    database := c.database.(password := password, charset := charset),
                                                    redis := redis))
  {
  }

  const DSNTail := "&parseTime=True&loc=Local"

  /** `GetDSN`: `user:pass@tcp(host:port)/db?charset=cs&parseTime=True&loc=Local`. */
  function GetDSN(d: DatabaseConfig): (r: string)
    ensures d.username + ":" <= r
  {
    d.username + ":" + d.password + "@tcp(" + d.host + ":" + IntToDecimal(d.port) + ")/"
      + d.database + "?charset=" + d.charset + DSNTail
  }

  /** The user name is everything before the first colon when it has none itself. */
  lemma DSNUserRecoverable(d: DatabaseConfig)
    requires ':' !in d.username
    ensures BeforeFirst(GetDSN(d), ':') == d.username
  {
    var rest := d.password + "@tcp(" + d.host + ":" + IntToDecimal(d.port) + ")/"
      + d.database + "?charset=" + d.charset + DSNTail;
    assert GetDSN(d) == d.username + [':'] + rest;
    BeforeFirstOfConcat(d.username, ':', rest);
  }

  /**
   * Reading a DSN back: the user up to the first ':', the password up to
   * "@tcp(", the host up to ':', the port up to ")/", the database up to
   * "?charset=", and the charset up to the fixed options. `None` when a
   * separator is missing or the port is not an int64 decimal.
   */
  function ParseDSN(s: string): (r: Option<DatabaseConfig>)
    ensures r.Some? ==> BeforeFirst(s, ':') == r.value.username
  {
    var user := BeforeFirst(s, ':');
    if |user| < |s| then ParsePassword(user, s[|user| + 1..]) else None
  }

  function ParsePassword(user: string, rest: string): (r: Option<DatabaseConfig>)
    ensures r.Some? ==> r.value.username == user
  {
    var pass := BeforeFirst(rest, '@');
    if "@tcp(" <= rest[|pass|..] then ParseHost(user, pass, rest[|pass| + 5..]) else None
  }

  function ParseHost(user: string, pass: string, rest: string): (r: Option<DatabaseConfig>)
    ensures r.Some? ==> r.value.username == user
  {
    var host := BeforeFirst(rest, ':');
    if |host| < |rest| then ParsePort(user, pass, host, rest[|host| + 1..]) else None
  }

  function ParsePort(user: string, pass: string, host: string, rest: string): (r: Option<DatabaseConfig>)
    ensures r.Some? ==> r.value.username == user
  {
    var port := BeforeFirst(rest, ')');
    if ")/" <= rest[|port|..] && Atoi(port).err.None? then
      ParseDatabase(user, pass, host, Atoi(port).value, rest[|port| + 2..])
    else None
  }

  function ParseDatabase(user: string, pass: string, host: string, port: int, rest: string): (r: Option<DatabaseConfig>)
    ensures r.Some? ==> r.value.username == user
  {
    var db := BeforeFirst(rest, '?');
    if "?charset=" <= rest[|db|..] then ParseCharset(user, pass, host, port, db, rest[|db| + 9..]) else None
  }

  function ParseCharset(user: string, pass: string, host: string, port: int, db: string, rest: string): (r: Option<DatabaseConfig>)
    ensures r.Some? ==> r.value.username == user
  {
    var cs := BeforeFirst(rest, '&');
    if rest[|cs|..] == DSNTail then Some(DatabaseConfig(host, port, user, pass, db, cs)) else None
  }

  /** `c` followed by `rest`, after a `c`-free prefix: the prefix is split off and `rest` remains. */
  lemma SplitAtFirst(a: string, c: char, rest: string)
    requires c !in a
    ensures BeforeFirst(a + [c] + rest, c) == a
    ensures (a + [c] + rest)[|a|..] == [c] + rest
    ensures (a + [c] + rest)[|a| + 1..] == rest
  {
    BeforeFirstOfConcat(a, c, rest);
    assert (a + [c] + rest)[|a|..] == [c] + rest;
  }

  lemma CharsetStage(user: string, pass: string, host: string, port: int, db: string, cs: string)
    requires '&' !in cs
    ensures ParseCharset(user, pass, host, port, db, cs + DSNTail) == Some(DatabaseConfig(host, port, user, pass, db, cs))
  {
    assert cs + DSNTail == cs + ['&'] + DSNTail[1..];
    SplitAtFirst(cs, '&', DSNTail[1..]);
  }

  lemma DatabaseStage(user: string, pass: string, host: string, port: int, db: string, t5: string)
    requires '?' !in db
    ensures ParseDatabase(user, pass, host, port, db + "?charset=" + t5) == ParseCharset(user, pass, host, port, db, t5)
  {
    var t4 := db + "?charset=" + t5;
    assert t4 == db + ['?'] + ("charset=" + t5);
    SplitAtFirst(db, '?', "charset=" + t5);
    assert t4[|db| + 9..] == t5;
  }

  lemma DecimalHasNoParen(i: int)
    ensures ')' !in IntToDecimal(i)
  {
    var dec := IntToDecimal(i);
    if i < 0 {
      assert dec == "-" + NatToDecimal(-i);
      assert forall k :: 1 <= k < |dec| ==> dec[k] == NatToDecimal(-i)[k - 1];
    }
  }

  lemma PortStage(user: string, pass: string, host: string, port: int, t4: string)
    requires MinInt64 <= port <= MaxInt64
    ensures ParsePort(user, pass, host, IntToDecimal(port) + ")/" + t4) == ParseDatabase(user, pass, host, port, t4)
  {
    var dec := IntToDecimal(port);
    DecimalHasNoParen(port);
    var t3 := dec + ")/" + t4;
    assert t3 == dec + [')'] + ("/" + t4);
    SplitAtFirst(dec, ')', "/" + t4);
    assert t3[|dec| + 2..] == t4;
    AtoiRoundTrip(port);
    assert Atoi(BeforeFirst(t3, ')')) == Parsed(port, None);
  }

  lemma HostStage(user: string, pass: string, host: string, t3: string)
    requires ':' !in host
    ensures ParseHost(user, pass, host + ":" + t3) == ParsePort(user, pass, host, t3)
  {
    SplitAtFirst(host, ':', t3);
  }

  lemma PasswordStage(user: string, pass: string, t2: string)
    requires '@' !in pass
    ensures ParsePassword(user, pass + "@tcp(" + t2) == ParseHost(user, pass, t2)
  {
    var t1 := pass + "@tcp(" + t2;
    assert t1 == pass + ['@'] + ("tcp(" + t2);
    SplitAtFirst(pass, '@', "tcp(" + t2);
    assert t1[|pass| + 5..] == t2;
  }

  lemma UserStage(user: string, t1: string)
    requires ':' !in user
    ensures ParseDSN(user + [':'] + t1) == ParsePassword(user, t1)
  {
    SplitAtFirst(user, ':', t1);
  }

  /** The DSN as the user, a colon, and the rest nested segment by segment. */
  lemma DSNShape(d: DatabaseConfig)
    ensures GetDSN(d) == d.username + [':'] + (d.password + "@tcp(" + (d.host + ":" + (IntToDecimal(d.port) + ")/"
                           + (d.database + "?charset=" + (d.charset + DSNTail)))))
  {
  }

  /** The stages read back, one after another, the fields the DSN was built from. */
  lemma DSNOfFields(user: string, pass: string, host: string, port: int, db: string, cs: string)
    requires ':' !in user && '@' !in pass && ':' !in host
    requires '?' !in db && '&' !in cs && MinInt64 <= port <= MaxInt64
    ensures ParseDSN(user + [':'] + (pass + "@tcp(" + (host + ":" + (IntToDecimal(port) + ")/"
                     + (db + "?charset=" + (cs + DSNTail))))))
            == Some(DatabaseConfig(host, port, user, pass, db, cs))
  {
    var t5 := cs + DSNTail;
    var t4 := db + "?charset=" + t5;
    var t3 := IntToDecimal(port) + ")/" + t4;
    var t2 := host + ":" + t3;
    var t1 := pass + "@tcp(" + t2;
    CharsetStage(user, pass, host, port, db, cs);
    DatabaseStage(user, pass, host, port, db, t5);
    PortStage(user, pass, host, port, t4);
    HostStage(user, pass, host, t3);
    PasswordStage(user, pass, t2);
    UserStage(user, t1);
  }

  /**
   * Every field comes back from the DSN when none of them contains the
   * separator that ends it and the port is an int64.
   */
  lemma DSNRoundTrip(d: DatabaseConfig)
    requires ':' !in d.username && '@' !in d.password && ':' !in d.host
    requires '?' !in d.database && '&' !in d.charset && MinInt64 <= d.port <= MaxInt64
    ensures ParseDSN(GetDSN(d)) == Some(d)
  {
    DSNOfFields(d.username, d.password, d.host, d.port, d.database, d.charset);
    DSNShape(d);
  }

  /** Every DSN ends with the fixed parse-time and location options. */
  lemma DSNEndsWithOptions(d: DatabaseConfig)
    ensures |GetDSN(d)| >= |DSNTail| && GetDSN(d)[|GetDSN(d)| - |DSNTail|..] == DSNTail
  {
  }

  /** `GetRedisAddr`: `host:port`. */
  function GetRedisAddr(r: RedisConfig): (addr: string)
    ensures r.host + ":" <= addr
  {
    r.host + ":" + IntToDecimal(r.port)
  }

  /** A colon-free host and an int64 port are recovered from the address. */
  lemma RedisAddrRoundTrip(r: RedisConfig)
    requires ':' !in r.host && MinInt64 <= r.port <= MaxInt64
    ensures var addr := GetRedisAddr(r);
      BeforeFirst(addr, ':') == r.host && Atoi(addr[|r.host| + 1..]) == Parsed(r.port, None)
  {
    var addr := GetRedisAddr(r);
    assert addr == r.host + [':'] + IntToDecimal(r.port);
    BeforeFirstOfConcat(r.host, ':', IntToDecimal(r.port));
    assert addr[|r.host| + 1..] == IntToDecimal(r.port);
    AtoiRoundTrip(r.port);
  }

  const NanosPerHour := 3_600_000_000_000

  /** Go's integer division, which truncates toward zero. */
  function QuoTruncate(a: int, b: int): (q: int)
    requires b > 0
    ensures a >= 0 ==> q >= 0 && q * b <= a < q * b + b
    ensures a < 0 ==> q <= 0 && q * b - b < a <= q * b
  {
    var n := if a >= 0 then a else -a;
    assert n / b * b + n % b == n && 0 <= n % b < b;
    if a >= 0 then n / b else -(n / b)
  }

  /** `GetJWTExpireHours`: the lifetime truncated toward zero to whole hours. */
  function GetJWTExpireHours(j: JWTConfig): (hours: int)
    ensures j.expireTime >= 0 ==> hours * NanosPerHour <= j.expireTime < (hours + 1) * NanosPerHour
    ensures j.expireTime < 0 ==> (hours - 1) * NanosPerHour < j.expireTime <= hours * NanosPerHour
  {
    QuoTruncate(j.expireTime, NanosPerHour)
  }

  /** Truncation, not flooring: less than an hour either side of zero is zero hours. */
  lemma ExpireHoursTruncates()
    ensures GetJWTExpireHours(JWTConfig("", NanosPerHour - 1)) == 0
    ensures GetJWTExpireHours(JWTConfig("", -1)) == 0
    ensures GetJWTExpireHours(JWTConfig("", 24 * NanosPerHour)) == 24
  {
  }

  predicate IsDevelopment(s: ServerConfig) {
    s.mode == "debug" || s.mode == "development"
  }

  predicate IsProduction(s: ServerConfig) {
    s.mode == "release" || s.mode == "production"
  }

  /** No mode is both a development and a production mode; an unknown mode is neither. */
  lemma ModesExclusive(s: ServerConfig)
    ensures !(IsDevelopment(s) && IsProduction(s))
    ensures s.mode !in {"debug", "development", "release", "production"} ==> !IsDevelopment(s) && !IsProduction(s)
  {
  }
}
