/**
  The external role store client (`RoleRepository`): environment-driven pool
  configuration, the lazily created connection pool and its shutdown, and the
  role lookup that degrades every SQL failure to an empty list.

  The database, the environment and HikariCP's start-up are inputs: the query
  either yields its rows (each `role_name` possibly null) or fails with an
  `SQLException`, the environment is a map, and the pool's fail-fast start
  either succeeds or throws.
 */
module RoleStore {
  import opened Wrappers
  import opened Text

  /** The exceptions that matter to callers of the lookup. */
  datatype Exception =
    | SqlException                  // java.sql.SQLException
    | NumberFormatException         // Integer.parseInt / Long.parseLong of a setting
    | PoolInitializationException   // HikariCP could not open its first connection

  /**
    What the database does with the lookup's one query, which binds the user
    name as a parameter and selects the `role_name` column of that user's rows
    of `user_roles`, ordered by `role_name`: the column of every row, or an
    SQLException.
   */
  datatype QueryOutcome = Rows(roleNames: seq<Option<string>>) | QueryFailed

  /** `System.getenv`: absent keys read as null. */
  type Env = map<string, string>

  // ---------------------------------------------------------------------------
  // Settings

  /** `getEnvOrDefault`: the environment value when it is present and not blank, otherwise the default. */
  function GetEnvOrDefault(env: Env, key: string, defaultValue: string): (r: string)
    ensures key in env && !IsBlank(env[key]) ==> r == env[key]
    ensures key !in env || IsBlank(env[key]) ==> r == defaultValue
    ensures !IsBlank(defaultValue) ==> !IsBlank(r)
  {
    if key in env && !IsBlank(env[key]) then env[key] else defaultValue
  }

  predicate IsDigit(c: char) {
    '0' <= c <= '9'
  }

  predicate AllDigits(ds: string) {
    forall i :: 0 <= i < |ds| ==> IsDigit(ds[i])
  }

  /** The value of a string of decimal digits, most significant first. */
  function DigitsValue(ds: string): nat
    requires AllDigits(ds)
  {
    if ds == [] then 0 else DigitsValue(ds[..|ds| - 1]) * 10 + (ds[|ds| - 1] - '0') as int
  }

  const INT_MIN := -0x8000_0000
  const INT_MAX := 0x7fff_ffff
  const LONG_MIN := -0x8000_0000_0000_0000
  const LONG_MAX := 0x7fff_ffff_ffff_ffff

  /**
    `Integer.parseInt` (with `INT_MIN`, `INT_MAX`) and `Long.parseLong` (with
    `LONG_MIN`, `LONG_MAX`): an optional sign, at least one digit and nothing
    else; a value outside the range is rejected like a malformed one. None
    stands for NumberFormatException.
   */
  function ParseInteger(s: string, min: int, max: int): (r: Option<int>)
    ensures r.Some? ==> min <= r.value <= max
  {
    if s == [] then None
    else
      var digits := if s[0] == '-' || s[0] == '+' then s[1..] else s;
      if digits == [] || !AllDigits(digits) then None
      else
        var v: int := if s[0] == '-' then -(DigitsValue(digits) as int) else DigitsValue(digits);
        if min <= v <= max then Some(v) else None
  }

  /**
    The strings the parser accepts hold digits only, with at most a leading
    sign, and at least one digit: surrounding whitespace is rejected.
   */
  lemma ParseIntegerAccepts(s: string, min: int, max: int)
    requires ParseInteger(s, min, max).Some?
    ensures forall i :: 0 <= i < |s| ==> IsDigit(s[i]) || (i == 0 && (s[0] == '-' || s[0] == '+'))
    ensures IsDigit(s[|s| - 1])
  {
    var digits := if s[0] == '-' || s[0] == '+' then s[1..] else s;
    assert s[|s| - 1] == digits[|digits| - 1];
  }

  /**
    Every well-formed numeral is read: an optional `+` or `-` followed by one
    or more digits, leading zeros allowed, denotes its value and is accepted
    exactly when that value is in range.
   */
  lemma ParseIntegerSignedDigits(sign: string, ds: string, min: int, max: int)
    requires sign == "" || sign == "+" || sign == "-"
    requires ds != [] && AllDigits(ds)
    ensures var v := if sign == "-" then -(DigitsValue(ds) as int) else DigitsValue(ds) as int;
      ParseInteger(sign + ds, min, max) == if min <= v <= max then Some(v) else None
  {
    var s := sign + ds;
    if sign != "" {
      assert s[0] == sign[0];
      assert s[1..] == ds;
    } else {
      assert s == ds;
    }
  }

  /** So `parseInt` reads `"+10"` and `"007"`, as Java does. */
  lemma ParseIntegerExamples()
    ensures ParseInteger("+10", INT_MIN, INT_MAX) == Some(10)
    ensures ParseInteger("007", INT_MIN, INT_MAX) == Some(7)
  {
    ParseIntegerSignedDigits("+", "10", INT_MIN, INT_MAX);
    ParseIntegerSignedDigits("", "007", INT_MIN, INT_MAX);
    assert "" + "007" == "007";
  }

  /** The decimal digits of `n`, as `Long.toString` writes a non-negative value. */
  function DecimalString(n: nat): (ds: string)
    ensures ds != [] && AllDigits(ds)
  {
    var last := ['0' + (n % 10) as char];
    if n < 10 then last else DecimalString(n / 10) + last
  }

  lemma {:induction false} DecimalStringValue(n: nat)
    ensures DigitsValue(DecimalString(n)) == n
  {
    var ds := DecimalString(n);
    if n >= 10 {
      DecimalStringValue(n / 10);
      assert ds[..|ds| - 1] == DecimalString(n / 10);
    }
  }

  /** Parsing what `toString` wrote gives the value back, for every value in range, of either sign. */
  lemma ParseDecimalRoundTrip(n: int, min: int, max: int)
    requires min <= n <= max
    ensures n >= 0 ==> ParseInteger(DecimalString(n), min, max) == Some(n)
    ensures n <= 0 ==> ParseInteger("-" + DecimalString(-n), min, max) == Some(n)
  {
    if n >= 0 {
      DecimalStringValue(n);
    }
    if n <= 0 {
      DecimalStringValue(-n);
      assert ("-" + DecimalString(-n))[1..] == DecimalString(-n);
    }
  }

  /** A string whose first char is kept by `trim()` is not blank. */
  lemma NotBlank(s: string)
    requires s != [] && !IsTrimmable(s[0])
    ensures !IsBlank(s)
  {
    BlankIffAllTrimmable(s);
  }

  // ---------------------------------------------------------------------------
  // Pool configuration

  /** The HikariCP settings `getDataSource` fills in. */
  datatype PoolConfig = PoolConfig(
    jdbcUrl: string,
    username: string,
    password: string,
    driverClassName: string,
    maximumPoolSize: int,
    minimumIdle: int,
    connectionTimeout: int,
    idleTimeout: int,
    maxLifetime: int,
    connectionTestQuery: string,
    validationTimeout: int,
    poolName: string)

  /** The configuration an unset environment yields. */
  const DEFAULT_CONFIG := PoolConfig(
    "jdbc:postgresql://roles-db:5432/roles", "keycloak", "keycloak", "org.postgresql.Driver",
    10, 2, 30000, 600000, 1800000, "SELECT 1", 5000, "KeycloakExternalRolesPool")

  /** An integer setting, parsed with `Integer.parseInt`. */
  function IntSetting(env: Env, key: string, defaultValue: string): (r: Option<int>)
    ensures key in env && !IsBlank(env[key]) ==> r == ParseInteger(env[key], INT_MIN, INT_MAX)
    ensures (key !in env || IsBlank(env[key])) ==> r == ParseInteger(defaultValue, INT_MIN, INT_MAX)
    ensures r.Some? ==> INT_MIN <= r.value <= INT_MAX
  {
    ParseInteger(GetEnvOrDefault(env, key, defaultValue), INT_MIN, INT_MAX)
  }

  /** A long setting, parsed with `Long.parseLong`. */
  function LongSetting(env: Env, key: string, defaultValue: string): (r: Option<int>)
    ensures key in env && !IsBlank(env[key]) ==> r == ParseInteger(env[key], LONG_MIN, LONG_MAX)
    ensures (key !in env || IsBlank(env[key])) ==> r == ParseInteger(defaultValue, LONG_MIN, LONG_MAX)
    ensures r.Some? ==> LONG_MIN <= r.value <= LONG_MAX
  {
    ParseInteger(GetEnvOrDefault(env, key, defaultValue), LONG_MIN, LONG_MAX)
  }

  /**
    The configuration block of `getDataSource`. The string settings always have
    a value that is not blank; any numeric setting that does not parse throws
    NumberFormatException, before any pool exists.
   */
  function BuildConfig(env: Env): (r: Result<PoolConfig, Exception>)
    ensures r.Failure? ==> r.error == NumberFormatException
    ensures r.Success? ==> !IsBlank(r.value.jdbcUrl) && !IsBlank(r.value.username) && !IsBlank(r.value.password)
    ensures r.Success? ==> INT_MIN <= r.value.maximumPoolSize <= INT_MAX && INT_MIN <= r.value.minimumIdle <= INT_MAX
    ensures r.Success? <==>
      && IntSetting(env, "ROLES_DB_POOL_SIZE", "10").Some?
      && IntSetting(env, "ROLES_DB_MIN_IDLE", "2").Some?
      && LongSetting(env, "ROLES_DB_CONN_TIMEOUT", "30000").Some?
      && LongSetting(env, "ROLES_DB_IDLE_TIMEOUT", "600000").Some?
      && LongSetting(env, "ROLES_DB_MAX_LIFETIME", "1800000").Some?
    ensures r.Success? ==>
      && r.value.jdbcUrl == GetEnvOrDefault(env, "ROLES_DB_URL", "jdbc:postgresql://roles-db:5432/roles")
      && r.value.username == GetEnvOrDefault(env, "ROLES_DB_USER", "keycloak")
      && r.value.password == GetEnvOrDefault(env, "ROLES_DB_PASSWORD", "keycloak")
      && r.value.maximumPoolSize == IntSetting(env, "ROLES_DB_POOL_SIZE", "10").value
      && r.value.minimumIdle == IntSetting(env, "ROLES_DB_MIN_IDLE", "2").value
      && r.value.connectionTimeout == LongSetting(env, "ROLES_DB_CONN_TIMEOUT", "30000").value
      && r.value.idleTimeout == LongSetting(env, "ROLES_DB_IDLE_TIMEOUT", "600000").value
      && r.value.maxLifetime == LongSetting(env, "ROLES_DB_MAX_LIFETIME", "1800000").value
    ensures r.Success? ==>
      && r.value.driverClassName == DEFAULT_CONFIG.driverClassName
      && r.value.connectionTestQuery == DEFAULT_CONFIG.connectionTestQuery
      && r.value.validationTimeout == DEFAULT_CONFIG.validationTimeout
      && r.value.poolName == DEFAULT_CONFIG.poolName
  {
    var poolSize := IntSetting(env, "ROLES_DB_POOL_SIZE", "10");
    var minIdle := IntSetting(env, "ROLES_DB_MIN_IDLE", "2");
    var connTimeout := LongSetting(env, "ROLES_DB_CONN_TIMEOUT", "30000");
    var idleTimeout := LongSetting(env, "ROLES_DB_IDLE_TIMEOUT", "600000");
    var maxLifetime := LongSetting(env, "ROLES_DB_MAX_LIFETIME", "1800000");
    if poolSize.None? || minIdle.None? || connTimeout.None? || idleTimeout.None? || maxLifetime.None? then
      Failure(NumberFormatException)
    else
      NotBlank("jdbc:postgresql://roles-db:5432/roles");
      NotBlank("keycloak");
      Success(PoolConfig(
        GetEnvOrDefault(env, "ROLES_DB_URL", "jdbc:postgresql://roles-db:5432/roles"),
        GetEnvOrDefault(env, "ROLES_DB_USER", "keycloak"),
        GetEnvOrDefault(env, "ROLES_DB_PASSWORD", "keycloak"),
        "org.postgresql.Driver",
        poolSize.value, minIdle.value, connTimeout.value, idleTimeout.value, maxLifetime.value,
        "SELECT 1", 5000, "KeycloakExternalRolesPool"))
  }

  /** An integer setting left unset takes its default, as `toString` would have written it. */
  lemma UnsetIntSetting(key: string, n: nat, ds: string)
    requires n <= INT_MAX && ds == DecimalString(n)
    ensures IntSetting(map[], key, ds) == Some(n)
  {
    ParseDecimalRoundTrip(n, INT_MIN, INT_MAX);
  }

  /** A long setting left unset takes its default, as `toString` would have written it. */
  lemma UnsetLongSetting(key: string, n: nat, ds: string)
    requires n <= LONG_MAX && ds == DecimalString(n)
    ensures LongSetting(map[], key, ds) == Some(n)
  {
    ParseDecimalRoundTrip(n, LONG_MIN, LONG_MAX);
  }

  /** The numeric defaults are written as `toString` would write them. */
  lemma DefaultNumerals()
    ensures DecimalString(10) == "10" && DecimalString(2) == "2" && DecimalString(30000) == "30000"
    ensures DecimalString(600000) == "600000" && DecimalString(1800000) == "1800000"
  {
  }

  /** Each numeric setting left unset parses to its default. */
  lemma UnsetNumericSettings()
    ensures IntSetting(map[], "ROLES_DB_POOL_SIZE", "10") == Some(10)
    ensures IntSetting(map[], "ROLES_DB_MIN_IDLE", "2") == Some(2)
    ensures LongSetting(map[], "ROLES_DB_CONN_TIMEOUT", "30000") == Some(30000)
    ensures LongSetting(map[], "ROLES_DB_IDLE_TIMEOUT", "600000") == Some(600000)
    ensures LongSetting(map[], "ROLES_DB_MAX_LIFETIME", "1800000") == Some(1800000)
  {
    DefaultNumerals();
    UnsetIntSetting("ROLES_DB_POOL_SIZE", 10, "10");
    UnsetIntSetting("ROLES_DB_MIN_IDLE", 2, "2");
    UnsetLongSetting("ROLES_DB_CONN_TIMEOUT", 30000, "30000");
    UnsetLongSetting("ROLES_DB_IDLE_TIMEOUT", 600000, "600000");
    UnsetLongSetting("ROLES_DB_MAX_LIFETIME", 1800000, "1800000");
  }

  /** With no setting in the environment, the pool gets the documented defaults. */
  lemma DefaultsWhenUnset()
    ensures BuildConfig(map[]) == Success(DEFAULT_CONFIG)
  {
    UnsetNumericSettings();
  }

  // ---------------------------------------------------------------------------
  // Rows to roles

  /** The row test of the loop: `roleName != null && !roleName.trim().isEmpty()`. */
  predicate Keep(roleName: Option<string>) {
    roleName.Some? && !IsBlank(roleName.value)
  }

  /** A row is kept exactly when it is not null and holds some char above U+0020. */
  lemma KeepIff(roleName: Option<string>)
    ensures Keep(roleName) <==> roleName.Some? && exists i :: 0 <= i < |roleName.value| && !IsTrimmable(roleName.value[i])
  {
    if roleName.Some? {
      BlankIffAllTrimmable(roleName.value);
    }
  }

  /**
    The roles the loop collects from the `role_name` column: the kept values,
    in row order. None of them is blank, and there are no more of them than rows.
   */
  function FilterRoles(roleNames: seq<Option<string>>): (roles: seq<string>)
    ensures |roles| <= |roleNames|
    ensures forall i :: 0 <= i < |roles| ==> !IsBlank(roles[i])
  {
    if roleNames == [] then []
    else
      var rest := FilterRoles(roleNames[..|roleNames| - 1]);
      var last := roleNames[|roleNames| - 1];
      if Keep(last) then rest + [last.value] else rest
  }

  /** One row gives its value when the row test keeps it, and nothing otherwise. */
  lemma FilterRolesSingle(roleName: Option<string>)
    ensures FilterRoles([roleName]) == if Keep(roleName) then [roleName.value] else []
  {
    assert [roleName][..0] == [];
  }

  /**
    Filtering works row by row: the roles of two runs of rows are the roles of
    the first followed by those of the second. With `FilterRolesSingle` this
    says that every kept row adds exactly one role, at its place, duplicates
    included.
   */
  lemma {:induction false} FilterRolesAppend(a: seq<Option<string>>, b: seq<Option<string>>)
    ensures FilterRoles(a + b) == FilterRoles(a) + FilterRoles(b)
    decreases |b|
  {
    if b == [] {
      assert a + b == a;
    } else {
      var init := b[..|b| - 1];
      FilterRolesAppend(a, init);
      assert (a + b)[..|a + b| - 1] == a + init;
      assert (a + b)[|a + b| - 1] == b[|b| - 1];
    }
  }

  /** A role is in the result exactly when some row carries it and it is not blank. */
  lemma {:induction false} FilterRolesMembership(roleNames: seq<Option<string>>, role: string)
    ensures role in FilterRoles(roleNames) <==> Some(role) in roleNames && !IsBlank(role)
  {
    if roleNames != [] {
      var init := roleNames[..|roleNames| - 1];
      FilterRolesMembership(init, role);
      assert roleNames == init + [roleNames[|roleNames| - 1]];
    }
  }

  /** The kept values of the rows come in `le` order. */
  predicate KeptInOrder(roleNames: seq<Option<string>>, le: (string, string) -> bool) {
    forall i, j :: 0 <= i < j < |roleNames| && Keep(roleNames[i]) && Keep(roleNames[j]) ==>
      le(roleNames[i].value, roleNames[j].value)
  }

  predicate InOrder(roles: seq<string>, le: (string, string) -> bool) {
    forall i, j :: 0 <= i < j < |roles| ==> le(roles[i], roles[j])
  }

  /**
    Filtering keeps the order of the rows: when the kept values arrive ordered
    by `le` (as `ORDER BY role_name` asks, under the database's collation), the
    roles are ordered by `le` too. No property of `le` is needed.
   */
  lemma {:induction false} FilterRolesKeepsOrder(roleNames: seq<Option<string>>, le: (string, string) -> bool)
    requires KeptInOrder(roleNames, le)
    ensures InOrder(FilterRoles(roleNames), le)
  {
    if roleNames != [] {
      var n := |roleNames|;
      var init := roleNames[..n - 1];
      assert KeptInOrder(init, le) by {
        forall i, j | 0 <= i < j < |init| && Keep(init[i]) && Keep(init[j])
          ensures le(init[i].value, init[j].value)
        {
          assert init[i] == roleNames[i] && init[j] == roleNames[j];
        }
      }
      FilterRolesKeepsOrder(init, le);
      var rest := FilterRoles(init);
      var last := roleNames[n - 1];
      if Keep(last) {
        forall i | 0 <= i < |rest|
          ensures le(rest[i], last.value)
        {
          FilterRolesMembership(init, rest[i]);
          var k :| 0 <= k < |init| && init[k] == Some(rest[i]);
          assert roleNames[k] == init[k];
        }
        var roles := rest + [last.value];
        assert FilterRoles(roleNames) == roles;
        forall i, j | 0 <= i < j < |roles|
          ensures le(roles[i], roles[j])
        {
          if j < |rest| {
            assert roles[i] == rest[i] && roles[j] == rest[j];
            assert le(rest[i], rest[j]);
          } else {
            assert roles[i] == rest[i] && roles[j] == last.value;
          }
        }
      } else {
        assert FilterRoles(roleNames) == rest;
      }
    }
  }

  // ---------------------------------------------------------------------------
  // Pool lifecycle

  /** The static `dataSource`: never created, created and open, or closed by `shutdown`. */
  datatype PoolStatus = Absent | Open | Closed

  /** The pool's status with the number of pools ever created. */
  datatype Lifecycle = Lifecycle(status: PoolStatus, creations: nat)

  /** At most one pool is ever created, and one exists exactly when it has been. */
  predicate ValidLifecycle(l: Lifecycle) {
    l.creations <= 1 && (l.status == Absent <==> l.creations == 0)
  }

  /** Why the first-use initialisation of `getDataSource` throws, if it does; None when it creates the pool. */
  function InitFailure(env: Env, poolStartFails: bool): (e: Option<Exception>)
    ensures e.Some? ==> e.value != SqlException
    ensures e.None? <==> BuildConfig(env).Success? && !poolStartFails
  {
    if BuildConfig(env).Failure? then Some(BuildConfig(env).error)
    else if poolStartFails then Some(PoolInitializationException)
    else None
  }

  /**
    `getDataSource`: a pool that exists, open or closed, is returned as it is;
    when none exists one is created unless the initialisation throws, in which
    case the field stays null.
   */
  function AfterGetDataSource(l: Lifecycle, env: Env, poolStartFails: bool): (r: Lifecycle)
    ensures l.status != Absent ==> r == l
    ensures l.status == Absent ==> r.status != Closed
    ensures l.status == Absent ==> (r.status == Open <==> InitFailure(env, poolStartFails).None?)
    ensures r.status == Open && l.status == Absent ==> r.creations == l.creations + 1
    ensures r.status == l.status ==> r.creations == l.creations
    ensures ValidLifecycle(l) ==> ValidLifecycle(r)
  {
    if l.status == Absent && InitFailure(env, poolStartFails).None? then Lifecycle(Open, l.creations + 1) else l
  }

  /** `shutdown`: closes an open pool; a pool never created or already closed is left alone. Never creates one. */
  function AfterShutdown(l: Lifecycle): (r: Lifecycle)
    ensures r.creations == l.creations
    ensures l.status == Absent <==> r.status == Absent
    ensures r.status != Open
    ensures l.status != Open ==> r == l
    ensures ValidLifecycle(l) ==> ValidLifecycle(r)
  {
    if l.status == Open then Lifecycle(Closed, l.creations) else l
  }

  /** `getRolesForUser` touches the pool only for a user name that is not blank. */
  function AfterLookup(username: Option<string>, l: Lifecycle, env: Env, poolStartFails: bool): (r: Lifecycle)
    ensures IsNullOrBlank(username) ==> r == l
    ensures !IsNullOrBlank(username) ==> r == AfterGetDataSource(l, env, poolStartFails)
    ensures ValidLifecycle(l) ==> ValidLifecycle(r)
  {
    if IsNullOrBlank(username) then l else AfterGetDataSource(l, env, poolStartFails)
  }

  /** Shutting down twice is shutting down once. */
  lemma ShutdownIdempotent(l: Lifecycle)
    ensures AfterShutdown(AfterShutdown(l)) == AfterShutdown(l)
  {
  }

  /**
    The result of `getRolesForUser`, given the pool's status before the call.
    A blank or null user name gives the empty list. A closed pool is handed out
    as it is, and its `getConnection` throws an SQLException, so the result is
    empty as for any other SQL failure. Only the creation of a missing pool can
    throw, and never an SQLException.
   */
  function Lookup(username: Option<string>, status: PoolStatus, env: Env, poolStartFails: bool, query: QueryOutcome)
    : (r: Result<seq<string>, Exception>)
    ensures IsNullOrBlank(username) ==> r == Success([])
    ensures r.Failure? ==> status == Absent && r.error != SqlException
    ensures r.Failure? <==> !IsNullOrBlank(username) && status == Absent && InitFailure(env, poolStartFails).Some?
    ensures status != Absent ==> r.Success?
    ensures status == Closed ==> r == Success([])
    ensures query.QueryFailed? && r.Success? ==> r.value == []
    ensures r.Success? ==> forall i :: 0 <= i < |r.value| ==> !IsBlank(r.value[i])
    ensures r.Success? && query.Rows? ==> |r.value| <= |query.roleNames|
    ensures !IsNullOrBlank(username) && status == Absent && InitFailure(env, poolStartFails).Some? ==>
      r == Failure(InitFailure(env, poolStartFails).value)
    ensures (!IsNullOrBlank(username) && query.Rows? &&
             (status == Open || (status == Absent && InitFailure(env, poolStartFails).None?))) ==>
      r == Success(FilterRoles(query.roleNames))
  {
    if IsNullOrBlank(username) then Success([])
    else if status == Absent && InitFailure(env, poolStartFails).Some? then Failure(InitFailure(env, poolStartFails).value)
    else if status == Closed then Success([])
    else match query
      case QueryFailed => Success([])
      case Rows(roleNames) => Success(FilterRoles(roleNames))
  }

  /**
    For a user with a non-blank name and a pool that is open or is created by
    this call, a role is returned exactly when some row carries it and it is not blank.
   */
  lemma LookupOpenPool(username: Option<string>, status: PoolStatus, env: Env, poolStartFails: bool,
                       roleNames: seq<Option<string>>, role: string)
    requires !IsNullOrBlank(username)
    requires status == Open || (status == Absent && InitFailure(env, poolStartFails).None?)
    ensures var r := Lookup(username, status, env, poolStartFails, Rows(roleNames));
      r.Success? && (role in r.value <==> Some(role) in roleNames && !IsBlank(role))
  {
    FilterRolesMembership(roleNames, role);
  }

  /**
    Without a change in the store, asking again gives the same answer: the
    first call leaves the pool in a state where the second behaves alike.
   */
  lemma RepeatedLookupAgrees(username: Option<string>, l: Lifecycle, env: Env, poolStartFails: bool, query: QueryOutcome)
    ensures Lookup(username, AfterLookup(username, l, env, poolStartFails).status, env, poolStartFails, query)
         == Lookup(username, l.status, env, poolStartFails, query)
  {
  }

  /**
    Only `SQLException` is caught: a numeric setting with a space in front is
    not blank, so it is used, and `parseInt` rejects it. The lookup on first
    use then throws NumberFormatException instead of returning an empty list.
   */
  lemma PaddedSettingEscapes(username: Option<string>, poolStartFails: bool, query: QueryOutcome)
    requires !IsNullOrBlank(username)
    ensures Lookup(username, Absent, map["ROLES_DB_POOL_SIZE" := " 10"], poolStartFails, query)
         == Failure(NumberFormatException)
  {
    var env := map["ROLES_DB_POOL_SIZE" := " 10"];
    assert IntSetting(env, "ROLES_DB_POOL_SIZE", "10").None? by {
      BlankIffAllTrimmable(" 10");
      assert !IsTrimmable(" 10"[1]);
      assert GetEnvOrDefault(env, "ROLES_DB_POOL_SIZE", "10") == " 10";
      assert !IsDigit(" 10"[0]);
    }
    assert BuildConfig(env) == Failure(NumberFormatException);
  }

  /** The public calls on `RoleRepository`, for reasoning about any sequence of them. */
  datatype Call = GetRolesForUser(username: Option<string>, env: Env, poolStartFails: bool) | Shutdown

  /** The lifecycle after a sequence of calls. */
  function Run(l: Lifecycle, calls: seq<Call>): Lifecycle
    decreases |calls|
  {
    if calls == [] then l
    else
      var next := match calls[0]
        case GetRolesForUser(u, env, fails) => AfterLookup(u, l, env, fails)
        case Shutdown => AfterShutdown(l);
      Run(next, calls[1..])
  }

  /** Whatever the calls, at most one pool is ever created. */
  lemma {:induction false} AtMostOnePool(l: Lifecycle, calls: seq<Call>)
    requires ValidLifecycle(l)
    ensures ValidLifecycle(Run(l, calls))
    ensures Run(l, calls).creations <= 1
    decreases |calls|
  {
    if calls != [] {
      var next := match calls[0]
        case GetRolesForUser(u, env, fails) => AfterLookup(u, l, env, fails)
        case Shutdown => AfterShutdown(l);
      AtMostOnePool(next, calls[1..]);
    }
  }

  /** Once closed, the pool stays closed and is never replaced: no call re-initialises it. */
  lemma {:induction false} ClosedIsFinal(l: Lifecycle, calls: seq<Call>)
    requires l.status == Closed
    ensures Run(l, calls) == l
    decreases |calls|
  {
    if calls != [] {
      ClosedIsFinal(l, calls[1..]);
    }
  }

  // ---------------------------------------------------------------------------
  // The repository

  /** A HikariCP pool; `close` marks it closed in place. */
  class HikariDataSource {
    const config: PoolConfig
    var closed: bool

    constructor (config: PoolConfig)
      ensures this.config == config && !closed
    {
      this.config := config;
      closed := false;
    }
  }

  /**
    The initialisation block of `getDataSource`: build the configuration from
    the environment, then start a pool with it. A setting that does not parse
    or a pool that cannot start throws, and then no pool exists.
   */
  method NewDataSource(env: Env, poolStartFails: bool) returns (r: Result<HikariDataSource, Exception>)
    ensures r.Success? <==> InitFailure(env, poolStartFails).None?
    ensures r.Failure? ==> r.error == InitFailure(env, poolStartFails).value
    ensures r.Success? ==> fresh(r.value) && !r.value.closed && r.value.config == BuildConfig(env).value
  {
    var config := BuildConfig(env);
    if config.Failure? {
      return Failure(config.error);
    }
    if poolStartFails {
      return Failure(PoolInitializationException);
    }
    var ds := new HikariDataSource(config.value);
    return Success(ds);
  }

  /** The static state of `RoleRepository`, with a count of the pools it has created. */
  class RoleRepository {
    var dataSource: HikariDataSource?
    ghost var creations: nat

    ghost function State(): Lifecycle
      reads this, dataSource
    {
      Lifecycle(if dataSource == null then Absent else if dataSource.closed then Closed else Open, creations)
    }

    ghost predicate Valid()
      reads this, dataSource
    {
      ValidLifecycle(State())
    }

    /** Class initialisation: no pool yet. */
    constructor ()
      ensures Valid() && dataSource == null && State() == Lifecycle(Absent, 0)
    {
      dataSource := null;
      creations := 0;
    }

    /** `getDataSource`, run sequentially: the existing pool, or a new one built from `env`. */
    method GetDataSource(env: Env, poolStartFails: bool) returns (r: Result<HikariDataSource, Exception>)
      requires Valid()
      modifies this
      ensures Valid()
      ensures State() == AfterGetDataSource(old(State()), env, poolStartFails)
      ensures old(dataSource) != null ==> dataSource == old(dataSource) && r == Success(dataSource)
      ensures old(dataSource) == null && InitFailure(env, poolStartFails).Some? ==>
        dataSource == null && r == Failure(InitFailure(env, poolStartFails).value)
      ensures old(dataSource) == null && InitFailure(env, poolStartFails).None? ==>
        r.Success? && r.value == dataSource && fresh(dataSource) && dataSource.config == BuildConfig(env).value
    {
      if dataSource == null {
        var created := NewDataSource(env, poolStartFails);
        if created.Failure? {
          return created;
        }
        dataSource := created.value;
        creations := creations + 1;
        return created;
      }
      return Success(dataSource);
    }

    /**
      `getRolesForUser`: the kept `role_name` values in row order, or the empty
      list for a blank name (without touching the pool) and for any SQL failure.
     */
    method GetRolesForUser(username: Option<string>, env: Env, poolStartFails: bool, query: QueryOutcome)
      returns (r: Result<seq<string>, Exception>)
      requires Valid()
      modifies this
      ensures Valid()
      ensures r == Lookup(username, old(State()).status, env, poolStartFails, query)
      ensures State() == AfterLookup(username, old(State()), env, poolStartFails)
      ensures IsNullOrBlank(username) ==> dataSource == old(dataSource)
      ensures old(dataSource) != null ==> dataSource == old(dataSource)
    {
      if username.None? || IsBlank(username.value) {
        return Success([]);
      }
      var ds := GetDataSource(env, poolStartFails);
      if ds.Failure? {
        return Failure(ds.error);
      }
      if ds.value.closed {
        // getConnection() on a closed pool throws SQLException
        return Success([]);
      }
      match query {
        case QueryFailed =>
          return Success([]);
        case Rows(roleNames) =>
          var roles: seq<string> := [];
          var i := 0;
          while i < |roleNames|
            invariant 0 <= i <= |roleNames|
            invariant roles == FilterRoles(roleNames[..i])
          {
            var roleName := roleNames[i];
            assert roleNames[..i + 1][..i] == roleNames[..i];
            if roleName.Some? && !IsBlank(roleName.value) {
              roles := roles + [roleName.value];
            }
            i := i + 1;
          }
          assert roleNames[..i] == roleNames;
          return Success(roles);
      }
    }

    /** `shutdown`: closes the pool if there is an open one; the field keeps pointing at it. */
    method Shutdown()
      requires Valid()
      modifies dataSource
      ensures Valid()
      ensures dataSource == old(dataSource)
      ensures State() == AfterShutdown(old(State()))
    {
      if dataSource != null && !dataSource.closed {
        dataSource.closed := true;
      }
    }
  }
}
