/**
  The naming contract across the three independently deployed parts: the
  claim the Keycloak mapper writes is the claim both consumers read, with the
  same `ROLE_` prefix, so the roles stored for a user are the roles the
  consumers' `hasRole` checks see.
 */
module Pipeline {
  import opened Wrappers
  import opened Text
  import opened Claims
  import opened Authorities
  import opened RoleStore
  import opened ExternalRolesMapper
  import RS = ResourceServerSecurity
  import Client = ClientSecurity

  /** The claim name and the prefix are the same string in all three code bases. */
  lemma NamesAgree()
    ensures CLAIM_NAME == Client.EXTERNAL_ROLES_CLAIM == RS.EXTERNAL_ROLES_CLAIM
    ensures Client.ROLE_PREFIX == RS.ROLE_PREFIX
  {
  }

  /** The token claims after the mapper ran for `username`, against a pool in state `status`. */
  function IssuedClaims(claims: ClaimSet, username: Option<string>, status: PoolStatus,
                        env: Env, poolStartFails: bool, query: QueryOutcome): ClaimSet
  {
    ClaimsAfter(claims, username, OutcomeOf(Lookup(username, status, env, poolStartFails, query)))
  }

  /** The roles a lookup found: none when it threw. */
  function FoundRoles(r: Result<seq<string>, Exception>): seq<string> {
    if r.Success? then r.value else []
  }

  /**
    On the resource server, `hasRole(role)` holds for a token issued to a user
    with a name exactly when the lookup found `role`.
   */
  lemma ResourceServerSeesLookup(claims: ClaimSet, username: Option<string>, status: PoolStatus,
                                 env: Env, poolStartFails: bool, query: QueryOutcome, role: string)
    requires !IsNullOrBlank(username)
    ensures var issued := IssuedClaims(claims, username, status, env, poolStartFails, query);
      RS.HasRole(RS.Convert(RS.ClaimAsStringList(issued, RS.EXTERNAL_ROLES_CLAIM)), role) <==>
        role in FoundRoles(Lookup(username, status, env, poolStartFails, query))
  {
    var found := Lookup(username, status, env, poolStartFails, query);
    ClaimReadsBackAsRoles(claims, username, OutcomeOf(found));
    RS.HasRoleIff(Some(FoundRoles(found)), role);
  }

  /**
    On the client, `ROLE_<role>` is granted for an ID token issued to a user
    with a name exactly when the lookup found `role` or the defaults hold it.
   */
  lemma ClientSeesLookup(defaults: set<GrantedAuthority>, claims: ClaimSet, username: Option<string>,
                         status: PoolStatus, env: Env, poolStartFails: bool, query: QueryOutcome, role: string)
    requires !IsNullOrBlank(username)
    ensures var issued := IssuedClaims(claims, username, status, env, poolStartFails, query);
      SimpleGrantedAuthority(Client.ROLE_PREFIX + role) in Client.MappedAuthorities(defaults, issued) <==>
        role in FoundRoles(Lookup(username, status, env, poolStartFails, query)) ||
        SimpleGrantedAuthority(Client.ROLE_PREFIX + role) in defaults
  {
    var found := Lookup(username, status, env, poolStartFails, query);
    var issued := IssuedClaims(claims, username, status, env, poolStartFails, query);
    ClaimReadsBackAsRoles(claims, username, OutcomeOf(found));
    var v := issued[CLAIM_NAME];
    var roles := FoundRoles(found);
    assert AsStrings(v) == Some(roles);
    assert JString(role) in v.items <==> role in roles by {
      if JString(role) in v.items {
        var i :| 0 <= i < |v.items| && v.items[i] == JString(role);
        assert roles[i] == role;
      }
      if role in roles {
        var i :| 0 <= i < |roles| && roles[i] == role;
        assert v.items[i] == JString(role);
      }
    }
    Client.RoleGrantedIff(defaults, issued, role);
  }

  /**
    With an open pool and the query's rows, the resource server grants
    `hasRole(role)` exactly when some row carries `role` and it is not blank.
   */
  lemma StoredRowGrantsRole(claims: ClaimSet, username: Option<string>, env: Env, poolStartFails: bool,
                            roleNames: seq<Option<string>>, role: string)
    requires !IsNullOrBlank(username)
    ensures var issued := IssuedClaims(claims, username, Open, env, poolStartFails, Rows(roleNames));
      RS.HasRole(RS.Convert(RS.ClaimAsStringList(issued, RS.EXTERNAL_ROLES_CLAIM)), role) <==>
        Some(role) in roleNames && !IsBlank(role)
  {
    ResourceServerSeesLookup(claims, username, Open, env, poolStartFails, Rows(roleNames), role);
    LookupOpenPool(username, Open, env, poolStartFails, roleNames, role);
  }

  /**
    A store outage, a closed pool, or a failed initialisation all issue the
    empty claim, and then no role-gated endpoint opens.
   */
  lemma FailureDeniesEveryRole(claims: ClaimSet, username: Option<string>, status: PoolStatus,
                               env: Env, poolStartFails: bool, query: QueryOutcome, role: string)
    requires !IsNullOrBlank(username)
    requires query.QueryFailed? || status == Closed || Lookup(username, status, env, poolStartFails, query).Failure?
    ensures var issued := IssuedClaims(claims, username, status, env, poolStartFails, query);
      issued[CLAIM_NAME] == JArray([]) &&
      !RS.HasRole(RS.Convert(RS.ClaimAsStringList(issued, RS.EXTERNAL_ROLES_CLAIM)), role)
  {
    ResourceServerSeesLookup(claims, username, status, env, poolStartFails, query, role);
  }

  /** alice's rows, ARCHITECT and DEVELOPER, become exactly those roles. */
  lemma AliceRows()
    ensures FilterRoles([Some("ARCHITECT"), Some("DEVELOPER")]) == ["ARCHITECT", "DEVELOPER"]
  {
    NotBlank("ARCHITECT");
    NotBlank("DEVELOPER");
    assert [Some("ARCHITECT"), Some("DEVELOPER")][..1] == [Some("ARCHITECT")];
  }

  /**
    alice's rows are ARCHITECT and DEVELOPER, so her
    token carries both, opens `/api/admin` and `/api/developer`, and no AUDITOR gate.
   */
  lemma Alice(env: Env, poolStartFails: bool)
    ensures var alice := IssuedClaims(map[], Some("alice"), Open, env, poolStartFails,
                                      Rows([Some("ARCHITECT"), Some("DEVELOPER")]));
      var granted := RS.Convert(RS.ClaimAsStringList(alice, RS.EXTERNAL_ROLES_CLAIM));
      && alice[CLAIM_NAME] == StringList(["ARCHITECT", "DEVELOPER"])
      && RS.HasRole(granted, RS.ADMIN_ROLE)
      && RS.HasRole(granted, RS.DEVELOPER_ROLE)
      && !RS.HasRole(granted, "AUDITOR")
  {
    NotBlank("alice");
    AliceRows();
    var rows := [Some("ARCHITECT"), Some("DEVELOPER")];
    assert Lookup(Some("alice"), Open, env, poolStartFails, Rows(rows)) == Success(["ARCHITECT", "DEVELOPER"]);
    ResourceServerSeesLookup(map[], Some("alice"), Open, env, poolStartFails, Rows(rows), RS.ADMIN_ROLE);
    ResourceServerSeesLookup(map[], Some("alice"), Open, env, poolStartFails, Rows(rows), RS.DEVELOPER_ROLE);
    ResourceServerSeesLookup(map[], Some("alice"), Open, env, poolStartFails, Rows(rows), "AUDITOR");
  }

  /** bob has no rows: his token carries the empty claim and opens no role gate. */
  lemma Bob(env: Env, poolStartFails: bool, role: string)
    ensures var bob := IssuedClaims(map[], Some("bob"), Open, env, poolStartFails, Rows([]));
      && bob[CLAIM_NAME] == JArray([])
      && !RS.HasRole(RS.Convert(RS.ClaimAsStringList(bob, RS.EXTERNAL_ROLES_CLAIM)), role)
  {
    NotBlank("bob");
    ResourceServerSeesLookup(map[], Some("bob"), Open, env, poolStartFails, Rows([]), role);
  }

  /**
    The mapper contains what the repository lets escape: with the padded
    setting the lookup throws, and the token still gets the empty claim.
   */
  lemma EscapedErrorStillWritesEmptyClaim(claims: ClaimSet, username: Option<string>, poolStartFails: bool,
                                          query: QueryOutcome)
    requires !IsNullOrBlank(username)
    ensures IssuedClaims(claims, username, Absent, map["ROLES_DB_POOL_SIZE" := " 10"], poolStartFails, query)[CLAIM_NAME]
         == JArray([])
  {
    PaddedSettingEscapes(username, poolStartFails, query);
  }
}
