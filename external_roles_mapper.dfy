/**
  The Keycloak protocol mapper (`ExternalRolesProtocolMapper.setClaim`): one
  code path, shared by access tokens, ID tokens and userinfo responses, that
  looks up the user's external roles and writes them into the token's other
  claims under `CLAIM_NAME`. Every outcome of a lookup, including a thrown
  exception, writes the claim; only a missing user name writes nothing.
 */
module ExternalRolesMapper {
  import opened Wrappers
  import opened Text
  import opened Claims
  import opened RoleStore

  /** The claim the mapper writes. */
  const CLAIM_NAME := "external_roles"

  /** What `RoleRepository.getRolesForUser` did: returned a list (possibly null) or threw. */
  datatype LookupOutcome = Returned(roles: Option<seq<string>>) | Threw(error: Exception)

  /** The outcome of a call of the repository, as the mapper sees it. */
  function OutcomeOf(r: Result<seq<string>, Exception>): (o: LookupOutcome)
    ensures o.Returned? <==> r.Success?
    ensures r.Success? ==> o.roles == Some(r.value)
  {
    match r
    case Success(roles) => Returned(Some(roles))
    case Failure(e) => Threw(e)
  }

  /** The roles the claim carries for an outcome: the list returned, or none at all. */
  function RolesOf(outcome: LookupOutcome): (roles: seq<string>)
    ensures outcome.Threw? || outcome.roles.None? ==> roles == []
    ensures outcome.Returned? && outcome.roles.Some? ==> roles == outcome.roles.value
  {
    if outcome.Returned? && outcome.roles.Some? then outcome.roles.value else []
  }

  /**
    The value written under `CLAIM_NAME`: a non-empty list as it is, and a new
    empty list for null, for an empty list and for any exception. Either way
    it reads back as a list of strings, the one the lookup found.
   */
  function ClaimValue(outcome: LookupOutcome): (v: Json)
    ensures AsStrings(v) == Some(RolesOf(outcome))
    ensures outcome.Threw? ==> v == JArray([])
  {
    match outcome
    case Returned(roles) =>
      if roles.Some? && roles.value != [] then
        StringListRoundTrip(roles.value);
        StringList(roles.value)
      else
        JArray([])
    case Threw(_) => JArray([])
  }

  /**
    The claims after `setClaim`: unchanged for a null or blank user name;
    otherwise `CLAIM_NAME` is present with the outcome's value, and no other
    claim is added, removed or changed.
   */
  function ClaimsAfter(claims: ClaimSet, username: Option<string>, outcome: LookupOutcome): (r: ClaimSet)
    ensures IsNullOrBlank(username) ==> r == claims
    ensures !IsNullOrBlank(username) ==> CLAIM_NAME in r && r[CLAIM_NAME] == ClaimValue(outcome)
    ensures r.Keys == claims.Keys + (if IsNullOrBlank(username) then {} else {CLAIM_NAME})
    ensures forall k :: k in claims && k != CLAIM_NAME ==> r[k] == claims[k]
  {
    if IsNullOrBlank(username) then claims else claims[CLAIM_NAME := ClaimValue(outcome)]
  }

  /** Running `setClaim` again with the same outcome changes nothing more, because `put` overwrites. */
  lemma SetClaimIdempotent(claims: ClaimSet, username: Option<string>, outcome: LookupOutcome)
    ensures ClaimsAfter(ClaimsAfter(claims, username, outcome), username, outcome) == ClaimsAfter(claims, username, outcome)
  {
  }

  /**
    Whatever the lookup does, a user with a name gets the claim, and it reads
    back as exactly the roles found: none when the lookup failed or found none.
   */
  lemma ClaimReadsBackAsRoles(claims: ClaimSet, username: Option<string>, outcome: LookupOutcome)
    requires !IsNullOrBlank(username)
    ensures var r := ClaimsAfter(claims, username, outcome);
      CLAIM_NAME in r && AsStrings(r[CLAIM_NAME]) == Some(RolesOf(outcome))
    ensures outcome.Threw? || outcome.roles.None? ==> ClaimsAfter(claims, username, outcome)[CLAIM_NAME] == JArray([])
  {
  }

  /** A token under construction; `getOtherClaims()` is a map the mapper updates in place. */
  class IDToken {
    var otherClaims: ClaimSet

    constructor (claims: ClaimSet)
      ensures otherClaims == claims
    {
      otherClaims := claims;
    }
  }

  /**
    `setClaim`. The repository, the environment, HikariCP's start-up and the
    query's outcome are passed in; the user name is `userSession.getUser().getUsername()`.
   */
  method SetClaim(token: IDToken, repository: RoleRepository, username: Option<string>,
                  env: Env, poolStartFails: bool, query: QueryOutcome)
    requires repository.Valid()
    modifies token, repository
    ensures repository.Valid()
    ensures token.otherClaims == ClaimsAfter(old(token.otherClaims), username,
      OutcomeOf(Lookup(username, old(repository.State()).status, env, poolStartFails, query)))
    ensures repository.State() == AfterLookup(username, old(repository.State()), env, poolStartFails)
    ensures IsNullOrBlank(username) ==> repository.dataSource == old(repository.dataSource)
  {
    if username.None? || IsBlank(username.value) {
      return;
    }
    var result := repository.GetRolesForUser(username, env, poolStartFails, query);
    PutClaim(token, result);
  }

  /**
    The `try` block's writes: the returned list when it is not empty, and a new
    empty list for an empty list or for any exception the lookup threw.
   */
  method PutClaim(token: IDToken, result: Result<seq<string>, Exception>)
    modifies token
    ensures token.otherClaims == old(token.otherClaims)[CLAIM_NAME := ClaimValue(OutcomeOf(result))]
  {
    match result {
      case Success(externalRoles) =>
        if externalRoles != [] {
          token.otherClaims := token.otherClaims[CLAIM_NAME := StringList(externalRoles)];
        } else {
          token.otherClaims := token.otherClaims[CLAIM_NAME := JArray([])];
        }
      case Failure(_) =>
        token.otherClaims := token.otherClaims[CLAIM_NAME := JArray([])];
    }
  }
}
