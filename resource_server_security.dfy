/**
  The resource server's authority mapping (`ExternalRolesConverter.convert`)
  and the `hasRole` checks of its API. The access token's `external_roles`
  claim, as `Jwt.getClaimAsStringList` gives it, becomes one `ROLE_<name>`
  authority per element, in order and with duplicates kept; this converter
  replaces the default one, so no other authority appears.
 */
module ResourceServerSecurity {
  import opened Wrappers
  import opened Text
  import opened Claims
  import opened Authorities

  /** The claim the converter reads from the access token. */
  const EXTERNAL_ROLES_CLAIM := "external_roles"

  /** The prefix `hasRole` expects. */
  const ROLE_PREFIX := "ROLE_"

  /** The roles the API's `@PreAuthorize` checks name. */
  const ADMIN_ROLE := "ARCHITECT"
  const DEVELOPER_ROLE := "DEVELOPER"

  /**
    `jwt.getClaimAsStringList(name)` for a claim that is absent or a list of
    strings: null for an absent claim, otherwise the very list the claim encodes.
   */
  function ClaimAsStringList(claims: ClaimSet, name: string): (r: Option<seq<string>>)
    ensures name !in claims ==> r.None?
    ensures name in claims && AsStrings(claims[name]).Some? ==> r == AsStrings(claims[name])
    ensures r.Some? ==> name in claims && StringList(r.value) == claims[name]
  {
    if name in claims then
      if AsStrings(claims[name]).Some? then AsStringsInverse(claims[name]); AsStrings(claims[name]) else None
    else None
  }

  /** A claim written as a list of strings reads back as that list, and only such a claim does. */
  lemma ClaimAsStringListReadsWritten(claims: ClaimSet, name: string, xs: seq<string>)
    ensures ClaimAsStringList(claims[name := StringList(xs)], name) == Some(xs)
    ensures ClaimAsStringList(claims, name) == Some(xs) <==> name in claims && claims[name] == StringList(xs)
  {
    StringListRoundTrip(xs);
  }

  /** `roles.stream().map(role -> new SimpleGrantedAuthority("ROLE_" + role))`, collected to a list. */
  function PrefixRoles(roles: seq<string>): (r: seq<GrantedAuthority>)
    ensures |r| == |roles|
    ensures forall i :: 0 <= i < |roles| ==> r[i] == SimpleGrantedAuthority(ROLE_PREFIX + roles[i])
  {
    if roles == [] then [] else [SimpleGrantedAuthority(ROLE_PREFIX + roles[0])] + PrefixRoles(roles[1..])
  }

  /**
    `convert`: no authority for an absent or empty claim, otherwise one per
    role, in the same order, each `ROLE_<role>`.
   */
  function Convert(externalRoles: Option<seq<string>>): (r: seq<GrantedAuthority>)
    ensures externalRoles.None? ==> r == []
    ensures externalRoles.Some? ==> |r| == |externalRoles.value|
    ensures externalRoles.Some? ==> forall i :: 0 <= i < |r| ==>
      r[i] == SimpleGrantedAuthority(ROLE_PREFIX + externalRoles.value[i])
  {
    if externalRoles.None? || externalRoles.value == [] then [] else PrefixRoles(externalRoles.value)
  }

  /** The role an authority stands for: its string without the `ROLE_` prefix. */
  function StripPrefix(a: GrantedAuthority): string {
    if StartsWith(a.authority, ROLE_PREFIX) then a.authority[|ROLE_PREFIX|..] else a.authority
  }

  function StripAll(authorities: seq<GrantedAuthority>): (r: seq<string>)
    ensures |r| == |authorities|
    ensures forall i :: 0 <= i < |r| ==> r[i] == StripPrefix(authorities[i])
  {
    if authorities == [] then [] else [StripPrefix(authorities[0])] + StripAll(authorities[1..])
  }

  /** Every authority the converter produces is a simple one that starts with `ROLE_`. */
  lemma ConvertOnlyRoles(externalRoles: Option<seq<string>>)
    ensures forall a :: a in Convert(externalRoles) ==>
      a.SimpleGrantedAuthority? && StartsWith(a.authority, ROLE_PREFIX)
  {
    var r := Convert(externalRoles);
    forall a | a in r
      ensures a.SimpleGrantedAuthority? && StartsWith(a.authority, ROLE_PREFIX)
    {
      var i :| 0 <= i < |r| && r[i] == a;
      assert (ROLE_PREFIX + externalRoles.value[i])[..|ROLE_PREFIX|] == ROLE_PREFIX;
    }
  }

  /** Removing the prefix again gives back the claim's list. */
  lemma StripRoundTrip(roles: seq<string>)
    ensures StripAll(Convert(Some(roles))) == roles
  {
    var r := StripAll(Convert(Some(roles)));
    forall i | 0 <= i < |roles|
      ensures r[i] == roles[i]
    {
      assert (ROLE_PREFIX + roles[i])[..|ROLE_PREFIX|] == ROLE_PREFIX;
      assert (ROLE_PREFIX + roles[i])[|ROLE_PREFIX|..] == roles[i];
    }
  }

  /** So different lists give different authorities. */
  lemma ConvertInjective(roles: seq<string>, other: seq<string>)
    requires Convert(Some(roles)) == Convert(Some(other))
    ensures roles == other
  {
    StripRoundTrip(roles);
    StripRoundTrip(other);
  }

  /**
    `hasRole(role)` for the role names the API uses: some authority's string is
    `ROLE_<role>`. Spring does not add the prefix to a name that already starts
    with `ROLE_`; no guard of the API passes such a name, and this predicate
    does not model that case.
   */
  predicate HasRole(authorities: seq<GrantedAuthority>, role: string)
    ensures HasRole(authorities, role) <==> exists a :: a in authorities && a.authority == ROLE_PREFIX + role
  {
    exists i :: 0 <= i < |authorities| && authorities[i].authority == ROLE_PREFIX + role
  }

  /** `hasRole(role)` holds of the converted claim exactly when `role` is in the claim. */
  lemma HasRoleIff(externalRoles: Option<seq<string>>, role: string)
    ensures HasRole(Convert(externalRoles), role) <==> externalRoles.Some? && role in externalRoles.value
  {
    var r := Convert(externalRoles);
    if HasRole(r, role) {
      var i :| 0 <= i < |r| && r[i].authority == ROLE_PREFIX + role;
      assert (ROLE_PREFIX + role)[|ROLE_PREFIX|..] == role;
      assert (ROLE_PREFIX + externalRoles.value[i])[|ROLE_PREFIX|..] == externalRoles.value[i];
    }
    if externalRoles.Some? && role in externalRoles.value {
      var i :| 0 <= i < |externalRoles.value| && externalRoles.value[i] == role;
      assert r[i].authority == ROLE_PREFIX + role;
    }
  }

  /** The `/api/admin` and `/api/developer` gates: each opens exactly for tokens whose claim holds its role. */
  lemma EndpointGates(claims: ClaimSet)
    ensures var roles := ClaimAsStringList(claims, EXTERNAL_ROLES_CLAIM);
      && (HasRole(Convert(roles), ADMIN_ROLE) <==> roles.Some? && ADMIN_ROLE in roles.value)
      && (HasRole(Convert(roles), DEVELOPER_ROLE) <==> roles.Some? && DEVELOPER_ROLE in roles.value)
  {
    var roles := ClaimAsStringList(claims, EXTERNAL_ROLES_CLAIM);
    HasRoleIff(roles, ADMIN_ROLE);
    HasRoleIff(roles, DEVELOPER_ROLE);
  }
}
