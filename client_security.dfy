/**
  The OIDC client's authority mapping (the lambda of `oidcUserService`): the
  default OIDC authorities, plus `ROLE_<name>` for every string element of the
  ID token's `external_roles` claim when that claim is a list, collected into
  a set.
 */
module ClientSecurity {
  import opened Text
  import opened Claims
  import opened Authorities

  /** The claim the client reads from the ID token. */
  const EXTERNAL_ROLES_CLAIM := "external_roles"

  /** The prefix `hasRole` expects. */
  const ROLE_PREFIX := "ROLE_"

  /** The authorities the claim's list contributes, element by element, in list order. */
  function ClaimAuthorities(roles: seq<Json>): (r: set<GrantedAuthority>)
    ensures forall a :: a in r ==> a.SimpleGrantedAuthority? && StartsWith(a.authority, ROLE_PREFIX)
  {
    if roles == [] then {}
    else
      var last := roles[|roles| - 1];
      ClaimAuthorities(roles[..|roles| - 1]) + (if last.JString? then {SimpleGrantedAuthority(ROLE_PREFIX + last.s)} else {})
  }

  /** `ROLE_<name>` comes from the list exactly when `name` is one of its string elements. */
  lemma {:induction false} ClaimAuthoritiesMembership(roles: seq<Json>, name: string)
    ensures SimpleGrantedAuthority(ROLE_PREFIX + name) in ClaimAuthorities(roles) <==> JString(name) in roles
  {
    if roles != [] {
      var init := roles[..|roles| - 1];
      ClaimAuthoritiesMembership(init, name);
      assert roles == init + [roles[|roles| - 1]];
      var last := roles[|roles| - 1];
      if last.JString? && SimpleGrantedAuthority(ROLE_PREFIX + name) == SimpleGrantedAuthority(ROLE_PREFIX + last.s) {
        PrefixCancels(ROLE_PREFIX, name, last.s);
      }
    }
  }

  /** Two names with the same prefix put in front are the same name. */
  lemma PrefixCancels(prefix: string, a: string, b: string)
    requires prefix + a == prefix + b
    ensures a == b
  {
    assert a == (prefix + a)[|prefix|..];
  }

  /** Every authority from the list is `ROLE_` followed by a string element of the list. */
  lemma {:induction false} ClaimAuthoritiesFromElements(roles: seq<Json>, a: GrantedAuthority)
    requires a in ClaimAuthorities(roles)
    ensures exists name :: JString(name) in roles && a == SimpleGrantedAuthority(ROLE_PREFIX + name)
  {
    var init := roles[..|roles| - 1];
    var last := roles[|roles| - 1];
    assert roles == init + [last];
    if a in ClaimAuthorities(init) {
      ClaimAuthoritiesFromElements(init, a);
      var name :| JString(name) in init && a == SimpleGrantedAuthority(ROLE_PREFIX + name);
      assert JString(name) in roles;
    } else {
      assert last == JString(last.s);
    }
  }

  /** The set the lambda returns, for the default authorities and the ID token's claims. */
  function MappedAuthorities(defaults: set<GrantedAuthority>, idTokenClaims: ClaimSet): (r: set<GrantedAuthority>)
    ensures defaults <= r
    ensures forall a :: a in r && a !in defaults ==> a.SimpleGrantedAuthority? && StartsWith(a.authority, ROLE_PREFIX)
    ensures !(EXTERNAL_ROLES_CLAIM in idTokenClaims && idTokenClaims[EXTERNAL_ROLES_CLAIM].JArray?) ==> r == defaults
  {
    if EXTERNAL_ROLES_CLAIM in idTokenClaims && idTokenClaims[EXTERNAL_ROLES_CLAIM].JArray? then
      defaults + ClaimAuthorities(idTokenClaims[EXTERNAL_ROLES_CLAIM].items)
    else
      defaults
  }

  /**
    The body of the lambda: start from the defaults and add `ROLE_<name>` for
    each string element of a list-typed claim; anything else is ignored.
   */
  method MapAuthorities(defaults: set<GrantedAuthority>, idTokenClaims: ClaimSet)
    returns (mappedAuthorities: set<GrantedAuthority>)
    ensures mappedAuthorities == MappedAuthorities(defaults, idTokenClaims)
  {
    mappedAuthorities := defaults;
    if EXTERNAL_ROLES_CLAIM in idTokenClaims && idTokenClaims[EXTERNAL_ROLES_CLAIM].JArray? {
      var roles := idTokenClaims[EXTERNAL_ROLES_CLAIM].items;
      for i := 0 to |roles|
        invariant mappedAuthorities == defaults + ClaimAuthorities(roles[..i])
      {
        var role := roles[i];
        assert roles[..i + 1][..i] == roles[..i];
        if role.JString? {
          mappedAuthorities := mappedAuthorities + {SimpleGrantedAuthority(ROLE_PREFIX + role.s)};
        }
      }
      assert roles[..|roles|] == roles;
    }
  }

  /**
    For a list-typed claim, `ROLE_<name>` is granted exactly when `name` is a
    string element of the list or the defaults already hold it.
   */
  lemma RoleGrantedIff(defaults: set<GrantedAuthority>, idTokenClaims: ClaimSet, name: string)
    requires EXTERNAL_ROLES_CLAIM in idTokenClaims && idTokenClaims[EXTERNAL_ROLES_CLAIM].JArray?
    ensures SimpleGrantedAuthority(ROLE_PREFIX + name) in MappedAuthorities(defaults, idTokenClaims) <==>
      JString(name) in idTokenClaims[EXTERNAL_ROLES_CLAIM].items || SimpleGrantedAuthority(ROLE_PREFIX + name) in defaults
  {
    ClaimAuthoritiesMembership(idTokenClaims[EXTERNAL_ROLES_CLAIM].items, name);
  }

  /**
    The result depends only on which elements the list holds: reordering the
    list or repeating an element gives the same set.
   */
  lemma OrderAndDuplicatesIrrelevant(roles: seq<Json>, other: seq<Json>)
    requires forall e :: e in roles <==> e in other
    ensures ClaimAuthorities(roles) == ClaimAuthorities(other)
  {
    forall a | a in ClaimAuthorities(roles)
      ensures a in ClaimAuthorities(other)
    {
      ClaimAuthoritiesFromElements(roles, a);
      var name :| JString(name) in roles && a == SimpleGrantedAuthority(ROLE_PREFIX + name);
      ClaimAuthoritiesMembership(other, name);
    }
    forall a | a in ClaimAuthorities(other)
      ensures a in ClaimAuthorities(roles)
    {
      ClaimAuthoritiesFromElements(other, a);
      var name :| JString(name) in other && a == SimpleGrantedAuthority(ROLE_PREFIX + name);
      ClaimAuthoritiesMembership(roles, name);
    }
  }

  /** In particular a permutation of the list gives the same set. */
  lemma PermutationIrrelevant(roles: seq<Json>, other: seq<Json>)
    requires multiset(roles) == multiset(other)
    ensures ClaimAuthorities(roles) == ClaimAuthorities(other)
  {
    forall e
      ensures e in roles <==> e in other
    {
      assert e in roles <==> e in multiset(roles);
      assert e in other <==> e in multiset(other);
    }
    OrderAndDuplicatesIrrelevant(roles, other);
  }
}
