# External roles for Keycloak tokens: a Dafny model

The system puts a user's roles, kept in an external PostgreSQL table, into the
tokens Keycloak issues. Two Spring Boot applications then turn those roles into
Spring Security authorities. The chain has three parts:

- **Keycloak mapper** (`keycloak-roles-mapper`). `RoleRepository` holds a lazily
  created HikariCP pool whose settings come from the environment. For a user
  name it runs `SELECT role_name FROM user_roles WHERE username = ? ORDER BY role_name`
  and drops null and blank rows. Any `SQLException` becomes an empty list.
  `ExternalRolesProtocolMapper.setClaim` writes the result into the token as the
  `external_roles` claim. Every outcome writes the claim, including an empty
  list or an exception. Only a missing or blank user name writes nothing.
- **OIDC client** (`spring-client`). The `oidcUserService` lambda starts from the
  default OIDC authorities. When the ID token's `external_roles` claim is a
  list, it adds `ROLE_<name>` for each string element, collected into a set.
- **Resource server** (`spring-resource-server`). `ExternalRolesConverter.convert`
  maps the access token's `external_roles` list to one `ROLE_<name>` authority
  per element, in order. An absent or empty claim gives no authority. The API
  guards `/api/admin` with `hasRole('ARCHITECT')` and `/api/developer` with
  `hasRole('DEVELOPER')`.

Files:

| file | module | contents |
|---|---|---|
| `wrappers.dfy` | `Wrappers` | `Option` and `Result` |
| `text.dfy` | `Text` | Java's `String.trim()`, the null-or-blank test, `startsWith` |
| `claims.dfy` | `Claims` | JSON claim values; writing a string list and reading it back |
| `authorities.dfy` | `Authorities` | `GrantedAuthority` |
| `role_store.dfy` | `RoleStore` | `RoleRepository`: settings, `parseInt`/`parseLong`, pool configuration, row filtering, pool lifecycle, and the `RoleRepository` and `HikariDataSource` classes |
| `external_roles_mapper.dfy` | `ExternalRolesMapper` | `setClaim` over an `IDToken` with a mutable claim map |
| `client_security.dfy` | `ClientSecurity` | the client's authority mapping |
| `resource_server_security.dfy` | `ResourceServerSecurity` | `convert` and `hasRole` |
| `pipeline.dfy` | `Pipeline` | end-to-end properties from stored rows to `hasRole` |

The model takes these things as inputs:

- **Environment**: a `map<string, string>`. An absent key reads as null.
- **Pool start-up**: `poolStartFails`. HikariCP's fail-fast start either opens the pool or throws.
- **Query result**: the `role_name` column of every row (`Option<string>`, since a value can be null), or an SQL failure.

Static state becomes ordinary state:

- `RoleRepository`'s static `dataSource` becomes a field of class `RoleRepository`.
- A ghost counter records how many pools have been created.
- `HikariDataSource` is a class whose `closed` flag `close()` sets in place.
- A pure `Lifecycle` value (status plus creation count) specifies the
  methods. The lemmas about sequences of calls are stated over it.

Two behaviours of the code are worth stating plainly:

- **Lookup after shutdown.** `shutdown()` closes the pool but never resets
  `dataSource` (RoleRepository.java:33, :120-125). A later lookup therefore
  gets the closed pool, whose `getConnection` throws an `SQLException`, and so
  every later lookup returns an empty list; no new pool is ever created. This
  is `ClosedIsFinal` and `Lookup`'s `Closed` clause.
- **Errors that escape the lookup.** The lookup is documented as returning an
  empty list "on error", but only `SQLException` is caught. Any other
  exception thrown while `getDataSource` creates the pool escapes
  `getRolesForUser`. A failed initialisation leaves `dataSource` null
  (RoleRepository.java:33, :60), so this can happen on every lookup while no
  pool exists. The model covers two of these exceptions:
  - a `NumberFormatException` from a numeric setting that does not parse;
  - HikariCP's `PoolInitializationException`.

  HikariConfig's setters also reject some values (for example a pool size
  below 1) with an `IllegalArgumentException`, which escapes in the same way;
  the model does not cover that one (see "## Left out"). In every case the
  mapper's own `catch (Exception e)` writes the empty claim. This is
  `PaddedSettingEscapes` and `Pipeline.EscapedErrorStillWritesEmptyClaim`.

## Model

| member | source | states |
|---|---|---|
| `Text.Trim` | keycloak-roles-mapper/src/main/java/com/example/keycloak/mapper/RoleRepository.java:75 | `trim()` is never longer than its input and neither begins nor ends with a char at or below U+0020 |
| `Text.TrimProperties` | keycloak-roles-mapper/src/main/java/com/example/keycloak/mapper/RoleRepository.java:75 | `trim()` yields the slice `s[i..j]` where everything before `i` and from `j` on is at or below U+0020 and the chars at `i` and `j - 1` are not, which pins the slice; it is empty exactly when every char is at or below U+0020 |
| `Text.BlankIffAllTrimmable` | keycloak-roles-mapper/src/main/java/com/example/keycloak/mapper/RoleRepository.java:91 | a string is blank (`trim().isEmpty()`) iff every char is at or below U+0020; the empty string is blank |
| `Text.SkipLeading` | keycloak-roles-mapper/src/main/java/com/example/keycloak/mapper/RoleRepository.java:114 | the start of the trimmed text: everything before it is whitespace, the char at it is not |
| `Text.SkipTrailing` | keycloak-roles-mapper/src/main/java/com/example/keycloak/mapper/RoleRepository.java:114 | the end of the trimmed text: everything after it is whitespace, the char before it is not |
| `Claims.StringList` | keycloak-roles-mapper/src/main/java/com/example/keycloak/mapper/ExternalRolesProtocolMapper.java:122 | a `List<String>` put into the claims is a JSON array of the same length holding each string at the same index |
| `Claims.StringItems` | spring-resource-server/src/main/java/com/example/resourceserver/config/SecurityConfig.java:66 | a JSON list reads as strings iff every element is a string, and then element i is the i-th string |
| `Claims.StringListRoundTrip` | keycloak-roles-mapper/src/main/java/com/example/keycloak/mapper/ExternalRolesProtocolMapper.java:122 | reading back the list a claim was written with gives exactly that list |
| `Claims.AsStringsInverse` | spring-resource-server/src/main/java/com/example/resourceserver/config/SecurityConfig.java:66 | any claim value that reads as a string list is the encoding of that list |
| `RoleStore.GetEnvOrDefault` | keycloak-roles-mapper/src/main/java/com/example/keycloak/mapper/RoleRepository.java:112-115 | the environment value when present and not blank, otherwise the default; a non-blank default always gives a non-blank result |
| `RoleStore.ParseInteger` | keycloak-roles-mapper/src/main/java/com/example/keycloak/mapper/RoleRepository.java:47-51 | `parseInt`/`parseLong` return only values inside the type's range |
| `RoleStore.ParseIntegerAccepts` | keycloak-roles-mapper/src/main/java/com/example/keycloak/mapper/RoleRepository.java:47-51 | an accepted setting is digits with at most a leading sign and ends in a digit, so surrounding whitespace is rejected |
| `RoleStore.ParseIntegerSignedDigits` | keycloak-roles-mapper/src/main/java/com/example/keycloak/mapper/RoleRepository.java:47-51 | every numeral made of an optional `+` or `-` and one or more digits (leading zeros allowed) denotes its signed digit value and is accepted exactly when that value is in range |
| `RoleStore.ParseIntegerExamples` | keycloak-roles-mapper/src/main/java/com/example/keycloak/mapper/RoleRepository.java:47-48 | `parseInt` reads `"+10"` as 10 and `"007"` as 7 |
| `RoleStore.DecimalString` | keycloak-roles-mapper/src/main/java/com/example/keycloak/mapper/RoleRepository.java:47-51 | the decimal numeral of a non-negative number is a non-empty string of digits |
| `RoleStore.DecimalStringValue` | keycloak-roles-mapper/src/main/java/com/example/keycloak/mapper/RoleRepository.java:47-51 | the digits of a numeral denote the number it was written from |
| `RoleStore.ParseDecimalRoundTrip` | keycloak-roles-mapper/src/main/java/com/example/keycloak/mapper/RoleRepository.java:47-51 | parsing the numeral of any in-range value, positive or negative, gives that value back |
| `RoleStore.NotBlank` | keycloak-roles-mapper/src/main/java/com/example/keycloak/mapper/RoleRepository.java:114 | a string whose first char survives `trim()` is not blank |
| `RoleStore.IntSetting` | keycloak-roles-mapper/src/main/java/com/example/keycloak/mapper/RoleRepository.java:47-48 | an integer setting is `parseInt` of the environment value when present and not blank, otherwise of the default, and lies in the 32-bit range |
| `RoleStore.LongSetting` | keycloak-roles-mapper/src/main/java/com/example/keycloak/mapper/RoleRepository.java:49-51 | a long setting is `parseLong` of the environment value when present and not blank, otherwise of the default, and lies in the 64-bit range |
| `RoleStore.BuildConfig` | keycloak-roles-mapper/src/main/java/com/example/keycloak/mapper/RoleRepository.java:38-58 | building succeeds exactly when all five numeric settings parse, and otherwise fails with NumberFormatException; each field holds its setting (URL, user, password, the five numbers) or its fixed value (driver, test query, validation timeout, pool name); URL, user and password are never blank |
| `RoleStore.UnsetIntSetting` | keycloak-roles-mapper/src/main/java/com/example/keycloak/mapper/RoleRepository.java:47-48 | an unset integer setting takes the value of its default numeral |
| `RoleStore.UnsetLongSetting` | keycloak-roles-mapper/src/main/java/com/example/keycloak/mapper/RoleRepository.java:49-51 | an unset long setting takes the value of its default numeral |
| `RoleStore.DefaultNumerals` | keycloak-roles-mapper/src/main/java/com/example/keycloak/mapper/RoleRepository.java:47-51 | the default numerals are the decimal forms of 10, 2, 30000, 600000 and 1800000 |
| `RoleStore.UnsetNumericSettings` | keycloak-roles-mapper/src/main/java/com/example/keycloak/mapper/RoleRepository.java:47-51 | each of the five numeric settings, left unset, parses to its default |
| `RoleStore.DefaultsWhenUnset` | keycloak-roles-mapper/src/main/java/com/example/keycloak/mapper/RoleRepository.java:38-58 | an empty environment yields exactly the default configuration (URL, user, password, driver, 10, 2, 30000, 600000, 1800000, `SELECT 1`, 5000, pool name) |
| `RoleStore.KeepIff` | keycloak-roles-mapper/src/main/java/com/example/keycloak/mapper/RoleRepository.java:91 | a row is kept iff it is not null and holds some char above U+0020 |
| `RoleStore.FilterRoles` | keycloak-roles-mapper/src/main/java/com/example/keycloak/mapper/RoleRepository.java:89-94 | the roles kept from the rows are no more than the rows, and none is blank |
| `RoleStore.FilterRolesSingle` | keycloak-roles-mapper/src/main/java/com/example/keycloak/mapper/RoleRepository.java:90-93 | one row adds its value when it passes the row test and nothing otherwise |
| `RoleStore.FilterRolesAppend` | keycloak-roles-mapper/src/main/java/com/example/keycloak/mapper/RoleRepository.java:89-94 | filtering works row by row: the roles of `a + b` are those of `a` followed by those of `b`, so each kept row, duplicates included, adds exactly one role at its place |
| `RoleStore.FilterRolesMembership` | keycloak-roles-mapper/src/main/java/com/example/keycloak/mapper/RoleRepository.java:89-94 | a role is returned iff some row holds it and it is not blank (both directions) |
| `RoleStore.FilterRolesKeepsOrder` | keycloak-roles-mapper/src/main/java/com/example/keycloak/mapper/RoleRepository.java:24 | when the kept rows arrive in `ORDER BY role_name` order under any ordering, so do the returned roles |
| `RoleStore.InitFailure` | keycloak-roles-mapper/src/main/java/com/example/keycloak/mapper/RoleRepository.java:38-60 | initialisation succeeds iff the configuration parses and the pool starts; its failure is never an SQLException |
| `RoleStore.AfterGetDataSource` | keycloak-roles-mapper/src/main/java/com/example/keycloak/mapper/RoleRepository.java:32-66 | an existing pool, open or closed, is kept; a missing one becomes open (counted once) exactly when initialisation succeeds and stays absent when it throws; keeps the single-pool invariant |
| `RoleStore.AfterLookup` | keycloak-roles-mapper/src/main/java/com/example/keycloak/mapper/RoleRepository.java:75-83 | a null or blank name leaves the pool state alone; any other name runs `getDataSource`; keeps the single-pool invariant |
| `RoleStore.AfterShutdown` | keycloak-roles-mapper/src/main/java/com/example/keycloak/mapper/RoleRepository.java:120-125 | shutdown closes an open pool and leaves an absent or closed one alone; it never creates a pool; it keeps the single-pool invariant |
| `RoleStore.ShutdownIdempotent` | keycloak-roles-mapper/src/main/java/com/example/keycloak/mapper/RoleRepository.java:121 | a second shutdown changes nothing |
| `RoleStore.Lookup` | keycloak-roles-mapper/src/main/java/com/example/keycloak/mapper/RoleRepository.java:74-107 | the lookup throws exactly when the name is not blank, no pool exists and initialisation throws, and then with that exception, never an SQLException; blank or null name gives []; an open pool, or one created by this call, gives exactly `FilterRoles` of the rows; a closed pool or a failed query gives []; returned roles are non-blank and no more than the rows |
| `RoleStore.LookupOpenPool` | keycloak-roles-mapper/src/main/java/com/example/keycloak/mapper/RoleRepository.java:83-106 | with a pool that is open or is created by this call, a role is returned iff some row holds it and it is not blank |
| `RoleStore.RepeatedLookupAgrees` | keycloak-roles-mapper/src/main/java/com/example/keycloak/mapper/RoleRepository.java:32-107 | with the store unchanged, a second lookup gives the same answer as the first |
| `RoleStore.PaddedSettingEscapes` | keycloak-roles-mapper/src/main/java/com/example/keycloak/mapper/RoleRepository.java:100-104 | a pool size of `" 10"` is not blank, so it is used and rejected by `parseInt`; the first lookup throws NumberFormatException past the `SQLException` handler |
| `RoleStore.AtMostOnePool` | keycloak-roles-mapper/src/main/java/com/example/keycloak/mapper/RoleRepository.java:26-66 | over any sequence of lookups and shutdowns, at most one pool is ever created |
| `RoleStore.ClosedIsFinal` | keycloak-roles-mapper/src/main/java/com/example/keycloak/mapper/RoleRepository.java:33-35 | once closed, no sequence of calls reopens or replaces the pool |
| `RoleStore.NewDataSource` | keycloak-roles-mapper/src/main/java/com/example/keycloak/mapper/RoleRepository.java:38-60 | creating the pool succeeds exactly when initialisation does not fail, otherwise throws its error; a created pool is new, open and holds the parsed configuration |
| `RoleStore.HikariDataSource.constructor` | keycloak-roles-mapper/src/main/java/com/example/keycloak/mapper/RoleRepository.java:60 | a new pool holds its configuration and is open |
| `RoleStore.RoleRepository.constructor` | keycloak-roles-mapper/src/main/java/com/example/keycloak/mapper/RoleRepository.java:26 | the repository starts with no pool and none created |
| `RoleStore.RoleRepository.GetDataSource` | keycloak-roles-mapper/src/main/java/com/example/keycloak/mapper/RoleRepository.java:32-66 | the new state is `AfterGetDataSource` of the old; an existing pool is returned unchanged; a failed initialisation leaves the field null and returns its error; otherwise a fresh pool with the parsed configuration is stored and returned |
| `RoleStore.RoleRepository.GetRolesForUser` | keycloak-roles-mapper/src/main/java/com/example/keycloak/mapper/RoleRepository.java:74-107 | the result is `Lookup` of the pool status before the call, the loop over rows computing `FilterRoles`; the new state is `AfterLookup`; a blank name leaves the pool untouched |
| `RoleStore.RoleRepository.Shutdown` | keycloak-roles-mapper/src/main/java/com/example/keycloak/mapper/RoleRepository.java:120-125 | the new state is `AfterShutdown` of the old, and the field still points at the same pool |
| `ExternalRolesMapper.OutcomeOf` | keycloak-roles-mapper/src/main/java/com/example/keycloak/mapper/ExternalRolesProtocolMapper.java:116-132 | a returned list is seen as returned with that list; an exception is seen as thrown |
| `ExternalRolesMapper.RolesOf` | keycloak-roles-mapper/src/main/java/com/example/keycloak/mapper/ExternalRolesProtocolMapper.java:118-139 | the roles the claim carries: the returned list, or none for null or an exception |
| `ExternalRolesMapper.ClaimValue` | keycloak-roles-mapper/src/main/java/com/example/keycloak/mapper/ExternalRolesProtocolMapper.java:121-139 | the claim value always reads back as a string list, namely the roles returned (none for null, empty or an exception); an exception writes `[]` |
| `ExternalRolesMapper.ClaimsAfter` | keycloak-roles-mapper/src/main/java/com/example/keycloak/mapper/ExternalRolesProtocolMapper.java:105-140 | a null or blank name leaves the claims unchanged; otherwise `external_roles` is set to the outcome's value, no other key is added, and no other claim changes |
| `ExternalRolesMapper.SetClaimIdempotent` | keycloak-roles-mapper/src/main/java/com/example/keycloak/mapper/ExternalRolesProtocolMapper.java:122-139 | running the mapper twice with the same outcome equals running it once |
| `ExternalRolesMapper.ClaimReadsBackAsRoles` | keycloak-roles-mapper/src/main/java/com/example/keycloak/mapper/ExternalRolesProtocolMapper.java:116-140 | for a named user the claim is always present and reads back as the roles found; an exception or null leaves `[]` |
| `ExternalRolesMapper.IDToken.constructor` | keycloak-roles-mapper/src/main/java/com/example/keycloak/mapper/ExternalRolesProtocolMapper.java:97 | a token starts with the given claims |
| `ExternalRolesMapper.SetClaim` | keycloak-roles-mapper/src/main/java/com/example/keycloak/mapper/ExternalRolesProtocolMapper.java:97-141 | the token's claims become `ClaimsAfter` of the old claims and the repository's lookup; the repository's state follows `AfterLookup`; a blank name touches neither |
| `ExternalRolesMapper.PutClaim` | keycloak-roles-mapper/src/main/java/com/example/keycloak/mapper/ExternalRolesProtocolMapper.java:121-139 | the claim map gains `external_roles` set to `ClaimValue` of the lookup's result, and nothing else changes |
| `ClientSecurity.ClaimAuthorities` | spring-client/src/main/java/com/example/config/SecurityConfig.java:69-76 | every authority added from the claim is a simple authority starting with `ROLE_` |
| `ClientSecurity.ClaimAuthoritiesMembership` | spring-client/src/main/java/com/example/config/SecurityConfig.java:70-74 | `ROLE_<name>` is added iff `name` is a string element of the list |
| `ClientSecurity.PrefixCancels` | spring-client/src/main/java/com/example/config/SecurityConfig.java:73 | `"ROLE_" + a == "ROLE_" + b` only when `a == b` |
| `ClientSecurity.ClaimAuthoritiesFromElements` | spring-client/src/main/java/com/example/config/SecurityConfig.java:70-74 | every added authority is `ROLE_` followed by some string element of the list |
| `ClientSecurity.MappedAuthorities` | spring-client/src/main/java/com/example/config/SecurityConfig.java:64-76 | the defaults are kept; anything beyond them is a `ROLE_` simple authority; a missing or non-list claim adds nothing |
| `ClientSecurity.MapAuthorities` | spring-client/src/main/java/com/example/config/SecurityConfig.java:60-84 | the loop over the claim's elements returns exactly `MappedAuthorities` |
| `ClientSecurity.RoleGrantedIff` | spring-client/src/main/java/com/example/config/SecurityConfig.java:64-76 | for a list claim, `ROLE_<name>` is granted iff `name` is a string element or the defaults already hold it |
| `ClientSecurity.OrderAndDuplicatesIrrelevant` | spring-client/src/main/java/com/example/config/SecurityConfig.java:64-73 | lists with the same elements, in any order and with any repetition, give the same authorities |
| `ClientSecurity.PermutationIrrelevant` | spring-client/src/main/java/com/example/config/SecurityConfig.java:64-73 | a permutation of the list gives the same authorities |
| `ResourceServerSecurity.ClaimAsStringList` | spring-resource-server/src/main/java/com/example/resourceserver/config/SecurityConfig.java:66 | an absent claim reads as null; a present array of strings reads as its strings; a list read from a claim is exactly the list the claim encodes |
| `ResourceServerSecurity.ClaimAsStringListReadsWritten` | spring-resource-server/src/main/java/com/example/resourceserver/config/SecurityConfig.java:66 | a claim written as a string list reads back as that list, and a claim reads as a list exactly when it is that list's encoding |
| `ResourceServerSecurity.PrefixRoles` | spring-resource-server/src/main/java/com/example/resourceserver/config/SecurityConfig.java:73-75 | the stream map gives one authority per role, at the same index, `ROLE_<role>` |
| `ResourceServerSecurity.Convert` | spring-resource-server/src/main/java/com/example/resourceserver/config/SecurityConfig.java:64-76 | an absent claim gives no authority; otherwise one per role, in order, `ROLE_<role>` (an empty list gives none) |
| `ResourceServerSecurity.StripAll` | spring-resource-server/src/main/java/com/example/resourceserver/config/SecurityConfig.java:74 | removing the prefix works element by element, preserving length |
| `ResourceServerSecurity.ConvertOnlyRoles` | spring-resource-server/src/main/java/com/example/resourceserver/config/SecurityConfig.java:53-76 | the converter replaces the default one, so every authority is a simple `ROLE_` one |
| `ResourceServerSecurity.StripRoundTrip` | spring-resource-server/src/main/java/com/example/resourceserver/config/SecurityConfig.java:74 | stripping `ROLE_` from the converted authorities gives back the claim's list |
| `ResourceServerSecurity.ConvertInjective` | spring-resource-server/src/main/java/com/example/resourceserver/config/SecurityConfig.java:74 | different role lists give different authority lists |
| `ResourceServerSecurity.HasRole` | spring-resource-server/src/main/java/com/example/resourceserver/controller/ApiController.java:57 | `hasRole(role)` holds iff some granted authority's string is `ROLE_<role>` |
| `ResourceServerSecurity.HasRoleIff` | spring-resource-server/src/main/java/com/example/resourceserver/controller/ApiController.java:57 | `hasRole(role)` holds of the converted claim iff the claim is present and contains `role` |
| `ResourceServerSecurity.EndpointGates` | spring-resource-server/src/main/java/com/example/resourceserver/controller/ApiController.java:56-80 | `/api/admin` opens iff the claim holds ARCHITECT, `/api/developer` iff it holds DEVELOPER |
| `Pipeline.NamesAgree` | keycloak-roles-mapper/src/main/java/com/example/keycloak/mapper/ExternalRolesProtocolMapper.java:38 | the mapper's claim name and the two consumers' claim names and role prefixes are the same strings |
| `Pipeline.ResourceServerSeesLookup` | spring-resource-server/src/main/java/com/example/resourceserver/config/SecurityConfig.java:64-76 | for a token issued to a named user, `hasRole(role)` holds iff the lookup found `role` |
| `Pipeline.ClientSeesLookup` | spring-client/src/main/java/com/example/config/SecurityConfig.java:64-76 | for an ID token issued to a named user, `ROLE_<role>` is granted iff the lookup found `role` or the defaults hold it |
| `Pipeline.StoredRowGrantsRole` | keycloak-roles-mapper/src/main/java/com/example/keycloak/mapper/RoleRepository.java:89-94 | with an open pool, the resource server grants `role` iff a stored row holds it and it is not blank |
| `Pipeline.FailureDeniesEveryRole` | keycloak-roles-mapper/src/main/java/com/example/keycloak/mapper/ExternalRolesProtocolMapper.java:132-139 | a failed query, a closed pool or a thrown initialisation issues `[]`, and then no role gate opens |
| `Pipeline.AliceRows` | keycloak-roles-mapper/src/main/java/com/example/keycloak/mapper/RoleRepository.java:89-94 | the rows ARCHITECT and DEVELOPER are kept as they are |
| `Pipeline.Alice` | spring-resource-server/src/main/java/com/example/resourceserver/controller/ApiController.java:56-80 | alice's token carries ARCHITECT and DEVELOPER, opens both gates and grants no other role |
| `Pipeline.Bob` | keycloak-roles-mapper/src/main/java/com/example/keycloak/mapper/ExternalRolesProtocolMapper.java:125-130 | a user with no rows gets `[]` and no role |
| `Pipeline.EscapedErrorStillWritesEmptyClaim` | keycloak-roles-mapper/src/main/java/com/example/keycloak/mapper/ExternalRolesProtocolMapper.java:132-139 | the NumberFormatException the repository lets escape is caught by the mapper, which writes `[]` |

## Left out

- Concurrency: the `volatile` field and the double-checked locking of `getDataSource` are not modelled. Calls are sequential, so `AtMostOnePool` says nothing about racing threads.
- JDBC and HikariCP internals (connections, statements, result sets, validation queries, timeouts, `isClosed()`) are inputs: a query outcome, a start-up flag and a `closed` flag.
- `RoleStore.ParseInteger`: accepts ASCII digits only. `Character.digit` also accepts other Unicode decimal digits, which are not modelled.
- Logging, `System.out`/`System.err` output and the timing of the lookup (`currentTimeMillis`) do nothing observable and are left out.
- `System.getenv` is a map parameter. The user session, `getUser().getUsername()` and the mapper model are reduced to the user name.
- The Keycloak SPI metadata (`getId`, `getDisplayType`, `getDisplayCategory`, `getHelpText`, `getConfigProperties`) is left out. So are the three "add to token" toggles that decide which tokens run the mapper; every token kind shares the modelled `setClaim`.
- The Spring wiring (filter chains, `@Bean`s, `delegate.loadUser`, building `DefaultOidcUser`, `@PreAuthorize` interception) is left out. The client's default authorities are a parameter; the method guards are the `HasRole` predicate.
- `ResourceServerSecurity.HasRole`: Spring's `hasRole` does not add `ROLE_` to a name that already starts with it, so `hasRole('ROLE_X')` matches `ROLE_X`. The predicate always adds the prefix. The API only passes `ARCHITECT` and `DEVELOPER`, which do not start with it.
- HikariConfig's setters throw `IllegalArgumentException` for some values (for example a pool size below 1). That exception also escapes `getRolesForUser` and is caught by the mapper, but the model does not produce it: this validation is library behaviour, and `BuildConfig` fails only for a setting that does not parse.
- `ResourceServerSecurity.ClaimAsStringList`: models `getClaimAsStringList` only for an absent claim or an array of strings. Any other shape reads as absent. Spring's conversion of other element types to strings is not modelled.
- JSON serialisation of tokens and the order of a `HashSet` are not modelled. Claims are values and the client's authorities form a set.
