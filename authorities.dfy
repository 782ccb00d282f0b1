/** Spring Security's granted authorities, as far as the two consumer services use them. */
module Authorities {

  /**
    `SimpleGrantedAuthority(authority)` is equal to another exactly when both
    are simple authorities with the same string; every other kind of authority
    (`OidcUserAuthority`, for one) is told apart by its kind.
   */
  datatype GrantedAuthority =
    | SimpleGrantedAuthority(authority: string)
    | OtherAuthority(kind: string, authority: string)
}
