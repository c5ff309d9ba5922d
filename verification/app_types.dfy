/**
 * The values the context-resolution pipeline passes around: identifiers,
 * the resolved application context, the tenant configuration, and the
 * inbound request as the resolvers see it.
 */
module AppTypes {
  import opened Wrappers

  /** `java.util.UUID`: a 128-bit value, equal when both halves are equal. */
  datatype Uuid = Uuid(mostSigBits: bv64, leastSigBits: bv64)

  /** A decoded JWT: its `sub` claim and its other claims as strings. */
  datatype Jwt = Jwt(subject: Option<string>, claims: map<string, string>)

  /** `jwt.getClaimAsString(name)`: null when the claim is absent. */
  function ClaimAsString(jwt: Jwt, name: string): Option<string> {
    if name in jwt.claims then Some(jwt.claims[name]) else None
  }

  /** The principal of an authentication: a JWT, or anything else (including null). */
  datatype Principal = JwtPrincipal(jwt: Jwt) | OtherPrincipal

  /**
   * What the reactive security context holds for the request: no context at
   * all, a context whose authentication is null, or an authentication.
   */
  datatype SecurityState =
    | NoSecurityContext
    | NullAuthentication
    | Authenticated(principal: Principal)

  /**
   * The inbound exchange together with its security context. `headerIds`
   * and `pathIds` are what the identifier-extraction helpers yield for each
   * header name and path variable name: a UUID, or nothing.
   */
  datatype Request = Request(
    security: SecurityState,
    headerIds: map<string, Uuid>,
    pathIds: map<string, Uuid>)

  /** `AppContext`: who is calling, under which tenant, and at which scope. */
  datatype AppContext = AppContext(
    partyId: Uuid,
    tenantId: Uuid,
    contractId: Option<Uuid>,
    productId: Option<Uuid>,
    roles: set<string>,
    permissions: set<string>)

  /** `AppConfig`: a tenant's configuration. Fields the builder leaves unset are None or empty. */
  datatype AppConfig = AppConfig(
    tenantId: Option<Uuid>,
    tenantName: Option<string>,
    featureFlags: map<string, bool>,
    settings: map<string, string>,
    active: bool)

  /** `ApplicationExecutionContext`: a resolved context paired with its tenant's configuration. */
  datatype ApplicationExecutionContext = ApplicationExecutionContext(context: AppContext, config: AppConfig)
}
