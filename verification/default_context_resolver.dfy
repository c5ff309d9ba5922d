/**
 * The default context resolver: where each identifier of the context comes
 * from, in order of precedence.
 *
 * - party id: the JWT `sub`, then the JWT `partyId` claim, then the `X-Party-Id` header;
 * - tenant id: the JWT `tenantId` claim, then the `X-Tenant-Id` header;
 * - contract and product ids: the path variable, then the `X-Contract-Id` /
 *   `X-Product-Id` header, never the JWT.
 *
 * `UUID.fromString` is the `parse` argument: a UUID, or None where it would throw.
 */
module DefaultContextResolver {
  import opened Wrappers
  import opened AppTypes
  import opened Reactive

  type UuidParser = string -> Option<Uuid>

  const PartyIdHeader := "X-Party-Id"
  const TenantIdHeader := "X-Tenant-Id"
  const ContractIdHeader := "X-Contract-Id"
  const ProductIdHeader := "X-Product-Id"

  /** A JWT value is tried only when it is non-null and non-empty; a value that does not parse is skipped. */
  function ParsedClaim(value: Option<string>, parse: UuidParser): Option<Uuid> {
    if value.Some? && value.value != "" then parse(value.value) else None
  }

  /**
   * The JWT of the security context, as the `map`/`filter`/`map` chain yields
   * it: empty without a context or with a principal that is not a JWT, and an
   * error when the authentication is null (a mapper may not return null).
   */
  function JwtOf(security: SecurityState): Mono<Jwt> {
    match security
    case NoSecurityContext => Empty
    case NullAuthentication => Error(NullPointer("The mapper returned a null value."))
    case Authenticated(OtherPrincipal) => Empty
    case Authenticated(JwtPrincipal(jwt)) => Just(jwt)
  }

  /** The id a header carries, if any. */
  function HeaderOption(request: Request, header: string): Option<Uuid> {
    if header in request.headerIds then Some(request.headerIds[header]) else None
  }

  /** The result of the unseen header helper for one header. */
  function HeaderId(request: Request, header: string): Mono<Uuid> {
    FromNullable(HeaderOption(request, header))
  }

  /** The result of the unseen path-variable helper for one variable. */
  function PathId(request: Request, variable: string): Mono<Uuid> {
    if variable in request.pathIds then Just(request.pathIds[variable]) else Empty
  }

  /** The party id a JWT names: its subject if that parses, otherwise its `partyId` claim if that parses. */
  function PartyIdFromJwt(jwt: Jwt, parse: UuidParser): Option<Uuid> {
    match ParsedClaim(jwt.subject, parse)
    case Some(u) => Some(u)
    case None => ParsedClaim(ClaimAsString(jwt, "partyId"), parse)
  }

  /** The JWT principal of the security context, if there is one. */
  function JwtIn(request: Request): Option<Jwt> {
    if request.security.Authenticated? && request.security.principal.JwtPrincipal?
    then Some(request.security.principal.jwt)
    else None
  }

  /** No JWT can be read: no security context, or a principal that is not a JWT. */
  predicate NoJwt(request: Request) {
    request.security == NoSecurityContext || request.security == Authenticated(OtherPrincipal)
  }

  /**
   * `resolvePartyId(exchange)`: a subject that parses wins; otherwise a
   * `partyId` claim that parses; otherwise, and whenever no JWT is present,
   * the `X-Party-Id` header. A null authentication is an error, not a fallback.
   */
  function ResolvePartyId(request: Request, parse: UuidParser): (r: Mono<Uuid>)
    ensures JwtIn(request).Some? ==>
      var jwt := JwtIn(request).value;
      var subject := ParsedClaim(jwt.subject, parse);
      var claim := ParsedClaim(ClaimAsString(jwt, "partyId"), parse);
      && (subject.Some? ==> r == Just(subject.value))
      && (subject.None? && claim.Some? ==> r == Just(claim.value))
      && (subject.None? && claim.None? ==> r == HeaderId(request, PartyIdHeader))
    ensures NoJwt(request) ==> r == HeaderId(request, PartyIdHeader)
    ensures request.security == NullAuthentication ==> r.Error?
  {
    var fromJwt := match JwtOf(request.security)
      case Just(jwt) => FromNullable(PartyIdFromJwt(jwt, parse))
      case Empty => Empty
      case Error(e) => Error(e);
    SwitchIfEmpty(fromJwt, HeaderId(request, PartyIdHeader))
  }

  /**
   * `resolveTenantId(exchange)`: a `tenantId` claim that parses; otherwise,
   * and whenever no JWT is present, the `X-Tenant-Id` header.
   */
  function ResolveTenantId(request: Request, parse: UuidParser): (r: Mono<Uuid>)
    ensures JwtIn(request).Some? ==>
      var claim := ParsedClaim(ClaimAsString(JwtIn(request).value, "tenantId"), parse);
      && (claim.Some? ==> r == Just(claim.value))
      && (claim.None? ==> r == HeaderId(request, TenantIdHeader))
    ensures NoJwt(request) ==> r == HeaderId(request, TenantIdHeader)
    ensures request.security == NullAuthentication ==> r.Error?
  {
    var fromJwt := match JwtOf(request.security)
      case Just(jwt) => FromNullable(ParsedClaim(ClaimAsString(jwt, "tenantId"), parse))
      case Empty => Empty
      case Error(e) => Error(e);
    SwitchIfEmpty(fromJwt, HeaderId(request, TenantIdHeader))
  }

  /** `resolveContractId(exchange)`: the path variable, else the header. */
  function ResolveContractId(request: Request): (r: Mono<Uuid>)
    ensures "contractId" in request.pathIds ==> r == Just(request.pathIds["contractId"])
    ensures "contractId" !in request.pathIds ==> r == HeaderId(request, ContractIdHeader)
  {
    SwitchIfEmpty(PathId(request, "contractId"), HeaderId(request, ContractIdHeader))
  }

  /** `resolveProductId(exchange)`: the path variable, else the header. */
  function ResolveProductId(request: Request): (r: Mono<Uuid>)
    ensures "productId" in request.pathIds ==> r == Just(request.pathIds["productId"])
    ensures "productId" !in request.pathIds ==> r == HeaderId(request, ProductIdHeader)
  {
    SwitchIfEmpty(PathId(request, "productId"), HeaderId(request, ProductIdHeader))
  }

  /** Contract and product ids are never read from the security context. */
  lemma ScopeIdsIgnoreJwt(request: Request, security: SecurityState)
    ensures ResolveContractId(request.(security := security)) == ResolveContractId(request)
    ensures ResolveProductId(request.(security := security)) == ResolveProductId(request)
  {
  }

  /** `resolveRoles(context, exchange)`: not yet backed by a platform call, so empty for every context. */
  function ResolveRoles(context: AppContext, request: Request): (r: Mono<set<string>>)
    ensures r == Just({})
  {
    Just({})
  }

  /** `resolvePermissions(context, exchange)`: not yet backed by a platform call, so empty for every context. */
  function ResolvePermissions(context: AppContext, request: Request): (r: Mono<set<string>>)
    ensures r == Just({})
  {
    Just({})
  }

  /** `supports(exchange)`: the default resolver accepts every request. */
  function Supports(request: Request): (b: bool)
    ensures b
  {
    true
  }

  /** `getPriority()`: the default priority. */
  function GetPriority(): (p: int)
    ensures p == 0
  {
    0
  }

  // ---------------------------------------------------------------------------
  // The chains as "first present of an ordered list of candidates"
  // ---------------------------------------------------------------------------

  /** The first present candidate, as a `Mono`; empty when none is present. */
  function FirstPresent(candidates: seq<Option<Uuid>>): (r: Mono<Uuid>)
    ensures r.Just? <==> exists i :: 0 <= i < |candidates| && candidates[i].Some?
    ensures !r.Error?
    ensures r.Just? ==> exists i :: 0 <= i < |candidates| && candidates[i] == Some(r.value)
                                    && forall k :: 0 <= k < i ==> candidates[k].None?
    decreases |candidates|
  {
    if candidates == [] then Empty
    else if candidates[0].Some? then Just(candidates[0].value)
    else
      var rest := FirstPresent(candidates[1..]);
      assert forall i :: 1 <= i < |candidates| ==> candidates[i] == candidates[1..][i - 1];
      if rest.Just? then
        assert exists i :: 0 <= i < |candidates| && candidates[i] == Some(rest.value)
                           && forall k :: 0 <= k < i ==> candidates[k].None? by {
          var j :| 0 <= j < |candidates[1..]| && candidates[1..][j] == Some(rest.value)
                   && forall k :: 0 <= k < j ==> candidates[1..][k].None?;
          assert candidates[j + 1] == Some(rest.value);
          assert forall k :: 0 <= k < j + 1 ==> candidates[k].None?;
        }
        rest
      else rest
  }

  /**
   * With a JWT in the security context, the party id is the first present of
   * (parsed subject, parsed `partyId` claim, header); without one, the header.
   */
  lemma PartyIdIsFirstPresent(request: Request, parse: UuidParser)
    ensures JwtIn(request).Some? ==>
      var jwt := JwtIn(request).value;
      ResolvePartyId(request, parse) == FirstPresent([ParsedClaim(jwt.subject, parse),
                                                      ParsedClaim(ClaimAsString(jwt, "partyId"), parse),
                                                      HeaderOption(request, PartyIdHeader)])
    ensures NoJwt(request) ==> ResolvePartyId(request, parse) == FirstPresent([HeaderOption(request, PartyIdHeader)])
  {
    if JwtIn(request).Some? {
      var jwt := JwtIn(request).value;
      var cs := [ParsedClaim(jwt.subject, parse), ParsedClaim(ClaimAsString(jwt, "partyId"), parse),
                 HeaderOption(request, PartyIdHeader)];
      assert cs[1..] == [cs[1], cs[2]] && cs[1..][1..] == [cs[2]] && cs[1..][1..][1..] == [];
    }
  }

  /**
   * With a JWT in the security context, the tenant id is the first present of
   * (parsed `tenantId` claim, header); without one, the header.
   */
  lemma TenantIdIsFirstPresent(request: Request, parse: UuidParser)
    ensures JwtIn(request).Some? ==>
      ResolveTenantId(request, parse) == FirstPresent([ParsedClaim(ClaimAsString(JwtIn(request).value, "tenantId"), parse),
                                                       HeaderOption(request, TenantIdHeader)])
    ensures NoJwt(request) ==> ResolveTenantId(request, parse) == FirstPresent([HeaderOption(request, TenantIdHeader)])
  {
    if JwtIn(request).Some? {
      var cs := [ParsedClaim(ClaimAsString(JwtIn(request).value, "tenantId"), parse), HeaderOption(request, TenantIdHeader)];
      assert cs[1..] == [cs[1]] && cs[1..][1..] == [];
    }
  }
}
