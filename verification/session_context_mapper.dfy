/**
 * Mapping of a session snapshot to role codes and permission strings,
 * scoped by an optional contract id and an optional product id, and the
 * two access queries over the same snapshot.
 *
 * Every field of the session records may be null in the source; each is an
 * `Option` here, and `Boolean.TRUE.equals(x)` is `IsTrue(x)`.
 */
module SessionContextMapper {
  import opened Wrappers
  import opened AppTypes
  import opened JavaStrings

  datatype RoleScopeInfo = RoleScopeInfo(
    isActive: Option<bool>,
    actionType: Option<string>,
    resourceType: Option<string>)

  datatype RoleInfo = RoleInfo(
    roleCode: Option<string>,
    isActive: Option<bool>,
    scopes: Option<seq<RoleScopeInfo>>)

  datatype ProductInfo = ProductInfo(productId: Option<Uuid>)

  /** One contract membership of the party, with its role in that contract. */
  datatype ContractInfo = ContractInfo(
    isActive: Option<bool>,
    contractId: Option<Uuid>,
    product: Option<ProductInfo>,
    roleInContract: Option<RoleInfo>)

  datatype SessionContext = SessionContext(activeContracts: Option<seq<ContractInfo>>)

  /** `Boolean.TRUE.equals(b)`: null and false are both not true. */
  predicate IsTrue(b: Option<bool>) {
    b == Some(true)
  }

  /** The memberships of a session; a null session or a null list has none. */
  function Memberships(session: Option<SessionContext>): seq<ContractInfo> {
    if session.None? || session.value.activeContracts.None? then [] else session.value.activeContracts.value
  }

  /**
   * A membership survives the three `continue` guards of the extractors: it is
   * active, it is the requested contract (when one is requested), and it has
   * the requested product (when one is requested).
   */
  predicate InScope(m: ContractInfo, contractId: Option<Uuid>, productId: Option<Uuid>) {
    && IsTrue(m.isActive)
    && (contractId.None? || m.contractId == contractId)
    && (productId.None? || (m.product.Some? && m.product.value.productId == productId))
  }

  // ---------------------------------------------------------------------------
  // Roles
  // ---------------------------------------------------------------------------

  /** The role code a surviving membership adds: its role is present and active, its code non-null and non-blank. */
  function RoleContribution(m: ContractInfo): Option<string> {
    if && m.roleInContract.Some?
       && IsTrue(m.roleInContract.value.isActive)
       && m.roleInContract.value.roleCode.Some?
       && !IsBlank(m.roleInContract.value.roleCode.value)
    then m.roleInContract.value.roleCode
    else None
  }

  /** The roles collected from a list of memberships, membership by membership. */
  function RolesIn(ms: seq<ContractInfo>, contractId: Option<Uuid>, productId: Option<Uuid>): set<string>
    decreases |ms|
  {
    if ms == [] then {}
    else
      var rest := RolesIn(ms[..|ms| - 1], contractId, productId);
      var m := ms[|ms| - 1];
      if InScope(m, contractId, productId) && RoleContribution(m).Some? then rest + {RoleContribution(m).value} else rest
  }

  /** The value `extractRoles` returns. */
  function Roles(session: Option<SessionContext>, contractId: Option<Uuid>, productId: Option<Uuid>): set<string> {
    RolesIn(Memberships(session), contractId, productId)
  }

  /** A role is collected exactly when some surviving membership contributes it. */
  lemma {:induction false} RolesInExactly(ms: seq<ContractInfo>, contractId: Option<Uuid>, productId: Option<Uuid>, r: string)
    ensures r in RolesIn(ms, contractId, productId) <==>
            exists m :: m in ms && InScope(m, contractId, productId) && RoleContribution(m) == Some(r)
    decreases |ms|
  {
    if ms != [] {
      var init, last := ms[..|ms| - 1], ms[|ms| - 1];
      assert ms == init + [last];
      RolesInExactly(init, contractId, productId, r);
      assert forall m :: m in ms <==> m in init || m == last;
    }
  }

  /**
   * `extractRoles(sessionContext, contractId, productId)`: walks the memberships,
   * skipping those the guards reject, and adds each active role's non-blank code.
   */
  method ExtractRoles(sessionContext: Option<SessionContext>, contractId: Option<Uuid>, productId: Option<Uuid>)
    returns (roles: set<string>)
    ensures roles == Roles(sessionContext, contractId, productId)
    ensures forall r :: r in roles <==>
      exists m :: m in Memberships(sessionContext) && InScope(m, contractId, productId) && RoleContribution(m) == Some(r)
  {
    if sessionContext.None? || sessionContext.value.activeContracts.None? {
      roles := {};
    } else {
      var contracts := sessionContext.value.activeContracts.value;
      roles := {};
      for i := 0 to |contracts|
        invariant roles == RolesIn(contracts[..i], contractId, productId)
      {
        var contract := contracts[i];
        assert contracts[..i + 1][..i] == contracts[..i];
        if !IsTrue(contract.isActive) {
          continue;
        }
        if contractId.Some? && contractId != contract.contractId {
          continue;
        }
        if productId.Some? && (contract.product.None? || productId != contract.product.value.productId) {
          continue;
        }
        if contract.roleInContract.Some? && IsTrue(contract.roleInContract.value.isActive) {
          var roleCode := contract.roleInContract.value.roleCode;
          if roleCode.Some? && !IsBlank(roleCode.value) {
            roles := roles + {roleCode.value};
          }
        }
      }
      assert contracts[..|contracts|] == contracts;
    }
    forall r ensures r in roles <==>
      exists m :: m in Memberships(sessionContext) && InScope(m, contractId, productId) && RoleContribution(m) == Some(r)
    {
      RolesInExactly(Memberships(sessionContext), contractId, productId, r);
    }
  }

  // ---------------------------------------------------------------------------
  // Permissions
  // ---------------------------------------------------------------------------

  /** A scope yields a permission when it is active and names both an action and a resource. */
  predicate ScopeGrants(scope: RoleScopeInfo) {
    IsTrue(scope.isActive) && scope.actionType.Some? && scope.resourceType.Some?
  }

  /** `roleCode:actionType:resourceType`, with "unknown" standing in for a null role code. */
  function Permission(roleCode: Option<string>, scope: RoleScopeInfo): string
    requires ScopeGrants(scope)
  {
    roleCode.GetOr("unknown") + ":" + scope.actionType.value + ":" + scope.resourceType.value
  }

  /** The permissions the scopes of one role yield. */
  function ScopePermissions(roleCode: Option<string>, scopes: seq<RoleScopeInfo>): set<string>
    decreases |scopes|
  {
    if scopes == [] then {}
    else
      var rest := ScopePermissions(roleCode, scopes[..|scopes| - 1]);
      var s := scopes[|scopes| - 1];
      if ScopeGrants(s) then rest + {Permission(roleCode, s)} else rest
  }

  /** A membership's role can yield permissions: it is present, active, and has a non-null scope list. */
  predicate RoleGrantsPermissions(m: ContractInfo) {
    m.roleInContract.Some? && IsTrue(m.roleInContract.value.isActive) && m.roleInContract.value.scopes.Some?
  }

  /** The scopes of a membership's role; none when the role or its scope list is null. */
  function ScopesOf(m: ContractInfo): seq<RoleScopeInfo> {
    if m.roleInContract.Some? && m.roleInContract.value.scopes.Some? then m.roleInContract.value.scopes.value else []
  }

  function RoleCodeOf(m: ContractInfo): Option<string> {
    if m.roleInContract.Some? then m.roleInContract.value.roleCode else None
  }

  /** The permissions collected from a list of memberships, membership by membership. */
  function PermissionsIn(ms: seq<ContractInfo>, contractId: Option<Uuid>, productId: Option<Uuid>): set<string>
    decreases |ms|
  {
    if ms == [] then {}
    else
      var rest := PermissionsIn(ms[..|ms| - 1], contractId, productId);
      var m := ms[|ms| - 1];
      if InScope(m, contractId, productId) && RoleGrantsPermissions(m)
      then rest + ScopePermissions(RoleCodeOf(m), ScopesOf(m))
      else rest
  }

  /** The value `extractPermissions` returns. */
  function Permissions(session: Option<SessionContext>, contractId: Option<Uuid>, productId: Option<Uuid>): set<string> {
    PermissionsIn(Memberships(session), contractId, productId)
  }

  /** Membership `m` with its scope `s` yields permission `x` under the given scoping. */
  predicate Grants(m: ContractInfo, s: RoleScopeInfo, contractId: Option<Uuid>, productId: Option<Uuid>, x: string) {
    && InScope(m, contractId, productId)
    && RoleGrantsPermissions(m)
    && ScopeGrants(s)
    && x == Permission(RoleCodeOf(m), s)
  }

  lemma {:induction false} ScopePermissionsExactly(roleCode: Option<string>, scopes: seq<RoleScopeInfo>, x: string)
    ensures x in ScopePermissions(roleCode, scopes) <==>
            exists s :: s in scopes && ScopeGrants(s) && x == Permission(roleCode, s)
    decreases |scopes|
  {
    if scopes != [] {
      var init, last := scopes[..|scopes| - 1], scopes[|scopes| - 1];
      assert scopes == init + [last];
      ScopePermissionsExactly(roleCode, init, x);
      assert forall s :: s in scopes <==> s in init || s == last;
    }
  }

  /**
   * A permission is collected exactly when some surviving membership with an
   * active role has an active scope naming an action and a resource, and the
   * permission is that role's code (or "unknown"), the action and the resource.
   */
  lemma {:induction false} PermissionsInExactly(ms: seq<ContractInfo>, contractId: Option<Uuid>, productId: Option<Uuid>, x: string)
    ensures x in PermissionsIn(ms, contractId, productId) <==>
            exists m, s :: m in ms && s in ScopesOf(m) && Grants(m, s, contractId, productId, x)
    decreases |ms|
  {
    if ms != [] {
      var init, last := ms[..|ms| - 1], ms[|ms| - 1];
      assert ms == init + [last];
      PermissionsInExactly(init, contractId, productId, x);
      ScopePermissionsExactly(RoleCodeOf(last), ScopesOf(last), x);
      assert forall m :: m in ms <==> m in init || m == last;
    }
  }

  /**
   * `extractPermissions(sessionContext, contractId, productId)`: walks the
   * memberships as `extractRoles` does and, under each active role with a scope
   * list, formats one permission per active scope naming an action and a resource.
   */
  method ExtractPermissions(sessionContext: Option<SessionContext>, contractId: Option<Uuid>, productId: Option<Uuid>)
    returns (permissions: set<string>)
    ensures permissions == Permissions(sessionContext, contractId, productId)
    ensures forall x :: x in permissions <==>
      exists m, s :: m in Memberships(sessionContext) && s in ScopesOf(m) && Grants(m, s, contractId, productId, x)
  {
    if sessionContext.None? || sessionContext.value.activeContracts.None? {
      permissions := {};
    } else {
      var contracts := sessionContext.value.activeContracts.value;
      permissions := {};
      for i := 0 to |contracts|
        invariant permissions == PermissionsIn(contracts[..i], contractId, productId)
      {
        var contract := contracts[i];
        assert contracts[..i + 1][..i] == contracts[..i];
        if !IsTrue(contract.isActive) {
          continue;
        }
        if contractId.Some? && contractId != contract.contractId {
          continue;
        }
        if productId.Some? && (contract.product.None? || productId != contract.product.value.productId) {
          continue;
        }
        if && contract.roleInContract.Some?
           && IsTrue(contract.roleInContract.value.isActive)
           && contract.roleInContract.value.scopes.Some?
        {
          var roleCode := contract.roleInContract.value.roleCode;
          var scopes := contract.roleInContract.value.scopes.value;
          ghost var before := permissions;
          for j := 0 to |scopes|
            invariant permissions == before + ScopePermissions(roleCode, scopes[..j])
          {
            var scope := scopes[j];
            assert scopes[..j + 1][..j] == scopes[..j];
            if IsTrue(scope.isActive) && scope.actionType.Some? && scope.resourceType.Some? {
              var permission := roleCode.GetOr("unknown") + ":" + scope.actionType.value + ":" + scope.resourceType.value;
              permissions := permissions + {permission};
            }
          }
          assert scopes[..|scopes|] == scopes;
        }
      }
      assert contracts[..|contracts|] == contracts;
    }
    forall x ensures x in permissions <==>
      exists m, s :: m in Memberships(sessionContext) && s in ScopesOf(m) && Grants(m, s, contractId, productId, x)
    {
      PermissionsInExactly(Memberships(sessionContext), contractId, productId, x);
    }
  }

  // ---------------------------------------------------------------------------
  // Access queries
  // ---------------------------------------------------------------------------

  /** The active memberships whose product has the given id. */
  predicate OnProduct(m: ContractInfo, productId: Uuid) {
    IsTrue(m.isActive) && m.product.Some? && m.product.value.productId == Some(productId)
  }

  function AnyOnProduct(ms: seq<ContractInfo>, productId: Uuid): (b: bool)
    ensures b <==> exists m :: m in ms && OnProduct(m, productId)
    decreases |ms|
  {
    if ms == [] then false
    else
      assert ms == [ms[0]] + ms[1..];
      OnProduct(ms[0], productId) || AnyOnProduct(ms[1..], productId)
  }

  /**
   * `hasAccessToProduct(sessionContext, productId)`: some active membership is
   * on that product. The membership's role plays no part.
   */
  function HasAccessToProduct(sessionContext: Option<SessionContext>, productId: Option<Uuid>): (b: bool)
    ensures b <==> productId.Some? && exists m :: m in Memberships(sessionContext) && OnProduct(m, productId.value)
  {
    if sessionContext.None? || sessionContext.value.activeContracts.None? || productId.None? then false
    else AnyOnProduct(sessionContext.value.activeContracts.value, productId.value)
  }

  /** An active scope whose action (and resource, when one is asked for) match, ignoring case. */
  predicate ScopeMatches(scope: RoleScopeInfo, actionType: string, resourceType: Option<string>) {
    && IsTrue(scope.isActive)
    && EqualsIgnoreCase(actionType, scope.actionType)
    && (resourceType.None? || EqualsIgnoreCase(resourceType.value, scope.resourceType))
  }

  function AnyScopeMatches(scopes: seq<RoleScopeInfo>, actionType: string, resourceType: Option<string>): (b: bool)
    ensures b <==> exists s :: s in scopes && ScopeMatches(s, actionType, resourceType)
    decreases |scopes|
  {
    if scopes == [] then false
    else
      assert scopes == [scopes[0]] + scopes[1..];
      ScopeMatches(scopes[0], actionType, resourceType) || AnyScopeMatches(scopes[1..], actionType, resourceType)
  }

  /** A membership on the product has a role (active or not) with a scope that matches. */
  predicate PermitsOnProduct(m: ContractInfo, productId: Uuid, actionType: string, resourceType: Option<string>) {
    OnProduct(m, productId) && AnyScopeMatches(ScopesOf(m), actionType, resourceType)
  }

  function AnyPermits(ms: seq<ContractInfo>, productId: Uuid, actionType: string, resourceType: Option<string>): (b: bool)
    ensures b <==> exists m :: m in ms && PermitsOnProduct(m, productId, actionType, resourceType)
    decreases |ms|
  {
    if ms == [] then false
    else
      assert ms == [ms[0]] + ms[1..];
      PermitsOnProduct(ms[0], productId, actionType, resourceType) || AnyPermits(ms[1..], productId, actionType, resourceType)
  }

  /**
   * `hasPermission(sessionContext, productId, actionType, resourceType)`: some
   * active membership on the product has a role whose scope list holds an
   * active scope with that action and, unless the resource is null, that
   * resource, both compared ignoring case. The role's own active flag is not read.
   */
  function HasPermission(sessionContext: Option<SessionContext>, productId: Option<Uuid>,
                         actionType: Option<string>, resourceType: Option<string>): (b: bool)
    ensures b <==>
      && productId.Some? && actionType.Some?
      && exists m, s :: m in Memberships(sessionContext) && OnProduct(m, productId.value)
                        && s in ScopesOf(m) && ScopeMatches(s, actionType.value, resourceType)
  {
    if || sessionContext.None? || sessionContext.value.activeContracts.None?
       || productId.None? || actionType.None?
    then false
    else AnyPermits(sessionContext.value.activeContracts.value, productId.value, actionType.value, resourceType)
  }
}
