/**
 * What the session mapper promises across calls: null sessions grant nothing,
 * memberships the guards reject contribute nothing, narrowing the scope only
 * removes roles and permissions, the order of memberships does not matter, and
 * how the two access queries relate to the extractors.
 */
module SessionScoping {
  import opened Wrappers
  import opened AppTypes
  import opened JavaStrings
  import opened SessionContextMapper

  /** A null session, or a session whose membership list is null, yields nothing from any of the four operations. */
  lemma NullSessionGrantsNothing(session: Option<SessionContext>, contractId: Option<Uuid>, productId: Option<Uuid>,
                                 actionType: Option<string>, resourceType: Option<string>)
    requires session.None? || session.value.activeContracts.None?
    ensures Roles(session, contractId, productId) == {}
    ensures Permissions(session, contractId, productId) == {}
    ensures !HasAccessToProduct(session, productId)
    ensures !HasPermission(session, productId, actionType, resourceType)
  {
  }

  /**
   * A membership that one of the three guards rejects (inactive, another
   * contract, missing or other product) can be removed without changing the
   * roles or the permissions.
   */
  lemma OutOfScopeContributesNothing(before: seq<ContractInfo>, m: ContractInfo, after: seq<ContractInfo>,
                                     contractId: Option<Uuid>, productId: Option<Uuid>)
    requires || !IsTrue(m.isActive)
             || (contractId.Some? && m.contractId != contractId)
             || (productId.Some? && (m.product.None? || m.product.value.productId != productId))
    ensures RolesIn(before + [m] + after, contractId, productId) == RolesIn(before + after, contractId, productId)
    ensures PermissionsIn(before + [m] + after, contractId, productId) == PermissionsIn(before + after, contractId, productId)
  {
    var with, without := before + [m] + after, before + after;
    assert forall n :: n in with <==> n in without || n == m;
    forall r ensures r in RolesIn(with, contractId, productId) <==> r in RolesIn(without, contractId, productId) {
      RolesInExactly(with, contractId, productId, r);
      RolesInExactly(without, contractId, productId, r);
    }
    forall x ensures x in PermissionsIn(with, contractId, productId) <==> x in PermissionsIn(without, contractId, productId) {
      PermissionsInExactly(with, contractId, productId, x);
      PermissionsInExactly(without, contractId, productId, x);
    }
  }

  /** An inactive membership (null or false) contributes no role and no permission, whatever the scope. */
  lemma InactiveMembershipContributesNothing(before: seq<ContractInfo>, m: ContractInfo, after: seq<ContractInfo>,
                                             contractId: Option<Uuid>, productId: Option<Uuid>)
    requires !IsTrue(m.isActive)
    ensures RolesIn(before + [m] + after, contractId, productId) == RolesIn(before + after, contractId, productId)
    ensures PermissionsIn(before + [m] + after, contractId, productId) == PermissionsIn(before + after, contractId, productId)
  {
    OutOfScopeContributesNothing(before, m, after, contractId, productId);
  }

  /** With a product requested, a membership with no product or another product contributes nothing. */
  lemma OtherProductContributesNothing(before: seq<ContractInfo>, m: ContractInfo, after: seq<ContractInfo>,
                                       contractId: Option<Uuid>, productId: Uuid)
    requires m.product.None? || m.product.value.productId != Some(productId)
    ensures RolesIn(before + [m] + after, contractId, Some(productId)) == RolesIn(before + after, contractId, Some(productId))
    ensures PermissionsIn(before + [m] + after, contractId, Some(productId)) == PermissionsIn(before + after, contractId, Some(productId))
  {
    OutOfScopeContributesNothing(before, m, after, contractId, Some(productId));
  }

  /** If every membership in the first scope is in the second, the first scope yields no more. */
  lemma ScopeMonotone(ms: seq<ContractInfo>, c1: Option<Uuid>, p1: Option<Uuid>, c2: Option<Uuid>, p2: Option<Uuid>)
    requires forall m :: m in ms && InScope(m, c1, p1) ==> InScope(m, c2, p2)
    ensures RolesIn(ms, c1, p1) <= RolesIn(ms, c2, p2)
    ensures PermissionsIn(ms, c1, p1) <= PermissionsIn(ms, c2, p2)
  {
    forall r | r in RolesIn(ms, c1, p1) ensures r in RolesIn(ms, c2, p2) {
      RolesInExactly(ms, c1, p1, r);
      RolesInExactly(ms, c2, p2, r);
    }
    forall x | x in PermissionsIn(ms, c1, p1) ensures x in PermissionsIn(ms, c2, p2) {
      PermissionsInExactly(ms, c1, p1, x);
      PermissionsInExactly(ms, c2, p2, x);
    }
  }

  /**
   * Scoping only removes: the product view is within the contract view, which
   * is within the unscoped party view.
   */
  lemma ScopingOnlyRemoves(session: Option<SessionContext>, contractId: Option<Uuid>, productId: Option<Uuid>)
    ensures Roles(session, contractId, productId) <= Roles(session, contractId, None) <= Roles(session, None, None)
    ensures Permissions(session, contractId, productId) <= Permissions(session, contractId, None) <= Permissions(session, None, None)
  {
    var ms := Memberships(session);
    ScopeMonotone(ms, contractId, productId, contractId, None);
    ScopeMonotone(ms, contractId, None, None, None);
  }

  /** The extractors depend only on which memberships there are, not on their order. */
  lemma MembershipOrderIrrelevant(ms1: seq<ContractInfo>, ms2: seq<ContractInfo>, contractId: Option<Uuid>, productId: Option<Uuid>)
    requires multiset(ms1) == multiset(ms2)
    ensures RolesIn(ms1, contractId, productId) == RolesIn(ms2, contractId, productId)
    ensures PermissionsIn(ms1, contractId, productId) == PermissionsIn(ms2, contractId, productId)
  {
    assert forall m :: m in ms1 <==> m in multiset(ms1);
    assert forall m :: m in ms2 <==> m in multiset(ms2);
    ScopeMonotone(ms1, contractId, productId, contractId, productId);
    forall r ensures r in RolesIn(ms1, contractId, productId) <==> r in RolesIn(ms2, contractId, productId) {
      RolesInExactly(ms1, contractId, productId, r);
      RolesInExactly(ms2, contractId, productId, r);
    }
    forall x ensures x in PermissionsIn(ms1, contractId, productId) <==> x in PermissionsIn(ms2, contractId, productId) {
      PermissionsInExactly(ms1, contractId, productId, x);
      PermissionsInExactly(ms2, contractId, productId, x);
    }
  }

  /**
   * Product access is exactly "some membership survives the product-only
   * scope", so any role or permission at a product scope implies access to
   * that product.
   */
  lemma ProductScopedGrantImpliesAccess(session: Option<SessionContext>, contractId: Option<Uuid>, productId: Uuid)
    ensures HasAccessToProduct(session, Some(productId)) <==>
            exists m :: m in Memberships(session) && InScope(m, None, Some(productId))
    ensures Roles(session, contractId, Some(productId)) != {} ==> HasAccessToProduct(session, Some(productId))
    ensures Permissions(session, contractId, Some(productId)) != {} ==> HasAccessToProduct(session, Some(productId))
  {
    var ms := Memberships(session);
    if Roles(session, contractId, Some(productId)) != {} {
      var r :| r in RolesIn(ms, contractId, Some(productId));
      RolesInExactly(ms, contractId, Some(productId), r);
    }
    if Permissions(session, contractId, Some(productId)) != {} {
      var x :| x in PermissionsIn(ms, contractId, Some(productId));
      PermissionsInExactly(ms, contractId, Some(productId), x);
    }
  }

  /** Every permission the extractor yields at a product scope is one `hasPermission` confirms for its action and resource. */
  lemma ExtractedPermissionIsConfirmed(session: Option<SessionContext>, m: ContractInfo, s: RoleScopeInfo,
                                       contractId: Option<Uuid>, productId: Uuid, x: string)
    requires m in Memberships(session) && s in ScopesOf(m)
    requires Grants(m, s, contractId, Some(productId), x)
    ensures HasPermission(session, Some(productId), s.actionType, s.resourceType)
  {
    EqualsIgnoreCaseReflexive(s.actionType.value);
    EqualsIgnoreCaseReflexive(s.resourceType.value);
    assert ScopeMatches(s, s.actionType.value, s.resourceType);
  }

  /** `hasPermission` does not distinguish action or resource names that differ only in ASCII case. */
  lemma HasPermissionIgnoresCase(session: Option<SessionContext>, productId: Option<Uuid>,
                                 a1: string, a2: string, r1: Option<string>, r2: Option<string>)
    requires FoldCase(a1) == FoldCase(a2)
    requires r1.None? <==> r2.None?
    requires r1.Some? ==> FoldCase(r1.value) == FoldCase(r2.value)
    ensures HasPermission(session, productId, Some(a1), r1) == HasPermission(session, productId, Some(a2), r2)
  {
    assert forall s :: ScopeMatches(s, a1, r1) <==> ScopeMatches(s, a2, r2);
  }

  /** A null resource type matches any resource: asking without one never gives a narrower answer. */
  lemma NullResourceMatchesAny(session: Option<SessionContext>, productId: Option<Uuid>, actionType: Option<string>, resourceType: string)
    ensures HasPermission(session, productId, actionType, Some(resourceType)) ==> HasPermission(session, productId, actionType, None)
    ensures actionType.None? ==> !HasPermission(session, productId, actionType, None)
  {
    if HasPermission(session, productId, actionType, Some(resourceType)) {
      var m, s :| m in Memberships(session) && OnProduct(m, productId.value)
                  && s in ScopesOf(m) && ScopeMatches(s, actionType.value, Some(resourceType));
      assert ScopeMatches(s, actionType.value, None);
    }
  }

  /**
   * Unlike the extractors, `hasPermission` does not read the role's active
   * flag: an inactive role's scope is confirmed although no permission is extracted.
   */
  lemma HasPermissionIgnoresRoleActiveFlag()
    ensures
      var product := Uuid(1, 2);
      var scope := RoleScopeInfo(Some(true), Some("READ"), Some("BALANCE"));
      var role := RoleInfo(Some("owner"), Some(false), Some([scope]));
      var session := Some(SessionContext(Some([ContractInfo(Some(true), Some(Uuid(3, 4)), Some(ProductInfo(Some(product))), Some(role))])));
      && HasPermission(session, Some(product), Some("read"), Some("balance"))
      && Permissions(session, None, Some(product)) == {}
  {
    var product := Uuid(1, 2);
    var scope := RoleScopeInfo(Some(true), Some("READ"), Some("BALANCE"));
    var role := RoleInfo(Some("owner"), Some(false), Some([scope]));
    var m := ContractInfo(Some(true), Some(Uuid(3, 4)), Some(ProductInfo(Some(product))), Some(role));
    var session := Some(SessionContext(Some([m])));
    assert FoldCase("read") == FoldCase("READ");
    assert FoldCase("balance") == FoldCase("BALANCE");
    assert ScopeMatches(scope, "read", Some("balance"));
    assert scope in ScopesOf(m);
    assert [m][..0] == [];
  }

  /**
   * One active membership for contract C1 without a product, role "owner"
   * with the active scope (READ, BALANCE): the contract view of C1 has role
   * "owner" and permission "owner:READ:BALANCE"; the view of another contract is empty.
   */
  lemma SingleOwnerMembership(c1: Uuid, c2: Uuid)
    requires c1 != c2
    ensures
      var scope := RoleScopeInfo(Some(true), Some("READ"), Some("BALANCE"));
      var role := RoleInfo(Some("owner"), Some(true), Some([scope]));
      var session := Some(SessionContext(Some([ContractInfo(Some(true), Some(c1), None, Some(role))])));
      && Roles(session, Some(c1), None) == {"owner"}
      && Permissions(session, Some(c1), None) == {"owner:READ:BALANCE"}
      && Roles(session, Some(c2), None) == {}
      && Permissions(session, Some(c2), None) == {}
  {
    var scope := RoleScopeInfo(Some(true), Some("READ"), Some("BALANCE"));
    var role := RoleInfo(Some("owner"), Some(true), Some([scope]));
    var m := ContractInfo(Some(true), Some(c1), None, Some(role));
    var session := Some(SessionContext(Some([m])));
    assert !IsWhitespace("owner"[0]);
    assert RoleContribution(m) == Some("owner");
    assert [m][..0] == [] && [scope][..0] == [];
    assert Permission(Some("owner"), scope) == "owner:READ:BALANCE";
    assert ScopePermissions(Some("owner"), [scope]) == {"owner:READ:BALANCE"};
    assert RolesIn([m], Some(c1), None) == {"owner"};
    assert PermissionsIn([m], Some(c1), None) == {"owner:READ:BALANCE"};
    assert !InScope(m, Some(c2), None);
    assert RolesIn([m], Some(c2), None) == {} && PermissionsIn([m], Some(c2), None) == {};
    assert Memberships(session) == [m];
  }
}
