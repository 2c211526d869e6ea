/** Claims carried by a principal, and the permission requirement check
    (Infrastructure/Identity/Auth/PermissionAuthorizationHandler.cs). */
module Claims {
  import opened Common

  /** Claim types. ClaimConstats.Permissions and ClaimConstats.Tenant are the
      application's own; the others are the framework's ClaimTypes. Their
      string values are not part of this model, only that they differ. */
  datatype ClaimType =
    | Permission
    | Tenant
    | Role
    | NameIdentifier
    | Email
    | Name
    | Surname
    | MobilePhone
    | Custom(uri: string)

  datatype Claim = Claim(claimType: ClaimType, value: string)

  /** PermissionRequirment: the permission name an endpoint demands. */
  datatype Requirement = Requirement(permission: string)

  /** The handler either marks the requirement as met or leaves it pending;
      it never calls Fail. */
  datatype Decision = Succeeded | Pending

  predicate Matches(c: Claim, req: Requirement) {
    c.claimType == Permission && c.value == req.permission
  }

  /** HandleRequirementAsync: succeed when some claim is a permission claim
      whose value is exactly the demanded permission. */
  function HandleRequirement(claims: seq<Claim>, req: Requirement): (d: Decision)
    ensures d == Succeeded <==> exists i :: 0 <= i < |claims| && claims[i] == Claim(Permission, req.permission)
  {
    var permissions := Filter(claims, (c: Claim) => Matches(c, req));
    if |permissions| > 0 then
      assert permissions[0] in permissions;
      Succeeded
    else
      assert forall i :: 0 <= i < |claims| ==> claims[i] !in permissions;
      Pending
  }

  /** Adding claims never revokes a success. */
  lemma HandleRequirementMonotone(claims: seq<Claim>, more: seq<Claim>, req: Requirement)
    requires forall c :: c in claims ==> c in more
    requires HandleRequirement(claims, req) == Succeeded
    ensures HandleRequirement(more, req) == Succeeded
  {
    var i :| 0 <= i < |claims| && claims[i] == Claim(Permission, req.permission);
    assert claims[i] in more;
  }

  /** The decision depends on the set of claims, not on their order or repetition. */
  lemma HandleRequirementOrderIndependent(claims: seq<Claim>, other: seq<Claim>, req: Requirement)
    requires forall c :: c in claims <==> c in other
    ensures HandleRequirement(claims, req) == HandleRequirement(other, req)
  {
    if HandleRequirement(claims, req) == Succeeded {
      HandleRequirementMonotone(claims, other, req);
    } else if HandleRequirement(other, req) == Succeeded {
      HandleRequirementMonotone(other, claims, req);
    }
  }

  /** Only permission-typed claims count: a role claim (or any other type)
      whose value equals the permission name does not authorise. */
  lemma OnlyPermissionClaimsAuthorise(claims: seq<Claim>, req: Requirement)
    requires forall i :: 0 <= i < |claims| ==> claims[i].claimType != Permission
    ensures HandleRequirement(claims, req) == Pending
  {
  }

  /** The permission claim values in a claim list. */
  function PermissionValues(claims: seq<Claim>): (r: set<string>)
    ensures forall v :: v in r <==> Claim(Permission, v) in claims
  {
    set c | c in claims && c.claimType == Permission :: c.value
  }

  /** A principal is authorised exactly for the permission values it carries. */
  lemma AuthorisedExactlyForCarriedPermissions(claims: seq<Claim>, req: Requirement)
    ensures HandleRequirement(claims, req) == Succeeded <==> req.permission in PermissionValues(claims)
  {
  }
}
