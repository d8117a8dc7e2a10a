// The per-request tenant context and the guard that fills it.
module TenantContext {
  import opened Wrappers
  import opened Tables
  import opened Schema
  import Crm

  // What JwtStrategy.validate puts on the request.
  datatype AuthUser = AuthUser(id: Id, organizationId: OrgId, role: Role)

  class TenantContext {
    var userId: Option<Id>
    var organizationId: Option<OrgId>
    var role: Option<Role>

    constructor ()
      ensures userId.None? && organizationId.None? && role.None?
      ensures !Bound()
    {
      userId, organizationId, role := None, None, None;
    }

    /** The guard has hydrated the context of this request. */
    predicate Bound()
      reads this
    {
      userId.Some? && organizationId.Some? && organizationId.value.uuid != "" && role.Some?
    }

    function Ctx(): (ctx: Crm.Ctx)
      requires Bound()
      reads this
      ensures userId == Some(ctx.userId) && organizationId == Some(ctx.org) && role == Some(ctx.role)
    {
      Crm.Ctx(userId.value, organizationId.value, role.value)
    }

    /** The organization, or an error when a route slipped past the guard. */
    method RequireOrganizationId() returns (r: Result<OrgId, Failure>)
      ensures r.Ok? <==> organizationId.Some? && organizationId.value.uuid != ""
      ensures r.Ok? ==> organizationId == Some(r.value)
      ensures Bound() ==> r == Ok(Ctx().org)
    {
      if organizationId.None? || organizationId.value.uuid == "" { return Err(Unauthorized); }
      return Ok(organizationId.value);
    }

    method Set(user: Id, organization: OrgId, r: Role)
      modifies this
      ensures userId == Some(user) && organizationId == Some(organization) && role == Some(r)
    {
      userId := Some(user);
      organizationId := Some(organization);
      role := Some(r);
    }
  }

  class TenantGuard {
    const tenant: TenantContext

    constructor (tenant: TenantContext)
      ensures this.tenant == tenant
    {
      this.tenant := tenant;
    }

    /**
     * Public and tenant-free routes pass with the context untouched; any other route passes only
     * with an organization, and then the context is bound to exactly the token's identity.
     */
    method CanActivate(isPublic: bool, skipTenant: bool, user: Option<AuthUser>) returns (passed: bool)
      modifies tenant
      ensures passed <==> isPublic || skipTenant || (user.Some? && user.value.organizationId.uuid != "")
      ensures isPublic || skipTenant || !passed ==> unchanged(tenant)
      ensures passed && !isPublic && !skipTenant ==>
                && tenant.Bound()
                && tenant.Ctx() == Crm.Ctx(user.value.id, user.value.organizationId, user.value.role)
    {
      if isPublic || skipTenant { return true; }
      if user.None? || user.value.organizationId.uuid == "" { return false; }
      tenant.userId := Some(user.value.id);
      tenant.organizationId := Some(user.value.organizationId);
      tenant.role := Some(user.value.role);
      return true;
    }
  }
}
