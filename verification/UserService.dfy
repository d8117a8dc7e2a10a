// UserRepository and UserService over the mutable tables.
module UserService {
  import opened Wrappers
  import opened Tables
  import opened Schema
  import opened Crm
  import opened Database
  import opened TenantContext
  import S = StoreSpec

  // Unlike the other repositories, this one adds no tenant filter of its own.
  class UserRepository {
    const db: Database

    constructor (db: Database)
      ensures this.db == db
    {
      this.db := db;
    }

    method FindById(id: Id) returns (r: Option<Owned<User>>)
      ensures r == if id in db.users then Some(db.users[id]) else None
    {
      if id in db.users { return Some(db.users[id]); }
      return None;
    }

    method FindMany(org: OrgId) returns (users: Table<User>)
      ensures users == Scope(db.users, org)
    {
      var where := set u | u in db.users && db.users[u].org == org;
      users := map u | u in where :: db.users[u];
    }

    /** update({ where: { id } }): an error when there is no such row. */
    method Update(id: Id, row: User) returns (r: Result<User, Failure>)
      modifies db`users
      ensures id in old(db.users) ==> r == Ok(row) && db.users == UpdateById(old(db.users), id, row)
      ensures id !in old(db.users) ==> r == Err(NotFound) && db.users == old(db.users)
    {
      if id !in db.users { return Err(NotFound); }
      db.users := db.users[id := db.users[id].(row := row)];
      return Ok(row);
    }
  }

  class UserService {
    const repo: UserRepository
    const tenant: TenantContext

    constructor (repo: UserRepository, tenant: TenantContext)
      ensures this.repo == repo && this.tenant == tenant
    {
      this.repo, this.tenant := repo, tenant;
    }

    /** Fetch by bare id, then compare with the current organization. */
    method GetInOrg(id: Id) returns (r: Option<User>)
      requires tenant.Bound()
      ensures r == if OwnedBy(repo.db.users, tenant.Ctx().org, id) then Some(repo.db.users[id].row) else None
    {
      var user := repo.FindById(id);
      var org := tenant.RequireOrganizationId();
      if user.None? || Ok(user.value.org) != org { return None; }
      return Some(user.value.row);
    }

    method FindOne(id: Id) returns (reply: Result<Reply, Failure>)
      requires tenant.Bound()
      ensures (repo.db.State(), reply) == S.FindUser(repo.db.State(), tenant.Ctx(), id)
    {
      var user := GetInOrg(id);
      if user.None? { return Err(NotFound); }
      return Ok(UserFound(Sanitize(id, repo.db.users[id])));
    }

    method List() returns (reply: Result<Reply, Failure>)
      requires tenant.Bound()
      ensures (repo.db.State(), reply) == S.ListUsers(repo.db.State(), tenant.Ctx())
    {
      var org := tenant.RequireOrganizationId();
      var users := repo.FindMany(org.value);
      var shown := map u | u in users :: Sanitize(u, users[u]);
      assert shown == S.UserListing(repo.db.users, tenant.Ctx().org);
      return Ok(Users(shown));
    }

    method Update(id: Id, first: Option<Option<string>>, last: Option<Option<string>>, avatar: Option<Option<string>>)
      returns (reply: Result<Reply, Failure>)
      requires tenant.Bound()
      modifies repo.db`users
      ensures (repo.db.State(), reply) == S.UpdateUser(old(repo.db.State()), tenant.Ctx(), id, first, last, avatar)
    {
      var user := GetInOrg(id);
      if user.None? { return Err(NotFound); }
      var row := user.value;
      row := row.(firstName := first.GetOr(row.firstName));
      row := row.(lastName := last.GetOr(row.lastName));
      row := row.(avatarUrl := avatar.GetOr(row.avatarUrl));
      var updated := repo.Update(id, row);
      assert updated.Ok?;
      return Ok(UserFound(Sanitize(id, repo.db.users[id])));
    }

    method ChangeRole(id: Id, role: Role) returns (reply: Result<Reply, Failure>)
      requires tenant.Bound()
      modifies repo.db`users
      ensures (repo.db.State(), reply) == S.ChangeUserRole(old(repo.db.State()), tenant.Ctx(), id, role)
    {
      var target := GetInOrg(id);
      if target.None? { return Err(NotFound); }
      if role == OWNER && tenant.role != Some(OWNER) { return Err(OwnerOnly); }
      var updated := repo.Update(id, target.value.(role := role));
      assert updated.Ok?;
      return Ok(UserFound(Sanitize(id, repo.db.users[id])));
    }
  }
}
