// TagRepository and TagService over the mutable tables.
module TagService {
  import opened Wrappers
  import opened Tables
  import opened Schema
  import opened Crm
  import opened Database
  import opened TenantContext
  import S = StoreSpec

  class TagRepository {
    const db: Database
    const tenant: TenantContext

    constructor (db: Database, tenant: TenantContext)
      ensures this.db == db && this.tenant == tenant
    {
      this.db, this.tenant := db, tenant;
    }

    method FindById(id: Id) returns (r: Option<Tag>)
      requires tenant.Bound()
      ensures r == FindFirst(db.tags, tenant.Ctx().org, id)
    {
      if id !in db.tags || Some(db.tags[id].org) != tenant.organizationId { return None; }
      return Some(db.tags[id].row);
    }

    method FindAll() returns (tags: Table<Tag>)
      requires tenant.Bound()
      ensures tags == Scope(db.tags, tenant.Ctx().org)
    {
      var where := set t | t in db.tags && Some(db.tags[t].org) == tenant.organizationId;
      tags := map t | t in where :: db.tags[t];
    }

    method IndexAdmits(name: string, except: Option<Id>) returns (ok: bool)
      requires tenant.Bound()
      ensures ok == !S.TagNameTaken(db.tags, tenant.Ctx().org, name, except)
    {
      return !exists t :: t in db.tags && Some(db.tags[t].org) == tenant.organizationId && db.tags[t].row.name == name
                          && Some(t) != except;
    }

    method Create(newId: Id, row: Tag) returns (r: Result<Tag, Failure>)
      requires tenant.Bound()
      modifies db`tags
      ensures r == if S.TagNameTaken(old(db.tags), tenant.Ctx().org, row.name, None)
                   then Err(UniqueViolation) else Ok(row)
      ensures db.tags == if r.Ok? then Insert(old(db.tags), tenant.Ctx().org, newId, row) else old(db.tags)
    {
      var ok := IndexAdmits(row.name, None);
      if !ok { return Err(UniqueViolation); }
      db.tags := db.tags[newId := Owned(tenant.organizationId.value, row)];
      return Ok(row);
    }

    /** updateMany under the tenant filter, refused by the index when the new name is taken. */
    method Update(id: Id, name: Option<string>, color: Option<string>) returns (ok: bool)
      requires tenant.Bound()
      modifies db`tags
      ensures var found := FindFirst(old(db.tags), tenant.Ctx().org, id);
              found.Some? ==>
                var row := Tag(name.GetOr(found.value.name), color.GetOr(found.value.color));
                && ok == !S.TagNameTaken(old(db.tags), tenant.Ctx().org, row.name, Some(id))
                && db.tags == if ok then UpdateMany(old(db.tags), tenant.Ctx().org, id, row) else old(db.tags)
      ensures FindFirst(old(db.tags), tenant.Ctx().org, id).None? ==> ok && db.tags == old(db.tags)
    {
      ok := true;
      if id in db.tags && Some(db.tags[id].org) == tenant.organizationId {
        var row := db.tags[id].row;
        if name.Some? { row := row.(name := name.value); }
        if color.Some? { row := row.(color := color.value); }
        ok := IndexAdmits(row.name, Some(id));
        if ok { db.tags := db.tags[id := db.tags[id].(row := row)]; }
      }
    }

    method Delete(id: Id)
      requires tenant.Bound()
      modifies db`tags, db`links
      ensures var owned := FindFirst(old(db.tags), tenant.Ctx().org, id).Some?;
              && db.tags == DeleteMany(old(db.tags), tenant.Ctx().org, id)
              && db.links == if owned then set l | l in old(db.links) && l.tagId != id else old(db.links)
    {
      if id in db.tags && Some(db.tags[id].org) == tenant.organizationId {
        db.tags := db.tags - {id};
        db.links := set l | l in db.links && l.tagId != id;
      }
    }

    method CustomerInOrg(customerId: Id) returns (ok: bool)
      requires tenant.Bound()
      ensures ok == OwnedBy(db.customers, tenant.Ctx().org, customerId)
    {
      return customerId in db.customers && Some(db.customers[customerId].org) == tenant.organizationId;
    }

    /** The pivot writes name the two ids and nothing else. */
    method Attach(customerId: Id, tagId: Id)
      modifies db`links
      ensures db.links == old(db.links) + {Link(customerId, tagId)}
    {
      if Link(customerId, tagId) !in db.links { db.links := db.links + {Link(customerId, tagId)}; }
    }

    method Detach(customerId: Id, tagId: Id)
      modifies db`links
      ensures db.links == old(db.links) - {Link(customerId, tagId)}
    {
      db.links := set l | l in db.links && !(l.customerId == customerId && l.tagId == tagId);
    }
  }

  class TagService {
    const repo: TagRepository

    constructor (repo: TagRepository)
      ensures this.repo == repo
    {
      this.repo := repo;
    }

    method Create(input: Input, name: string, color: Option<string>) returns (reply: Result<Reply, Failure>)
      requires repo.tenant.Bound()
      modifies repo.db`tags
      ensures (repo.db.State(), reply) == S.CreateTag(old(repo.db.State()), repo.tenant.Ctx(), input, name, color)
    {
      var row := Tag(name, "#6366f1");
      if color.Some? { row := row.(color := color.value); }
      var created := repo.Create(input.newId, row);
      if created.Err? { return Err(created.error); }
      return Ok(TagFound(input.newId, created.value));
    }

    method FindAll() returns (reply: Result<Reply, Failure>)
      requires repo.tenant.Bound()
      ensures (repo.db.State(), reply) == S.ListTags(repo.db.State(), repo.tenant.Ctx())
    {
      var tags := repo.FindAll();
      return Ok(Tags(tags));
    }

    method Update(id: Id, name: Option<string>, color: Option<string>) returns (reply: Result<Reply, Failure>)
      requires repo.tenant.Bound()
      modifies repo.db`tags
      ensures (repo.db.State(), reply) == S.UpdateTag(old(repo.db.State()), repo.tenant.Ctx(), id, name, color)
    {
      var found := repo.FindById(id);
      if found.None? { return Err(NotFound); }
      var ok := repo.Update(id, name, color);
      if !ok { return Err(UniqueViolation); }
      found := repo.FindById(id);
      return Ok(TagFound(id, found.value));
    }

    method Remove(id: Id) returns (reply: Result<Reply, Failure>)
      requires repo.tenant.Bound()
      modifies repo.db`tags, repo.db`links
      ensures (repo.db.State(), reply) == S.RemoveTag(old(repo.db.State()), repo.tenant.Ctx(), id)
    {
      var found := repo.FindById(id);
      if found.None? { return Err(NotFound); }
      repo.Delete(id);
      return Ok(Done);
    }

    method Attach(tagId: Id, customerId: Id) returns (reply: Result<Reply, Failure>)
      requires repo.tenant.Bound()
      modifies repo.db`links
      ensures (repo.db.State(), reply) == S.AttachTag(old(repo.db.State()), repo.tenant.Ctx(), tagId, customerId)
    {
      var found := repo.FindById(tagId);
      if found.None? { return Err(NotFound); }
      var known := repo.CustomerInOrg(customerId);
      if !known { return Err(CustomerNotInOrg); }
      repo.Attach(customerId, tagId);
      return Ok(Done);
    }

    method Detach(tagId: Id, customerId: Id) returns (reply: Result<Reply, Failure>)
      requires repo.tenant.Bound()
      modifies repo.db`links
      ensures (repo.db.State(), reply) == S.DetachTag(old(repo.db.State()), repo.tenant.Ctx(), tagId, customerId)
    {
      var found := repo.FindById(tagId);
      if found.None? { return Err(NotFound); }
      repo.Detach(customerId, tagId);
      return Ok(Done);
    }
  }
}
