// NoteRepository and NoteService over the mutable tables.
module NoteService {
  import opened Wrappers
  import opened Tables
  import opened Schema
  import opened Crm
  import opened Database
  import opened TenantContext
  import S = StoreSpec

  class NoteRepository {
    const db: Database
    const tenant: TenantContext

    constructor (db: Database, tenant: TenantContext)
      ensures this.db == db && this.tenant == tenant
    {
      this.db, this.tenant := db, tenant;
    }

    method CustomerInOrg(customerId: Id) returns (ok: bool)
      requires tenant.Bound()
      ensures ok == OwnedBy(db.customers, tenant.Ctx().org, customerId)
    {
      return customerId in db.customers && Some(db.customers[customerId].org) == tenant.organizationId;
    }

    method FindById(id: Id) returns (r: Option<NoteCard>)
      requires tenant.Bound()
      ensures r == if FindFirst(db.notes, tenant.Ctx().org, id).Some? then Some(NoteCardOf(db.State(), id)) else None
    {
      if id !in db.notes || Some(db.notes[id].org) != tenant.organizationId { return None; }
      return Some(NoteCardOf(db.State(), id));
    }

    method ListByCustomer(customerId: Id) returns (cards: map<Id, NoteCard>)
      requires tenant.Bound()
      ensures cards == S.NoteListing(db.State(), tenant.Ctx().org, customerId)
    {
      var where := set n | n in db.notes && db.notes[n].row.customerId == customerId;
      where := set n | n in where && Some(db.notes[n].org) == tenant.organizationId;
      cards := map n | n in where :: NoteCardOf(db.State(), n);
    }

    /** The author's foreign key is checked by the database. */
    method Create(newId: Id, row: Note) returns (r: Result<Note, Failure>)
      requires tenant.Bound()
      modifies db`notes
      ensures r == if row.authorId.Some? && row.authorId.value !in db.users then Err(ForeignKeyViolation) else Ok(row)
      ensures db.notes == if r.Ok? then Insert(old(db.notes), tenant.Ctx().org, newId, row) else old(db.notes)
    {
      if row.authorId.Some? && row.authorId.value !in db.users { return Err(ForeignKeyViolation); }
      db.notes := db.notes[newId := Owned(tenant.organizationId.value, row)];
      return Ok(row);
    }

    method Update(id: Id, content: string)
      requires tenant.Bound()
      modifies db`notes
      ensures var found := FindFirst(old(db.notes), tenant.Ctx().org, id);
              db.notes == if found.None? then old(db.notes)
                          else UpdateMany(old(db.notes), tenant.Ctx().org, id, found.value.(content := content))
    {
      if id in db.notes && Some(db.notes[id].org) == tenant.organizationId {
        db.notes := db.notes[id := db.notes[id].(row := db.notes[id].row.(content := content))];
      }
    }

    method Delete(id: Id)
      requires tenant.Bound()
      modifies db`notes
      ensures db.notes == DeleteMany(old(db.notes), tenant.Ctx().org, id)
    {
      if id in db.notes && Some(db.notes[id].org) == tenant.organizationId {
        db.notes := db.notes - {id};
      }
    }
  }

  class NoteService {
    const repo: NoteRepository

    constructor (repo: NoteRepository)
      ensures this.repo == repo
    {
      this.repo := repo;
    }

    method Create(input: Input, customerId: Id, content: string) returns (reply: Result<Reply, Failure>)
      requires repo.tenant.Bound()
      modifies repo.db`notes
      ensures (repo.db.State(), reply)
              == S.CreateNote(old(repo.db.State()), repo.tenant.Ctx(), input, customerId, content)
    {
      var known := repo.CustomerInOrg(customerId);
      if !known { return Err(CustomerNotInOrg); }
      var created := repo.Create(input.newId, Note(customerId, repo.tenant.userId, content, input.now));
      if created.Err? { return Err(created.error); }
      return Ok(NoteRow(input.newId, created.value));
    }

    method ListByCustomer(customerId: Id) returns (reply: Result<Reply, Failure>)
      requires repo.tenant.Bound()
      ensures (repo.db.State(), reply) == S.ListNotes(repo.db.State(), repo.tenant.Ctx(), customerId)
    {
      var cards := repo.ListByCustomer(customerId);
      return Ok(Notes(cards));
    }

    method GetOrThrow(id: Id) returns (reply: Result<Reply, Failure>)
      requires repo.tenant.Bound()
      ensures (repo.db.State(), reply) == S.FindNote(repo.db.State(), repo.tenant.Ctx(), id)
    {
      var found := repo.FindById(id);
      if found.None? { return Err(NotFound); }
      return Ok(NoteFound(found.value));
    }

    method Update(id: Id, content: string) returns (reply: Result<Reply, Failure>)
      requires repo.tenant.Bound()
      modifies repo.db`notes
      ensures (repo.db.State(), reply) == S.UpdateNote(old(repo.db.State()), repo.tenant.Ctx(), id, content)
    {
      reply := GetOrThrow(id);
      if reply.Err? { return; }
      repo.Update(id, content);
      reply := GetOrThrow(id);
    }

    method Remove(id: Id) returns (reply: Result<Reply, Failure>)
      requires repo.tenant.Bound()
      modifies repo.db`notes
      ensures (repo.db.State(), reply) == S.RemoveNote(old(repo.db.State()), repo.tenant.Ctx(), id)
    {
      reply := GetOrThrow(id);
      if reply.Err? { return; }
      repo.Delete(id);
      return Ok(Done);
    }
  }
}
