// FileRepository and FileService over the mutable tables, without the calls to R2.
module FileService {
  import opened Wrappers
  import opened Tables
  import opened Schema
  import opened Crm
  import opened Database
  import opened TenantContext
  import ObjectKeys
  import Tenancy
  import S = StoreSpec

  class FileRepository {
    const db: Database
    const tenant: TenantContext

    constructor (db: Database, tenant: TenantContext)
      ensures this.db == db && this.tenant == tenant
    {
      this.db, this.tenant := db, tenant;
    }

    /** The unique index on the key spans all organizations. */
    method Create(newId: Id, row: File) returns (r: Result<File, Failure>)
      requires tenant.Bound()
      modifies db`files
      ensures r == if S.KeyTaken(old(db.files), row.key) then Err(UniqueViolation) else Ok(row)
      ensures db.files == if r.Ok? then Insert(old(db.files), tenant.Ctx().org, newId, row) else old(db.files)
    {
      if exists f :: f in db.files && db.files[f].row.key == row.key { return Err(UniqueViolation); }
      db.files := db.files[newId := Owned(tenant.organizationId.value, row)];
      return Ok(row);
    }

    method FindByKey(key: string) returns (r: Option<Id>)
      requires tenant.Bound() && Tenancy.FileKeysUnique(db.files)
      ensures r == S.FindByKey(db.files, tenant.Ctx().org, key)
    {
      var org := tenant.organizationId.value;
      if f :| f in db.files && S.HasKey(db.files, org, key, f) { return Some(f); }
      return None;
    }

    method FindById(id: Id) returns (r: Option<File>)
      requires tenant.Bound()
      ensures r == FindFirst(db.files, tenant.Ctx().org, id)
    {
      if id !in db.files || Some(db.files[id].org) != tenant.organizationId { return None; }
      return Some(db.files[id].row);
    }

    /** update({ where: { id } }): by bare id, an error when there is no such row. */
    method MarkStatus(id: Id, status: FileStatus) returns (r: Result<File, Failure>)
      modifies db`files
      ensures id in old(db.files) ==>
                && r == Ok(old(db.files)[id].row.(status := status))
                && db.files == UpdateById(old(db.files), id, r.value)
      ensures id !in old(db.files) ==> r == Err(NotFound) && db.files == old(db.files)
    {
      if id !in db.files { return Err(NotFound); }
      var row := db.files[id].row.(status := status);
      db.files := db.files[id := db.files[id].(row := row)];
      return Ok(row);
    }

    method Delete(id: Id)
      requires tenant.Bound()
      modifies db`files
      ensures db.files == DeleteMany(old(db.files), tenant.Ctx().org, id)
    {
      if id in db.files && Some(db.files[id].org) == tenant.organizationId {
        db.files := db.files - {id};
      }
    }
  }

  class FileService {
    const repo: FileRepository

    constructor (repo: FileRepository)
      ensures this.repo == repo
    {
      this.repo := repo;
    }

    method PresignUpload(input: Input, filename: string, mimeType: string, size: nat)
      returns (reply: Result<Reply, Failure>)
      requires repo.tenant.Bound()
      modifies repo.db`files
      ensures (repo.db.State(), reply)
              == S.PresignUpload(old(repo.db.State()), repo.tenant.Ctx(), input, filename, mimeType, size)
    {
      var org := repo.tenant.RequireOrganizationId();
      var key := ObjectKeys.BuildKey(org.value, filename, input.now);
      var row := File(repo.tenant.userId, key, filename, mimeType, size, FileStatus.PENDING);
      var created := repo.Create(input.newId, row);
      if created.Err? { return Err(created.error); }
      return Ok(FileFound(input.newId, created.value));
    }

    method ConfirmUpload(key: string) returns (reply: Result<Reply, Failure>)
      requires repo.tenant.Bound() && Tenancy.FileKeysUnique(repo.db.files)
      modifies repo.db`files
      ensures (repo.db.State(), reply) == S.ConfirmUpload(old(repo.db.State()), repo.tenant.Ctx(), key)
    {
      var file := repo.FindByKey(key);
      if file.None? { return Err(NotFound); }
      var marked := repo.MarkStatus(file.value, UPLOADED);
      assert marked.Ok?;
      return Ok(FileFound(file.value, marked.value));
    }

    /** getDownloadUrl, up to the signed link itself. */
    method GetDownloadUrl(id: Id) returns (reply: Result<Reply, Failure>)
      requires repo.tenant.Bound()
      ensures (repo.db.State(), reply) == S.FindFile(repo.db.State(), repo.tenant.Ctx(), id)
    {
      var file := repo.FindById(id);
      if file.None? { return Err(NotFound); }
      return Ok(FileFound(id, file.value));
    }

    method Remove(id: Id) returns (reply: Result<Reply, Failure>)
      requires repo.tenant.Bound()
      modifies repo.db`files
      ensures (repo.db.State(), reply) == S.RemoveFile(old(repo.db.State()), repo.tenant.Ctx(), id)
    {
      var file := repo.FindById(id);
      if file.None? { return Err(NotFound); }
      repo.Delete(id);
      return Ok(Done);
    }
  }
}
