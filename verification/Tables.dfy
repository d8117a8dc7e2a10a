// A tenant table: rows by primary key, each stamped with its organization_id.
// The functions are the Prisma statements that the repositories issue.
module Tables {
  import opened Wrappers

  type Id = nat

  // UUID of an organization, the tenant root.
  datatype OrgId = OrgId(uuid: string)

  datatype Owned<+T> = Owned(org: OrgId, row: T)

  type Table<T> = map<Id, Owned<T>>

  predicate OwnedBy<T>(t: Table<T>, org: OrgId, id: Id) { id in t && t[id].org == org }

  /** The rows of one organization: what a `where: { organizationId }` filter sees. */
  function Scope<T>(t: Table<T>, org: OrgId): Table<T> {
    map id | id in t && t[id].org == org :: t[id]
  }

  /** findFirst({ where: { id, organizationId } }) */
  function FindFirst<T>(t: Table<T>, org: OrgId, id: Id): Option<T> {
    if id in t && t[id].org == org then Some(t[id].row) else None
  }

  /** create({ data: { id, ...row, organizationId } }) */
  function Insert<T>(t: Table<T>, org: OrgId, id: Id, row: T): Table<T> {
    t[id := Owned(org, row)]
  }

  /** updateMany({ where: { id, organizationId }, data }): `row` is the old row with `data` merged in. */
  function UpdateMany<T>(t: Table<T>, org: OrgId, id: Id, row: T): Table<T> {
    if id in t && t[id].org == org then t[id := Owned(org, row)] else t
  }

  /** update({ where: { id }, data }): carries no tenant filter. */
  function UpdateById<T>(t: Table<T>, id: Id, row: T): Table<T>
    requires id in t
  {
    t[id := Owned(t[id].org, row)]
  }

  /** deleteMany({ where: { id, organizationId } }) */
  function DeleteMany<T>(t: Table<T>, org: OrgId, id: Id): Table<T> {
    if id in t && t[id].org == org then t - {id} else t
  }

  /** There is always an id beyond those in use. */
  lemma {:induction false} NextId(ids: set<Id>) returns (n: Id)
    ensures forall id :: id in ids ==> id < n
    decreases |ids|
  {
    if ids == {} {
      n := 0;
    } else {
      var id :| id in ids;
      var m := NextId(ids - {id});
      n := if id < m then m else id + 1;
      forall x | x in ids ensures x < n {
        if x != id { assert x in ids - {id}; }
      }
    }
  }

  // --- a scoped statement is the same statement on the scope ------------

  lemma ScopeOfInsert<T>(t: Table<T>, org: OrgId, id: Id, row: T)
    requires id !in t
    ensures Scope(Insert(t, org, id, row), org) == Insert(Scope(t, org), org, id, row)
    ensures forall a :: a != org ==> Scope(Insert(t, org, id, row), a) == Scope(t, a)
  {
  }

  lemma ScopeOfUpdate<T>(t: Table<T>, org: OrgId, id: Id, row: T)
    ensures Scope(UpdateMany(t, org, id, row), org) == UpdateMany(Scope(t, org), org, id, row)
    ensures forall a :: a != org ==> Scope(UpdateMany(t, org, id, row), a) == Scope(t, a)
  {
  }

  lemma ScopeOfUpdateById<T>(t: Table<T>, id: Id, row: T)
    requires id in t
    ensures Scope(UpdateById(t, id, row), t[id].org) == UpdateById(Scope(t, t[id].org), id, row)
    ensures forall a :: a != t[id].org ==> Scope(UpdateById(t, id, row), a) == Scope(t, a)
  {
  }

  lemma ScopeOfDelete<T>(t: Table<T>, org: OrgId, id: Id)
    ensures Scope(DeleteMany(t, org, id), org) == DeleteMany(Scope(t, org), org, id)
    ensures forall a :: a != org ==> Scope(DeleteMany(t, org, id), a) == Scope(t, a)
  {
  }

  /** Deleting rows that all belong to `org`. */
  lemma ScopeOfRemoval<T>(t: Table<T>, org: OrgId, ids: set<Id>)
    requires forall id :: id in ids && id in t ==> t[id].org == org
    ensures Scope(t - ids, org) == Scope(t, org) - ids
    ensures forall a :: a != org ==> Scope(t - ids, a) == Scope(t, a)
  {
    forall a | a != org ensures Scope(t - ids, a) == Scope(t, a) {
      assert Scope(t - ids, a).Keys == Scope(t, a).Keys;
    }
  }
}
