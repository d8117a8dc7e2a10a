// Every tenant request as one step of the store, the links it must keep within
// one organization, and what one organization can see.
module Tenancy {
  import opened Wrappers
  import opened Tables
  import opened Schema
  import opened Crm
  import opened CustomerSpec
  import opened OrderSpec
  import ObjectKeys
  import Analytics
  import S = StoreSpec

  datatype Request =
    | CustomerCreate(newCustomer: CreateCustomer)
    | CustomerFindAll(customerFilter: CustomerFilter)
    | CustomerFindOne(id: Id)
    | CustomerUpdate(id: Id, customerPatch: UpdateCustomer)
    | CustomerRemove(id: Id)
    | CustomerChangeStatus(id: Id, customerStatus: CustomerStatus)
    | CustomerAssign(id: Id, agent: Option<Id>)
    | OrderCreate(newOrder: CreateOrder)
    | OrderFindAll(orderFilter: OrderFilter)
    | OrderFindOne(id: Id)
    | OrderUpdate(id: Id, orderPatch: UpdateOrder)
    | OrderChangeStatus(id: Id, orderStatus: OrderStatus)
    | OrderRemove(id: Id)
    | NoteCreate(customerId: Id, content: string)
    | NoteList(customerId: Id)
    | NoteUpdate(id: Id, content: string)
    | NoteRemove(id: Id)
    | TagCreate(name: string, color: Option<string>)
    | TagList
    | TagUpdate(id: Id, newName: Option<string>, color: Option<string>)
    | TagRemove(id: Id)
    | TagAttach(tagId: Id, customerId: Id)
    | TagDetach(tagId: Id, customerId: Id)
    | UserFind(id: Id)
    | UserList
    | UserUpdate(id: Id, firstName: Option<Option<string>>, lastName: Option<Option<string>>,
                 avatar: Option<Option<string>>)
    | UserChangeRole(id: Id, role: Role)
    | FilePresign(filename: string, mimeType: string, size: nat)
    | FileConfirm(key: string)
    | FileFind(id: Id)
    | FileRemove(id: Id)
    | ExtensionSync(sync: SyncCustomer)
    | ExtensionNote(facebookId: string, content: string)
    | ExtensionOrder(facebookId: string, productName: string, quantity: Option<int>, amount: real)
    | DashboardRead

  // The requests by the tables they write, so that proofs can take them group by group.

  predicate AboutCustomers(r: Request) {
    r.CustomerCreate? || r.CustomerFindAll? || r.CustomerFindOne? || r.CustomerUpdate? || r.CustomerRemove?
    || r.CustomerChangeStatus? || r.CustomerAssign?
  }

  predicate AboutOrdersOrNotes(r: Request) {
    r.OrderCreate? || r.OrderFindAll? || r.OrderFindOne? || r.OrderUpdate? || r.OrderChangeStatus? || r.OrderRemove?
    || r.NoteCreate? || r.NoteList? || r.NoteUpdate? || r.NoteRemove?
  }

  predicate AboutTagsOrUsers(r: Request) {
    r.TagCreate? || r.TagList? || r.TagUpdate? || r.TagRemove? || r.TagAttach? || r.TagDetach?
    || r.UserFind? || r.UserList? || r.UserUpdate? || r.UserChangeRole?
  }

  predicate AboutFilesOrMessenger(r: Request) {
    r.FilePresign? || r.FileConfirm? || r.FileFind? || r.FileRemove?
    || r.ExtensionSync? || r.ExtensionNote? || r.ExtensionOrder? || r.DashboardRead?
  }

  datatype Call = Call(ctx: Ctx, input: Input, request: Request)

  ghost function Step(db: Db, call: Call): Outcome {
    var ctx, input := call.ctx, call.input;
    match call.request
    case CustomerCreate(dto) => CustomerSpec.Create(db, ctx, input, dto)
    case CustomerFindAll(filter) => CustomerSpec.FindAll(db, ctx, filter)
    case CustomerFindOne(id) => CustomerSpec.FindOne(db, ctx, id)
    case CustomerUpdate(id, dto) => CustomerSpec.Update(db, ctx, id, dto)
    case CustomerRemove(id) => CustomerSpec.Remove(db, ctx, id)
    case CustomerChangeStatus(id, status) => CustomerSpec.ChangeStatus(db, ctx, id, status)
    case CustomerAssign(id, agent) => CustomerSpec.Assign(db, ctx, id, agent)
    case OrderCreate(dto) => OrderSpec.Create(db, ctx, input, dto)
    case OrderFindAll(filter) => OrderSpec.FindAll(db, ctx, filter)
    case OrderFindOne(id) => OrderSpec.FindOne(db, ctx, id)
    case OrderUpdate(id, dto) => OrderSpec.Update(db, ctx, id, dto)
    case OrderChangeStatus(id, status) => OrderSpec.ChangeStatus(db, ctx, id, status)
    case OrderRemove(id) => OrderSpec.Remove(db, ctx, id)
    case NoteCreate(customerId, content) => S.CreateNote(db, ctx, input, customerId, content)
    case NoteList(customerId) => S.ListNotes(db, ctx, customerId)
    case NoteUpdate(id, content) => S.UpdateNote(db, ctx, id, content)
    case NoteRemove(id) => S.RemoveNote(db, ctx, id)
    case TagCreate(name, color) => S.CreateTag(db, ctx, input, name, color)
    case TagList => S.ListTags(db, ctx)
    case TagUpdate(id, name, color) => S.UpdateTag(db, ctx, id, name, color)
    case TagRemove(id) => S.RemoveTag(db, ctx, id)
    case TagAttach(tagId, customerId) => S.AttachTag(db, ctx, tagId, customerId)
    case TagDetach(tagId, customerId) => S.DetachTag(db, ctx, tagId, customerId)
    case UserFind(id) => S.FindUser(db, ctx, id)
    case UserList => S.ListUsers(db, ctx)
    case UserUpdate(id, first, last, avatar) => S.UpdateUser(db, ctx, id, first, last, avatar)
    case UserChangeRole(id, role) => S.ChangeUserRole(db, ctx, id, role)
    case FilePresign(filename, mimeType, size) => S.PresignUpload(db, ctx, input, filename, mimeType, size)
    case FileConfirm(key) => S.ConfirmUpload(db, ctx, key)
    case FileFind(id) => S.FindFile(db, ctx, id)
    case FileRemove(id) => S.RemoveFile(db, ctx, id)
    case ExtensionSync(dto) => S.SyncCustomer(db, ctx, input, dto)
    case ExtensionNote(facebookId, content) => S.AddNote(db, ctx, input, facebookId, content)
    case ExtensionOrder(facebookId, productName, quantity, amount) =>
      S.CreateExtensionOrder(db, ctx, input, facebookId, productName, quantity, amount)
    case DashboardRead => (db, Ok(Stats(Analytics.StatsOf(db, ctx.org))))
  }

  ghost function Run(db: Db, calls: seq<Call>): (r: (Db, seq<Result<Reply, Failure>>))
    ensures |r.1| == |calls|
    decreases |calls|
  {
    if calls == [] then (db, [])
    else
      var (db1, reply) := Step(db, calls[0]);
      var (db2, replies) := Run(db1, calls[1..]);
      (db2, [reply] + replies)
  }

  // --- same-tenant links ------------------------------------------------

  ghost predicate OrdersLinked(db: Db) {
    forall o :: o in db.orders ==> OwnedBy(db.customers, db.orders[o].org, db.orders[o].row.customerId)
  }

  ghost predicate NotesLinked(db: Db) {
    forall n :: n in db.notes ==>
                  && OwnedBy(db.customers, db.notes[n].org, db.notes[n].row.customerId)
                  && (db.notes[n].row.authorId.Some? ==>
                        OwnedBy(db.users, db.notes[n].org, db.notes[n].row.authorId.value))
  }

  ghost predicate AgentsLinked(db: Db) {
    forall c :: c in db.customers && db.customers[c].row.assignedTo.Some? ==>
                  OwnedBy(db.users, db.customers[c].org, db.customers[c].row.assignedTo.value)
  }

  ghost predicate TagsLinked(db: Db) {
    forall l :: l in db.links ==>
                  l.customerId in db.customers && OwnedBy(db.tags, db.customers[l.customerId].org, l.tagId)
  }

  // --- unique indexes ---------------------------------------------------

  ghost predicate FacebookIdsUnique(t: Table<Customer>) {
    forall a, b ::
      a in t && b in t && t[a].org == t[b].org && t[a].row.facebookId.Some?
      && t[a].row.facebookId == t[b].row.facebookId
      ==> a == b
  }

  ghost predicate OrderNumbersUnique(t: Table<Order>) {
    forall a, b :: a in t && b in t && t[a].org == t[b].org && t[a].row.orderNumber == t[b].row.orderNumber ==> a == b
  }

  ghost predicate TagNamesUnique(t: Table<Tag>) {
    forall a, b :: a in t && b in t && t[a].org == t[b].org && t[a].row.name == t[b].row.name ==> a == b
  }

  ghost predicate FileKeysUnique(t: Table<File>) {
    forall a, b :: a in t && b in t && t[a].row.key == t[b].row.key ==> a == b
  }

  /** Every file key was built for the organization that owns the row. */
  ghost predicate FileKeysNamespaced(t: Table<File>) {
    forall f :: f in t ==> '/' !in t[f].org.uuid
                           && exists name, now: nat :: t[f].row.key == ObjectKeys.BuildKey(t[f].org, name, now)
  }

  ghost predicate Consistent(db: Db) {
    && OrdersLinked(db) && NotesLinked(db) && AgentsLinked(db) && TagsLinked(db)
    && FacebookIdsUnique(db.customers) && OrderNumbersUnique(db.orders) && TagNamesUnique(db.tags)
    && FileKeysUnique(db.files) && FileKeysNamespaced(db.files)
  }

  // --- who may call -----------------------------------------------------

  /** The caller's token names an existing user of its organization, whose UUID has no slash. */
  predicate CallerOk(db: Db, ctx: Ctx) { OwnedBy(db.users, ctx.org, ctx.userId) && '/' !in ctx.org.uuid }

  /** Some row carries this id as its primary key. */
  predicate IdUsed(db: Db, id: Id) {
    id in db.customers || id in db.orders || id in db.notes || id in db.tags || id in db.files
  }

  predicate Admissible(db: Db, call: Call) { CallerOk(db, call.ctx) && !IdUsed(db, call.input.newId) }

  /** A run whose callers exist from the start and whose random ids are all new and distinct. */
  predicate AdmissibleRun(db: Db, calls: seq<Call>) {
    && (forall i :: 0 <= i < |calls| ==> Admissible(db, calls[i]))
    && (forall i, j :: 0 <= i < j < |calls| ==> calls[i].input.newId != calls[j].input.newId)
  }

  // --- one organization's part of the store -----------------------------

  function LinksOf(db: Db, org: OrgId): set<Link> {
    set l | l in db.links && OwnedBy(db.customers, org, l.customerId)
  }

  function View(db: Db, org: OrgId): Db {
    Db(Scope(db.users, org), Scope(db.customers, org), Scope(db.orders, org), Scope(db.notes, org),
       Scope(db.tags, org), LinksOf(db, org), Scope(db.files, org))
  }
}
