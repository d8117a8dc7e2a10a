// CustomerService and CustomerRepository, one request at a time.
module CustomerSpec {
  import opened Wrappers
  import opened Tables
  import opened Schema
  import opened Crm

  datatype CreateCustomer = CreateCustomer(
    name: string, facebookName: Option<string>, facebookId: Option<string>, profileUrl: Option<string>,
    phone: Option<string>, email: Option<string>, address: Option<string>, status: Option<CustomerStatus>,
    source: Option<string>, assignedTo: Option<Id>)

  // An absent field keeps the column; a present None on a nullable column clears it.
  datatype UpdateCustomer = UpdateCustomer(
    name: Option<string>, facebookName: Option<Option<string>>, facebookId: Option<Option<string>>,
    profileUrl: Option<Option<string>>, phone: Option<Option<string>>, email: Option<Option<string>>,
    address: Option<Option<string>>, status: Option<CustomerStatus>, source: Option<Option<string>>,
    assignedTo: Option<Option<Id>>)

  datatype CustomerFilter = CustomerFilter(
    status: Option<CustomerStatus>, assignedTo: Option<Id>, source: Option<string>, tagId: Option<Id>)

  // What the extension knows of a conversation.
  datatype SyncCustomer = SyncCustomer(
    facebookId: string, facebookName: string, profileUrl: Option<string>, lastMessage: Option<string>)

  predicate HasFacebookId(t: Table<Customer>, org: OrgId, facebookId: string, id: Id) {
    id in t && t[id].org == org && t[id].row.facebookId == Some(facebookId)
  }

  /** The unique index (organization_id, facebook_id), in which NULLs never collide. */
  predicate FacebookIdTaken(t: Table<Customer>, org: OrgId, facebookId: Option<string>, except: Option<Id>) {
    facebookId.Some? &&
    exists id :: id in t && HasFacebookId(t, org, facebookId.value, id) && Some(id) != except
  }

  /** findFirst({ where: { facebookId, organizationId } }) */
  ghost function FindByFacebookId(t: Table<Customer>, org: OrgId, facebookId: string): (r: Option<Id>)
    ensures r.Some? ==> HasFacebookId(t, org, facebookId, r.value)
    ensures r.None? ==> forall id :: id in t ==> !HasFacebookId(t, org, facebookId, id)
  {
    if exists id :: id in t && HasFacebookId(t, org, facebookId, id) then
      var id :| id in t && HasFacebookId(t, org, facebookId, id);
      Some(id)
    else None
  }

  function NewCustomer(dto: CreateCustomer, now: Millis): Customer {
    Customer(dto.name, dto.facebookName, dto.facebookId, dto.profileUrl, dto.phone, dto.email, dto.address,
             dto.status.GetOr(CustomerStatus.NEW), dto.source, None, dto.assignedTo, None, now)
  }

  function Merge(c: Customer, dto: UpdateCustomer): Customer {
    Customer(Keep(dto.name, c.name), Keep(dto.facebookName, c.facebookName), Keep(dto.facebookId, c.facebookId),
             Keep(dto.profileUrl, c.profileUrl), Keep(dto.phone, c.phone), Keep(dto.email, c.email),
             Keep(dto.address, c.address), Keep(dto.status, c.status), Keep(dto.source, c.source),
             c.lastMessage, Keep(dto.assignedTo, c.assignedTo), c.lastContactedAt, c.createdAt)
  }

  function Create(db: Db, ctx: Ctx, input: Input, dto: CreateCustomer): (r: Outcome)
    ensures r.0 == db.(customers := r.0.customers)
  {
    if dto.assignedTo.Some? && !OwnedBy(db.users, ctx.org, dto.assignedTo.value) then (db, Err(AgentNotInOrg))
    else if FacebookIdTaken(db.customers, ctx.org, dto.facebookId, None) then (db, Err(UniqueViolation))
    else
      var row := NewCustomer(dto, input.now);
      (db.(customers := Insert(db.customers, ctx.org, input.newId, row)), Ok(CustomerRow(input.newId, row)))
  }

  /** The criteria on the customer's own columns; an empty source is no criterion. */
  predicate MatchesColumns(c: Customer, filter: CustomerFilter) {
    && (filter.status.Some? ==> c.status == filter.status.value)
    && (filter.assignedTo.Some? ==> c.assignedTo == filter.assignedTo)
    && (filter.source.Some? && filter.source.value != "" ==> c.source == filter.source)
  }

  predicate Matches(db: Db, id: Id, filter: CustomerFilter)
    requires id in db.customers
  {
    && MatchesColumns(db.customers[id].row, filter)
    && (filter.tagId.Some? ==> Link(id, filter.tagId.value) in db.links)
  }

  /** All matching rows; a page of them is Pagination's concern. */
  function Listing(db: Db, org: OrgId, filter: CustomerFilter): map<Id, CustomerCard> {
    map id | id in db.customers && db.customers[id].org == org && Matches(db, id, filter) :: CardOf(db, id)
  }

  function FindAll(db: Db, ctx: Ctx, filter: CustomerFilter): Outcome {
    (db, Ok(Customers(Listing(db, ctx.org, filter))))
  }

  function FindOne(db: Db, ctx: Ctx, id: Id): Outcome {
    if FindFirst(db.customers, ctx.org, id).None? then (db, Err(NotFound))
    else (db, Ok(CustomerFound(CardOf(db, id))))
  }

  /** repo.update: a scoped updateMany, then the row re-read by bare id. */
  function UpdateThenRead(db: Db, ctx: Ctx, id: Id, row: Customer): (r: Outcome)
    ensures r.0 == db.(customers := r.0.customers)
  {
    var customers := UpdateMany(db.customers, ctx.org, id, row);
    (db.(customers := customers),
     if id in customers then Ok(CustomerRow(id, customers[id].row)) else Err(NotFound))
  }

  function Update(db: Db, ctx: Ctx, id: Id, dto: UpdateCustomer): (r: Outcome)
    ensures r.0 == db.(customers := r.0.customers)
  {
    var found := FindFirst(db.customers, ctx.org, id);
    if found.None? then (db, Err(NotFound))
    else if dto.assignedTo.Some? && dto.assignedTo.value.Some?
            && !OwnedBy(db.users, ctx.org, dto.assignedTo.value.value)
    then (db, Err(AgentNotInOrg))
    else
      var row := Merge(found.value, dto);
      if FacebookIdTaken(db.customers, ctx.org, row.facebookId, Some(id)) then (db, Err(UniqueViolation))
      else UpdateThenRead(db, ctx, id, row)
  }

  /** ON DELETE CASCADE from customers to orders, notes and customer_tags. */
  function DeleteCustomer(db: Db, org: OrgId, id: Id): Db {
    if id in db.customers && db.customers[id].org == org then
      db.(customers := DeleteMany(db.customers, org, id),
          orders := db.orders - OrdersOf(db.orders, id),
          notes := db.notes - NotesOf(db.notes, id),
          links := set l | l in db.links && l.customerId != id)
    else db
  }

  function Remove(db: Db, ctx: Ctx, id: Id): (r: Outcome)
    ensures r.0 == db.(customers := r.0.customers, orders := r.0.orders, notes := r.0.notes, links := r.0.links)
  {
    if FindFirst(db.customers, ctx.org, id).None? then (db, Err(NotFound))
    else (DeleteCustomer(db, ctx.org, id), Ok(Done))
  }

  function ChangeStatus(db: Db, ctx: Ctx, id: Id, status: CustomerStatus): (r: Outcome)
    ensures r.0 == db.(customers := r.0.customers)
  {
    var found := FindFirst(db.customers, ctx.org, id);
    if found.None? then (db, Err(NotFound))
    else FindOne(db.(customers := UpdateMany(db.customers, ctx.org, id, found.value.(status := status))), ctx, id)
  }

  function Assign(db: Db, ctx: Ctx, id: Id, agent: Option<Id>): (r: Outcome)
    ensures r.0 == db.(customers := r.0.customers)
  {
    var found := FindFirst(db.customers, ctx.org, id);
    if found.None? then (db, Err(NotFound))
    else if agent.Some? && !OwnedBy(db.users, ctx.org, agent.value) then (db, Err(AgentNotInOrg))
    else UpdateThenRead(db, ctx, id, found.value.(assignedTo := agent))
  }

  // --- upsertByFacebookId -----------------------------------------------

  /** Only the live messenger fields; absent ones are left alone. */
  function Refreshed(c: Customer, dto: SyncCustomer, now: Millis): Customer {
    c.(facebookName := Some(dto.facebookName),
       profileUrl := if dto.profileUrl.Some? then dto.profileUrl else c.profileUrl,
       lastMessage := if dto.lastMessage.Some? then dto.lastMessage else c.lastMessage,
       lastContactedAt := Some(now))
  }

  function FromMessenger(dto: SyncCustomer, lastContactedAt: Option<Millis>, now: Millis): Customer {
    Customer(dto.facebookName, Some(dto.facebookName), Some(dto.facebookId), dto.profileUrl, None, None, None,
             CustomerStatus.NEW, Some("extension"), dto.lastMessage, None, lastContactedAt, now)
  }

  /** The customer behind a facebookId, refreshed or created, with its id. */
  ghost function Upsert(db: Db, ctx: Ctx, input: Input, dto: SyncCustomer, lastContactedAt: Option<Millis>):
    (r: (Db, Id))
    ensures r.0 == db.(customers := r.0.customers)
  {
    match FindByFacebookId(db.customers, ctx.org, dto.facebookId)
    case Some(id) =>
      (db.(customers := UpdateById(db.customers, id, Refreshed(db.customers[id].row, dto, input.now))), id)
    case None =>
      (db.(customers := Insert(db.customers, ctx.org, input.newId, FromMessenger(dto, lastContactedAt, input.now))),
       input.newId)
  }
}
