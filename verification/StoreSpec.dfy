// Notes, tags, users, files and the browser extension, one request at a time.
module StoreSpec {
  import opened Wrappers
  import opened Tables
  import opened Schema
  import opened Crm
  import CustomerSpec
  import OrderSpec
  import ObjectKeys

  // --- notes ------------------------------------------------------------

  function CreateNote(db: Db, ctx: Ctx, input: Input, customerId: Id, content: string): (r: Outcome)
    ensures r.0 == db.(notes := r.0.notes)
  {
    if !OwnedBy(db.customers, ctx.org, customerId) then (db, Err(CustomerNotInOrg))
    else if ctx.userId !in db.users then (db, Err(ForeignKeyViolation))
    else
      var row := Note(customerId, Some(ctx.userId), content, input.now);
      (db.(notes := Insert(db.notes, ctx.org, input.newId, row)), Ok(NoteRow(input.newId, row)))
  }

  function NoteListing(db: Db, org: OrgId, customerId: Id): map<Id, NoteCard> {
    map n | n in db.notes && db.notes[n].org == org && db.notes[n].row.customerId == customerId :: NoteCardOf(db, n)
  }

  function ListNotes(db: Db, ctx: Ctx, customerId: Id): Outcome {
    (db, Ok(Notes(NoteListing(db, ctx.org, customerId))))
  }

  function FindNote(db: Db, ctx: Ctx, id: Id): Outcome {
    if FindFirst(db.notes, ctx.org, id).None? then (db, Err(NotFound))
    else (db, Ok(NoteFound(NoteCardOf(db, id))))
  }

  function UpdateNote(db: Db, ctx: Ctx, id: Id, content: string): (r: Outcome)
    ensures r.0 == db.(notes := r.0.notes)
  {
    var found := FindFirst(db.notes, ctx.org, id);
    if found.None? then (db, Err(NotFound))
    else FindNote(db.(notes := UpdateMany(db.notes, ctx.org, id, found.value.(content := content))), ctx, id)
  }

  function RemoveNote(db: Db, ctx: Ctx, id: Id): (r: Outcome)
    ensures r.0 == db.(notes := r.0.notes)
  {
    if FindFirst(db.notes, ctx.org, id).None? then (db, Err(NotFound))
    else (db.(notes := DeleteMany(db.notes, ctx.org, id)), Ok(Done))
  }

  // --- tags -------------------------------------------------------------

  /** The unique index (organization_id, name). */
  predicate TagNameTaken(tags: Table<Tag>, org: OrgId, name: string, except: Option<Id>) {
    exists t :: t in tags && tags[t].org == org && tags[t].row.name == name && Some(t) != except
  }

  function CreateTag(db: Db, ctx: Ctx, input: Input, name: string, color: Option<string>): (r: Outcome)
    ensures r.0 == db.(tags := r.0.tags)
  {
    if TagNameTaken(db.tags, ctx.org, name, None) then (db, Err(UniqueViolation))
    else
      var row := Tag(name, color.GetOr("#6366f1"));
      (db.(tags := Insert(db.tags, ctx.org, input.newId, row)), Ok(TagFound(input.newId, row)))
  }

  function ListTags(db: Db, ctx: Ctx): Outcome { (db, Ok(Tags(Scope(db.tags, ctx.org)))) }

  function UpdateTag(db: Db, ctx: Ctx, id: Id, name: Option<string>, color: Option<string>): (r: Outcome)
    ensures r.0 == db.(tags := r.0.tags)
  {
    var found := FindFirst(db.tags, ctx.org, id);
    if found.None? then (db, Err(NotFound))
    else
      var row := Tag(Keep(name, found.value.name), Keep(color, found.value.color));
      if TagNameTaken(db.tags, ctx.org, row.name, Some(id)) then (db, Err(UniqueViolation))
      else (db.(tags := UpdateMany(db.tags, ctx.org, id, row)), Ok(TagFound(id, row)))
  }

  /** ON DELETE CASCADE from tags to customer_tags. */
  function RemoveTag(db: Db, ctx: Ctx, id: Id): (r: Outcome)
    ensures r.0 == db.(tags := r.0.tags, links := r.0.links)
  {
    if FindFirst(db.tags, ctx.org, id).None? then (db, Err(NotFound))
    else (db.(tags := DeleteMany(db.tags, ctx.org, id), links := set l | l in db.links && l.tagId != id), Ok(Done))
  }

  /** The pivot upsert names two ids and no organization. */
  function AttachTag(db: Db, ctx: Ctx, tagId: Id, customerId: Id): (r: Outcome)
    ensures r.0 == db.(links := r.0.links)
  {
    if FindFirst(db.tags, ctx.org, tagId).None? then (db, Err(NotFound))
    else if !OwnedBy(db.customers, ctx.org, customerId) then (db, Err(CustomerNotInOrg))
    else (db.(links := db.links + {Link(customerId, tagId)}), Ok(Done))
  }

  /** Neither does the pivot delete, and here the customer is not even checked. */
  function DetachTag(db: Db, ctx: Ctx, tagId: Id, customerId: Id): (r: Outcome)
    ensures r.0 == db.(links := r.0.links)
  {
    if FindFirst(db.tags, ctx.org, tagId).None? then (db, Err(NotFound))
    else (db.(links := db.links - {Link(customerId, tagId)}), Ok(Done))
  }

  // --- users ------------------------------------------------------------

  /** getInOrg finds the user by bare id and compares organizations. */
  function FindUser(db: Db, ctx: Ctx, id: Id): Outcome {
    if !OwnedBy(db.users, ctx.org, id) then (db, Err(NotFound)) else (db, Ok(UserFound(Sanitize(id, db.users[id]))))
  }

  function UserListing(users: Table<User>, org: OrgId): map<Id, SafeUser> {
    map u | u in users && users[u].org == org :: Sanitize(u, users[u])
  }

  function ListUsers(db: Db, ctx: Ctx): Outcome { (db, Ok(Users(UserListing(db.users, ctx.org)))) }

  /** The write itself is by bare id. */
  function UpdateUser(db: Db, ctx: Ctx, id: Id, first: Option<Option<string>>, last: Option<Option<string>>,
                      avatar: Option<Option<string>>): (r: Outcome)
    ensures r.0 == db.(users := r.0.users)
  {
    if !OwnedBy(db.users, ctx.org, id) then (db, Err(NotFound))
    else
      var u := db.users[id].row;
      var row := u.(firstName := Keep(first, u.firstName), lastName := Keep(last, u.lastName),
                    avatarUrl := Keep(avatar, u.avatarUrl));
      var users := UpdateById(db.users, id, row);
      (db.(users := users), Ok(UserFound(Sanitize(id, users[id]))))
  }

  /** Only a caller whose token says OWNER may hand out OWNER; the write is by bare id. */
  function ChangeRole(users: Table<User>, ctx: Ctx, id: Id, role: Role): (Table<User>, Result<Reply, Failure>) {
    if !OwnedBy(users, ctx.org, id) then (users, Err(NotFound))
    else if role == OWNER && ctx.role != OWNER then (users, Err(OwnerOnly))
    else
      var users' := UpdateById(users, id, users[id].row.(role := role));
      (users', Ok(UserFound(Sanitize(id, users'[id]))))
  }

  function ChangeUserRole(db: Db, ctx: Ctx, id: Id, role: Role): (r: Outcome)
    ensures r.0 == db.(users := r.0.users)
  {
    var (users, reply) := ChangeRole(db.users, ctx, id, role);
    (db.(users := users), reply)
  }

  // --- files ------------------------------------------------------------

  /** The unique index on key spans all organizations. */
  predicate KeyTaken(files: Table<File>, key: string) {
    exists f :: f in files && files[f].row.key == key
  }

  predicate HasKey(files: Table<File>, org: OrgId, key: string, id: Id) {
    id in files && files[id].org == org && files[id].row.key == key
  }

  /** findFirst({ where: { key, organizationId } }) */
  ghost function FindByKey(files: Table<File>, org: OrgId, key: string): (r: Option<Id>)
    ensures r.Some? ==> HasKey(files, org, key, r.value)
    ensures r.None? ==> forall f :: f in files ==> !HasKey(files, org, key, f)
  {
    if exists f :: f in files && HasKey(files, org, key, f) then
      var f :| f in files && HasKey(files, org, key, f);
      Some(f)
    else None
  }

  function PresignUpload(db: Db, ctx: Ctx, input: Input, filename: string, mimeType: string, size: nat): (r: Outcome)
    ensures r.0 == db.(files := r.0.files)
  {
    var key := ObjectKeys.BuildKey(ctx.org, filename, input.now);
    if KeyTaken(db.files, key) then (db, Err(UniqueViolation))
    else
      var row := File(Some(ctx.userId), key, filename, mimeType, size, FileStatus.PENDING);
      (db.(files := Insert(db.files, ctx.org, input.newId, row)), Ok(FileFound(input.newId, row)))
  }

  /** markStatus writes by bare id. */
  ghost function ConfirmUpload(db: Db, ctx: Ctx, key: string): (r: Outcome)
    ensures r.0 == db.(files := r.0.files)
  {
    match FindByKey(db.files, ctx.org, key)
    case None => (db, Err(NotFound))
    case Some(id) =>
      var row := db.files[id].row.(status := UPLOADED);
      (db.(files := UpdateById(db.files, id, row)), Ok(FileFound(id, row)))
  }

  function FindFile(db: Db, ctx: Ctx, id: Id): Outcome {
    var found := FindFirst(db.files, ctx.org, id);
    (db, if found.None? then Err(NotFound) else Ok(FileFound(id, found.value)))
  }

  function RemoveFile(db: Db, ctx: Ctx, id: Id): (r: Outcome)
    ensures r.0 == db.(files := r.0.files)
  {
    if FindFirst(db.files, ctx.org, id).None? then (db, Err(NotFound))
    else (db.(files := DeleteMany(db.files, ctx.org, id)), Ok(Done))
  }

  // --- the browser extension --------------------------------------------

  ghost function SyncCustomer(db: Db, ctx: Ctx, input: Input, dto: CustomerSpec.SyncCustomer): (r: Outcome)
    ensures r.0 == db.(customers := r.0.customers)
  {
    var (db1, id) := CustomerSpec.Upsert(db, ctx, input, dto, Some(input.now));
    (db1, Ok(CustomerRow(id, db1.customers[id].row)))
  }

  /** The customer with this facebookId, created on the spot if the extension has not synced it yet. */
  ghost function ResolveCustomer(db: Db, ctx: Ctx, input: Input, facebookId: string): (r: (Db, Id))
    ensures r.0 == db.(customers := r.0.customers)
  {
    match CustomerSpec.FindByFacebookId(db.customers, ctx.org, facebookId)
    case Some(id) => (db, id)
    case None =>
      CustomerSpec.Upsert(db, ctx, input, CustomerSpec.SyncCustomer(facebookId, facebookId, None, None), None)
  }

  ghost function AddNote(db: Db, ctx: Ctx, input: Input, facebookId: string, content: string): (r: Outcome)
    ensures r.0 == db.(customers := r.0.customers, notes := r.0.notes)
  {
    var (db1, id) := ResolveCustomer(db, ctx, input, facebookId);
    CreateNote(db1, ctx, input, id, content)
  }

  ghost function CreateExtensionOrder(db: Db, ctx: Ctx, input: Input, facebookId: string, productName: string,
                                      quantity: Option<int>, amount: real): (r: Outcome)
    ensures r.0 == db.(customers := r.0.customers, orders := r.0.orders)
  {
    var (db1, id) := ResolveCustomer(db, ctx, input, facebookId);
    OrderSpec.Create(db1, ctx, input,
                     OrderSpec.CreateOrder(id, productName, quantity.GetOr(1), amount, None, None, None, None, None))
  }
}
