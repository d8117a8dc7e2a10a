// Which successful requests their caller can take back by any sequence of later requests.
module TakeBack {
  import opened Wrappers
  import opened Tables
  import opened Schema
  import opened Crm
  import opened Tenancy
  import opened Undo
  import Analytics
  import C = CustomerSpec
  import ExtensionIdentity
  import Ledger = OrderLedger
  import O = OrderSpec
  import Purge
  import S = StoreSpec

  /** Requests that the caller of `call` makes afterwards: the clock is not set back and ids are always new. */
  ghost predicate Later(db: Db, call: Call, calls: seq<Call>) {
    && AdmissibleRun(Step(db, call).0, calls)
    && forall c :: c in calls ==>
                     c.ctx == call.ctx && c.input.now >= call.input.now && !IdUsed(db, c.input.newId)
  }

  /** Some sequence of the caller's later requests leads back to the store before. */
  ghost predicate CanTakeBack(db: Db, call: Call) {
    exists calls :: Later(db, call, calls) && Run(Step(db, call).0, calls).0 == db
  }

  predicate IsOwner(users: Table<User>, id: Id) { id in users && users[id].row.role == OWNER }

  /** A sync whose marks stay: an earlier contact time, or no message, where there is one now. */
  predicate Outdates(row: Customer, sync: C.SyncCustomer, now: Millis) {
    || row.lastContactedAt.None? || row.lastContactedAt.value < now
    || (row.lastMessage.None? && sync.lastMessage.Some?)
  }

  /** The requests for good, by what their caller can see of the store beforehand. */
  ghost predicate ForGood(db: Db, call: Call) {
    match call.request
    case CustomerRemove(_) => true
    case OrderRemove(_) => true
    case NoteRemove(_) => true
    case TagRemove(_) => true
    case FileRemove(_) => true
    case OrderUpdate(id, _) => id in db.orders && !Ledger.Computed(db.orders[id].row)
    case UserChangeRole(id, _) => IsOwner(db.users, id) && call.ctx.role != OWNER
    case FileConfirm(key) =>
      var f := S.FindByKey(db.files, call.ctx.org, key);
      f.Some? && db.files[f.value].row.status != UPLOADED
    case ExtensionSync(sync) =>
      var c := C.FindByFacebookId(db.customers, call.ctx.org, sync.facebookId);
      c.Some? && Outdates(db.customers[c.value].row, sync, call.input.now)
    case _ => false
  }

  // --- the mark that a request leaves -----------------------------------

  /** What holds of the store `d` ever after `call` was served on `db`. */
  ghost predicate Marked(db: Db, call: Call, d: Db) {
    match call.request
    case CustomerRemove(id) => id !in d.customers
    case OrderRemove(id) => id !in d.orders
    case NoteRemove(id) => id !in d.notes
    case TagRemove(id) => id !in d.tags
    case FileRemove(id) => id !in d.files
    case OrderUpdate(id, _) => id in d.orders ==> Ledger.Computed(d.orders[id].row)
    case UserChangeRole(id, _) => call.ctx.role != OWNER ==> !IsOwner(d.users, id)
    case FileConfirm(key) =>
      var f := S.FindByKey(db.files, call.ctx.org, key);
      f.Some? && f.value in d.files ==> d.files[f.value].row.status == UPLOADED
    case ExtensionSync(sync) =>
      var c := C.FindByFacebookId(db.customers, call.ctx.org, sync.facebookId);
      c.Some? && c.value in d.customers ==> !Outdates(d.customers[c.value].row, sync, call.input.now)
    case _ => true
  }

  // What the requests on one kind of table leave alone.

  lemma CustomerRequestsLeave(db: Db, call: Call)
    requires AboutCustomers(call.request)
    ensures Step(db, call).0.users == db.users && Step(db, call).0.files == db.files
  {
    hide C.Create, C.Update, C.Remove, C.ChangeStatus, C.Assign, C.Listing, CardOf;
  }

  lemma OrderAndNoteRequestsLeave(db: Db, call: Call)
    requires AboutOrdersOrNotes(call.request)
    ensures var db1 := Step(db, call).0;
            db1.users == db.users && db1.files == db.files && db1.customers == db.customers
  {
    if Purge.OnlyReads(call.request) {
      Purge.ReadsChangeNothing(db, call);
      hide Step;
    } else if call.request.OrderCreate? || call.request.OrderUpdate? {
      hide O.Create, O.Update;
    } else {
      hide O.ChangeStatus, O.Remove, S.CreateNote, S.UpdateNote, S.RemoveNote;
    }
  }

  predicate WritesUsers(r: Request) { r.UserUpdate? || r.UserChangeRole? }

  lemma TagRequestsLeave(db: Db, call: Call)
    requires AboutTagsOrUsers(call.request) && !WritesUsers(call.request)
    ensures var db1 := Step(db, call).0;
            db1.users == db.users && db1.files == db.files && db1.customers == db.customers
  {
    if Purge.OnlyReads(call.request) {
      Purge.ReadsChangeNothing(db, call);
      hide Step;
    } else {
      hide S.CreateTag, S.UpdateTag, S.RemoveTag, S.AttachTag, S.DetachTag;
    }
  }

  lemma UserRequestsLeave(db: Db, call: Call)
    requires WritesUsers(call.request)
    ensures Step(db, call).0.files == db.files && Step(db, call).0.customers == db.customers
  {
    hide S.UpdateUser, S.ChangeUserRole;
  }

  predicate AboutFiles(r: Request) { r.FilePresign? || r.FileConfirm? || r.FileFind? || r.FileRemove? }

  lemma FileRequestsLeave(db: Db, call: Call)
    requires AboutFiles(call.request)
    ensures Step(db, call).0.users == db.users && Step(db, call).0.customers == db.customers
  {
    hide S.PresignUpload, S.ConfirmUpload, S.RemoveFile;
  }

  lemma MessengerRequestsLeave(db: Db, call: Call)
    requires AboutFilesOrMessenger(call.request) && !AboutFiles(call.request)
    ensures Step(db, call).0.users == db.users && Step(db, call).0.files == db.files
  {
    hide S.SyncCustomer, S.AddNote, S.CreateExtensionOrder, Analytics.StatsOf;
  }

  // --- roles ------------------------------------------------------------

  lemma OnlyUserRequestsWriteUsers(db: Db, call: Call)
    requires !WritesUsers(call.request)
    ensures Step(db, call).0.users == db.users
  {
    hide Step;
    var r := call.request;
    if AboutCustomers(r) { CustomerRequestsLeave(db, call); }
    else if AboutOrdersOrNotes(r) { OrderAndNoteRequestsLeave(db, call); }
    else if AboutTagsOrUsers(r) { TagRequestsLeave(db, call); }
    else if AboutFiles(r) { FileRequestsLeave(db, call); }
    else { MessengerRequestsLeave(db, call); }
  }

  lemma NonOwnerMakesNoOwner(db: Db, call: Call, id: Id)
    requires call.ctx.role != OWNER && !IsOwner(db.users, id)
    ensures !IsOwner(Step(db, call).0.users, id)
  {
    hide Step;
    if !WritesUsers(call.request) {
      OnlyUserRequestsWriteUsers(db, call);
    } else if call.request.UserUpdate? {
      ProfilesHandOutNoRoles(db, call, id);
    } else {
      NonOwnersPromoteNobody(db, call, id);
    }
  }

  lemma ProfilesHandOutNoRoles(db: Db, call: Call, id: Id)
    requires call.request.UserUpdate? && !IsOwner(db.users, id)
    ensures !IsOwner(Step(db, call).0.users, id)
  {
    hide Sanitize;
  }

  lemma NonOwnersPromoteNobody(db: Db, call: Call, id: Id)
    requires call.request.UserChangeRole? && call.ctx.role != OWNER && !IsOwner(db.users, id)
    ensures !IsOwner(Step(db, call).0.users, id)
  {
    hide Sanitize;
  }

  /** Callers who are no OWNER make nobody one, whatever they ask for and whatever ids and clocks they get. */
  lemma {:induction false} NonOwnersMakeNoOwner(db: Db, calls: seq<Call>, id: Id)
    requires (forall c :: c in calls ==> c.ctx.role != OWNER) && !IsOwner(db.users, id)
    ensures !IsOwner(Run(db, calls).0.users, id)
    decreases |calls|
  {
    hide Step, IsOwner;
    if calls != [] {
      NonOwnerMakesNoOwner(db, calls[0], id);
      NonOwnersMakeNoOwner(Step(db, calls[0]).0, calls[1..], id);
    }
  }

  // --- uploads ----------------------------------------------------------

  predicate Settled(files: Table<File>, f: Id) { f in files ==> files[f].row.status == UPLOADED }

  lemma PresignSettles(db: Db, call: Call, f: Id)
    requires call.request.FilePresign? && Settled(db.files, f) && f != call.input.newId
    ensures Settled(Step(db, call).0.files, f)
  {
    hide S.KeyTaken;
  }

  lemma ConfirmSettles(db: Db, call: Call, f: Id)
    requires call.request.FileConfirm? && Settled(db.files, f)
    ensures Settled(Step(db, call).0.files, f)
  {
    hide S.FindByKey;
  }

  lemma RemovalSettles(db: Db, call: Call, f: Id)
    requires (call.request.FileRemove? || call.request.FileFind?) && Settled(db.files, f)
    ensures Settled(Step(db, call).0.files, f)
  {
  }

  lemma FilesStaySettled(db: Db, call: Call, f: Id)
    requires Settled(db.files, f) && f != call.input.newId
    ensures Settled(Step(db, call).0.files, f)
  {
    var r := call.request;
    hide Step;
    if AboutFiles(r) {
      if r.FilePresign? { PresignSettles(db, call, f); }
      else if r.FileConfirm? { ConfirmSettles(db, call, f); }
      else { RemovalSettles(db, call, f); }
    } else {
      if AboutCustomers(r) { CustomerRequestsLeave(db, call); }
      else if AboutOrdersOrNotes(r) { OrderAndNoteRequestsLeave(db, call); }
      else if WritesUsers(r) { UserRequestsLeave(db, call); }
      else if AboutTagsOrUsers(r) { TagRequestsLeave(db, call); }
      else { MessengerRequestsLeave(db, call); }
    }
  }

  // --- contact times and messages ---------------------------------------

  ghost predicate Contacted(customers: Table<Customer>, k: Id, sync: C.SyncCustomer, since: Millis) {
    k in customers ==> !Outdates(customers[k].row, sync, since)
  }

  lemma ComingAndGoingKeepsContact(db: Db, call: Call, k: Id, sync: C.SyncCustomer, since: Millis)
    requires (call.request.CustomerCreate? || call.request.CustomerRemove?) && k != call.input.newId
    requires Contacted(db.customers, k, sync, since)
    ensures Contacted(Step(db, call).0.customers, k, sync, since)
  {
    hide C.FacebookIdTaken, OrdersOf, NotesOf, C.NewCustomer, Outdates;
  }

  lemma UpdateKeepsContact(db: Db, call: Call, k: Id, sync: C.SyncCustomer, since: Millis)
    requires call.request.CustomerUpdate? && Contacted(db.customers, k, sync, since)
    ensures Contacted(Step(db, call).0.customers, k, sync, since)
  {
    hide C.FacebookIdTaken;
  }

  lemma FieldEditsKeepContact(db: Db, call: Call, k: Id, sync: C.SyncCustomer, since: Millis)
    requires (call.request.CustomerChangeStatus? || call.request.CustomerAssign?)
    requires Contacted(db.customers, k, sync, since)
    ensures Contacted(Step(db, call).0.customers, k, sync, since)
  {
    hide CardOf;
  }

  lemma EditsKeepContact(db: Db, call: Call, k: Id, sync: C.SyncCustomer, since: Millis)
    requires AboutCustomers(call.request) && Contacted(db.customers, k, sync, since) && k != call.input.newId
    ensures Contacted(Step(db, call).0.customers, k, sync, since)
  {
    var r := call.request;
    hide Step, Contacted;
    if Purge.OnlyReads(r) { Purge.ReadsChangeNothing(db, call); }
    else if r.CustomerCreate? || r.CustomerRemove? { ComingAndGoingKeepsContact(db, call, k, sync, since); }
    else if r.CustomerUpdate? { UpdateKeepsContact(db, call, k, sync, since); }
    else { FieldEditsKeepContact(db, call, k, sync, since); }
  }

  lemma UpsertKeepsContact(db: Db, ctx: Ctx, input: Input, dto: C.SyncCustomer, contacted: Option<Millis>, k: Id,
                           sync: C.SyncCustomer, since: Millis)
    requires Contacted(db.customers, k, sync, since) && k != input.newId && input.now >= since
    ensures Contacted(C.Upsert(db, ctx, input, dto, contacted).0.customers, k, sync, since)
  {
    hide C.FindByFacebookId;
  }

  lemma MessengerKeepsContact(db: Db, call: Call, k: Id, sync: C.SyncCustomer, since: Millis)
    requires AboutFilesOrMessenger(call.request) && !AboutFiles(call.request) && !call.request.DashboardRead?
    requires Contacted(db.customers, k, sync, since) && k != call.input.newId && call.input.now >= since
    ensures Contacted(Step(db, call).0.customers, k, sync, since)
  {
    var r, ctx, input := call.request, call.ctx, call.input;
    if r.ExtensionSync? {
      ExtensionIdentity.SyncUpserts(db, call);
      hide Step, C.Upsert, Contacted;
      UpsertKeepsContact(db, ctx, input, r.sync, Some(input.now), k, sync, since);
    } else {
      if r.ExtensionNote? { ExtensionIdentity.NoteResolves(db, call); }
      else { ExtensionIdentity.OrderResolves(db, call); }
      hide Step, C.Upsert, Contacted, C.FindByFacebookId;
      var dto := C.SyncCustomer(r.facebookId, r.facebookId, None, None);
      UpsertKeepsContact(db, ctx, input, dto, None, k, sync, since);
    }
  }

  lemma StepKeepsContact(db: Db, call: Call, k: Id, sync: C.SyncCustomer, since: Millis)
    requires Contacted(db.customers, k, sync, since) && k != call.input.newId && call.input.now >= since
    ensures Contacted(Step(db, call).0.customers, k, sync, since)
  {
    hide Step, Contacted;
    var r := call.request;
    if AboutCustomers(r) { EditsKeepContact(db, call, k, sync, since); }
    else if AboutOrdersOrNotes(r) { OrderAndNoteRequestsLeave(db, call); }
    else if WritesUsers(r) { UserRequestsLeave(db, call); }
    else if AboutTagsOrUsers(r) { TagRequestsLeave(db, call); }
    else if AboutFiles(r) { FileRequestsLeave(db, call); }
    else if r.DashboardRead? { Purge.ReadsChangeNothing(db, call); }
    else { MessengerKeepsContact(db, call, k, sync, since); }
  }

  // --- marks stay -------------------------------------------------------

  lemma FileIsUsed(db: Db, f: Id)
    requires f in db.files
    ensures IdUsed(db, f)
  {
  }

  lemma CustomerIsUsed(db: Db, c: Id)
    requires c in db.customers
    ensures IdUsed(db, c)
  {
  }

  lemma StepKeepsMark(db: Db, call: Call, d: Db, c: Call)
    requires Step(db, call).1.Ok? && Marked(db, call, d)
    requires c.ctx == call.ctx && c.input.now >= call.input.now && !IdUsed(db, c.input.newId)
    ensures Marked(db, call, Step(d, c).0)
  {
    hide Step, C.FindByFacebookId, S.FindByKey, IdUsed;
    match call.request
    case OrderUpdate(id, _) =>
      hide Ledger.Computed;
      Ledger.StepKeepsComputed(d, c, id);
    case UserChangeRole(id, _) =>
      hide IsOwner;
      if call.ctx.role != OWNER { NonOwnerMakesNoOwner(d, c, id); }
    case FileConfirm(key) =>
      var f := S.FindByKey(db.files, call.ctx.org, key);
      if f.Some? {
        assert f.value != c.input.newId by { FileIsUsed(db, f.value); }
        FilesStaySettled(d, c, f.value);
      }
    case ExtensionSync(sync) =>
      var k := C.FindByFacebookId(db.customers, call.ctx.org, sync.facebookId);
      if k.Some? {
        assert k.value != c.input.newId by { CustomerIsUsed(db, k.value); }
        assert Contacted(d.customers, k.value, sync, call.input.now);
        StepKeepsContact(d, c, k.value, sync, call.input.now);
        assert Contacted(Step(d, c).0.customers, k.value, sync, call.input.now);
      }
    case _ => RemovalsStay(db, call, d, c);
  }

  predicate Removes(r: Request) {
    r.CustomerRemove? || r.OrderRemove? || r.NoteRemove? || r.TagRemove? || r.FileRemove?
  }

  lemma RemovalsStay(db: Db, call: Call, d: Db, c: Call)
    requires Step(db, call).1.Ok? && Marked(db, call, d) && !IdUsed(db, c.input.newId)
    requires !call.request.OrderUpdate? && !call.request.UserChangeRole? && !call.request.FileConfirm?
    requires !call.request.ExtensionSync?
    ensures Marked(db, call, Step(d, c).0)
  {
    RemovedIdsAreUsed(db, call);
    hide Step, IsOwner, Outdates, Ledger.Computed, Purge.SameOwners;
    Purge.StepGrows(d, c);
    if Removes(call.request) { assert call.request.id != c.input.newId; }
  }

  lemma RemovedIdsAreUsed(db: Db, call: Call)
    requires Step(db, call).1.Ok?
    ensures call.request.CustomerRemove? ==> call.request.id in db.customers
    ensures call.request.OrderRemove? ==> call.request.id in db.orders
    ensures call.request.NoteRemove? ==> call.request.id in db.notes
    ensures call.request.TagRemove? ==> call.request.id in db.tags
    ensures call.request.FileRemove? ==> call.request.id in db.files
  {
  }

  lemma OrderUpdateMarks(db: Db, call: Call)
    requires call.request.OrderUpdate? && Step(db, call).1.Ok?
    ensures Marked(db, call, Step(db, call).0)
  {
    Ledger.MergeIsComputed(db.orders[call.request.id].row, call.request.orderPatch);
    hide Ledger.Computed, O.Merge, OrderCardOf;
  }

  lemma SyncMarks(db: Db, call: Call)
    requires call.request.ExtensionSync?
    ensures Marked(db, call, Step(db, call).0)
  {
    ExtensionIdentity.SyncUpserts(db, call);
    hide Step, C.FindByFacebookId;
  }

  lemma ConfirmMarks(db: Db, call: Call)
    requires call.request.FileConfirm?
    ensures Marked(db, call, Step(db, call).0)
  {
    hide S.FindByKey;
  }

  lemma RoleChangeMarks(db: Db, call: Call)
    requires call.request.UserChangeRole? && Step(db, call).1.Ok?
    ensures Marked(db, call, Step(db, call).0)
  {
    hide Sanitize;
  }

  lemma CascadesMark(db: Db, call: Call)
    requires (call.request.CustomerRemove? || call.request.TagRemove?) && Step(db, call).1.Ok?
    ensures Marked(db, call, Step(db, call).0)
  {
    hide OrdersOf, NotesOf;
  }

  lemma RemovalMarks(db: Db, call: Call)
    requires Step(db, call).1.Ok? && !call.request.CustomerRemove? && !call.request.TagRemove?
    requires !call.request.OrderUpdate? && !call.request.UserChangeRole? && !call.request.FileConfirm?
    requires !call.request.ExtensionSync?
    ensures Marked(db, call, Step(db, call).0)
  {
    if !Removes(call.request) { hide Step; }
  }

  /** The mark is there as soon as the request is served. */
  lemma MarkedAtOnce(db: Db, call: Call)
    requires Step(db, call).1.Ok?
    ensures Marked(db, call, Step(db, call).0)
  {
    hide Step, Marked;
    var r := call.request;
    if r.OrderUpdate? { OrderUpdateMarks(db, call); }
    else if r.ExtensionSync? { SyncMarks(db, call); }
    else if r.FileConfirm? { ConfirmMarks(db, call); }
    else if r.UserChangeRole? { RoleChangeMarks(db, call); }
    else if r.CustomerRemove? || r.TagRemove? { CascadesMark(db, call); }
    else { RemovalMarks(db, call); }
  }

  /** The requests for good are those whose mark the store did not bear before. */
  lemma ForGoodLeavesMark(db: Db, call: Call)
    requires Step(db, call).1.Ok?
    ensures ForGood(db, call) <==> !Marked(db, call, db)
  {
    RemovedIdsAreUsed(db, call);
    hide Step, Ledger.Computed, C.FindByFacebookId, S.FindByKey, Outdates, IsOwner;
  }

  lemma {:induction false} RunKeepsMark(db: Db, call: Call, d: Db, calls: seq<Call>)
    requires Step(db, call).1.Ok? && Marked(db, call, d)
    requires forall c :: c in calls ==>
                           c.ctx == call.ctx && c.input.now >= call.input.now && !IdUsed(db, c.input.newId)
    ensures Marked(db, call, Run(d, calls).0)
    decreases |calls|
  {
    hide Step, Marked;
    if calls != [] {
      StepKeepsMark(db, call, d, calls[0]);
      RunKeepsMark(db, call, Step(d, calls[0]).0, calls[1..]);
    }
  }

  lemma ForGoodStays(db: Db, call: Call)
    requires Step(db, call).1.Ok? && ForGood(db, call)
    ensures !CanTakeBack(db, call)
  {
    MarkedAtOnce(db, call);
    ForGoodLeavesMark(db, call);
    hide Step, ForGood, Marked, AdmissibleRun;
    forall calls | Later(db, call, calls) ensures Run(Step(db, call).0, calls).0 != db {
      RunKeepsMark(db, call, Step(db, call).0, calls);
    }
  }

  // --- the way back -----------------------------------------------------

  /** There is always another id to draw. */
  lemma NewIds(db: Db, db1: Db) returns (n: Id)
    ensures forall id :: id >= n ==> !IdUsed(db, id) && !IdUsed(db1, id)
  {
    n := NextId(db.customers.Keys + db.orders.Keys + db.notes.Keys + db.tags.Keys + db.files.Keys
                + db1.customers.Keys + db1.orders.Keys + db1.notes.Keys + db1.tags.Keys + db1.files.Keys);
  }

  lemma CallerStays(db: Db, call: Call)
    requires Admissible(db, call)
    ensures CallerOk(Step(db, call).0, call.ctx)
  {
    Purge.StepGrows(db, call);
    hide Step;
  }

  lemma OneWayBack(db: Db, call: Call)
    requires Consistent(db) && Admissible(db, call) && Step(db, call).1.Ok? && UndoOf(db, call).Some?
    ensures CanTakeBack(db, call)
  {
    hide Step, Consistent, UndoOf;
    CallerStays(db, call);
    var db1 := Step(db, call).0;
    var n := NewIds(db, db1);
    var undo := Call(call.ctx, Input(call.input.now, n), UndoOf(db, call).value);
    UndoRestores(db, call, undo.input);
    hide IdUsed;
    assert Later(db, call, [undo]);
    assert Run(db1, [undo]).0 == db by { assert [undo][1..] == []; }
  }

  lemma NothingToTakeBack(db: Db, call: Call)
    requires Step(db, call).0 == db
    ensures CanTakeBack(db, call)
  {
    hide Step;
    assert Later(db, call, []);
    assert Run(db, []).0 == db;
  }

  /** Another sync at the old contact time, with the old message. */
  function SyncBack(row: Customer, facebookId: string): C.SyncCustomer {
    C.SyncCustomer(facebookId, row.name, None, row.lastMessage)
  }

  lemma ResyncedOnly(db: Db, ctx: Ctx, input: Input, dto: C.SyncCustomer, c: Id)
    requires FacebookIdsUnique(db.customers) && C.HasFacebookId(db.customers, ctx.org, dto.facebookId, c)
    ensures S.SyncCustomer(db, ctx, input, dto).0
            == db.(customers := db.customers[c := Owned(ctx.org, C.Refreshed(db.customers[c].row, dto, input.now))])
  {
    ExtensionIdentity.FindsTheOnlyOne(db.customers, ctx.org, dto.facebookId, c);
    hide C.FindByFacebookId;
  }

  lemma SameIdsStayUnique(t: Table<Customer>, org: OrgId, c: Id, row: Customer)
    requires FacebookIdsUnique(t) && OwnedBy(t, org, c) && row.facebookId == t[c].row.facebookId
    ensures FacebookIdsUnique(t[c := Owned(org, row)])
  {
  }

  lemma PatchedBack(db: Db, ctx: Ctx, c: Id, row: Customer)
    requires OwnedBy(db.customers, ctx.org, c) && FacebookIdsUnique(db.customers) && AgentsLinked(db)
    requires var before := db.customers[c].row;
             && row == before.(facebookName := row.facebookName, profileUrl := row.profileUrl)
    ensures C.Update(db.(customers := db.customers[c := Owned(ctx.org, row)]), ctx, c,
                     CustomerPatchTo(db.customers[c].row)).0 == db
  {
    var before := db.customers[c].row;
    var customers := db.customers[c := Owned(ctx.org, row)];
    CustomerPatchLaws(row, before, NoCustomerPatch(), NoCustomerPatch());
    assert C.Merge(row, CustomerPatchTo(before)) == before;
    assert !C.FacebookIdTaken(customers, ctx.org, before.facebookId, Some(c));
    assert customers[c := Owned(ctx.org, before)] == db.customers;
    hide C.Merge, C.FacebookIdTaken, CustomerPatchTo;
  }

  /** Syncing back and patching the two columns that a patch reaches gives the old store. */
  lemma SyncedBack(db: Db, ctx: Ctx, input: Input, dto: C.SyncCustomer, c: Id, back: Input)
    requires Consistent(db) && C.HasFacebookId(db.customers, ctx.org, dto.facebookId, c)
    requires !Outdates(db.customers[c].row, dto, input.now)
    requires Some(back.now) == db.customers[c].row.lastContactedAt
    ensures var db1, row := S.SyncCustomer(db, ctx, input, dto).0, db.customers[c].row;
            var db2 := S.SyncCustomer(db1, ctx, back, SyncBack(row, dto.facebookId)).0;
            C.Update(db2, ctx, c, CustomerPatchTo(row)).0 == db
  {
    var row := db.customers[c].row;
    var row1 := C.Refreshed(row, dto, input.now);
    var row2 := C.Refreshed(row1, SyncBack(row, dto.facebookId), back.now);
    assert row2 == row.(facebookName := row2.facebookName, profileUrl := row2.profileUrl);
    ResyncedOnly(db, ctx, input, dto, c);
    SameIdsStayUnique(db.customers, ctx.org, c, row1);
    var db1 := S.SyncCustomer(db, ctx, input, dto).0;
    hide C.FindByFacebookId, C.Update, S.SyncCustomer, C.Refreshed;
    ResyncedOnly(db1, ctx, back, SyncBack(row, dto.facebookId), c);
    PatchedBack(db, ctx, c, row2);
    assert db1.customers[c := Owned(ctx.org, row2)] == db.customers[c := Owned(ctx.org, row2)];
  }

  lemma RunOfTwo(db: Db, c1: Call, c2: Call)
    ensures Run(db, [c1, c2]).0 == Step(Step(db, c1).0, c2).0
  {
    hide Step;
    assert [c1, c2][1..] == [c2] && [c2][1..] == [];
    assert Run(Step(db, c1).0, [c2]).0 == Step(Step(db, c1).0, c2).0;
  }

  lemma SyncStep(db: Db, call: Call)
    requires call.request.ExtensionSync?
    ensures Step(db, call) == S.SyncCustomer(db, call.ctx, call.input, call.request.sync)
  {
    hide S.SyncCustomer;
  }

  lemma UpdateStep(db: Db, call: Call)
    requires call.request.CustomerUpdate?
    ensures Step(db, call) == C.Update(db, call.ctx, call.request.id, call.request.customerPatch)
  {
    hide C.Update;
  }

  lemma TwoAreLater(db: Db, call: Call, first: Call, second: Call)
    requires CallerOk(Step(db, call).0, call.ctx) && first.ctx == call.ctx && second.ctx == call.ctx
    requires first.input.now >= call.input.now && second.input.now >= call.input.now
    requires first.input.newId != second.input.newId
    requires !IdUsed(db, first.input.newId) && !IdUsed(Step(db, call).0, first.input.newId)
    requires !IdUsed(db, second.input.newId) && !IdUsed(Step(db, call).0, second.input.newId)
    ensures Later(db, call, [first, second])
  {
    hide Step, IdUsed, CallerOk;
  }

  lemma ResyncWayBack(db: Db, call: Call)
    requires Consistent(db) && Admissible(db, call) && call.request.ExtensionSync?
    requires Known(db, call.ctx, call.request.sync.facebookId) && !ForGood(db, call)
    ensures CanTakeBack(db, call)
  {
    hide Step, Consistent, S.SyncCustomer, C.Update, CustomerPatchTo, C.FindByFacebookId, IdUsed, Later, CallerOk;
    var ctx, sync, db1 := call.ctx, call.request.sync, Step(db, call).0;
    var c := C.FindByFacebookId(db.customers, ctx.org, sync.facebookId).value;
    var row := db.customers[c].row;
    var now := row.lastContactedAt.value;
    var n := NewIds(db, db1);
    var again := Call(ctx, Input(now, n), ExtensionSync(SyncBack(row, sync.facebookId)));
    var patch := Call(ctx, Input(now, n + 1), CustomerUpdate(c, CustomerPatchTo(row)));
    CallerStays(db, call);
    SyncStep(db, call);
    SyncStep(db1, again);
    UpdateStep(Step(db1, again).0, patch);
    SyncedBack(db, ctx, call.input, sync, c, again.input);
    RunOfTwo(db1, again, patch);
    TwoAreLater(db, call, again, patch);
  }

  /** The other requests either have an undoing request or changed nothing. */
  lemma UndoneOrIdle(db: Db, call: Call)
    requires Step(db, call).1.Ok? && !ForGood(db, call)
    requires !(call.request.ExtensionSync? && Known(db, call.ctx, call.request.sync.facebookId))
    ensures UndoOf(db, call).Some? || Step(db, call).0 == db
  {
    if Purge.OnlyReads(call.request) {
      Purge.ReadsChangeNothing(db, call);
      hide Step;
    } else if call.request.FileConfirm? {
      ConfirmIdles(db, call);
      hide Step;
    } else if call.request.TagAttach? || call.request.TagDetach? {
      if UndoOf(db, call).None? { PivotIdles(db, call); }
      hide Step;
    } else {
      EditedRowsAreThere(db, call);
      hide Step, Ledger.Computed, C.FindByFacebookId, OrderPatchRecomputing;
    }
  }

  lemma ConfirmIdles(db: Db, call: Call)
    requires call.request.FileConfirm? && !ForGood(db, call)
    ensures Step(db, call).0 == db
  {
    hide S.FindByKey;
  }

  lemma PivotIdles(db: Db, call: Call)
    requires call.request.TagAttach? ==> Link(call.request.customerId, call.request.tagId) in db.links
    requires call.request.TagDetach? ==> Link(call.request.customerId, call.request.tagId) !in db.links
    requires call.request.TagAttach? || call.request.TagDetach?
    ensures Step(db, call).0 == db
  {
    var l := Link(call.request.customerId, call.request.tagId);
    assert l in db.links ==> db.links + {l} == db.links;
    assert l !in db.links ==> db.links - {l} == db.links;
  }

  /** A successful edit names a row that exists. */
  lemma EditedRowsAreThere(db: Db, call: Call)
    requires Step(db, call).1.Ok?
    ensures var r := call.request;
            && (r.CustomerUpdate? || r.CustomerChangeStatus? || r.CustomerAssign? ==> r.id in db.customers)
            && (r.OrderUpdate? || r.OrderChangeStatus? ==> r.id in db.orders)
            && (r.NoteUpdate? ==> r.id in db.notes) && (r.TagUpdate? ==> r.id in db.tags)
            && (r.UserUpdate? || r.UserChangeRole? ==> r.id in db.users)
  {
    hide CardOf, OrderCardOf, NoteCardOf, C.Merge, O.Merge, C.FacebookIdTaken, S.TagNameTaken, Sanitize;
  }

  /**
   * A successful request can be taken back by its caller if and only if it is none of the requests for good:
   * a removal, an update of an order that no money inputs compute, a demotion of an OWNER by another role, the
   * confirmation of an upload not yet confirmed, and a sync that is newer than the last or brings the first message.
   */
  lemma TakenBackExactlyWhen(db: Db, call: Call)
    requires Consistent(db) && Admissible(db, call) && Step(db, call).1.Ok?
    ensures CanTakeBack(db, call) <==> !ForGood(db, call)
  {
    hide Step, Consistent, ForGood, UndoOf, CanTakeBack, Known, Admissible;
    if ForGood(db, call) { ForGoodStays(db, call); }
    else if call.request.ExtensionSync? && Known(db, call.ctx, call.request.sync.facebookId) {
      ResyncWayBack(db, call);
    } else {
      UndoneOrIdle(db, call);
      if UndoOf(db, call).Some? { OneWayBack(db, call); } else { NothingToTakeBack(db, call); }
    }
  }
}
