// The extension's find-or-create: one facebookId means one customer, and everything
// the extension writes for it lands on that customer.
module ExtensionIdentity {
  import opened Wrappers
  import opened Tables
  import opened Schema
  import opened Crm
  import opened CustomerSpec
  import opened Tenancy
  import Analytics
  import Purge
  import Consistency
  import OrderSpec
  import S = StoreSpec

  /** Every reachable store has at most one customer per organization and facebookId. */
  lemma OneCustomerPerFacebookId(db: Db, calls: seq<Call>, org: OrgId, facebookId: string, a: Id, b: Id)
    requires Consistent(db) && AdmissibleRun(db, calls)
    requires HasFacebookId(Run(db, calls).0.customers, org, facebookId, a)
    requires HasFacebookId(Run(db, calls).0.customers, org, facebookId, b)
    ensures a == b
  {
    hide Run, AdmissibleRun;
    Purge.RunKeepsConsistent(db, calls);
  }

  lemma FindsTheOnlyOne(t: Table<Customer>, org: OrgId, facebookId: string, c: Id)
    requires FacebookIdsUnique(t) && HasFacebookId(t, org, facebookId, c)
    ensures FindByFacebookId(t, org, facebookId) == Some(c)
  {
  }

  /** Syncing a customer that exists writes its messenger fields and nothing else anywhere. */
  lemma SyncRefreshesMessengerFields(db: Db, ctx: Ctx, input: Input, dto: SyncCustomer, c: Id)
    requires FacebookIdsUnique(db.customers) && HasFacebookId(db.customers, ctx.org, dto.facebookId, c)
    ensures var (db', reply) := S.SyncCustomer(db, ctx, input, dto);
            var before, after := db.customers[c].row, db'.customers[c].row;
            && reply == Ok(CustomerRow(c, after))
            && db' == db.(customers := db.customers[c := Owned(ctx.org, after)])
            && after == before.(facebookName := after.facebookName, profileUrl := after.profileUrl,
                                lastMessage := after.lastMessage, lastContactedAt := after.lastContactedAt)
            && after.facebookName == Some(dto.facebookName) && after.lastContactedAt == Some(input.now)
            && after.profileUrl == (if dto.profileUrl.None? then before.profileUrl else dto.profileUrl)
            && after.lastMessage == (if dto.lastMessage.None? then before.lastMessage else dto.lastMessage)
  {
    FindsTheOnlyOne(db.customers, ctx.org, dto.facebookId, c);
    hide FindByFacebookId;
  }

  predicate Creates(db: Db, db': Db, org: OrgId, facebookId: string, id: Id) {
    HasFacebookId(db'.customers, org, facebookId, id) && db'.customers.Keys == db.customers.Keys + {id}
  }

  lemma FirstUpsertCreates(db: Db, ctx: Ctx, input: Input, dto: SyncCustomer, contacted: Option<Millis>)
    requires FindByFacebookId(db.customers, ctx.org, dto.facebookId).None?
    ensures Creates(db, Upsert(db, ctx, input, dto, contacted).0, ctx.org, dto.facebookId, input.newId)
  {
    hide FindByFacebookId;
  }

  lemma ResolveCreates(db: Db, ctx: Ctx, input: Input, facebookId: string)
    requires FindByFacebookId(db.customers, ctx.org, facebookId).None?
    ensures Creates(db, S.ResolveCustomer(db, ctx, input, facebookId).0, ctx.org, facebookId, input.newId)
  {
    hide FindByFacebookId, Upsert, HasFacebookId;
    FirstUpsertCreates(db, ctx, input, SyncCustomer(facebookId, facebookId, None, None), None);
  }

  lemma CreatesCarriesOver(db: Db, db1: Db, db2: Db, org: OrgId, facebookId: string, id: Id)
    requires Creates(db, db1, org, facebookId, id) && db2.customers == db1.customers
    ensures Creates(db, db2, org, facebookId, id)
  {
  }

  lemma SyncUpserts(db: Db, call: Call)
    requires call.request.ExtensionSync?
    ensures Step(db, call).0 == Upsert(db, call.ctx, call.input, call.request.sync, Some(call.input.now)).0
  {
    hide Upsert;
  }

  lemma NoteResolves(db: Db, call: Call)
    requires call.request.ExtensionNote?
    ensures Step(db, call).0.customers
            == S.ResolveCustomer(db, call.ctx, call.input, call.request.facebookId).0.customers
  {
    hide S.ResolveCustomer, S.CreateNote;
  }

  lemma OrderResolves(db: Db, call: Call)
    requires call.request.ExtensionOrder?
    ensures Step(db, call).0.customers
            == S.ResolveCustomer(db, call.ctx, call.input, call.request.facebookId).0.customers
  {
    hide S.ResolveCustomer, OrderSpec.Create;
  }

  /** A facebookId nobody has yet gets a new customer, whichever extension request comes first. */
  lemma FirstContactCreates(db: Db, call: Call, facebookId: string)
    requires call.request.ExtensionSync? ==> call.request.sync.facebookId == facebookId
    requires call.request.ExtensionNote? || call.request.ExtensionOrder? ==> call.request.facebookId == facebookId
    requires call.request.ExtensionSync? || call.request.ExtensionNote? || call.request.ExtensionOrder?
    requires forall c :: c in db.customers ==> !HasFacebookId(db.customers, call.ctx.org, facebookId, c)
    ensures Creates(db, Step(db, call).0, call.ctx.org, facebookId, call.input.newId)
  {
    assert FindByFacebookId(db.customers, call.ctx.org, facebookId).None?;
    hide Step, FindByFacebookId, Upsert, HasFacebookId, S.ResolveCustomer, Creates;
    var r, ctx, input := call.request, call.ctx, call.input;
    if r.ExtensionSync? {
      SyncUpserts(db, call);
      FirstUpsertCreates(db, ctx, input, r.sync, Some(input.now));
    } else {
      if r.ExtensionNote? { NoteResolves(db, call); } else { OrderResolves(db, call); }
      ResolveCreates(db, ctx, input, facebookId);
      var db1 := S.ResolveCustomer(db, ctx, input, facebookId).0;
      CreatesCarriesOver(db, db1, Step(db, call).0, ctx.org, facebookId, input.newId);
    }
  }

  // --- identity over runs -----------------------------------------------

  /** The two requests by which the organization itself separates customer `c` from the facebookId. */
  predicate Severs(call: Call, org: OrgId, facebookId: string, c: Id) {
    && call.ctx.org == org
    && (|| call.request == CustomerRemove(c)
        || (call.request.CustomerUpdate? && call.request.id == c && call.request.customerPatch.facebookId.Some?
            && call.request.customerPatch.facebookId.value != Some(facebookId)))
  }

  lemma RowEditsKeepIdentity(db: Db, call: Call, org: OrgId, facebookId: string, c: Id)
    requires HasFacebookId(db.customers, org, facebookId, c)
    requires call.request.CustomerUpdate? || call.request.CustomerAssign? || call.request.CustomerChangeStatus?
    ensures HasFacebookId(Step(db, call).0.customers, org, facebookId, c)
            <==> !(Severs(call, org, facebookId, c) && Step(db, call).1.Ok?)
  {
    hide CardOf, OwnedBy, FacebookIdTaken;
  }

  lemma EditsKeepIdentity(db: Db, call: Call, org: OrgId, facebookId: string, c: Id)
    requires HasFacebookId(db.customers, org, facebookId, c) && Admissible(db, call) && AboutCustomers(call.request)
    ensures HasFacebookId(Step(db, call).0.customers, org, facebookId, c)
            <==> !(Severs(call, org, facebookId, c) && Step(db, call).1.Ok?)
  {
    hide Listing, CardOf, OwnedBy, FacebookIdTaken, NewCustomer, Update, Assign, ChangeStatus;
    var r := call.request;
    if r.CustomerUpdate? || r.CustomerAssign? || r.CustomerChangeStatus? {
      hide Step;
      RowEditsKeepIdentity(db, call, org, facebookId, c);
    }
  }

  lemma UpsertKeepsIdentity(db: Db, ctx: Ctx, input: Input, dto: SyncCustomer, contacted: Option<Millis>,
                            org: OrgId, facebookId: string, c: Id)
    requires HasFacebookId(db.customers, org, facebookId, c) && input.newId !in db.customers
    ensures HasFacebookId(Upsert(db, ctx, input, dto, contacted).0.customers, org, facebookId, c)
  {
    hide FindByFacebookId;
  }

  lemma MessengerKeepsIdentity(db: Db, call: Call, org: OrgId, facebookId: string, c: Id)
    requires HasFacebookId(db.customers, org, facebookId, c) && Admissible(db, call)
    requires call.request.ExtensionSync? || call.request.ExtensionNote? || call.request.ExtensionOrder?
    ensures HasFacebookId(Step(db, call).0.customers, org, facebookId, c)
  {
    hide HasFacebookId, Upsert, FindByFacebookId;
    var r, ctx, input := call.request, call.ctx, call.input;
    if r.ExtensionSync? {
      UpsertKeepsIdentity(db, ctx, input, r.sync, Some(input.now), org, facebookId, c);
    } else {
      UpsertKeepsIdentity(db, ctx, input, SyncCustomer(r.facebookId, r.facebookId, None, None), None, org, facebookId,
                          c);
    }
  }

  lemma OrdersAndNotesLeaveCustomers(db: Db, call: Call)
    requires AboutOrdersOrNotes(call.request)
    ensures Step(db, call).0.customers == db.customers
  {
    hide OrderSpec.Create, OrderSpec.Update, OrderSpec.ChangeStatus, OrderSpec.Remove, OrderSpec.Listing, OrderCardOf;
    hide S.CreateNote, S.UpdateNote, S.RemoveNote, S.NoteListing;
  }

  lemma TagsAndUsersLeaveCustomers(db: Db, call: Call)
    requires AboutTagsOrUsers(call.request)
    ensures Step(db, call).0.customers == db.customers
  {
    hide S.CreateTag, S.UpdateTag, S.RemoveTag, S.AttachTag, S.DetachTag, S.UserListing, S.UpdateUser;
    hide S.ChangeUserRole, Sanitize;
  }

  lemma FilesLeaveCustomers(db: Db, call: Call)
    requires call.request.FilePresign? || call.request.FileConfirm? || call.request.FileFind?
             || call.request.FileRemove? || call.request.DashboardRead?
    ensures Step(db, call).0.customers == db.customers
  {
    hide S.PresignUpload, S.ConfirmUpload, S.RemoveFile, Analytics.StatsOf;
  }

  /** A customer loses its facebookId exactly when its own organization severs it. */
  lemma StepKeepsIdentity(db: Db, call: Call, org: OrgId, facebookId: string, c: Id)
    requires HasFacebookId(db.customers, org, facebookId, c) && Admissible(db, call)
    ensures HasFacebookId(Step(db, call).0.customers, org, facebookId, c)
            <==> !(Severs(call, org, facebookId, c) && Step(db, call).1.Ok?)
  {
    hide Step, HasFacebookId, Admissible;
    var r := call.request;
    if AboutCustomers(r) { EditsKeepIdentity(db, call, org, facebookId, c); }
    else if r.ExtensionSync? || r.ExtensionNote? || r.ExtensionOrder? {
      MessengerKeepsIdentity(db, call, org, facebookId, c);
    } else if AboutOrdersOrNotes(r) { OrdersAndNotesLeaveCustomers(db, call); }
    else if AboutTagsOrUsers(r) { TagsAndUsersLeaveCustomers(db, call); }
    else { FilesLeaveCustomers(db, call); }
  }

  /** What an extension request for the facebookId answers when customer `c` has it. */
  ghost predicate LandsOn(call: Call, reply: Result<Reply, Failure>, org: OrgId, facebookId: string, c: Id) {
    var r, input := call.request, call.input;
    call.ctx.org == org ==>
      && (r.ExtensionSync? && r.sync.facebookId == facebookId ==>
            reply.Ok? && reply.value.CustomerRow? && reply.value.id == c)
      && (r.ExtensionNote? && r.facebookId == facebookId ==>
            reply == Ok(NoteRow(input.newId, Note(c, Some(call.ctx.userId), r.content, input.now))))
      && (r.ExtensionOrder? && r.facebookId == facebookId ==>
            || reply == Err(UniqueViolation)
            || (reply.Ok? && reply.value.OrderRow? && reply.value.id == input.newId
                && reply.value.order.customerId == c))
  }

  lemma SyncLandsOn(db: Db, call: Call, c: Id)
    requires FacebookIdsUnique(db.customers) && call.request.ExtensionSync?
    requires HasFacebookId(db.customers, call.ctx.org, call.request.sync.facebookId, c)
    ensures Step(db, call).1.Ok? && Step(db, call).1.value.CustomerRow? && Step(db, call).1.value.id == c
  {
    FindsTheOnlyOne(db.customers, call.ctx.org, call.request.sync.facebookId, c);
    hide FindByFacebookId, Refreshed;
  }

  lemma NoteLandsOn(db: Db, call: Call, c: Id)
    requires FacebookIdsUnique(db.customers) && CallerOk(db, call.ctx) && call.request.ExtensionNote?
    requires HasFacebookId(db.customers, call.ctx.org, call.request.facebookId, c)
    ensures Step(db, call).1
            == Ok(NoteRow(call.input.newId, Note(c, Some(call.ctx.userId), call.request.content, call.input.now)))
  {
    FindsTheOnlyOne(db.customers, call.ctx.org, call.request.facebookId, c);
    hide FindByFacebookId, Upsert;
  }

  lemma OrderLandsOn(db: Db, call: Call, c: Id)
    requires FacebookIdsUnique(db.customers) && call.request.ExtensionOrder?
    requires HasFacebookId(db.customers, call.ctx.org, call.request.facebookId, c)
    ensures var reply := Step(db, call).1;
            || reply == Err(UniqueViolation)
            || (reply.Ok? && reply.value.OrderRow? && reply.value.id == call.input.newId
                && reply.value.order.customerId == c)
  {
    FindsTheOnlyOne(db.customers, call.ctx.org, call.request.facebookId, c);
    hide FindByFacebookId, Upsert, OrderSpec.NextOrderNumber, OrderSpec.NumberTaken;
  }

  lemma StepLandsOn(db: Db, call: Call, org: OrgId, facebookId: string, c: Id)
    requires Consistent(db) && Admissible(db, call) && HasFacebookId(db.customers, org, facebookId, c)
    ensures LandsOn(call, Step(db, call).1, org, facebookId, c)
  {
    assert FacebookIdsUnique(db.customers);
    hide Step, Consistent, FacebookIdsUnique, HasFacebookId;
    var r := call.request;
    if call.ctx.org == org {
      if r.ExtensionSync? && r.sync.facebookId == facebookId { SyncLandsOn(db, call, c); }
      if r.ExtensionNote? && r.facebookId == facebookId { NoteLandsOn(db, call, c); }
      if r.ExtensionOrder? && r.facebookId == facebookId { OrderLandsOn(db, call, c); }
    }
  }

  /**
   * Until its organization severs it, one customer receives every note, order and sync of the
   * facebookId, however the organizations' requests interleave.
   */
  lemma {:induction false} ExtensionWritesLandOnOneCustomer(db: Db, calls: seq<Call>, org: OrgId, facebookId: string,
                                                            c: Id)
    requires Consistent(db) && AdmissibleRun(db, calls)
    requires HasFacebookId(db.customers, org, facebookId, c)
    requires forall call :: call in calls ==> !Severs(call, org, facebookId, c)
    ensures HasFacebookId(Run(db, calls).0.customers, org, facebookId, c)
    ensures forall i :: 0 <= i < |calls| ==> LandsOn(calls[i], Run(db, calls).1[i], org, facebookId, c)
    decreases |calls|
  {
    hide Step, Consistent, HasFacebookId, Severs, LandsOn, AdmissibleRun;
    if calls != [] {
      Purge.RunStaysAdmissible(db, calls);
      StepLandsOn(db, calls[0], org, facebookId, c);
      StepKeepsIdentity(db, calls[0], org, facebookId, c);
      Consistency.StepKeepsConsistent(db, calls[0]);
      ExtensionWritesLandOnOneCustomer(Step(db, calls[0]).0, calls[1..], org, facebookId, c);
    }
  }
}
