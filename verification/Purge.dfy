// Isolation over whole runs: an organization cannot tell whether the others exist.
module Purge {
  import opened Wrappers
  import opened Tables
  import opened Schema
  import opened Crm
  import opened Tenancy
  import opened Consistency
  import opened Isolation
  import CustomerSpec
  import OrderSpec
  import S = StoreSpec

  // --- runs stay admissible ---------------------------------------------

  predicate OnlyNew<T>(t: Table<T>, t': Table<T>, newId: Id) { forall id :: id in t' ==> id in t || id == newId }

  predicate SameOwners<T>(t: Table<T>, t': Table<T>) {
    && (forall id :: id in t' ==> id in t)
    && forall id :: id in t ==> OwnedBy(t', t[id].org, id)
  }

  /** A request creates rows under its own new id only, and no request creates, deletes or moves a user. */
  predicate Grows(db: Db, db': Db, newId: Id) {
    && OnlyNew(db.customers, db'.customers, newId)
    && OnlyNew(db.orders, db'.orders, newId)
    && OnlyNew(db.notes, db'.notes, newId)
    && OnlyNew(db.tags, db'.tags, newId)
    && OnlyNew(db.files, db'.files, newId)
    && SameOwners(db.users, db'.users)
  }

  lemma CustomersComeAndGo(db: Db, call: Call)
    requires call.request.CustomerCreate? || call.request.CustomerRemove?
    ensures Grows(db, Step(db, call).0, call.input.newId)
  {
  }

  lemma CustomersEdited(db: Db, call: Call)
    requires call.request.CustomerUpdate? || call.request.CustomerAssign?
    ensures Grows(db, Step(db, call).0, call.input.newId)
  {
  }

  lemma StatusesEdited(db: Db, call: Call)
    requires call.request.CustomerChangeStatus? || call.request.OrderChangeStatus?
    ensures Grows(db, Step(db, call).0, call.input.newId)
  {
  }

  lemma OrdersComeAndGo(db: Db, call: Call)
    requires call.request.OrderCreate? || call.request.OrderRemove?
    ensures Grows(db, Step(db, call).0, call.input.newId)
  {
  }

  lemma OrdersEdited(db: Db, call: Call)
    requires call.request.OrderUpdate?
    ensures Grows(db, Step(db, call).0, call.input.newId)
  {
  }

  lemma NotesWritten(db: Db, call: Call)
    requires call.request.NoteCreate? || call.request.NoteUpdate? || call.request.NoteRemove?
    ensures Grows(db, Step(db, call).0, call.input.newId)
  {
  }

  lemma TagsWritten(db: Db, call: Call)
    requires call.request.TagCreate? || call.request.TagUpdate? || call.request.TagRemove?
    ensures Grows(db, Step(db, call).0, call.input.newId)
  {
  }

  lemma TagPivotWritten(db: Db, call: Call)
    requires call.request.TagAttach? || call.request.TagDetach?
    ensures Grows(db, Step(db, call).0, call.input.newId)
  {
  }

  lemma ProfilesEdited(db: Db, call: Call)
    requires call.request.UserUpdate?
    ensures Grows(db, Step(db, call).0, call.input.newId)
  {
    hide Sanitize;
  }

  lemma RolesEdited(db: Db, call: Call)
    requires call.request.UserChangeRole?
    ensures Grows(db, Step(db, call).0, call.input.newId)
  {
    hide Sanitize;
  }

  lemma FilesWritten(db: Db, call: Call)
    requires call.request.FilePresign? || call.request.FileConfirm? || call.request.FileRemove?
    ensures Grows(db, Step(db, call).0, call.input.newId)
  {
    hide S.FindByKey;
  }

  lemma UpsertGrows(db: Db, ctx: Ctx, input: Input, dto: CustomerSpec.SyncCustomer, lastContactedAt: Option<Millis>)
    ensures Grows(db, CustomerSpec.Upsert(db, ctx, input, dto, lastContactedAt).0, input.newId)
  {
    hide CustomerSpec.FindByFacebookId;
  }

  lemma GrowsTwice(db: Db, db1: Db, db2: Db, newId: Id)
    requires Grows(db, db1, newId) && Grows(db1, db2, newId)
    ensures Grows(db, db2, newId)
  {
  }

  /** The extension first resolves a customer, then creates a note or an order like anyone else. */
  lemma MessengerGrows(db: Db, call: Call)
    requires call.request.ExtensionSync? || call.request.ExtensionNote? || call.request.ExtensionOrder?
    ensures Grows(db, Step(db, call).0, call.input.newId)
  {
    hide Grows, CustomerSpec.Upsert, CustomerSpec.FindByFacebookId, S.CreateNote, OrderSpec.Create;
    var ctx, input := call.ctx, call.input;
    match call.request
    case ExtensionSync(dto) => UpsertGrows(db, ctx, input, dto, Some(input.now));
    case ExtensionNote(facebookId, content) =>
      var (db1, id) := S.ResolveCustomer(db, ctx, input, facebookId);
      ResolveGrows(db, ctx, input, facebookId);
      var create := Call(ctx, input, NoteCreate(id, content));
      NotesWritten(db1, create);
      GrowsTwice(db, db1, Step(db1, create).0, input.newId);
    case ExtensionOrder(facebookId, productName, quantity, amount) =>
      var (db1, id) := S.ResolveCustomer(db, ctx, input, facebookId);
      ResolveGrows(db, ctx, input, facebookId);
      var dto := OrderSpec.CreateOrder(id, productName, quantity.GetOr(1), amount, None, None, None, None, None);
      var create := Call(ctx, input, OrderCreate(dto));
      OrdersComeAndGo(db1, create);
      GrowsTwice(db, db1, Step(db1, create).0, input.newId);
  }

  lemma ResolveGrows(db: Db, ctx: Ctx, input: Input, facebookId: string)
    ensures Grows(db, S.ResolveCustomer(db, ctx, input, facebookId).0, input.newId)
  {
    hide CustomerSpec.Upsert, CustomerSpec.FindByFacebookId;
    UpsertGrows(db, ctx, input, CustomerSpec.SyncCustomer(facebookId, facebookId, None, None), None);
  }

  predicate OnlyReads(r: Request) {
    r.CustomerFindAll? || r.CustomerFindOne? || r.OrderFindAll? || r.OrderFindOne? || r.NoteList? || r.TagList?
    || r.UserFind? || r.UserList? || r.FileFind? || r.DashboardRead?
  }

  lemma ReadsChangeNothing(db: Db, call: Call)
    requires OnlyReads(call.request)
    ensures Step(db, call).0 == db
  {
    hide CustomerSpec.Listing, OrderSpec.Listing, S.NoteListing, S.UserListing, CardOf, OrderCardOf;
  }

  lemma StepGrows(db: Db, call: Call)
    ensures Grows(db, Step(db, call).0, call.input.newId)
  {
    hide Step;
    var r := call.request;
    if OnlyReads(r) { ReadsChangeNothing(db, call); }
    else if r.CustomerCreate? || r.CustomerRemove? { CustomersComeAndGo(db, call); }
    else if r.CustomerUpdate? || r.CustomerAssign? { CustomersEdited(db, call); }
    else if r.CustomerChangeStatus? || r.OrderChangeStatus? { StatusesEdited(db, call); }
    else if r.OrderCreate? || r.OrderRemove? { OrdersComeAndGo(db, call); }
    else if r.OrderUpdate? { OrdersEdited(db, call); }
    else if r.NoteCreate? || r.NoteUpdate? || r.NoteRemove? { NotesWritten(db, call); }
    else if r.TagCreate? || r.TagUpdate? || r.TagRemove? { TagsWritten(db, call); }
    else if r.TagAttach? || r.TagDetach? { TagPivotWritten(db, call); }
    else if r.UserUpdate? { ProfilesEdited(db, call); }
    else if r.UserChangeRole? { RolesEdited(db, call); }
    else if r.FilePresign? || r.FileConfirm? || r.FileRemove? { FilesWritten(db, call); }
    else { MessengerGrows(db, call); }
  }

  lemma RunStaysAdmissible(db: Db, calls: seq<Call>)
    requires AdmissibleRun(db, calls) && calls != []
    ensures Admissible(db, calls[0])
    ensures AdmissibleRun(Step(db, calls[0]).0, calls[1..])
  {
    hide Step;
    StepGrows(db, calls[0]);
    var rest, db' := calls[1..], Step(db, calls[0]).0;
    forall i | 0 <= i < |rest| ensures Admissible(db', rest[i]) {
      assert rest[i] == calls[i + 1] && Admissible(db, calls[i + 1]);
    }
  }

  /** Every reachable store is consistent. */
  lemma {:induction false} RunKeepsConsistent(db: Db, calls: seq<Call>)
    requires Consistent(db) && AdmissibleRun(db, calls)
    ensures Consistent(Run(db, calls).0)
    decreases |calls|
  {
    hide Step, Consistent;
    if calls != [] {
      RunStaysAdmissible(db, calls);
      StepKeepsConsistent(db, calls[0]);
      RunKeepsConsistent(Step(db, calls[0]).0, calls[1..]);
    }
  }

  // --- the purge theorem ------------------------------------------------

  /** The calls made for `org`, in order. */
  function CallsOf(calls: seq<Call>, org: OrgId): seq<Call> {
    if calls == [] then []
    else (if calls[0].ctx.org == org then [calls[0]] else []) + CallsOf(calls[1..], org)
  }

  /** The replies to those calls, in order. */
  function RepliesTo(calls: seq<Call>, replies: seq<Result<Reply, Failure>>, org: OrgId): seq<Result<Reply, Failure>>
    requires |calls| == |replies|
  {
    if calls == [] then []
    else (if calls[0].ctx.org == org then [replies[0]] else []) + RepliesTo(calls[1..], replies[1..], org)
  }

  /** What the organization experiences is the run of its own calls on its own view. */
  lemma {:induction false} RunOnView(db: Db, calls: seq<Call>, org: OrgId)
    requires Consistent(db) && AdmissibleRun(db, calls)
    ensures Run(View(db, org), CallsOf(calls, org))
            == (View(Run(db, calls).0, org), RepliesTo(calls, Run(db, calls).1, org))
    decreases |calls|
  {
    hide Step, Consistent, View;
    if calls != [] {
      RunStaysAdmissible(db, calls);
      StepKeepsConsistent(db, calls[0]);
      StepConfined(db, calls[0]);
      var (db1, reply) := Step(db, calls[0]);
      RunOnView(db1, calls[1..], org);
      var (db2, replies) := Run(db1, calls[1..]);
      assert ([reply] + replies)[1..] == replies;
      if calls[0].ctx.org == org {
        assert CallsOf(calls, org)[0] == calls[0] && CallsOf(calls, org)[1..] == CallsOf(calls[1..], org);
      } else {
        assert CallsOf(calls, org) == CallsOf(calls[1..], org);
        assert RepliesTo(calls, [reply] + replies, org) == RepliesTo(calls[1..], replies, org);
      }
    }
  }

  lemma {:induction false} CallsAreCalls(calls: seq<Call>, org: OrgId, c: Call)
    requires c in CallsOf(calls, org)
    ensures c in calls && c.ctx.org == org
    decreases |calls|
  {
    if calls != [] && !(calls[0].ctx.org == org && c == calls[0]) {
      CallsAreCalls(calls[1..], org, c);
    }
  }

  lemma {:induction false} PurgedIsAdmissible(db: Db, calls: seq<Call>, org: OrgId)
    requires AdmissibleRun(db, calls)
    ensures AdmissibleRun(db, CallsOf(calls, org))
    decreases |calls|
  {
    if calls != [] {
      var rest, kept := CallsOf(calls[1..], org), CallsOf(calls, org);
      PurgedIsAdmissible(db, calls[1..], org);
      forall i | 0 <= i < |rest| ensures rest[i].input.newId != calls[0].input.newId {
        CallsAreCalls(calls[1..], org, rest[i]);
        var j :| 0 <= j < |calls[1..]| && calls[1..][j] == rest[i];
        assert calls[j + 1] == rest[i];
      }
      assert kept == rest || kept == [calls[0]] + rest;
      hide Admissible;
    }
  }

  lemma {:induction false} AllAreOurs(calls: seq<Call>, replies: seq<Result<Reply, Failure>>, org: OrgId)
    requires |calls| == |replies| && forall c :: c in calls ==> c.ctx.org == org
    ensures CallsOf(calls, org) == calls && RepliesTo(calls, replies, org) == replies
    decreases |calls|
  {
    if calls != [] { AllAreOurs(calls[1..], replies[1..], org); }
  }

  /**
   * Purge: remove every call of the other organizations from a run, and this organization gets
   * the same replies and ends with the same part of the store.
   */
  lemma PurgeTheorem(db: Db, calls: seq<Call>, org: OrgId)
    requires Consistent(db) && AdmissibleRun(db, calls)
    ensures Run(db, CallsOf(calls, org)).1 == RepliesTo(calls, Run(db, calls).1, org)
    ensures View(Run(db, CallsOf(calls, org)).0, org) == View(Run(db, calls).0, org)
  {
    hide Step, Consistent, View, AdmissibleRun, Run;
    var ours := CallsOf(calls, org);
    RunOnView(db, calls, org);
    PurgedIsAdmissible(db, calls, org);
    RunOnView(db, ours, org);
    forall c | c in ours ensures c.ctx.org == org { CallsAreCalls(calls, org, c); }
    AllAreOurs(ours, Run(db, ours).1, org);
  }
}
