// Every request keeps all links inside one organization and all unique indexes intact.
module Consistency {
  import opened Wrappers
  import opened Tables
  import opened Schema
  import opened Crm
  import opened Tenancy
  import opened CustomerSpec
  import OrderSpec
  import ObjectKeys
  import S = StoreSpec

  // --- one table at a time ----------------------------------------------

  /** Rows of t are still there, in the same organization. */
  ghost predicate KeepsOwners<T>(t: Table<T>, t': Table<T>) {
    forall id :: id in t ==> OwnedBy(t', t[id].org, id)
  }

  lemma CustomersReplaced(db: Db, customers: Table<Customer>)
    requires Consistent(db) && KeepsOwners(db.customers, customers)
    requires AgentsLinked(db.(customers := customers)) && FacebookIdsUnique(customers)
    ensures Consistent(db.(customers := customers))
  {
    var db' := db.(customers := customers);
    forall l | l in db'.links
      ensures l.customerId in customers && OwnedBy(db'.tags, customers[l.customerId].org, l.tagId)
    {
      assert OwnedBy(customers, db.customers[l.customerId].org, l.customerId);
    }
  }

  lemma OrdersReplaced(db: Db, orders: Table<Order>)
    requires Consistent(db) && OrdersLinked(db.(orders := orders)) && OrderNumbersUnique(orders)
    ensures Consistent(db.(orders := orders))
  {
  }

  lemma NotesReplaced(db: Db, notes: Table<Note>)
    requires Consistent(db) && NotesLinked(db.(notes := notes))
    ensures Consistent(db.(notes := notes))
  {
  }

  lemma TagsReplaced(db: Db, tags: Table<Tag>, links: set<Link>)
    requires Consistent(db) && TagNamesUnique(tags) && TagsLinked(db.(tags := tags, links := links))
    ensures Consistent(db.(tags := tags, links := links))
  {
  }

  lemma FilesReplaced(db: Db, files: Table<File>)
    requires Consistent(db) && FileKeysUnique(files) && FileKeysNamespaced(files)
    ensures Consistent(db.(files := files))
  {
  }

  lemma UsersReplaced(db: Db, users: Table<User>)
    requires Consistent(db) && KeepsOwners(db.users, users)
    ensures Consistent(db.(users := users))
  {
  }

  // --- customers --------------------------------------------------------

  /** A customer row whose agent is in its organization and whose facebookId is free. */
  lemma CustomerPut(db: Db, org: OrgId, id: Id, row: Customer)
    requires Consistent(db) && (id in db.customers ==> db.customers[id].org == org)
    requires row.assignedTo.Some? ==> OwnedBy(db.users, org, row.assignedTo.value)
    requires !FacebookIdTaken(db.customers, org, row.facebookId, Some(id))
    ensures Consistent(db.(customers := db.customers[id := Owned(org, row)]))
  {
    var customers := db.customers[id := Owned(org, row)];
    forall c | c in db.customers && c != id && db.customers[c].org == org && row.facebookId.Some?
      ensures db.customers[c].row.facebookId != row.facebookId
    {
      assert !HasFacebookId(db.customers, org, row.facebookId.value, c);
    }
    CustomersReplaced(db, customers);
  }

  /** Leaving agent and facebookId as they were is always fine. */
  lemma CustomerTouched(db: Db, id: Id, row: Customer)
    requires Consistent(db) && id in db.customers
    requires row.assignedTo == db.customers[id].row.assignedTo && row.facebookId == db.customers[id].row.facebookId
    ensures Consistent(db.(customers := db.customers[id := Owned(db.customers[id].org, row)]))
  {
    KeepsIndex(db, id);
    CustomerPut(db, db.customers[id].org, id, row);
  }

  lemma KeepsIndex(db: Db, id: Id)
    requires FacebookIdsUnique(db.customers) && id in db.customers
    ensures !FacebookIdTaken(db.customers, db.customers[id].org, db.customers[id].row.facebookId, Some(id))
  {
  }

  lemma CustomerCreateKeeps(db: Db, ctx: Ctx, input: Input, dto: CreateCustomer)
    requires Consistent(db) && input.newId !in db.customers
    ensures Consistent(CustomerSpec.Create(db, ctx, input, dto).0)
  {
    if CustomerSpec.Create(db, ctx, input, dto).1.Ok? {
      NotTakenByOthers(db.customers, ctx.org, dto.facebookId, Some(input.newId));
      CustomerPut(db, ctx.org, input.newId, NewCustomer(dto, input.now));
    }
  }

  lemma NotTakenByOthers(t: Table<Customer>, org: OrgId, facebookId: Option<string>, except: Option<Id>)
    requires !FacebookIdTaken(t, org, facebookId, None)
    ensures !FacebookIdTaken(t, org, facebookId, except)
  {
  }

  lemma CustomerUpdateKeeps(db: Db, ctx: Ctx, id: Id, dto: UpdateCustomer)
    requires Consistent(db)
    ensures Consistent(CustomerSpec.Update(db, ctx, id, dto).0)
  {
    if CustomerSpec.Update(db, ctx, id, dto).1.Ok? {
      CustomerPut(db, ctx.org, id, Merge(db.customers[id].row, dto));
    }
  }

  lemma CustomerChangeStatusKeeps(db: Db, ctx: Ctx, id: Id, status: CustomerStatus)
    requires Consistent(db)
    ensures Consistent(CustomerSpec.ChangeStatus(db, ctx, id, status).0)
  {
    if FindFirst(db.customers, ctx.org, id).Some? {
      CustomerTouched(db, id, db.customers[id].row.(status := status));
    }
  }

  lemma CustomerAssignKeeps(db: Db, ctx: Ctx, id: Id, agent: Option<Id>)
    requires Consistent(db)
    ensures Consistent(CustomerSpec.Assign(db, ctx, id, agent).0)
  {
    if CustomerSpec.Assign(db, ctx, id, agent).1.Ok? {
      KeepsIndex(db, id);
      CustomerPut(db, ctx.org, id, db.customers[id].row.(assignedTo := agent));
    }
  }

  lemma CustomerRemoveKeeps(db: Db, ctx: Ctx, id: Id)
    requires Consistent(db)
    ensures Consistent(CustomerSpec.Remove(db, ctx, id).0)
  {
    if FindFirst(db.customers, ctx.org, id).Some? {
      var db' := DeleteCustomer(db, ctx.org, id);
      forall o | o in db'.orders ensures OwnedBy(db'.customers, db'.orders[o].org, db'.orders[o].row.customerId) {
        assert OwnedBy(db.customers, db.orders[o].org, db.orders[o].row.customerId);
        assert o !in OrdersOf(db.orders, id);
      }
      assert NotesLinked(db') by {
        forall n | n in db'.notes ensures OwnedBy(db'.customers, db'.notes[n].org, db'.notes[n].row.customerId) {
          assert OwnedBy(db.customers, db.notes[n].org, db.notes[n].row.customerId);
          assert n !in NotesOf(db.notes, id);
        }
      }
    }
  }

  lemma UpsertKeeps(db: Db, ctx: Ctx, input: Input, dto: SyncCustomer, lastContactedAt: Option<Millis>)
    requires Consistent(db) && input.newId !in db.customers
    ensures var (db', id) := Upsert(db, ctx, input, dto, lastContactedAt);
            Consistent(db') && OwnedBy(db'.customers, ctx.org, id)
  {
    match FindByFacebookId(db.customers, ctx.org, dto.facebookId)
    case Some(id) => CustomerTouched(db, id, Refreshed(db.customers[id].row, dto, input.now));
    case None =>
      CustomerPut(db, ctx.org, input.newId, FromMessenger(dto, lastContactedAt, input.now));
  }

  // --- orders -----------------------------------------------------------

  lemma FreeNumberStaysUnique(orders: Table<Order>, org: OrgId, id: Id, row: Order)
    requires OrderNumbersUnique(orders) && id !in orders && !OrderSpec.NumberTaken(orders, org, row.orderNumber)
    ensures OrderNumbersUnique(Insert(orders, org, id, row))
  {
  }

  lemma OrderCreateKeeps(db: Db, ctx: Ctx, input: Input, dto: OrderSpec.CreateOrder)
    requires Consistent(db) && input.newId !in db.orders
    ensures Consistent(OrderSpec.Create(db, ctx, input, dto).0)
  {
    if OrderSpec.Create(db, ctx, input, dto).1.Ok? {
      var row := OrderSpec.NewOrder(dto, OrderSpec.NextOrderNumber(db.orders, ctx.org), input.now);
      FreeNumberStaysUnique(db.orders, ctx.org, input.newId, row);
      assert OrdersLinked(db.(orders := Insert(db.orders, ctx.org, input.newId, row)));
      hide OrderSpec.NextOrderNumber, OrdersLinked, OrderNumbersUnique;
      OrdersReplaced(db, Insert(db.orders, ctx.org, input.newId, row));
    }
  }

  lemma OrderPut(db: Db, org: OrgId, id: Id, row: Order)
    requires Consistent(db) && OwnedBy(db.orders, org, id)
    requires row.orderNumber == db.orders[id].row.orderNumber && OwnedBy(db.customers, org, row.customerId)
    ensures Consistent(db.(orders := UpdateMany(db.orders, org, id, row)))
  {
    OrdersReplaced(db, UpdateMany(db.orders, org, id, row));
  }

  lemma OrderUpdateKeeps(db: Db, ctx: Ctx, id: Id, dto: OrderSpec.UpdateOrder)
    requires Consistent(db)
    ensures Consistent(OrderSpec.Update(db, ctx, id, dto).0)
  {
    if OrderSpec.Update(db, ctx, id, dto).1.Ok? {
      OrderPut(db, ctx.org, id, OrderSpec.Merge(db.orders[id].row, dto));
    }
  }

  lemma OrderChangeStatusKeeps(db: Db, ctx: Ctx, id: Id, status: OrderStatus)
    requires Consistent(db)
    ensures Consistent(OrderSpec.ChangeStatus(db, ctx, id, status).0)
  {
    if FindFirst(db.orders, ctx.org, id).Some? {
      OrderPut(db, ctx.org, id, db.orders[id].row.(status := status));
    }
  }

  lemma OrderRemoveKeeps(db: Db, ctx: Ctx, id: Id)
    requires Consistent(db)
    ensures Consistent(OrderSpec.Remove(db, ctx, id).0)
  {
    OrdersReplaced(db, DeleteMany(db.orders, ctx.org, id));
  }

  // --- notes, tags, users, files ----------------------------------------

  lemma NoteCreateKeeps(db: Db, ctx: Ctx, input: Input, customerId: Id, content: string)
    requires Consistent(db) && OwnedBy(db.users, ctx.org, ctx.userId)
    ensures Consistent(S.CreateNote(db, ctx, input, customerId, content).0)
  {
    NotesReplaced(db, S.CreateNote(db, ctx, input, customerId, content).0.notes);
  }

  lemma NoteChangesKeep(db: Db, ctx: Ctx, id: Id, content: string)
    requires Consistent(db)
    ensures Consistent(S.UpdateNote(db, ctx, id, content).0)
    ensures Consistent(S.RemoveNote(db, ctx, id).0)
  {
    NotesReplaced(db, S.UpdateNote(db, ctx, id, content).0.notes);
    NotesReplaced(db, S.RemoveNote(db, ctx, id).0.notes);
  }

  lemma TagNamePut(tags: Table<Tag>, org: OrgId, id: Id, row: Tag)
    requires TagNamesUnique(tags) && (id in tags ==> tags[id].org == org)
    requires !S.TagNameTaken(tags, org, row.name, Some(id))
    ensures TagNamesUnique(tags[id := Owned(org, row)])
  {
  }

  lemma TagPut(db: Db, org: OrgId, id: Id, row: Tag)
    requires Consistent(db) && (id in db.tags ==> db.tags[id].org == org)
    requires !S.TagNameTaken(db.tags, org, row.name, Some(id))
    ensures Consistent(db.(tags := db.tags[id := Owned(org, row)]))
  {
    hide TagNamesUnique;
    TagNamePut(db.tags, org, id, row);
    TagsReplaced(db, db.tags[id := Owned(org, row)], db.links);
  }

  lemma TagCreateKeeps(db: Db, ctx: Ctx, input: Input, name: string, color: Option<string>)
    requires Consistent(db) && input.newId !in db.tags
    ensures Consistent(S.CreateTag(db, ctx, input, name, color).0)
  {
    if !S.TagNameTaken(db.tags, ctx.org, name, None) {
      assert !S.TagNameTaken(db.tags, ctx.org, name, Some(input.newId));
      hide Consistent;
      TagPut(db, ctx.org, input.newId, Tag(name, color.GetOr("#6366f1")));
    }
  }

  lemma TagUpdateKeeps(db: Db, ctx: Ctx, id: Id, name: Option<string>, color: Option<string>)
    requires Consistent(db)
    ensures Consistent(S.UpdateTag(db, ctx, id, name, color).0)
  {
    hide Consistent;
    var found := FindFirst(db.tags, ctx.org, id);
    if found.Some? {
      var row := Tag(Keep(name, found.value.name), Keep(color, found.value.color));
      if !S.TagNameTaken(db.tags, ctx.org, row.name, Some(id)) { TagPut(db, ctx.org, id, row); }
    }
  }

  /** What is left of both tables after a tag and its customer_tags rows are gone. */
  lemma TagRemoved(db: Db, org: OrgId, id: Id)
    requires TagNamesUnique(db.tags) && TagsLinked(db) && OwnedBy(db.tags, org, id)
    ensures TagNamesUnique(db.tags - {id})
    ensures TagsLinked(db.(tags := db.tags - {id}, links := set l | l in db.links && l.tagId != id))
  {
  }

  lemma TagRemoveKeeps(db: Db, ctx: Ctx, id: Id)
    requires Consistent(db)
    ensures Consistent(S.RemoveTag(db, ctx, id).0)
  {
    if OwnedBy(db.tags, ctx.org, id) {
      TagRemoved(db, ctx.org, id);
      hide TagNamesUnique, TagsLinked;
      TagsReplaced(db, db.tags - {id}, set l | l in db.links && l.tagId != id);
    }
  }

  lemma TagLinksKeep(db: Db, ctx: Ctx, tagId: Id, customerId: Id)
    requires Consistent(db)
    ensures Consistent(S.AttachTag(db, ctx, tagId, customerId).0)
    ensures Consistent(S.DetachTag(db, ctx, tagId, customerId).0)
  {
    TagsReplaced(db, db.tags, S.AttachTag(db, ctx, tagId, customerId).0.links);
    TagsReplaced(db, db.tags, S.DetachTag(db, ctx, tagId, customerId).0.links);
  }

  lemma UserPut(db: Db, id: Id, row: User)
    requires Consistent(db) && id in db.users
    ensures Consistent(db.(users := UpdateById(db.users, id, row)))
  {
    hide Consistent;
    UsersReplaced(db, UpdateById(db.users, id, row));
  }

  lemma UserUpdateKeeps(db: Db, ctx: Ctx, id: Id, first: Option<Option<string>>, last: Option<Option<string>>,
                        avatar: Option<Option<string>>)
    requires Consistent(db)
    ensures Consistent(S.UpdateUser(db, ctx, id, first, last, avatar).0)
  {
    hide Consistent;
    if OwnedBy(db.users, ctx.org, id) {
      UserPut(db, id, S.UpdateUser(db, ctx, id, first, last, avatar).0.users[id].row);
    }
  }

  lemma ChangeRoleKeeps(db: Db, ctx: Ctx, id: Id, role: Role)
    requires Consistent(db)
    ensures Consistent(S.ChangeUserRole(db, ctx, id, role).0)
  {
    hide Consistent;
    if OwnedBy(db.users, ctx.org, id) { UserPut(db, id, db.users[id].row.(role := role)); }
  }

  lemma FilePut(files: Table<File>, org: OrgId, id: Id, row: File, name: string, now: nat)
    requires FileKeysUnique(files) && FileKeysNamespaced(files) && '/' !in org.uuid
    requires id in files ==> files[id].org == org && files[id].row.key == row.key
    requires id !in files ==> !S.KeyTaken(files, row.key) && row.key == ObjectKeys.BuildKey(org, name, now)
    ensures FileKeysUnique(files[id := Owned(org, row)])
    ensures FileKeysNamespaced(files[id := Owned(org, row)])
  {
    hide ObjectKeys.BuildKey;
    var files' := files[id := Owned(org, row)];
    forall f | f in files'
      ensures '/' !in files'[f].org.uuid
              && exists name, now: nat :: files'[f].row.key == ObjectKeys.BuildKey(files'[f].org, name, now)
    {
      if f in files {
        var name', now': nat :| files[f].row.key == ObjectKeys.BuildKey(files[f].org, name', now');
        assert files'[f].row.key == ObjectKeys.BuildKey(files'[f].org, name', now');
      } else {
        assert row.key == ObjectKeys.BuildKey(org, name, now);
      }
    }
  }

  lemma FilePresignKeeps(db: Db, ctx: Ctx, input: Input, filename: string, mimeType: string, size: nat)
    requires Consistent(db) && '/' !in ctx.org.uuid && input.newId !in db.files
    ensures Consistent(S.PresignUpload(db, ctx, input, filename, mimeType, size).0)
  {
    var key := ObjectKeys.BuildKey(ctx.org, filename, input.now);
    if !S.KeyTaken(db.files, key) {
      var row := File(Some(ctx.userId), key, filename, mimeType, size, FileStatus.PENDING);
      FilePut(db.files, ctx.org, input.newId, row, filename, input.now);
      FilesReplaced(db, Insert(db.files, ctx.org, input.newId, row));
    }
  }

  lemma FileConfirmKeeps(db: Db, ctx: Ctx, key: string)
    requires Consistent(db)
    ensures Consistent(S.ConfirmUpload(db, ctx, key).0)
  {
    match S.FindByKey(db.files, ctx.org, key)
    case None =>
    case Some(id) =>
      var row := db.files[id].row.(status := UPLOADED);
      FilePut(db.files, ctx.org, id, row, "", 0);
      FilesReplaced(db, UpdateById(db.files, id, row));
  }

  lemma FileRemoveKeeps(db: Db, ctx: Ctx, id: Id)
    requires Consistent(db)
    ensures Consistent(S.RemoveFile(db, ctx, id).0)
  {
    hide ObjectKeys.BuildKey;
    FilesReplaced(db, DeleteMany(db.files, ctx.org, id));
  }

  // --- the extension ----------------------------------------------------

  lemma ResolveKeeps(db: Db, ctx: Ctx, input: Input, facebookId: string)
    requires Consistent(db) && input.newId !in db.customers
    ensures var (db', id) := S.ResolveCustomer(db, ctx, input, facebookId);
            Consistent(db') && OwnedBy(db'.customers, ctx.org, id) && db' == db.(customers := db'.customers)
  {
    UpsertKeeps(db, ctx, input, SyncCustomer(facebookId, facebookId, None, None), None);
  }

  lemma ExtensionNoteKeeps(db: Db, ctx: Ctx, input: Input, facebookId: string, content: string)
    requires Consistent(db) && input.newId !in db.customers && OwnedBy(db.users, ctx.org, ctx.userId)
    ensures Consistent(S.AddNote(db, ctx, input, facebookId, content).0)
  {
    hide Consistent, S.CreateNote, S.ResolveCustomer;
    ResolveKeeps(db, ctx, input, facebookId);
    var (db1, id) := S.ResolveCustomer(db, ctx, input, facebookId);
    NoteCreateKeeps(db1, ctx, input, id, content);
  }

  lemma ExtensionOrderKeeps(db: Db, ctx: Ctx, input: Input, facebookId: string, productName: string,
                            quantity: Option<int>, amount: real)
    requires Consistent(db) && input.newId !in db.customers && input.newId !in db.orders
    ensures Consistent(S.CreateExtensionOrder(db, ctx, input, facebookId, productName, quantity, amount).0)
  {
    hide Consistent, OrderSpec.Create, S.ResolveCustomer;
    ResolveKeeps(db, ctx, input, facebookId);
    var (db1, id) := S.ResolveCustomer(db, ctx, input, facebookId);
    OrderCreateKeeps(db1, ctx, input,
                     OrderSpec.CreateOrder(id, productName, quantity.GetOr(1), amount, None, None, None, None, None));
  }

  // --- every request ----------------------------------------------------

  lemma CustomerStepKeeps(db: Db, call: Call)
    requires Consistent(db) && Admissible(db, call)
    requires AboutCustomers(call.request)
    ensures Consistent(Step(db, call).0)
  {
    hide Consistent, CustomerSpec.Create, CustomerSpec.Update, CustomerSpec.Remove, CustomerSpec.ChangeStatus,
      CustomerSpec.Assign;
    var ctx, input := call.ctx, call.input;
    match call.request
    case CustomerCreate(dto) => CustomerCreateKeeps(db, ctx, input, dto);
    case CustomerUpdate(id, dto) => CustomerUpdateKeeps(db, ctx, id, dto);
    case CustomerRemove(id) => CustomerRemoveKeeps(db, ctx, id);
    case CustomerChangeStatus(id, status) => CustomerChangeStatusKeeps(db, ctx, id, status);
    case CustomerAssign(id, agent) => CustomerAssignKeeps(db, ctx, id, agent);
    case _ =>
  }

  lemma OrderOrNoteStepKeeps(db: Db, call: Call)
    requires Consistent(db) && Admissible(db, call)
    requires AboutOrdersOrNotes(call.request)
    ensures Consistent(Step(db, call).0)
  {
    hide Consistent, OrderSpec.Create, OrderSpec.Update, OrderSpec.ChangeStatus, OrderSpec.Remove, S.CreateNote,
      S.UpdateNote, S.RemoveNote;
    var ctx, input := call.ctx, call.input;
    match call.request
    case OrderCreate(dto) => OrderCreateKeeps(db, ctx, input, dto);
    case OrderUpdate(id, dto) => OrderUpdateKeeps(db, ctx, id, dto);
    case OrderChangeStatus(id, status) => OrderChangeStatusKeeps(db, ctx, id, status);
    case OrderRemove(id) => OrderRemoveKeeps(db, ctx, id);
    case NoteCreate(customerId, content) => NoteCreateKeeps(db, ctx, input, customerId, content);
    case NoteUpdate(id, content) => NoteChangesKeep(db, ctx, id, content);
    case NoteRemove(id) => NoteChangesKeep(db, ctx, id, "");
    case _ =>
  }

  lemma TagOrUserStepKeeps(db: Db, call: Call)
    requires Consistent(db) && Admissible(db, call)
    requires AboutTagsOrUsers(call.request)
    ensures Consistent(Step(db, call).0)
  {
    hide Consistent, S.CreateTag, S.UpdateTag, S.RemoveTag, S.AttachTag, S.DetachTag, S.UpdateUser, S.ChangeUserRole;
    var ctx, input := call.ctx, call.input;
    match call.request
    case TagCreate(name, color) => TagCreateKeeps(db, ctx, input, name, color);
    case TagUpdate(id, name, color) => TagUpdateKeeps(db, ctx, id, name, color);
    case TagRemove(id) => TagRemoveKeeps(db, ctx, id);
    case TagAttach(tagId, customerId) => TagLinksKeep(db, ctx, tagId, customerId);
    case TagDetach(tagId, customerId) => TagLinksKeep(db, ctx, tagId, customerId);
    case UserUpdate(id, first, last, avatar) => UserUpdateKeeps(db, ctx, id, first, last, avatar);
    case UserChangeRole(id, role) => ChangeRoleKeeps(db, ctx, id, role);
    case _ =>
  }

  lemma FileOrMessengerStepKeeps(db: Db, call: Call)
    requires Consistent(db) && Admissible(db, call)
    requires AboutFilesOrMessenger(call.request)
    ensures Consistent(Step(db, call).0)
  {
    hide Consistent, S.PresignUpload, S.ConfirmUpload, S.RemoveFile, S.AddNote, S.CreateExtensionOrder, Upsert;
    var ctx, input := call.ctx, call.input;
    match call.request
    case FilePresign(filename, mimeType, size) => FilePresignKeeps(db, ctx, input, filename, mimeType, size);
    case FileConfirm(key) => FileConfirmKeeps(db, ctx, key);
    case FileRemove(id) => FileRemoveKeeps(db, ctx, id);
    case ExtensionSync(dto) => UpsertKeeps(db, ctx, input, dto, Some(input.now));
    case ExtensionNote(facebookId, content) => ExtensionNoteKeeps(db, ctx, input, facebookId, content);
    case ExtensionOrder(facebookId, productName, quantity, amount) =>
      ExtensionOrderKeeps(db, ctx, input, facebookId, productName, quantity, amount);
    case _ =>
  }

  /** The same-tenant links and the unique indexes survive every request. */
  lemma StepKeepsConsistent(db: Db, call: Call)
    requires Consistent(db) && Admissible(db, call)
    ensures Consistent(Step(db, call).0)
  {
    hide Consistent, Step;
    if AboutCustomers(call.request) {
      CustomerStepKeeps(db, call);
    } else if AboutOrdersOrNotes(call.request) {
      OrderOrNoteStepKeeps(db, call);
    } else if AboutTagsOrUsers(call.request) {
      TagOrUserStepKeeps(db, call);
    } else {
      FileOrMessengerStepKeeps(db, call);
    }
  }
}
