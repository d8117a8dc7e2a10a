// Tenant isolation: a request sees and changes its own organization's part of the store only.
module Isolation {
  import opened Wrappers
  import opened Tables
  import opened Schema
  import opened Crm
  import opened Tenancy
  import CustomerSpec
  import OrderSpec
  import ObjectKeys
  import Analytics
  import C = Consistency
  import S = StoreSpec

  /** `out` on the whole store is `alone` on the organization's view, and no other view has changed. */
  ghost predicate Confined(db: Db, org: OrgId, out: Outcome, alone: Outcome) {
    && alone == (View(out.0, org), out.1)
    && forall a :: a != org ==> View(out.0, a) == View(db, a)
  }

  // --- joins stay inside ------------------------------------------------

  lemma CardIsLocal(db: Db, org: OrgId, id: Id)
    requires Consistent(db) && OwnedBy(db.customers, org, id)
    ensures CardOf(View(db, org), id) == CardOf(db, id)
  {
    var v := View(db, org);
    OrdersOfAreLocal(db, org, id);
    NotesOfAreLocal(db, org, id);
    assert TagsOf(v, id) == TagsOf(db, id);
    hide OrdersOf, NotesOf, TagsOf, OrdersLinked, NotesLinked, TagsLinked;
  }

  lemma OrdersOfAreLocal(db: Db, org: OrgId, id: Id)
    requires OrdersLinked(db) && OwnedBy(db.customers, org, id)
    ensures OrdersOf(View(db, org).orders, id) == OrdersOf(db.orders, id)
  {
    hide LinksOf;
  }

  lemma NotesOfAreLocal(db: Db, org: OrgId, id: Id)
    requires NotesLinked(db) && OwnedBy(db.customers, org, id)
    ensures NotesOf(View(db, org).notes, id) == NotesOf(db.notes, id)
  {
    hide LinksOf;
  }

  lemma OrderCardIsLocal(db: Db, org: OrgId, id: Id)
    requires Consistent(db) && OwnedBy(db.orders, org, id)
    ensures OrderCardOf(View(db, org), id) == OrderCardOf(db, id)
  {
  }

  lemma NoteCardIsLocal(db: Db, org: OrgId, id: Id)
    requires Consistent(db) && OwnedBy(db.notes, org, id)
    ensures NoteCardOf(View(db, org), id) == NoteCardOf(db, id)
  {
  }

  // --- customers --------------------------------------------------------

  /** New customers table, every link still hanging off the same organization. */
  lemma CustomersChanged(db: Db, customers: Table<Customer>)
    requires TagsLinked(db)
    requires forall id :: id in db.customers ==> OwnedBy(customers, db.customers[id].org, id)
    ensures forall a :: View(db.(customers := customers), a) == View(db, a).(customers := Scope(customers, a))
  {
    forall a ensures LinksOf(db.(customers := customers), a) == LinksOf(db, a) {
    }
  }

  lemma FacebookIdTakenIsLocal(db: Db, org: OrgId, facebookId: Option<string>, except: Option<Id>)
    ensures CustomerSpec.FacebookIdTaken(Scope(db.customers, org), org, facebookId, except)
            <==> CustomerSpec.FacebookIdTaken(db.customers, org, facebookId, except)
  {
    if CustomerSpec.FacebookIdTaken(db.customers, org, facebookId, except) {
      var id :| && id in db.customers && CustomerSpec.HasFacebookId(db.customers, org, facebookId.value, id)
                && Some(id) != except;
      assert CustomerSpec.HasFacebookId(Scope(db.customers, org), org, facebookId.value, id);
    }
    if CustomerSpec.FacebookIdTaken(Scope(db.customers, org), org, facebookId, except) {
      var id :| && id in Scope(db.customers, org)
                && CustomerSpec.HasFacebookId(Scope(db.customers, org), org, facebookId.value, id)
                && Some(id) != except;
      assert CustomerSpec.HasFacebookId(db.customers, org, facebookId.value, id);
    }
  }

  lemma CustomerCreateConfined(db: Db, ctx: Ctx, input: Input, dto: CustomerSpec.CreateCustomer)
    requires Consistent(db) && input.newId !in db.customers
    ensures Confined(db, ctx.org, CustomerSpec.Create(db, ctx, input, dto),
                     CustomerSpec.Create(View(db, ctx.org), ctx, input, dto))
  {
    FacebookIdTakenIsLocal(db, ctx.org, dto.facebookId, None);
    var row := CustomerSpec.NewCustomer(dto, input.now);
    ScopeOfInsert(db.customers, ctx.org, input.newId, row);
    CustomersChanged(db, Insert(db.customers, ctx.org, input.newId, row));
  }

  /** Reading one customer, in a consistent store. */
  lemma CustomerFindOneConfined(db: Db, ctx: Ctx, id: Id)
    requires Consistent(db)
    ensures Confined(db, ctx.org, CustomerSpec.FindOne(db, ctx, id), CustomerSpec.FindOne(View(db, ctx.org), ctx, id))
  {
    hide Consistent, CardOf;
    if OwnedBy(db.customers, ctx.org, id) { CardIsLocal(db, ctx.org, id); }
  }

  lemma CustomerFindAllConfined(db: Db, ctx: Ctx, filter: CustomerSpec.CustomerFilter)
    requires Consistent(db)
    ensures Confined(db, ctx.org, CustomerSpec.FindAll(db, ctx, filter),
                     CustomerSpec.FindAll(View(db, ctx.org), ctx, filter))
  {
    CustomerListingIsLocal(db, ctx.org, filter);
    ViewIsIdempotent(db, ctx.org);
    hide Consistent, CustomerSpec.Listing, View;
  }

  lemma CustomerListingIsLocal(db: Db, org: OrgId, filter: CustomerSpec.CustomerFilter)
    requires Consistent(db)
    ensures CustomerSpec.Listing(View(db, org), org, filter) == CustomerSpec.Listing(db, org, filter)
  {
    var v := View(db, org);
    hide Consistent, CardOf;
    forall id | OwnedBy(db.customers, org, id)
      ensures CardOf(v, id) == CardOf(db, id)
      ensures CustomerSpec.Matches(v, id, filter) <==> CustomerSpec.Matches(db, id, filter)
    {
      CardIsLocal(db, org, id);
    }
    hide CustomerSpec.Matches;
  }

  lemma ViewIsIdempotent(db: Db, org: OrgId)
    ensures View(View(db, org), org) == View(db, org)
  {
  }

  /** A scoped update of one customer row is the same update of the view. */
  lemma CustomerWriteIsLocal(db: Db, org: OrgId, id: Id, row: Customer)
    requires TagsLinked(db)
    ensures var db' := db.(customers := UpdateMany(db.customers, org, id, row));
            && View(db', org) == View(db, org).(customers := UpdateMany(View(db, org).customers, org, id, row))
            && forall a :: a != org ==> View(db', a) == View(db, a)
  {
    ScopeOfUpdate(db.customers, org, id, row);
    CustomersChanged(db, UpdateMany(db.customers, org, id, row));
  }

  lemma CustomerUpdateConfined(db: Db, ctx: Ctx, id: Id, dto: CustomerSpec.UpdateCustomer)
    requires Consistent(db)
    ensures Confined(db, ctx.org, CustomerSpec.Update(db, ctx, id, dto),
                     CustomerSpec.Update(View(db, ctx.org), ctx, id, dto))
  {
    if OwnedBy(db.customers, ctx.org, id) {
      var row := CustomerSpec.Merge(db.customers[id].row, dto);
      CustomerWriteIsLocal(db, ctx.org, id, row);
      FacebookIdTakenIsLocal(db, ctx.org, row.facebookId, Some(id));
    }
    ViewIsIdempotent(db, ctx.org);
    hide Consistent, CustomerSpec.FacebookIdTaken, CustomerSpec.Merge;
  }

  lemma CustomerAssignConfined(db: Db, ctx: Ctx, id: Id, agent: Option<Id>)
    requires Consistent(db)
    ensures Confined(db, ctx.org, CustomerSpec.Assign(db, ctx, id, agent),
                     CustomerSpec.Assign(View(db, ctx.org), ctx, id, agent))
  {
    if OwnedBy(db.customers, ctx.org, id) {
      CustomerWriteIsLocal(db, ctx.org, id, db.customers[id].row.(assignedTo := agent));
    }
    ViewIsIdempotent(db, ctx.org);
    hide Consistent;
  }

  lemma CustomerChangeStatusConfined(db: Db, ctx: Ctx, id: Id, status: CustomerStatus)
    requires Consistent(db)
    ensures Confined(db, ctx.org, CustomerSpec.ChangeStatus(db, ctx, id, status),
                     CustomerSpec.ChangeStatus(View(db, ctx.org), ctx, id, status))
  {
    hide CardOf;
    C.CustomerChangeStatusKeeps(db, ctx, id, status);
    ViewIsIdempotent(db, ctx.org);
    if OwnedBy(db.customers, ctx.org, id) {
      var row := db.customers[id].row.(status := status);
      CustomerWriteIsLocal(db, ctx.org, id, row);
      CardIsLocal(db.(customers := UpdateMany(db.customers, ctx.org, id, row)), ctx.org, id);
    }
  }

  lemma CascadedOrders(db: Db, org: OrgId, id: Id)
    requires OrdersLinked(db) && OwnedBy(db.customers, org, id)
    ensures Scope(db.orders - OrdersOf(db.orders, id), org)
            == Scope(db.orders, org) - OrdersOf(Scope(db.orders, org), id)
    ensures forall a :: a != org ==> Scope(db.orders - OrdersOf(db.orders, id), a) == Scope(db.orders, a)
  {
    ScopeOfRemoval(db.orders, org, OrdersOf(db.orders, id));
    assert OrdersOf(Scope(db.orders, org), id) == OrdersOf(db.orders, id);
  }

  lemma CascadedNotes(db: Db, org: OrgId, id: Id)
    requires NotesLinked(db) && OwnedBy(db.customers, org, id)
    ensures Scope(db.notes - NotesOf(db.notes, id), org) == Scope(db.notes, org) - NotesOf(Scope(db.notes, org), id)
    ensures forall a :: a != org ==> Scope(db.notes - NotesOf(db.notes, id), a) == Scope(db.notes, a)
  {
    ScopeOfRemoval(db.notes, org, NotesOf(db.notes, id));
    assert NotesOf(Scope(db.notes, org), id) == NotesOf(db.notes, id);
  }

  lemma CascadedLinks(db: Db, org: OrgId, id: Id, a: OrgId)
    requires OwnedBy(db.customers, org, id)
    ensures var db' := CustomerSpec.DeleteCustomer(db, org, id);
            LinksOf(db', a) == if a == org then set l | l in LinksOf(db, a) && l.customerId != id else LinksOf(db, a)
  {
  }

  /** The cascades of a customer delete reach only rows of the customer's organization. */
  lemma CascadeIsLocal(db: Db, org: OrgId, id: Id)
    requires Consistent(db) && OwnedBy(db.customers, org, id)
    ensures var db', v := CustomerSpec.DeleteCustomer(db, org, id), View(db, org);
            && View(db', org) == CustomerSpec.DeleteCustomer(v, org, id)
            && forall a :: a != org ==> View(db', a) == View(db, a)
  {
    ScopeOfDelete(db.customers, org, id);
    CascadedOrders(db, org, id);
    CascadedNotes(db, org, id);
    forall a { CascadedLinks(db, org, id, a); }
    hide Consistent, LinksOf, OrdersOf, NotesOf;
  }

  lemma CustomerRemoveConfined(db: Db, ctx: Ctx, id: Id)
    requires Consistent(db)
    ensures Confined(db, ctx.org, CustomerSpec.Remove(db, ctx, id), CustomerSpec.Remove(View(db, ctx.org), ctx, id))
  {
    if OwnedBy(db.customers, ctx.org, id) { CascadeIsLocal(db, ctx.org, id); }
    ViewIsIdempotent(db, ctx.org);
    hide Consistent, CustomerSpec.DeleteCustomer;
  }

  // --- orders -----------------------------------------------------------

  lemma OrdersChanged(db: Db, orders: Table<Order>)
    ensures forall a :: View(db.(orders := orders), a) == View(db, a).(orders := Scope(orders, a))
  {
    forall a ensures LinksOf(db.(orders := orders), a) == LinksOf(db, a) {}
  }

  lemma NumberTakenIsLocal(orders: Table<Order>, org: OrgId, number: string)
    ensures OrderSpec.NumberTaken(Scope(orders, org), org, number) <==> OrderSpec.NumberTaken(orders, org, number)
  {
    if OrderSpec.NumberTaken(orders, org, number) {
      var id :| id in orders && orders[id].org == org && orders[id].row.orderNumber == number;
      assert id in Scope(orders, org);
    }
  }

  lemma NextNumberIsLocal(orders: Table<Order>, org: OrgId)
    ensures OrderSpec.NextOrderNumber(Scope(orders, org), org) == OrderSpec.NextOrderNumber(orders, org)
  {
    assert Scope(Scope(orders, org), org) == Scope(orders, org);
  }

  lemma OrderCreateConfined(db: Db, ctx: Ctx, input: Input, dto: OrderSpec.CreateOrder)
    requires Consistent(db) && input.newId !in db.orders
    ensures Confined(db, ctx.org, OrderSpec.Create(db, ctx, input, dto),
                     OrderSpec.Create(View(db, ctx.org), ctx, input, dto))
  {
    var number := OrderSpec.NextOrderNumber(db.orders, ctx.org);
    NextNumberIsLocal(db.orders, ctx.org);
    NumberTakenIsLocal(db.orders, ctx.org, number);
    ScopeOfInsert(db.orders, ctx.org, input.newId, OrderSpec.NewOrder(dto, number, input.now));
    OrdersChanged(db, Insert(db.orders, ctx.org, input.newId, OrderSpec.NewOrder(dto, number, input.now)));
    ViewIsIdempotent(db, ctx.org);
    hide Consistent, OrderSpec.NextOrderNumber, OrderSpec.NumberTaken, OrderSpec.NewOrder;
  }

  lemma OrderFindOneConfined(db: Db, ctx: Ctx, id: Id)
    requires Consistent(db)
    ensures Confined(db, ctx.org, OrderSpec.FindOne(db, ctx, id), OrderSpec.FindOne(View(db, ctx.org), ctx, id))
  {
    if OwnedBy(db.orders, ctx.org, id) { OrderCardIsLocal(db, ctx.org, id); }
    ViewIsIdempotent(db, ctx.org);
    hide Consistent, OrderCardOf;
  }

  lemma OrderFindAllConfined(db: Db, ctx: Ctx, filter: OrderSpec.OrderFilter)
    requires Consistent(db)
    ensures Confined(db, ctx.org, OrderSpec.FindAll(db, ctx, filter), OrderSpec.FindAll(View(db, ctx.org), ctx, filter))
  {
    OrderListingIsLocal(db, ctx.org, filter);
    ViewIsIdempotent(db, ctx.org);
    hide Consistent, OrderSpec.Listing, View;
  }

  lemma OrderListingIsLocal(db: Db, org: OrgId, filter: OrderSpec.OrderFilter)
    requires Consistent(db)
    ensures OrderSpec.Listing(View(db, org), org, filter) == OrderSpec.Listing(db, org, filter)
  {
    var v := View(db, org);
    hide Consistent, OrderCardOf, OrderSpec.Matches;
    forall id | OwnedBy(db.orders, org, id) ensures OrderCardOf(v, id) == OrderCardOf(db, id) {
      OrderCardIsLocal(db, org, id);
    }
  }

  /** A scoped write of one order, answered with the joined record. */
  lemma OrderWriteConfined(db: Db, ctx: Ctx, id: Id, row: Order)
    requires Consistent(db) && OwnedBy(db.orders, ctx.org, id)
    requires row.orderNumber == db.orders[id].row.orderNumber && OwnedBy(db.customers, ctx.org, row.customerId)
    ensures var v := View(db, ctx.org);
            Confined(db, ctx.org,
                     OrderSpec.FindOne(db.(orders := UpdateMany(db.orders, ctx.org, id, row)), ctx, id),
                     OrderSpec.FindOne(v.(orders := UpdateMany(v.orders, ctx.org, id, row)), ctx, id))
  {
    var db' := db.(orders := UpdateMany(db.orders, ctx.org, id, row));
    C.OrderPut(db, ctx.org, id, row);
    ScopeOfUpdate(db.orders, ctx.org, id, row);
    OrdersChanged(db, db'.orders);
    OrderFindOneConfined(db', ctx, id);
    hide Consistent, OrderSpec.FindOne, UpdateMany;
  }

  lemma OrderUpdateConfined(db: Db, ctx: Ctx, id: Id, dto: OrderSpec.UpdateOrder)
    requires Consistent(db)
    ensures Confined(db, ctx.org, OrderSpec.Update(db, ctx, id, dto), OrderSpec.Update(View(db, ctx.org), ctx, id, dto))
  {
    if OrderSpec.Update(db, ctx, id, dto).1.Ok? {
      OrderWriteConfined(db, ctx, id, OrderSpec.Merge(db.orders[id].row, dto));
    }
    ViewIsIdempotent(db, ctx.org);
    hide Consistent, OrderSpec.FindOne, OrderSpec.Merge;
  }

  lemma OrderChangeStatusConfined(db: Db, ctx: Ctx, id: Id, status: OrderStatus)
    requires Consistent(db)
    ensures Confined(db, ctx.org, OrderSpec.ChangeStatus(db, ctx, id, status),
                     OrderSpec.ChangeStatus(View(db, ctx.org), ctx, id, status))
  {
    if OwnedBy(db.orders, ctx.org, id) {
      OrderWriteConfined(db, ctx, id, db.orders[id].row.(status := status));
    }
    ViewIsIdempotent(db, ctx.org);
    hide Consistent, OrderSpec.FindOne;
  }

  lemma OrderRemoveConfined(db: Db, ctx: Ctx, id: Id)
    ensures Confined(db, ctx.org, OrderSpec.Remove(db, ctx, id), OrderSpec.Remove(View(db, ctx.org), ctx, id))
  {
    ScopeOfDelete(db.orders, ctx.org, id);
    OrdersChanged(db, DeleteMany(db.orders, ctx.org, id));
    ViewIsIdempotent(db, ctx.org);
  }

  // --- notes ------------------------------------------------------------

  lemma NotesChanged(db: Db, notes: Table<Note>)
    ensures forall a :: View(db.(notes := notes), a) == View(db, a).(notes := Scope(notes, a))
  {
    forall a ensures LinksOf(db.(notes := notes), a) == LinksOf(db, a) {}
  }

  lemma NoteCreateConfined(db: Db, ctx: Ctx, input: Input, customerId: Id, content: string)
    requires OwnedBy(db.users, ctx.org, ctx.userId) && input.newId !in db.notes
    ensures Confined(db, ctx.org, S.CreateNote(db, ctx, input, customerId, content),
                     S.CreateNote(View(db, ctx.org), ctx, input, customerId, content))
  {
    var row := Note(customerId, Some(ctx.userId), content, input.now);
    ScopeOfInsert(db.notes, ctx.org, input.newId, row);
    NotesChanged(db, Insert(db.notes, ctx.org, input.newId, row));
    ViewIsIdempotent(db, ctx.org);
  }

  lemma NoteListConfined(db: Db, ctx: Ctx, customerId: Id)
    requires Consistent(db)
    ensures Confined(db, ctx.org, S.ListNotes(db, ctx, customerId), S.ListNotes(View(db, ctx.org), ctx, customerId))
  {
    var v := View(db, ctx.org);
    forall id | OwnedBy(db.notes, ctx.org, id) ensures NoteCardOf(v, id) == NoteCardOf(db, id) {
      NoteCardIsLocal(db, ctx.org, id);
    }
    hide Consistent, NoteCardOf;
    assert S.NoteListing(v, ctx.org, customerId) == S.NoteListing(db, ctx.org, customerId);
    ViewIsIdempotent(db, ctx.org);
  }

  lemma NoteUpdateConfined(db: Db, ctx: Ctx, id: Id, content: string)
    requires Consistent(db)
    ensures Confined(db, ctx.org, S.UpdateNote(db, ctx, id, content), S.UpdateNote(View(db, ctx.org), ctx, id, content))
  {
    C.NoteChangesKeep(db, ctx, id, content);
    if OwnedBy(db.notes, ctx.org, id) {
      var row := db.notes[id].row.(content := content);
      ScopeOfUpdate(db.notes, ctx.org, id, row);
      NotesChanged(db, UpdateMany(db.notes, ctx.org, id, row));
      NoteCardIsLocal(S.UpdateNote(db, ctx, id, content).0, ctx.org, id);
    }
    ViewIsIdempotent(db, ctx.org);
    hide Consistent, NoteCardOf;
  }

  lemma NoteRemoveConfined(db: Db, ctx: Ctx, id: Id)
    ensures Confined(db, ctx.org, S.RemoveNote(db, ctx, id), S.RemoveNote(View(db, ctx.org), ctx, id))
  {
    ScopeOfDelete(db.notes, ctx.org, id);
    NotesChanged(db, DeleteMany(db.notes, ctx.org, id));
    ViewIsIdempotent(db, ctx.org);
  }

  // --- tags -------------------------------------------------------------

  lemma TagsChanged(db: Db, tags: Table<Tag>)
    ensures forall a :: View(db.(tags := tags), a) == View(db, a).(tags := Scope(tags, a))
  {
    forall a ensures LinksOf(db.(tags := tags), a) == LinksOf(db, a) {}
  }

  lemma TagNameTakenIsLocal(tags: Table<Tag>, org: OrgId, name: string, except: Option<Id>)
    ensures S.TagNameTaken(Scope(tags, org), org, name, except) <==> S.TagNameTaken(tags, org, name, except)
  {
    if S.TagNameTaken(tags, org, name, except) {
      var t :| t in tags && tags[t].org == org && tags[t].row.name == name && Some(t) != except;
      assert t in Scope(tags, org);
    }
  }

  lemma TagCreateConfined(db: Db, ctx: Ctx, input: Input, name: string, color: Option<string>)
    requires input.newId !in db.tags
    ensures Confined(db, ctx.org, S.CreateTag(db, ctx, input, name, color),
                     S.CreateTag(View(db, ctx.org), ctx, input, name, color))
  {
    var row := Tag(name, color.GetOr("#6366f1"));
    TagNameTakenIsLocal(db.tags, ctx.org, name, None);
    ScopeOfInsert(db.tags, ctx.org, input.newId, row);
    TagsChanged(db, Insert(db.tags, ctx.org, input.newId, row));
    ViewIsIdempotent(db, ctx.org);
    hide S.TagNameTaken;
  }

  lemma TagUpdateConfined(db: Db, ctx: Ctx, id: Id, name: Option<string>, color: Option<string>)
    ensures Confined(db, ctx.org, S.UpdateTag(db, ctx, id, name, color),
                     S.UpdateTag(View(db, ctx.org), ctx, id, name, color))
  {
    if OwnedBy(db.tags, ctx.org, id) {
      var row := Tag(Keep(name, db.tags[id].row.name), Keep(color, db.tags[id].row.color));
      TagNameTakenIsLocal(db.tags, ctx.org, row.name, Some(id));
      ScopeOfUpdate(db.tags, ctx.org, id, row);
      TagsChanged(db, UpdateMany(db.tags, ctx.org, id, row));
    }
    ViewIsIdempotent(db, ctx.org);
    hide S.TagNameTaken;
  }

  lemma TagRemoveConfined(db: Db, ctx: Ctx, id: Id)
    requires Consistent(db)
    ensures Confined(db, ctx.org, S.RemoveTag(db, ctx, id), S.RemoveTag(View(db, ctx.org), ctx, id))
  {
    ScopeOfDelete(db.tags, ctx.org, id);
    if OwnedBy(db.tags, ctx.org, id) {
      var db' := S.RemoveTag(db, ctx, id).0;
      forall a ensures LinksOf(db', a) == (set l | l in LinksOf(db, a) && l.tagId != id) {}
      forall a | a != ctx.org ensures LinksOf(db', a) == LinksOf(db, a) {}
    }
    ViewIsIdempotent(db, ctx.org);
    hide Consistent;
  }

  lemma TagAttachConfined(db: Db, ctx: Ctx, tagId: Id, customerId: Id)
    ensures Confined(db, ctx.org, S.AttachTag(db, ctx, tagId, customerId),
                     S.AttachTag(View(db, ctx.org), ctx, tagId, customerId))
  {
    if S.AttachTag(db, ctx, tagId, customerId).1.Ok? {
      var db' := S.AttachTag(db, ctx, tagId, customerId).0;
      assert LinksOf(db', ctx.org) == LinksOf(db, ctx.org) + {Link(customerId, tagId)};
      forall a | a != ctx.org ensures LinksOf(db', a) == LinksOf(db, a) {}
    }
    ViewIsIdempotent(db, ctx.org);
  }

  /** The customer id is not checked, but a linked tag of ours hangs on a customer of ours. */
  lemma TagDetachConfined(db: Db, ctx: Ctx, tagId: Id, customerId: Id)
    requires Consistent(db)
    ensures Confined(db, ctx.org, S.DetachTag(db, ctx, tagId, customerId),
                     S.DetachTag(View(db, ctx.org), ctx, tagId, customerId))
  {
    if OwnedBy(db.tags, ctx.org, tagId) {
      var db' := S.DetachTag(db, ctx, tagId, customerId).0;
      assert LinksOf(db', ctx.org) == LinksOf(db, ctx.org) - {Link(customerId, tagId)};
      forall a | a != ctx.org ensures LinksOf(db', a) == LinksOf(db, a) {}
    }
    ViewIsIdempotent(db, ctx.org);
    hide Consistent;
  }

  // --- users ------------------------------------------------------------

  /** getInOrg has compared organizations, so the write by bare id stays inside. */
  lemma UserWriteIsLocal(db: Db, id: Id, row: User)
    requires id in db.users
    ensures var db', org := db.(users := UpdateById(db.users, id, row)), db.users[id].org;
            && View(db', org) == View(db, org).(users := UpdateById(View(db, org).users, id, row))
            && forall a :: a != org ==> View(db', a) == View(db, a)
  {
    var db' := db.(users := UpdateById(db.users, id, row));
    ScopeOfUpdateById(db.users, id, row);
    forall a ensures LinksOf(db', a) == LinksOf(db, a) {}
  }

  lemma UserReadsConfined(db: Db, ctx: Ctx, id: Id)
    ensures Confined(db, ctx.org, S.FindUser(db, ctx, id), S.FindUser(View(db, ctx.org), ctx, id))
    ensures Confined(db, ctx.org, S.ListUsers(db, ctx), S.ListUsers(View(db, ctx.org), ctx))
  {
    assert S.UserListing(View(db, ctx.org).users, ctx.org) == S.UserListing(db.users, ctx.org);
    ViewIsIdempotent(db, ctx.org);
  }

  lemma UserUpdateConfined(db: Db, ctx: Ctx, id: Id, first: Option<Option<string>>, last: Option<Option<string>>,
                           avatar: Option<Option<string>>)
    ensures Confined(db, ctx.org, S.UpdateUser(db, ctx, id, first, last, avatar),
                     S.UpdateUser(View(db, ctx.org), ctx, id, first, last, avatar))
  {
    if OwnedBy(db.users, ctx.org, id) {
      UserWriteIsLocal(db, id, S.UpdateUser(db, ctx, id, first, last, avatar).0.users[id].row);
    }
    ViewIsIdempotent(db, ctx.org);
  }

  lemma ChangeRoleConfined(db: Db, ctx: Ctx, id: Id, role: Role)
    ensures Confined(db, ctx.org, S.ChangeUserRole(db, ctx, id, role),
                     S.ChangeUserRole(View(db, ctx.org), ctx, id, role))
  {
    if OwnedBy(db.users, ctx.org, id) { UserWriteIsLocal(db, id, db.users[id].row.(role := role)); }
    ViewIsIdempotent(db, ctx.org);
  }

  // --- files ------------------------------------------------------------

  lemma FilesChanged(db: Db, files: Table<File>)
    ensures forall a :: View(db.(files := files), a) == View(db, a).(files := Scope(files, a))
  {
    forall a ensures LinksOf(db.(files := files), a) == LinksOf(db, a) {}
  }

  /** The unique index on keys is global, yet only our own rows can hold a key built for us. */
  lemma KeyTakenIsLocal(files: Table<File>, org: OrgId, name: string, now: nat)
    requires FileKeysNamespaced(files) && '/' !in org.uuid
    ensures S.KeyTaken(Scope(files, org), ObjectKeys.BuildKey(org, name, now))
            <==> S.KeyTaken(files, ObjectKeys.BuildKey(org, name, now))
  {
    hide ObjectKeys.BuildKey;
    var key := ObjectKeys.BuildKey(org, name, now);
    if S.KeyTaken(files, key) {
      var f :| f in files && files[f].row.key == key;
      var name', now': nat :| files[f].row.key == ObjectKeys.BuildKey(files[f].org, name', now');
      ObjectKeys.KeysNeverMeet(org, name, now, files[f].org, name', now');
      assert f in Scope(files, org) && Scope(files, org)[f].row.key == key;
    }
  }

  lemma FilePresignConfined(db: Db, ctx: Ctx, input: Input, filename: string, mimeType: string, size: nat)
    requires Consistent(db) && '/' !in ctx.org.uuid && input.newId !in db.files
    ensures Confined(db, ctx.org, S.PresignUpload(db, ctx, input, filename, mimeType, size),
                     S.PresignUpload(View(db, ctx.org), ctx, input, filename, mimeType, size))
  {
    var key := ObjectKeys.BuildKey(ctx.org, filename, input.now);
    var row := File(Some(ctx.userId), key, filename, mimeType, size, FileStatus.PENDING);
    KeyTakenIsLocal(db.files, ctx.org, filename, input.now);
    ScopeOfInsert(db.files, ctx.org, input.newId, row);
    FilesChanged(db, Insert(db.files, ctx.org, input.newId, row));
    ViewIsIdempotent(db, ctx.org);
    hide Consistent, S.KeyTaken, ObjectKeys.BuildKey;
  }

  lemma FindByKeyIsLocal(files: Table<File>, org: OrgId, key: string)
    requires FileKeysUnique(files)
    ensures S.FindByKey(Scope(files, org), org, key) == S.FindByKey(files, org, key)
  {
    var a, b := S.FindByKey(Scope(files, org), org, key), S.FindByKey(files, org, key);
    if b.Some? { assert S.HasKey(Scope(files, org), org, key, b.value); }
    if a.Some? { assert S.HasKey(files, org, key, a.value); }
  }

  lemma FileConfirmConfined(db: Db, ctx: Ctx, key: string)
    requires Consistent(db)
    ensures Confined(db, ctx.org, S.ConfirmUpload(db, ctx, key), S.ConfirmUpload(View(db, ctx.org), ctx, key))
  {
    FindByKeyIsLocal(db.files, ctx.org, key);
    var found := S.FindByKey(db.files, ctx.org, key);
    if found.Some? {
      var row := db.files[found.value].row.(status := UPLOADED);
      ScopeOfUpdateById(db.files, found.value, row);
      FilesChanged(db, UpdateById(db.files, found.value, row));
    }
    ViewIsIdempotent(db, ctx.org);
    hide Consistent, S.FindByKey;
  }

  lemma FileReadOrRemoveConfined(db: Db, ctx: Ctx, id: Id)
    ensures Confined(db, ctx.org, S.FindFile(db, ctx, id), S.FindFile(View(db, ctx.org), ctx, id))
    ensures Confined(db, ctx.org, S.RemoveFile(db, ctx, id), S.RemoveFile(View(db, ctx.org), ctx, id))
  {
    ScopeOfDelete(db.files, ctx.org, id);
    FilesChanged(db, DeleteMany(db.files, ctx.org, id));
    ViewIsIdempotent(db, ctx.org);
  }

  // --- the extension ----------------------------------------------------

  lemma FindByFacebookIdIsLocal(t: Table<Customer>, org: OrgId, facebookId: string)
    requires FacebookIdsUnique(t)
    ensures CustomerSpec.FindByFacebookId(Scope(t, org), org, facebookId)
            == CustomerSpec.FindByFacebookId(t, org, facebookId)
  {
    var a := CustomerSpec.FindByFacebookId(Scope(t, org), org, facebookId);
    var b := CustomerSpec.FindByFacebookId(t, org, facebookId);
    if b.Some? { assert CustomerSpec.HasFacebookId(Scope(t, org), org, facebookId, b.value); }
    if a.Some? { assert CustomerSpec.HasFacebookId(t, org, facebookId, a.value); }
  }

  lemma UpsertIsLocal(db: Db, ctx: Ctx, input: Input, dto: CustomerSpec.SyncCustomer, lastContactedAt: Option<Millis>)
    requires Consistent(db) && input.newId !in db.customers
    ensures var (db', id) := CustomerSpec.Upsert(db, ctx, input, dto, lastContactedAt);
            && CustomerSpec.Upsert(View(db, ctx.org), ctx, input, dto, lastContactedAt) == (View(db', ctx.org), id)
            && forall a :: a != ctx.org ==> View(db', a) == View(db, a)
  {
    FindByFacebookIdIsLocal(db.customers, ctx.org, dto.facebookId);
    match CustomerSpec.FindByFacebookId(db.customers, ctx.org, dto.facebookId)
    case Some(id) =>
      var row := CustomerSpec.Refreshed(db.customers[id].row, dto, input.now);
      ScopeOfUpdateById(db.customers, id, row);
      CustomersChanged(db, UpdateById(db.customers, id, row));
      hide Consistent, CustomerSpec.FindByFacebookId;
    case None =>
      var row := CustomerSpec.FromMessenger(dto, lastContactedAt, input.now);
      ScopeOfInsert(db.customers, ctx.org, input.newId, row);
      CustomersChanged(db, Insert(db.customers, ctx.org, input.newId, row));
      hide Consistent, CustomerSpec.FindByFacebookId;
  }

  lemma ResolveIsLocal(db: Db, ctx: Ctx, input: Input, facebookId: string)
    requires Consistent(db) && input.newId !in db.customers
    ensures var (db', id) := S.ResolveCustomer(db, ctx, input, facebookId);
            && S.ResolveCustomer(View(db, ctx.org), ctx, input, facebookId) == (View(db', ctx.org), id)
            && forall a :: a != ctx.org ==> View(db', a) == View(db, a)
  {
    FindByFacebookIdIsLocal(db.customers, ctx.org, facebookId);
    UpsertIsLocal(db, ctx, input, CustomerSpec.SyncCustomer(facebookId, facebookId, None, None), None);
    hide Consistent, CustomerSpec.FindByFacebookId, CustomerSpec.Upsert;
  }

  lemma ExtensionSyncConfined(db: Db, ctx: Ctx, input: Input, dto: CustomerSpec.SyncCustomer)
    requires Consistent(db) && input.newId !in db.customers
    ensures Confined(db, ctx.org, S.SyncCustomer(db, ctx, input, dto),
                     S.SyncCustomer(View(db, ctx.org), ctx, input, dto))
  {
    UpsertIsLocal(db, ctx, input, dto, Some(input.now));
    C.UpsertKeeps(db, ctx, input, dto, Some(input.now));
    hide Consistent, CustomerSpec.Upsert;
  }

  lemma ExtensionNoteConfined(db: Db, ctx: Ctx, input: Input, facebookId: string, content: string)
    requires Consistent(db) && input.newId !in db.customers && input.newId !in db.notes
    requires OwnedBy(db.users, ctx.org, ctx.userId)
    ensures Confined(db, ctx.org, S.AddNote(db, ctx, input, facebookId, content),
                     S.AddNote(View(db, ctx.org), ctx, input, facebookId, content))
  {
    ResolveIsLocal(db, ctx, input, facebookId);
    C.ResolveKeeps(db, ctx, input, facebookId);
    var (db1, id) := S.ResolveCustomer(db, ctx, input, facebookId);
    NoteCreateConfined(db1, ctx, input, id, content);
    hide Consistent, S.ResolveCustomer, S.CreateNote;
  }

  lemma ExtensionOrderConfined(db: Db, ctx: Ctx, input: Input, facebookId: string, productName: string,
                               quantity: Option<int>, amount: real)
    requires Consistent(db) && input.newId !in db.customers && input.newId !in db.orders
    ensures Confined(db, ctx.org, S.CreateExtensionOrder(db, ctx, input, facebookId, productName, quantity, amount),
                     S.CreateExtensionOrder(View(db, ctx.org), ctx, input, facebookId, productName, quantity, amount))
  {
    ResolveIsLocal(db, ctx, input, facebookId);
    C.ResolveKeeps(db, ctx, input, facebookId);
    var (db1, id) := S.ResolveCustomer(db, ctx, input, facebookId);
    OrderCreateConfined(db1, ctx, input,
                        OrderSpec.CreateOrder(id, productName, quantity.GetOr(1), amount, None, None, None, None,
                                              None));
    hide Consistent, S.ResolveCustomer, OrderSpec.Create;
  }

  lemma StatsAreLocal(db: Db, org: OrgId)
    ensures Analytics.StatsOf(View(db, org), org) == Analytics.StatsOf(db, org)
  {
    var v := View(db, org);
    assert Scope(v.customers, org) == Scope(db.customers, org) && Scope(v.orders, org) == Scope(db.orders, org);
    assert Analytics.Earnings(v.orders, org) == Analytics.Earnings(db.orders, org);
    assert Analytics.CustomersWith(v, org, CustomerStatus.NEW) == Analytics.CustomersWith(db, org, CustomerStatus.NEW);
    assert Analytics.OrdersWith(v.orders, org, OrderStatus.PENDING)
        == Analytics.OrdersWith(db.orders, org, OrderStatus.PENDING);
  }

  // --- every request ----------------------------------------------------

  lemma CustomerStepConfined(db: Db, call: Call)
    requires Consistent(db) && Admissible(db, call) && AboutCustomers(call.request)
    ensures Confined(db, call.ctx.org, Step(db, call), Step(View(db, call.ctx.org), call))
  {
    hide Consistent, View, CustomerSpec.Create, CustomerSpec.FindAll, CustomerSpec.FindOne, CustomerSpec.Update,
      CustomerSpec.Remove, CustomerSpec.ChangeStatus, CustomerSpec.Assign;
    var ctx, input := call.ctx, call.input;
    match call.request
    case CustomerCreate(dto) => CustomerCreateConfined(db, ctx, input, dto);
    case CustomerFindAll(filter) => CustomerFindAllConfined(db, ctx, filter);
    case CustomerFindOne(id) => CustomerFindOneConfined(db, ctx, id);
    case CustomerUpdate(id, dto) => CustomerUpdateConfined(db, ctx, id, dto);
    case CustomerRemove(id) => CustomerRemoveConfined(db, ctx, id);
    case CustomerChangeStatus(id, status) => CustomerChangeStatusConfined(db, ctx, id, status);
    case CustomerAssign(id, agent) => CustomerAssignConfined(db, ctx, id, agent);
  }

  lemma OrderOrNoteStepConfined(db: Db, call: Call)
    requires Consistent(db) && Admissible(db, call) && AboutOrdersOrNotes(call.request)
    ensures Confined(db, call.ctx.org, Step(db, call), Step(View(db, call.ctx.org), call))
  {
    hide Consistent, View, OrderSpec.Create, OrderSpec.FindAll, OrderSpec.FindOne, OrderSpec.Update,
      OrderSpec.ChangeStatus, OrderSpec.Remove, S.CreateNote, S.ListNotes, S.UpdateNote, S.RemoveNote;
    var ctx, input := call.ctx, call.input;
    match call.request
    case OrderCreate(dto) => OrderCreateConfined(db, ctx, input, dto);
    case OrderFindAll(filter) => OrderFindAllConfined(db, ctx, filter);
    case OrderFindOne(id) => OrderFindOneConfined(db, ctx, id);
    case OrderUpdate(id, dto) => OrderUpdateConfined(db, ctx, id, dto);
    case OrderChangeStatus(id, status) => OrderChangeStatusConfined(db, ctx, id, status);
    case OrderRemove(id) => OrderRemoveConfined(db, ctx, id);
    case NoteCreate(customerId, content) => NoteCreateConfined(db, ctx, input, customerId, content);
    case NoteList(customerId) => NoteListConfined(db, ctx, customerId);
    case NoteUpdate(id, content) => NoteUpdateConfined(db, ctx, id, content);
    case NoteRemove(id) => NoteRemoveConfined(db, ctx, id);
  }

  lemma TagListConfined(db: Db, ctx: Ctx)
    ensures Confined(db, ctx.org, S.ListTags(db, ctx), S.ListTags(View(db, ctx.org), ctx))
  {
    ViewIsIdempotent(db, ctx.org);
  }

  predicate AboutUsers(r: Request) { r.UserFind? || r.UserList? || r.UserUpdate? || r.UserChangeRole? }

  lemma TagStepConfined(db: Db, call: Call)
    requires Consistent(db) && Admissible(db, call) && AboutTagsOrUsers(call.request) && !AboutUsers(call.request)
    ensures Confined(db, call.ctx.org, Step(db, call), Step(View(db, call.ctx.org), call))
  {
    hide Consistent, View, Confined, S.CreateTag, S.ListTags, S.UpdateTag, S.RemoveTag, S.AttachTag, S.DetachTag;
    var ctx, input := call.ctx, call.input;
    match call.request
    case TagCreate(name, color) => TagCreateConfined(db, ctx, input, name, color);
    case TagList => TagListConfined(db, ctx);
    case TagUpdate(id, name, color) => TagUpdateConfined(db, ctx, id, name, color);
    case TagRemove(id) => TagRemoveConfined(db, ctx, id);
    case TagAttach(tagId, customerId) => TagAttachConfined(db, ctx, tagId, customerId);
    case TagDetach(tagId, customerId) => TagDetachConfined(db, ctx, tagId, customerId);
  }

  lemma UserStepConfined(db: Db, call: Call)
    requires Consistent(db) && Admissible(db, call) && AboutUsers(call.request)
    ensures Confined(db, call.ctx.org, Step(db, call), Step(View(db, call.ctx.org), call))
  {
    hide Consistent, View, Confined, S.FindUser, S.ListUsers, S.UpdateUser, S.ChangeUserRole;
    var ctx := call.ctx;
    match call.request
    case UserFind(id) => UserReadsConfined(db, ctx, id);
    case UserList => UserReadsConfined(db, ctx, 0);
    case UserUpdate(id, first, last, avatar) => UserUpdateConfined(db, ctx, id, first, last, avatar);
    case UserChangeRole(id, role) => ChangeRoleConfined(db, ctx, id, role);
  }

  lemma DashboardConfined(db: Db, call: Call)
    requires call.request.DashboardRead?
    ensures Confined(db, call.ctx.org, Step(db, call), Step(View(db, call.ctx.org), call))
  {
    StatsAreLocal(db, call.ctx.org);
    hide Analytics.StatsOf;
  }

  lemma FileOrMessengerStepConfined(db: Db, call: Call)
    requires Consistent(db) && Admissible(db, call) && AboutFilesOrMessenger(call.request)
    ensures Confined(db, call.ctx.org, Step(db, call), Step(View(db, call.ctx.org), call))
  {
    hide Consistent, View, S.PresignUpload, S.ConfirmUpload, S.FindFile, S.RemoveFile, S.SyncCustomer, S.AddNote,
      S.CreateExtensionOrder;
    var ctx, input := call.ctx, call.input;
    match call.request
    case FilePresign(filename, mimeType, size) => FilePresignConfined(db, ctx, input, filename, mimeType, size);
    case FileConfirm(key) => FileConfirmConfined(db, ctx, key);
    case FileFind(id) => FileReadOrRemoveConfined(db, ctx, id);
    case FileRemove(id) => FileReadOrRemoveConfined(db, ctx, id);
    case ExtensionSync(dto) => ExtensionSyncConfined(db, ctx, input, dto);
    case ExtensionNote(facebookId, content) => ExtensionNoteConfined(db, ctx, input, facebookId, content);
    case ExtensionOrder(facebookId, productName, quantity, amount) =>
      ExtensionOrderConfined(db, ctx, input, facebookId, productName, quantity, amount);
    case DashboardRead => DashboardConfined(db, call);
  }

  /**
   * A request does to its own organization's view, and answers, exactly what it would if that view
   * were the whole store; every other organization's view is left as it was.
   */
  lemma StepConfined(db: Db, call: Call)
    requires Consistent(db) && Admissible(db, call)
    ensures Step(View(db, call.ctx.org), call) == (View(Step(db, call).0, call.ctx.org), Step(db, call).1)
    ensures forall a :: a != call.ctx.org ==> View(Step(db, call).0, a) == View(db, a)
  {
    hide Consistent, View, Step;
    if AboutCustomers(call.request) {
      CustomerStepConfined(db, call);
    } else if AboutOrdersOrNotes(call.request) {
      OrderOrNoteStepConfined(db, call);
    } else if AboutUsers(call.request) {
      UserStepConfined(db, call);
    } else if AboutTagsOrUsers(call.request) {
      TagStepConfined(db, call);
    } else {
      FileOrMessengerStepConfined(db, call);
    }
  }
}
