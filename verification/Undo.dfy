// Which requests undo which: laws of partial updates, and the request that puts the
// store back exactly as it was.
module Undo {
  import opened Wrappers
  import opened Tables
  import opened Schema
  import opened Crm
  import opened Tenancy
  import opened Money
  import C = CustomerSpec
  import O = OrderSpec
  import S = StoreSpec
  import Ledger = OrderLedger
  import ExtensionIdentity

  // --- partial updates --------------------------------------------------

  /** The later patch wins field by field. */
  function Over<T>(later: Option<T>, earlier: Option<T>): Option<T> { if later.Some? then later else earlier }

  function NoCustomerPatch(): C.UpdateCustomer {
    C.UpdateCustomer(None, None, None, None, None, None, None, None, None, None)
  }

  /** The patch that carries every editable field of the row. */
  function CustomerPatchTo(c: Customer): C.UpdateCustomer {
    C.UpdateCustomer(Some(c.name), Some(c.facebookName), Some(c.facebookId), Some(c.profileUrl), Some(c.phone),
                     Some(c.email), Some(c.address), Some(c.status), Some(c.source), Some(c.assignedTo))
  }

  function CustomerPatchThen(p: C.UpdateCustomer, q: C.UpdateCustomer): C.UpdateCustomer {
    C.UpdateCustomer(Over(q.name, p.name), Over(q.facebookName, p.facebookName), Over(q.facebookId, p.facebookId),
                     Over(q.profileUrl, p.profileUrl), Over(q.phone, p.phone), Over(q.email, p.email),
                     Over(q.address, p.address), Over(q.status, p.status), Over(q.source, p.source),
                     Over(q.assignedTo, p.assignedTo))
  }

  /** Absent fields stay, present ones land in their own column, and patches compose. */
  lemma CustomerPatchLaws(c: Customer, target: Customer, p: C.UpdateCustomer, q: C.UpdateCustomer)
    ensures C.Merge(c, NoCustomerPatch()) == c
    ensures C.Merge(c, CustomerPatchTo(target))
            == target.(lastMessage := c.lastMessage, lastContactedAt := c.lastContactedAt, createdAt := c.createdAt)
    ensures C.Merge(C.Merge(c, p), q) == C.Merge(c, CustomerPatchThen(p, q))
  {
  }

  function NoOrderPatch(): O.UpdateOrder { O.UpdateOrder(None, None, None, None, None, None, None, None, None) }

  function OrderPatchTo(o: Order): O.UpdateOrder {
    O.UpdateOrder(Some(o.customerId), Some(o.productName), Some(o.quantity), Some(Units(o.amount)),
                  Some(Units(o.discount)), Some(Units(o.shippingFee)), Some(o.status), Some(o.paymentStatus),
                  Some(o.notes))
  }

  /** The same patch with money inputs that the row can have been computed from. */
  ghost function OrderPatchRecomputing(o: Order): O.UpdateOrder
    requires Ledger.Computed(o)
  {
    var amount, discount, shippingFee :| Ledger.ComputedFrom(amount, o.quantity, discount, shippingFee, o);
    OrderPatchTo(o).(amount := Some(amount), discount := Some(discount), shippingFee := Some(shippingFee))
  }

  function OrderPatchThen(p: O.UpdateOrder, q: O.UpdateOrder): O.UpdateOrder {
    O.UpdateOrder(Over(q.customerId, p.customerId), Over(q.productName, p.productName), Over(q.quantity, p.quantity),
                  Over(q.amount, p.amount), Over(q.discount, p.discount), Over(q.shippingFee, p.shippingFee),
                  Over(q.status, p.status), Over(q.paymentStatus, p.paymentStatus), Over(q.notes, p.notes))
  }

  /** As for customers, except that every update sets the total from the stored fields anew. */
  lemma OrderPatchLaws(o: Order, target: Order)
    ensures O.Merge(o, NoOrderPatch()) == o.(total := Ledger.FormulaOf(o))
    ensures O.Merge(o, OrderPatchTo(target))
            == target.(orderNumber := o.orderNumber, createdAt := o.createdAt, total := Ledger.FormulaOf(target))
  {
    RoundCentsExact(target.amount);
    RoundCentsExact(target.discount);
    RoundCentsExact(target.shippingFee);
    ExactTotal(o.amount, o.quantity, o.discount, o.shippingFee);
    ExactTotal(target.amount, target.quantity, target.discount, target.shippingFee);
    hide RoundCents, ComputeTotal, Formula, Units;
  }

  /** Patches of whole cents compose, totals included. */
  lemma OrderPatchesCompose(o: Order, p: O.UpdateOrder, q: O.UpdateOrder)
    requires Ledger.WholeCentDto(OrderUpdate(0, p)) && Ledger.WholeCentDto(OrderUpdate(0, q))
    ensures O.Merge(O.Merge(o, p), q) == O.Merge(o, OrderPatchThen(p, q))
  {
    hide ComputeTotal;
    if p.amount.Some? { RoundCentsExact(RoundCents(p.amount.value)); }
    if p.discount.Some? { RoundCentsExact(RoundCents(p.discount.value)); }
    if p.shippingFee.Some? { RoundCentsExact(RoundCents(p.shippingFee.value)); }
  }

  // --- the undoing request ----------------------------------------------

  /** The request that takes back `call`, where there is one. */
  ghost function UndoOf(db: Db, call: Call): Option<Request> {
    var r, ctx, newId := call.request, call.ctx, call.input.newId;
    if r.CustomerCreate? then Some(CustomerRemove(newId))
    else if r.CustomerUpdate? && r.id in db.customers then
      Some(CustomerUpdate(r.id, CustomerPatchTo(db.customers[r.id].row)))
    else if r.CustomerChangeStatus? && r.id in db.customers then
      Some(CustomerChangeStatus(r.id, db.customers[r.id].row.status))
    else if r.CustomerAssign? && r.id in db.customers then Some(CustomerAssign(r.id, db.customers[r.id].row.assignedTo))
    else if r.OrderCreate? then Some(OrderRemove(newId))
    else if r.OrderChangeStatus? && r.id in db.orders then Some(OrderChangeStatus(r.id, db.orders[r.id].row.status))
    else if r.NoteCreate? then Some(NoteRemove(newId))
    else if r.NoteUpdate? && r.id in db.notes then Some(NoteUpdate(r.id, db.notes[r.id].row.content))
    else if r.TagCreate? then Some(TagRemove(newId))
    else if r.TagUpdate? && r.id in db.tags then
      Some(TagUpdate(r.id, Some(db.tags[r.id].row.name), Some(db.tags[r.id].row.color)))
    else if r.TagAttach? && Link(r.customerId, r.tagId) !in db.links then Some(TagDetach(r.tagId, r.customerId))
    else if r.TagDetach? && Link(r.customerId, r.tagId) in db.links then Some(TagAttach(r.tagId, r.customerId))
    else if r.UserUpdate? && r.id in db.users then
      var u := db.users[r.id].row;
      Some(UserUpdate(r.id, Some(u.firstName), Some(u.lastName), Some(u.avatarUrl)))
    else if r.UserChangeRole? && r.id in db.users && (db.users[r.id].row.role == OWNER ==> ctx.role == OWNER) then
      Some(UserChangeRole(r.id, db.users[r.id].row.role))
    else if r.FilePresign? then Some(FileRemove(newId))
    else if r.OrderUpdate? && r.id in db.orders && Ledger.Computed(db.orders[r.id].row) then
      Some(OrderUpdate(r.id, OrderPatchRecomputing(db.orders[r.id].row)))
    else if r.ExtensionSync? then
      (if Known(db, ctx, r.sync.facebookId) then None else Some(CustomerRemove(newId)))
    else if r.ExtensionNote? then
      Some(if Known(db, ctx, r.facebookId) then NoteRemove(newId) else CustomerRemove(newId))
    else if r.ExtensionOrder? then
      Some(if Known(db, ctx, r.facebookId) then OrderRemove(newId) else CustomerRemove(newId))
    else None
  }

  ghost predicate Known(db: Db, ctx: Ctx, facebookId: string) {
    C.FindByFacebookId(db.customers, ctx.org, facebookId).Some?
  }

  /** Running `undo` after `call` succeeds and leaves the store as it was before both. */
  ghost predicate Restores(db: Db, call: Call, undo: Request, input: Input) {
    var (db2, reply) := Step(Step(db, call).0, Call(call.ctx, input, undo));
    reply.Ok? && db2 == db
  }

  /** No row can refer to an id that has never been used. */
  lemma NothingRefersTo(db: Db, id: Id)
    requires Consistent(db) && !IdUsed(db, id)
    ensures OrdersOf(db.orders, id) == {} && NotesOf(db.notes, id) == {}
    ensures forall l :: l in db.links ==> l.customerId != id && l.tagId != id
  {
  }

  // The removing requests, by what they specify.

  lemma RestoredByCustomerRemove(db: Db, call: Call, input: Input, id: Id)
    requires C.Remove(Step(db, call).0, call.ctx, id) == (db, Ok(Done))
    ensures Restores(db, call, CustomerRemove(id), input)
  {
    var db1 := Step(db, call).0;
    assert Step(db1, Call(call.ctx, input, CustomerRemove(id))) == C.Remove(db1, call.ctx, id);
    hide Step, C.Remove;
  }

  lemma RestoredByOrderRemove(db: Db, call: Call, input: Input, id: Id)
    requires O.Remove(Step(db, call).0, call.ctx, id) == (db, Ok(Done))
    ensures Restores(db, call, OrderRemove(id), input)
  {
    var db1 := Step(db, call).0;
    assert Step(db1, Call(call.ctx, input, OrderRemove(id))) == O.Remove(db1, call.ctx, id);
    hide Step, O.Remove;
  }

  lemma RestoredByNoteRemove(db: Db, call: Call, input: Input, id: Id)
    requires S.RemoveNote(Step(db, call).0, call.ctx, id) == (db, Ok(Done))
    ensures Restores(db, call, NoteRemove(id), input)
  {
    var db1 := Step(db, call).0;
    assert Step(db1, Call(call.ctx, input, NoteRemove(id))) == S.RemoveNote(db1, call.ctx, id);
    hide Step, S.RemoveNote;
  }

  lemma CustomerRemovalRestores(db: Db, db1: Db, ctx: Ctx, id: Id)
    requires Consistent(db) && !IdUsed(db, id) && OwnedBy(db1.customers, ctx.org, id)
    requires db1 == db.(customers := db1.customers, orders := db1.orders, notes := db1.notes)
    requires db1.customers - {id} == db.customers
    requires db1.orders - OrdersOf(db1.orders, id) == db.orders
    requires db1.notes - NotesOf(db1.notes, id) == db.notes
    ensures C.Remove(db1, ctx, id) == (db, Ok(Done))
  {
    NothingRefersTo(db, id);
    hide Consistent, OrdersOf, NotesOf;
    assert (set l | l in db.links && l.customerId != id) == db.links;
  }

  lemma CustomerCreateWrites(db: Db, call: Call)
    requires Admissible(db, call) && call.request.CustomerCreate? && Step(db, call).1.Ok?
    ensures var id, db1 := call.input.newId, Step(db, call).0;
            OwnedBy(db1.customers, call.ctx.org, id) && db1 == db.(customers := db1.customers)
            && db1.customers - {id} == db.customers
  {
    hide C.NewCustomer, C.FacebookIdTaken;
    assert Step(db, call).0.customers - {call.input.newId} == db.customers;
  }

  lemma CustomerCreateUndone(db: Db, call: Call, input: Input)
    requires Consistent(db) && Admissible(db, call) && call.request.CustomerCreate? && Step(db, call).1.Ok?
    ensures Restores(db, call, CustomerRemove(call.input.newId), input)
  {
    hide Step, Restores;
    var id := call.input.newId;
    CustomerCreateWrites(db, call);
    NothingRefersTo(db, id);
    assert db.orders - OrdersOf(db.orders, id) == db.orders && db.notes - NotesOf(db.notes, id) == db.notes;
    hide Consistent, OrdersOf, NotesOf, C.Remove;
    CustomerRemovalRestores(db, Step(db, call).0, call.ctx, id);
    RestoredByCustomerRemove(db, call, input, id);
  }

  lemma CustomerUpdateUndone(db: Db, call: Call, input: Input)
    requires Consistent(db) && call.request.CustomerUpdate? && Step(db, call).1.Ok?
    ensures UndoOf(db, call).Some? && Restores(db, call, UndoOf(db, call).value, input)
  {
    hide OrdersLinked, NotesLinked, TagsLinked, OrderNumbersUnique, TagNamesUnique, FileKeysUnique, FileKeysNamespaced;
    var id, db1 := call.request.id, Step(db, call).0;
    var before := db.customers[id].row;
    CustomerPatchLaws(db1.customers[id].row, before, NoCustomerPatch(), NoCustomerPatch());
    assert C.Merge(db1.customers[id].row, CustomerPatchTo(before)) == before;
    assert !C.FacebookIdTaken(db1.customers, call.ctx.org, before.facebookId, Some(id));
    assert db1.customers[id := Owned(call.ctx.org, before)] == db.customers;
  }

  lemma CustomerFieldUndone(db: Db, call: Call, input: Input)
    requires Consistent(db) && (call.request.CustomerChangeStatus? || call.request.CustomerAssign?)
    requires Step(db, call).1.Ok?
    ensures UndoOf(db, call).Some? && Restores(db, call, UndoOf(db, call).value, input)
  {
    hide OrdersLinked, NotesLinked, TagsLinked, OrderNumbersUnique, TagNamesUnique, FileKeysUnique, FileKeysNamespaced;
    hide CardOf, FacebookIdsUnique;
    var id, db1 := call.request.id, Step(db, call).0;
    assert db1.customers[id := db.customers[id]] == db.customers;
  }

  lemma OrderUndone(db: Db, call: Call, input: Input)
    requires Admissible(db, call) && (call.request.OrderCreate? || call.request.OrderChangeStatus?)
    requires Step(db, call).1.Ok?
    ensures UndoOf(db, call).Some? && Restores(db, call, UndoOf(db, call).value, input)
  {
    hide O.NextOrderNumber, O.NumberTaken, O.NewOrder, OrderCardOf;
    var r, db1 := call.request, Step(db, call).0;
    if r.OrderCreate? {
      assert db1.orders - {call.input.newId} == db.orders;
    } else {
      assert db1.orders[r.id := db.orders[r.id]] == db.orders;
    }
  }

  lemma NoteUndone(db: Db, call: Call, input: Input)
    requires Admissible(db, call) && (call.request.NoteCreate? || call.request.NoteUpdate?) && Step(db, call).1.Ok?
    ensures UndoOf(db, call).Some? && Restores(db, call, UndoOf(db, call).value, input)
  {
    hide NoteCardOf;
    var r, db1 := call.request, Step(db, call).0;
    if r.NoteCreate? {
      assert db1.notes - {call.input.newId} == db.notes;
    } else {
      assert db1.notes[r.id := db.notes[r.id]] == db.notes;
    }
  }

  lemma TagCreateWrites(db: Db, call: Call)
    requires Admissible(db, call) && call.request.TagCreate? && Step(db, call).1.Ok?
    ensures var id, db1 := call.input.newId, Step(db, call).0;
            OwnedBy(db1.tags, call.ctx.org, id) && db1 == db.(tags := db1.tags) && db1.tags - {id} == db.tags
  {
    hide S.TagNameTaken;
    assert Step(db, call).0.tags - {call.input.newId} == db.tags;
  }

  lemma TagCreateUndone(db: Db, call: Call, input: Input)
    requires Consistent(db) && Admissible(db, call) && call.request.TagCreate? && Step(db, call).1.Ok?
    ensures Restores(db, call, TagRemove(call.input.newId), input)
  {
    var id, db1 := call.input.newId, Step(db, call).0;
    TagCreateWrites(db, call);
    NothingRefersTo(db, id);
    assert Step(db1, Call(call.ctx, input, TagRemove(id))) == S.RemoveTag(db1, call.ctx, id);
    hide Step, Consistent;
    assert (set l | l in db.links && l.tagId != id) == db.links;
    assert S.RemoveTag(db1, call.ctx, id) == (db, Ok(Done));
  }

  lemma TagUpdateUndone(db: Db, call: Call, input: Input)
    requires TagNamesUnique(db.tags) && call.request.TagUpdate? && Step(db, call).1.Ok?
    ensures UndoOf(db, call).Some? && Restores(db, call, UndoOf(db, call).value, input)
  {
    var r, db1 := call.request, Step(db, call).0;
    assert !S.TagNameTaken(db1.tags, call.ctx.org, db.tags[r.id].row.name, Some(r.id));
    assert db1.tags[r.id := db.tags[r.id]] == db.tags;
  }

  lemma AttachUndone(db: Db, call: Call, input: Input)
    requires call.request.TagAttach? && Step(db, call).1.Ok?
    ensures UndoOf(db, call).Some? ==> Restores(db, call, UndoOf(db, call).value, input)
    ensures UndoOf(db, call).None? ==> Step(db, call).0 == db
    ensures Step(Step(db, call).0, call) == Step(db, call)
  {
    var l := Link(call.request.customerId, call.request.tagId);
    assert l in db.links ==> db.links + {l} == db.links;
    assert l !in db.links ==> db.links + {l} - {l} == db.links;
    assert db.links + {l} + {l} == db.links + {l};
  }

  lemma DetachUndone(db: Db, call: Call, input: Input)
    requires TagsLinked(db) && call.request.TagDetach? && Step(db, call).1.Ok?
    ensures UndoOf(db, call).Some? ==> Restores(db, call, UndoOf(db, call).value, input)
    ensures UndoOf(db, call).None? ==> Step(db, call).0 == db
    ensures Step(Step(db, call).0, call) == Step(db, call)
  {
    var l := Link(call.request.customerId, call.request.tagId);
    assert l in db.links ==> db.links - {l} + {l} == db.links;
    assert l !in db.links ==> db.links - {l} == db.links;
    assert db.links - {l} - {l} == db.links - {l};
  }

  /** Detaching takes back an attachment and the other way round; repeating either changes nothing. */
  lemma PivotUndone(db: Db, call: Call, input: Input)
    requires Consistent(db) && (call.request.TagAttach? || call.request.TagDetach?) && Step(db, call).1.Ok?
    ensures UndoOf(db, call).Some? ==> Restores(db, call, UndoOf(db, call).value, input)
    ensures UndoOf(db, call).None? ==> Step(db, call).0 == db
    ensures Step(Step(db, call).0, call) == Step(db, call)
  {
    hide Step, TagsLinked, Restores, UndoOf;
    if call.request.TagAttach? { AttachUndone(db, call, input); } else { DetachUndone(db, call, input); }
  }

  lemma UserUndone(db: Db, call: Call, input: Input)
    requires (call.request.UserUpdate? || call.request.UserChangeRole?) && Step(db, call).1.Ok?
    ensures UndoOf(db, call).Some? ==> Restores(db, call, UndoOf(db, call).value, input)
  {
    hide Sanitize;
    var r, db1 := call.request, Step(db, call).0;
    assert db1.users[r.id := db.users[r.id]] == db.users;
  }

  lemma PresignUndone(db: Db, call: Call, input: Input)
    requires Admissible(db, call) && call.request.FilePresign? && Step(db, call).1.Ok?
    ensures Restores(db, call, FileRemove(call.input.newId), input)
  {
    assert Step(db, call).0.files - {call.input.newId} == db.files;
  }

  /** Putting an order's fields back restores it if and only if its total was exact to begin with. */
  lemma OrderUpdateUndoneExactlyWhen(db: Db, call: Call, input: Input)
    requires Consistent(db) && call.request.OrderUpdate? && Step(db, call).1.Ok?
    ensures call.request.id in db.orders
    ensures Restores(db, call, OrderUpdate(call.request.id, OrderPatchTo(db.orders[call.request.id].row)), input)
            <==> Ledger.Exact(db.orders[call.request.id].row)
  {
    hide NotesLinked, AgentsLinked, TagsLinked, OrderNumbersUnique, FacebookIdsUnique, TagNamesUnique;
    hide FileKeysUnique, FileKeysNamespaced, OrderCardOf, O.Merge, Ledger.FormulaOf;
    var id, db1 := call.request.id, Step(db, call).0;
    var before, after := db.orders[id].row, db1.orders[id].row;
    OrderPatchLaws(after, before);
    assert after.orderNumber == before.orderNumber && after.createdAt == before.createdAt by {
      assert after == O.Merge(before, call.request.orderPatch);
      MergeKeepsIdentity(before, call.request.orderPatch);
    }
    var undone := before.(total := Ledger.FormulaOf(before));
    assert O.Merge(after, OrderPatchTo(before)) == undone;
    assert db1.orders[id := Owned(call.ctx.org, undone)] == db.orders[id := Owned(call.ctx.org, undone)];
    if undone == before { assert db.orders[id := Owned(call.ctx.org, undone)] == db.orders; }
    else { assert db.orders[id := Owned(call.ctx.org, undone)][id] != db.orders[id]; }
  }

  lemma MergeKeepsIdentity(o: Order, p: O.UpdateOrder)
    ensures O.Merge(o, p).orderNumber == o.orderNumber && O.Merge(o, p).createdAt == o.createdAt
  {
  }

  lemma OrderPatchRecomputes(o: Order, target: Order)
    requires Ledger.Computed(target)
    requires o.orderNumber == target.orderNumber && o.createdAt == target.createdAt
    ensures O.Merge(o, OrderPatchRecomputing(target)) == target
    ensures OrderPatchRecomputing(target).customerId == Some(target.customerId)
  {
    hide RoundCents, ComputeTotal, Units;
  }

  /** Money inputs that the old row can have been computed from bring it back, its total included. */
  lemma OrderRecomputed(db: Db, call: Call, input: Input)
    requires Consistent(db) && call.request.OrderUpdate? && Step(db, call).1.Ok?
    requires call.request.id in db.orders && Ledger.Computed(db.orders[call.request.id].row)
    ensures var id := call.request.id;
            Restores(db, call, OrderUpdate(id, OrderPatchRecomputing(db.orders[id].row)), input)
  {
    hide NotesLinked, AgentsLinked, TagsLinked, OrderNumbersUnique, FacebookIdsUnique, TagNamesUnique;
    hide FileKeysUnique, FileKeysNamespaced, OrderCardOf, O.Merge, Ledger.Computed, OrderPatchRecomputing;
    var id, db1 := call.request.id, Step(db, call).0;
    var before := db.orders[id].row;
    MergeKeepsIdentity(before, call.request.orderPatch);
    OrderPatchRecomputes(db1.orders[id].row, before);
    assert db1.orders[id := Owned(call.ctx.org, before)] == db.orders;
  }

  // --- the extension ----------------------------------------------------

  lemma NewcomerResolved(db: Db, ctx: Ctx, input: Input, dto: C.SyncCustomer, contacted: Option<Millis>)
    requires !Known(db, ctx, dto.facebookId) && input.newId !in db.customers
    ensures var (db1, id) := C.Upsert(db, ctx, input, dto, contacted);
            && id == input.newId && OwnedBy(db1.customers, ctx.org, id) && db1.customers - {id} == db.customers
            && db1 == db.(customers := db1.customers)
  {
    hide C.FindByFacebookId;
    var (db1, id) := C.Upsert(db, ctx, input, dto, contacted);
    assert db1.customers - {id} == db.customers;
  }

  lemma SyncUndone(db: Db, call: Call, input: Input)
    requires Consistent(db) && Admissible(db, call) && call.request.ExtensionSync?
    requires !Known(db, call.ctx, call.request.sync.facebookId)
    ensures Restores(db, call, CustomerRemove(call.input.newId), input)
  {
    var id, ctx := call.input.newId, call.ctx;
    NewcomerResolved(db, ctx, call.input, call.request.sync, Some(call.input.now));
    NothingRefersTo(db, id);
    assert db.orders - OrdersOf(db.orders, id) == db.orders && db.notes - NotesOf(db.notes, id) == db.notes;
    hide Step, Consistent, C.Upsert, C.Remove, OrdersOf, NotesOf, Restores;
    ExtensionIdentity.SyncUpserts(db, call);
    CustomerRemovalRestores(db, Step(db, call).0, ctx, id);
    RestoredByCustomerRemove(db, call, input, id);
  }

  lemma KnownResolved(db: Db, ctx: Ctx, input: Input, facebookId: string)
    requires Known(db, ctx, facebookId)
    ensures S.ResolveCustomer(db, ctx, input, facebookId).0 == db
  {
  }

  /** Removing a newcomer takes its one note or order along. */
  lemma NewcomerRemoved(db: Db, db0: Db, db1: Db, ctx: Ctx, id: Id)
    requires Consistent(db) && !IdUsed(db, id)
    requires OwnedBy(db0.customers, ctx.org, id) && db0.customers - {id} == db.customers
    requires db0 == db.(customers := db0.customers)
    requires || (&& id in db1.notes && db1.notes[id].row.customerId == id && db1.notes - {id} == db.notes
                 && db1 == db0.(notes := db1.notes))
             || (&& id in db1.orders && db1.orders[id].row.customerId == id && db1.orders - {id} == db.orders
                 && db1 == db0.(orders := db1.orders))
    ensures C.Remove(db1, ctx, id) == (db, Ok(Done))
  {
    NothingRefersTo(db, id);
    assert NotesOf(db1.notes, id) == (if db1.notes == db.notes then {} else {id});
    assert OrdersOf(db1.orders, id) == (if db1.orders == db.orders then {} else {id});
    hide Consistent, C.Remove, OrdersOf, NotesOf;
    assert db1.orders - OrdersOf(db1.orders, id) == db.orders && db1.notes - NotesOf(db1.notes, id) == db.notes;
    CustomerRemovalRestores(db, db1, ctx, id);
  }

  /** What a successful extension note writes: the resolved customer's tables and one note on that customer. */
  lemma ExtensionNoteWrites(db: Db, call: Call)
    requires Admissible(db, call) && call.request.ExtensionNote? && Step(db, call).1.Ok?
    ensures var r, id, db1 := call.request, call.input.newId, Step(db, call).0;
            var (db0, c) := S.ResolveCustomer(db, call.ctx, call.input, r.facebookId);
            && OwnedBy(db1.notes, call.ctx.org, id) && db1.notes[id].row.customerId == c
            && db1 == db0.(notes := db.notes[id := db1.notes[id]]) && db1.notes - {id} == db.notes
  {
    hide C.FindByFacebookId, C.Upsert, S.ResolveCustomer;
    assert Step(db, call).0.notes - {call.input.newId} == db.notes;
  }

  lemma ExtensionNoteUndone(db: Db, call: Call, input: Input)
    requires Consistent(db) && Admissible(db, call) && call.request.ExtensionNote? && Step(db, call).1.Ok?
    ensures UndoOf(db, call).Some? && Restores(db, call, UndoOf(db, call).value, input)
  {
    hide Step, Restores, C.Upsert, C.FindByFacebookId;
    ExtensionNoteWrites(db, call);
    var r, ctx, id, db1 := call.request, call.ctx, call.input.newId, Step(db, call).0;
    if Known(db, ctx, r.facebookId) {
      KnownResolved(db, ctx, call.input, r.facebookId);
      hide Consistent, S.ResolveCustomer, Known;
      RestoredByNoteRemove(db, call, input, id);
    } else {
      NewcomerResolved(db, ctx, call.input, C.SyncCustomer(r.facebookId, r.facebookId, None, None), None);
      hide Consistent, C.Remove, Known, S.CreateNote, O.Create;
      NewcomerRemoved(db, S.ResolveCustomer(db, ctx, call.input, r.facebookId).0, db1, ctx, id);
      RestoredByCustomerRemove(db, call, input, id);
    }
  }

  /** What a successful extension order writes: the resolved customer's tables and one order of that customer. */
  lemma ExtensionOrderWrites(db: Db, call: Call)
    requires Admissible(db, call) && call.request.ExtensionOrder? && Step(db, call).1.Ok?
    ensures var r, id, db1 := call.request, call.input.newId, Step(db, call).0;
            var (db0, c) := S.ResolveCustomer(db, call.ctx, call.input, r.facebookId);
            && id in db1.orders && OwnedBy(db1.orders, call.ctx.org, id) && db1.orders[id].row.customerId == c
            && db1 == db0.(orders := db.orders[id := db1.orders[id]]) && db1.orders - {id} == db.orders
  {
    hide C.FindByFacebookId, C.Upsert, S.ResolveCustomer, O.NextOrderNumber, O.NumberTaken, ComputeTotal, RoundCents;
    assert Step(db, call).0.orders - {call.input.newId} == db.orders;
  }

  lemma ExtensionOrderUndone(db: Db, call: Call, input: Input)
    requires Consistent(db) && Admissible(db, call) && call.request.ExtensionOrder? && Step(db, call).1.Ok?
    ensures UndoOf(db, call).Some? && Restores(db, call, UndoOf(db, call).value, input)
  {
    hide Step, Restores, C.Upsert, C.FindByFacebookId;
    ExtensionOrderWrites(db, call);
    var r, ctx, id, db1 := call.request, call.ctx, call.input.newId, Step(db, call).0;
    if Known(db, ctx, r.facebookId) {
      KnownResolved(db, ctx, call.input, r.facebookId);
      hide Consistent, S.ResolveCustomer, Known;
      RestoredByOrderRemove(db, call, input, id);
    } else {
      NewcomerResolved(db, ctx, call.input, C.SyncCustomer(r.facebookId, r.facebookId, None, None), None);
      hide Consistent, C.Remove, Known, S.CreateNote, O.Create;
      NewcomerRemoved(db, S.ResolveCustomer(db, ctx, call.input, r.facebookId).0, db1, ctx, id);
      RestoredByCustomerRemove(db, call, input, id);
    }
  }

  // --- all of them ------------------------------------------------------

  lemma TagNames(db: Db)
    requires Consistent(db)
    ensures TagNamesUnique(db.tags)
  {
  }

  /** Every request with an undoing request is taken back by it completely. */
  lemma UndoRestores(db: Db, call: Call, input: Input)
    requires Consistent(db) && Admissible(db, call) && Step(db, call).1.Ok? && UndoOf(db, call).Some?
    ensures Restores(db, call, UndoOf(db, call).value, input)
  {
    hide Step, Consistent, Restores, Admissible, Known, Ledger.Computed, OrderPatchRecomputing;
    var r := call.request;
    if r.CustomerCreate? { CustomerCreateUndone(db, call, input); }
    else if r.CustomerUpdate? { CustomerUpdateUndone(db, call, input); }
    else if r.CustomerChangeStatus? || r.CustomerAssign? { CustomerFieldUndone(db, call, input); }
    else if r.OrderCreate? || r.OrderChangeStatus? { OrderUndone(db, call, input); }
    else if r.OrderUpdate? { OrderRecomputed(db, call, input); }
    else if r.NoteCreate? || r.NoteUpdate? { NoteUndone(db, call, input); }
    else if r.TagCreate? { TagCreateUndone(db, call, input); }
    else if r.TagUpdate? { assert TagNamesUnique(db.tags) by { TagNames(db); } TagUpdateUndone(db, call, input); }
    else if r.TagAttach? || r.TagDetach? { PivotUndone(db, call, input); }
    else if r.UserUpdate? || r.UserChangeRole? { UserUndone(db, call, input); }
    else if r.ExtensionSync? { SyncUndone(db, call, input); }
    else if r.ExtensionNote? { ExtensionNoteUndone(db, call, input); }
    else if r.ExtensionOrder? { ExtensionOrderUndone(db, call, input); }
    else { PresignUndone(db, call, input); }
  }
}
