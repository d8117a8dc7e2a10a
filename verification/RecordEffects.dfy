// What each request on customers, orders, notes, tags, users and files does to the store
// and answers, column by column in the terms of its own input.
module RecordEffects {
  import opened Wrappers
  import opened Tables
  import opened Schema
  import opened Crm
  import opened Tenancy
  import opened Money
  import C = CustomerSpec
  import Decimal
  import O = OrderSpec
  import ObjectKeys
  import OrderNumbers
  import S = StoreSpec

  /** A column after a partial update: the given value, or what it was. */
  predicate Becomes<T(==)>(after: T, field: Option<T>, before: T) {
    (field.Some? ==> after == field.value) && (field.None? ==> after == before)
  }

  predicate Refused(db: Db, out: Outcome, failure: Failure) { out == (db, Err(failure)) }

  // --- customers --------------------------------------------------------

  /** The organization already has a customer with this facebookId, other than `except`. */
  predicate HasOther(t: Table<Customer>, org: OrgId, facebookId: Option<string>, except: Option<Id>) {
    facebookId.Some? && exists c :: c in t && t[c].org == org && t[c].row.facebookId == facebookId && Some(c) != except
  }

  /** An agent that is named must be a user of the organization. */
  predicate AgentFits(db: Db, org: OrgId, agent: Option<Id>) {
    agent.Some? ==> agent.value in db.users && db.users[agent.value].org == org
  }

  /** A created customer holds each given field in the column of its name and the defaults in the others. */
  lemma CustomerCreated(db: Db, ctx: Ctx, input: Input, dto: C.CreateCustomer)
    ensures var out := Step(db, Call(ctx, input, CustomerCreate(dto)));
            if !AgentFits(db, ctx.org, dto.assignedTo) then Refused(db, out, AgentNotInOrg)
            else if HasOther(db.customers, ctx.org, dto.facebookId, None) then Refused(db, out, UniqueViolation)
            else
              && out.1.Ok? && out.1.value.CustomerRow? && out.1.value.id == input.newId
              && var c := out.1.value.customer;
                 && out.0 == db.(customers := db.customers[input.newId := Owned(ctx.org, c)])
                 && c.name == dto.name && c.facebookName == dto.facebookName && c.facebookId == dto.facebookId
                 && c.profileUrl == dto.profileUrl && c.phone == dto.phone && c.email == dto.email
                 && c.address == dto.address && c.source == dto.source && c.assignedTo == dto.assignedTo
                 && Becomes(c.status, dto.status, CustomerStatus.NEW)
                 && c.lastMessage.None? && c.lastContactedAt.None? && c.createdAt == input.now
  {
    assert C.FacebookIdTaken(db.customers, ctx.org, dto.facebookId, None)
        <==> HasOther(db.customers, ctx.org, dto.facebookId, None);
  }

  /** An update writes the given fields, keeps the others and answers the new row. */
  lemma CustomerUpdated(db: Db, ctx: Ctx, input: Input, id: Id, dto: C.UpdateCustomer)
    ensures var out := Step(db, Call(ctx, input, CustomerUpdate(id, dto)));
            if !OwnedBy(db.customers, ctx.org, id) then Refused(db, out, NotFound)
            else if !AgentFits(db, ctx.org, dto.assignedTo.GetOr(None)) then Refused(db, out, AgentNotInOrg)
            else
              var before := db.customers[id].row;
              if HasOther(db.customers, ctx.org, dto.facebookId.GetOr(before.facebookId), Some(id)) then
                Refused(db, out, UniqueViolation)
              else
                && out.1.Ok? && out.1.value.CustomerRow? && out.1.value.id == id
                && var c := out.1.value.customer;
                   && out.0 == db.(customers := db.customers[id := Owned(ctx.org, c)])
                   && Becomes(c.name, dto.name, before.name)
                   && Becomes(c.facebookName, dto.facebookName, before.facebookName)
                   && Becomes(c.facebookId, dto.facebookId, before.facebookId)
                   && Becomes(c.profileUrl, dto.profileUrl, before.profileUrl)
                   && Becomes(c.phone, dto.phone, before.phone) && Becomes(c.email, dto.email, before.email)
                   && Becomes(c.address, dto.address, before.address) && Becomes(c.status, dto.status, before.status)
                   && Becomes(c.source, dto.source, before.source)
                   && Becomes(c.assignedTo, dto.assignedTo, before.assignedTo)
                   && c.lastMessage == before.lastMessage && c.lastContactedAt == before.lastContactedAt
                   && c.createdAt == before.createdAt
  {
    if OwnedBy(db.customers, ctx.org, id) {
      var facebookId := C.Merge(db.customers[id].row, dto).facebookId;
      assert C.FacebookIdTaken(db.customers, ctx.org, facebookId, Some(id))
          <==> HasOther(db.customers, ctx.org, facebookId, Some(id));
    }
  }

  /** What a card shows of its row: the row itself under its id. */
  predicate ShowsCustomer(db: Db, reply: Result<Reply, Failure>, id: Id) {
    && reply.Ok? && reply.value.CustomerFound? && id in db.customers
    && reply.value.card.id == id && reply.value.card.row == db.customers[id].row
  }

  lemma CustomerStatusChanged(db: Db, ctx: Ctx, input: Input, id: Id, status: CustomerStatus)
    ensures var out := Step(db, Call(ctx, input, CustomerChangeStatus(id, status)));
            if !OwnedBy(db.customers, ctx.org, id) then Refused(db, out, NotFound)
            else
              && out.0 == db.(customers := db.customers[id := Owned(ctx.org, db.customers[id].row.(status := status))])
              && ShowsCustomer(out.0, out.1, id)
  {
    hide OrdersOf, NotesOf, TagsOf, Agent;
  }

  lemma CustomerAssigned(db: Db, ctx: Ctx, input: Input, id: Id, agent: Option<Id>)
    ensures var out := Step(db, Call(ctx, input, CustomerAssign(id, agent)));
            if !OwnedBy(db.customers, ctx.org, id) then Refused(db, out, NotFound)
            else if !AgentFits(db, ctx.org, agent) then Refused(db, out, AgentNotInOrg)
            else
              var c := db.customers[id].row.(assignedTo := agent);
              out == (db.(customers := db.customers[id := Owned(ctx.org, c)]), Ok(CustomerRow(id, c)))
  {
  }

  /** A delete takes the customer with its orders, notes and tag links, and nothing else. */
  lemma CustomerRemoved(db: Db, ctx: Ctx, input: Input, id: Id)
    ensures var (db1, reply) := Step(db, Call(ctx, input, CustomerRemove(id)));
            if !OwnedBy(db.customers, ctx.org, id) then Refused(db, (db1, reply), NotFound)
            else
              && reply == Ok(Done)
              && db1 == db.(customers := db1.customers, orders := db1.orders, notes := db1.notes, links := db1.links)
              && db1.customers == db.customers - {id}
              && db1.orders == (map o | o in db.orders && db.orders[o].row.customerId != id :: db.orders[o])
              && db1.notes == (map n | n in db.notes && db.notes[n].row.customerId != id :: db.notes[n])
              && db1.links == (set l | l in db.links && l.customerId != id)
  {
  }

  // --- orders -----------------------------------------------------------

  /** The money columns are the inputs to the nearest cent, and the total is that of the inputs, never negative. */
  predicate PricedAs(o: Order, amount: real, discount: real, shippingFee: real) {
    var x := amount * o.quantity as real - discount + shippingFee;
    && WithinHalfCent(o.amount, amount) && WithinHalfCent(o.discount, discount)
    && WithinHalfCent(o.shippingFee, shippingFee)
    && o.total >= 0 && (WithinHalfCent(o.total, x) || (o.total == 0 && x < 0.0))
  }

  lemma Priced(amount: real, quantity: int, discount: real, shippingFee: real, o: Order)
    requires o.quantity == quantity && o.total == ComputeTotal(amount, quantity, discount, shippingFee)
    requires WithinHalfCent(o.amount, amount) && WithinHalfCent(o.discount, discount)
    requires WithinHalfCent(o.shippingFee, shippingFee)
    ensures PricedAs(o, amount, discount, shippingFee)
  {
    RoundCentsIsNearest(amount * quantity as real - discount + shippingFee);
  }

  /** The order carries the number after `count` in the organization's series. */
  predicate NumberedAfter(o: Order, count: nat) { OrderNumbers.ParseNumber(o.orderNumber) == Some(count + 1) }

  /** What a created order holds of its input, with the defaults of the schema. */
  predicate HoldsOrder(o: Order, dto: O.CreateOrder, now: Millis) {
    && o.customerId == dto.customerId && o.productName == dto.productName && o.quantity == dto.quantity
    && PricedAs(o, dto.amount, dto.discount.GetOr(0.0), dto.shippingFee.GetOr(0.0))
    && Becomes(o.status, dto.status, OrderStatus.PENDING) && Becomes(o.paymentStatus, dto.paymentStatus, UNPAID)
    && o.notes == dto.notes && o.createdAt == now
  }

  lemma NewOrderHolds(dto: O.CreateOrder, number: string, now: Millis)
    ensures HoldsOrder(O.NewOrder(dto, number, now), dto, now) && O.NewOrder(dto, number, now).orderNumber == number
  {
    RoundCentsIsNearest(dto.amount);
    RoundCentsIsNearest(dto.discount.GetOr(0.0));
    RoundCentsIsNearest(dto.shippingFee.GetOr(0.0));
    hide RoundCents, WithinHalfCent, PricedAs, ComputeTotal;
    Priced(dto.amount, dto.quantity, dto.discount.GetOr(0.0), dto.shippingFee.GetOr(0.0), O.NewOrder(dto, number, now));
  }

  predicate HasNumber(t: Table<Order>, org: OrgId, number: string) {
    exists o :: o in t && t[o].org == org && t[o].row.orderNumber == number
  }

  /** A create for a known customer stores the next number, unless it is taken, with the input in its columns. */
  lemma OrderCreated(db: Db, ctx: Ctx, input: Input, dto: O.CreateOrder)
    ensures var (db1, reply) := Step(db, Call(ctx, input, OrderCreate(dto)));
            && (!OwnedBy(db.customers, ctx.org, dto.customerId) ==> Refused(db, (db1, reply), CustomerNotInOrg))
            && (OwnedBy(db.customers, ctx.org, dto.customerId) && reply.Err? ==>
                  && Refused(db, (db1, reply), UniqueViolation)
                  && exists number :: HasNumber(db.orders, ctx.org, number)
                                      && OrderNumbers.ParseNumber(number) == Some(|Scope(db.orders, ctx.org)| + 1))
            && (reply.Ok? ==>
                  && !HasNumber(db.orders, ctx.org, reply.value.order.orderNumber)
                  && reply.value.OrderRow? && reply.value.id == input.newId
                  && db1 == db.(orders := db.orders[input.newId := Owned(ctx.org, reply.value.order)])
                  && HoldsOrder(reply.value.order, dto, input.now)
                  && NumberedAfter(reply.value.order, |Scope(db.orders, ctx.org)|))
  {
    var number := O.NextOrderNumber(db.orders, ctx.org);
    NextNumberDecodes(db.orders, ctx.org);
    NewOrderHolds(dto, number, input.now);
    assert O.NumberTaken(db.orders, ctx.org, number) <==> HasNumber(db.orders, ctx.org, number);
    hide O.NewOrder, O.NextOrderNumber, O.NumberTaken, HoldsOrder, HasNumber, OrderNumbers.ParseNumber, PricedAs, Scope;
  }

  lemma NextNumberDecodes(t: Table<Order>, org: OrgId)
    ensures OrderNumbers.ParseNumber(O.NextOrderNumber(t, org)) == Some(|Scope(t, org)| + 1)
  {
    OrderNumbers.NumberDecodes(|Scope(t, org)| + 1);
    hide OrderNumbers.ParseNumber;
  }

  /** A money column after an update: rounded from the input, or what it was. */
  predicate MoneyBecomes(after: int, field: Option<real>, before: int) {
    (field.Some? ==> WithinHalfCent(after, field.value)) && (field.None? ==> after == before)
  }

  /** What an updated order holds of its patch and of what it was. */
  predicate HoldsPatch(after: Order, dto: O.UpdateOrder, before: Order) {
    && Becomes(after.customerId, dto.customerId, before.customerId) && after.orderNumber == before.orderNumber
    && Becomes(after.productName, dto.productName, before.productName)
    && Becomes(after.quantity, dto.quantity, before.quantity)
    && MoneyBecomes(after.amount, dto.amount, before.amount)
    && MoneyBecomes(after.discount, dto.discount, before.discount)
    && MoneyBecomes(after.shippingFee, dto.shippingFee, before.shippingFee)
    && PricedAs(after, dto.amount.GetOr(Units(before.amount)), dto.discount.GetOr(Units(before.discount)),
                dto.shippingFee.GetOr(Units(before.shippingFee)))
    && Becomes(after.status, dto.status, before.status)
    && Becomes(after.paymentStatus, dto.paymentStatus, before.paymentStatus)
    && Becomes(after.notes, dto.notes, before.notes) && after.createdAt == before.createdAt
  }

  lemma ColumnRounds(after: int, field: Option<real>, before: int)
    requires after == (if field.Some? then RoundCents(field.value) else before)
    ensures MoneyBecomes(after, field, before) && WithinHalfCent(after, field.GetOr(Units(before)))
  {
    if field.Some? { RoundCentsIsNearest(field.value); }
  }

  lemma MergeHolds(before: Order, dto: O.UpdateOrder)
    ensures HoldsPatch(O.Merge(before, dto), dto, before)
  {
    var after := O.Merge(before, dto);
    ColumnRounds(after.amount, dto.amount, before.amount);
    ColumnRounds(after.discount, dto.discount, before.discount);
    ColumnRounds(after.shippingFee, dto.shippingFee, before.shippingFee);
    hide RoundCents, WithinHalfCent, PricedAs, ComputeTotal, Units, MoneyBecomes;
    Priced(dto.amount.GetOr(Units(before.amount)), after.quantity, dto.discount.GetOr(Units(before.discount)),
           dto.shippingFee.GetOr(Units(before.shippingFee)), after);
  }

  predicate ShowsOrder(db: Db, reply: Result<Reply, Failure>, id: Id) {
    && reply.Ok? && reply.value.OrderFound? && id in db.orders
    && reply.value.orderCard.id == id && reply.value.orderCard.row == db.orders[id].row
  }

  lemma OrderUpdated(db: Db, ctx: Ctx, input: Input, id: Id, dto: O.UpdateOrder)
    ensures var (db1, reply) := Step(db, Call(ctx, input, OrderUpdate(id, dto)));
            if !OwnedBy(db.orders, ctx.org, id) then Refused(db, (db1, reply), NotFound)
            else if dto.customerId.Some? && !OwnedBy(db.customers, ctx.org, dto.customerId.value) then
              Refused(db, (db1, reply), CustomerNotInOrg)
            else
              && ShowsOrder(db1, reply, id) && HoldsPatch(db1.orders[id].row, dto, db.orders[id].row)
              && db1 == db.(orders := db.orders[id := Owned(ctx.org, db1.orders[id].row)])
  {
    if OwnedBy(db.orders, ctx.org, id) { MergeHolds(db.orders[id].row, dto); }
    hide O.Merge, HoldsPatch;
  }

  lemma OrderStatusChanged(db: Db, ctx: Ctx, input: Input, id: Id, status: OrderStatus)
    ensures var (db1, reply) := Step(db, Call(ctx, input, OrderChangeStatus(id, status)));
            if !OwnedBy(db.orders, ctx.org, id) then Refused(db, (db1, reply), NotFound)
            else
              && db1 == db.(orders := db.orders[id := Owned(ctx.org, db.orders[id].row.(status := status))])
              && ShowsOrder(db1, reply, id)
  {
  }

  lemma OrderRemoved(db: Db, ctx: Ctx, input: Input, id: Id)
    ensures var out := Step(db, Call(ctx, input, OrderRemove(id)));
            if !OwnedBy(db.orders, ctx.org, id) then Refused(db, out, NotFound)
            else out == (db.(orders := db.orders - {id}), Ok(Done))
  {
  }

  // --- notes ------------------------------------------------------------

  lemma NoteCreated(db: Db, ctx: Ctx, input: Input, customerId: Id, content: string)
    ensures var out := Step(db, Call(ctx, input, NoteCreate(customerId, content)));
            if !OwnedBy(db.customers, ctx.org, customerId) then Refused(db, out, CustomerNotInOrg)
            else if ctx.userId !in db.users then Refused(db, out, ForeignKeyViolation)
            else
              var note := Note(customerId, Some(ctx.userId), content, input.now);
              out == (db.(notes := db.notes[input.newId := Owned(ctx.org, note)]), Ok(NoteRow(input.newId, note)))
  {
  }

  lemma NoteUpdated(db: Db, ctx: Ctx, input: Input, id: Id, content: string)
    ensures var (db1, reply) := Step(db, Call(ctx, input, NoteUpdate(id, content)));
            if !OwnedBy(db.notes, ctx.org, id) then Refused(db, (db1, reply), NotFound)
            else
              var note := db.notes[id].row.(content := content);
              && db1 == db.(notes := db.notes[id := Owned(ctx.org, note)])
              && reply.Ok? && reply.value.NoteFound? && reply.value.noteCard.id == id
              && reply.value.noteCard.row == note
  {
  }

  lemma NoteRemoved(db: Db, ctx: Ctx, input: Input, id: Id)
    ensures var out := Step(db, Call(ctx, input, NoteRemove(id)));
            if !OwnedBy(db.notes, ctx.org, id) then Refused(db, out, NotFound)
            else out == (db.(notes := db.notes - {id}), Ok(Done))
  {
  }

  // --- tags -------------------------------------------------------------

  predicate HasTagNamed(tags: Table<Tag>, org: OrgId, name: string, except: Option<Id>) {
    exists t :: t in tags && tags[t].org == org && tags[t].row.name == name && Some(t) != except
  }

  lemma TagCreated(db: Db, ctx: Ctx, input: Input, name: string, color: Option<string>)
    ensures var out := Step(db, Call(ctx, input, TagCreate(name, color)));
            if HasTagNamed(db.tags, ctx.org, name, None) then Refused(db, out, UniqueViolation)
            else
              && out.1.Ok? && out.1.value.TagFound? && out.1.value.id == input.newId
              && out.0 == db.(tags := db.tags[input.newId := Owned(ctx.org, out.1.value.tag)])
              && out.1.value.tag.name == name && Becomes(out.1.value.tag.color, color, "#6366f1")
  {
    assert S.TagNameTaken(db.tags, ctx.org, name, None) <==> HasTagNamed(db.tags, ctx.org, name, None);
  }

  lemma TagUpdated(db: Db, ctx: Ctx, input: Input, id: Id, name: Option<string>, color: Option<string>)
    ensures var out := Step(db, Call(ctx, input, TagUpdate(id, name, color)));
            if !OwnedBy(db.tags, ctx.org, id) then Refused(db, out, NotFound)
            else
              var before := db.tags[id].row;
              if HasTagNamed(db.tags, ctx.org, name.GetOr(before.name), Some(id)) then
                Refused(db, out, UniqueViolation)
              else
                && out.1.Ok? && out.1.value.TagFound? && out.1.value.id == id
                && out.0 == db.(tags := db.tags[id := Owned(ctx.org, out.1.value.tag)])
                && Becomes(out.1.value.tag.name, name, before.name)
                && Becomes(out.1.value.tag.color, color, before.color)
  {
    if OwnedBy(db.tags, ctx.org, id) {
      var taken := name.GetOr(db.tags[id].row.name);
      assert S.TagNameTaken(db.tags, ctx.org, taken, Some(id)) <==> HasTagNamed(db.tags, ctx.org, taken, Some(id));
    }
  }

  lemma TagRemoved(db: Db, ctx: Ctx, input: Input, id: Id)
    ensures var out := Step(db, Call(ctx, input, TagRemove(id)));
            if !OwnedBy(db.tags, ctx.org, id) then Refused(db, out, NotFound)
            else
              && out == (db.(tags := db.tags - {id}, links := out.0.links), Ok(Done))
              && forall l :: l in out.0.links <==> l in db.links && l.tagId != id
  {
  }

  lemma TagPivotWritten(db: Db, ctx: Ctx, input: Input, tagId: Id, customerId: Id)
    ensures var out, link := Step(db, Call(ctx, input, TagAttach(tagId, customerId))), Link(customerId, tagId);
            if !OwnedBy(db.tags, ctx.org, tagId) then Refused(db, out, NotFound)
            else if !OwnedBy(db.customers, ctx.org, customerId) then Refused(db, out, CustomerNotInOrg)
            else out == (db.(links := db.links + {link}), Ok(Done))
    ensures var out, link := Step(db, Call(ctx, input, TagDetach(tagId, customerId))), Link(customerId, tagId);
            if !OwnedBy(db.tags, ctx.org, tagId) then Refused(db, out, NotFound)
            else out == (db.(links := db.links - {link}), Ok(Done))
  {
  }

  // --- users ------------------------------------------------------------

  /** The reply shows the user's row as it now stands, every column but the hash. */
  predicate ShowsUser(db: Db, reply: Result<Reply, Failure>, id: Id) {
    && reply.Ok? && reply.value.UserFound? && id in db.users
    && var u, shown := db.users[id].row, reply.value.user;
       shown == SafeUser(id, db.users[id].org, u.email, u.firstName, u.lastName, u.avatarUrl, u.role, u.isActive,
                         u.emailVerified, u.lastLoginAt)
  }

  lemma UserUpdated(db: Db, ctx: Ctx, input: Input, id: Id, first: Option<Option<string>>,
                    last: Option<Option<string>>, avatar: Option<Option<string>>)
    ensures var (db1, reply) := Step(db, Call(ctx, input, UserUpdate(id, first, last, avatar)));
            if !OwnedBy(db.users, ctx.org, id) then Refused(db, (db1, reply), NotFound)
            else
              && ShowsUser(db1, reply, id)
              && var before, after := db.users[id].row, db1.users[id].row;
                 && db1 == db.(users := db.users[id := Owned(ctx.org, after)])
                 && after == before.(firstName := after.firstName, lastName := after.lastName,
                                     avatarUrl := after.avatarUrl)
                 && Becomes(after.firstName, first, before.firstName) && Becomes(after.lastName, last, before.lastName)
                 && Becomes(after.avatarUrl, avatar, before.avatarUrl)
  {
  }

  lemma UserRoleChanged(db: Db, ctx: Ctx, input: Input, id: Id, role: Role)
    ensures var (db1, reply) := Step(db, Call(ctx, input, UserChangeRole(id, role)));
            if !OwnedBy(db.users, ctx.org, id) then Refused(db, (db1, reply), NotFound)
            else if role == OWNER && ctx.role != OWNER then Refused(db, (db1, reply), OwnerOnly)
            else
              && ShowsUser(db1, reply, id)
              && db1 == db.(users := db.users[id := Owned(ctx.org, db.users[id].row.(role := role))])
  {
  }

  // --- files ------------------------------------------------------------

  /** A pending row of the caller, under a key that reads back as organization, second and sanitised name. */
  lemma UploadPresigned(db: Db, ctx: Ctx, input: Input, filename: string, mimeType: string, size: nat)
    requires '/' !in ctx.org.uuid
    ensures var (db1, reply) := Step(db, Call(ctx, input, FilePresign(filename, mimeType, size)));
            var stamp, name := Decimal.Digits(input.now / 1000), ObjectKeys.Sanitize(filename);
            var parts := ObjectKeys.KeyParts(ctx.org.uuid, stamp, name);
            && (reply.Err? ==>
                  && Refused(db, (db1, reply), UniqueViolation)
                  && exists f :: f in db.files && ObjectKeys.ParseKey(db.files[f].row.key) == Some(parts))
            && (reply.Ok? ==>
                  && reply.value.FileFound? && reply.value.id == input.newId
                  && var file := reply.value.file;
                     && file == File(Some(ctx.userId), file.key, filename, mimeType, size, FileStatus.PENDING)
                     && ObjectKeys.ParseKey(file.key) == Some(parts)
                     && db1 == db.(files := db.files[input.newId := Owned(ctx.org, file)])
                     && forall f :: f in db.files ==> db.files[f].row.key != file.key)
  {
    ObjectKeys.KeyDecodes(ctx.org, filename, input.now);
    hide ObjectKeys.BuildKey, ObjectKeys.ParseKey, ObjectKeys.Sanitize, Decimal.Digits;
  }

  lemma UploadConfirmed(db: Db, ctx: Ctx, input: Input, key: string)
    ensures var (db1, reply) := Step(db, Call(ctx, input, FileConfirm(key)));
            && (reply.Err? <==> forall f :: f in db.files ==> db.files[f].org != ctx.org || db.files[f].row.key != key)
            && (reply.Err? ==> Refused(db, (db1, reply), NotFound))
            && (reply.Ok? ==>
                  && reply.value.FileFound? && OwnedBy(db.files, ctx.org, reply.value.id)
                  && db.files[reply.value.id].row.key == key
                  && reply.value.file == db.files[reply.value.id].row.(status := UPLOADED)
                  && db1 == db.(files := db.files[reply.value.id := Owned(ctx.org, reply.value.file)]))
  {
    assert S.FindByKey(db.files, ctx.org, key).None?
        <==> forall f :: f in db.files ==> db.files[f].org != ctx.org || db.files[f].row.key != key;
    hide S.FindByKey;
  }

  lemma FileRemoved(db: Db, ctx: Ctx, input: Input, id: Id)
    ensures var out := Step(db, Call(ctx, input, FileRemove(id)));
            if !OwnedBy(db.files, ctx.org, id) then Refused(db, out, NotFound)
            else out == (db.(files := db.files - {id}), Ok(Done))
  {
  }

  // --- the extension ----------------------------------------------------

  predicate Contact(t: Table<Customer>, org: OrgId, facebookId: string, c: Id) {
    c in t && t[c].org == org && t[c].row.facebookId == Some(facebookId)
  }

  /** A customer that the extension is the first to mention. */
  function Newcomer(facebookId: string, name: string, profileUrl: Option<string>, message: Option<string>,
                    contacted: Option<Millis>, now: Millis): Customer {
    Customer(name, Some(name), Some(facebookId), profileUrl, None, None, None, CustomerStatus.NEW, Some("extension"),
             message, None, contacted, now)
  }

  /** A sync creates the customer that it is the first to mention. */
  lemma NewcomerSynced(db: Db, ctx: Ctx, input: Input, sync: C.SyncCustomer)
    requires forall k :: k in db.customers ==> !Contact(db.customers, ctx.org, sync.facebookId, k)
    ensures var row := Newcomer(sync.facebookId, sync.facebookName, sync.profileUrl, sync.lastMessage, Some(input.now),
                                input.now);
            Step(db, Call(ctx, input, ExtensionSync(sync)))
            == (db.(customers := db.customers[input.newId := Owned(ctx.org, row)]), Ok(CustomerRow(input.newId, row)))
  {
    var found := C.FindByFacebookId(db.customers, ctx.org, sync.facebookId);
    assert found.None?;
    hide C.FindByFacebookId;
  }

  /** Of a customer that exists it writes the live fields and nothing else. */
  lemma ContactSynced(db: Db, ctx: Ctx, input: Input, sync: C.SyncCustomer, c: Id)
    requires FacebookIdsUnique(db.customers) && Contact(db.customers, ctx.org, sync.facebookId, c)
    ensures var out, before := Step(db, Call(ctx, input, ExtensionSync(sync))), db.customers[c].row;
            && out.1.Ok? && out.1.value.CustomerRow? && out.1.value.id == c
            && var after := out.1.value.customer;
               && out.0 == db.(customers := db.customers[c := Owned(ctx.org, after)])
               && after == before.(facebookName := Some(sync.facebookName), profileUrl := after.profileUrl,
                                   lastMessage := after.lastMessage, lastContactedAt := Some(input.now))
               && after.profileUrl == (if sync.profileUrl.Some? then sync.profileUrl else before.profileUrl)
               && after.lastMessage == (if sync.lastMessage.Some? then sync.lastMessage else before.lastMessage)
  {
    assert C.FindByFacebookId(db.customers, ctx.org, sync.facebookId) == Some(c) by {
      assert C.HasFacebookId(db.customers, ctx.org, sync.facebookId, c);
    }
    hide C.FindByFacebookId;
  }

  /** The customer that an extension request is about: the contact, or a newcomer under its bare facebookId. */
  ghost predicate Resolves(db: Db, db0: Db, ctx: Ctx, input: Input, facebookId: string, c: Id) {
    || (db0 == db && Contact(db.customers, ctx.org, facebookId, c))
    || (&& c == input.newId
        && (forall k :: k in db.customers ==> !Contact(db.customers, ctx.org, facebookId, k))
        && var row := Newcomer(facebookId, facebookId, None, None, None, input.now);
           db0 == db.(customers := db.customers[c := Owned(ctx.org, row)]))
  }

  lemma ContactResolved(db: Db, ctx: Ctx, input: Input, facebookId: string)
    ensures var (db0, c) := S.ResolveCustomer(db, ctx, input, facebookId); Resolves(db, db0, ctx, input, facebookId, c)
  {
    assert forall k :: k in db.customers ==>
        (Contact(db.customers, ctx.org, facebookId, k) <==> C.HasFacebookId(db.customers, ctx.org, facebookId, k));
    hide C.FindByFacebookId;
  }

  /** An extension note lands on that customer, written by the caller. */
  lemma ExtensionNoteWritten(db: Db, ctx: Ctx, input: Input, facebookId: string, content: string)
    ensures var (db1, reply) := Step(db, Call(ctx, input, ExtensionNote(facebookId, content)));
            exists db0, c ::
              && Resolves(db, db0, ctx, input, facebookId, c)
              && var note := Note(c, Some(ctx.userId), content, input.now);
                 (db1, reply)
                 == if ctx.userId in db.users
                    then (db0.(notes := db.notes[input.newId := Owned(ctx.org, note)]), Ok(NoteRow(input.newId, note)))
                    else (db0, Err(ForeignKeyViolation))
  {
    var (db0, c) := S.ResolveCustomer(db, ctx, input, facebookId);
    ContactResolved(db, ctx, input, facebookId);
    hide S.ResolveCustomer;
    assert Resolves(db, db0, ctx, input, facebookId, c);
  }

  /** An extension order is one order of that customer, of one piece unless the quantity says otherwise. */
  lemma ExtensionOrderWritten(db: Db, ctx: Ctx, input: Input, facebookId: string, productName: string,
                              quantity: Option<int>, amount: real)
    ensures var (db1, reply) := Step(db, Call(ctx, input, ExtensionOrder(facebookId, productName, quantity, amount)));
            exists db0, c ::
              && Resolves(db, db0, ctx, input, facebookId, c)
              && (reply.Err? ==> Refused(db0, (db1, reply), UniqueViolation))
              && (reply.Ok? ==>
                    && reply.value.OrderRow? && reply.value.id == input.newId
                    && var o := reply.value.order;
                       && db1 == db0.(orders := db.orders[input.newId := Owned(ctx.org, o)])
                       && o.customerId == c && o.productName == productName && Becomes(o.quantity, quantity, 1)
                       && PricedAs(o, amount, 0.0, 0.0) && o.status == OrderStatus.PENDING
                       && o.paymentStatus == UNPAID && o.notes.None? && o.createdAt == input.now
                       && NumberedAfter(o, |Scope(db.orders, ctx.org)|))
  {
    var (db0, c) := S.ResolveCustomer(db, ctx, input, facebookId);
    ContactResolved(db, ctx, input, facebookId);
    var dto := O.CreateOrder(c, productName, quantity.GetOr(1), amount, None, None, None, None, None);
    NewOrderHolds(dto, O.NextOrderNumber(db.orders, ctx.org), input.now);
    NextNumberDecodes(db.orders, ctx.org);
    hide S.ResolveCustomer, O.NewOrder, O.NextOrderNumber, O.NumberTaken, OrderNumbers.ParseNumber, PricedAs, Scope;
    assert Resolves(db, db0, ctx, input, facebookId, c);
    assert OwnedBy(db0.customers, ctx.org, c);
  }

  // --- reads ------------------------------------------------------------

  /** The criteria that a customer must meet to be listed. */
  predicate Listed(db: Db, org: OrgId, filter: C.CustomerFilter, id: Id) {
    && OwnedBy(db.customers, org, id)
    && var c := db.customers[id].row;
       && (filter.status.Some? ==> c.status == filter.status.value)
       && (filter.assignedTo.Some? ==> c.assignedTo == filter.assignedTo)
       && (filter.source.GetOr("") != "" ==> c.source == filter.source)
       && (filter.tagId.Some? ==> Link(id, filter.tagId.value) in db.links)
  }

  /** A list holds exactly the organization's rows that meet the criteria, each under its id. */
  lemma CustomersRead(db: Db, ctx: Ctx, input: Input, filter: C.CustomerFilter, id: Id)
    ensures var (db1, reply) := Step(db, Call(ctx, input, CustomerFindAll(filter)));
            && db1 == db && reply.Ok? && reply.value.Customers?
            && (id in reply.value.cards <==> Listed(db, ctx.org, filter, id))
            && (id in reply.value.cards ==> ShowsCustomer(db, Ok(CustomerFound(reply.value.cards[id])), id))
    ensures var (db1, reply) := Step(db, Call(ctx, input, CustomerFindOne(id)));
            if OwnedBy(db.customers, ctx.org, id) then db1 == db && ShowsCustomer(db, reply, id)
            else Refused(db, (db1, reply), NotFound)
  {
    hide OrdersOf, NotesOf, TagsOf, Agent;
  }

  lemma OrdersRead(db: Db, ctx: Ctx, input: Input, filter: O.OrderFilter, id: Id)
    ensures var (db1, reply) := Step(db, Call(ctx, input, OrderFindAll(filter)));
            && db1 == db && reply.Ok? && reply.value.Orders?
            && (id in reply.value.orderCards <==>
                && OwnedBy(db.orders, ctx.org, id)
                && var o := db.orders[id].row;
                   && (filter.status.Some? ==> o.status == filter.status.value)
                   && (filter.paymentStatus.Some? ==> o.paymentStatus == filter.paymentStatus.value)
                   && (filter.customerId.Some? ==> o.customerId == filter.customerId.value))
            && (id in reply.value.orderCards ==> ShowsOrder(db, Ok(OrderFound(reply.value.orderCards[id])), id))
    ensures var (db1, reply) := Step(db, Call(ctx, input, OrderFindOne(id)));
            if OwnedBy(db.orders, ctx.org, id) then db1 == db && ShowsOrder(db, reply, id)
            else Refused(db, (db1, reply), NotFound)
  {
  }

  lemma NotesRead(db: Db, ctx: Ctx, input: Input, customerId: Id, id: Id)
    ensures var (db1, reply) := Step(db, Call(ctx, input, NoteList(customerId)));
            && db1 == db && reply.Ok? && reply.value.Notes?
            && (id in reply.value.noteCards <==>
                OwnedBy(db.notes, ctx.org, id) && db.notes[id].row.customerId == customerId)
            && (id in reply.value.noteCards ==>
                  reply.value.noteCards[id].id == id && reply.value.noteCards[id].row == db.notes[id].row)
  {
  }

  lemma TagsAndFilesRead(db: Db, ctx: Ctx, input: Input, id: Id)
    ensures var (db1, reply) := Step(db, Call(ctx, input, TagList));
            && db1 == db && reply.Ok? && reply.value.Tags?
            && (id in reply.value.tags <==> OwnedBy(db.tags, ctx.org, id))
            && (id in reply.value.tags ==> reply.value.tags[id] == db.tags[id])
    ensures Step(db, Call(ctx, input, FileFind(id)))
            == (db, if OwnedBy(db.files, ctx.org, id) then Ok(FileFound(id, db.files[id].row)) else Err(NotFound))
  {
  }

  lemma UsersRead(db: Db, ctx: Ctx, input: Input, id: Id)
    ensures var (db1, reply) := Step(db, Call(ctx, input, UserList));
            && db1 == db && reply.Ok? && reply.value.Users?
            && (id in reply.value.users <==> OwnedBy(db.users, ctx.org, id))
            && (id in reply.value.users ==> ShowsUser(db, Ok(UserFound(reply.value.users[id])), id))
    ensures var (db1, reply) := Step(db, Call(ctx, input, UserFind(id)));
            if OwnedBy(db.users, ctx.org, id) then db1 == db && ShowsUser(db, reply, id)
            else Refused(db, (db1, reply), NotFound)
  {
  }

  /** The tags on a card are the rows of the tags it is linked to. */
  lemma TagsOnCard(db: Db, id: Id, tag: Id)
    requires id in db.customers
    ensures tag in CardOf(db, id).tags <==> tag in db.tags && Link(id, tag) in db.links
    ensures tag in CardOf(db, id).tags ==> CardOf(db, id).tags[tag] == db.tags[tag].row
  {
  }
}
