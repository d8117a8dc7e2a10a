// OrderService and OrderRepository, one request at a time.
module OrderSpec {
  import opened Wrappers
  import opened Tables
  import opened Schema
  import opened Crm
  import opened Money
  import Decimal

  // Money inputs are exact reals, with any number of decimals.
  datatype CreateOrder = CreateOrder(
    customerId: Id, productName: string, quantity: int, amount: real, discount: Option<real>,
    shippingFee: Option<real>, status: Option<OrderStatus>, paymentStatus: Option<PaymentStatus>,
    notes: Option<string>)

  datatype UpdateOrder = UpdateOrder(
    customerId: Option<Id>, productName: Option<string>, quantity: Option<int>, amount: Option<real>,
    discount: Option<real>, shippingFee: Option<real>, status: Option<OrderStatus>,
    paymentStatus: Option<PaymentStatus>, notes: Option<Option<string>>)

  datatype OrderFilter = OrderFilter(
    status: Option<OrderStatus>, paymentStatus: Option<PaymentStatus>, customerId: Option<Id>)

  /** `ORD-${String(n).padStart(5, '0')}` */
  function FormatNumber(n: nat): string { "ORD-" + Decimal.PadStart(Decimal.Digits(n), 5) }

  function CountOf(orders: Table<Order>, org: OrgId): nat { |Scope(orders, org)| }

  function NextOrderNumber(orders: Table<Order>, org: OrgId): string { FormatNumber(CountOf(orders, org) + 1) }

  /** The unique index (organization_id, order_number). */
  predicate NumberTaken(orders: Table<Order>, org: OrgId, number: string) {
    exists id :: id in orders && orders[id].org == org && orders[id].row.orderNumber == number
  }

  function NewOrder(dto: CreateOrder, orderNumber: string, now: Millis): Order {
    var discount, shippingFee := dto.discount.GetOr(0.0), dto.shippingFee.GetOr(0.0);
    Order(dto.customerId, orderNumber, dto.productName, dto.quantity,
          RoundCents(dto.amount), RoundCents(discount), RoundCents(shippingFee),
          ComputeTotal(dto.amount, dto.quantity, discount, shippingFee),
          dto.status.GetOr(OrderStatus.PENDING), dto.paymentStatus.GetOr(UNPAID), dto.notes, now)
  }

  function Create(db: Db, ctx: Ctx, input: Input, dto: CreateOrder): (r: Outcome)
    ensures r.0 == db.(orders := r.0.orders)
  {
    if !OwnedBy(db.customers, ctx.org, dto.customerId) then (db, Err(CustomerNotInOrg))
    else
      var number := NextOrderNumber(db.orders, ctx.org);
      if NumberTaken(db.orders, ctx.org, number) then (db, Err(UniqueViolation))
      else
        var row := NewOrder(dto, number, input.now);
        (db.(orders := Insert(db.orders, ctx.org, input.newId, row)), Ok(OrderRow(input.newId, row)))
  }

  predicate Matches(o: Order, filter: OrderFilter) {
    && (filter.status.Some? ==> o.status == filter.status.value)
    && (filter.paymentStatus.Some? ==> o.paymentStatus == filter.paymentStatus.value)
    && (filter.customerId.Some? ==> o.customerId == filter.customerId.value)
  }

  function Listing(db: Db, org: OrgId, filter: OrderFilter): map<Id, OrderCard> {
    map id | id in db.orders && db.orders[id].org == org && Matches(db.orders[id].row, filter) :: OrderCardOf(db, id)
  }

  function FindAll(db: Db, ctx: Ctx, filter: OrderFilter): Outcome {
    (db, Ok(Orders(Listing(db, ctx.org, filter))))
  }

  function FindOne(db: Db, ctx: Ctx, id: Id): Outcome {
    if FindFirst(db.orders, ctx.org, id).None? then (db, Err(NotFound))
    else (db, Ok(OrderFound(OrderCardOf(db, id))))
  }

  /** Merge the DTO into the row; the total is recomputed on every update. */
  function Merge(o: Order, dto: UpdateOrder): Order {
    var amount, quantity := Keep(dto.amount, Units(o.amount)), Keep(dto.quantity, o.quantity);
    var discount, shippingFee := Keep(dto.discount, Units(o.discount)), Keep(dto.shippingFee, Units(o.shippingFee));
    Order(Keep(dto.customerId, o.customerId), o.orderNumber, Keep(dto.productName, o.productName), quantity,
          if dto.amount.Some? then RoundCents(dto.amount.value) else o.amount,
          if dto.discount.Some? then RoundCents(dto.discount.value) else o.discount,
          if dto.shippingFee.Some? then RoundCents(dto.shippingFee.value) else o.shippingFee,
          ComputeTotal(amount, quantity, discount, shippingFee),
          Keep(dto.status, o.status), Keep(dto.paymentStatus, o.paymentStatus), Keep(dto.notes, o.notes), o.createdAt)
  }

  function Update(db: Db, ctx: Ctx, id: Id, dto: UpdateOrder): (r: Outcome)
    ensures r.0 == db.(orders := r.0.orders)
  {
    var found := FindFirst(db.orders, ctx.org, id);
    if found.None? then (db, Err(NotFound))
    else if dto.customerId.Some? && !OwnedBy(db.customers, ctx.org, dto.customerId.value)
    then (db, Err(CustomerNotInOrg))
    else FindOne(db.(orders := UpdateMany(db.orders, ctx.org, id, Merge(found.value, dto))), ctx, id)
  }

  function ChangeStatus(db: Db, ctx: Ctx, id: Id, status: OrderStatus): (r: Outcome)
    ensures r.0 == db.(orders := r.0.orders)
  {
    var found := FindFirst(db.orders, ctx.org, id);
    if found.None? then (db, Err(NotFound))
    else FindOne(db.(orders := UpdateMany(db.orders, ctx.org, id, found.value.(status := status))), ctx, id)
  }

  function Remove(db: Db, ctx: Ctx, id: Id): (r: Outcome)
    ensures r.0 == db.(orders := r.0.orders)
  {
    if FindFirst(db.orders, ctx.org, id).None? then (db, Err(NotFound))
    else (db.(orders := DeleteMany(db.orders, ctx.org, id)), Ok(Done))
  }
}
