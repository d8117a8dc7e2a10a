// What every run keeps true of the stored orders: their totals and their numbers.
module OrderLedger {
  import opened Wrappers
  import opened Tables
  import opened Schema
  import opened Crm
  import opened Money
  import opened OrderSpec
  import opened Tenancy
  import Consistency
  import Purge
  import Decimal
  import CustomerSpec
  import S = StoreSpec

  // --- where a stored order comes from ----------------------------------

  function ExtensionDto(customerId: Id, r: Request): CreateOrder
    requires r.ExtensionOrder?
  {
    CreateOrder(customerId, r.productName, r.quantity.GetOr(1), r.amount, None, None, None, None, None)
  }

  /** The row was there before, or this very request wrote it. */
  ghost predicate HasOrigin(db: Db, call: Call, o: Id, after: Owned<Order>) {
    var r, number := call.request, NextOrderNumber(db.orders, call.ctx.org);
    || (o in db.orders && after == db.orders[o])
    || (r.OrderCreate? && o == call.input.newId
        && after == Owned(call.ctx.org, NewOrder(r.newOrder, number, call.input.now)))
    || (r.ExtensionOrder? && o == call.input.newId
        && exists c :: after == Owned(call.ctx.org, NewOrder(ExtensionDto(c, r), number, call.input.now)))
    || (r.OrderUpdate? && o in db.orders && after == Owned(db.orders[o].org, Merge(db.orders[o].row, r.orderPatch)))
    || (r.OrderChangeStatus? && o in db.orders
        && after == Owned(db.orders[o].org, db.orders[o].row.(status := r.orderStatus)))
  }

  predicate WritesOrders(r: Request) {
    r.OrderCreate? || r.OrderUpdate? || r.OrderChangeStatus? || r.OrderRemove? || r.CustomerRemove? || r.ExtensionOrder?
  }

  lemma OtherRequestsLeaveOrders(db: Db, call: Call)
    requires !WritesOrders(call.request)
    ensures Step(db, call).0.orders == db.orders
  {
    if Purge.OnlyReads(call.request) {
      Purge.ReadsChangeNothing(db, call);
      hide Step;
    } else {
      hide Step;
      if AboutCustomers(call.request) { CustomerRequestsLeaveOrders(db, call); }
      else if AboutTagsOrUsers(call.request) { TagAndUserRequestsLeaveOrders(db, call); }
      else { NotesAndFilesLeaveOrders(db, call); }
    }
  }

  lemma CustomerRequestsLeaveOrders(db: Db, call: Call)
    requires AboutCustomers(call.request) && !WritesOrders(call.request) && !Purge.OnlyReads(call.request)
    ensures Step(db, call).0.orders == db.orders
  {
    hide CustomerSpec.Create, CustomerSpec.Update, CustomerSpec.ChangeStatus, CustomerSpec.Assign;
  }

  lemma TagAndUserRequestsLeaveOrders(db: Db, call: Call)
    requires AboutTagsOrUsers(call.request) && !Purge.OnlyReads(call.request)
    ensures Step(db, call).0.orders == db.orders
  {
    hide S.CreateTag, S.UpdateTag, S.RemoveTag, S.AttachTag, S.DetachTag, S.UpdateUser, S.ChangeUserRole;
  }

  lemma NotesAndFilesLeaveOrders(db: Db, call: Call)
    requires AboutOrdersOrNotes(call.request) || AboutFilesOrMessenger(call.request)
    requires !WritesOrders(call.request) && !Purge.OnlyReads(call.request)
    ensures Step(db, call).0.orders == db.orders
  {
    hide S.CreateNote, S.UpdateNote, S.RemoveNote, S.PresignUpload, S.ConfirmUpload, S.RemoveFile, S.SyncCustomer,
      S.AddNote;
  }

  lemma ExtensionOrderHasOrigin(db: Db, call: Call)
    requires call.request.ExtensionOrder?
    ensures forall o :: o in Step(db, call).0.orders ==> HasOrigin(db, call, o, Step(db, call).0.orders[o])
  {
    hide NextOrderNumber, NumberTaken, NewOrder, S.ResolveCustomer;
    var (db1, c) := S.ResolveCustomer(db, call.ctx, call.input, call.request.facebookId);
    var number := NextOrderNumber(db.orders, call.ctx.org);
    forall o | o in Step(db, call).0.orders ensures HasOrigin(db, call, o, Step(db, call).0.orders[o]) {
      if o !in db.orders || Step(db, call).0.orders[o] != db.orders[o] {
        assert Step(db, call).0.orders[o]
            == Owned(call.ctx.org, NewOrder(ExtensionDto(c, call.request), number, call.input.now));
      }
    }
  }

  lemma WriteHasOrigin(db: Db, call: Call)
    requires call.request.OrderCreate? || call.request.OrderUpdate? || call.request.OrderChangeStatus?
    ensures forall o :: o in Step(db, call).0.orders ==> HasOrigin(db, call, o, Step(db, call).0.orders[o])
  {
    hide NextOrderNumber, NumberTaken, NewOrder, Merge, OrderCardOf;
  }

  lemma DeleteHasOrigin(db: Db, call: Call)
    requires call.request.OrderRemove? || call.request.CustomerRemove?
    ensures forall o :: o in Step(db, call).0.orders ==> HasOrigin(db, call, o, Step(db, call).0.orders[o])
  {
    hide OrdersOf, NotesOf;
  }

  lemma OrdersHaveOrigin(db: Db, call: Call)
    ensures forall o :: o in Step(db, call).0.orders ==> HasOrigin(db, call, o, Step(db, call).0.orders[o])
  {
    hide Step;
    var r := call.request;
    if !WritesOrders(r) {
      OtherRequestsLeaveOrders(db, call);
    } else if r.ExtensionOrder? {
      ExtensionOrderHasOrigin(db, call);
    } else if r.OrderRemove? || r.CustomerRemove? {
      DeleteHasOrigin(db, call);
    } else {
      WriteHasOrigin(db, call);
    }
  }

  // --- totals -----------------------------------------------------------

  function FormulaOf(o: Order): int { Formula(o.amount, o.quantity, o.discount, o.shippingFee) }

  /** The stored total is not negative and within (|quantity| + 3)/2 cents of the formula on the stored fields. */
  predicate NearFormula(o: Order) { o.total >= 0 && 2 * Abs(o.total - FormulaOf(o)) <= Abs(o.quantity) + 3 }

  /** What the DTO validators admit, and the sharp bound it earns. */
  predicate Sound(o: Order) {
    && o.quantity >= 1 && o.amount >= 0 && o.discount >= 0 && o.shippingFee >= 0
    && Abs(o.total - FormulaOf(o)) <= o.quantity / 2 + 1
  }

  predicate Exact(o: Order) { o.total == FormulaOf(o) }

  predicate WholeCents(x: real) { x == Units(RoundCents(x)) }

  // The money a row was computed from: every stored field is its rounding.
  predicate ComputedFrom(amount: real, quantity: int, discount: real, shippingFee: real, o: Order) {
    && o.quantity == quantity && o.amount == RoundCents(amount) && o.discount == RoundCents(discount)
    && o.shippingFee == RoundCents(shippingFee) && o.total == ComputeTotal(amount, quantity, discount, shippingFee)
  }

  /** Some money inputs, at the row's own quantity, give exactly this row. */
  ghost predicate Computed(o: Order) {
    exists amount, discount, shippingFee :: ComputedFrom(amount, o.quantity, discount, shippingFee, o)
  }

  lemma ComputedIsNear(amount: real, quantity: int, discount: real, shippingFee: real, o: Order)
    requires ComputedFrom(amount, quantity, discount, shippingFee, o)
    ensures NearFormula(o)
  {
    hide RoundCents, Formula, WithinHalfCent;
    RoundCentsIsNearest(amount);
    RoundCentsIsNearest(discount);
    RoundCentsIsNearest(shippingFee);
    var x := amount * quantity as real - discount + shippingFee;
    RoundCentsIsNearest(x);
    DriftBound(amount, quantity, discount, shippingFee, o.amount, o.discount, o.shippingFee, RoundCents(x));
    assert o.total == Max(0, RoundCents(x)) && o.quantity == quantity;
  }

  lemma ComputedIsSound(amount: real, quantity: int, discount: real, shippingFee: real, o: Order)
    requires ComputedFrom(amount, quantity, discount, shippingFee, o)
    requires quantity >= 1 && amount >= 0.0 && discount >= 0.0 && shippingFee >= 0.0
    ensures Sound(o)
  {
    NonNegativeRounds(amount);
    NonNegativeRounds(discount);
    NonNegativeRounds(shippingFee);
    SharpDriftBound(amount, quantity, discount, shippingFee);
    hide RoundCents, Formula, ComputeTotal;
  }

  lemma ComputedIsExact(amount: real, quantity: int, discount: real, shippingFee: real, o: Order)
    requires ComputedFrom(amount, quantity, discount, shippingFee, o)
    requires WholeCents(amount) && WholeCents(discount) && WholeCents(shippingFee)
    ensures Exact(o)
  {
    ExactTotal(o.amount, quantity, o.discount, o.shippingFee);
    hide RoundCents, Formula, ComputeTotal, Units;
  }

  lemma ComputedTotals(amount: real, quantity: int, discount: real, shippingFee: real, o: Order)
    requires ComputedFrom(amount, quantity, discount, shippingFee, o)
    ensures NearFormula(o)
    ensures quantity >= 1 && amount >= 0.0 && discount >= 0.0 && shippingFee >= 0.0 ==> Sound(o)
    ensures WholeCents(amount) && WholeCents(discount) && WholeCents(shippingFee) ==> Exact(o)
  {
    hide ComputedFrom, NearFormula, Sound, Exact, WholeCents;
    ComputedIsNear(amount, quantity, discount, shippingFee, o);
    if quantity >= 1 && amount >= 0.0 && discount >= 0.0 && shippingFee >= 0.0 {
      ComputedIsSound(amount, quantity, discount, shippingFee, o);
    }
    if WholeCents(amount) && WholeCents(discount) && WholeCents(shippingFee) {
      ComputedIsExact(amount, quantity, discount, shippingFee, o);
    }
  }

  /** Each money field of the DTO that is present satisfies p; so does the quantity. */
  predicate NonNegativeDto(r: Request) {
    match r
    case OrderCreate(dto) =>
      dto.quantity >= 1 && dto.amount >= 0.0 && dto.discount.GetOr(0.0) >= 0.0 && dto.shippingFee.GetOr(0.0) >= 0.0
    case OrderUpdate(_, dto) =>
      dto.quantity.GetOr(1) >= 1 && dto.amount.GetOr(0.0) >= 0.0 && dto.discount.GetOr(0.0) >= 0.0
      && dto.shippingFee.GetOr(0.0) >= 0.0
    case ExtensionOrder(_, _, quantity, amount) => quantity.GetOr(1) >= 1 && amount >= 0.0
    case _ => true
  }

  predicate WholeCentDto(r: Request) {
    match r
    case OrderCreate(dto) =>
      WholeCents(dto.amount) && WholeCents(dto.discount.GetOr(0.0)) && WholeCents(dto.shippingFee.GetOr(0.0))
    case OrderUpdate(_, dto) =>
      WholeCents(dto.amount.GetOr(0.0)) && WholeCents(dto.discount.GetOr(0.0)) && WholeCents(dto.shippingFee.GetOr(0.0))
    case ExtensionOrder(_, _, _, amount) => WholeCents(amount)
    case _ => true
  }

  lemma NewOrderTotals(dto: CreateOrder, number: string, now: Millis)
    ensures NearFormula(NewOrder(dto, number, now))
    ensures NonNegativeDto(OrderCreate(dto)) ==> Sound(NewOrder(dto, number, now))
    ensures WholeCentDto(OrderCreate(dto)) ==> Exact(NewOrder(dto, number, now))
  {
    ComputedTotals(dto.amount, dto.quantity, dto.discount.GetOr(0.0), dto.shippingFee.GetOr(0.0),
                   NewOrder(dto, number, now));
  }

  lemma KeptColumn(c: int)
    ensures RoundCents(Units(c)) == c && WholeCents(Units(c)) && (c >= 0 ==> Units(c) >= 0.0)
  {
    RoundCentsExact(c);
  }

  lemma NonNegativeRounds(x: real)
    requires x >= 0.0
    ensures RoundCents(x) >= 0
  {
  }

  lemma MergeTotals(id: Id, o: Order, dto: UpdateOrder)
    ensures NearFormula(Merge(o, dto))
    ensures Sound(o) && NonNegativeDto(OrderUpdate(id, dto)) ==> Sound(Merge(o, dto))
    ensures WholeCentDto(OrderUpdate(id, dto)) ==> Exact(Merge(o, dto))
  {
    KeptColumn(o.amount);
    KeptColumn(o.discount);
    KeptColumn(o.shippingFee);
    hide RoundCents, Units, NearFormula, Exact;
    ComputedTotals(Keep(dto.amount, Units(o.amount)), Keep(dto.quantity, o.quantity),
                   Keep(dto.discount, Units(o.discount)), Keep(dto.shippingFee, Units(o.shippingFee)), Merge(o, dto));
  }

  /** An update that names no money field puts the total back on the formula, whatever the row held, for good. */
  lemma UpdateRestoresFormula(o: Order, dto: UpdateOrder)
    requires dto.amount.None? && dto.discount.None? && dto.shippingFee.None?
    ensures Exact(Merge(o, dto))
    ensures Merge(Merge(o, dto), dto).total == Merge(o, dto).total
  {
    ExactTotal(o.amount, Keep(dto.quantity, o.quantity), o.discount, o.shippingFee);
  }

  predicate AllNear(t: Table<Order>) { forall o :: o in t ==> NearFormula(t[o].row) }

  predicate AllSound(t: Table<Order>) { forall o :: o in t ==> Sound(t[o].row) }

  predicate AllExact(t: Table<Order>) { forall o :: o in t ==> Exact(t[o].row) }

  lemma OriginTotals(db: Db, call: Call, o: Id, after: Owned<Order>)
    requires HasOrigin(db, call, o, after)
    ensures AllNear(db.orders) ==> NearFormula(after.row)
    ensures AllSound(db.orders) && NonNegativeDto(call.request) ==> Sound(after.row)
    ensures AllExact(db.orders) && WholeCentDto(call.request) ==> Exact(after.row)
  {
    hide NewOrder, Merge, RoundCents, Units, Formula;
    var r, number := call.request, NextOrderNumber(db.orders, call.ctx.org);
    match r
    case OrderCreate(dto) => NewOrderTotals(dto, number, call.input.now);
    case ExtensionOrder(_, _, _, _) =>
      forall c {
        NewOrderTotals(ExtensionDto(c, r), number, call.input.now);
      }
      ZeroIsWholeCents();
    case OrderUpdate(id, dto) => if o in db.orders { MergeTotals(id, db.orders[o].row, dto); }
    case _ =>
  }

  lemma ZeroIsWholeCents()
    ensures WholeCents(0.0)
  {
  }

  lemma StepKeepsTotals(db: Db, call: Call)
    ensures AllNear(db.orders) ==> AllNear(Step(db, call).0.orders)
    ensures AllSound(db.orders) && NonNegativeDto(call.request) ==> AllSound(Step(db, call).0.orders)
    ensures AllExact(db.orders) && WholeCentDto(call.request) ==> AllExact(Step(db, call).0.orders)
  {
    hide Step, HasOrigin, NearFormula, Sound, Exact, NonNegativeDto, WholeCentDto;
    OrdersHaveOrigin(db, call);
    forall o | o in Step(db, call).0.orders
      ensures AllNear(db.orders) ==> NearFormula(Step(db, call).0.orders[o].row)
      ensures AllSound(db.orders) && NonNegativeDto(call.request) ==> Sound(Step(db, call).0.orders[o].row)
      ensures AllExact(db.orders) && WholeCentDto(call.request) ==> Exact(Step(db, call).0.orders[o].row)
    {
      OriginTotals(db, call, o, Step(db, call).0.orders[o]);
    }
  }

  /**
   * Over every run: stored totals stay within the drift bound; within the sharp bound when every
   * DTO passes its validators; and exact when every amount is in whole cents.
   */
  lemma {:induction false} RunKeepsTotals(db: Db, calls: seq<Call>)
    ensures AllNear(db.orders) ==> AllNear(Run(db, calls).0.orders)
    ensures AllSound(db.orders) && (forall c :: c in calls ==> NonNegativeDto(c.request)) ==>
              AllSound(Run(db, calls).0.orders)
    ensures AllExact(db.orders) && (forall c :: c in calls ==> WholeCentDto(c.request)) ==>
              AllExact(Run(db, calls).0.orders)
    decreases |calls|
  {
    hide Step, AllNear, AllSound, AllExact, NonNegativeDto, WholeCentDto;
    if calls != [] {
      StepKeepsTotals(db, calls[0]);
      RunKeepsTotals(Step(db, calls[0]).0, calls[1..]);
    }
  }

  // --- rows that some input computes ------------------------------------

  lemma NewOrderIsComputed(dto: CreateOrder, number: string, now: Millis)
    ensures Computed(NewOrder(dto, number, now))
  {
    hide RoundCents, ComputeTotal;
    assert ComputedFrom(dto.amount, dto.quantity, dto.discount.GetOr(0.0), dto.shippingFee.GetOr(0.0),
                        NewOrder(dto, number, now));
  }

  lemma MergeIsComputed(o: Order, dto: UpdateOrder)
    ensures Computed(Merge(o, dto))
  {
    KeptColumn(o.amount);
    KeptColumn(o.discount);
    KeptColumn(o.shippingFee);
    hide RoundCents, ComputeTotal, Units;
    assert ComputedFrom(Keep(dto.amount, Units(o.amount)), Keep(dto.quantity, o.quantity),
                        Keep(dto.discount, Units(o.discount)), Keep(dto.shippingFee, Units(o.shippingFee)),
                        Merge(o, dto));
  }

  lemma StatusKeepsComputed(o: Order, status: OrderStatus)
    requires Computed(o)
    ensures Computed(o.(status := status))
  {
    hide RoundCents, ComputeTotal;
    var amount, discount, shippingFee :| ComputedFrom(amount, o.quantity, discount, shippingFee, o);
    assert ComputedFrom(amount, o.quantity, discount, shippingFee, o.(status := status));
  }

  /** Whatever one request writes into an order is computed, unless it only kept a row that was not. */
  lemma OriginIsComputed(db: Db, call: Call, o: Id, after: Owned<Order>)
    requires HasOrigin(db, call, o, after) && (o in db.orders ==> Computed(db.orders[o].row))
    ensures Computed(after.row)
  {
    hide NewOrder, Merge, Computed, NextOrderNumber;
    var r, number := call.request, NextOrderNumber(db.orders, call.ctx.org);
    match r
    case OrderCreate(dto) => NewOrderIsComputed(dto, number, call.input.now);
    case ExtensionOrder(_, _, _, _) =>
      forall c {
        NewOrderIsComputed(ExtensionDto(c, r), number, call.input.now);
      }
    case OrderUpdate(_, dto) => if o in db.orders { MergeIsComputed(db.orders[o].row, dto); }
    case OrderChangeStatus(_, status) => if o in db.orders { StatusKeepsComputed(db.orders[o].row, status); }
    case _ =>
  }

  lemma StepKeepsComputed(db: Db, call: Call, o: Id)
    requires o in db.orders ==> Computed(db.orders[o].row)
    ensures o in Step(db, call).0.orders ==> Computed(Step(db, call).0.orders[o].row)
  {
    hide Step, HasOrigin, Computed;
    OrdersHaveOrigin(db, call);
    if o in Step(db, call).0.orders { OriginIsComputed(db, call, o, Step(db, call).0.orders[o]); }
  }

  ghost predicate AllComputed(t: Table<Order>) { forall o :: o in t ==> Computed(t[o].row) }

  /** A ledger whose orders came through the service holds only rows that some money inputs compute. */
  lemma {:induction false} RunKeepsComputed(db: Db, calls: seq<Call>)
    requires AllComputed(db.orders)
    ensures AllComputed(Run(db, calls).0.orders)
    decreases |calls|
  {
    hide Step, Computed;
    if calls != [] {
      forall o { StepKeepsComputed(db, calls[0], o); }
      RunKeepsComputed(Step(db, calls[0]).0, calls[1..]);
    }
  }
}
