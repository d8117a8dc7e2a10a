// OrderRepository and OrderService over the mutable tables.
module OrderService {
  import opened Wrappers
  import opened Tables
  import opened Schema
  import opened Crm
  import opened Database
  import opened TenantContext
  import Decimal
  import Money
  import Spec = OrderSpec

  class OrderRepository {
    const db: Database
    const tenant: TenantContext

    constructor (db: Database, tenant: TenantContext)
      ensures this.db == db && this.tenant == tenant
    {
      this.db, this.tenant := db, tenant;
    }

    method CustomerInOrg(customerId: Id) returns (ok: bool)
      requires tenant.Bound()
      ensures ok == OwnedBy(db.customers, tenant.Ctx().org, customerId)
    {
      return customerId in db.customers && Some(db.customers[customerId].org) == tenant.organizationId;
    }

    /** Count the organization's orders and number the next one. */
    method NextOrderNumber() returns (number: string)
      requires tenant.Bound()
      ensures number == Spec.NextOrderNumber(db.orders, tenant.Ctx().org)
    {
      var count := |set o | o in db.orders && db.orders[o].org == tenant.organizationId.value|;
      assert (set o | o in db.orders && db.orders[o].org == tenant.organizationId.value)
             == Scope(db.orders, tenant.Ctx().org).Keys;
      assert |Scope(db.orders, tenant.Ctx().org).Keys| == |Scope(db.orders, tenant.Ctx().org)|;
      return "ORD-" + Decimal.PadStart(Decimal.Digits(count + 1), 5);
    }

    method Create(newId: Id, row: Order) returns (r: Result<Order, Failure>)
      requires tenant.Bound()
      modifies db`orders
      ensures r == if Spec.NumberTaken(old(db.orders), tenant.Ctx().org, row.orderNumber)
                   then Err(UniqueViolation) else Ok(row)
      ensures db.orders == if r.Ok? then Insert(old(db.orders), tenant.Ctx().org, newId, row) else old(db.orders)
    {
      var org := tenant.organizationId.value;
      if exists o :: o in db.orders && db.orders[o].org == org && db.orders[o].row.orderNumber == row.orderNumber {
        return Err(UniqueViolation);
      }
      db.orders := db.orders[newId := Owned(org, row)];
      return Ok(row);
    }

    method FindById(id: Id) returns (r: Option<OrderCard>)
      requires tenant.Bound()
      ensures r == if FindFirst(db.orders, tenant.Ctx().org, id).Some? then Some(OrderCardOf(db.State(), id)) else None
    {
      if id !in db.orders || Some(db.orders[id].org) != tenant.organizationId { return None; }
      return Some(OrderCardOf(db.State(), id));
    }

    /** The where clause, criterion by criterion. */
    method Where(filter: Spec.OrderFilter) returns (ids: set<Id>)
      requires tenant.Bound()
      ensures forall o :: o in ids <==> && OwnedBy(db.orders, tenant.Ctx().org, o)
                                        && Spec.Matches(db.orders[o].row, filter)
    {
      var t := db.orders;
      var ours := set o | o in t && Some(t[o].org) == tenant.organizationId;
      var inStatus := set o | o in ours && (filter.status.None? || t[o].row.status == filter.status.value);
      var paid := set o | o in inStatus
                          && (filter.paymentStatus.None? || t[o].row.paymentStatus == filter.paymentStatus.value);
      ids := set o | o in paid && (filter.customerId.None? || t[o].row.customerId == filter.customerId.value);
      forall o ensures o in ids <==> OwnedBy(t, tenant.Ctx().org, o) && Spec.Matches(t[o].row, filter) {
        assert o in ours <==> OwnedBy(t, tenant.Ctx().org, o);
      }
    }

    method FindMany(filter: Spec.OrderFilter) returns (cards: map<Id, OrderCard>)
      requires tenant.Bound()
      ensures cards == Spec.Listing(db.State(), tenant.Ctx().org, filter)
    {
      hide OrderCardOf, Spec.Matches;
      var ids := Where(filter);
      cards := map o | o in ids :: OrderCardOf(db.State(), o);
    }

    /** updateMany under the tenant filter. */
    method Update(id: Id, row: Order)
      requires tenant.Bound()
      modifies db`orders
      ensures db.orders == UpdateMany(old(db.orders), tenant.Ctx().org, id, row)
    {
      if id in db.orders && Some(db.orders[id].org) == tenant.organizationId {
        db.orders := db.orders[id := db.orders[id].(row := row)];
      }
    }

    method Delete(id: Id)
      requires tenant.Bound()
      modifies db`orders
      ensures db.orders == DeleteMany(old(db.orders), tenant.Ctx().org, id)
    {
      if id in db.orders && Some(db.orders[id].org) == tenant.organizationId {
        db.orders := db.orders - {id};
      }
    }
  }

  class OrderService {
    const repo: OrderRepository

    constructor (repo: OrderRepository)
      ensures this.repo == repo
    {
      this.repo := repo;
    }

    method Create(input: Input, dto: Spec.CreateOrder) returns (reply: Result<Reply, Failure>)
      requires repo.tenant.Bound()
      modifies repo.db`orders
      ensures (repo.db.State(), reply) == Spec.Create(old(repo.db.State()), repo.tenant.Ctx(), input, dto)
    {
      var known := repo.CustomerInOrg(dto.customerId);
      if !known { return Err(CustomerNotInOrg); }
      var total := Money.ComputeTotal(dto.amount, dto.quantity, dto.discount.GetOr(0.0), dto.shippingFee.GetOr(0.0));
      var orderNumber := repo.NextOrderNumber();
      var row := Order(dto.customerId, orderNumber, dto.productName, dto.quantity,
                       Money.RoundCents(dto.amount), 0, 0, total,
                       dto.status.GetOr(OrderStatus.PENDING), dto.paymentStatus.GetOr(UNPAID), dto.notes, input.now);
      if dto.discount.Some? { row := row.(discount := Money.RoundCents(dto.discount.value)); }
      if dto.shippingFee.Some? { row := row.(shippingFee := Money.RoundCents(dto.shippingFee.value)); }
      assert Money.RoundCents(0.0) == 0;
      assert row == Spec.NewOrder(dto, orderNumber, input.now);
      var created := repo.Create(input.newId, row);
      if created.Err? { return Err(created.error); }
      return Ok(OrderRow(input.newId, created.value));
    }

    method FindAll(filter: Spec.OrderFilter) returns (reply: Result<Reply, Failure>)
      requires repo.tenant.Bound()
      ensures (repo.db.State(), reply) == Spec.FindAll(repo.db.State(), repo.tenant.Ctx(), filter)
    {
      var cards := repo.FindMany(filter);
      return Ok(Orders(cards));
    }

    method FindOne(id: Id) returns (reply: Result<Reply, Failure>)
      requires repo.tenant.Bound()
      ensures (repo.db.State(), reply) == Spec.FindOne(repo.db.State(), repo.tenant.Ctx(), id)
    {
      var found := repo.FindById(id);
      if found.None? { return Err(NotFound); }
      return Ok(OrderFound(found.value));
    }

    /** The columns an update sets: present fields, rounded by the column type, and the total. */
    method Assigned(row: Order, dto: Spec.UpdateOrder, total: int) returns (r: Order)
      ensures r == Spec.Merge(row, dto).(total := total)
    {
      r := row.(total := total);
      r := r.(customerId := dto.customerId.GetOr(r.customerId));
      r := r.(productName := dto.productName.GetOr(r.productName));
      r := r.(quantity := dto.quantity.GetOr(r.quantity));
      if dto.amount.Some? { r := r.(amount := Money.RoundCents(dto.amount.value)); }
      if dto.discount.Some? { r := r.(discount := Money.RoundCents(dto.discount.value)); }
      if dto.shippingFee.Some? { r := r.(shippingFee := Money.RoundCents(dto.shippingFee.value)); }
      r := r.(status := dto.status.GetOr(r.status));
      r := r.(paymentStatus := dto.paymentStatus.GetOr(r.paymentStatus));
      r := r.(notes := dto.notes.GetOr(r.notes));
    }

    method Update(id: Id, dto: Spec.UpdateOrder) returns (reply: Result<Reply, Failure>)
      requires repo.tenant.Bound()
      modifies repo.db`orders
      ensures (repo.db.State(), reply) == Spec.Update(old(repo.db.State()), repo.tenant.Ctx(), id, dto)
    {
      var existing := repo.FindById(id);
      if existing.None? { return Err(NotFound); }
      if dto.customerId.Some? {
        var known := repo.CustomerInOrg(dto.customerId.value);
        if !known { return Err(CustomerNotInOrg); }
      }
      var stored := existing.value.row;
      var amount := dto.amount.GetOr(Money.Units(stored.amount));
      var quantity := dto.quantity.GetOr(stored.quantity);
      var discount := dto.discount.GetOr(Money.Units(stored.discount));
      var shippingFee := dto.shippingFee.GetOr(Money.Units(stored.shippingFee));
      var total := Money.ComputeTotal(amount, quantity, discount, shippingFee);
      var row := Assigned(stored, dto, total);
      assert row == Spec.Merge(stored, dto);
      repo.Update(id, row);
      reply := FindOne(id);
    }

    method ChangeStatus(id: Id, status: OrderStatus) returns (reply: Result<Reply, Failure>)
      requires repo.tenant.Bound()
      modifies repo.db`orders
      ensures (repo.db.State(), reply) == Spec.ChangeStatus(old(repo.db.State()), repo.tenant.Ctx(), id, status)
    {
      var existing := repo.FindById(id);
      if existing.None? { return Err(NotFound); }
      repo.Update(id, existing.value.row.(status := status));
      reply := FindOne(id);
    }

    method Remove(id: Id) returns (reply: Result<Reply, Failure>)
      requires repo.tenant.Bound()
      modifies repo.db`orders
      ensures (repo.db.State(), reply) == Spec.Remove(old(repo.db.State()), repo.tenant.Ctx(), id)
    {
      var existing := repo.FindById(id);
      if existing.None? { return Err(NotFound); }
      repo.Delete(id);
      return Ok(Done);
    }
  }
}
