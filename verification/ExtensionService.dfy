// ExtensionService: find or create a customer by facebookId, then act on it.
module ExtensionService {
  import opened Wrappers
  import opened Tables
  import opened Schema
  import opened Crm
  import C = CustomerSpec
  import Customers = CustomerService
  import Notes = NoteService
  import Orders = OrderService
  import OrderSpec
  import Tenancy
  import S = StoreSpec

  class ExtensionService {
    const customers: Customers.CustomerRepository
    const notes: Notes.NoteService
    const orders: Orders.OrderService

    constructor (customers: Customers.CustomerRepository, notes: Notes.NoteService, orders: Orders.OrderService)
      ensures this.customers == customers && this.notes == notes && this.orders == orders
    {
      this.customers, this.notes, this.orders := customers, notes, orders;
    }

    /** Its collaborators share one database and one tenant context. */
    predicate Wired() {
      && notes.repo.db == customers.db && orders.repo.db == customers.db
      && notes.repo.tenant == customers.tenant && orders.repo.tenant == customers.tenant
    }

    method SyncCustomer(input: Input, dto: C.SyncCustomer) returns (reply: Result<Reply, Failure>)
      requires customers.tenant.Bound() && Tenancy.FacebookIdsUnique(customers.db.customers)
      modifies customers.db`customers
      ensures (customers.db.State(), reply)
              == S.SyncCustomer(old(customers.db.State()), customers.tenant.Ctx(), input, dto)
    {
      var id := customers.UpsertByFacebookId(input, dto, Some(input.now));
      return Ok(CustomerRow(id, customers.db.customers[id].row));
    }

    method ResolveCustomer(input: Input, facebookId: string) returns (id: Id)
      requires customers.tenant.Bound() && Tenancy.FacebookIdsUnique(customers.db.customers)
      modifies customers.db`customers
      ensures (customers.db.State(), id)
              == S.ResolveCustomer(old(customers.db.State()), customers.tenant.Ctx(), input, facebookId)
    {
      var existing := customers.FindByFacebookId(facebookId);
      if existing.Some? { return existing.value; }
      id := customers.UpsertByFacebookId(input, C.SyncCustomer(facebookId, facebookId, None, None), None);
    }

    method AddNote(input: Input, facebookId: string, content: string) returns (reply: Result<Reply, Failure>)
      requires Wired() && customers.tenant.Bound() && Tenancy.FacebookIdsUnique(customers.db.customers)
      modifies customers.db`customers, customers.db`notes
      ensures (customers.db.State(), reply)
              == S.AddNote(old(customers.db.State()), customers.tenant.Ctx(), input, facebookId, content)
    {
      var id := ResolveCustomer(input, facebookId);
      reply := notes.Create(input, id, content);
    }

    method CreateOrder(input: Input, facebookId: string, productName: string, quantity: Option<int>, amount: real)
      returns (reply: Result<Reply, Failure>)
      requires Wired() && customers.tenant.Bound() && Tenancy.FacebookIdsUnique(customers.db.customers)
      modifies customers.db`customers, customers.db`orders
      ensures (customers.db.State(), reply)
              == S.CreateExtensionOrder(old(customers.db.State()), customers.tenant.Ctx(), input, facebookId,
                                        productName, quantity, amount)
    {
      var id := ResolveCustomer(input, facebookId);
      var ordered := 1;
      if quantity.Some? { ordered := quantity.value; }
      var dto := OrderSpec.CreateOrder(id, productName, ordered, amount, None, None, None, None, None);
      reply := orders.Create(input, dto);
    }
  }
}
