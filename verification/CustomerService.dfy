// CustomerRepository and CustomerService over the mutable tables.
module CustomerService {
  import opened Wrappers
  import opened Tables
  import opened Schema
  import opened Crm
  import opened Database
  import opened TenantContext
  import Tenancy
  import Spec = CustomerSpec

  class CustomerRepository {
    const db: Database
    const tenant: TenantContext

    constructor (db: Database, tenant: TenantContext)
      ensures this.db == db && this.tenant == tenant
    {
      this.db, this.tenant := db, tenant;
    }

    method Create(newId: Id, row: Customer) returns (r: Result<Customer, Failure>)
      requires tenant.Bound()
      modifies db`customers
      ensures r == if Spec.FacebookIdTaken(old(db.customers), tenant.Ctx().org, row.facebookId, None)
                   then Err(UniqueViolation) else Ok(row)
      ensures db.customers
              == if r.Ok? then Insert(old(db.customers), tenant.Ctx().org, newId, row) else old(db.customers)
    {
      var ok := IndexAdmits(row.facebookId, None);
      if !ok { return Err(UniqueViolation); }
      db.customers := db.customers[newId := Owned(tenant.organizationId.value, row)];
      return Ok(row);
    }

    method FindById(id: Id) returns (r: Option<CustomerCard>)
      requires tenant.Bound()
      ensures r == if FindFirst(db.customers, tenant.Ctx().org, id).Some? then Some(CardOf(db.State(), id)) else None
    {
      if id !in db.customers || Some(db.customers[id].org) != tenant.organizationId { return None; }
      return Some(CardOf(db.State(), id));
    }

    /** SET: one assignment per present field. */
    method Assigned(row: Customer, data: Spec.UpdateCustomer) returns (r: Customer)
      ensures r == Spec.Merge(row, data)
    {
      r := row;
      r := r.(name := data.name.GetOr(r.name));
      r := r.(facebookName := data.facebookName.GetOr(r.facebookName));
      r := r.(facebookId := data.facebookId.GetOr(r.facebookId));
      r := r.(profileUrl := data.profileUrl.GetOr(r.profileUrl));
      r := r.(phone := data.phone.GetOr(r.phone));
      r := r.(email := data.email.GetOr(r.email));
      r := r.(address := data.address.GetOr(r.address));
      r := r.(status := data.status.GetOr(r.status));
      r := r.(source := data.source.GetOr(r.source));
      r := r.(assignedTo := data.assignedTo.GetOr(r.assignedTo));
    }

    method IndexAdmits(facebookId: Option<string>, except: Option<Id>) returns (ok: bool)
      requires tenant.Bound()
      ensures ok == !Spec.FacebookIdTaken(db.customers, tenant.Ctx().org, facebookId, except)
    {
      return !(&& facebookId.Some?
               && exists c :: c in db.customers && Some(db.customers[c].org) == tenant.organizationId
                              && db.customers[c].row.facebookId == facebookId && Some(c) != except);
    }

    /** updateMany under the tenant filter, then the row by bare id. */
    method Update(id: Id, data: Spec.UpdateCustomer) returns (r: Result<Customer, Failure>)
      requires tenant.Bound()
      modifies db`customers
      ensures var found := FindFirst(old(db.customers), tenant.Ctx().org, id);
              found.Some? ==>
                var row := Spec.Merge(found.value, data);
                if Spec.FacebookIdTaken(old(db.customers), tenant.Ctx().org, row.facebookId, Some(id))
                then r == Err(UniqueViolation) && db.customers == old(db.customers)
                else r == Ok(row) && db.customers == UpdateMany(old(db.customers), tenant.Ctx().org, id, row)
      ensures FindFirst(old(db.customers), tenant.Ctx().org, id).None? ==>
                && db.customers == old(db.customers)
                && r == if id in db.customers then Ok(db.customers[id].row) else Err(NotFound)
    {
      var org := tenant.organizationId.value;
      if id in db.customers && db.customers[id].org == org {
        var row := Assigned(db.customers[id].row, data);
        var ok := IndexAdmits(row.facebookId, Some(id));
        if !ok { return Err(UniqueViolation); }
        db.customers := db.customers[id := Owned(org, row)];
      }
      if id !in db.customers { return Err(NotFound); }
      return Ok(db.customers[id].row);
    }

    /** The criteria on the customer's own columns, one after the other. */
    method WhereColumns(filter: Spec.CustomerFilter) returns (ids: set<Id>)
      requires tenant.Bound()
      ensures forall c :: c in ids <==> && OwnedBy(db.customers, tenant.Ctx().org, c)
                                        && Spec.MatchesColumns(db.customers[c].row, filter)
    {
      var t := db.customers;
      var ours := set c | c in t && Some(t[c].org) == tenant.organizationId;
      var inStatus := set c | c in ours && (filter.status.None? || t[c].row.status == filter.status.value);
      var ofAgent := set c | c in inStatus && (filter.assignedTo.None? || t[c].row.assignedTo == filter.assignedTo);
      ids := set c | c in ofAgent && (filter.source.GetOr("") == "" || t[c].row.source == filter.source);
      forall c ensures c in ids <==> OwnedBy(t, tenant.Ctx().org, c) && Spec.MatchesColumns(t[c].row, filter) {
        assert c in ours <==> OwnedBy(t, tenant.Ctx().org, c);
      }
    }

    /** The where clause, with the criterion on the tag links last. */
    method Where(filter: Spec.CustomerFilter) returns (ids: set<Id>)
      requires tenant.Bound()
      ensures forall c :: c in ids <==> && OwnedBy(db.customers, tenant.Ctx().org, c)
                                        && Spec.Matches(db.State(), c, filter)
    {
      hide Spec.MatchesColumns;
      var columns := WhereColumns(filter);
      ids := set c | c in columns && (filter.tagId.None? || Link(c, filter.tagId.value) in db.links);
    }

    method FindMany(filter: Spec.CustomerFilter) returns (cards: map<Id, CustomerCard>)
      requires tenant.Bound()
      ensures cards == Spec.Listing(db.State(), tenant.Ctx().org, filter)
    {
      hide CardOf, Spec.Matches;
      var ids := Where(filter);
      cards := map c | c in ids :: CardOf(db.State(), c);
    }

    /** deleteMany under the tenant filter; the foreign keys cascade by bare id. */
    method Delete(id: Id)
      requires tenant.Bound()
      modifies db`customers, db`orders, db`notes, db`links
      ensures db.State() == Spec.DeleteCustomer(old(db.State()), tenant.Ctx().org, id)
    {
      if id in db.customers && Some(db.customers[id].org) == tenant.organizationId {
        db.customers := db.customers - {id};
        db.orders := db.orders - (set o | o in db.orders && db.orders[o].row.customerId == id);
        db.notes := db.notes - (set n | n in db.notes && db.notes[n].row.customerId == id);
        db.links := set l | l in db.links && l.customerId != id;
      }
    }

    method SetStatus(id: Id, status: CustomerStatus)
      requires tenant.Bound()
      modifies db`customers
      ensures var found := FindFirst(old(db.customers), tenant.Ctx().org, id);
              db.customers == if found.None? then old(db.customers)
                              else UpdateMany(old(db.customers), tenant.Ctx().org, id, found.value.(status := status))
    {
      if id in db.customers && Some(db.customers[id].org) == tenant.organizationId {
        db.customers := db.customers[id := db.customers[id].(row := db.customers[id].row.(status := status))];
      }
    }

    method FindByFacebookId(facebookId: string) returns (r: Option<Id>)
      requires tenant.Bound() && Tenancy.FacebookIdsUnique(db.customers)
      ensures r == Spec.FindByFacebookId(db.customers, tenant.Ctx().org, facebookId)
    {
      var org := tenant.organizationId.value;
      if c :| c in db.customers && Spec.HasFacebookId(db.customers, org, facebookId, c) {
        return Some(c);
      }
      return None;
    }

    /** ON CONFLICT (organization_id, facebook_id): refresh the messenger fields, else insert. */
    method UpsertByFacebookId(input: Input, data: Spec.SyncCustomer, lastContactedAt: Option<Millis>) returns (id: Id)
      requires tenant.Bound() && Tenancy.FacebookIdsUnique(db.customers)
      modifies db`customers
      ensures (db.State(), id) == Spec.Upsert(old(db.State()), tenant.Ctx(), input, data, lastContactedAt)
      ensures id in db.customers
    {
      var existing := FindByFacebookId(data.facebookId);
      if existing.Some? {
        var stored := db.customers[existing.value];
        var row := stored.row.(facebookName := Some(data.facebookName), lastContactedAt := Some(input.now));
        if data.profileUrl.Some? { row := row.(profileUrl := data.profileUrl); }
        if data.lastMessage.Some? { row := row.(lastMessage := data.lastMessage); }
        db.customers := db.customers[existing.value := stored.(row := row)];
        return existing.value;
      }
      var row := Customer(data.facebookName, Some(data.facebookName), Some(data.facebookId), data.profileUrl, None,
                          None, None, CustomerStatus.NEW, Some("extension"), data.lastMessage, None, lastContactedAt,
                          input.now);
      db.customers := db.customers[input.newId := Owned(tenant.organizationId.value, row)];
      return input.newId;
    }
  }

  class CustomerService {
    const repo: CustomerRepository

    constructor (repo: CustomerRepository)
      ensures this.repo == repo
    {
      this.repo := repo;
    }

    /** The target agent must be a user of the caller's organization. */
    method AssertAgentInOrg(user: Id) returns (ok: bool)
      requires repo.tenant.Bound()
      ensures ok == OwnedBy(repo.db.users, repo.tenant.Ctx().org, user)
    {
      var org := repo.tenant.RequireOrganizationId();
      return user in repo.db.users && Ok(repo.db.users[user].org) == org;
    }

    method Create(input: Input, dto: Spec.CreateCustomer) returns (reply: Result<Reply, Failure>)
      requires repo.tenant.Bound()
      modifies repo.db`customers
      ensures (repo.db.State(), reply) == Spec.Create(old(repo.db.State()), repo.tenant.Ctx(), input, dto)
    {
      if dto.assignedTo.Some? {
        var ok := AssertAgentInOrg(dto.assignedTo.value);
        if !ok { return Err(AgentNotInOrg); }
      }
      var row := Customer(dto.name, dto.facebookName, dto.facebookId, dto.profileUrl, dto.phone, dto.email, dto.address,
                          CustomerStatus.NEW, dto.source, None, dto.assignedTo, None, input.now);
      if dto.status.Some? { row := row.(status := dto.status.value); }
      var created := repo.Create(input.newId, row);
      if created.Err? { return Err(created.error); }
      return Ok(CustomerRow(input.newId, created.value));
    }

    method FindOne(id: Id) returns (reply: Result<Reply, Failure>)
      requires repo.tenant.Bound()
      ensures (repo.db.State(), reply) == Spec.FindOne(repo.db.State(), repo.tenant.Ctx(), id)
    {
      var found := repo.FindById(id);
      if found.None? { return Err(NotFound); }
      return Ok(CustomerFound(found.value));
    }

    method FindAll(filter: Spec.CustomerFilter) returns (reply: Result<Reply, Failure>)
      requires repo.tenant.Bound()
      ensures (repo.db.State(), reply) == Spec.FindAll(repo.db.State(), repo.tenant.Ctx(), filter)
    {
      var cards := repo.FindMany(filter);
      return Ok(Customers(cards));
    }

    method Update(id: Id, dto: Spec.UpdateCustomer) returns (reply: Result<Reply, Failure>)
      requires repo.tenant.Bound()
      modifies repo.db`customers
      ensures (repo.db.State(), reply) == Spec.Update(old(repo.db.State()), repo.tenant.Ctx(), id, dto)
    {
      var found := repo.FindById(id);
      if found.None? { return Err(NotFound); }
      if dto.assignedTo.Some? && dto.assignedTo.value.Some? {
        var ok := AssertAgentInOrg(dto.assignedTo.value.value);
        if !ok { return Err(AgentNotInOrg); }
      }
      var updated := repo.Update(id, dto);
      if updated.Err? { return Err(updated.error); }
      return Ok(CustomerRow(id, updated.value));
    }

    method Remove(id: Id) returns (reply: Result<Reply, Failure>)
      requires repo.tenant.Bound()
      modifies repo.db`customers, repo.db`orders, repo.db`notes, repo.db`links
      ensures (repo.db.State(), reply) == Spec.Remove(old(repo.db.State()), repo.tenant.Ctx(), id)
    {
      var found := repo.FindById(id);
      if found.None? { return Err(NotFound); }
      repo.Delete(id);
      return Ok(Done);
    }

    method ChangeStatus(id: Id, status: CustomerStatus) returns (reply: Result<Reply, Failure>)
      requires repo.tenant.Bound()
      modifies repo.db`customers
      ensures (repo.db.State(), reply) == Spec.ChangeStatus(old(repo.db.State()), repo.tenant.Ctx(), id, status)
    {
      var found := repo.FindById(id);
      if found.None? { return Err(NotFound); }
      repo.SetStatus(id, status);
      reply := FindOne(id);
    }

    method Assign(id: Id, agent: Option<Id>) returns (reply: Result<Reply, Failure>)
      requires repo.tenant.Bound() && Tenancy.FacebookIdsUnique(repo.db.customers)
      modifies repo.db`customers
      ensures (repo.db.State(), reply) == Spec.Assign(old(repo.db.State()), repo.tenant.Ctx(), id, agent)
    {
      var found := repo.FindById(id);
      if found.None? { return Err(NotFound); }
      if agent.Some? {
        var ok := AssertAgentInOrg(agent.value);
        if !ok { return Err(AgentNotInOrg); }
      }
      var data := Spec.UpdateCustomer(None, None, None, None, None, None, None, None, None, Some(agent));
      var updated := repo.Update(id, data);
      return Ok(CustomerRow(id, updated.value));
    }
  }
}
