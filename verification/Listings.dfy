// Different ways to ask the store the same thing agree: lists, single records, the
// counts on a customer's card and the dashboard figures.
module Listings {
  import opened Wrappers
  import opened Tables
  import opened Schema
  import opened Crm
  import opened Tenancy
  import opened Analytics
  import opened Totals
  import Purge
  import C = CustomerSpec
  import O = OrderSpec
  import S = StoreSpec

  function AnyCustomer(): C.CustomerFilter { C.CustomerFilter(None, None, None, None) }

  function AnyOrder(): O.OrderFilter { O.OrderFilter(None, None, None) }

  /** A listing holds a customer exactly when it can be found singly, and with the same card. */
  lemma CustomerListingAgrees(db: Db, ctx: Ctx, id: Id)
    ensures id in C.Listing(db, ctx.org, AnyCustomer()) <==> C.FindOne(db, ctx, id).1.Ok?
    ensures C.FindOne(db, ctx, id).1.Ok? ==>
              C.FindOne(db, ctx, id).1 == Ok(CustomerFound(C.Listing(db, ctx.org, AnyCustomer())[id]))
  {
  }

  lemma OrderListingAgrees(db: Db, ctx: Ctx, id: Id)
    ensures id in O.Listing(db, ctx.org, AnyOrder()) <==> O.FindOne(db, ctx, id).1.Ok?
    ensures O.FindOne(db, ctx, id).1.Ok? ==>
              O.FindOne(db, ctx, id).1 == Ok(OrderFound(O.Listing(db, ctx.org, AnyOrder())[id]))
  {
  }

  /** Filtering by tag keeps exactly the cards that show the tag. */
  lemma TagFilterAgrees(db: Db, org: OrgId, tag: Id, id: Id)
    requires Consistent(db)
    ensures id in C.Listing(db, org, AnyCustomer().(tagId := Some(tag)))
            <==> id in C.Listing(db, org, AnyCustomer()) && tag in C.Listing(db, org, AnyCustomer())[id].tags
  {
  }

  /** Each further customer criterion keeps exactly the cards that meet it. */
  lemma CustomerFiltersNarrow(db: Db, org: OrgId, filter: C.CustomerFilter, status: CustomerStatus, agent: Id,
                              source: string, id: Id)
    ensures var wide := C.Listing(db, org, filter.(status := None));
            id in C.Listing(db, org, filter.(status := Some(status))) <==> id in wide && wide[id].row.status == status
    ensures var wide := C.Listing(db, org, filter.(assignedTo := None));
            id in C.Listing(db, org, filter.(assignedTo := Some(agent)))
            <==> id in wide && wide[id].row.assignedTo == Some(agent)
    ensures var wide := C.Listing(db, org, filter.(source := None));
            id in C.Listing(db, org, filter.(source := Some(source)))
            <==> id in wide && (source == "" || wide[id].row.source == Some(source))
  {
    hide CardOf;
    if id in db.customers { assert CardOf(db, id).row == db.customers[id].row by { CardHasRow(db, id); } }
  }

  lemma CardHasRow(db: Db, id: Id)
    requires id in db.customers
    ensures CardOf(db, id).row == db.customers[id].row
  {
  }

  /** The same for orders. */
  lemma OrderFiltersNarrow(db: Db, org: OrgId, filter: O.OrderFilter, status: OrderStatus, payment: PaymentStatus,
                           customer: Id, id: Id)
    ensures var wide := O.Listing(db, org, filter.(status := None));
            id in O.Listing(db, org, filter.(status := Some(status))) <==> id in wide && wide[id].row.status == status
    ensures var wide := O.Listing(db, org, filter.(paymentStatus := None));
            id in O.Listing(db, org, filter.(paymentStatus := Some(payment)))
            <==> id in wide && wide[id].row.paymentStatus == payment
    ensures var wide := O.Listing(db, org, filter.(customerId := None));
            id in O.Listing(db, org, filter.(customerId := Some(customer)))
            <==> id in wide && wide[id].row.customerId == customer
  {
  }

  /** A note card shows exactly the author that wrote it, a user of the organization. */
  lemma AuthorOnCard(db: Db, ctx: Ctx, id: Id)
    requires Consistent(db) && OwnedBy(db.notes, ctx.org, id)
    ensures var author := NoteCardOf(db, id).author;
            && (author.Some? <==> db.notes[id].row.authorId.Some?)
            && (author.Some? ==>
                  && db.notes[id].row.authorId == Some(author.value.id)
                  && author.value.id in S.UserListing(db.users, ctx.org)
                  && var u := S.UserListing(db.users, ctx.org)[author.value.id];
                     author.value == AgentCard(u.id, u.firstName, u.lastName, u.email))
  {
  }

  /** A card shows an agent exactly when one is assigned: that user of the organization, by its own name. */
  lemma AgentOnCard(db: Db, ctx: Ctx, id: Id)
    requires Consistent(db) && OwnedBy(db.customers, ctx.org, id)
    ensures var agent := CardOf(db, id).assignedTo;
            && (agent.Some? <==> db.customers[id].row.assignedTo.Some?)
            && (agent.Some? ==>
                  && db.customers[id].row.assignedTo == Some(agent.value.id)
                  && agent.value.id in S.UserListing(db.users, ctx.org)
                  && var u := S.UserListing(db.users, ctx.org)[agent.value.id];
                     agent.value == AgentCard(u.id, u.firstName, u.lastName, u.email))
  {
  }

  lemma SameSize<T>(m: map<Id, T>, s: set<Id>)
    requires m.Keys == s
    ensures |m| == |s|
  {
    assert |m.Keys| == |m|;
  }

  /** The two counts on a customer's card are the sizes of the lists one gets by asking for them. */
  lemma CardCountsAgree(db: Db, org: OrgId, id: Id)
    requires Consistent(db) && OwnedBy(db.customers, org, id)
    ensures CardOf(db, id).orders == |O.Listing(db, org, AnyOrder().(customerId := Some(id)))|
    ensures CardOf(db, id).notes == |S.NoteListing(db, org, id)|
  {
    SameSize(O.Listing(db, org, AnyOrder().(customerId := Some(id))), OrdersOf(db.orders, id));
    SameSize(S.NoteListing(db, org, id), NotesOf(db.notes, id));
  }

  lemma CustomersCounted(db: Db, org: OrgId, status: CustomerStatus)
    ensures TotalCustomers(db, org) == |C.Listing(db, org, AnyCustomer())|
    ensures |CustomersWith(db, org, status)| == |C.Listing(db, org, AnyCustomer().(status := Some(status)))|
  {
    hide CardOf;
    SameSize(C.Listing(db, org, AnyCustomer()), Scope(db.customers, org).Keys);
    SameSize(Scope(db.customers, org), Scope(db.customers, org).Keys);
    SameSize(C.Listing(db, org, AnyCustomer().(status := Some(status))), CustomersWith(db, org, status));
  }

  lemma OrdersCounted(db: Db, org: OrgId, status: OrderStatus)
    ensures TotalOrders(db, org) == |O.Listing(db, org, AnyOrder())|
    ensures |OrdersWith(db.orders, org, status)| == |O.Listing(db, org, AnyOrder().(status := Some(status)))|
  {
    hide OrderCardOf;
    SameSize(O.Listing(db, org, AnyOrder()), Scope(db.orders, org).Keys);
    SameSize(Scope(db.orders, org), Scope(db.orders, org).Keys);
    SameSize(O.Listing(db, org, AnyOrder().(status := Some(status))), OrdersWith(db.orders, org, status));
  }

  /** The totals of a list of orders, cancelled ones left out. */
  function Uncancelled(cards: map<Id, OrderCard>): map<Id, int> {
    map o | o in cards && cards[o].row.status != OrderStatus.CANCELLED :: cards[o].row.total
  }

  lemma RevenueIsListed(db: Db, org: OrgId)
    ensures Revenue(db.orders, org) == Total(Uncancelled(O.Listing(db, org, AnyOrder())))
  {
    assert Earnings(db.orders, org) == Uncancelled(O.Listing(db, org, AnyOrder()));
  }

  /** The dashboard counts are the sizes of the corresponding lists, and its revenue is what they add up to. */
  lemma DashboardAgrees(db: Db, org: OrgId)
    ensures var stats := StatsOf(db, org);
            && stats.totalCustomers == |C.Listing(db, org, AnyCustomer())|
            && stats.totalOrders == |O.Listing(db, org, AnyOrder())|
            && stats.revenue == Total(Uncancelled(O.Listing(db, org, AnyOrder())))
            && stats.newLeads == |C.Listing(db, org, AnyCustomer().(status := Some(CustomerStatus.NEW)))|
            && stats.pendingOrders == |O.Listing(db, org, AnyOrder().(status := Some(OrderStatus.PENDING)))|
  {
    RevenueIsListed(db, org);
    CustomersCounted(db, org, CustomerStatus.NEW);
    OrdersCounted(db, org, OrderStatus.PENDING);
    hide C.Listing, O.Listing, CustomersWith, OrdersWith, TotalCustomers, TotalOrders, Revenue, Uncancelled;
  }

  /** That is what a dashboard request answers, and it changes nothing. */
  lemma DashboardIsRead(db: Db, ctx: Ctx, input: Input)
    ensures Step(db, Call(ctx, input, DashboardRead)) == (db, Ok(Stats(StatsOf(db, ctx.org))))
  {
    hide StatsOf;
  }

  /** Every order an organization lists names one of its own customers, as that customer now stands. */
  lemma OrderShowsItsCustomer(db: Db, calls: seq<Call>, ctx: Ctx, id: Id)
    requires Consistent(db) && AdmissibleRun(db, calls)
    ensures var now := Run(db, calls).0;
            id in O.Listing(now, ctx.org, AnyOrder()) ==>
              var card := O.Listing(now, ctx.org, AnyOrder())[id];
              && card.row.customerId in C.Listing(now, ctx.org, AnyCustomer())
              && var c := C.Listing(now, ctx.org, AnyCustomer())[card.row.customerId].row;
                 card.customerName == c.name && card.phone == c.phone && card.facebookName == c.facebookName
  {
    hide Run, AdmissibleRun;
    Purge.RunKeepsConsistent(db, calls);
  }
}
