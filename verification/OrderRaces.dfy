// Order creation with its awaits: customer check, count and insert are three steps.
module OrderRaces {
  import opened Wrappers
  import opened Tables
  import opened Schema
  import opened Crm
  import opened OrderSpec
  import opened Tenancy
  import opened OrderNumbers
  import Consistency
  import Isolation
  import OrderGaps
  import Purge

  // A create that has checked its customer, and one that has drawn its number as well.
  datatype Draft =
    | Checked(ctx: Ctx, dto: CreateOrder)
    | Numbered(ctx: Ctx, dto: CreateOrder, number: string)

  datatype World = World(db: Db, drafts: map<nat, Draft>)

  datatype Event =
    | Check(tid: nat, ctx: Ctx, dto: CreateOrder)
    | Draw(tid: nat)
    | Store(tid: nat, input: Input)
    | Other(call: Call)

  /** The insert: the customer's foreign key and the number index decide. */
  function Insertion(db: Db, draft: Draft, input: Input): Outcome
    requires draft.Numbered?
  {
    if draft.dto.customerId !in db.customers then (db, Err(ForeignKeyViolation))
    else if NumberTaken(db.orders, draft.ctx.org, draft.number) then (db, Err(UniqueViolation))
    else
      var row := NewOrder(draft.dto, draft.number, input.now);
      (db.(orders := Insert(db.orders, draft.ctx.org, input.newId, row)), Ok(OrderRow(input.newId, row)))
  }

  ghost function Apply(w: World, e: Event): (World, Result<Reply, Failure>) {
    match e
    case Check(tid, ctx, dto) =>
      if tid in w.drafts || !OwnedBy(w.db.customers, ctx.org, dto.customerId) then (w, Err(CustomerNotInOrg))
      else (w.(drafts := w.drafts[tid := Checked(ctx, dto)]), Ok(Done))
    case Draw(tid) =>
      if tid !in w.drafts || w.drafts[tid].Numbered? then (w, Err(NotFound))
      else
        var ctx, dto := w.drafts[tid].ctx, w.drafts[tid].dto;
        (w.(drafts := w.drafts[tid := Numbered(ctx, dto, NextOrderNumber(w.db.orders, ctx.org))]), Ok(Done))
    case Store(tid, input) =>
      if tid !in w.drafts || w.drafts[tid].Checked? then (w, Err(NotFound))
      else
        var (db, reply) := Insertion(w.db, w.drafts[tid], input);
        (World(db, w.drafts - {tid}), reply)
    case Other(call) =>
      var (db, reply) := Step(w.db, call);
      (w.(db := db), reply)
  }

  ghost function RunAll(w: World, es: seq<Event>): World
    decreases |es|
  {
    if es == [] then w else RunAll(Apply(w, es[0]).0, es[1..])
  }

  /** New rows get ids that are not in use, not even by a customer that a draft still names. */
  predicate NewId(w: World, id: Id) {
    !IdUsed(w.db, id) && forall t :: t in w.drafts ==> w.drafts[t].dto.customerId != id
  }

  predicate FreshEvent(w: World, e: Event) {
    match e
    case Check(_, _, _) => true
    case Draw(_) => true
    case Store(_, input) => NewId(w, input.newId)
    case Other(call) => Admissible(w.db, call) && NewId(w, call.input.newId)
  }

  ghost predicate FreshEvents(w: World, es: seq<Event>)
    decreases |es|
  {
    es == [] || (FreshEvent(w, es[0]) && FreshEvents(Apply(w, es[0]).0, es[1..]))
  }

  // --- alone, it is the atomic create -----------------------------------

  lemma UninterruptedIsAtomic(w: World, tid: nat, ctx: Ctx, dto: CreateOrder, input: Input)
    requires tid !in w.drafts
    ensures var (w1, r1) := Apply(w, Check(tid, ctx, dto));
            var (w2, reply) := if r1.Err? then (w1, r1) else Apply(Apply(w1, Draw(tid)).0, Store(tid, input));
            (w2.db, reply) == Create(w.db, ctx, input, dto)
  {
    hide NextOrderNumber, NumberTaken, NewOrder;
  }

  // --- in every interleaving --------------------------------------------

  /** Whatever a draft's customer has become, it has not become another organization's. */
  ghost predicate Inv(w: World) {
    && Consistent(w.db)
    && forall t :: t in w.drafts && w.drafts[t].dto.customerId in w.db.customers ==>
                     OwnedBy(w.db.customers, w.drafts[t].ctx.org, w.drafts[t].dto.customerId)
  }

  lemma InsertionKeepsConsistent(db: Db, draft: Draft, input: Input)
    requires draft.Numbered? && Consistent(db) && !IdUsed(db, input.newId)
    requires draft.dto.customerId in db.customers ==> OwnedBy(db.customers, draft.ctx.org, draft.dto.customerId)
    ensures Consistent(Insertion(db, draft, input).0)
  {
    hide NumberTaken;
    if Insertion(db, draft, input).1.Ok? {
      var row := NewOrder(draft.dto, draft.number, input.now);
      Consistency.FreeNumberStaysUnique(db.orders, draft.ctx.org, input.newId, row);
      hide OrderNumbersUnique, NewOrder;
      Consistency.OrdersReplaced(db, Insert(db.orders, draft.ctx.org, input.newId, row));
    }
  }

  lemma CustomersStayPut(db: Db, call: Call, c: Id)
    requires Consistent(db) && Admissible(db, call) && c != call.input.newId
    requires c in Step(db, call).0.customers
    ensures c in db.customers && Step(db, call).0.customers[c].org == db.customers[c].org
  {
    hide Step, Consistent, Admissible;
    var db' := Step(db, call).0;
    Purge.StepGrows(db, call);
    Isolation.StepConfined(db, call);
    var before, after := db.customers[c].org, db'.customers[c].org;
    assert before != call.ctx.org ==> Scope(db'.customers, before) == Scope(db.customers, before) by {
      if before != call.ctx.org { assert View(db', before).customers == View(db, before).customers; }
    }
    assert after != call.ctx.org ==> Scope(db'.customers, after) == Scope(db.customers, after) by {
      if after != call.ctx.org { assert View(db', after).customers == View(db, after).customers; }
    }
    assert c in Scope(db.customers, before) && c in Scope(db'.customers, after);
  }

  lemma StepKeepsInv(w: World, e: Event)
    requires Inv(w) && FreshEvent(w, e)
    ensures Inv(Apply(w, e).0)
  {
    hide Step, Consistent, NextOrderNumber, Insertion, Admissible;
    match e
    case Check(_, _, _) =>
    case Draw(_) =>
    case Store(tid, input) =>
      if tid in w.drafts && w.drafts[tid].Numbered? {
        InsertionKeepsConsistent(w.db, w.drafts[tid], input);
        InsertionKeepsCustomers(w.db, w.drafts[tid], input);
      }
    case Other(call) =>
      Consistency.StepKeepsConsistent(w.db, call);
      forall t | t in w.drafts && w.drafts[t].dto.customerId in Step(w.db, call).0.customers
        ensures OwnedBy(Step(w.db, call).0.customers, w.drafts[t].ctx.org, w.drafts[t].dto.customerId)
      {
        CustomersStayPut(w.db, call, w.drafts[t].dto.customerId);
      }
  }

  lemma InsertionKeepsCustomers(db: Db, draft: Draft, input: Input)
    requires draft.Numbered?
    ensures Insertion(db, draft, input).0.customers == db.customers
  {
    hide NumberTaken, NewOrder;
  }

  /** However draws and inserts interleave, order numbers stay unique and links inside their organization. */
  lemma {:induction false} RacesKeepConsistent(w: World, es: seq<Event>)
    requires Inv(w) && FreshEvents(w, es)
    ensures Inv(RunAll(w, es)) && OrderNumbersUnique(RunAll(w, es).db.orders)
    decreases |es|
  {
    hide Apply, Inv, FreshEvent;
    if es != [] {
      StepKeepsInv(w, es[0]);
      RacesKeepConsistent(Apply(w, es[0]).0, es[1..]);
    } else {
      assert OrderNumbersUnique(w.db.orders) by { InvIsUnique(w); }
    }
  }

  lemma InvIsUnique(w: World)
    requires Inv(w)
    ensures OrderNumbersUnique(w.db.orders)
  {
  }

  // --- two creates, one number ------------------------------------------

  /** Two creates of one organization that drew before either stored: the second store is refused. */
  lemma SecondIsRefused(w: World, first: nat, second: nat, input: Input, later: Input)
    requires first in w.drafts && second in w.drafts && first != second
    requires w.drafts[first].Numbered? && w.drafts[second].Numbered?
    requires w.drafts[first].ctx.org == w.drafts[second].ctx.org && w.drafts[first].number == w.drafts[second].number
    requires Apply(w, Store(first, input)).1.Ok?
    ensures Apply(Apply(w, Store(first, input)).0, Store(second, later)).1.Err?
  {
    var draft := w.drafts[first];
    var w1 := Apply(w, Store(first, input)).0;
    assert w1.db.orders[input.newId] == Owned(draft.ctx.org, NewOrder(draft.dto, draft.number, input.now));
    assert w1.db.orders[input.newId].row.orderNumber == draft.number;
    assert NumberTaken(w1.db.orders, draft.ctx.org, draft.number);
    hide NumberTaken, NewOrder;
  }

  /** Draws with no order written in between give the same number. */
  lemma DrawsCollide(w: World, first: nat, second: nat)
    requires first != second && first in w.drafts && second in w.drafts
    requires w.drafts[first].Checked? && w.drafts[second].Checked?
    requires w.drafts[first].ctx.org == w.drafts[second].ctx.org
    ensures var w2 := Apply(Apply(w, Draw(first)).0, Draw(second)).0;
            && first in w2.drafts && second in w2.drafts && w2.drafts[first].Numbered? && w2.drafts[second].Numbered?
            && w2.drafts[first].ctx.org == w2.drafts[second].ctx.org
            && w2.drafts[first].number == w2.drafts[second].number
  {
    hide NextOrderNumber;
  }

  /** A create whose customer is deleted after the check is refused by the store, and writes nothing. */
  lemma DeletedCustomerIsRefused(w: World, tid: nat, ctx: Ctx, dto: CreateOrder, input: Input)
    requires tid !in w.drafts && OwnedBy(w.db.customers, ctx.org, dto.customerId)
    ensures var w1 := Apply(w, Check(tid, ctx, dto)).0;
            var w2 := Apply(w1, Other(Call(ctx, input, CustomerRemove(dto.customerId)))).0;
            var w3 := Apply(w2, Draw(tid)).0;
            var (w4, reply) := Apply(w3, Store(tid, input));
            reply == Err(ForeignKeyViolation) && w4.db == w2.db
  {
    hide Step, NextOrderNumber, NumberTaken, NewOrder;
    CustomerRemoved(w.db, ctx, input, dto.customerId);
  }

  lemma CustomerRemoved(db: Db, ctx: Ctx, input: Input, c: Id)
    requires OwnedBy(db.customers, ctx.org, c)
    ensures c !in Step(db, Call(ctx, input, CustomerRemove(c))).0.customers
  {
  }

  // --- how high numbers get ---------------------------------------------

  /** At every point of the run the organization has fewer than `p` orders. */
  ghost predicate CountsBelow(w: World, es: seq<Event>, org: OrgId, p: nat)
    decreases |es|
  {
    CountOf(w.db.orders, org) < p && (es == [] || CountsBelow(Apply(w, es[0]).0, es[1..], org, p))
  }

  ghost predicate DraftsWithin(w: World, org: OrgId, p: nat) {
    forall t :: t in w.drafts && w.drafts[t].Numbered? && w.drafts[t].ctx.org == org ==>
                  exists k: nat :: 1 <= k <= p && w.drafts[t].number == FormatNumber(k)
  }

  lemma StoreStaysWithin(w: World, tid: nat, input: Input, org: OrgId, p: nat)
    requires tid in w.drafts && w.drafts[tid].Numbered? && input.newId !in w.db.orders
    requires AllWithin(w.db.orders, org, p) && DraftsWithin(w, org, p)
    ensures AllWithin(Insertion(w.db, w.drafts[tid], input).0.orders, org, p)
  {
    hide FormatNumber, NumberTaken;
    var draft, db' := w.drafts[tid], Insertion(w.db, w.drafts[tid], input).0;
    forall o | o in db'.orders && db'.orders[o].org == org ensures NumberedWithin(db'.orders[o].row, p) {
      if o in w.db.orders && db'.orders[o] == w.db.orders[o] {
        assert NumberedWithin(w.db.orders[o].row, p);
      } else {
        assert db'.orders[o].row.orderNumber == draft.number;
      }
    }
  }

  lemma DrawStaysWithin(w: World, e: Event, org: OrgId, p: nat)
    requires e.Draw? && CountOf(w.db.orders, org) < p && DraftsWithin(w, org, p)
    ensures DraftsWithin(Apply(w, e).0, org, p)
  {
    hide FormatNumber, CountOf;
    var w1 := Apply(w, e).0;
    forall t | t in w1.drafts && w1.drafts[t].Numbered? && w1.drafts[t].ctx.org == org
      ensures exists k: nat :: 1 <= k <= p && w1.drafts[t].number == FormatNumber(k)
    {
      if t == e.tid && w1 != w {
        assert w1.drafts[t].number == FormatNumber(CountOf(w.db.orders, org) + 1);
      } else {
        assert t in w.drafts && w1.drafts[t] == w.drafts[t];
      }
    }
  }

  /**
   * A number can be stored after the orders it was counted on are gone, so under interleaving numbers
   * may exceed the peak of simultaneous orders, but by one at most.
   */
  lemma {:induction false} RacedNumbersStayWithin(w: World, es: seq<Event>, org: OrgId, p: nat)
    requires Inv(w) && FreshEvents(w, es) && CountsBelow(w, es, org, p)
    requires AllWithin(w.db.orders, org, p) && DraftsWithin(w, org, p)
    ensures AllWithin(RunAll(w, es).db.orders, org, p)
    decreases |es|
  {
    hide Step, Inv, AllWithin, DraftsWithin, Insertion, Admissible, CountOf, NextOrderNumber;
    if es != [] {
      var e, w1 := es[0], Apply(w, es[0]).0;
      StepKeepsInv(w, e);
      OneStaysWithin(w, e, org, p);
      RacedNumbersStayWithin(w1, es[1..], org, p);
    }
  }

  lemma OneStaysWithin(w: World, e: Event, org: OrgId, p: nat)
    requires Inv(w) && FreshEvent(w, e) && CountOf(w.db.orders, org) < p && CountOf(Apply(w, e).0.db.orders, org) < p
    requires AllWithin(w.db.orders, org, p) && DraftsWithin(w, org, p)
    ensures AllWithin(Apply(w, e).0.db.orders, org, p) && DraftsWithin(Apply(w, e).0, org, p)
  {
    hide Step, AllWithin, Insertion, CountOf, NextOrderNumber, FormatNumber, Consistent;
    match e
    case Check(_, _, _) =>
    case Draw(_) => DrawStaysWithin(w, e, org, p);
    case Store(tid, input) => if tid in w.drafts && w.drafts[tid].Numbered? { StoreStaysWithin(w, tid, input, org, p); }
    case Other(call) =>
      assert Consistent(w.db);
      StepStaysWithin(w.db, call, org, p);
  }

  /** A create that has drawn its number. */
  ghost function Drawn(w: World, tid: nat, ctx: Ctx, dto: CreateOrder): World {
    Apply(Apply(w, Check(tid, ctx, dto)).0, Draw(tid)).0
  }

  lemma DrawnIs(w: World, tid: nat, ctx: Ctx, dto: CreateOrder)
    requires tid !in w.drafts && OwnedBy(w.db.customers, ctx.org, dto.customerId)
    ensures Drawn(w, tid, ctx, dto)
            == w.(drafts := w.drafts[tid := Numbered(ctx, dto, NextOrderNumber(w.db.orders, ctx.org))])
  {
    hide NextOrderNumber;
    var w1 := Apply(w, Check(tid, ctx, dto)).0;
    assert w1.drafts[tid := Numbered(ctx, dto, NextOrderNumber(w.db.orders, ctx.org))]
        == w.drafts[tid := Numbered(ctx, dto, NextOrderNumber(w.db.orders, ctx.org))];
  }

  lemma OrderRemoved(db: Db, ctx: Ctx, input: Input, o: Id)
    requires OwnedBy(db.orders, ctx.org, o)
    ensures Step(db, Call(ctx, input, OrderRemove(o))).0 == db.(orders := db.orders - {o})
    ensures CountOf(db.orders - {o}, ctx.org) == CountOf(db.orders, ctx.org) - 1
  {
    assert Scope(db.orders - {o}, ctx.org) == Scope(db.orders, ctx.org) - {o};
  }

  lemma NextIsFree(t: Table<Order>, org: OrgId, o: Id)
    requires AllWithin(t, org, CountOf(t, org))
    ensures !NumberTaken(t - {o}, org, NextOrderNumber(t, org))
  {
    hide FormatNumber, CountOf;
    var n := CountOf(t, org);
    forall id | id in t - {o} && (t - {o})[id].org == org ensures t[id].row.orderNumber != FormatNumber(n + 1) {
      assert NumberedWithin(t[id].row, n);
      var k: nat :| 1 <= k <= n && t[id].row.orderNumber == FormatNumber(k);
      FormatIsInjective(k, n + 1);
    }
  }

  lemma StoredCounts(db: Db, draft: Draft, input: Input)
    requires draft.Numbered? && draft.dto.customerId in db.customers && input.newId !in db.orders
    requires !NumberTaken(db.orders, draft.ctx.org, draft.number)
    ensures var (db', reply) := Insertion(db, draft, input);
            && reply.Ok? && CountOf(db'.orders, draft.ctx.org) == CountOf(db.orders, draft.ctx.org) + 1
            && OwnedBy(db'.orders, draft.ctx.org, input.newId)
            && db'.orders[input.newId].row.orderNumber == draft.number
  {
    hide NumberTaken;
    ScopeOfInsert(db.orders, draft.ctx.org, input.newId, NewOrder(draft.dto, draft.number, input.now));
  }

  /**
   * The excess is real: where an organization has n > 0 orders, numbered within n, a create that draws its number
   * before one of them is deleted and stores it afterwards leaves a number n + 1, with never more than n orders.
   */
  lemma ExcessIsReached(w: World, tid: nat, ctx: Ctx, dto: CreateOrder, o: Id, input: Input)
    requires tid !in w.drafts && OwnedBy(w.db.customers, ctx.org, dto.customerId) && input.newId !in w.db.orders
    requires OwnedBy(w.db.orders, ctx.org, o) && AllWithin(w.db.orders, ctx.org, CountOf(w.db.orders, ctx.org))
    ensures var n, w2 := CountOf(w.db.orders, ctx.org), Drawn(w, tid, ctx, dto);
            var w3 := Apply(w2, Other(Call(ctx, input, OrderRemove(o)))).0;
            var (w4, reply) := Apply(w3, Store(tid, input));
            && reply.Ok? && w2.db == w.db && CountOf(w3.db.orders, ctx.org) == n - 1
            && CountOf(w4.db.orders, ctx.org) == n && OwnedBy(w4.db.orders, ctx.org, input.newId)
            && w4.db.orders[input.newId].row.orderNumber == FormatNumber(n + 1)
  {
    hide Step, CountOf, NumberTaken, AllWithin, FormatNumber, Insertion, Drawn, OwnedBy;
    DrawnIs(w, tid, ctx, dto);
    OrderRemoved(w.db, ctx, input, o);
    NextIsFree(w.db.orders, ctx.org, o);
    NextFormats(w.db.orders, ctx.org);
    var draft := Numbered(ctx, dto, NextOrderNumber(w.db.orders, ctx.org));
    assert dto.customerId in w.db.customers by { OwnedIsThere(w.db.customers, ctx.org, dto.customerId); }
    hide NextOrderNumber;
    StoredCounts(w.db.(orders := w.db.orders - {o}), draft, input);
  }

  lemma NextFormats(t: Table<Order>, org: OrgId)
    ensures NextOrderNumber(t, org) == FormatNumber(CountOf(t, org) + 1)
  {
  }

  lemma OwnedIsThere<T>(t: Table<T>, org: OrgId, id: Id)
    requires OwnedBy(t, org, id)
    ensures id in t
  {
  }

  // --- a concrete collision ---------------------------------------------

  /** Both succeed one after the other, but not when both draw first. */
  lemma CollisionHappens()
    ensures var w, c, dto := World(OrderGaps.Shop(), map[]), OrderGaps.CALLER, OrderGaps.Dto();
            && Inv(w)
            && var w2 := Apply(Apply(w, Check(1, c, dto)).0, Check(2, c, dto)).0;
               var w4 := Apply(Apply(w2, Draw(1)).0, Draw(2)).0;
               var (w5, r5) := Apply(w4, Store(1, Input(0, 1)));
               r5.Ok? && Apply(w5, Store(2, Input(0, 2))).1.Err?
  {
    hide NextOrderNumber, NewOrder;
    var w, c, dto := World(OrderGaps.Shop(), map[]), OrderGaps.CALLER, OrderGaps.Dto();
    OrderGaps.ShopIsConsistent();
    OrderGaps.ShopHasCustomer();
    var w2 := Apply(Apply(w, Check(1, c, dto)).0, Check(2, c, dto)).0;
    assert w2 == w.(drafts := map[1 := Checked(c, dto), 2 := Checked(c, dto)]);
    var w4 := Apply(Apply(w2, Draw(1)).0, Draw(2)).0;
    DrawsCollide(w2, 1, 2);
    assert w4.db == w.db && w4.drafts[1].ctx == c && w4.drafts[1].dto == dto;
    assert Apply(w4, Store(1, Input(0, 1))).1.Ok?;
    SecondIsRefused(w4, 1, 2, Input(0, 1), Input(0, 2));
  }
}
