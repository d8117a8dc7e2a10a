// Count-based order numbering against the unique index.
module OrderNumbers {
  import opened Wrappers
  import opened Tables
  import opened Schema
  import opened Crm
  import opened OrderSpec
  import opened Tenancy
  import opened OrderLedger
  import Consistency
  import Purge
  import Decimal
  import S = StoreSpec

  /** What FormatNumber encodes: parseInt of everything after "ORD-". */
  function ParseNumber(s: string): Option<nat> {
    if "ORD-" <= s && Decimal.AllDigits(s[4..]) then Some(Decimal.ParseInt(s[4..])) else None
  }

  /** Numbers decode, so distinct numbers print differently, also beyond five digits. */
  lemma NumberDecodes(n: nat)
    ensures ParseNumber(FormatNumber(n)) == Some(n)
  {
    Decimal.PadStartDecodes(n, 5);
    assert FormatNumber(n)[4..] == Decimal.PadStart(Decimal.Digits(n), 5);
  }

  /** At least five digits, more only for numbers that need them. */
  lemma NumberIsPadded(n: nat)
    ensures var digits := |Decimal.Digits(n)|;
            "ORD-" <= FormatNumber(n) && |FormatNumber(n)| == 4 + (if digits < 5 then 5 else digits)
  {
    hide Decimal.Digits;
  }

  lemma FormatIsInjective(m: nat, n: nat)
    ensures FormatNumber(m) == FormatNumber(n) ==> m == n
  {
    NumberDecodes(m);
    NumberDecodes(n);
  }

  predicate Taken(t: Table<Order>, org: OrgId, n: nat) { NumberTaken(t, org, FormatNumber(n)) }

  /** The order carries one of the numbers 1..p. */
  predicate NumberedWithin(o: Order, p: nat) { exists k: nat :: 1 <= k <= p && o.orderNumber == FormatNumber(k) }

  predicate AllWithin(t: Table<Order>, org: OrgId, p: nat) {
    forall o :: o in t && t[o].org == org ==> NumberedWithin(t[o].row, p)
  }

  // --- no number above the peak -----------------------------------------

  function Larger(a: nat, b: nat): nat { if a < b then b else a }

  /** The most orders the organization has held at once, over the states of the run. */
  ghost function Peak(db: Db, calls: seq<Call>, org: OrgId): (p: nat)
    ensures p >= CountOf(db.orders, org)
    decreases |calls|
  {
    if calls == [] then CountOf(db.orders, org)
    else Larger(CountOf(db.orders, org), Peak(Step(db, calls[0]).0, calls[1..], org))
  }

  lemma WithinMore(o: Order, p: nat, q: nat)
    requires NumberedWithin(o, p) && p <= q
    ensures NumberedWithin(o, q)
  {
  }

  // --- the four ways a step can treat the orders ------------------------

  ghost predicate Inserts(t: Table<Order>, t': Table<Order>, org: OrgId, id: Id) {
    && id !in t && !NumberTaken(t, org, NextOrderNumber(t, org))
    && id in t' && t'[id].row.orderNumber == NextOrderNumber(t, org) && t' == Insert(t, org, id, t'[id].row)
  }

  ghost predicate Rewrites(t: Table<Order>, t': Table<Order>, org: OrgId, id: Id) {
    && OwnedBy(t, org, id)
    && id in t' && t'[id].row.orderNumber == t[id].row.orderNumber && t' == t[id := Owned(org, t'[id].row)]
  }

  ghost predicate Deletes(t: Table<Order>, t': Table<Order>, org: OrgId, ids: set<Id>) {
    && t' == t - ids
    && forall id :: id in ids ==> OwnedBy(t, org, id)
  }

  predicate CreatesOrder(r: Request) { r.OrderCreate? || r.ExtensionOrder? }

  predicate DeletesOrders(r: Request) { r.OrderRemove? || r.CustomerRemove? }

  lemma SpecCreateInserts(db: Db, ctx: Ctx, input: Input, dto: CreateOrder)
    requires input.newId !in db.orders
    ensures var (db', reply) := OrderSpec.Create(db, ctx, input, dto);
            if reply.Ok? then Inserts(db.orders, db'.orders, ctx.org, input.newId) else db'.orders == db.orders
  {
    hide NextOrderNumber, NumberTaken;
  }

  lemma CreateInserts(db: Db, call: Call)
    requires !IdUsed(db, call.input.newId) && CreatesOrder(call.request)
    ensures var t' := Step(db, call).0.orders;
            if Step(db, call).1.Ok? then Inserts(db.orders, t', call.ctx.org, call.input.newId) else t' == db.orders
  {
    hide Inserts, OrderSpec.Create, S.ResolveCustomer;
    var r, ctx, input := call.request, call.ctx, call.input;
    if r.OrderCreate? {
      SpecCreateInserts(db, ctx, input, r.newOrder);
    } else {
      var (db1, id) := S.ResolveCustomer(db, ctx, input, r.facebookId);
      SpecCreateInserts(db1, ctx, input,
                        CreateOrder(id, r.productName, r.quantity.GetOr(1), r.amount, None, None, None, None, None));
    }
  }

  lemma UpdateRewrites(db: Db, call: Call)
    requires call.request.OrderUpdate? || call.request.OrderChangeStatus?
    ensures var t' := Step(db, call).0.orders;
            if Step(db, call).1.Ok? then Rewrites(db.orders, t', call.ctx.org, call.request.id) else t' == db.orders
  {
    hide OrderCardOf;
  }

  /** The orders that the request deletes, by itself or through the cascade. */
  function DeletedBy(db: Db, call: Call): set<Id>
    requires DeletesOrders(call.request)
  {
    var id := call.request.id;
    if call.request.OrderRemove? then (if OwnedBy(db.orders, call.ctx.org, id) then {id} else {})
    else if OwnedBy(db.customers, call.ctx.org, id) then OrdersOf(db.orders, id)
    else {}
  }

  lemma RemoveDeletes(db: Db, call: Call)
    requires OrdersLinked(db) && DeletesOrders(call.request)
    ensures Deletes(db.orders, Step(db, call).0.orders, call.ctx.org, DeletedBy(db, call))
  {
    hide NotesOf;
  }

  // --- counting ---------------------------------------------------------

  lemma InsertCounts(t: Table<Order>, t': Table<Order>, org: OrgId, id: Id)
    requires Inserts(t, t', org, id)
    ensures CountOf(t', org) == CountOf(t, org) + 1
    ensures forall a :: a != org ==> Scope(t', a) == Scope(t, a)
  {
    ScopeOfInsert(t, org, id, t'[id].row);
  }

  lemma RewriteCounts(t: Table<Order>, t': Table<Order>, org: OrgId, id: Id)
    requires Rewrites(t, t', org, id)
    ensures forall a :: CountOf(t', a) == CountOf(t, a)
  {
    forall a ensures CountOf(t', a) == CountOf(t, a) {
      assert Scope(t', a).Keys == Scope(t, a).Keys;
      assert |Scope(t', a).Keys| == |Scope(t, a).Keys|;
    }
  }

  /** One step cannot push a number above the larger of the old ceiling and the new count. */
  lemma StepStaysWithin(db: Db, call: Call, org: OrgId, p: nat)
    requires Consistent(db) && Admissible(db, call) && AllWithin(db.orders, org, p)
    ensures AllWithin(Step(db, call).0.orders, org, Larger(p, CountOf(Step(db, call).0.orders, org)))
  {
    hide Step, Consistent, CountOf, NumberedWithin;
    var r, t, t' := call.request, db.orders, Step(db, call).0.orders;
    var q := Larger(p, CountOf(t', org));
    forall o: Order | NumberedWithin(o, p) ensures NumberedWithin(o, q) { WithinMore(o, p, q); }
    if !WritesOrders(r) {
      OtherRequestsLeaveOrders(db, call);
    } else if DeletesOrders(r) {
      assert OrdersLinked(db) by { ConsistentLinksOrders(db); }
      RemoveDeletes(db, call);
    } else if CreatesOrder(r) {
      CreateInserts(db, call);
      if Step(db, call).1.Ok? {
        InsertCounts(t, t', call.ctx.org, call.input.newId);
        NextIsWithin(t, call.ctx.org, t'[call.input.newId].row, CountOf(t, call.ctx.org) + 1);
        if call.ctx.org == org { WithinMore(t'[call.input.newId].row, CountOf(t', org), q); }
      }
    } else {
      UpdateRewrites(db, call);
      if Step(db, call).1.Ok? { SameNumberWithin(t[r.id].row, t'[r.id].row, q); }
    }
  }

  lemma ConsistentLinksOrders(db: Db)
    requires Consistent(db)
    ensures OrdersLinked(db) && OrderNumbersUnique(db.orders)
  {
  }

  lemma NextIsWithin(t: Table<Order>, org: OrgId, o: Order, n: nat)
    requires o.orderNumber == NextOrderNumber(t, org) && n == CountOf(t, org) + 1
    ensures NumberedWithin(o, n)
  {
  }

  lemma SameNumberWithin(o: Order, o': Order, p: nat)
    requires o'.orderNumber == o.orderNumber
    ensures NumberedWithin(o', p) <==> NumberedWithin(o, p)
  {
  }

  /** In every run, no order's number exceeds the most orders its organization ever held at once. */
  lemma {:induction false} NumbersStayWithinPeak(db: Db, calls: seq<Call>, org: OrgId, p: nat)
    requires Consistent(db) && AdmissibleRun(db, calls) && AllWithin(db.orders, org, p)
    ensures AllWithin(Run(db, calls).0.orders, org, Larger(p, Peak(db, calls, org)))
    ensures OrderNumbersUnique(Run(db, calls).0.orders)
    decreases |calls|
  {
    hide Step, Consistent, CountOf, NumberedWithin;
    if calls == [] {
      forall o: Order | NumberedWithin(o, p) ensures NumberedWithin(o, Larger(p, Peak(db, calls, org))) {
        WithinMore(o, p, Larger(p, Peak(db, calls, org)));
      }
      ConsistentLinksOrders(db);
    } else {
      var db1 := Step(db, calls[0]).0;
      Purge.RunStaysAdmissible(db, calls);
      Consistency.StepKeepsConsistent(db, calls[0]);
      StepStaysWithin(db, calls[0], org, p);
      var q := Larger(p, CountOf(db1.orders, org));
      NumbersStayWithinPeak(db1, calls[1..], org, q);
      forall o: Order | NumberedWithin(o, Larger(q, Peak(db1, calls[1..], org)))
        ensures NumberedWithin(o, Larger(p, Peak(db, calls, org)))
      {
        WithinMore(o, Larger(q, Peak(db1, calls[1..], org)), Larger(p, Peak(db, calls, org)));
      }
    }
  }

  // --- the pigeonhole ---------------------------------------------------

  /** Holding all of 1..m takes m orders. */
  lemma {:induction false} HoldingTakesOrders(t: Table<Order>, org: OrgId, m: nat)
    requires OrderNumbersUnique(t) && forall k: nat :: 1 <= k <= m ==> Taken(t, org, k)
    ensures CountOf(t, org) >= m
    decreases m
  {
    if m > 0 {
      assert Taken(t, org, m);
      var h :| h in t && t[h].org == org && t[h].row.orderNumber == FormatNumber(m);
      var rest := t - {h};
      forall k: nat | 1 <= k <= m - 1 ensures Taken(rest, org, k) {
        assert Taken(t, org, k);
        var o :| o in t && t[o].org == org && t[o].row.orderNumber == FormatNumber(k);
        FormatIsInjective(k, m);
        assert o in rest;
      }
      HoldingTakesOrders(rest, org, m - 1);
      assert Scope(rest, org) == Scope(t, org) - {h};
    }
  }

  predicate Blocked(t: Table<Order>, org: OrgId) { Taken(t, org, CountOf(t, org) + 1) }

  /** A create for a customer of ours fails exactly when number count+1 is still held... */
  lemma CreateFailsExactlyWhenBlocked(db: Db, ctx: Ctx, input: Input, dto: CreateOrder)
    requires OwnedBy(db.customers, ctx.org, dto.customerId)
    ensures Create(db, ctx, input, dto).1.Err? <==> Blocked(db.orders, ctx.org)
  {
  }

  /** ...and then a smaller number lies unused. */
  lemma BlockedWastesANumber(t: Table<Order>, org: OrgId) returns (k: nat)
    requires OrderNumbersUnique(t) && Blocked(t, org)
    ensures 1 <= k <= CountOf(t, org) && !Taken(t, org, k)
  {
    var n := CountOf(t, org);
    if forall k: nat :: 1 <= k <= n ==> Taken(t, org, k) {
      HoldingTakesOrders(t, org, n + 1);
      assert false;
    }
    k :| 1 <= k <= n && !Taken(t, org, k);
  }

  // --- without deletions ------------------------------------------------

  /** The organization's n orders hold exactly the numbers 1..n. */
  ghost predicate Dense(t: Table<Order>, org: OrgId) {
    && AllWithin(t, org, CountOf(t, org))
    && forall k: nat :: 1 <= k <= CountOf(t, org) ==> Taken(t, org, k)
  }

  lemma DenseIsWithin(t: Table<Order>, org: OrgId)
    requires Dense(t, org)
    ensures AllWithin(t, org, CountOf(t, org))
  {
  }

  lemma DenseIsNotBlocked(t: Table<Order>, org: OrgId)
    requires AllWithin(t, org, CountOf(t, org))
    ensures !Blocked(t, org)
  {
    var n := CountOf(t, org);
    if Taken(t, org, n + 1) {
      var o :| o in t && t[o].org == org && t[o].row.orderNumber == FormatNumber(n + 1);
      var k: nat :| 1 <= k <= n && t[o].row.orderNumber == FormatNumber(k);
      FormatIsInjective(k, n + 1);
      assert false;
    }
  }

  lemma TakenStays(t: Table<Order>, t': Table<Order>, org: OrgId, k: nat)
    requires Taken(t, org, k)
    requires forall o :: o in t ==> o in t' && t'[o].org == t[o].org && t'[o].row.orderNumber == t[o].row.orderNumber
    ensures Taken(t', org, k)
  {
    var o :| o in t && t[o].org == org && t[o].row.orderNumber == FormatNumber(k);
    assert o in t' && t'[o].row.orderNumber == FormatNumber(k);
  }

  /** Creates and edits keep the numbering dense; only deletions can break it. */
  lemma StepStaysDense(db: Db, call: Call, org: OrgId)
    requires Consistent(db) && Admissible(db, call) && Dense(db.orders, org) && !DeletesOrders(call.request)
    ensures Dense(Step(db, call).0.orders, org)
  {
    hide Step, Consistent, CountOf, NumberedWithin, FormatNumber;
    var r, t, t' := call.request, db.orders, Step(db, call).0.orders;
    StepStaysWithin(db, call, org, CountOf(t, org));
    if !WritesOrders(r) {
      OtherRequestsLeaveOrders(db, call);
    } else if CreatesOrder(r) {
      CreateInserts(db, call);
      if Step(db, call).1.Ok? {
        InsertCounts(t, t', call.ctx.org, call.input.newId);
        assert Taken(t', call.ctx.org, CountOf(t, call.ctx.org) + 1);
        assert call.ctx.org != org ==> CountOf(t', org) == CountOf(t, org) by { SameScopeCounts(t, t', org); }
        forall k: nat | 1 <= k <= CountOf(t, org) ensures Taken(t', org, k) { TakenStays(t, t', org, k); }
      }
    } else {
      UpdateRewrites(db, call);
      if Step(db, call).1.Ok? {
        RewriteCounts(t, t', call.ctx.org, r.id);
        forall k: nat | 1 <= k <= CountOf(t, org) ensures Taken(t', org, k) { TakenStays(t, t', org, k); }
      }
    }
  }

  lemma SameScopeCounts(t: Table<Order>, t': Table<Order>, org: OrgId)
    ensures Scope(t', org) == Scope(t, org) ==> CountOf(t', org) == CountOf(t, org)
  {
  }

  /** Without deletions, n orders are numbered exactly 1..n after every run, and the next create is not blocked. */
  lemma {:induction false} RunStaysDense(db: Db, calls: seq<Call>, org: OrgId)
    requires Consistent(db) && AdmissibleRun(db, calls) && Dense(db.orders, org)
    requires forall c :: c in calls ==> !DeletesOrders(c.request)
    ensures Dense(Run(db, calls).0.orders, org) && !Blocked(Run(db, calls).0.orders, org)
    decreases |calls|
  {
    hide Step, Consistent, Dense, Blocked;
    assert AllWithin(db.orders, org, CountOf(db.orders, org)) by { DenseIsWithin(db.orders, org); }
    DenseIsNotBlocked(db.orders, org);
    if calls != [] {
      Purge.RunStaysAdmissible(db, calls);
      Consistency.StepKeepsConsistent(db, calls[0]);
      StepStaysDense(db, calls[0], org);
      RunStaysDense(Step(db, calls[0]).0, calls[1..], org);
    }
  }

  // --- while blocked ----------------------------------------------------

  /** A blocked organization stays blocked until one of its own orders is deleted. */
  lemma BlockedUntilDeletion(db: Db, call: Call, org: OrgId)
    requires Consistent(db) && Admissible(db, call) && Blocked(db.orders, org)
    requires call.ctx.org == org ==> !DeletesOrders(call.request)
    ensures Blocked(Step(db, call).0.orders, org)
  {
    hide Step, Consistent, CountOf, FormatNumber;
    var r, t, t' := call.request, db.orders, Step(db, call).0.orders;
    if !WritesOrders(r) {
      OtherRequestsLeaveOrders(db, call);
    } else if DeletesOrders(r) {
      assert OrdersLinked(db) by { ConsistentLinksOrders(db); }
      RemoveDeletes(db, call);
      ScopeOfRemoval(t, call.ctx.org, DeletedBy(db, call));
      BlockedIsLocal(t, t', org);
    } else if CreatesOrder(r) {
      CreateInserts(db, call);
      if Step(db, call).1.Ok? {
        InsertCounts(t, t', call.ctx.org, call.input.newId);
        if call.ctx.org != org { BlockedIsLocal(t, t', org); } else { NextIsNotBlocked(t, org); }
      }
    } else {
      UpdateRewrites(db, call);
      if Step(db, call).1.Ok? {
        RewriteCounts(t, t', call.ctx.org, r.id);
        TakenStays(t, t', org, CountOf(t, org) + 1);
      }
    }
  }

  lemma NextIsNotBlocked(t: Table<Order>, org: OrgId)
    ensures NumberTaken(t, org, NextOrderNumber(t, org)) <==> Blocked(t, org)
  {
  }

  lemma BlockedIsLocal(t: Table<Order>, t': Table<Order>, org: OrgId)
    requires Scope(t', org) == Scope(t, org) && Blocked(t, org)
    ensures Blocked(t', org)
  {
    hide FormatNumber;
    var o :| o in t && t[o].org == org && t[o].row.orderNumber == FormatNumber(CountOf(t, org) + 1);
    assert o in Scope(t', org);
    assert o in t' && t'[o].org == org && t'[o].row.orderNumber == FormatNumber(CountOf(t', org) + 1);
  }

  lemma BlockedSpecCreate(db: Db, ctx: Ctx, input: Input, dto: CreateOrder)
    requires Blocked(db.orders, ctx.org)
    ensures OrderSpec.Create(db, ctx, input, dto).1.Err?
  {
    NextIsNotBlocked(db.orders, ctx.org);
    hide NumberTaken, NextOrderNumber, Blocked, NewOrder;
  }

  lemma BlockedCreateFails(db: Db, call: Call)
    requires Blocked(db.orders, call.ctx.org) && CreatesOrder(call.request)
    ensures Step(db, call).1.Err?
  {
    hide OrderSpec.Create, S.ResolveCustomer, Blocked;
    var r, ctx, input := call.request, call.ctx, call.input;
    if r.OrderCreate? {
      BlockedSpecCreate(db, ctx, input, r.newOrder);
    } else {
      var (db1, id) := S.ResolveCustomer(db, ctx, input, r.facebookId);
      BlockedSpecCreate(db1, ctx, input,
                        CreateOrder(id, r.productName, r.quantity.GetOr(1), r.amount, None, None, None, None, None));
    }
  }

  /** Once blocked, every create of the organization fails until one of its own orders is deleted. */
  lemma {:induction false} BlockedThroughRun(db: Db, calls: seq<Call>, org: OrgId)
    requires Consistent(db) && AdmissibleRun(db, calls) && Blocked(db.orders, org)
    requires forall c :: c in calls && c.ctx.org == org ==> !DeletesOrders(c.request)
    ensures Blocked(Run(db, calls).0.orders, org)
    ensures forall i :: 0 <= i < |calls| && calls[i].ctx.org == org && CreatesOrder(calls[i].request) ==>
                          Run(db, calls).1[i].Err?
    decreases |calls|
  {
    hide Step, Consistent, Blocked, AdmissibleRun;
    if calls != [] {
      Purge.RunStaysAdmissible(db, calls);
      Consistency.StepKeepsConsistent(db, calls[0]);
      BlockedUntilDeletion(db, calls[0], org);
      if calls[0].ctx.org == org && CreatesOrder(calls[0].request) { BlockedCreateFails(db, calls[0]); }
      BlockedThroughRun(Step(db, calls[0]).0, calls[1..], org);
    }
  }
}
