// What deletions do to count-based numbering: when exactly the next create is blocked.
module OrderGaps {
  import opened Wrappers
  import opened Tables
  import opened Schema
  import opened Crm
  import opened OrderSpec
  import opened Tenancy
  import opened OrderNumbers
  import CustomerSpec

  /** An order that stays holds the number that comes next once `ids` are gone. */
  predicate SurvivorHoldsNext(t: Table<Order>, org: OrgId, ids: set<Id>)
    requires |ids| <= CountOf(t, org)
  {
    exists o :: o in t && o !in ids && t[o].org == org
                && t[o].row.orderNumber == FormatNumber(CountOf(t, org) - |ids| + 1)
  }

  lemma RemovalCounts(t: Table<Order>, org: OrgId, ids: set<Id>)
    requires forall id :: id in ids ==> OwnedBy(t, org, id)
    ensures |ids| <= CountOf(t, org) && CountOf(t - ids, org) == CountOf(t, org) - |ids|
  {
    ScopeOfRemoval(t, org, ids);
    var all := Scope(t, org).Keys;
    assert ids <= all && Scope(t - ids, org).Keys == all - ids;
    assert |all - ids| == |all| - |ids|;
    assert |Scope(t, org).Keys| == |Scope(t, org)| && |Scope(t - ids, org).Keys| == |Scope(t - ids, org)|;
  }

  lemma RemovalBlocks(t: Table<Order>, org: OrgId, ids: set<Id>)
    requires forall id :: id in ids ==> OwnedBy(t, org, id)
    ensures |ids| <= CountOf(t, org)
    ensures Blocked(t - ids, org) <==> SurvivorHoldsNext(t, org, ids)
  {
    hide FormatNumber, CountOf;
    RemovalCounts(t, org, ids);
    var number := FormatNumber(CountOf(t, org) - |ids| + 1);
    if SurvivorHoldsNext(t, org, ids) {
      var o :| o in t && o !in ids && t[o].org == org && t[o].row.orderNumber == number;
      assert o in t - ids;
    }
    if Blocked(t - ids, org) {
      var o :| o in t - ids && (t - ids)[o].org == org && (t - ids)[o].row.orderNumber == number;
      assert o in t && o !in ids;
    }
  }

  lemma DeletedAreOwned(db: Db, call: Call)
    requires OrdersLinked(db) && DeletesOrders(call.request)
    ensures forall id :: id in DeletedBy(db, call) ==> OwnedBy(db.orders, call.ctx.org, id)
  {
  }

  /**
   * The generator's comment calls it gap-tolerant. It is not. Whether an order is deleted by itself
   * or any number of them with their customer, the organization's next create is blocked exactly
   * when a surviving order holds the number one above the count that is left.
   */
  lemma DeletionBlocksExactlyWhen(db: Db, call: Call)
    requires OrdersLinked(db) && DeletesOrders(call.request)
    ensures |DeletedBy(db, call)| <= CountOf(db.orders, call.ctx.org)
    ensures Blocked(Step(db, call).0.orders, call.ctx.org)
            <==> SurvivorHoldsNext(db.orders, call.ctx.org, DeletedBy(db, call))
  {
    hide Step, Blocked, SurvivorHoldsNext, CountOf;
    RemoveDeletes(db, call);
    DeletedAreOwned(db, call);
    hide DeletedBy, OrdersLinked;
    RemovalBlocks(db.orders, call.ctx.org, DeletedBy(db, call));
  }

  lemma OneGoneOthersStay(t: Table<Order>, org: OrgId, id: Id, k: nat, n: nat)
    requires OrderNumbersUnique(t) && OwnedBy(t, org, id) && t[id].row.orderNumber == FormatNumber(k)
    requires n == CountOf(t, org) >= 1 && Taken(t, org, n)
    ensures SurvivorHoldsNext(t, org, {id}) <==> k != n
  {
    FormatIsInjective(k, n);
    hide FormatNumber, CountOf;
    assert |{id}| == 1 && n - |{id}| + 1 == n;
    var o :| o in t && t[o].org == org && t[o].row.orderNumber == FormatNumber(n);
    assert o == id <==> k == n;
  }

  /** From orders 1..n, deleting one order blocks unless it was number n. */
  lemma DenseDeletionBlocks(t: Table<Order>, org: OrgId, id: Id, k: nat)
    requires OrderNumbersUnique(t) && Dense(t, org)
    requires OwnedBy(t, org, id) && t[id].row.orderNumber == FormatNumber(k)
    ensures Blocked(t - {id}, org) <==> k != CountOf(t, org)
  {
    var n := CountOf(t, org);
    CountsOne(t, org, id);
    assert Taken(t, org, n);
    hide FormatNumber, CountOf, Blocked, Dense, SurvivorHoldsNext, Taken;
    RemovalBlocks(t, org, {id});
    OneGoneOthersStay(t, org, id, k, n);
  }

  lemma CountsOne(t: Table<Order>, org: OrgId, id: Id)
    requires OwnedBy(t, org, id)
    ensures CountOf(t, org) >= 1
  {
    assert id in Scope(t, org);
  }

  // --- the smallest failing run -----------------------------------------

  const ORG := OrgId("org")
  const CALLER := Ctx(0, ORG, OWNER)

  /** One organization with one user and one customer, and no orders yet. */
  function Shop(): Db {
    var user := User("u@x", Digest("pw"), None, None, None, OWNER, true, true, None);
    var customer := Customer("c", None, None, None, None, None, None, CustomerStatus.NEW, None, None, None, None, 0);
    Db(map[0 := Owned(ORG, user)], map[0 := Owned(ORG, customer)], map[], map[], map[], {}, map[])
  }

  function Dto(): CreateOrder { CreateOrder(0, "p", 1, 1.0, None, None, None, None, None) }

  function CreateCall(id: Id): Call { Call(CALLER, Input(0, id), OrderCreate(Dto())) }

  function Requests(): seq<Call> {
    [CreateCall(1), CreateCall(2), Call(CALLER, Input(0, 3), OrderRemove(1)), CreateCall(4)]
  }

  function Numbered(n: nat): Owned<Order> { Owned(ORG, NewOrder(Dto(), FormatNumber(n), 0)) }

  lemma CreatesNext(db: Db, id: Id, n: nat)
    requires OwnedBy(db.customers, ORG, 0) && CountOf(db.orders, ORG) + 1 == n
    ensures Step(db, CreateCall(id))
            == if Taken(db.orders, ORG, n) then (db, Err(UniqueViolation))
               else (db.(orders := db.orders[id := Numbered(n)]), Ok(OrderRow(id, Numbered(n).row)))
  {
    hide FormatNumber, CountOf, NewOrder;
  }

  lemma ShopIsConsistent()
    ensures Consistent(Shop()) && AdmissibleRun(Shop(), Requests())
  {
  }

  lemma NumbersDiffer()
    ensures FormatNumber(1) != FormatNumber(2)
  {
    FormatIsInjective(1, 2);
  }

  function One(): Table<Order> { map[1 := Numbered(1)] }

  function Two(): Table<Order> { map[1 := Numbered(1), 2 := Numbered(2)] }

  function Left(): Table<Order> { map[2 := Numbered(2)] }

  lemma NothingTaken()
    ensures CountOf(map[], ORG) == 0 && !Taken(map[], ORG, 1)
  {
    hide FormatNumber;
    var none: Table<Order> := map[];
    assert Scope(none, ORG) == none;
  }

  lemma SingleLedger(id: Id, n: nat)
    ensures var t := map[id := Numbered(n)];
            CountOf(t, ORG) == 1 && (Taken(t, ORG, 2) <==> FormatNumber(n) == FormatNumber(2))
  {
    NumberedHasNumber(n);
    hide FormatNumber, Numbered;
    var t := map[id := Numbered(n)];
    assert Scope(t, ORG) == t && |t| == 1;
    assert t[id].row.orderNumber == FormatNumber(n);
  }

  lemma Removes(db: Db, id: Id)
    requires OwnedBy(db.orders, ORG, id)
    ensures Step(db, Call(CALLER, Input(0, 3), OrderRemove(id))) == (db.(orders := db.orders - {id}), Ok(Done))
  {
  }

  lemma NumberedIsOurs(t: Table<Order>, id: Id, n: nat)
    requires id in t && t[id] == Numbered(n)
    ensures OwnedBy(t, ORG, id)
  {
    NumberedHasNumber(n);
    hide Numbered;
  }

  lemma GapSteps()
    ensures var r, db0 := Requests(), Shop();
            var (db1, r1) := Step(db0, r[0]);
            var (db2, r2) := Step(db1, r[1]);
            var (db3, r3) := Step(db2, r[2]);
            r1.Ok? && r2.Ok? && r3 == Ok(Done) && Step(db3, r[3]).1 == Err(UniqueViolation)
  {
    hide Step, FormatNumber, Numbered, Shop, CountOf, Taken, Two, Left;
    var db0 := Shop();
    ShopHasCustomer();
    NothingTaken();
    SingleLedger(1, 1);
    SingleLedger(2, 2);
    NumbersDiffer();
    assert db0.orders[1 := Numbered(1)] == One() && One()[2 := Numbered(2)] == Two() && Left() == map[2 := Numbered(2)]
           && Two() - {1} == Left() && 1 in Two() && Two()[1] == Numbered(1) by {
      TablesGrow();
    }
    CreatesNext(db0, 1, 1);
    CreatesNext(db0.(orders := One()), 2, 2);
    NumberedIsOurs(Two(), 1, 1);
    Removes(db0.(orders := Two()), 1);
    CreatesNext(db0.(orders := Left()), 4, 2);
  }

  lemma TablesGrow()
    ensures map[][1 := Numbered(1)] == One() && One()[2 := Numbered(2)] == Two() && Left() == map[2 := Numbered(2)]
    ensures Two() - {1} == Left() && 1 in Two() && Two()[1] == Numbered(1)
  {
    hide Numbered;
    assert Two() - {1} == Left();
  }

  lemma ShopHasCustomer()
    ensures OwnedBy(Shop().customers, ORG, 0) && Shop().orders == map[]
  {
  }

  lemma NumberedHasNumber(n: nat)
    ensures Numbered(n).org == ORG && Numbered(n).row.orderNumber == FormatNumber(n)
  {
  }

  /** Two orders, the first removed, and the next create is refused: number 2 is wanted again. */
  lemma GapBlocks()
    ensures Consistent(Shop()) && AdmissibleRun(Shop(), Requests())
    ensures var replies := Run(Shop(), Requests()).1;
            replies[0].Ok? && replies[1].Ok? && replies[2] == Ok(Done) && replies[3] == Err(UniqueViolation)
  {
    ShopIsConsistent();
    GapSteps();
    hide Step, Shop, Consistent, AdmissibleRun;
    var r := Requests();
    var db1 := Step(Shop(), r[0]).0;
    var db2 := Step(db1, r[1]).0;
    var db3 := Step(db2, r[2]).0;
    assert r[1..][0] == r[1] && r[1..][1..][0] == r[2] && r[1..][1..][1..][0] == r[3];
    assert Run(db3, r[1..][1..][1..]).1[0] == Step(db3, r[3]).1;
    assert Run(db2, r[1..][1..]).1[1] == Step(db3, r[3]).1;
    assert Run(db1, r[1..]).1[2] == Step(db3, r[3]).1;
  }
}
