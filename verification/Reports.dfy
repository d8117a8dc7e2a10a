// The aggregates agree with the ledger: breakdowns, monthly buckets and revenue.
module Reports {
  import opened Wrappers
  import opened Tables
  import opened Schema
  import opened Crm
  import opened Totals
  import opened Analytics
  import opened Calendar
  import opened Tenancy
  import opened OrderLedger
  import opened OrderNumbers
  import OrderSpec
  import Consistency
  import Money
  import Purge

  // --- orders by status -------------------------------------------------

  /** groupBy status with counts: a status without orders has no entry. */
  function Breakdown(t: Table<Order>, org: OrgId): map<OrderStatus, nat> {
    map o | o in t && t[o].org == org :: t[o].row.status := |OrdersWith(t, org, t[o].row.status)|
  }

  function CountIn(m: map<OrderStatus, nat>, s: OrderStatus): nat { if s in m then m[s] else 0 }

  lemma CountInBreakdown(t: Table<Order>, org: OrgId, s: OrderStatus)
    ensures CountIn(Breakdown(t, org), s) == |OrdersWith(t, org, s)|
  {
    if s !in Breakdown(t, org) { assert OrdersWith(t, org, s) == {}; }
  }

  lemma SizeOfUnion(s: set<Id>, a: set<Id>, b: set<Id>)
    requires s == a + b && a !! b
    ensures |s| == |a| + |b|
  {
  }

  /** Orders with one of the statuses. */
  function OrdersAmong(t: Table<Order>, org: OrgId, statuses: seq<OrderStatus>): set<Id> {
    set o | o in t && t[o].org == org && t[o].row.status in statuses
  }

  function CountAmong(m: map<OrderStatus, nat>, statuses: seq<OrderStatus>): nat {
    if statuses == [] then 0 else CountIn(m, statuses[0]) + CountAmong(m, statuses[1..])
  }

  lemma {:induction false} BreakdownSumsAmong(t: Table<Order>, org: OrgId, statuses: seq<OrderStatus>)
    requires forall i, j :: 0 <= i < j < |statuses| ==> statuses[i] != statuses[j]
    ensures CountAmong(Breakdown(t, org), statuses) == |OrdersAmong(t, org, statuses)|
  {
    if statuses == [] {
      assert OrdersAmong(t, org, statuses) == {};
    } else {
      hide Breakdown;
      BreakdownSumsAmong(t, org, statuses[1..]);
      CountInBreakdown(t, org, statuses[0]);
      SizeOfUnion(OrdersAmong(t, org, statuses), OrdersWith(t, org, statuses[0]), OrdersAmong(t, org, statuses[1..]));
    }
  }

  function AllStatuses(): seq<OrderStatus> {
    [OrderStatus.PENDING, CONFIRMED, PACKAGING, SHIPPED, OrderStatus.DELIVERED, RETURNED, OrderStatus.CANCELLED]
  }

  /** The status breakdown adds up to the number of orders. */
  lemma BreakdownSums(t: Table<Order>, org: OrgId)
    ensures CountAmong(Breakdown(t, org), AllStatuses()) == |Scope(t, org)|
    ensures forall s :: s in Breakdown(t, org) ==> Breakdown(t, org)[s] == |OrdersWith(t, org, s)| > 0
  {
    BreakdownSumsAmong(t, org, AllStatuses());
    forall s: OrderStatus ensures s in AllStatuses() { StatusListed(s); }
    assert OrdersAmong(t, org, AllStatuses()) == Scope(t, org).Keys;
    assert |Scope(t, org).Keys| == |Scope(t, org)|;
    forall s | s in Breakdown(t, org) ensures |OrdersWith(t, org, s)| > 0 {
      var o :| o in t && t[o].org == org && t[o].row.status == s;
      assert o in OrdersWith(t, org, s);
    }
  }

  lemma StatusListed(s: OrderStatus)
    ensures s in AllStatuses()
  {
    var all := AllStatuses();
    assert all[0] == OrderStatus.PENDING && all[1] == CONFIRMED && all[2] == PACKAGING && all[3] == SHIPPED
           && all[4] == OrderStatus.DELIVERED && all[5] == RETURNED && all[6] == OrderStatus.CANCELLED;
  }

  // --- monthly buckets --------------------------------------------------

  // What a row contributes to its month.
  datatype Entry = Entry(month: nat, amount: int)

  datatype Bucket = Bucket(month: nat, value: int)

  function Amounts(m: map<Id, Entry>): map<Id, int> { map k | k in m :: m[k].amount }

  function InMonth(m: map<Id, Entry>, month: nat): map<Id, Entry> { map k | k in m && m[k].month == month :: m[k] }

  ghost predicate IsFirstMonth(m: map<Id, Entry>, month: nat) {
    (exists k :: k in m && m[k].month == month) && forall k :: k in m ==> month <= m[k].month
  }

  function FirstMonth(m: map<Id, Entry>): (month: nat)
    requires m != map[]
    ensures IsFirstMonth(m, month)
  {
    var months := set k | k in m :: m[k].month;
    assert forall k :: k in m ==> m[k].month in months;
    assert months != {} by { var k :| k in m; }
    Least(months)
  }

  /** GROUP BY month ORDER BY month */
  function Buckets(m: map<Id, Entry>): seq<Bucket>
    decreases |m|
  {
    if m == map[] then []
    else
      var month := FirstMonth(m);
      var group := InMonth(m, month);
      GroupShrinks(m, month);
      [Bucket(month, Total(Amounts(group)))] + Buckets(m - group.Keys)
  }

  lemma GroupShrinks(m: map<Id, Entry>, month: nat)
    requires IsFirstMonth(m, month)
    ensures |m - InMonth(m, month).Keys| < |m|
  {
    var k :| k in m && m[k].month == month;
    var rest := m - InMonth(m, month).Keys;
    assert rest.Keys <= m.Keys - {k};
    SubsetIsSmaller(rest.Keys, m.Keys - {k});
  }

  lemma {:induction false} SubsetIsSmaller(a: set<Id>, b: set<Id>)
    requires a <= b
    ensures |a| <= |b|
  {
    assert b == a + (b - a);
  }

  function SumOfBuckets(bs: seq<Bucket>): int {
    if bs == [] then 0 else bs[0].value + SumOfBuckets(bs[1..])
  }

  predicate Increasing(bs: seq<Bucket>) { forall i, j :: 0 <= i < j < |bs| ==> bs[i].month < bs[j].month }

  lemma {:induction false} BucketMonths(m: map<Id, Entry>)
    ensures Increasing(Buckets(m))
    ensures forall b :: b in Buckets(m) ==> exists k :: k in m && m[k].month == b.month
    decreases |m|
  {
    if m != map[] {
      var month := FirstMonth(m);
      var rest := m - InMonth(m, month).Keys;
      GroupShrinks(m, month);
      BucketMonths(rest);
      forall b | b in Buckets(rest) ensures month < b.month && exists k :: k in m && m[k].month == b.month {
        var k :| k in rest && rest[k].month == b.month;
        assert k in m && m[k].month == b.month;
      }
    }
  }

  lemma {:induction false} BucketSums(m: map<Id, Entry>)
    ensures SumOfBuckets(Buckets(m)) == Total(Amounts(m))
    decreases |m|
  {
    if m != map[] {
      var month := FirstMonth(m);
      var group := InMonth(m, month);
      var rest := m - group.Keys;
      GroupShrinks(m, month);
      BucketSums(rest);
      TotalSplit(Amounts(m), group.Keys);
      assert Amounts(m) - group.Keys == Amounts(rest);
      assert Restrict(Amounts(m), group.Keys) == Amounts(group);
      assert Buckets(m)[1..] == Buckets(rest);
    }
  }

  /** A month's bucket holds that month's rows, and every row has its month's bucket. */
  lemma {:induction false} BucketValues(m: map<Id, Entry>, k: Id)
    requires k in m
    ensures Bucket(m[k].month, Total(Amounts(InMonth(m, m[k].month)))) in Buckets(m)
    decreases |m|
  {
    var month := FirstMonth(m);
    var rest := m - InMonth(m, month).Keys;
    if m[k].month != month {
      GroupShrinks(m, month);
      BucketValues(rest, k);
      assert InMonth(rest, m[k].month) == InMonth(m, m[k].month);
    }
  }

  /** The buckets are exactly the months that have rows, each with the sum of its own. */
  lemma BucketsExactly(m: map<Id, Entry>, month: nat, value: int)
    ensures Bucket(month, value) in Buckets(m)
            <==> Amounts(InMonth(m, month)) != map[] && value == Total(Amounts(InMonth(m, month)))
  {
    BucketMonths(m);
    assert Amounts(InMonth(m, month)).Keys == InMonth(m, month).Keys;
    hide Buckets, Amounts;
    if k :| k in m && m[k].month == month {
      BucketValues(m, k);
      assert k in InMonth(m, month);
      var found := Bucket(month, Total(Amounts(InMonth(m, month))));
      if Bucket(month, value) in Buckets(m) { OneBucketAMonth(Buckets(m), Bucket(month, value), found); }
    } else {
      assert InMonth(m, month) == map[];
    }
  }

  lemma OneBucketAMonth(bs: seq<Bucket>, a: Bucket, b: Bucket)
    requires Increasing(bs) && a in bs && b in bs && a.month == b.month
    ensures a == b
  {
  }

  lemma {:induction false} IncreasingIsShort(bs: seq<Bucket>, low: nat, high: nat)
    requires Increasing(bs) && low <= high && forall b :: b in bs ==> low <= b.month <= high
    ensures |bs| <= high - low + 1
    decreases |bs|
  {
    if |bs| > 1 {
      var init, last := bs[..|bs| - 1], bs[|bs| - 1];
      assert bs[0] in bs && bs[0].month < last.month;
      forall b | b in init ensures low <= b.month <= last.month - 1 {}
      IncreasingIsShort(init, low, last.month - 1);
    }
  }

  /** Rows of the last `months` months. */
  function OrderEntries(t: Table<Order>, org: OrgId, now: Millis, months: nat): map<Id, Entry> {
    map o | o in t && t[o].org == org && t[o].row.status != OrderStatus.CANCELLED
            && t[o].row.createdAt >= MinusMonths(now, months)
          :: Entry(MonthOf(t[o].row.createdAt), t[o].row.total)
  }

  function CustomerEntries(t: Table<Customer>, org: OrgId, now: Millis, months: nat): map<Id, Entry> {
    map c | c in t && t[c].org == org && t[c].row.createdAt >= MinusMonths(now, months)
          :: Entry(MonthOf(t[c].row.createdAt), 1)
  }

  function RevenueByMonth(t: Table<Order>, org: OrgId, now: Millis, months: nat): seq<Bucket> {
    Buckets(OrderEntries(t, org, now, months))
  }

  function CustomerGrowth(t: Table<Customer>, org: OrgId, now: Millis, months: nat): seq<Bucket> {
    Buckets(CustomerEntries(t, org, now, months))
  }

  lemma WindowIsShort(m: map<Id, Entry>, now: Millis, months: nat)
    requires forall k :: k in m ==> MonthOf(MinusMonths(now, months)) <= m[k].month <= MonthOf(now)
    ensures |Buckets(m)| <= months + 1
  {
    BucketMonths(m);
    var high := MonthOf(now);
    if months <= high {
      MinusMonthsLands(now, months);
      IncreasingIsShort(Buckets(m), high - months, high);
    } else {
      IncreasingIsShort(Buckets(m), 0, high);
    }
  }

  /** Revenue of the window, which is no more than all revenue. */
  lemma WindowRevenue(t: Table<Order>, org: OrgId, now: Millis, months: nat)
    requires AllNear(t)
    ensures 0 <= Total(Amounts(OrderEntries(t, org, now, months))) <= Revenue(t, org)
  {
    hide MonthOf, MinusMonths, NearFormula;
    var m, earnings := OrderEntries(t, org, now, months), Earnings(t, org);
    TotalSplit(earnings, m.Keys);
    assert Restrict(earnings, m.Keys) == Amounts(m);
    forall k | k in earnings ensures earnings[k] >= 0 { NearIsNonNegative(t[k].row); }
    TotalNonNegative(earnings - m.Keys);
    TotalNonNegative(Amounts(m));
  }

  lemma NearIsNonNegative(o: Order)
    requires NearFormula(o)
    ensures o.total >= 0
  {
  }

  /**
   * Month buckets rise strictly from the window's first month on, number at most months + 1 unless an
   * order is dated after now, and add up to the window's revenue, which is at most all revenue.
   */
  lemma RevenueByMonthAgrees(t: Table<Order>, org: OrgId, now: Millis, months: nat)
    requires AllNear(t)
    ensures Increasing(RevenueByMonth(t, org, now, months))
    ensures forall b :: b in RevenueByMonth(t, org, now, months) ==> MonthOf(MinusMonths(now, months)) <= b.month
    ensures (forall o :: o in t && t[o].org == org ==> t[o].row.createdAt <= now) ==>
              |RevenueByMonth(t, org, now, months)| <= months + 1
    ensures SumOfBuckets(RevenueByMonth(t, org, now, months)) == Total(Amounts(OrderEntries(t, org, now, months)))
    ensures 0 <= SumOfBuckets(RevenueByMonth(t, org, now, months)) <= Revenue(t, org)
  {
    WindowRevenue(t, org, now, months);
    hide Buckets, MonthOf, MinusMonths, Revenue, Amounts, AllNear;
    var m := OrderEntries(t, org, now, months);
    BucketMonths(m);
    BucketSums(m);
    forall k | k in m ensures MonthOf(MinusMonths(now, months)) <= m[k].month {
      MonthGrows(MinusMonths(now, months), t[k].row.createdAt);
    }
    if forall o :: o in t && t[o].org == org ==> t[o].row.createdAt <= now {
      forall k | k in m ensures MonthOf(MinusMonths(now, months)) <= m[k].month <= MonthOf(now) {
        MonthGrows(t[k].row.createdAt, now);
      }
      WindowIsShort(m, now, months);
    }
  }

  lemma {:induction false} TotalOfOnes(m: map<Id, int>)
    requires forall k :: k in m ==> m[k] == 1
    ensures Total(m) == |m|
    decreases |m|
  {
    if m != map[] {
      var k :| k in m && Total(m) == m[k] + Total(m - {k});
      TotalOfOnes(m - {k});
    }
  }

  /** New customers per month add up to the customers created in the window. */
  lemma CustomerGrowthAgrees(t: Table<Customer>, org: OrgId, now: Millis, months: nat)
    ensures Increasing(CustomerGrowth(t, org, now, months))
    ensures SumOfBuckets(CustomerGrowth(t, org, now, months)) == |CustomerEntries(t, org, now, months)|
  {
    var m := CustomerEntries(t, org, now, months);
    BucketMonths(m);
    BucketSums(m);
    TotalOfOnes(Amounts(m));
    assert Amounts(m).Keys == m.Keys;
    assert |Amounts(m).Keys| == |Amounts(m)| && |m.Keys| == |m|;
  }

  // --- conservation of revenue ------------------------------------------

  /** What an order contributes to revenue. */
  function Earned(o: Order): int { if o.status == OrderStatus.CANCELLED then 0 else o.total }

  lemma OthersEarnTheSame(t: Table<Order>, t': Table<Order>, org: OrgId)
    requires forall a :: a != org ==> Scope(t', a) == Scope(t, a)
    ensures forall a :: a != org ==> Revenue(t', a) == Revenue(t, a)
  {
    hide Revenue;
    forall a | a != org ensures Revenue(t', a) == Revenue(t, a) {
      ScopeEarns(t, a);
      ScopeEarns(t', a);
    }
  }

  lemma ScopeEarns(t: Table<Order>, org: OrgId)
    ensures Revenue(t, org) == Revenue(Scope(t, org), org)
  {
    assert Earnings(t, org) == Earnings(Scope(t, org), org);
  }

  lemma RevenueAfterInsert(t: Table<Order>, org: OrgId, id: Id, row: Order)
    requires id !in t
    ensures Revenue(Insert(t, org, id, row), org) == Revenue(t, org) + Earned(row)
    ensures forall a :: a != org ==> Revenue(Insert(t, org, id, row), a) == Revenue(t, a)
  {
    var t' := Insert(t, org, id, row);
    if row.status == OrderStatus.CANCELLED {
      assert Earnings(t', org) == Earnings(t, org);
    } else {
      assert Earnings(t', org) == Earnings(t, org)[id := row.total];
      TotalPut(Earnings(t, org), id, row.total);
    }
    assert forall a :: a != org ==> Revenue(t', a) == Revenue(t, a) by {
      hide Revenue;
      ScopeOfInsert(t, org, id, row);
      OthersEarnTheSame(t, t', org);
    }
  }

  lemma RevenueAfterRewrite(t: Table<Order>, org: OrgId, id: Id, row: Order)
    requires OwnedBy(t, org, id)
    ensures Revenue(t[id := Owned(org, row)], org) == Revenue(t, org) - Earned(t[id].row) + Earned(row)
    ensures forall a :: a != org ==> Revenue(t[id := Owned(org, row)], a) == Revenue(t, a)
  {
    var t' := t[id := Owned(org, row)];
    var m, m' := Earnings(t, org), Earnings(t', org);
    if id in m { TotalRemove(m, id); } else { assert m - {id} == m; }
    if id in m' { TotalRemove(m', id); } else { assert m' - {id} == m'; }
    assert m - {id} == m' - {id};
    assert forall a :: a != org ==> Revenue(t', a) == Revenue(t, a) by {
      hide Revenue;
      ScopeOfUpdate(t, org, id, row);
      OthersEarnTheSame(t, t', org);
    }
  }

  lemma RevenueAfterDelete(t: Table<Order>, org: OrgId, ids: set<Id>)
    requires forall id :: id in ids ==> OwnedBy(t, org, id)
    ensures Revenue(t - ids, org) == Revenue(t, org) - Total(Restrict(Earnings(t, org), ids))
    ensures forall a :: a != org ==> Revenue(t - ids, a) == Revenue(t, a)
  {
    TotalSplit(Earnings(t, org), ids);
    assert Earnings(t - ids, org) == Earnings(t, org) - ids;
    assert forall a :: a != org ==> Revenue(t - ids, a) == Revenue(t, a) by {
      hide Revenue;
      ScopeOfRemoval(t, org, ids);
      OthersEarnTheSame(t, t - ids, org);
    }
  }

  /** By how much the request should move its organization's revenue. */
  ghost function RevenueChange(db: Db, call: Call): int {
    var r, t, t' := call.request, db.orders, Step(db, call).0.orders;
    if DeletesOrders(r) then -Total(Restrict(Earnings(t, call.ctx.org), DeletedBy(db, call)))
    else if Step(db, call).1.Err? then 0
    else if CreatesOrder(r) then (if call.input.newId in t' then Earned(t'[call.input.newId].row) else 0)
    else if r.OrderUpdate? || r.OrderChangeStatus? then
      (if r.id in t && r.id in t' then Earned(t'[r.id].row) - Earned(t[r.id].row) else 0)
    else 0
  }

  /** Every request moves revenue by exactly what its own orders earn more or less; no other organization's moves. */
  lemma StepMovesRevenue(db: Db, call: Call)
    requires Consistent(db) && Admissible(db, call)
    ensures Revenue(Step(db, call).0.orders, call.ctx.org)
            == Revenue(db.orders, call.ctx.org) + RevenueChange(db, call)
    ensures forall a :: a != call.ctx.org ==> Revenue(Step(db, call).0.orders, a) == Revenue(db.orders, a)
  {
    hide Step, Consistent, Revenue, OrderSpec.NumberTaken, OrderSpec.NextOrderNumber;
    var r, t, t', org := call.request, db.orders, Step(db, call).0.orders, call.ctx.org;
    if !WritesOrders(r) {
      OtherRequestsLeaveOrders(db, call);
    } else if DeletesOrders(r) {
      assert OrdersLinked(db) by { ConsistentLinksOrders(db); }
      RemoveDeletes(db, call);
      RevenueAfterDelete(t, org, DeletedBy(db, call));
    } else if CreatesOrder(r) {
      CreateInserts(db, call);
      if Step(db, call).1.Ok? { RevenueAfterInsert(t, org, call.input.newId, t'[call.input.newId].row); }
    } else {
      UpdateRewrites(db, call);
      if Step(db, call).1.Ok? { RevenueAfterRewrite(t, org, r.id, t'[r.id].row); }
    }
  }

  /** The changes of the organization's own requests along a run. */
  ghost function RevenueMoved(db: Db, calls: seq<Call>, org: OrgId): int
    decreases |calls|
  {
    if calls == [] then 0
    else (if calls[0].ctx.org == org then RevenueChange(db, calls[0]) else 0)
         + RevenueMoved(Step(db, calls[0]).0, calls[1..], org)
  }

  /** Over any run an organization's revenue moves by the sum of what its own requests moved. */
  lemma {:induction false} RunMovesRevenue(db: Db, calls: seq<Call>, org: OrgId)
    requires Consistent(db) && AdmissibleRun(db, calls)
    ensures Revenue(Run(db, calls).0.orders, org) == Revenue(db.orders, org) + RevenueMoved(db, calls, org)
    decreases |calls|
  {
    hide Step, Consistent, Revenue, RevenueChange, AdmissibleRun, Admissible;
    if calls != [] {
      Purge.RunStaysAdmissible(db, calls);
      Consistency.StepKeepsConsistent(db, calls[0]);
      StepMovesRevenue(db, calls[0]);
      RunMovesRevenue(Step(db, calls[0]).0, calls[1..], org);
    }
  }

  // --- conversion rate --------------------------------------------------

  function Converted(db: Db, org: OrgId): set<Id> {
    CustomersWith(db, org, ORDERED) + CustomersWith(db, org, CustomerStatus.DELIVERED)
  }

  /** AnalyticsService.customers: the two counts over the total, in hundredths of a percent. */
  function ConversionRate(db: Db, org: OrgId): int {
    var total := TotalCustomers(db, org);
    var converted := |CustomersWith(db, org, ORDERED)| + |CustomersWith(db, org, CustomerStatus.DELIVERED)|;
    if total == 0 then 0 else Money.RoundCents((converted as real / total as real) * 100.0)
  }

  /** The rate is the rounded share of converted customers, and never leaves 0..100 percent. */
  lemma ConversionRateIsAShare(db: Db, org: OrgId)
    ensures ConversionRate(db, org) == Money.Average(10000 * |Converted(db, org)|, TotalCustomers(db, org))
    ensures 0 <= ConversionRate(db, org) <= 10000
  {
    var n, total := |Converted(db, org)|, TotalCustomers(db, org);
    assert Converted(db, org) <= Scope(db.customers, org).Keys;
    SubsetIsSmaller(Converted(db, org), Scope(db.customers, org).Keys);
    assert |Scope(db.customers, org).Keys| == total;
    SizeOfUnion(Converted(db, org), CustomersWith(db, org, ORDERED), CustomersWith(db, org, CustomerStatus.DELIVERED));
    hide Money.RoundCents, Converted, CustomersWith, TotalCustomers;
    if total > 0 {
      assert (n as real / total as real) * 100.0 == Money.Units(10000 * n) / total as real;
      Money.AverageIsClose(10000 * n, total);
      Money.ShareStaysWithin(Money.Average(10000 * n, total), n, total);
    }
  }
}
