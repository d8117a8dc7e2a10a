// The figures of the reports against the lists of orders and customers.
module ReportFigures {
  import opened Wrappers
  import opened Tables
  import opened Schema
  import opened Crm
  import opened Totals
  import opened Analytics
  import opened Caches
  import opened Calendar
  import opened Listings
  import C = CustomerSpec
  import Money
  import O = OrderSpec
  import R = Reports

  /** All orders of the organization, as it lists them. */
  function AllOrders(db: Db, org: OrgId): map<Id, OrderCard> { O.Listing(db, org, AnyOrder()) }

  /** All its customers. */
  function AllCustomers(db: Db, org: OrgId): map<Id, CustomerCard> { C.Listing(db, org, AnyCustomer()) }

  lemma OrderCardsHoldRows(db: Db, org: OrgId)
    ensures forall o :: o in AllOrders(db, org) <==> o in db.orders && db.orders[o].org == org
    ensures forall o :: o in AllOrders(db, org) ==> AllOrders(db, org)[o].row == db.orders[o].row
  {
  }

  lemma CustomerCardsHoldRows(db: Db, org: OrgId)
    ensures forall c :: c in AllCustomers(db, org) <==> c in db.customers && db.customers[c].org == org
    ensures forall c :: c in AllCustomers(db, org) ==> AllCustomers(db, org)[c].row == db.customers[c].row
  {
    hide Agent, TagsOf, OrdersOf, NotesOf;
  }

  // --- revenue ----------------------------------------------------------

  /** The totals of the uncancelled orders of a list that are dated at or after `since`. */
  function SoldSince(cards: map<Id, OrderCard>, since: Millis): map<Id, int> {
    map o | o in cards && cards[o].row.status != OrderStatus.CANCELLED && cards[o].row.createdAt >= since
          :: cards[o].row.total
  }

  /** Those of one calendar month. */
  function SoldIn(cards: map<Id, OrderCard>, since: Millis, month: nat): map<Id, int> {
    map o | o in SoldSince(cards, since) && MonthOf(cards[o].row.createdAt) == month :: cards[o].row.total
  }

  lemma WindowIsListed(db: Db, org: OrgId, now: Millis, months: nat)
    ensures R.Amounts(R.OrderEntries(db.orders, org, now, months))
            == SoldSince(AllOrders(db, org), MinusMonths(now, months))
  {
    hide MinusMonths, MonthOf;
    OrderCardsHoldRows(db, org);
    hide AllOrders;
  }

  lemma MonthIsListed(db: Db, org: OrgId, now: Millis, months: nat, month: nat)
    ensures R.Amounts(R.InMonth(R.OrderEntries(db.orders, org, now, months), month))
            == SoldIn(AllOrders(db, org), MinusMonths(now, months), month)
  {
    hide MinusMonths, MonthOf;
    OrderCardsHoldRows(db, org);
    hide AllOrders;
  }

  /** There is a bucket for each month of the window in which something was sold, and it holds that month's total. */
  lemma MonthlyRevenueIsListed(db: Db, org: OrgId, now: Millis, months: nat, month: nat, value: int)
    ensures var sold := SoldIn(AllOrders(db, org), MinusMonths(now, months), month);
            R.Bucket(month, value) in R.RevenueByMonth(db.orders, org, now, months)
            <==> sold != map[] && value == Total(sold)
  {
    hide MinusMonths, MonthOf, AllOrders, Total, R.Amounts, R.Buckets, R.OrderEntries, R.InMonth, SoldIn;
    MonthIsListed(db, org, now, months, month);
    R.BucketsExactly(R.OrderEntries(db.orders, org, now, months), month, value);
  }

  /**
   * The sales report: as many orders as are listed, the sum of the uncancelled totals, their average to within half
   * a cent per order, and monthly buckets that rise and add up to the uncancelled totals of the last twelve months.
   */
  lemma SalesReportAgrees(db: Db, org: OrgId, now: Millis)
    ensures var orders, answer := AllOrders(db, org), Computed(SalesBoard, db, org, now);
            && answer.Sales?
            && var report := answer.report;
               && report.totalOrders == |orders|
               && report.totalRevenue == Total(Uncancelled(orders))
               && (if orders == map[] then report.avgOrderValue == 0
                   else -|orders| <= 2 * (report.avgOrderValue * |orders| - report.totalRevenue) <= |orders|)
               && report.revenueByMonth == R.RevenueByMonth(db.orders, org, now, 12)
               && R.Increasing(report.revenueByMonth)
               && R.SumOfBuckets(report.revenueByMonth) == Total(SoldSince(orders, MinusMonths(now, 12)))
  {
    OrdersCounted(db, org, OrderStatus.PENDING);
    RevenueIsListed(db, org);
    WindowIsListed(db, org, now, 12);
    R.BucketMonths(R.OrderEntries(db.orders, org, now, 12));
    R.BucketSums(R.OrderEntries(db.orders, org, now, 12));
    hide O.Listing, MinusMonths, MonthOf, R.Buckets, R.OrderEntries, R.Amounts, Uncancelled, SoldSince, Revenue,
      TotalOrders;
    if |AllOrders(db, org)| > 0 {
      Money.AverageIsClose(Revenue(db.orders, org), |AllOrders(db, org)|);
    }
    hide Money.Average;
  }

  /** The cached board is the dashboard. */
  lemma BoardIsDashboard(db: Db, org: OrgId, now: Millis)
    ensures Computed(DashboardBoard, db, org, now) == Dashboard(StatsOf(db, org))
  {
    hide StatsOf;
  }

  // --- counts -----------------------------------------------------------

  /** The breakdown counts the listed orders of each status and leaves out statuses without any. */
  lemma BreakdownIsListed(db: Db, org: OrgId, status: OrderStatus)
    ensures var n, m := |O.Listing(db, org, AnyOrder().(status := Some(status)))|, R.Breakdown(db.orders, org);
            (status in m <==> n > 0) && (status in m ==> m[status] == n)
  {
    OrdersCounted(db, org, status);
    R.CountInBreakdown(db.orders, org, status);
    R.BreakdownSums(db.orders, org);
    hide O.Listing, OrdersWith, R.Breakdown;
  }

  /** The rate is the share of the listed customers with status ORDERED or DELIVERED, in hundredths of a percent. */
  lemma ConversionIsListed(db: Db, org: OrgId)
    ensures var ordered := |C.Listing(db, org, AnyCustomer().(status := Some(ORDERED)))|;
            var delivered := |C.Listing(db, org, AnyCustomer().(status := Some(CustomerStatus.DELIVERED)))|;
            var n, rate := |AllCustomers(db, org)|, R.ConversionRate(db, org);
            if n == 0 then rate == 0 else -n <= 2 * (rate * n - 10000 * (ordered + delivered)) <= n
  {
    CustomersCounted(db, org, ORDERED);
    CustomersCounted(db, org, CustomerStatus.DELIVERED);
    R.ConversionRateIsAShare(db, org);
    R.SizeOfUnion(R.Converted(db, org), CustomersWith(db, org, ORDERED),
                  CustomersWith(db, org, CustomerStatus.DELIVERED));
    var n := |AllCustomers(db, org)|;
    if n > 0 { Money.AverageIsClose(10000 * |R.Converted(db, org)|, n); }
    hide C.Listing, Money.RoundCents, CustomersWith, R.Converted, TotalCustomers;
  }

  /** The listed customers that came in a month of the window. */
  function JoinedIn(cards: map<Id, CustomerCard>, since: Millis, month: nat): set<Id> {
    set c | c in cards && cards[c].row.createdAt >= since && MonthOf(cards[c].row.createdAt) == month
  }

  /** There is a growth bucket for each month of the window in which customers came, and it holds their number. */
  lemma MonthlyGrowthIsListed(db: Db, org: OrgId, now: Millis, months: nat, month: nat, value: int)
    ensures var joined := JoinedIn(AllCustomers(db, org), MinusMonths(now, months), month);
            R.Bucket(month, value) in R.CustomerGrowth(db.customers, org, now, months)
            <==> joined != {} && value == |joined|
  {
    hide MinusMonths, MonthOf, AllCustomers, Total, R.Amounts, R.Buckets, R.CustomerEntries, R.InMonth, JoinedIn;
    var ones := R.Amounts(R.InMonth(R.CustomerEntries(db.customers, org, now, months), month));
    JoinersAreListed(db, org, now, months, month);
    R.BucketsExactly(R.CustomerEntries(db.customers, org, now, months), month, value);
    R.TotalOfOnes(ones);
    assert |ones.Keys| == |ones|;
  }

  lemma JoinersAreListed(db: Db, org: OrgId, now: Millis, months: nat, month: nat)
    ensures var ones := R.Amounts(R.InMonth(R.CustomerEntries(db.customers, org, now, months), month));
            && ones.Keys == JoinedIn(AllCustomers(db, org), MinusMonths(now, months), month)
            && forall c :: c in ones ==> ones[c] == 1
  {
    hide MinusMonths, MonthOf;
    CustomerCardsHoldRows(db, org);
    hide AllCustomers;
  }
}
