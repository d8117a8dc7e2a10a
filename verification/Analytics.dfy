// AnalyticsRepository: read-only aggregates of one organization.
module Analytics {
  import opened Wrappers
  import opened Tables
  import opened Schema
  import opened Crm
  import opened Totals

  function TotalCustomers(db: Db, org: OrgId): nat { |Scope(db.customers, org)| }

  function TotalOrders(db: Db, org: OrgId): nat { |Scope(db.orders, org)| }

  /** Totals of the organization's orders that are not cancelled. */
  function Earnings(orders: Table<Order>, org: OrgId): map<Id, int> {
    map o | o in orders && orders[o].org == org && orders[o].row.status != OrderStatus.CANCELLED :: orders[o].row.total
  }

  /** _sum(total), in cents; an empty sum is 0. */
  function Revenue(orders: Table<Order>, org: OrgId): int { Total(Earnings(orders, org)) }

  function CustomersWith(db: Db, org: OrgId, status: CustomerStatus): set<Id> {
    set c | c in db.customers && db.customers[c].org == org && db.customers[c].row.status == status
  }

  function OrdersWith(orders: Table<Order>, org: OrgId, status: OrderStatus): set<Id> {
    set o | o in orders && orders[o].org == org && orders[o].row.status == status
  }

  /** DashboardService.stats on a cache miss. */
  function StatsOf(db: Db, org: OrgId): DashboardStats {
    DashboardStats(TotalCustomers(db, org), TotalOrders(db, org), Revenue(db.orders, org),
                   |CustomersWith(db, org, CustomerStatus.NEW)|, |OrdersWith(db.orders, org, OrderStatus.PENDING)|)
  }
}
