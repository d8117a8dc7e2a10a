// DashboardService and AnalyticsService: answer from Redis, or compute and fill it.
module DashboardService {
  import opened Wrappers
  import opened Tables
  import opened Schema
  import opened Crm
  import opened Database
  import opened TenantContext
  import opened Redis
  import R = RedisService
  import Caches
  import Money
  import Analytics
  import Reports

  class DashboardService {
    const db: Database
    const redis: R.RedisService<Caches.Cached>
    const tenant: TenantContext

    constructor (db: Database, redis: R.RedisService<Caches.Cached>, tenant: TenantContext)
      ensures this.db == db && this.redis == redis && this.tenant == tenant
    {
      this.db, this.redis, this.tenant := db, redis, tenant;
    }

    function State(): Caches.System
      reads db, redis
    {
      Caches.System(db.State(), redis.store)
    }

    method Stats(now: Millis) returns (answer: Caches.Cached)
      requires tenant.Bound()
      modifies redis
      ensures (State(), answer) == Caches.ReadThrough(old(State()), Caches.DashboardBoard, tenant.Ctx().org, now)
    {
      var org := tenant.RequireOrganizationId();
      var cacheKey := DashboardKey(org.value);
      var cached := redis.Get(cacheKey, now);
      if cached.Some? { return cached.value; }
      var s := db.State();
      var customers, orders := Analytics.TotalCustomers(s, org.value), Analytics.TotalOrders(s, org.value);
      var revenue := Analytics.Revenue(s.orders, org.value);
      var newLeads := |Analytics.CustomersWith(s, org.value, CustomerStatus.NEW)|;
      var pendingOrders := |Analytics.OrdersWith(s.orders, org.value, OrderStatus.PENDING)|;
      answer := Caches.Dashboard(DashboardStats(customers, orders, revenue, newLeads, pendingOrders));
      redis.Set(cacheKey, answer, Some(30), now);
    }

    /** AnalyticsService.sales */
    method Sales(now: Millis) returns (answer: Caches.Cached)
      requires tenant.Bound()
      modifies redis
      ensures (State(), answer) == Caches.ReadThrough(old(State()), Caches.SalesBoard, tenant.Ctx().org, now)
    {
      var org := tenant.RequireOrganizationId();
      var cacheKey := SalesKey(org.value);
      var cached := redis.Get(cacheKey, now);
      if cached.Some? { return cached.value; }
      var s := db.State();
      var revenue, orders := Analytics.Revenue(s.orders, org.value), Analytics.TotalOrders(s, org.value);
      var byMonth := Reports.RevenueByMonth(s.orders, org.value, now, 12);
      answer := Caches.Sales(Caches.SalesReport(revenue, Money.Average(revenue, orders), orders, byMonth));
      redis.Set(cacheKey, answer, Some(60), now);
    }
  }
}
