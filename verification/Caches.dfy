// The read-through caches of DashboardService.stats and AnalyticsService.sales,
// among all other requests and the logout blacklist in the same key-value store.
module Caches {
  import opened Wrappers
  import opened Tables
  import opened Schema
  import opened Crm
  import opened Redis
  import Tenancy
  import Analytics
  import Money
  import Reports

  datatype SalesReport = SalesReport(
    totalRevenue: int, avgOrderValue: int, totalOrders: nat, revenueByMonth: seq<Reports.Bucket>)

  // Redis holds JSON; what a reader gets back is whatever was stored under the key.
  datatype Cached = Dashboard(stats: DashboardStats) | Sales(report: SalesReport) | Mark

  datatype Board = DashboardBoard | SalesBoard

  function KeyOf(board: Board, org: OrgId): string {
    if board == DashboardBoard then DashboardKey(org) else SalesKey(org)
  }

  /** Seconds that an answer is kept. */
  function KeptFor(board: Board): nat { if board == DashboardBoard then 30 else 60 }

  function SalesOf(db: Db, org: OrgId, now: Millis): SalesReport {
    var revenue, orders := Analytics.Revenue(db.orders, org), Analytics.TotalOrders(db, org);
    SalesReport(revenue, Money.Average(revenue, orders), orders, Reports.RevenueByMonth(db.orders, org, now, 12))
  }

  /** The uncached answer. */
  function Computed(board: Board, db: Db, org: OrgId, now: Millis): Cached {
    if board == DashboardBoard then Dashboard(Analytics.StatsOf(db, org)) else Sales(SalesOf(db, org, now))
  }

  datatype System = System(db: Db, store: Store<Cached>)

  datatype Event =
    | Request(call: Tenancy.Call)
    | Read(board: Board, org: OrgId, now: Millis)
    | Blacklist(jti: string, ttl: nat, now: Millis)

  /** stats and sales: answer from the cache, or compute and keep. */
  function ReadThrough(w: System, board: Board, org: OrgId, now: Millis): (System, Cached) {
    match Get(w.store, KeyOf(board, org), now)
    case Some(answer) => (w, answer)
    case None =>
      var answer := Computed(board, w.db, org, now);
      (w.(store := Set(w.store, KeyOf(board, org), answer, Some(KeptFor(board)), now)), answer)
  }

  ghost function Next(w: System, e: Event): System {
    match e
    case Request(call) => w.(db := Tenancy.Step(w.db, call).0)
    case Read(board, org, now) => ReadThrough(w, board, org, now).0
    case Blacklist(jti, ttl, now) => w.(store := SetEx(w.store, BlacklistKey(jti), Mark, ttl, now))
  }

  /** The system after the first `n` events. */
  ghost function At(w: System, es: seq<Event>, n: nat): System
    requires n <= |es|
  {
    if n == 0 then w else Next(At(w, es, n - 1), es[n - 1])
  }

  predicate ReadsBoard(e: Event, board: Board, org: OrgId) { e.Read? && e.board == board && e.org == org }

  /** Event `j` found nothing to answer from and computed. */
  ghost predicate Computes(w: System, es: seq<Event>, j: nat, board: Board, org: OrgId)
    requires j < |es|
  {
    ReadsBoard(es[j], board, org) && Get(At(w, es, j).store, KeyOf(board, org), es[j].now).None?
  }

  /** The latest of the first `n` events that computed. */
  ghost function LastFill(w: System, es: seq<Event>, n: nat, board: Board, org: OrgId): (r: Option<nat>)
    requires n <= |es|
    ensures r.Some? ==> r.value < n && Computes(w, es, r.value, board, org)
  {
    if n == 0 then None
    else if Computes(w, es, n - 1, board, org) then Some(n - 1)
    else LastFill(w, es, n - 1, board, org)
  }

  lemma KeysDiffer(board: Board, org: OrgId, board': Board, org': OrgId, jti: string)
    ensures KeyOf(board, org) == KeyOf(board', org') ==> board == board' && org == org'
    ensures KeyOf(board, org) != BlacklistKey(jti)
  {
    KeysNeverMeet(org, org', jti, jti);
    KeysNeverMeet(org', org, jti, jti);
  }

  /** The store holds the latest fill, and only ever that. */
  lemma {:induction false} StoreHoldsLastFill(w: System, es: seq<Event>, n: nat, board: Board, org: OrgId)
    requires n <= |es| && KeyOf(board, org) !in w.store
    ensures KeyOf(board, org) in At(w, es, n).store <==> LastFill(w, es, n, board, org).Some?
    ensures LastFill(w, es, n, board, org).Some? ==>
              var f := LastFill(w, es, n, board, org).value;
              At(w, es, n).store[KeyOf(board, org)]
              == Entry(Computed(board, At(w, es, f).db, org, es[f].now), Some(es[f].now + KeptFor(board) * 1000))
  {
    hide Computed, KeyOf, Tenancy.Step, BlacklistKey;
    if n > 0 {
      StoreHoldsLastFill(w, es, n - 1, board, org);
      var e := es[n - 1];
      if e.Read? { KeysDiffer(board, org, e.board, e.org, ""); }
      if e.Blacklist? { KeysDiffer(board, org, board, org, e.jti); }
    }
  }

  /** Whatever is read and requested after it, a logout's mark stays as it was written. */
  lemma {:induction false} MarksOutlastReads(w: System, es: seq<Event>, j: nat, n: nat)
    requires j < n <= |es| && es[j].Blacklist?
    requires forall k :: j < k < n && es[k].Blacklist? ==> es[k].jti != es[j].jti
    ensures var key := "bl:rt:" + es[j].jti;
            && key in At(w, es, n).store
            && At(w, es, n).store[key] == Entry(Mark, Some(es[j].now + es[j].ttl * 1000))
  {
    hide Computed, KeyOf, Tenancy.Step;
    if n > j + 1 {
      MarksOutlastReads(w, es, j, n - 1);
      var e := es[n - 1];
      if e.Read? { KeysDiffer(e.board, e.org, e.board, e.org, es[j].jti); }
      if e.Blacklist? { KeysNeverMeet(OrgId(""), OrgId(""), e.jti, es[j].jti); }
    }
  }

  /** The event whose database answers read `j`. */
  ghost function Snapshot(w: System, es: seq<Event>, j: nat): (s: nat)
    requires j < |es| && es[j].Read?
  {
    LastFill(w, es, j + 1, es[j].board, es[j].org).GetOr(j)
  }

  /** A read computes exactly when the last fill, if any, is at least the board's lifetime ago. */
  lemma ComputesExactlyWhen(w: System, es: seq<Event>, j: nat)
    requires j < |es| && es[j].Read? && KeyOf(es[j].board, es[j].org) !in w.store
    ensures var board, org := es[j].board, es[j].org;
            Computes(w, es, j, board, org)
            <==> (LastFill(w, es, j, board, org).Some? ==>
                    es[LastFill(w, es, j, board, org).value].now + (if board == DashboardBoard then 30000 else 60000)
                    <= es[j].now)
  {
    hide Computed, KeyOf;
    StoreHoldsLastFill(w, es, j, es[j].board, es[j].org);
  }

  /**
   * Bounded staleness: every answer is what the same organization's query computed on the database
   * of an event no later than the read, less than 30 (60) seconds ago.
   */
  lemma AnswersAreRecent(w: System, es: seq<Event>, j: nat)
    requires j < |es| && es[j].Read? && KeyOf(es[j].board, es[j].org) !in w.store
    ensures var s, board, org := Snapshot(w, es, j), es[j].board, es[j].org;
            && s <= j && ReadsBoard(es[s], board, org)
            && es[j].now < es[s].now + (if board == DashboardBoard then 30000 else 60000)
            && ReadThrough(At(w, es, j), board, org, es[j].now).1 == Computed(board, At(w, es, s).db, org, es[s].now)
  {
    hide Computed, KeyOf;
    StoreHoldsLastFill(w, es, j, es[j].board, es[j].org);
  }

  lemma {:induction false} FillsOnlyAdvance(w: System, es: seq<Event>, m: nat, n: nat, board: Board, org: OrgId)
    requires m <= n <= |es| && LastFill(w, es, m, board, org).Some?
    ensures LastFill(w, es, n, board, org).Some?
    ensures LastFill(w, es, m, board, org).value <= LastFill(w, es, n, board, org).value
  {
    if m < n { FillsOnlyAdvance(w, es, m, n - 1, board, org); }
  }

  /** Successive answers never go back to an older database. */
  lemma AnswersNeverGoBack(w: System, es: seq<Event>, i: nat, j: nat)
    requires i <= j < |es| && es[i].Read? && ReadsBoard(es[j], es[i].board, es[i].org)
    requires KeyOf(es[i].board, es[i].org) !in w.store
    ensures Snapshot(w, es, i) <= Snapshot(w, es, j)
  {
    hide Computed, KeyOf, At;
    StoreHoldsLastFill(w, es, i, es[i].board, es[i].org);
    FillsOnlyAdvance(w, es, i + 1, j + 1, es[i].board, es[i].org);
  }
}
