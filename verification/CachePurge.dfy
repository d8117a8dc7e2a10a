// Isolation with the caches in between: an organization's cached figures and its replies
// are the same whether or not the other organizations exist.
module CachePurge {
  import opened Wrappers
  import opened Tables
  import opened Schema
  import opened Crm
  import opened Redis
  import opened Caches
  import Tenancy
  import Analytics
  import Consistency
  import Isolation
  import Purge
  import Reports

  datatype Answer = Replied(reply: Result<Reply, Failure>) | Answered(cached: Cached) | Silent

  ghost function Respond(w: System, e: Event): (System, Answer) {
    match e
    case Request(call) => (Next(w, e), Replied(Tenancy.Step(w.db, call).1))
    case Read(board, org, now) => (Next(w, e), Answered(ReadThrough(w, board, org, now).1))
    case Blacklist(_, _, _) => (Next(w, e), Silent)
  }

  ghost function RunAll(w: System, es: seq<Event>): (r: (System, seq<Answer>))
    ensures |r.1| == |es|
    decreases |es|
  {
    if es == [] then (w, [])
    else
      var (w1, answer) := Respond(w, es[0]);
      var (w2, answers) := RunAll(w1, es[1..]);
      (w2, [answer] + answers)
  }

  predicate Concerns(e: Event, org: OrgId) {
    match e
    case Request(call) => call.ctx.org == org
    case Read(_, o, _) => o == org
    case Blacklist(_, _, _) => false
  }

  function EventsOf(es: seq<Event>, org: OrgId): seq<Event> {
    if es == [] then [] else (if Concerns(es[0], org) then [es[0]] else []) + EventsOf(es[1..], org)
  }

  function AnswersTo(es: seq<Event>, answers: seq<Answer>, org: OrgId): seq<Answer>
    requires |es| == |answers|
  {
    if es == [] then []
    else (if Concerns(es[0], org) then [answers[0]] else []) + AnswersTo(es[1..], answers[1..], org)
  }

  /** The requests among the events. */
  function Calls(es: seq<Event>): seq<Tenancy.Call> {
    if es == [] then [] else (if es[0].Request? then [es[0].call] else []) + Calls(es[1..])
  }

  // --- one organization's part of the system ----------------------------

  predicate IsOwnKey(key: string, org: OrgId) { key == DashboardKey(org) || key == SalesKey(org) }

  function OwnEntries(store: Store<Cached>, org: OrgId): Store<Cached> {
    map key | key in store && IsOwnKey(key, org) :: store[key]
  }

  function ViewOf(w: System, org: OrgId): System { System(Tenancy.View(w.db, org), OwnEntries(w.store, org)) }

  lemma OwnKeys(board: Board, org: OrgId, other: OrgId, jti: string)
    ensures IsOwnKey(KeyOf(board, org), org)
    ensures other != org ==> !IsOwnKey(KeyOf(board, other), org)
    ensures !IsOwnKey(BlacklistKey(jti), org)
  {
    KeysDiffer(board, other, DashboardBoard, org, jti);
    KeysDiffer(board, other, SalesBoard, org, jti);
    KeysDiffer(DashboardBoard, org, DashboardBoard, org, jti);
    KeysDiffer(SalesBoard, org, SalesBoard, org, jti);
  }

  lemma FiguresAreLocal(board: Board, db: Db, org: OrgId, now: Millis)
    ensures Computed(board, Tenancy.View(db, org), org, now) == Computed(board, db, org, now)
  {
    if board == DashboardBoard {
      Isolation.StatsAreLocal(db, org);
    } else {
      var t := db.orders;
      assert Scope(Scope(t, org), org) == Scope(t, org);
      Reports.ScopeEarns(t, org);
      assert Reports.OrderEntries(Scope(t, org), org, now, 12) == Reports.OrderEntries(t, org, now, 12);
    }
  }

  lemma OwnReadOnView(w: System, board: Board, org: OrgId, now: Millis)
    ensures ReadThrough(ViewOf(w, org), board, org, now)
            == (ViewOf(ReadThrough(w, board, org, now).0, org), ReadThrough(w, board, org, now).1)
  {
    FiguresAreLocal(board, w.db, org, now);
    OwnKeys(board, org, org, "");
    hide Computed, KeyOf, IsOwnKey, Tenancy.View;
    var key := KeyOf(board, org);
    if Get(w.store, key, now).None? {
      var entry := Entry(Computed(board, w.db, org, now), Some(now + KeptFor(board) * 1000));
      assert OwnEntries(w.store[key := entry], org) == OwnEntries(w.store, org)[key := entry];
    }
  }

  lemma OtherWritesUnseen(store: Store<Cached>, key: string, entry: Entry<Cached>, org: OrgId)
    requires !IsOwnKey(key, org)
    ensures OwnEntries(store[key := entry], org) == OwnEntries(store, org)
  {
  }

  lemma RespondOnView(w: System, e: Event, org: OrgId)
    requires Tenancy.Consistent(w.db) && (e.Request? ==> Tenancy.Admissible(w.db, e.call))
    ensures if Concerns(e, org) then Respond(ViewOf(w, org), e) == (ViewOf(Respond(w, e).0, org), Respond(w, e).1)
            else ViewOf(Respond(w, e).0, org) == ViewOf(w, org)
  {
    hide Tenancy.Step, Tenancy.View, Tenancy.Consistent, Computed, KeyOf, IsOwnKey, OwnEntries, BlacklistKey;
    match e
    case Request(call) => Isolation.StepConfined(w.db, call);
    case Read(board, other, now) =>
      if other == org {
        OwnReadOnView(w, board, org, now);
      } else {
        OwnKeys(board, org, other, "");
        OtherWritesUnseen(w.store, KeyOf(board, other),
                          Entry(Computed(board, w.db, other, now), Some(now + KeptFor(board) * 1000)), org);
      }
    case Blacklist(jti, ttl, now) =>
      OwnKeys(DashboardBoard, org, org, jti);
      OtherWritesUnseen(w.store, BlacklistKey(jti), Entry(Mark, Some(now + ttl * 1000)), org);
  }

  lemma StaysReady(w: System, es: seq<Event>)
    requires es != [] && Tenancy.Consistent(w.db) && Tenancy.AdmissibleRun(w.db, Calls(es))
    ensures es[0].Request? ==> Tenancy.Admissible(w.db, es[0].call)
    ensures Tenancy.Consistent(Respond(w, es[0]).0.db)
    ensures Tenancy.AdmissibleRun(Respond(w, es[0]).0.db, Calls(es[1..]))
  {
    hide Tenancy.Step, Tenancy.Consistent;
    if es[0].Request? {
      var calls := Calls(es);
      assert calls[0] == es[0].call && calls[1..] == Calls(es[1..]);
      Purge.RunStaysAdmissible(w.db, calls);
      Consistency.StepKeepsConsistent(w.db, es[0].call);
    } else {
      assert Calls(es) == Calls(es[1..]);
    }
  }

  /** What the organization experiences is the run of its own events on its own part of the system. */
  lemma {:induction false} RunOnView(w: System, es: seq<Event>, org: OrgId)
    requires Tenancy.Consistent(w.db) && Tenancy.AdmissibleRun(w.db, Calls(es))
    ensures RunAll(ViewOf(w, org), EventsOf(es, org))
            == (ViewOf(RunAll(w, es).0, org), AnswersTo(es, RunAll(w, es).1, org))
    decreases |es|
  {
    hide Respond, Tenancy.Consistent, Tenancy.AdmissibleRun, Tenancy.Admissible, ViewOf, Concerns, Calls;
    if es != [] {
      StaysReady(w, es);
      RespondOnView(w, es[0], org);
      var (w1, answer) := Respond(w, es[0]);
      RunOnView(w1, es[1..], org);
      var (w2, answers) := RunAll(w1, es[1..]);
      assert ([answer] + answers)[1..] == answers;
      if Concerns(es[0], org) {
        assert EventsOf(es, org)[0] == es[0] && EventsOf(es, org)[1..] == EventsOf(es[1..], org);
      } else {
        assert EventsOf(es, org) == EventsOf(es[1..], org);
        assert AnswersTo(es, [answer] + answers, org) == AnswersTo(es[1..], answers, org);
      }
    }
  }

  // --- the purge --------------------------------------------------------

  lemma {:induction false} OwnEventsAreOwn(es: seq<Event>, org: OrgId)
    ensures EventsOf(EventsOf(es, org), org) == EventsOf(es, org)
    ensures forall e :: e in EventsOf(es, org) ==> Concerns(e, org)
    decreases |es|
  {
    if es != [] {
      OwnEventsAreOwn(es[1..], org);
      if Concerns(es[0], org) {
        assert EventsOf(es, org)[0] == es[0] && EventsOf(es, org)[1..] == EventsOf(es[1..], org);
      } else {
        assert EventsOf(es, org) == EventsOf(es[1..], org);
      }
    }
  }

  lemma {:induction false} AllAnswersOwn(es: seq<Event>, answers: seq<Answer>, org: OrgId)
    requires |es| == |answers| && forall e :: e in es ==> Concerns(e, org)
    ensures AnswersTo(es, answers, org) == answers
    decreases |es|
  {
    if es != [] { AllAnswersOwn(es[1..], answers[1..], org); }
  }

  lemma {:induction false} OwnCalls(es: seq<Event>, org: OrgId)
    ensures Calls(EventsOf(es, org)) == Purge.CallsOf(Calls(es), org)
    decreases |es|
  {
    if es != [] {
      var rest, calls := EventsOf(es[1..], org), Calls(es);
      OwnCalls(es[1..], org);
      if es[0].Request? { assert calls[0] == es[0].call && calls[1..] == Calls(es[1..]); }
      else { assert calls == Calls(es[1..]); }
      if Concerns(es[0], org) {
        assert EventsOf(es, org)[0] == es[0] && EventsOf(es, org)[1..] == rest;
      } else {
        assert EventsOf(es, org) == rest;
      }
    }
  }

  /**
   * Purge, caches included: remove every request and every read of the other organizations and every
   * blacklisting, and this organization gets the same replies and the same figures at the same times.
   */
  lemma CachedPurge(w: System, es: seq<Event>, org: OrgId)
    requires Tenancy.Consistent(w.db) && Tenancy.AdmissibleRun(w.db, Calls(es))
    ensures RunAll(w, EventsOf(es, org)).1 == AnswersTo(es, RunAll(w, es).1, org)
    ensures ViewOf(RunAll(w, EventsOf(es, org)).0, org) == ViewOf(RunAll(w, es).0, org)
  {
    hide RunAll, ViewOf, Tenancy.Consistent, Tenancy.AdmissibleRun, Concerns;
    var ours := EventsOf(es, org);
    RunOnView(w, es, org);
    OwnEventsAreOwn(es, org);
    OwnCalls(es, org);
    Purge.PurgedIsAdmissible(w.db, Calls(es), org);
    RunOnView(w, ours, org);
    AllAnswersOwn(ours, RunAll(w, ours).1, org);
  }
}
