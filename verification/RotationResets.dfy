// Which sessions of a user can be live after a reset or change of password, refreshes
// and logins in flight included.
module RotationResets {
  import opened Wrappers
  import opened Tables
  import opened Schema
  import opened AuthSpec
  import opened RotationSteps
  import opened RotationTheorems
  import opened RotationEnds

  /** A live token of the user outside the families in `without`. */
  predicate HasLiveOf(rows: seq<RefreshRow>, user: Id, without: set<Id>) {
    exists i :: 0 <= i < |rows| && rows[i].userId == user && rows[i].family !in without && Live(rows[i])
  }

  /** A request in flight that can still store a token of the user outside those families. */
  predicate Pending(auth: Auth, thread: Thread, user: Id, without: set<Id>, operator: bool) {
    match thread
    case RowRead(token, _, f) => token.sub == user && f !in without && (operator || ActiveUser(auth, user))
    case UserRead(id, _, _, f) => id == user && f !in without
    case LoginChecked(id, _) => id == user
    case VerificationOwed(id, _) => id == user
    case TokensDue(id, _, rotation) => id == user && (rotation.Some? ==> rotation.value.family !in without)
    case RowDue(id, f, _, _, _) => id == user && f !in without
    case _ => false
  }

  predicate SomePending(w: World, user: Id, without: set<Id>, operator: bool) {
    exists tid :: tid in w.threads && Pending(w.auth, w.threads[tid], user, without, operator)
  }

  predicate AllPresent(rows: seq<RefreshRow>, families: set<Id>) { forall f :: f in families ==> Present(rows, f) }

  /** Nothing of the user is live there, and nothing in flight can make it so. */
  predicate Spent(w: World, user: Id, without: set<Id>, operator: bool) {
    && user in w.auth.users && AllPresent(w.auth.refreshTokens, without)
    && !HasLiveOf(w.auth.refreshTokens, user, without) && !SomePending(w, user, without, operator)
  }

  // --- nothing comes of nothing -----------------------------------------

  lemma LookupReadsLive(w: World, tid: nat, env: Env, user: Id, without: set<Id>, operator: bool)
    requires Inv(w) && FreshEvent(w, Advance(tid, env)) && tid in w.threads && w.threads[tid].RefreshVerified?
    requires var w' := Apply(w, Advance(tid, env)); Pending(w'.auth, w'.threads[tid], user, without, operator)
    ensures HasLiveOf(w.auth.refreshTokens, user, without)
  {
    NewPositionIsGood(w, tid, env);
    hide FindRefreshByHash, Inv;
    var t := Apply(w, Advance(tid, env)).threads[tid];
    assert w.auth.refreshTokens[t.row].userId == user && Live(w.auth.refreshTokens[t.row]);
  }

  lemma NewlyPending(w: World, tid: nat, env: Env, user: Id, without: set<Id>, operator: bool)
    requires Inv(w) && FreshEvent(w, Advance(tid, env)) && tid in w.threads && user in w.auth.users
    requires !LogsIn(w, Advance(tid, env)) && !w.threads[tid].RefreshVerified?
    requires var w' := Apply(w, Advance(tid, env)); Pending(w'.auth, w'.threads[tid], user, without, operator)
    ensures Pending(w.auth, w.threads[tid], user, without, operator)
  {
    hide Verifies, SignAccess, SignRefresh, Sanitize, FindRefreshByHash, FindVerification, BlacklistAccess, Inv;
    hide FreshEvent, RevokeFamily, RevokeAllForUser;
  }

  lemma NothingPending(w: World, e: Event, user: Id, without: set<Id>, operator: bool)
    requires Inv(w) && FreshEvent(w, e) && Spent(w, user, without, operator) && (e.Activate? ==> operator)
    requires !LogsIn(w, e)
    ensures !SomePending(Apply(w, e), user, without, operator)
  {
    hide Apply, Next, HasLiveOf, Inv, FreshEvent, AllPresent, LogsIn;
    var w' := Apply(w, e);
    forall tid | tid in w'.threads ensures !Pending(w'.auth, w'.threads[tid], user, without, operator) {
      ThreadsMoveAlone(w, e, tid);
      if e.Advance? && e.tid == tid && tid in w.threads {
        if Pending(w'.auth, w'.threads[tid], user, without, operator) {
          if w.threads[tid].RefreshVerified? { LookupReadsLive(w, tid, e.env, user, without, operator); }
          else { NewlyPending(w, tid, e.env, user, without, operator); }
        }
      } else if tid in w.threads && w'.threads[tid] == w.threads[tid] {
        assert !Pending(w.auth, w.threads[tid], user, without, operator);
        if w'.threads[tid].RowRead? && !e.Activate? { ActivityStays(w, e, user); }
      }
    }
  }

  lemma NothingStored(w: World, e: Event, user: Id, without: set<Id>, operator: bool)
    requires Inv(w) && Spent(w, user, without, operator)
    ensures !HasLiveOf(Apply(w, e).auth.refreshTokens, user, without)
    ensures AllPresent(Apply(w, e).auth.refreshTokens, without) && user in Apply(w, e).auth.users
  {
    hide Apply, GoodRow;
    var rows, rows' := w.auth.refreshTokens, Apply(w, e).auth.refreshTokens;
    StepExtends(w, e);
    if Stores(w, e) {
      var row := StoreAdds(w, e);
      assert row.userId != user || row.family in without by {
        assert !Pending(w.auth, w.threads[e.tid], user, without, operator);
      }
    } else {
      OthersAddNothing(w, e);
    }
    forall k | 0 <= k < |rows'| && rows'[k].userId == user && rows'[k].family !in without ensures !Live(rows'[k]) {
      if k < |rows| { assert rows'[k] == rows[k].(revokedAt := rows'[k].revokedAt); }
    }
    forall f | f in without ensures Present(rows', f) {
      var i :| 0 <= i < |rows| && rows[i].family == f;
      assert rows'[i].family == f;
    }
  }

  lemma {:induction false} SpentRun(w: World, events: seq<Event>, user: Id, without: set<Id>, before: Millis,
                                    operator: bool)
    requires Inv(w) && Realistic(w, events, before, operator) && NobodyLogsIn(w, events)
    requires Spent(w, user, without, operator)
    ensures !HasLiveOf(RunEvents(w, events).auth.refreshTokens, user, without)
    decreases |events|
  {
    hide Inv, Apply, HasLiveOf, SomePending, AllPresent, LogsIn;
    if events != [] {
      var e := events[0];
      StepKeepsInv(w, e);
      NothingPending(w, e, user, without, operator);
      NothingStored(w, e, user, without, operator);
      SpentRun(Apply(w, e), events[1..], user, without, TimeOf(e, before), operator);
    }
  }

  // --- what is pending can finish ---------------------------------------

  /** A way to a live token of the user outside those families, nobody logging in anew. */
  ghost predicate CanStart(w: World, user: Id, without: set<Id>, before: Millis, operator: bool) {
    exists events ::
      && Realistic(w, events, before, operator) && NobodyLogsIn(w, events)
      && HasLiveOf(RunEvents(w, events).auth.refreshTokens, user, without)
  }

  lemma FinishingStarts(w: World, user: Id, family: Id, without: set<Id>, before: Millis, operator: bool)
    requires CanFinish(w, user, family, before, operator) && family !in without
    ensures CanStart(w, user, without, before, operator)
  {
    hide Realistic, RunEvents, NobodyLogsIn;
    var events :|
      Realistic(w, events, before, operator) && NobodyLogsIn(w, events)
      && HasLiveBy(RunEvents(w, events).auth.refreshTokens, user, family);
    assert HasLiveOf(RunEvents(w, events).auth.refreshTokens, user, without);
  }

  lemma NewFamilyExists(w: World, without: set<Id>) returns (family: Id)
    ensures NewFamily(w, family) && family !in without
  {
    var stored := set i | 0 <= i < |w.auth.refreshTokens| :: w.auth.refreshTokens[i].family;
    var signed := set tid | tid in w.threads && w.threads[tid].RowDue? :: w.threads[tid].family;
    family := NextId(stored + signed + without);
    forall i | 0 <= i < |w.auth.refreshTokens| ensures w.auth.refreshTokens[i].family != family {
      assert w.auth.refreshTokens[i].family in stored;
    }
    forall tid | tid in w.threads && w.threads[tid].RowDue? ensures w.threads[tid].family != family {
      assert w.threads[tid].family in signed;
    }
  }

  lemma LoginSigns(w: World, tid: nat, env: Env, without: set<Id>, operator: bool) returns (family: Id)
    requires Inv(w) && tid in w.threads && w.threads[tid].TokensDue? && w.threads[tid].rotation.None?
    ensures family !in without && CanFinish(w, w.threads[tid].id, family, env.now, operator)
  {
    hide CanFinish, Inv;
    family := NewFamilyExists(w, without);
    SignFinishes(w, tid, env.(family := family), family, operator);
  }

  /** A login or a registration before its pair is signed. */
  lemma LoginFinishes(w: World, tid: nat, env: Env, without: set<Id>, operator: bool) returns (family: Id)
    requires Inv(w) && tid in w.threads && (w.threads[tid].LoginChecked? || w.threads[tid].VerificationOwed?)
    ensures family !in without && CanFinish(w, w.threads[tid].id, family, env.now, operator)
  {
    var e := Advance(tid, env);
    assert GoodThread(w, w.threads[tid]);
    StepKeepsInv(w, e);
    assert Apply(w, e).threads[tid].TokensDue? && Apply(w, e).threads[tid].rotation.None?;
    assert Apply(w, e).threads[tid].id == w.threads[tid].id;
    family := LoginSigns(Apply(w, e), tid, env, without, operator);
    hide CanFinish, Inv;
    FinishLater(w, e, w.threads[tid].id, family, env.now, operator);
  }

  lemma PendingStarts(w: World, tid: nat, env: Env, user: Id, without: set<Id>, operator: bool)
    requires Inv(w) && tid in w.threads && Pending(w.auth, w.threads[tid], user, without, operator)
    ensures CanStart(w, user, without, env.now, operator)
  {
    hide Inv, CanFinish, CanStart;
    var t := w.threads[tid];
    if t.LoginChecked? || t.VerificationOwed? {
      var family := LoginFinishes(w, tid, env, without, operator);
      FinishingStarts(w, user, family, without, env.now, operator);
    } else if t.TokensDue? && t.rotation.None? {
      var family := LoginSigns(w, tid, env, without, operator);
      FinishingStarts(w, user, family, without, env.now, operator);
    } else if t.RowDue? {
      StoreFinishes(w, tid, env, t.family, operator);
      FinishingStarts(w, user, t.family, without, env.now, operator);
    } else {
      var family := if t.TokensDue? then t.rotation.value.family else t.family;
      ThreatFinishes(w, tid, env, family, operator);
      FinishingStarts(w, user, family, without, env.now, operator);
    }
  }

  // --- the reset --------------------------------------------------------

  /**
   * Once a reset or change of password has revoked the user's sessions, and nobody logs in anew, a token of the
   * user outside given families can be live if and only if a request of the user was past its point of no return:
   * a refresh past its row lookup, a login past its password check, a registration past its user row.
   */
  lemma SessionsAfterReset(w: World, tid: nat, user: Id, without: set<Id>, env: Env, operator: bool)
    requires Inv(w) && Revokes(w, tid, user) && user in w.auth.users && AllPresent(w.auth.refreshTokens, without)
    ensures CanStart(Apply(w, Advance(tid, env)), user, without, env.now, operator)
            <==> SomePending(w, user, without, operator)
  {
    var e, w' := Advance(tid, env), Apply(w, Advance(tid, env));
    RevokesAll(w, tid, user, env);
    StepKeepsInv(w, e);
    hide Apply, Inv, CanStart;
    SamePending(w, w', tid, user, without, operator);
    if SomePending(w', user, without, operator) {
      var t :| t in w'.threads && Pending(w'.auth, w'.threads[t], user, without, operator);
      PendingStarts(w', t, env, user, without, operator);
    } else {
      StillPresent(w.auth.refreshTokens, user, env.now, without);
      assert Spent(w', user, without, operator);
      NeverStarts(w', user, without, env.now, operator);
    }
  }

  lemma StillPresent(rows: seq<RefreshRow>, user: Id, now: Millis, families: set<Id>)
    requires AllPresent(rows, families)
    ensures AllPresent(RevokeAllForUser(rows, user, now), families)
  {
    forall f | f in families ensures Present(RevokeAllForUser(rows, user, now), f) {
      var i :| 0 <= i < |rows| && rows[i].family == f;
      assert RevokeAllForUser(rows, user, now)[i].family == f;
    }
  }

  /** The revoking step itself is not pending and leaves the other requests where they are. */
  lemma SamePending(w: World, w': World, tid: nat, user: Id, without: set<Id>, operator: bool)
    requires Revokes(w, tid, user) && w'.threads == w.threads[tid := Finished(Ok(Done))]
    requires w'.auth.users == w.auth.users
    ensures SomePending(w', user, without, operator) <==> SomePending(w, user, without, operator)
  {
    if SomePending(w, user, without, operator) {
      var t :| t in w.threads && Pending(w.auth, w.threads[t], user, without, operator);
      assert t in w'.threads && Pending(w'.auth, w'.threads[t], user, without, operator);
    }
    if SomePending(w', user, without, operator) {
      var t :| t in w'.threads && Pending(w'.auth, w'.threads[t], user, without, operator);
      assert t in w.threads && Pending(w.auth, w.threads[t], user, without, operator);
    }
  }

  lemma NeverStarts(w: World, user: Id, without: set<Id>, before: Millis, operator: bool)
    requires Inv(w) && Spent(w, user, without, operator)
    ensures !CanStart(w, user, without, before, operator)
  {
    hide Inv, Spent, HasLiveOf;
    forall events | Realistic(w, events, before, operator) && NobodyLogsIn(w, events)
      ensures !HasLiveOf(RunEvents(w, events).auth.refreshTokens, user, without)
    {
      SpentRun(w, events, user, without, before, operator);
    }
  }

  /** A login or registration of the user that has passed its check and not yet stored its token. */
  predicate LoggingIn(thread: Thread, user: Id) {
    || ((thread.LoginChecked? || thread.VerificationOwed?) && thread.id == user)
    || (thread.TokensDue? && thread.id == user && thread.rotation.None?)
    || (thread.RowDue? && thread.id == user && thread.parent.None?)
  }

  /** A session that did not exist at the reset can be live afterwards exactly if a login was in flight. */
  lemma NewSessionAfterReset(w: World, tid: nat, user: Id, env: Env, operator: bool)
    requires Inv(w) && Revokes(w, tid, user) && user in w.auth.users
    ensures var existing := set i | 0 <= i < |w.parents| :: w.auth.refreshTokens[i].family;
            CanStart(Apply(w, Advance(tid, env)), user, existing, env.now, operator)
            <==> exists t :: t in w.threads && LoggingIn(w.threads[t], user)
  {
    var rows := w.auth.refreshTokens;
    var existing := set i | 0 <= i < |w.parents| :: rows[i].family;
    forall f | f in existing ensures Present(rows, f) {
      var i :| 0 <= i < |w.parents| && rows[i].family == f;
    }
    forall t | t in w.threads
      ensures Pending(w.auth, w.threads[t], user, existing, operator) <==> LoggingIn(w.threads[t], user)
    {
      OnlyLoginsStart(w, t, user, existing, operator);
    }
    hide Inv, Apply, CanStart, Pending, LoggingIn;
    SessionsAfterReset(w, tid, user, existing, env, operator);
  }

  lemma OnlyLoginsStart(w: World, t: nat, user: Id, existing: set<Id>, operator: bool)
    requires Inv(w) && t in w.threads
    requires existing == set i | 0 <= i < |w.parents| :: w.auth.refreshTokens[i].family
    ensures Pending(w.auth, w.threads[t], user, existing, operator) <==> LoggingIn(w.threads[t], user)
  {
    assert GoodThread(w, w.threads[t]);
    hide GoodRow, DistinctClaims;
  }
}
