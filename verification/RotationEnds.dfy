// When a family of refresh tokens is dead for good, and what a password reset leaves alive.
module RotationEnds {
  import opened Wrappers
  import opened Tables
  import opened Schema
  import opened AuthSpec
  import opened RotationSteps
  import opened RotationTheorems

  // --- realistic runs ---------------------------------------------------

  function TimeOf(e: Event, before: Millis): Millis {
    if e.Advance? then e.env.now else before
  }

  /** The clock has not gone back, random ids are new, and an operator acts only where one may. */
  predicate RealisticEvent(w: World, e: Event, before: Millis, operator: bool) {
    && FreshEvent(w, e) && before <= TimeOf(e, before)
    && (e.Advance? && e.tid in w.threads && w.threads[e.tid].TokensDue? ==> FreshJti(w.auth, e.env.refreshJti))
    && (e.Activate? ==> operator)
  }

  predicate Realistic(w: World, events: seq<Event>, before: Millis, operator: bool)
    decreases |events|
  {
    events == []
    || (RealisticEvent(w, events[0], before, operator)
        && Realistic(Apply(w, events[0]), events[1..], TimeOf(events[0], before), operator))
  }

  // --- threats ----------------------------------------------------------

  predicate ActiveUser(auth: Auth, id: Id) { id in auth.users && auth.users[id].row.isActive }

  /** A refresh in flight that has read a live row of `family` and can still store a successor. */
  predicate Threatens(auth: Auth, thread: Thread, family: Id, operator: bool) {
    match thread
    case RowRead(token, _, f) => f == family && (operator || ActiveUser(auth, token.sub))
    case UserRead(_, _, _, f) => f == family
    case TokensDue(_, _, rotation) => rotation.Some? && rotation.value.family == family
    case RowDue(_, f, parent, _, _) => parent.Some? && f == family
    case _ => false
  }

  predicate NoThreat(w: World, family: Id, operator: bool) {
    forall tid :: tid in w.threads ==> !Threatens(w.auth, w.threads[tid], family, operator)
  }

  predicate Quiet(w: World, family: Id, operator: bool) {
    !HasLive(w.auth.refreshTokens, family) && NoThreat(w, family, operator)
  }

  /** A step that is not an operator's leaves everyone as active as before. */
  lemma ActivityStays(w: World, e: Event, id: Id)
    requires !e.Activate? && id in w.auth.users
    ensures ActiveUser(Apply(w, e).auth, id) <==> ActiveUser(w.auth, id)
  {
    hide FindRefreshByHash, Verifies, SignAccess, SignRefresh, Sanitize, NextAccount, BlacklistAccess;
  }

  /** A request becomes a threat only by reading a live row. */
  lemma NewThreatReadLive(w: World, tid: nat, env: Env, family: Id, operator: bool)
    requires tid in w.threads
    requires Threatens(Apply(w, Advance(tid, env)).auth, Apply(w, Advance(tid, env)).threads[tid], family, operator)
    ensures Threatens(w.auth, w.threads[tid], family, operator) || HasLive(w.auth.refreshTokens, family)
  {
    hide Verifies, SignAccess, SignRefresh, Sanitize;
  }

  lemma ThreatsStayAway(w: World, e: Event, family: Id, operator: bool)
    requires Inv(w) && Quiet(w, family, operator) && (e.Activate? ==> operator)
    ensures NoThreat(Apply(w, e), family, operator)
  {
    hide Apply, Next, HasLive, DistinctClaims;
    var w' := Apply(w, e);
    forall tid | tid in w'.threads ensures !Threatens(w'.auth, w'.threads[tid], family, operator) {
      ThreadsMoveAlone(w, e, tid);
      if e.Advance? && e.tid == tid && tid in w.threads {
        if Threatens(w'.auth, w'.threads[tid], family, operator) { NewThreatReadLive(w, tid, e.env, family, operator); }
      } else if tid in w.threads && w'.threads[tid].RowRead? && !e.Activate? {
        assert GoodThread(w, w.threads[tid]) && GoodRow(w, w.threads[tid].row);
        ActivityStays(w, e, w.threads[tid].token.sub);
      }
    }
  }

  lemma StaysWithoutLive(w: World, e: Event, family: Id, operator: bool)
    requires Inv(w) && Quiet(w, family, operator) && Present(w.auth.refreshTokens, family)
    ensures !HasLive(Apply(w, e).auth.refreshTokens, family) && Present(Apply(w, e).auth.refreshTokens, family)
  {
    hide Apply, GoodRow;
    var rows, rows' := w.auth.refreshTokens, Apply(w, e).auth.refreshTokens;
    StepExtends(w, e);
    if Stores(w, e) {
      var row := StoreAdds(w, e);
      assert row.family != family by {
        assert GoodThread(w, w.threads[e.tid]) && !Threatens(w.auth, w.threads[e.tid], family, operator);
      }
    } else {
      OthersAddNothing(w, e);
    }
    var i :| 0 <= i < |rows| && rows[i].family == family;
    assert rows'[i].family == family;
    forall k | 0 <= k < |rows'| && rows'[k].family == family ensures !Live(rows'[k]) {
      if k < |rows| { assert rows'[k].family == rows[k].family; }
    }
  }

  lemma {:induction false} QuietRun(w: World, events: seq<Event>, family: Id, before: Millis, operator: bool)
    requires Inv(w) && Realistic(w, events, before, operator) && Quiet(w, family, operator)
    requires Present(w.auth.refreshTokens, family)
    ensures !HasLive(RunEvents(w, events).auth.refreshTokens, family)
    decreases |events|
  {
    hide Inv, Apply, HasLive, NoThreat, Present;
    if events != [] {
      var e := events[0];
      StepKeepsInv(w, e);
      ThreatsStayAway(w, e, family, operator);
      StaysWithoutLive(w, e, family, operator);
      QuietRun(Apply(w, e), events[1..], family, TimeOf(e, before), operator);
    }
  }

  // --- a threat can come true -------------------------------------------

  /** A way for the world, from time `before`, to come to hold a live token of the family. */
  ghost predicate CanRevive(w: World, family: Id, before: Millis, operator: bool) {
    exists events :: Realistic(w, events, before, operator) && HasLive(RunEvents(w, events).auth.refreshTokens, family)
  }

  /** A login passes its password check. */
  predicate LogsIn(w: World, e: Event) {
    e.Advance? && e.tid in w.threads && w.threads[e.tid].LoginStarted? && Apply(w, e).threads[e.tid].LoginChecked?
  }

  predicate NobodyLogsIn(w: World, events: seq<Event>)
    decreases |events|
  {
    events == [] || (!LogsIn(w, events[0]) && NobodyLogsIn(Apply(w, events[0]), events[1..]))
  }

  predicate HasLiveBy(rows: seq<RefreshRow>, user: Id, family: Id) {
    exists i :: 0 <= i < |rows| && rows[i].userId == user && rows[i].family == family && Live(rows[i])
  }

  /** A way to a live token of the user in the family with what is in flight, nobody logging in anew. */
  ghost predicate CanFinish(w: World, user: Id, family: Id, before: Millis, operator: bool) {
    exists events ::
      && Realistic(w, events, before, operator) && NobodyLogsIn(w, events)
      && HasLiveBy(RunEvents(w, events).auth.refreshTokens, user, family)
  }

  lemma AlreadyThere(w: World, user: Id, family: Id, before: Millis, operator: bool)
    requires HasLiveBy(w.auth.refreshTokens, user, family)
    ensures CanFinish(w, user, family, before, operator)
  {
    assert Realistic(w, [], before, operator) && NobodyLogsIn(w, []) && RunEvents(w, []) == w;
  }

  /** One realistic step closer. */
  lemma FinishLater(w: World, e: Event, user: Id, family: Id, before: Millis, operator: bool)
    requires RealisticEvent(w, e, before, operator) && !LogsIn(w, e)
    requires CanFinish(Apply(w, e), user, family, TimeOf(e, before), operator)
    ensures CanFinish(w, user, family, before, operator)
  {
    hide HasLiveBy, Apply, RealisticEvent, LogsIn;
    var w1, at := Apply(w, e), TimeOf(e, before);
    var rest :|
      Realistic(w1, rest, at, operator) && NobodyLogsIn(w1, rest)
      && HasLiveBy(RunEvents(w1, rest).auth.refreshTokens, user, family);
    var events := [e] + rest;
    RunCons(w, e, rest);
    assert events[0] == e && events[1..] == rest;
    assert Realistic(w, events, before, operator) && NobodyLogsIn(w, events);
  }

  lemma StoreFinishes(w: World, tid: nat, env: Env, family: Id, operator: bool)
    requires Inv(w) && tid in w.threads && w.threads[tid].RowDue? && w.threads[tid].family == family
    ensures CanFinish(w, w.threads[tid].id, family, env.now, operator)
  {
    var e := Advance(tid, env);
    var row := StoreAdds(w, e);
    assert Apply(w, e).auth.refreshTokens[|w.auth.refreshTokens|] == row;
    AlreadyThere(Apply(w, e), row.userId, family, env.now, operator);
    FinishLater(w, e, row.userId, family, env.now, operator);
  }

  lemma NewJti(signed: set<RefreshJwt>) returns (jti: Id)
    ensures forall t :: t in signed ==> t.jti != jti
  {
    var jtis := set t | t in signed :: t.jti;
    jti := NextId(jtis);
    forall t | t in signed ensures t.jti != jti { assert t.jti in jtis; }
  }

  lemma SignFinishes(w: World, tid: nat, env: Env, family: Id, operator: bool)
    requires Inv(w) && tid in w.threads && w.threads[tid].TokensDue?
    requires FamilyOf(w.threads[tid].rotation, env) == family
    requires w.threads[tid].rotation.None? ==> NewFamily(w, family)
    ensures CanFinish(w, w.threads[tid].id, family, env.now, operator)
  {
    var jti := NewJti(w.auth.signed);
    var e := Advance(tid, env.(refreshJti := jti));
    StepKeepsInv(w, e);
    assert Apply(w, e).threads[tid].RowDue? && Apply(w, e).threads[tid].family == family;
    StoreFinishes(Apply(w, e), tid, env, family, operator);
    FinishLater(w, e, w.threads[tid].id, family, env.now, operator);
  }

  lemma RevokeFinishes(w: World, tid: nat, env: Env, family: Id, operator: bool)
    requires Inv(w) && tid in w.threads && w.threads[tid].UserRead? && w.threads[tid].family == family
    ensures CanFinish(w, w.threads[tid].id, family, env.now, operator)
  {
    var e := Advance(tid, env);
    assert GoodThread(w, w.threads[tid]);
    StepKeepsInv(w, e);
    assert Apply(w, e).threads[tid].TokensDue?;
    SignFinishes(Apply(w, e), tid, env, family, operator);
    FinishLater(w, e, w.threads[tid].id, family, env.now, operator);
  }

  lemma ReadFinishes(w: World, tid: nat, env: Env, family: Id, operator: bool)
    requires Inv(w) && tid in w.threads && w.threads[tid].RowRead? && w.threads[tid].family == family
    requires ActiveUser(w.auth, w.threads[tid].token.sub)
    ensures CanFinish(w, w.threads[tid].token.sub, family, env.now, operator)
  {
    var e := Advance(tid, env);
    StepKeepsInv(w, e);
    assert Apply(w, e).threads[tid].UserRead?;
    RevokeFinishes(Apply(w, e), tid, env, family, operator);
    FinishLater(w, e, w.threads[tid].token.sub, family, env.now, operator);
  }

  /** Where an operator may act, an inactive user can be made active first. */
  lemma OperatorFinishes(w: World, tid: nat, env: Env, family: Id)
    requires Inv(w) && tid in w.threads && w.threads[tid].RowRead? && w.threads[tid].family == family
    ensures CanFinish(w, w.threads[tid].token.sub, family, env.now, true)
  {
    var user := w.threads[tid].token.sub;
    assert GoodThread(w, w.threads[tid]) && GoodRow(w, w.threads[tid].row);
    var e := Activate(user, true);
    StepKeepsInv(w, e);
    assert Apply(w, e).threads == w.threads && ActiveUser(Apply(w, e).auth, user);
    ReadFinishes(Apply(w, e), tid, env, family, true);
    FinishLater(w, e, user, family, env.now, true);
  }

  /** The user for whom a threatening refresh would store its row. */
  function ThreatBy(thread: Thread): Id
    requires thread.RowRead? || thread.UserRead? || thread.TokensDue? || thread.RowDue?
  {
    if thread.RowRead? then thread.token.sub else thread.id
  }

  lemma ThreatFinishes(w: World, tid: nat, env: Env, family: Id, operator: bool)
    requires Inv(w) && tid in w.threads && Threatens(w.auth, w.threads[tid], family, operator)
    ensures CanFinish(w, ThreatBy(w.threads[tid]), family, env.now, operator)
  {
    hide Inv, CanFinish;
    match w.threads[tid]
    case RowRead(token, _, _) =>
      if ActiveUser(w.auth, token.sub) { ReadFinishes(w, tid, env, family, operator); }
      else { OperatorFinishes(w, tid, env, family); }
    case UserRead(_, _, _, _) => RevokeFinishes(w, tid, env, family, operator);
    case TokensDue(_, _, _) => SignFinishes(w, tid, env, family, operator);
    case RowDue(_, _, _, _, _) => StoreFinishes(w, tid, env, family, operator);
  }

  lemma FinishingRevives(w: World, user: Id, family: Id, before: Millis, operator: bool)
    requires CanFinish(w, user, family, before, operator) || HasLive(w.auth.refreshTokens, family)
    ensures CanRevive(w, family, before, operator)
  {
    if HasLive(w.auth.refreshTokens, family) {
      assert Realistic(w, [], before, operator) && HasLive(RunEvents(w, []).auth.refreshTokens, family);
    } else {
      hide Realistic, RunEvents, NobodyLogsIn;
      var events :|
        Realistic(w, events, before, operator) && NobodyLogsIn(w, events)
        && HasLiveBy(RunEvents(w, events).auth.refreshTokens, user, family);
      assert HasLive(RunEvents(w, events).auth.refreshTokens, family);
    }
  }

  /**
   * From any instant on, in runs where the clock goes forward and random ids are new, a family can
   * come to hold a live token if and only if one is live now or a refresh that read one of its live
   * rows is still in flight, its user active or an operator able to make it so.
   */
  lemma DeadExactlyWhenQuiet(w: World, family: Id, env: Env, operator: bool)
    requires Inv(w) && Present(w.auth.refreshTokens, family)
    ensures CanRevive(w, family, env.now, operator) <==> !Quiet(w, family, operator)
  {
    hide CanFinish;
    if Quiet(w, family, operator) {
      forall events | Realistic(w, events, env.now, operator)
        ensures !HasLive(RunEvents(w, events).auth.refreshTokens, family)
      {
        QuietRun(w, events, family, env.now, operator);
      }
    } else if HasLive(w.auth.refreshTokens, family) {
      FinishingRevives(w, 0, family, env.now, operator);
    } else {
      var tid :| tid in w.threads && Threatens(w.auth, w.threads[tid], family, operator);
      ThreatFinishes(w, tid, env, family, operator);
      FinishingRevives(w, ThreatBy(w.threads[tid]), family, env.now, operator);
    }
  }

  // --- a password reset against refreshes in flight ---------------------

  /** The step with which a reset or change of password ends: the user's sessions are revoked. */
  predicate Revokes(w: World, tid: nat, user: Id) { tid in w.threads && w.threads[tid] == SessionsDue(user) }

  lemma RevokesAll(w: World, tid: nat, user: Id, env: Env)
    requires Revokes(w, tid, user)
    ensures Apply(w, Advance(tid, env))
            == World(WithRows(w.auth, RevokeAllForUser(w.auth.refreshTokens, user, env.now)), w.parents,
                     w.threads[tid := Finished(Ok(Done))])
  {
    hide RevokeAllForUser;
  }

  /**
   * Right after the sessions of a user are revoked, one of them can come back if and only if a
   * refresh of it was past its row lookup at that moment.
   */
  lemma ResetEndsExactlyWhen(w: World, tid: nat, user: Id, i: nat, env: Env, operator: bool)
    requires Inv(w) && Revokes(w, tid, user) && i < |w.parents| && w.auth.refreshTokens[i].userId == user
    ensures var family := w.auth.refreshTokens[i].family;
            CanRevive(Apply(w, Advance(tid, env)), family, env.now, operator) <==> !NoThreat(w, family, operator)
  {
    var e, rows, family := Advance(tid, env), w.auth.refreshTokens, w.auth.refreshTokens[i].family;
    RevokesAll(w, tid, user, env);
    StepKeepsInv(w, e);
    hide Apply;
    var w' := Apply(w, e);
    var rows' := w'.auth.refreshTokens;
    forall k | 0 <= k < |rows'| && rows'[k].family == family ensures !Live(rows'[k]) {
      assert rows[k].family == family;
      OneUserPerFamily(w, i, k);
    }
    assert rows'[i].family == family;
    hide Inv, CanRevive, RevokeAllForUser;
    DeadExactlyWhenQuiet(w', family, env, operator);
    SameThreats(w, w', tid, user, family, operator);
  }

  /** The revoking step is no threat itself and leaves the others where they are. */
  lemma SameThreats(w: World, w': World, tid: nat, user: Id, family: Id, operator: bool)
    requires Revokes(w, tid, user) && w'.threads == w.threads[tid := Finished(Ok(Done))]
    requires w'.auth.users == w.auth.users
    ensures NoThreat(w', family, operator) <==> NoThreat(w, family, operator)
  {
    forall t | t in w.threads
      ensures t in w'.threads
      ensures Threatens(w'.auth, w'.threads[t], family, operator) <==> Threatens(w.auth, w.threads[t], family, operator)
    {
    }
  }
}
