// When a serial refresh answers "expired": the lifetime that the JWT library signs
// against the lifetime that parseTtl reads from the same setting.
module SessionExpiry {
  import opened Wrappers
  import opened Tables
  import opened Schema
  import opened AuthSpec
  import opened SessionRefinement
  import Decimal
  import Ttl

  /** Every row is honoured at least as long as its own token verifies. */
  predicate Outlives(rows: seq<RefreshRow>) {
    forall i :: 0 <= i < |rows| ==> rows[i].tokenHash.preimage.exp * 1000 <= rows[i].expiresAt
  }

  /** All calls are served under one configuration. */
  predicate Configured(calls: seq<Call>, signed: nat, stored: nat) {
    forall c :: c in calls ==> c.env.signedTtl == signed && c.env.refreshTtl == stored
  }

  /** No serial run under this configuration ever answers "expired". */
  ghost predicate NeverExpires(signed: nat, stored: nat) {
    forall s: Auth, calls: seq<Call> ::
      Coherent(s) && Outlives(s.refreshTokens) && FreshRun(s, calls) && Configured(calls, signed, stored) ==>
        Err(RefreshExpired) !in Run(s, calls).1
  }

  lemma IssueOutlives(s: Auth, user: Id, family: Id, env: Env)
    requires Outlives(s.refreshTokens) && user in s.users && env.signedTtl <= env.refreshTtl
    ensures Outlives(IssueAndPersist(s, user, family, env).0.refreshTokens)
  {
  }

  lemma RefreshOutlives(s: Auth, token: RefreshJwt, env: Env)
    requires Outlives(s.refreshTokens) && env.signedTtl <= env.refreshTtl
    ensures Outlives(Refresh(s, token, env).0.refreshTokens)
    ensures Refresh(s, token, env).1 != Err(RefreshExpired)
  {
    hide FindRefreshByHash;
    var found := FindRefreshByHash(s.refreshTokens, Digest(token));
    if Refresh(s, token, env).1.Ok? {
      var s1 := s.(refreshTokens := RevokeRefreshToken(s.refreshTokens, found.value, env.now));
      IssueOutlives(s1, token.sub, s.refreshTokens[found.value].family, env);
    }
  }

  lemma StepOutlives(s: Auth, call: Call)
    requires Outlives(s.refreshTokens) && call.env.signedTtl <= call.env.refreshTtl
    ensures Outlives(Serve(s, call).0.refreshTokens)
    ensures Serve(s, call).1 != Err(RefreshExpired)
  {
    hide FindRefreshByHash, FindVerification;
    if call.request.RefreshReq? {
      RefreshOutlives(s, call.request.token, call.env);
      hide Refresh;
    }
  }

  lemma {:induction false} RunOutlives(s: Auth, calls: seq<Call>, signed: nat, stored: nat)
    requires Outlives(s.refreshTokens) && Configured(calls, signed, stored) && signed <= stored
    ensures Err(RefreshExpired) !in Run(s, calls).1
    decreases |calls|
  {
    hide Serve, Outlives;
    if calls != [] {
      assert calls[0] in calls;
      StepOutlives(s, calls[0]);
      RunOutlives(Serve(s, calls[0]).0, calls[1..], signed, stored);
    }
  }

  // --- a session that lapses before its token ---------------------------

  function Nobody(): Auth { Auth(map[], [], [], {}, map[]) }

  function EnvAt(now: Millis, signed: nat, stored: nat, n: Id): Env { Env(now, 0, signed, stored, "a", n, n, n) }

  /** Somebody registers and refreshes a millisecond after the stored lifetime is over. */
  function LapsingCalls(signed: nat, stored: nat): seq<Call> {
    [Call(RegisterReq(0, OrgId("org"), "e", "p", None, None), EnvAt(0, signed, stored, 0)),
     Call(RefreshReq(RefreshJwt(0, 0, 0, signed)), EnvAt(stored * 1000 + 1, signed, stored, 1))]
  }

  lemma LapsingRun(signed: nat, stored: nat)
    requires stored < signed
    ensures FreshRun(Nobody(), LapsingCalls(signed, stored))
    ensures Run(Nobody(), LapsingCalls(signed, stored)).1[1] == Err(RefreshExpired)
  {
    var calls := LapsingCalls(signed, stored);
    var token, register, refresh := RefreshJwt(0, 0, 0, signed), calls[0], calls[1];
    var s1 := Serve(Nobody(), register).0;
    assert Seconds(stored * 1000 + 1) == stored;
    assert s1.refreshTokens == [RefreshRow(0, Digest(token), 0, stored * 1000, None)];
    assert token in s1.signed;
    assert FindRefreshByHash(s1.refreshTokens, Digest(token)) == Some(0);
    assert Serve(s1, refresh).1 == Err(RefreshExpired);
    assert Fresh(Nobody(), register) && Fresh(s1, refresh);
    assert calls[1..] == [refresh] && [refresh][1..] == [];
    hide Serve, Fresh;
    assert FreshRun(s1, [refresh]);
    assert Run(s1, [refresh]).1[0] == Err(RefreshExpired);
  }

  /** The two readings of the setting decide: "expired" is never answered if and only if signed <= stored. */
  lemma NeverExpiresExactlyWhen(signed: nat, stored: nat)
    ensures NeverExpires(signed, stored) <==> signed <= stored
  {
    if signed <= stored {
      forall s: Auth, calls: seq<Call> | Outlives(s.refreshTokens) && Configured(calls, signed, stored)
        ensures Err(RefreshExpired) !in Run(s, calls).1
      {
        RunOutlives(s, calls, signed, stored);
      }
    } else {
      LapsingRun(signed, stored);
      hide Run, FreshRun;
      assert Coherent(Nobody()) && Configured(LapsingCalls(signed, stored), signed, stored);
    }
  }

  /**
   * Settings that both readers know, and one that only the JWT library knows: n weeks are signed as such and
   * stored as a quarter of an hour.
   */
  lemma SettingsDecide(n: nat, unit: char)
    requires n > 0
    ensures Ttl.IsUnit(unit) ==>
              NeverExpires(n * Ttl.UnitSeconds(unit), Ttl.ParseTtl(Decimal.Digits(n) + [unit]))
    ensures !NeverExpires(n * 7 * 24 * 60 * 60, Ttl.ParseTtl(Decimal.Digits(n) + "w"))
  {
    hide NeverExpires, Ttl.ParseTtl, Decimal.Digits;
    if Ttl.IsUnit(unit) {
      Ttl.Reads(n, unit);
      NeverExpiresExactlyWhen(n * Ttl.UnitSeconds(unit), n * Ttl.UnitSeconds(unit));
    }
    Ttl.UnknownUnitFallsBack(n, 'w');
    NeverExpiresExactlyWhen(n * 7 * 24 * 60 * 60, 900);
  }
}
