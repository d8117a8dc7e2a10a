// What the refinement buys over whole serial runs: sessions end for good,
// password changes end every session of the user, mailed tokens work once.
module SessionTheorems {
  import opened Wrappers
  import opened Tables
  import opened Schema
  import opened AuthSpec
  import opened SessionRefinement
  import SM = SessionMachine

  // --- one request, one session -----------------------------------------

  predicate ActiveUser(s: Auth, id: Id) { id in s.users && s.users[id].row.isActive }

  /**
   * The outcomes of refresh. It rotates exactly when the token is genuine, unexpired, its session's
   * current one, not lapsed there, and its user active; it reports reuse exactly when the token is genuine
   * and unexpired but not current, and then that session, if any, is over; it answers "expired" exactly for
   * a lapsed session whose token still verifies; every rejection but reuse changes nothing.
   */
  lemma RefreshOutcomes(s: Auth, token: RefreshJwt, env: Env)
    requires Coherent(s) && FreshJti(s, env.refreshJti)
    ensures var (s', reply) := Refresh(s, token, env);
            var current := SM.IsCurrent(Sessions(s.refreshTokens), token);
            var lapsed := current && SM.HasLapsed(Sessions(s.refreshTokens), token, env.now);
            && (reply.Ok? <==> Verifies(s, token, env.now) && current && !lapsed && ActiveUser(s, token.sub))
            && (reply.Ok? ==>
                  && IssuesIn(reply, token.family)
                  && Sessions(s'.refreshTokens)
                     == Sessions(s.refreshTokens)[
                          token.family := SM.Session(token.sub, Some(SM.SignedGrant(token.sub, token.family, env)))]
                  && reply.value.tokens.refresh == SignRefresh(token.sub, token.family, env))
            && (reply == Err(RefreshReuse) <==> Verifies(s, token, env.now) && !current)
            && (reply == Err(RefreshReuse) ==> Ended(s', token.family))
            && (reply == Err(RefreshExpired) <==> Verifies(s, token, env.now) && lapsed)
            && (reply.Err? && reply != Err(RefreshReuse) ==> s' == s)
  {
    RefreshSimulates(s, token, env);
    if Verifies(s, token, env.now) {
      var i := SignedTokenHasRow(s, token);
      SessionOwner(s.refreshTokens, i);
      EndedIsNoCurrent(Refresh(s, token, env).0, token.family);
    }
  }

  /** In every serial run each family has at most one unrevoked token, and one user. */
  lemma AtMostOneLive(s: Auth, calls: seq<Call>, i: nat, j: nat)
    requires Coherent(s) && FreshRun(s, calls)
    requires i < j < |Run(s, calls).0.refreshTokens|
    requires Run(s, calls).0.refreshTokens[i].family == Run(s, calls).0.refreshTokens[j].family
    ensures Run(s, calls).0.refreshTokens[i].revokedAt.Some? || Run(s, calls).0.refreshTokens[j].revokedAt.Some?
    ensures Run(s, calls).0.refreshTokens[i].userId == Run(s, calls).0.refreshTokens[j].userId
  {
    hide Run, FreshRun;
    RunRefines(s, calls);
  }

  // --- sessions that are over -------------------------------------------

  predicate IssuesIn(reply: Result<Reply, Failure>, family: Id) {
    reply.Ok? && reply.value.Issued? && reply.value.tokens.refresh.family == family
  }

  predicate IsOver(m: SM.Sessions, family: Id) { family in m && m[family].current.None? }

  lemma MachineStaysOver(m: SM.Machine, call: Call, family: Id)
    requires IsOver(m.sessions, family) && call.env.family != family
    ensures IsOver(SM.Serve(m, call).0.sessions, family)
    ensures !IssuesIn(SM.Serve(m, call).1, family)
  {
  }

  lemma StepStaysOver(s: Auth, call: Call, family: Id)
    requires Coherent(s) && Fresh(s, call) && IsOver(Sessions(s.refreshTokens), family)
    ensures Coherent(Serve(s, call).0) && IsOver(Sessions(Serve(s, call).0.refreshTokens), family)
    ensures !IssuesIn(Serve(s, call).1, family)
  {
    StepRefines(s, call);
    FamilyIsNew(s, call.env.family);
    MachineStaysOver(Abstract(s), call, family);
  }

  lemma {:induction false} RunStaysOver(s: Auth, calls: seq<Call>, family: Id)
    requires Coherent(s) && FreshRun(s, calls) && IsOver(Sessions(s.refreshTokens), family)
    ensures Coherent(Run(s, calls).0) && IsOver(Sessions(Run(s, calls).0.refreshTokens), family)
    ensures forall k :: 0 <= k < |calls| ==> !IssuesIn(Run(s, calls).1[k], family)
    decreases |calls|
  {
    if calls != [] {
      StepStaysOver(s, calls[0], family);
      RunStaysOver(Serve(s, calls[0]).0, calls[1..], family);
    }
  }

  /** A family without a live token never gets one again, whatever requests follow. */
  lemma {:induction false} EndedForever(s: Auth, calls: seq<Call>, family: Id)
    requires Coherent(s) && FreshRun(s, calls) && Ended(s, family)
    ensures Ended(Run(s, calls).0, family)
    ensures forall k :: 0 <= k < |calls| ==> !IssuesIn(Run(s, calls).1[k], family)
  {
    EndedIsNoCurrent(s, family);
    RunStaysOver(s, calls, family);
    EndedIsNoCurrent(Run(s, calls).0, family);
  }

  /** Detected reuse kills the family for good. */
  lemma {:induction false} ReuseEndsFamily(s: Auth, token: RefreshJwt, env: Env, later: seq<Call>)
    requires Coherent(s) && FreshJti(s, env.refreshJti)
    requires Refresh(s, token, env).1 == Err(RefreshReuse)
    requires FreshRun(Refresh(s, token, env).0, later)
    ensures Ended(Run(Refresh(s, token, env).0, later).0, token.family)
    ensures forall k :: 0 <= k < |later| ==> !IssuesIn(Run(Refresh(s, token, env).0, later).1[k], token.family)
  {
    var s' := Refresh(s, token, env).0;
    var i := SignedTokenHasRow(s, token);
    RefreshSimulates(s, token, env);
    SessionOwner(s.refreshTokens, i);
    EndedIsNoCurrent(s', token.family);
    EndedForever(s', later, token.family);
  }

  /** So does logging out with the session's current token. */
  lemma {:induction false} LogoutEndsFamily(s: Auth, token: RefreshJwt, jti: Option<string>, env: Env, later: seq<Call>)
    requires Coherent(s) && SM.IsCurrent(Sessions(s.refreshTokens), token)
    requires FreshRun(Logout(s, Some(token), jti, env), later)
    ensures Ended(Run(Logout(s, Some(token), jti, env), later).0, token.family)
    ensures forall k :: 0 <= k < |later| ==>
                          !IssuesIn(Run(Logout(s, Some(token), jti, env), later).1[k], token.family)
  {
    var s' := Logout(s, Some(token), jti, env);
    LogoutSimulates(s, Some(token), jti, env);
    EndedIsNoCurrent(s', token.family);
    EndedForever(s', later, token.family);
  }

  // --- password reset and change ----------------------------------------

  /** The user whose password the call has changed. */
  function PasswordChangedFor(s: Auth, call: Call): Option<Id> {
    if !Serve(s, call).1.Ok? then None
    else match call.request
      case ChangePasswordReq(id, _, _) => Some(id)
      case ResetPasswordReq(raw, _) =>
        (match FindVerification(s.verifications, Digest(raw), PASSWORD_RESET)
         case Some(i) => Some(s.verifications[i].userId)
         case None => None)
      case _ => None
  }

  /** Other users' sessions are untouched; every session of this user is over. */
  lemma PasswordChangeEndsSessions(s: Auth, call: Call, user: Id)
    requires Coherent(s) && Fresh(s, call) && PasswordChangedFor(s, call) == Some(user)
    ensures var before, after := Sessions(s.refreshTokens), Sessions(Serve(s, call).0.refreshTokens);
            && after.Keys == before.Keys
            && (forall f :: f in before && before[f].user == user ==> IsOver(after, f))
            && (forall f :: f in before && before[f].user != user ==> after[f] == before[f])
  {
    StepRefines(s, call);
  }

  /** After it, no refresh token issued earlier to that user ever works again. */
  lemma {:induction false} OldTokensDie(s: Auth, call: Call, user: Id, later: seq<Call>, token: RefreshJwt, env: Env)
    requires Coherent(s) && Fresh(s, call) && PasswordChangedFor(s, call) == Some(user)
    requires token in s.signed && token.sub == user
    requires FreshRun(Serve(s, call).0, later)
    ensures Refresh(Run(Serve(s, call).0, later).0, token, env).1.Err?
  {
    var s1 := Serve(s, call).0;
    var s2 := Run(s1, later).0;
    var i := SignedTokenHasRow(s, token);
    SessionOwner(s.refreshTokens, i);
    PasswordChangeEndsSessions(s, call, user);
    StepRefines(s, call);
    RunStaysOver(s1, later, token.family);
    assert !SM.IsCurrent(Sessions(s2.refreshTokens), token);
    if Verifies(s2, token, env.now) { ReuseSimulates(s2, token, env); }
  }

  // --- verification tokens ----------------------------------------------

  predicate DistinctRaw(rows: seq<VerificationRow>) {
    forall i, j :: 0 <= i < j < |rows| ==> rows[i].tokenHash != rows[j].tokenHash
  }

  predicate Redeems(call: Call, reply: Result<Reply, Failure>, raw: Id) {
    && reply.Ok?
    && (call.request.ResetPasswordReq? || call.request.VerifyEmailReq?)
    && call.request.raw == raw
  }

  /** How many calls of the run the mailed token `raw` makes succeed. */
  function Redemptions(s: Auth, calls: seq<Call>, raw: Id): nat
    decreases |calls|
  {
    if calls == [] then 0
    else
      var (s1, reply) := Serve(s, calls[0]);
      (if Redeems(calls[0], reply, raw) then 1 else 0) + Redemptions(s1, calls[1..], raw)
  }

  predicate Spent(rows: seq<VerificationRow>, raw: Id) {
    exists i :: 0 <= i < |rows| && rows[i].tokenHash == Digest(raw) && rows[i].usedAt.Some?
  }

  /** A request appends at most one mail, and of the others can only mark one as used. */
  predicate OnlySpends(rows: seq<VerificationRow>, rows': seq<VerificationRow>, raw: Id) {
    && |rows| <= |rows'| <= |rows| + 1
    && (forall i :: 0 <= i < |rows| ==> rows'[i].tokenHash == rows[i].tokenHash)
    && (forall i :: 0 <= i < |rows| && rows[i].usedAt.Some? ==> rows'[i].usedAt.Some?)
    && (|rows'| > |rows| ==> rows'[|rows|].tokenHash == Digest(raw))
  }

  lemma MailsOnlySpent(s: Auth, call: Call)
    ensures OnlySpends(s.verifications, Serve(s, call).0.verifications, call.env.rawToken)
  {
    hide FindRefreshByHash, FindVerification;
  }

  /** The row that a successful redemption used up. */
  lemma RedemptionSpends(s: Auth, call: Call, raw: Id) returns (i: nat)
    requires Redeems(call, Serve(s, call).1, raw)
    ensures i < |s.verifications| <= |Serve(s, call).0.verifications|
    ensures s.verifications[i].tokenHash == Digest(raw) && s.verifications[i].usedAt.None?
    ensures Serve(s, call).0.verifications[i].tokenHash == Digest(raw)
    ensures Serve(s, call).0.verifications[i].usedAt.Some?
  {
    var kind := if call.request.ResetPasswordReq? then PASSWORD_RESET else EMAIL_VERIFY;
    i := FindVerification(s.verifications, Digest(raw), kind).value;
  }

  lemma StepSpends(s: Auth, call: Call, raw: Id)
    requires DistinctRaw(s.verifications) && FreshRaw(s, call.env.rawToken)
    ensures DistinctRaw(Serve(s, call).0.verifications)
    ensures Spent(s.verifications, raw) ==>
              !Redeems(call, Serve(s, call).1, raw) && Spent(Serve(s, call).0.verifications, raw)
    ensures Redeems(call, Serve(s, call).1, raw) ==> Spent(Serve(s, call).0.verifications, raw)
  {
    hide Serve;
    MailsOnlySpent(s, call);
    var rows, rows' := s.verifications, Serve(s, call).0.verifications;
    if Redeems(call, Serve(s, call).1, raw) {
      var i := RedemptionSpends(s, call, raw);
    } else if Spent(rows, raw) {
      var i :| 0 <= i < |rows| && rows[i].tokenHash == Digest(raw) && rows[i].usedAt.Some?;
      assert rows'[i].tokenHash == Digest(raw) && rows'[i].usedAt.Some?;
    }
  }

  /** Each verification token succeeds at most once in any run. */
  lemma {:induction false} RedeemedAtMostOnce(s: Auth, calls: seq<Call>, raw: Id)
    requires DistinctRaw(s.verifications) && FreshRun(s, calls)
    ensures Redemptions(s, calls, raw) <= (if Spent(s.verifications, raw) then 0 else 1)
    decreases |calls|
  {
    if calls != [] {
      StepSpends(s, calls[0], raw);
      RedeemedAtMostOnce(Serve(s, calls[0]).0, calls[1..], raw);
    }
  }

  predicate Redeemable(row: VerificationRow, raw: Id, kind: TokenType, now: Millis) {
    row.tokenHash == Digest(raw) && row.kind == kind && row.usedAt.None? && now <= row.expiresAt
  }

  lemma {:induction false} FindVerificationFinds(rows: seq<VerificationRow>, i: nat)
    requires i < |rows| && DistinctRaw(rows) && rows[i].usedAt.None?
    ensures FindVerification(rows, rows[i].tokenHash, rows[i].kind) == Some(i)
  {
    if i < |rows| - 1 {
      FindVerificationFinds(rows[..|rows| - 1], i);
    } else {
      assert FindVerification(rows[..i], rows[i].tokenHash, rows[i].kind).None?;
    }
  }

  /** It succeeds exactly for its own kind, unused and no later than its expiry. */
  lemma RedeemsExactlyWhen(s: Auth, raw: Id, newPassword: string, env: Env)
    requires Coherent(s) && DistinctRaw(s.verifications)
    ensures ResetPassword(s, raw, newPassword, env).1.Ok? <==>
            exists i :: 0 <= i < |s.verifications| && Redeemable(s.verifications[i], raw, PASSWORD_RESET, env.now)
    ensures VerifyEmail(s, raw, env).1.Ok? <==>
            exists i :: 0 <= i < |s.verifications| && Redeemable(s.verifications[i], raw, EMAIL_VERIFY, env.now)
  {
    var rows := s.verifications;
    forall i | 0 <= i < |rows| && (Redeemable(rows[i], raw, PASSWORD_RESET, env.now)
                                   || Redeemable(rows[i], raw, EMAIL_VERIFY, env.now))
      ensures FindVerification(rows, Digest(raw), rows[i].kind) == Some(i)
    {
      FindVerificationFinds(rows, i);
    }
    var reset := FindVerification(rows, Digest(raw), PASSWORD_RESET);
    var verify := FindVerification(rows, Digest(raw), EMAIL_VERIFY);
    assert reset.Some? && env.now <= rows[reset.value].expiresAt ==>
        Redeemable(rows[reset.value], raw, PASSWORD_RESET, env.now);
    assert verify.Some? && env.now <= rows[verify.value].expiresAt ==>
        Redeemable(rows[verify.value], raw, EMAIL_VERIFY, env.now);
  }
}
