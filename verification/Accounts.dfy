// How the auth requests fit together: what a registration leads to, which password opens an
// account, and what a reset mail is good for.
module Accounts {
  import opened Wrappers
  import opened Tables
  import opened Schema
  import opened AuthSpec
  import opened AuthEffects
  import opened SessionRefinement
  import Roles
  import SM = SessionMachine
  import T = SessionTheorems

  /** Whoever presents a new access token acts as the user it was issued to, in that user's organization and role. */
  lemma TokenActsAsItsUser(s: Auth, call: Call)
    requires Issues(s, call)
    ensures var s', ctx := Serve(s, call).0, Roles.Hydrate(Serve(s, call).1.value.tokens.access);
            && OwnedBy(s'.users, ctx.org, ctx.userId) && s'.users[ctx.userId].row.role == ctx.role
            && exists family :: Concerns(s, call, ctx.userId, family)
  {
    TokensCarryTheRow(s, call);
    hide Serve;
    var tokens := Serve(s, call).1.value.tokens;
    assert Concerns(s, call, tokens.access.sub, tokens.refresh.family);
  }

  // --- after a registration ---------------------------------------------

  /** The owner logs in with the password of the registration and no other, at any time. */
  lemma OwnerLogsIn(s: Auth, register: Call, password: string, env: Env)
    requires register.request.RegisterReq?
    ensures var s1 := Serve(s, register).0;
            Issues(s1, Call(LoginReq(Some(register.request.id), password), env))
            <==> password == register.request.password
  {
    Registered(s, register);
    LoggedIn(Serve(s, register).0, Call(LoginReq(Some(register.request.id), password), env));
    hide Serve;
  }

  /** The first refresh token rotates exactly as long as both its lifetimes last. */
  lemma FirstTokenRotates(s: Auth, register: Call, env: Env)
    requires Coherent(s) && Fresh(s, register) && register.request.RegisterReq?
    requires FreshJti(Serve(s, register).0, env.refreshJti) && Issues(s, register)
    ensures var (s1, reply) := Serve(s, register);
            Issues(s1, Call(RefreshReq(reply.value.tokens.refresh), env))
            <==> && env.now / 1000 < register.env.now / 1000 + register.env.signedTtl
                 && env.now <= register.env.now + register.env.refreshTtl * 1000
  {
    var s1, token := Serve(s, register).0, Serve(s, register).1.value.tokens.refresh;
    Registered(s, register);
    TokensCarryTheRow(s, register);
    StepRefines(s, register);
    assert s1.users[token.sub].row.isActive;
    hide Serve, Coherent;
    NewestIsCurrent(s1, token);
    T.RefreshOutcomes(s1, token, env);
    assert Serve(s1, Call(RefreshReq(token), env)) == Refresh(s1, token, env) by { ServesRefresh(s1, token, env); }
  }

  lemma ServesRefresh(s: Auth, token: RefreshJwt, env: Env)
    ensures Serve(s, Call(RefreshReq(token), env)) == Refresh(s, token, env)
  {
    hide Refresh;
  }

  lemma NewestIsCurrent(s: Auth, token: RefreshJwt)
    requires Coherent(s) && s.refreshTokens != []
    requires var row := s.refreshTokens[|s.refreshTokens| - 1]; Live(row) && row.tokenHash == Digest(token)
    ensures SM.IsCurrent(Sessions(s.refreshTokens), token)
    ensures Sessions(s.refreshTokens)[token.family].current.value.until
            == s.refreshTokens[|s.refreshTokens| - 1].expiresAt
  {
    var n := |s.refreshTokens| - 1;
    assert RowMatchesToken(s, s.refreshTokens[n]);
    SessionCurrent(s.refreshTokens, n);
  }

  /** The mailed token verifies the address for a day, and never resets the password. */
  lemma VerificationMailWorks(s: Auth, register: Call, password: string, env: Env)
    requires T.DistinctRaw(s.verifications) && FreshRaw(s, register.env.rawToken) && register.request.RegisterReq?
    ensures var s1, raw, id := Serve(s, register).0, register.env.rawToken, register.request.id;
            var (s2, reply) := Serve(s1, Call(VerifyEmailReq(raw), env));
            && (reply.Ok? <==> env.now <= register.env.now + DAY)
            && (reply.Ok? ==> s2.users == s1.users[id := Owned(s1.users[id].org,
                                                              s1.users[id].row.(emailVerified := true))])
            && Serve(s1, Call(ResetPasswordReq(raw, password), env)).1 == Err(InvalidVerification)
  {
    Registered(s, register);
    var s1, raw := Serve(s, register).0, register.env.rawToken;
    var n := |s.verifications|;
    hide Serve;
    NewestMail(s, s1.verifications, raw);
    Redeemed(s1, Call(VerifyEmailReq(raw), env), n);
    Redeemed(s1, Call(ResetPasswordReq(raw, password), env), n);
  }

  /** A raw token just drawn belongs to the newest mail alone. */
  lemma NewestMail(s: Auth, rows: seq<VerificationRow>, raw: Id)
    requires T.DistinctRaw(s.verifications) && FreshRaw(s, raw)
    requires |rows| == |s.verifications| + 1 && rows[..|s.verifications|] == s.verifications
    requires rows[|s.verifications|].tokenHash == Digest(raw)
    ensures T.DistinctRaw(rows)
    ensures forall i :: 0 <= i < |rows| ==> (rows[i].tokenHash == Digest(raw) <==> i == |s.verifications|)
  {
    forall i | 0 <= i < |s.verifications| ensures rows[i].tokenHash != Digest(raw) {
      assert rows[i] == s.verifications[i];
    }
    forall i, j | 0 <= i < j < |rows| ensures rows[i].tokenHash != rows[j].tokenHash {
      assert rows[i] == s.verifications[i];
      if j < |s.verifications| { assert rows[j] == s.verifications[j]; }
    }
  }

  // --- which password opens the account ---------------------------------

  /** The password that a reset or change puts in force. */
  function NewPassword(call: Call): string
    requires call.request.ResetPasswordReq? || call.request.ChangePasswordReq?
  {
    call.request.newPassword
  }

  /** After a successful reset or change the user logs in with the new password and no other, if active. */
  lemma NewPasswordIsInForce(s: Auth, call: Call, user: Id, password: string, env: Env)
    requires T.DistinctRaw(s.verifications) && user in s.users
    requires call.request.ResetPasswordReq? || call.request.ChangePasswordReq?
    requires T.PasswordChangedFor(s, call) == Some(user)
    ensures Issues(Serve(s, call).0, Call(LoginReq(Some(user), password), env))
            <==> s.users[user].row.isActive && password == NewPassword(call)
  {
    var s1 := Serve(s, call).0;
    if call.request.ChangePasswordReq? {
      PasswordChanged(s, call);
    } else {
      var i := FindVerification(s.verifications, Digest(call.request.raw), PASSWORD_RESET).value;
      Redeemed(s, call, i);
    }
    LoggedIn(s1, Call(LoginReq(Some(user), password), env));
    hide Serve, FindVerification;
  }

  /** The mail of a forgotten password resets it for an hour, and never verifies the address. */
  lemma ResetMailWorks(s: Auth, forgot: Call, password: string, env: Env)
    requires T.DistinctRaw(s.verifications) && FreshRaw(s, forgot.env.rawToken)
    requires forgot.request.ForgotPasswordReq? && forgot.request.found.Some? && forgot.request.found.value in s.users
    ensures var s1, raw, id := Serve(s, forgot).0, forgot.env.rawToken, forgot.request.found.value;
            var reset := Call(ResetPasswordReq(raw, password), env);
            && (Serve(s1, reset).1.Ok? <==> env.now <= forgot.env.now + HOUR)
            && (Serve(s1, reset).1.Ok? ==> T.PasswordChangedFor(s1, reset) == Some(id))
            && Serve(s1, Call(VerifyEmailReq(raw), env)).1 == Err(InvalidVerification)
  {
    Forgotten(s, forgot);
    var s1, raw := Serve(s, forgot).0, forgot.env.rawToken;
    var n := |s.verifications|;
    hide Serve;
    NewestMail(s, s1.verifications, raw);
    T.FindVerificationFinds(s1.verifications, n);
    Redeemed(s1, Call(ResetPasswordReq(raw, password), env), n);
    Redeemed(s1, Call(VerifyEmailReq(raw), env), n);
    hide FindVerification;
  }
}
