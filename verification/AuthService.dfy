// AuthRepository, the stateful part of TokenService, and AuthService: check, then
// write the token tables in place.
module AuthService {
  import opened Wrappers
  import opened Tables
  import opened Schema
  import opened AuthSpec
  import D = Database
  import R = RedisService
  import Redis

  class AuthRepository {
    var refreshTokens: seq<RefreshRow>
    var verifications: seq<VerificationRow>

    constructor ()
      ensures refreshTokens == [] && verifications == []
    {
      refreshTokens, verifications := [], [];
    }

    method CreateRefreshToken(row: RefreshRow)
      modifies this`refreshTokens
      ensures refreshTokens == old(refreshTokens) + [row]
    {
      refreshTokens := refreshTokens + [row];
    }

    /** update({ where: { id } }): an error when there is no such row. */
    method RevokeRefreshToken(id: nat, now: Millis) returns (ok: bool)
      modifies this`refreshTokens
      ensures ok == (id < |old(refreshTokens)|)
      ensures refreshTokens
              == if ok then AuthSpec.RevokeRefreshToken(old(refreshTokens), id, now) else old(refreshTokens)
    {
      if |refreshTokens| <= id { return false; }
      ok := true;
      refreshTokens := refreshTokens[id := refreshTokens[id].(revokedAt := Some(now))];
    }

    method RevokeFamily(family: Id, now: Millis)
      modifies this`refreshTokens
      ensures refreshTokens == AuthSpec.RevokeFamily(old(refreshTokens), family, now)
    {
      var rows := refreshTokens;
      refreshTokens := seq(|rows|, i requires 0 <= i < |rows| =>
        if rows[i].family == family && rows[i].revokedAt.None? then rows[i].(revokedAt := Some(now)) else rows[i]);
    }

    method RevokeAllForUser(user: Id, now: Millis)
      modifies this`refreshTokens
      ensures refreshTokens == AuthSpec.RevokeAllForUser(old(refreshTokens), user, now)
    {
      var rows := refreshTokens;
      refreshTokens := seq(|rows|, i requires 0 <= i < |rows| =>
        if rows[i].userId == user && rows[i].revokedAt.None? then rows[i].(revokedAt := Some(now)) else rows[i]);
    }

    method CreateVerificationToken(row: VerificationRow)
      modifies this`verifications
      ensures verifications == old(verifications) + [row]
    {
      verifications := verifications + [row];
    }

    method MarkVerificationUsed(id: nat, now: Millis) returns (ok: bool)
      modifies this`verifications
      ensures ok == (id < |old(verifications)|)
      ensures verifications
              == if ok then AuthSpec.MarkVerificationUsed(old(verifications), id, now) else old(verifications)
    {
      if |verifications| <= id { return false; }
      ok := true;
      verifications := verifications[id := verifications[id].(usedAt := Some(now))];
    }
  }

  // Ideal signatures: the refresh tokens that were signed here.
  class TokenService {
    var signed: set<RefreshJwt>

    constructor ()
      ensures signed == {}
    {
      signed := {};
    }

    method IssueTokens(id: Id, user: Owned<User>, family: Id, env: Env) returns (tokens: Tokens)
      modifies this
      ensures tokens == Tokens(SignAccess(id, user, env), SignRefresh(id, family, env))
      ensures signed == old(signed) + {tokens.refresh}
    {
      var access := AccessJwt(id, user.org, user.row.role, user.row.email, env.accessJti,
                              Seconds(env.now) + env.accessTtl);
      var refresh := RefreshJwt(id, family, env.refreshJti, Seconds(env.now) + env.signedTtl);
      signed := signed + {refresh};
      return Tokens(access, refresh);
    }
  }

  class AuthService {
    const db: D.Database
    const authRepo: AuthRepository
    const tokens: TokenService
    const redis: R.RedisService<string>

    constructor (db: D.Database, authRepo: AuthRepository, tokens: TokenService, redis: R.RedisService<string>)
      ensures this.db == db && this.authRepo == authRepo && this.tokens == tokens && this.redis == redis
    {
      this.db, this.authRepo, this.tokens, this.redis := db, authRepo, tokens, redis;
    }

    function State(): Auth
      reads db, authRepo, tokens, redis
    {
      Auth(db.users, authRepo.refreshTokens, authRepo.verifications, tokens.signed, redis.store)
    }

    method IssueAndPersist(id: Id, user: Owned<User>, family: Id, env: Env) returns (issued: Tokens)
      requires id in db.users
      modifies authRepo`refreshTokens, tokens
      ensures issued == Tokens(SignAccess(id, user, env), SignRefresh(id, family, env))
      ensures State() == AuthSpec.IssueAndPersist(old(State()), id, family, env).0
    {
      issued := tokens.IssueTokens(id, user, family, env);
      authRepo.CreateRefreshToken(
        RefreshRow(id, Digest(issued.refresh), family, env.now + env.refreshTtl * 1000, None));
    }

    /** Once the organization row exists: its owner, the verification mail and the first session. */
    method Register(id: Id, org: OrgId, email: string, password: string, first: Option<string>, last: Option<string>,
                    env: Env)
      returns (reply: Result<AuthSpec.Reply, Failure>)
      modifies db`users, authRepo, tokens
      ensures (State(), reply) == AuthSpec.Register(old(State()), id, org, email, password, first, last, env)
    {
      var user := User(email, Digest(password), first, last, None, OWNER, true, false, None);
      db.users := db.users[id := Owned(org, user)];
      authRepo.CreateVerificationToken(
        VerificationRow(id, Digest(env.rawToken), EMAIL_VERIFY, env.now + 24 * 60 * 60 * 1000, None));
      var issued := IssueAndPersist(id, Owned(org, user), env.family, env);
      return Ok(Issued(Some(Sanitize(id, db.users[id])), issued));
    }

    method Login(found: Option<Id>, password: string, env: Env) returns (reply: Result<AuthSpec.Reply, Failure>)
      modifies db`users, authRepo`refreshTokens, tokens
      ensures (State(), reply) == AuthSpec.Login(old(State()), found, password, env)
    {
      if found.None? || found.value !in db.users { return Err(InvalidCredentials); }
      var id := found.value;
      var user := db.users[id];
      if !user.row.isActive { return Err(InvalidCredentials); }
      if user.row.passwordHash != Digest(password) { return Err(InvalidCredentials); }
      var shown := Sanitize(id, db.users[id]);
      db.users := db.users[id := user.(row := user.row.(lastLoginAt := Some(env.now)))];
      var issued := IssueAndPersist(id, user, env.family, env);
      return Ok(Issued(Some(shown), issued));
    }

    method Refresh(token: RefreshJwt, env: Env) returns (reply: Result<AuthSpec.Reply, Failure>)
      modifies authRepo`refreshTokens, tokens
      ensures (State(), reply) == AuthSpec.Refresh(old(State()), token, env)
    {
      if token !in tokens.signed || token.exp <= env.now / 1000 { return Err(InvalidRefreshToken); }
      var found := FindRefreshByHash(authRepo.refreshTokens, Digest(token));
      if found.None? || authRepo.refreshTokens[found.value].revokedAt.Some? {
        authRepo.RevokeFamily(token.family, env.now);
        return Err(RefreshReuse);
      }
      var stored := authRepo.refreshTokens[found.value];
      if stored.expiresAt < env.now { return Err(RefreshExpired); }
      if token.sub !in db.users { return Err(AccountInactive); }
      var user := db.users[token.sub];
      if !user.row.isActive { return Err(AccountInactive); }
      var revoked := authRepo.RevokeRefreshToken(found.value, env.now);
      assert revoked;
      var issued := IssueAndPersist(token.sub, user, stored.family, env);
      return Ok(Issued(None, issued));
    }

    method Logout(refreshToken: Option<RefreshJwt>, accessJti: Option<string>, env: Env)
      modifies authRepo`refreshTokens, redis
      requires redis.mark == "1"
      ensures State() == AuthSpec.Logout(old(State()), refreshToken, accessJti, env)
    {
      if refreshToken.Some? {
        var stored := FindRefreshByHash(authRepo.refreshTokens, Digest(refreshToken.value));
        if stored.Some? && authRepo.refreshTokens[stored.value].revokedAt.None? {
          var revoked := authRepo.RevokeRefreshToken(stored.value, env.now);
          assert revoked;
        }
      }
      if accessJti.Some? && accessJti.value != "" {
        redis.BlacklistToken(accessJti.value, env.refreshTtl, env.now);
      }
    }

    method ForgotPassword(found: Option<Id>, env: Env)
      modifies authRepo`verifications
      ensures State() == AuthSpec.ForgotPassword(old(State()), found, env)
    {
      if found.None? { return; }
      authRepo.CreateVerificationToken(
        VerificationRow(found.value, Digest(env.rawToken), PASSWORD_RESET, env.now + 60 * 60 * 1000, None));
    }

    method ResetPassword(raw: Id, newPassword: string, env: Env) returns (reply: Result<AuthSpec.Reply, Failure>)
      modifies db`users, authRepo
      ensures (State(), reply) == AuthSpec.ResetPassword(old(State()), raw, newPassword, env)
    {
      var found := FindVerification(authRepo.verifications, Digest(raw), PASSWORD_RESET);
      if found.None? || authRepo.verifications[found.value].expiresAt < env.now { return Err(InvalidVerification); }
      var id := authRepo.verifications[found.value].userId;
      if id !in db.users { return Err(NotFound); }
      db.users := db.users[id := db.users[id].(row := db.users[id].row.(passwordHash := Digest(newPassword)))];
      var marked := authRepo.MarkVerificationUsed(found.value, env.now);
      assert marked;
      authRepo.RevokeAllForUser(id, env.now);
      return Ok(Done);
    }

    method VerifyEmail(raw: Id, env: Env) returns (reply: Result<AuthSpec.Reply, Failure>)
      modifies db`users, authRepo`verifications
      ensures (State(), reply) == AuthSpec.VerifyEmail(old(State()), raw, env)
    {
      var found := FindVerification(authRepo.verifications, Digest(raw), EMAIL_VERIFY);
      if found.None? || authRepo.verifications[found.value].expiresAt < env.now { return Err(InvalidVerification); }
      var id := authRepo.verifications[found.value].userId;
      if id !in db.users { return Err(NotFound); }
      db.users := db.users[id := db.users[id].(row := db.users[id].row.(emailVerified := true))];
      var marked := authRepo.MarkVerificationUsed(found.value, env.now);
      assert marked;
      return Ok(Done);
    }

    method ChangePassword(id: Id, current: string, newPassword: string, env: Env)
      returns (reply: Result<AuthSpec.Reply, Failure>)
      modifies db`users, authRepo`refreshTokens
      ensures (State(), reply) == AuthSpec.ChangePassword(old(State()), id, current, newPassword, env)
    {
      if id !in db.users { return Err(Unauthorized); }
      var user := db.users[id];
      if user.row.passwordHash != Digest(current) { return Err(WrongPassword); }
      db.users := db.users[id := user.(row := user.row.(passwordHash := Digest(newPassword)))];
      authRepo.RevokeAllForUser(id, env.now);
      return Ok(Done);
    }

    method Me(id: Id) returns (reply: Result<AuthSpec.Reply, Failure>)
      ensures reply == AuthSpec.Me(State(), id)
    {
      if id !in db.users { return Err(Unauthorized); }
      var u := db.users[id];
      return Ok(Profile(SafeUser(id, u.org, u.row.email, u.row.firstName, u.row.lastName, u.row.avatarUrl, u.row.role,
                                 u.row.isActive, u.row.emailVerified, u.row.lastLoginAt)));
    }
  }
}
