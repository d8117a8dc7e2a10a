// AuthService with every request atomic: what each request does to the user,
// refresh-token and verification-token tables and to the blacklist.
module AuthSpec {
  import opened Wrappers
  import opened Tables
  import opened Schema
  import Redis

  // A signed refresh token; `exp` is in whole seconds, as in a JWT.
  datatype RefreshJwt = RefreshJwt(sub: Id, family: Id, jti: Id, exp: nat)

  datatype AccessJwt = AccessJwt(sub: Id, org: OrgId, role: Role, email: string, jti: string, exp: nat)

  datatype Tokens = Tokens(access: AccessJwt, refresh: RefreshJwt)

  datatype RefreshRow = RefreshRow(
    userId: Id, tokenHash: Digest<RefreshJwt>, family: Id, expiresAt: Millis, revokedAt: Option<Millis>)

  datatype TokenType = EMAIL_VERIFY | PASSWORD_RESET

  datatype VerificationRow = VerificationRow(
    userId: Id, tokenHash: Digest<Id>, kind: TokenType, expiresAt: Millis, usedAt: Option<Millis>)

  // Nothing ever deletes a token row, so both token tables are lists in
  // insertion order and a row's id is its position. `signed` is the set of
  // refresh tokens that carry this server's signature.
  datatype Auth = Auth(
    users: Table<User>, refreshTokens: seq<RefreshRow>, verifications: seq<VerificationRow>,
    signed: set<RefreshJwt>, blacklist: Redis.Store<string>)

  // The clock, the configured lifetimes in seconds and the random values of one request. The one setting of
  // the refresh lifetime is read twice: by the JWT library for `exp` and by refreshTtlSeconds() for the rest.
  datatype Env = Env(
    now: Millis, accessTtl: nat, signedTtl: nat, refreshTtl: nat,
    accessJti: string, refreshJti: Id, family: Id, rawToken: Id)

  function Seconds(now: Millis): nat { now / 1000 }

  // --- AuthRepository ---------------------------------------------------

  predicate Live(row: RefreshRow) { row.revokedAt.None? }

  /** findFirst({ where: { tokenHash } }) */
  function FindRefreshByHash(rows: seq<RefreshRow>, hash: Digest<RefreshJwt>): (r: Option<nat>)
    ensures r.Some? ==> r.value < |rows| && rows[r.value].tokenHash == hash
  {
    if rows == [] then None
    else
      var n := |rows| - 1;
      match FindRefreshByHash(rows[..n], hash)
      case Some(i) => Some(i)
      case None => if rows[n].tokenHash == hash then Some(n) else None
  }

  function RevokeRefreshToken(rows: seq<RefreshRow>, id: nat, now: Millis): seq<RefreshRow>
    requires id < |rows|
  {
    rows[id := rows[id].(revokedAt := Some(now))]
  }

  function RevokeIf(row: RefreshRow, condition: bool, now: Millis): RefreshRow {
    if condition && row.revokedAt.None? then row.(revokedAt := Some(now)) else row
  }

  /** updateMany({ where: { family, revokedAt: null } }) */
  function RevokeFamily(rows: seq<RefreshRow>, family: Id, now: Millis): seq<RefreshRow> {
    seq(|rows|, i requires 0 <= i < |rows| => RevokeIf(rows[i], rows[i].family == family, now))
  }

  /** updateMany({ where: { userId, revokedAt: null } }) */
  function RevokeAllForUser(rows: seq<RefreshRow>, user: Id, now: Millis): seq<RefreshRow> {
    seq(|rows|, i requires 0 <= i < |rows| => RevokeIf(rows[i], rows[i].userId == user, now))
  }

  /** findFirst({ where: { tokenHash, type, usedAt: null } }) */
  function FindVerification(rows: seq<VerificationRow>, hash: Digest<Id>, kind: TokenType): (r: Option<nat>)
    ensures r.Some? ==> r.value < |rows| && rows[r.value].tokenHash == hash && rows[r.value].kind == kind
                        && rows[r.value].usedAt.None?
  {
    if rows == [] then None
    else
      var n := |rows| - 1;
      match FindVerification(rows[..n], hash, kind)
      case Some(i) => Some(i)
      case None =>
        if rows[n].tokenHash == hash && rows[n].kind == kind && rows[n].usedAt.None? then Some(n) else None
  }

  function MarkVerificationUsed(rows: seq<VerificationRow>, id: nat, now: Millis): seq<VerificationRow>
    requires id < |rows|
  {
    rows[id := rows[id].(usedAt := Some(now))]
  }

  // --- TokenService -----------------------------------------------------

  /** verifyRefreshToken: our signature, and not past `exp`. */
  predicate Verifies(s: Auth, token: RefreshJwt, now: Millis) {
    token in s.signed && Seconds(now) < token.exp
  }

  function SignAccess(id: Id, user: Owned<User>, env: Env): AccessJwt {
    AccessJwt(id, user.org, user.row.role, user.row.email, env.accessJti, Seconds(env.now) + env.accessTtl)
  }

  function SignRefresh(user: Id, family: Id, env: Env): RefreshJwt {
    RefreshJwt(user, family, env.refreshJti, Seconds(env.now) + env.signedTtl)
  }

  // --- AuthService ------------------------------------------------------

  /** issueAndPersist: sign a pair in `family` and store the refresh half. */
  function IssueAndPersist(s: Auth, user: Id, family: Id, env: Env): (Auth, Tokens)
    requires user in s.users
  {
    var refresh := SignRefresh(user, family, env);
    var row := RefreshRow(user, Digest(refresh), family, env.now + env.refreshTtl * 1000, None);
    (s.(refreshTokens := s.refreshTokens + [row], signed := s.signed + {refresh}),
     Tokens(SignAccess(user, s.users[user], env), refresh))
  }

  function WithUser(s: Auth, id: Id, user: User): Auth
    requires id in s.users
  {
    s.(users := UpdateById(s.users, id, user))
  }

  // Login and registration also return the user record.
  datatype Reply = Issued(user: Option<SafeUser>, tokens: Tokens) | Profile(me: SafeUser) | Done

  function NewOwner(email: string, password: string, first: Option<string>, last: Option<string>): User {
    User(email, Digest(password), first, last, None, OWNER, true, false, None)
  }

  /** The row behind the mailed e-mail verification link, good for a day. */
  function EmailVerification(user: Id, env: Env): VerificationRow {
    VerificationRow(user, Digest(env.rawToken), EMAIL_VERIFY, env.now + 24 * 60 * 60 * 1000, None)
  }

  /** The row behind a password-reset link, good for an hour. */
  function PasswordResetMail(user: Id, env: Env): VerificationRow {
    VerificationRow(user, Digest(env.rawToken), PASSWORD_RESET, env.now + 60 * 60 * 1000, None)
  }

  /** register, from the point where the organization's slug is known to be free. */
  function Register(s: Auth, id: Id, org: OrgId, email: string, password: string, first: Option<string>,
                    last: Option<string>, env: Env): (Auth, Result<Reply, Failure>)
  {
    var s1 := s.(users := Insert(s.users, org, id, NewOwner(email, password, first, last)),
                 verifications := s.verifications + [EmailVerification(id, env)]);
    var (s2, tokens) := IssueAndPersist(s1, id, env.family, env);
    (s2, Ok(Issued(Some(Sanitize(id, s1.users[id])), tokens)))
  }

  /** login, given the row that the e-mail lookup found; the reply shows that row, from before this login. */
  function Login(s: Auth, found: Option<Id>, password: string, env: Env): (Auth, Result<Reply, Failure>) {
    if found.None? || found.value !in s.users || !s.users[found.value].row.isActive then
      (s, Err(InvalidCredentials))
    else
      var id := found.value;
      var user := s.users[id].row;
      if user.passwordHash != Digest(password) then (s, Err(InvalidCredentials))
      else
        var s1 := WithUser(s, id, user.(lastLoginAt := Some(env.now)));
        var (s2, tokens) := IssueAndPersist(s1, id, env.family, env);
        (s2, Ok(Issued(Some(Sanitize(id, s.users[id])), tokens)))
  }

  /** refresh: rotation with reuse detection. */
  function Refresh(s: Auth, token: RefreshJwt, env: Env): (Auth, Result<Reply, Failure>) {
    if !Verifies(s, token, env.now) then (s, Err(InvalidRefreshToken))
    else
      var found := FindRefreshByHash(s.refreshTokens, Digest(token));
      if found.None? || s.refreshTokens[found.value].revokedAt.Some? then
        (s.(refreshTokens := RevokeFamily(s.refreshTokens, token.family, env.now)), Err(RefreshReuse))
      else
        var stored := s.refreshTokens[found.value];
        if stored.expiresAt < env.now then (s, Err(RefreshExpired))
        else if token.sub !in s.users || !s.users[token.sub].row.isActive then (s, Err(AccountInactive))
        else
          var s1 := s.(refreshTokens := RevokeRefreshToken(s.refreshTokens, found.value, env.now));
          var (s2, tokens) := IssueAndPersist(s1, token.sub, stored.family, env);
          (s2, Ok(Issued(None, tokens)))
  }

  /** The blacklist half of logout; an absent or empty jti is skipped. */
  function BlacklistAccess(blacklist: Redis.Store<string>, jti: Option<string>, env: Env): Redis.Store<string> {
    if jti.None? || jti.value == "" then blacklist
    else Redis.SetEx(blacklist, Redis.BlacklistKey(jti.value), "1", env.refreshTtl, env.now)
  }

  /** logout: no signature or expiry check, only the hash lookup. */
  function Logout(s: Auth, token: Option<RefreshJwt>, accessJti: Option<string>, env: Env): Auth {
    var s1 :=
      if token.None? then s
      else
        match FindRefreshByHash(s.refreshTokens, Digest(token.value))
        case None => s
        case Some(i) =>
          if s.refreshTokens[i].revokedAt.Some? then s
          else s.(refreshTokens := RevokeRefreshToken(s.refreshTokens, i, env.now));
    s1.(blacklist := BlacklistAccess(s1.blacklist, accessJti, env))
  }

  function ForgotPassword(s: Auth, found: Option<Id>, env: Env): Auth {
    if found.None? then s
    else s.(verifications := s.verifications + [PasswordResetMail(found.value, env)])
  }

  function ResetPassword(s: Auth, raw: Id, newPassword: string, env: Env): (Auth, Result<Reply, Failure>) {
    var found := FindVerification(s.verifications, Digest(raw), PASSWORD_RESET);
    if found.None? || s.verifications[found.value].expiresAt < env.now then (s, Err(InvalidVerification))
    else
      var id := s.verifications[found.value].userId;
      if id !in s.users then (s, Err(NotFound))
      else
        var s1 := WithUser(s, id, s.users[id].row.(passwordHash := Digest(newPassword)));
        (s1.(verifications := MarkVerificationUsed(s.verifications, found.value, env.now),
             refreshTokens := RevokeAllForUser(s.refreshTokens, id, env.now)),
         Ok(Done))
  }

  function VerifyEmail(s: Auth, raw: Id, env: Env): (Auth, Result<Reply, Failure>) {
    var found := FindVerification(s.verifications, Digest(raw), EMAIL_VERIFY);
    if found.None? || s.verifications[found.value].expiresAt < env.now then (s, Err(InvalidVerification))
    else
      var id := s.verifications[found.value].userId;
      if id !in s.users then (s, Err(NotFound))
      else
        var s1 := WithUser(s, id, s.users[id].row.(emailVerified := true));
        (s1.(verifications := MarkVerificationUsed(s.verifications, found.value, env.now)), Ok(Done))
  }

  function ChangePassword(s: Auth, id: Id, current: string, newPassword: string, env: Env):
    (Auth, Result<Reply, Failure>)
  {
    if id !in s.users then (s, Err(Unauthorized))
    else if s.users[id].row.passwordHash != Digest(current) then (s, Err(WrongPassword))
    else
      var s1 := WithUser(s, id, s.users[id].row.(passwordHash := Digest(newPassword)));
      (s1.(refreshTokens := RevokeAllForUser(s.refreshTokens, id, env.now)), Ok(Done))
  }

  /** me: the caller's own record. */
  function Me(s: Auth, id: Id): Result<Reply, Failure> {
    if id !in s.users then Err(Unauthorized) else Ok(Profile(Sanitize(id, s.users[id])))
  }

  // --- requests and runs ------------------------------------------------

  // SetActive is not a request: an operator may flip a user's `isActive` flag at any time.
  datatype Request =
    | RegisterReq(id: Id, org: OrgId, email: string, password: string, first: Option<string>, last: Option<string>)
    | LoginReq(found: Option<Id>, password: string)
    | RefreshReq(token: RefreshJwt)
    | LogoutReq(refreshToken: Option<RefreshJwt>, accessJti: Option<string>)
    | ForgotPasswordReq(found: Option<Id>)
    | ResetPasswordReq(raw: Id, newPassword: string)
    | VerifyEmailReq(raw: Id)
    | ChangePasswordReq(id: Id, current: string, newPassword: string)
    | MeReq(id: Id)
    | SetActive(id: Id, active: bool)

  datatype Call = Call(request: Request, env: Env)

  function Serve(s: Auth, call: Call): (Auth, Result<Reply, Failure>) {
    match call.request
    case RegisterReq(id, org, email, password, first, last) =>
      Register(s, id, org, email, password, first, last, call.env)
    case LoginReq(found, password) => Login(s, found, password, call.env)
    case RefreshReq(token) => Refresh(s, token, call.env)
    case LogoutReq(token, jti) => (Logout(s, token, jti, call.env), Ok(Done))
    case ForgotPasswordReq(found) => (ForgotPassword(s, found, call.env), Ok(Done))
    case ResetPasswordReq(raw, newPassword) => ResetPassword(s, raw, newPassword, call.env)
    case VerifyEmailReq(raw) => VerifyEmail(s, raw, call.env)
    case ChangePasswordReq(id, current, newPassword) => ChangePassword(s, id, current, newPassword, call.env)
    case MeReq(id) => (s, Me(s, id))
    case SetActive(id, active) =>
      if id in s.users then (WithUser(s, id, s.users[id].row.(isActive := active)), Ok(Done)) else (s, Err(NotFound))
  }

  /** A serial run: the state after the calls, and their replies in order. */
  function Run(s: Auth, calls: seq<Call>): (r: (Auth, seq<Result<Reply, Failure>>))
    ensures |r.1| == |calls|
    decreases |calls|
  {
    if calls == [] then (s, [])
    else
      var (s1, reply) := Serve(s, calls[0]);
      var (s2, replies) := Run(s1, calls[1..]);
      (s2, [reply] + replies)
  }

  // --- what random generation guarantees --------------------------------

  predicate FreshJti(s: Auth, jti: Id) { forall t :: t in s.signed ==> t.jti != jti }

  predicate FreshFamily(s: Auth, family: Id) {
    forall i :: 0 <= i < |s.refreshTokens| ==> s.refreshTokens[i].family != family
  }

  predicate FreshRaw(s: Auth, raw: Id) {
    forall i :: 0 <= i < |s.verifications| ==> s.verifications[i].tokenHash != Digest(raw)
  }

  /** The request's new ids have never been used; a user the e-mail lookup found exists. */
  predicate Fresh(s: Auth, call: Call) {
    && FreshJti(s, call.env.refreshJti)
    && FreshFamily(s, call.env.family)
    && FreshRaw(s, call.env.rawToken)
    && (call.request.RegisterReq? ==> call.request.id !in s.users)
    && (call.request.ForgotPasswordReq? && call.request.found.Some? ==> call.request.found.value in s.users)
  }

  /** Every call of the run is fresh in the state it meets. */
  predicate FreshRun(s: Auth, calls: seq<Call>)
    decreases |calls|
  {
    calls == [] || (Fresh(s, calls[0]) && FreshRun(Serve(s, calls[0]).0, calls[1..]))
  }
}
