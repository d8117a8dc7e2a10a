// The abstract session machine: a family is a login session that belongs to one
// user and has at most one current refresh token, with no token rows or revocation
// times. Users, mailed tokens and the blacklist are those of the concrete state.
module SessionMachine {
  import opened Wrappers
  import opened Tables
  import opened Schema
  import opened AuthSpec
  import Redis

  // A refresh token and until when the service honours it.
  datatype Grant = Grant(token: RefreshJwt, until: Millis)

  // `current` is None once the session has ended.
  datatype Session = Session(user: Id, current: Option<Grant>)

  type Sessions = map<Id, Session>

  datatype Machine = Machine(
    users: Table<User>, sessions: Sessions, verifications: seq<VerificationRow>,
    signed: set<RefreshJwt>, blacklist: Redis.Store<string>)

  function End(m: Sessions, family: Id): Sessions {
    if family in m then m[family := m[family].(current := None)] else m
  }

  function EndAllOf(m: Sessions, user: Id): Sessions {
    map f | f in m :: if m[f].user == user then m[f].(current := None) else m[f]
  }

  predicate IsCurrent(m: Sessions, token: RefreshJwt) {
    && token.family in m
    && m[token.family].current.Some?
    && m[token.family].current.value.token == token
  }

  /** The session has outlasted its stored lifetime, whatever the token itself claims. */
  predicate HasLapsed(m: Sessions, token: RefreshJwt, now: Millis)
    requires IsCurrent(m, token)
  {
    m[token.family].current.value.until < now
  }

  function SignedGrant(user: Id, family: Id, env: Env): Grant {
    Grant(SignRefresh(user, family, env), env.now + env.refreshTtl * 1000)
  }

  /** A new token becomes the current one of `family`, started or rotated by `user`. */
  function Advance(m: Machine, user: Id, family: Id, env: Env): (Machine, Tokens)
    requires user in m.users
  {
    var grant := SignedGrant(user, family, env);
    (m.(sessions := m.sessions[family := Session(user, Some(grant))], signed := m.signed + {grant.token}),
     Tokens(SignAccess(user, m.users[user], env), grant.token))
  }

  function SetUser(m: Machine, id: Id, user: User): Machine
    requires id in m.users
  {
    m.(users := UpdateById(m.users, id, user))
  }

  function RefreshSession(m: Machine, token: RefreshJwt, env: Env): (Machine, Result<Reply, Failure>) {
    if token !in m.signed || Seconds(env.now) >= token.exp then (m, Err(InvalidRefreshToken))
    else if !IsCurrent(m.sessions, token) then (m.(sessions := End(m.sessions, token.family)), Err(RefreshReuse))
    else if HasLapsed(m.sessions, token, env.now) then (m, Err(RefreshExpired))
    else if token.sub !in m.users || !m.users[token.sub].row.isActive then (m, Err(AccountInactive))
    else
      var (m1, tokens) := Advance(m, token.sub, token.family, env);
      (m1, Ok(Issued(None, tokens)))
  }

  function LogoutSession(m: Machine, token: Option<RefreshJwt>, accessJti: Option<string>, env: Env): Machine {
    var m1 :=
      if token.Some? && IsCurrent(m.sessions, token.value)
      then m.(sessions := End(m.sessions, token.value.family)) else m;
    m1.(blacklist := BlacklistAccess(m1.blacklist, accessJti, env))
  }

  /** The verification row that a presented raw token redeems, if any. */
  function Redeemable(rows: seq<VerificationRow>, raw: Id, kind: TokenType, now: Millis): Option<nat> {
    match FindVerification(rows, Digest(raw), kind)
    case Some(i) => if rows[i].expiresAt < now then None else Some(i)
    case None => None
  }

  function Serve(m: Machine, call: Call): (Machine, Result<Reply, Failure>) {
    var env := call.env;
    match call.request
    case RegisterReq(id, org, email, password, first, last) =>
      var users := Insert(m.users, org, id, NewOwner(email, password, first, last));
      var m1 := m.(users := users, verifications := m.verifications + [EmailVerification(id, env)]);
      var (m2, tokens) := Advance(m1, id, env.family, env);
      (m2, Ok(Issued(Some(Sanitize(id, users[id])), tokens)))
    case LoginReq(found, password) =>
      if found.None? || found.value !in m.users || !m.users[found.value].row.isActive
         || m.users[found.value].row.passwordHash != Digest(password)
      then (m, Err(InvalidCredentials))
      else
        var m1 := SetUser(m, found.value, m.users[found.value].row.(lastLoginAt := Some(env.now)));
        var (m2, tokens) := Advance(m1, found.value, env.family, env);
        (m2, Ok(Issued(Some(Sanitize(found.value, m.users[found.value])), tokens)))
    case RefreshReq(token) => RefreshSession(m, token, env)
    case LogoutReq(token, jti) => (LogoutSession(m, token, jti, env), Ok(Done))
    case ForgotPasswordReq(found) =>
      if found.None? then (m, Ok(Done))
      else (m.(verifications := m.verifications + [PasswordResetMail(found.value, env)]), Ok(Done))
    case ResetPasswordReq(raw, newPassword) =>
      (match Redeemable(m.verifications, raw, PASSWORD_RESET, env.now)
       case None => (m, Err(InvalidVerification))
       case Some(i) =>
         var id := m.verifications[i].userId;
         if id !in m.users then (m, Err(NotFound))
         else (SetUser(m, id, m.users[id].row.(passwordHash := Digest(newPassword)))
               .(verifications := MarkVerificationUsed(m.verifications, i, env.now),
                 sessions := EndAllOf(m.sessions, id)),
               Ok(Done)))
    case VerifyEmailReq(raw) =>
      (match Redeemable(m.verifications, raw, EMAIL_VERIFY, env.now)
       case None => (m, Err(InvalidVerification))
       case Some(i) =>
         var id := m.verifications[i].userId;
         if id !in m.users then (m, Err(NotFound))
         else (SetUser(m, id, m.users[id].row.(emailVerified := true))
               .(verifications := MarkVerificationUsed(m.verifications, i, env.now)),
               Ok(Done)))
    case ChangePasswordReq(id, current, newPassword) =>
      if id !in m.users then (m, Err(Unauthorized))
      else if m.users[id].row.passwordHash != Digest(current) then (m, Err(WrongPassword))
      else (SetUser(m, id, m.users[id].row.(passwordHash := Digest(newPassword)))
            .(sessions := EndAllOf(m.sessions, id)),
            Ok(Done))
    case MeReq(id) => (m, if id !in m.users then Err(Unauthorized) else Ok(Profile(Sanitize(id, m.users[id]))))
    case SetActive(id, active) =>
      if id in m.users then (SetUser(m, id, m.users[id].row.(isActive := active)), Ok(Done)) else (m, Err(NotFound))
  }

  function Run(m: Machine, calls: seq<Call>): (r: (Machine, seq<Result<Reply, Failure>>))
    ensures |r.1| == |calls|
    decreases |calls|
  {
    if calls == [] then (m, [])
    else
      var (m1, reply) := Serve(m, calls[0]);
      var (m2, replies) := Run(m1, calls[1..]);
      (m2, [reply] + replies)
  }
}
