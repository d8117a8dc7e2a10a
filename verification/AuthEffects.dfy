// What each auth request does to the tables and answers, in the terms of its own input.
module AuthEffects {
  import opened Wrappers
  import opened Tables
  import opened Schema
  import opened AuthSpec
  import opened SessionRefinement
  import Redis
  import Mails = SessionTheorems

  // Milliseconds.
  const DAY: Millis := 86400000
  const HOUR: Millis := 3600000

  predicate Issues(s: Auth, call: Call) { Serve(s, call).1.Ok? && Serve(s, call).1.value.Issued? }

  /** The user that the request is about, and the family its pair belongs to. */
  predicate Concerns(s: Auth, call: Call, user: Id, family: Id) {
    match call.request
    case RegisterReq(id, _, _, _, _, _) => user == id && family == call.env.family
    case LoginReq(found, _) => found == Some(user) && family == call.env.family
    case RefreshReq(token) =>
      user == token.sub
      && exists i :: 0 <= i < |s.refreshTokens| && s.refreshTokens[i].tokenHash == Digest(token)
                     && s.refreshTokens[i].family == family
    case _ => false
  }

  /** The access token names the user as its row stands, under the drawn jti and the configured lifetime. */
  predicate SaysRow(access: AccessJwt, users: Table<User>, env: Env) {
    && access.sub in users && access.org == users[access.sub].org && access.role == users[access.sub].row.role
    && access.email == users[access.sub].row.email && access.jti == env.accessJti
    && access.exp == env.now / 1000 + env.accessTtl
  }

  /**
   * Whatever answers with a pair: the access half says what the user's row says; the refresh half names the
   * user and the family, is signed, and is stored as the newest row.
   */
  lemma TokensCarryTheRow(s: Auth, call: Call)
    requires Issues(s, call)
    ensures var s', tokens, env := Serve(s, call).0, Serve(s, call).1.value.tokens, call.env;
            var user, refresh := tokens.access.sub, tokens.refresh;
            && SaysRow(tokens.access, s'.users, env)
            && refresh == RefreshJwt(user, refresh.family, env.refreshJti, env.now / 1000 + env.signedTtl)
            && Concerns(s, call, user, refresh.family)
            && s'.signed == s.signed + {refresh}
            && |s'.refreshTokens| == |s.refreshTokens| + 1
            && s'.refreshTokens[|s.refreshTokens|]
               == RefreshRow(user, Digest(refresh), refresh.family, env.now + env.refreshTtl * 1000, None)
  {
    hide FindRefreshByHash, FindVerification, Sanitize, RevokeFamily, RevokeAllForUser;
    if call.request.RefreshReq? {
      var found := FindRefreshByHash(s.refreshTokens, Digest(call.request.token));
      assert s.refreshTokens[found.value].tokenHash == Digest(call.request.token);
    }
  }

  // --- accounts ---------------------------------------------------------

  /** The record shown for a user: every column but the hash. */
  predicate Shows(record: SafeUser, id: Id, user: Owned<User>) {
    var u := user.row;
    record == SafeUser(id, user.org, u.email, u.firstName, u.lastName, u.avatarUrl, u.role, u.isActive,
                       u.emailVerified, u.lastLoginAt)
  }

  /** A registration stores an active, unverified OWNER and a mail good for a day, and answers with the record. */
  lemma Registered(s: Auth, call: Call)
    requires call.request.RegisterReq?
    ensures var (s', reply), r, env := Serve(s, call), call.request, call.env;
            var owner := User(r.email, Digest(r.password), r.first, r.last, None, OWNER, true, false, None);
            && Issues(s, call)
            && reply.value.user == Some(SafeUser(r.id, r.org, r.email, r.first, r.last, None, OWNER, true, false, None))
            && s'.users == s.users[r.id := Owned(r.org, owner)]
            && s'.verifications
               == s.verifications + [VerificationRow(r.id, Digest(env.rawToken), EMAIL_VERIFY, env.now + DAY, None)]
            && s'.blacklist == s.blacklist && s.refreshTokens <= s'.refreshTokens
  {
  }

  /**
   * A login succeeds exactly for an active user and its password; it notes the time and shows the record from before.
   */
  lemma LoggedIn(s: Auth, call: Call)
    requires call.request.LoginReq?
    ensures var (s', reply), found, env := Serve(s, call), call.request.found, call.env;
            if found.Some? && found.value in s.users && s.users[found.value].row.isActive
               && s.users[found.value].row.passwordHash == Digest(call.request.password)
            then
              var user := s.users[found.value];
              && Issues(s, call) && reply.value.user.Some? && Shows(reply.value.user.value, found.value, user)
              && s'.users == s.users[found.value := Owned(user.org, user.row.(lastLoginAt := Some(env.now)))]
              && s'.verifications == s.verifications && s'.blacklist == s.blacklist
              && s.refreshTokens <= s'.refreshTokens
            else (s', reply) == (s, Err(InvalidCredentials))
  {
  }

  /** Nobody's record but one's own, and only while the user exists. */
  lemma ShownToOneself(s: Auth, call: Call)
    requires call.request.MeReq?
    ensures var (s', reply), id := Serve(s, call), call.request.id;
            && s' == s
            && if id in s.users then reply.Ok? && reply.value.Profile? && Shows(reply.value.me, id, s.users[id])
               else reply == Err(Unauthorized)
  {
  }

  /** An operator's switch moves one column. */
  lemma Switched(s: Auth, call: Call)
    requires call.request.SetActive?
    ensures var id := call.request.id;
            Serve(s, call)
            == if id !in s.users then (s, Err(NotFound))
               else (s.(users := s.users[id := Owned(s.users[id].org,
                                                     s.users[id].row.(isActive := call.request.active))]), Ok(Done))
  {
  }

  // --- revocations ------------------------------------------------------

  // Rows by position: those of a family, of a user, or of one token.

  function OfFamily(rows: seq<RefreshRow>, family: Id): set<nat> {
    set i: nat | i < |rows| && rows[i].family == family
  }

  function OfUser(rows: seq<RefreshRow>, user: Id): set<nat> { set i: nat | i < |rows| && rows[i].userId == user }

  function OfToken(rows: seq<RefreshRow>, token: RefreshJwt): set<nat> {
    set i: nat | i < |rows| && rows[i].tokenHash == Digest(token)
  }

  /** The unrevoked ones among the chosen rows get the time of the revocation, and no other old row changes. */
  predicate Stamps(rows: seq<RefreshRow>, rows': seq<RefreshRow>, chosen: set<nat>, now: Millis) {
    && |rows| <= |rows'|
    && forall i: nat :: i < |rows| ==>
                          rows'[i] == if i in chosen && rows[i].revokedAt.None?
                                      then rows[i].(revokedAt := Some(now)) else rows[i]
  }

  /** Refresh refuses a token that is not signed here or past its exp, and otherwise stamps its family or its row. */
  lemma RefreshStamps(s: Auth, call: Call)
    requires call.request.RefreshReq? && Coherent(s)
    ensures var (s', reply), token, now := Serve(s, call), call.request.token, call.env.now;
            && (reply == Err(InvalidRefreshToken) <==> token !in s.signed || token.exp <= now / 1000)
            && (reply == Err(RefreshReuse) ==>
                  && s' == s.(refreshTokens := s'.refreshTokens) && |s'.refreshTokens| == |s.refreshTokens|
                  && Stamps(s.refreshTokens, s'.refreshTokens, OfFamily(s.refreshTokens, token.family), now))
            && (reply.Ok? ==>
                  && Issues(s, call) && reply.value.user.None?
                  && s' == s.(refreshTokens := s'.refreshTokens, signed := s'.signed)
                  && Stamps(s.refreshTokens, s'.refreshTokens, OfToken(s.refreshTokens, token), now))
            && (reply.Err? && reply != Err(RefreshReuse) ==> s' == s)
  {
    var token := call.request.token;
    if token in s.signed {
      var i := SignedTokenHasRow(s, token);
      OnlyRow(s.refreshTokens, i);
    }
    hide FindRefreshByHash, Coherent, OfToken;
  }

  lemma OnlyRow(rows: seq<RefreshRow>, i: nat)
    requires i < |rows| && DistinctHashes(rows)
    ensures OfToken(rows, rows[i].tokenHash.preimage) == {i}
  {
    assert rows[i].tokenHash == Digest(rows[i].tokenHash.preimage);
  }

  /** Logout stamps the row of the token it is given and blacklists the jti it is given, for the stored lifetime. */
  lemma LoggedOut(s: Auth, call: Call)
    requires call.request.LogoutReq? && Coherent(s)
    ensures var (s', reply), r, env := Serve(s, call), call.request, call.env;
            && reply == Ok(Done) && s' == s.(refreshTokens := s'.refreshTokens, blacklist := s'.blacklist)
            && |s'.refreshTokens| == |s.refreshTokens|
            && Stamps(s.refreshTokens, s'.refreshTokens,
                      if r.refreshToken.Some? then OfToken(s.refreshTokens, r.refreshToken.value) else {}, env.now)
            && s'.blacklist
               == if r.accessJti.GetOr("") == "" then s.blacklist
                  else s.blacklist["bl:rt:" + r.accessJti.value
                                   := Redis.Entry("1", Some(env.now + env.refreshTtl * 1000))]
  {
    var token := call.request.refreshToken;
    if token.Some? {
      var found := FindRefreshByHash(s.refreshTokens, Digest(token.value));
      if found.Some? { OnlyRow(s.refreshTokens, found.value); } else { NoRow(s.refreshTokens, token.value); }
    }
    hide FindRefreshByHash, Coherent, OfToken;
  }

  lemma NoRow(rows: seq<RefreshRow>, token: RefreshJwt)
    requires DistinctHashes(rows) && FindRefreshByHash(rows, Digest(token)).None?
    ensures OfToken(rows, token) == {}
  {
    forall i: nat | i < |rows| ensures rows[i].tokenHash != Digest(token) {
      if rows[i].tokenHash == Digest(token) { FindFinds(rows, i); }
    }
  }

  // --- mails and passwords ----------------------------------------------

  /** A forgotten password gets a mail good for an hour if the address is known, and the same answer if not. */
  lemma Forgotten(s: Auth, call: Call)
    requires call.request.ForgotPasswordReq?
    ensures var found, env := call.request.found, call.env;
            Serve(s, call)
            == (if found.None? then s
                else s.(verifications := s.verifications + [VerificationRow(found.value, Digest(env.rawToken),
                                                                            PASSWORD_RESET, env.now + HOUR, None)]),
                Ok(Done))
  {
  }

  /** The mail at position `i` is what the raw token redeems now. */
  predicate Good(rows: seq<VerificationRow>, i: nat, raw: Id, kind: TokenType, now: Millis) {
    && i < |rows| && rows[i].tokenHash == Digest(raw) && rows[i].kind == kind && rows[i].usedAt.None?
    && now <= rows[i].expiresAt
  }

  lemma LookupIsGood(rows: seq<VerificationRow>, raw: Id, kind: TokenType, now: Millis)
    requires Mails.DistinctRaw(rows)
    ensures var found := FindVerification(rows, Digest(raw), kind);
            && (found.Some? && now <= rows[found.value].expiresAt ==> Good(rows, found.value, raw, kind, now))
            && forall i: nat :: Good(rows, i, raw, kind, now) ==> found == Some(i)
  {
    forall i: nat | Good(rows, i, raw, kind, now) ensures FindVerification(rows, Digest(raw), kind) == Some(i) {
      Mails.FindVerificationFinds(rows, i);
    }
  }

  /** Redeeming a mail writes one column of its user, marks the mail, and a reset ends the user's sessions. */
  lemma Redeemed(s: Auth, call: Call, i: nat)
    requires Mails.DistinctRaw(s.verifications)
    requires call.request.ResetPasswordReq? || call.request.VerifyEmailReq?
    ensures var (s', reply), r, now, rows := Serve(s, call), call.request, call.env.now, s.verifications;
            var kind := if r.ResetPasswordReq? then PASSWORD_RESET else EMAIL_VERIFY;
            && ((forall k: nat :: !Good(rows, k, r.raw, kind, now)) ==> (s', reply) == (s, Err(InvalidVerification)))
            && (Good(rows, i, r.raw, kind, now) ==>
                  if rows[i].userId !in s.users then (s', reply) == (s, Err(NotFound))
                  else
                    var id, user := rows[i].userId, s.users[rows[i].userId];
                    && reply == Ok(Done)
                    && s' == s.(users := s'.users, verifications := rows[i := rows[i].(usedAt := Some(now))],
                                refreshTokens := s'.refreshTokens)
                    && s'.users == s.users[id := Owned(user.org, if r.ResetPasswordReq?
                                                                 then user.row.(passwordHash := Digest(r.newPassword))
                                                                 else user.row.(emailVerified := true))]
                    && |s'.refreshTokens| == |s.refreshTokens|
                    && Stamps(s.refreshTokens, s'.refreshTokens,
                              if r.ResetPasswordReq? then OfUser(s.refreshTokens, id) else {}, now))
  {
    var kind := if call.request.ResetPasswordReq? then PASSWORD_RESET else EMAIL_VERIFY;
    LookupIsGood(s.verifications, call.request.raw, kind, call.env.now);
    hide FindVerification, Mails.DistinctRaw;
  }

  /** A change of password takes the current one, writes the new one and ends the user's sessions. */
  lemma PasswordChanged(s: Auth, call: Call)
    requires call.request.ChangePasswordReq?
    ensures var (s', reply), r, now := Serve(s, call), call.request, call.env.now;
            if r.id !in s.users then (s', reply) == (s, Err(Unauthorized))
            else
              var user := s.users[r.id];
              if user.row.passwordHash != Digest(r.current) then (s', reply) == (s, Err(WrongPassword))
              else
                && reply == Ok(Done) && s' == s.(users := s'.users, refreshTokens := s'.refreshTokens)
                && s'.users == s.users[r.id := Owned(user.org, user.row.(passwordHash := Digest(r.newPassword)))]
                && |s'.refreshTokens| == |s.refreshTokens|
                && Stamps(s.refreshTokens, s'.refreshTokens, OfUser(s.refreshTokens, r.id), now)
  {
  }
}
