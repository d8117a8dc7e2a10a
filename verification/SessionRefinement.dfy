// The serial token table refines the abstract session machine.
module SessionRefinement {
  import opened Wrappers
  import opened Tables
  import opened Schema
  import opened AuthSpec
  import Redis
  import SM = SessionMachine

  /** A row stores exactly what its own signed token claims. */
  predicate RowMatchesToken(s: Auth, row: RefreshRow) {
    var token := row.tokenHash.preimage;
    token in s.signed && token.sub == row.userId && token.family == row.family
  }

  ghost predicate Stored(rows: seq<RefreshRow>, token: RefreshJwt) {
    exists i :: 0 <= i < |rows| && rows[i].tokenHash == Digest(token)
  }

  predicate OneUserPerFamily(rows: seq<RefreshRow>) {
    forall i, j :: 0 <= i < j < |rows| && rows[i].family == rows[j].family ==> rows[i].userId == rows[j].userId
  }

  predicate OneLivePerFamily(rows: seq<RefreshRow>) {
    forall i, j :: 0 <= i < j < |rows| && rows[i].family == rows[j].family ==> !(Live(rows[i]) && Live(rows[j]))
  }

  predicate DistinctHashes(rows: seq<RefreshRow>) {
    forall i, j :: 0 <= i < j < |rows| ==> rows[i].tokenHash != rows[j].tokenHash
  }

  /** The serial invariant. */
  ghost predicate Coherent(s: Auth) {
    && (forall i :: 0 <= i < |s.refreshTokens| ==> RowMatchesToken(s, s.refreshTokens[i]))
    && (forall i :: 0 <= i < |s.refreshTokens| ==> s.refreshTokens[i].userId in s.users)
    && (forall t :: t in s.signed ==> Stored(s.refreshTokens, t))
    && (forall i :: 0 <= i < |s.verifications| ==> s.verifications[i].userId in s.users)
    && DistinctHashes(s.refreshTokens)
    && OneUserPerFamily(s.refreshTokens)
    && OneLivePerFamily(s.refreshTokens)
  }

  // --- the abstraction function -----------------------------------------

  function GrantOf(row: RefreshRow): SM.Grant { SM.Grant(row.tokenHash.preimage, row.expiresAt) }

  function Sessions(rows: seq<RefreshRow>): SM.Sessions {
    if rows == [] then map[]
    else
      var row := rows[|rows| - 1];
      var before := Sessions(rows[..|rows| - 1]);
      var inherited := if row.family in before then before[row.family].current else None;
      before[row.family := SM.Session(row.userId, if Live(row) then Some(GrantOf(row)) else inherited)]
  }

  function Abstract(s: Auth): SM.Machine {
    SM.Machine(s.users, Sessions(s.refreshTokens), s.verifications, s.signed, s.blacklist)
  }

  /** The family has a row, and none of its rows is live. */
  predicate Ended(s: Auth, family: Id) {
    && (exists i :: 0 <= i < |s.refreshTokens| && s.refreshTokens[i].family == family)
    && forall i :: 0 <= i < |s.refreshTokens| && s.refreshTokens[i].family == family ==> !Live(s.refreshTokens[i])
  }

  // What Sessions means, row by row.

  lemma {:induction false} SessionOwner(rows: seq<RefreshRow>, i: nat)
    requires i < |rows| && OneUserPerFamily(rows)
    ensures rows[i].family in Sessions(rows)
    ensures Sessions(rows)[rows[i].family].user == rows[i].userId
  {
    if i < |rows| - 1 { SessionOwner(rows[..|rows| - 1], i); }
  }

  lemma {:induction false} SessionCurrent(rows: seq<RefreshRow>, i: nat)
    requires i < |rows| && OneLivePerFamily(rows) && Live(rows[i])
    ensures rows[i].family in Sessions(rows)
    ensures Sessions(rows)[rows[i].family].current == Some(GrantOf(rows[i]))
  {
    if i < |rows| - 1 { SessionCurrent(rows[..|rows| - 1], i); }
  }

  lemma {:induction false} SessionWitness(rows: seq<RefreshRow>, family: Id) returns (i: nat)
    requires family in Sessions(rows)
    ensures i < |rows| && rows[i].family == family
    ensures Sessions(rows)[family].current.Some? ==>
              Live(rows[i]) && GrantOf(rows[i]) == Sessions(rows)[family].current.value
  {
    var n := |rows| - 1;
    if rows[n].family == family && (Live(rows[n]) || family !in Sessions(rows[..n])) {
      i := n;
    } else {
      i := SessionWitness(rows[..n], family);
    }
  }

  lemma EndedIsNoCurrent(s: Auth, family: Id)
    requires Coherent(s)
    ensures Ended(s, family) <==>
            family in Sessions(s.refreshTokens) && Sessions(s.refreshTokens)[family].current.None?
  {
    var rows := s.refreshTokens;
    if Ended(s, family) {
      var i :| 0 <= i < |rows| && rows[i].family == family;
      SessionOwner(rows, i);
      var k := SessionWitness(rows, family);
    }
    if family in Sessions(rows) && Sessions(rows)[family].current.None? {
      var k := SessionWitness(rows, family);
      forall i | 0 <= i < |rows| && rows[i].family == family ensures !Live(rows[i]) {
        if Live(rows[i]) { SessionCurrent(rows, i); }
      }
    }
  }

  // How the three revocations and an insertion act on the sessions.

  lemma {:induction false} RevokeFamilyEnds(rows: seq<RefreshRow>, family: Id, now: Millis)
    ensures Sessions(RevokeFamily(rows, family, now)) == SM.End(Sessions(rows), family)
  {
    if rows != [] {
      var n := |rows| - 1;
      RevokeFamilyEnds(rows[..n], family, now);
      assert RevokeFamily(rows, family, now)[..n] == RevokeFamily(rows[..n], family, now);
    }
  }

  lemma {:induction false} RevokeAllEnds(rows: seq<RefreshRow>, user: Id, now: Millis)
    requires OneUserPerFamily(rows)
    ensures Sessions(RevokeAllForUser(rows, user, now)) == SM.EndAllOf(Sessions(rows), user)
  {
    if rows != [] {
      var n := |rows| - 1;
      RevokeAllEnds(rows[..n], user, now);
      assert RevokeAllForUser(rows, user, now)[..n] == RevokeAllForUser(rows[..n], user, now);
      OwnerAgrees(rows);
      EndAllOfUpdate(Sessions(rows[..n]), user, rows[n].family, Sessions(rows)[rows[n].family]);
    }
  }

  lemma OwnerAgrees(rows: seq<RefreshRow>)
    requires rows != [] && OneUserPerFamily(rows)
    ensures var n := |rows| - 1;
            rows[n].family in Sessions(rows[..n]) ==> Sessions(rows[..n])[rows[n].family].user == rows[n].userId
  {
    var n := |rows| - 1;
    if rows[n].family in Sessions(rows[..n]) {
      var k := SessionWitness(rows[..n], rows[n].family);
      SessionOwner(rows[..n], k);
    }
  }

  lemma EndAllOfUpdate(m: SM.Sessions, user: Id, family: Id, session: SM.Session)
    ensures SM.EndAllOf(m[family := session], user)
            == SM.EndAllOf(m, user)[family := if session.user == user then session.(current := None) else session]
  {
  }

  lemma {:induction false} RevokeOneEnds(rows: seq<RefreshRow>, i: nat, now: Millis)
    requires i < |rows| && Live(rows[i]) && OneLivePerFamily(rows)
    ensures Sessions(RevokeRefreshToken(rows, i, now)) == SM.End(Sessions(rows), rows[i].family)
  {
    var n := |rows| - 1;
    var after := RevokeRefreshToken(rows, i, now);
    if i < n {
      RevokeOneEnds(rows[..n], i, now);
      assert after[..n] == RevokeRefreshToken(rows[..n], i, now);
      SessionCurrent(rows[..n], i);
    } else {
      assert after[..n] == rows[..n];
      if rows[n].family in Sessions(rows[..n]) {
        var k := SessionWitness(rows[..n], rows[n].family);
      }
    }
  }

  /** A revocation leaves everything of a row but its revokedAt, which it can only fill in. */
  predicate OnlyRevokes(rows: seq<RefreshRow>, rows': seq<RefreshRow>) {
    && |rows'| == |rows|
    && (forall i :: 0 <= i < |rows| ==> rows'[i] == rows[i].(revokedAt := rows'[i].revokedAt))
    && (forall i :: 0 <= i < |rows| && Live(rows'[i]) ==> Live(rows[i]))
  }

  lemma RevocationKeepsCoherence(s: Auth, rows': seq<RefreshRow>)
    requires Coherent(s) && OnlyRevokes(s.refreshTokens, rows')
    ensures Coherent(s.(refreshTokens := rows'))
  {
    forall t | t in s.signed ensures Stored(rows', t) {
      var i :| 0 <= i < |s.refreshTokens| && s.refreshTokens[i].tokenHash == Digest(t);
      assert rows'[i].tokenHash == Digest(t);
    }
  }

  lemma IssueKeepsCoherence(s: Auth, user: Id, family: Id, env: Env)
    requires Coherent(s) && user in s.users && FreshJti(s, env.refreshJti)
    requires forall i :: 0 <= i < |s.refreshTokens| && s.refreshTokens[i].family == family ==>
                           s.refreshTokens[i].userId == user && !Live(s.refreshTokens[i])
    ensures Coherent(IssueAndPersist(s, user, family, env).0)
  {
    var rows := s.refreshTokens;
    var s' := IssueAndPersist(s, user, family, env).0;
    var row := s'.refreshTokens[|rows|];
    forall t | t in s'.signed ensures Stored(s'.refreshTokens, t) {
      if t in s.signed {
        var i :| 0 <= i < |rows| && rows[i].tokenHash == Digest(t);
        assert s'.refreshTokens[i] == rows[i];
      } else {
        assert s'.refreshTokens[|rows|] == row;
      }
    }
    forall i | 0 <= i < |rows| ensures RowMatchesToken(s', rows[i]) && rows[i].tokenHash != row.tokenHash {
      assert RowMatchesToken(s, rows[i]);
    }
  }

  /** Issuing a token: coherent again, and the new token is its session's current one. */
  lemma IssueAdvances(s: Auth, user: Id, family: Id, env: Env)
    requires Coherent(s) && user in s.users && FreshJti(s, env.refreshJti)
    requires family in Sessions(s.refreshTokens) ==>
               Ended(s, family) && Sessions(s.refreshTokens)[family].user == user
    ensures Coherent(IssueAndPersist(s, user, family, env).0)
    ensures Abstract(IssueAndPersist(s, user, family, env).0) == SM.Advance(Abstract(s), user, family, env).0
    ensures IssueAndPersist(s, user, family, env).1 == SM.Advance(Abstract(s), user, family, env).1
  {
    var rows := s.refreshTokens;
    forall i | 0 <= i < |rows| && rows[i].family == family ensures rows[i].userId == user && !Live(rows[i]) {
      SessionOwner(rows, i);
    }
    IssueKeepsCoherence(s, user, family, env);
    assert IssueAndPersist(s, user, family, env).0.refreshTokens[..|rows|] == rows;
  }

  /** Only the token table, the signatures and who exists matter to coherence. */
  lemma CoherenceOfTokens(s: Auth, s': Auth)
    requires Coherent(s) && s'.refreshTokens == s.refreshTokens && s'.signed == s.signed
    requires s.users.Keys <= s'.users.Keys
    requires forall i :: 0 <= i < |s'.verifications| ==> s'.verifications[i].userId in s'.users
    ensures Coherent(s')
  {
    forall i | 0 <= i < |s.refreshTokens| ensures RowMatchesToken(s', s.refreshTokens[i]) {
      assert RowMatchesToken(s, s.refreshTokens[i]);
    }
  }

  // --- the refinement ---------------------------------------------------

  /** The serial table answers every request as the machine does and simulates its step. */
  predicate Simulates(s: Auth, call: Call) {
    && Abstract(Serve(s, call).0) == SM.Serve(Abstract(s), call).0
    && Serve(s, call).1 == SM.Serve(Abstract(s), call).1
  }

  lemma {:induction false} FindFinds(rows: seq<RefreshRow>, i: nat)
    requires i < |rows| && DistinctHashes(rows)
    ensures FindRefreshByHash(rows, rows[i].tokenHash) == Some(i)
  {
    if i < |rows| - 1 {
      FindFinds(rows[..|rows| - 1], i);
    } else {
      assert FindRefreshByHash(rows[..i], rows[i].tokenHash).None?;
    }
  }

  /** The lookup by hash finds the row of a signed token, whose columns the token claims. */
  lemma SignedTokenHasRow(s: Auth, token: RefreshJwt) returns (i: nat)
    requires Coherent(s) && token in s.signed
    ensures FindRefreshByHash(s.refreshTokens, Digest(token)) == Some(i)
    ensures i < |s.refreshTokens| && RowMatchesToken(s, s.refreshTokens[i])
    ensures s.refreshTokens[i].tokenHash.preimage == token
    ensures Live(s.refreshTokens[i]) <==> SM.IsCurrent(Sessions(s.refreshTokens), token)
    ensures Live(s.refreshTokens[i]) ==>
              Sessions(s.refreshTokens)[token.family].current.value.until == s.refreshTokens[i].expiresAt
  {
    assert Stored(s.refreshTokens, token);
    i :| 0 <= i < |s.refreshTokens| && s.refreshTokens[i].tokenHash == Digest(token);
    FindFinds(s.refreshTokens, i);
    if Live(s.refreshTokens[i]) {
      SessionCurrent(s.refreshTokens, i);
    } else if SM.IsCurrent(Sessions(s.refreshTokens), token) {
      var k := SessionWitness(s.refreshTokens, token.family);
      assert false;
    }
  }

  /** Revoking the current token leaves its session ended and everything else as it was. */
  lemma RevokeCurrent(s: Auth, i: nat, now: Millis) returns (s1: Auth)
    requires Coherent(s) && i < |s.refreshTokens| && Live(s.refreshTokens[i])
    ensures s1 == s.(refreshTokens := RevokeRefreshToken(s.refreshTokens, i, now))
    ensures Coherent(s1)
    ensures Sessions(s1.refreshTokens) == SM.End(Sessions(s.refreshTokens), s.refreshTokens[i].family)
    ensures s.refreshTokens[i].family in Sessions(s.refreshTokens)
    ensures Sessions(s.refreshTokens)[s.refreshTokens[i].family].user == s.refreshTokens[i].userId
    ensures Ended(s1, s.refreshTokens[i].family)
  {
    s1 := s.(refreshTokens := RevokeRefreshToken(s.refreshTokens, i, now));
    RevokeOneEnds(s.refreshTokens, i, now);
    RevocationKeepsCoherence(s, s1.refreshTokens);
    SessionOwner(s.refreshTokens, i);
    EndedIsNoCurrent(s1, s.refreshTokens[i].family);
  }

  lemma EndedRestarts(m: SM.Machine, user: Id, family: Id, env: Env)
    requires user in m.users
    ensures SM.Advance(m.(sessions := SM.End(m.sessions, family)), user, family, env)
            == SM.Advance(m, user, family, env)
  {
    var session := SM.Session(user, Some(SM.SignedGrant(user, family, env)));
    assert SM.End(m.sessions, family)[family := session] == m.sessions[family := session];
  }

  /** The refresh as the machine sees it. */
  predicate RefreshSimulated(s: Auth, token: RefreshJwt, env: Env) {
    && Abstract(Refresh(s, token, env).0) == SM.RefreshSession(Abstract(s), token, env).0
    && Refresh(s, token, env).1 == SM.RefreshSession(Abstract(s), token, env).1
  }

  lemma ReuseSimulates(s: Auth, token: RefreshJwt, env: Env)
    requires Coherent(s) && Verifies(s, token, env.now) && !SM.IsCurrent(Sessions(s.refreshTokens), token)
    ensures Coherent(Refresh(s, token, env).0)
    ensures RefreshSimulated(s, token, env)
  {
    var i := SignedTokenHasRow(s, token);
    hide FindRefreshByHash, Sessions;
    RevokeFamilyEnds(s.refreshTokens, token.family, env.now);
    RevocationKeepsCoherence(s, RevokeFamily(s.refreshTokens, token.family, env.now));
    hide Coherent;
  }

  lemma RotationSimulates(s: Auth, token: RefreshJwt, env: Env)
    requires Coherent(s) && FreshJti(s, env.refreshJti)
    requires Verifies(s, token, env.now) && SM.IsCurrent(Sessions(s.refreshTokens), token)
    requires !SM.HasLapsed(Sessions(s.refreshTokens), token, env.now)
    requires token.sub in s.users && s.users[token.sub].row.isActive
    ensures Coherent(Refresh(s, token, env).0)
    ensures RefreshSimulated(s, token, env)
  {
    hide Coherent, Sessions, FindRefreshByHash;
    var i := SignedTokenHasRow(s, token);
    var s1 := RevokeCurrent(s, i, env.now);
    EndedRestarts(Abstract(s), token.sub, token.family, env);
    IssueAdvances(s1, token.sub, token.family, env);
  }

  /**
   * Rotation happens exactly when the token is its session's current one, unexpired there and in its own
   * claim, and its user active; an unexpired signed token that is not current ends the session; nothing else
   * changes anything.
   */
  lemma RefreshSimulates(s: Auth, token: RefreshJwt, env: Env)
    requires Coherent(s) && FreshJti(s, env.refreshJti)
    ensures Coherent(Refresh(s, token, env).0)
    ensures RefreshSimulated(s, token, env)
  {
    if Verifies(s, token, env.now) {
      var i := SignedTokenHasRow(s, token);
      if !Live(s.refreshTokens[i]) {
        ReuseSimulates(s, token, env);
      } else if !SM.HasLapsed(Sessions(s.refreshTokens), token, env.now)
                && token.sub in s.users && s.users[token.sub].row.isActive {
        RotationSimulates(s, token, env);
      }
    }
  }

  /** Logout does not check signatures, but only a signed token can find a row. */
  lemma LookupFindsCurrent(s: Auth, token: RefreshJwt)
    requires Coherent(s)
    ensures var found := FindRefreshByHash(s.refreshTokens, Digest(token));
            && (found.Some? ==> s.refreshTokens[found.value].family == token.family)
            && (SM.IsCurrent(Sessions(s.refreshTokens), token)
                <==> found.Some? && Live(s.refreshTokens[found.value]))
  {
    var found := FindRefreshByHash(s.refreshTokens, Digest(token));
    if found.Some? {
      assert RowMatchesToken(s, s.refreshTokens[found.value]);
      var i := SignedTokenHasRow(s, token);
    } else if SM.IsCurrent(Sessions(s.refreshTokens), token) {
      var k := SessionWitness(s.refreshTokens, token.family);
      FindFinds(s.refreshTokens, k);
      assert false;
    }
  }

  lemma LogoutSimulates(s: Auth, token: Option<RefreshJwt>, jti: Option<string>, env: Env)
    requires Coherent(s)
    ensures Coherent(Logout(s, token, jti, env))
    ensures Abstract(Logout(s, token, jti, env)) == SM.LogoutSession(Abstract(s), token, jti, env)
  {
    hide Coherent, Sessions, FindRefreshByHash;
    var s1 := Logout(s, token, None, env);
    if token.Some? {
      LookupFindsCurrent(s, token.value);
      var found := FindRefreshByHash(s.refreshTokens, Digest(token.value));
      if found.Some? && Live(s.refreshTokens[found.value]) {
        s1 := RevokeCurrent(s, found.value, env.now);
      }
    }
    BlacklistKeepsCoherence(s1, Logout(s, token, jti, env).blacklist);
  }

  lemma BlacklistKeepsCoherence(s: Auth, blacklist: Redis.Store<string>)
    requires Coherent(s)
    ensures Coherent(s.(blacklist := blacklist))
  {
    CoherenceOfTokens(s, s.(blacklist := blacklist));
  }

  lemma FamilyIsNew(s: Auth, family: Id)
    requires FreshFamily(s, family)
    ensures family !in Sessions(s.refreshTokens)
  {
    if family in Sessions(s.refreshTokens) {
      var i := SessionWitness(s.refreshTokens, family);
      assert false;
    }
  }

  lemma NewOwnerIsCoherent(s: Auth, org: OrgId, id: Id, owner: User, mail: VerificationRow) returns (s1: Auth)
    requires Coherent(s) && mail.userId == id
    ensures s1 == s.(users := Insert(s.users, org, id, owner), verifications := s.verifications + [mail])
    ensures Coherent(s1) && id in s1.users
  {
    s1 := s.(users := Insert(s.users, org, id, owner), verifications := s.verifications + [mail]);
    CoherenceOfTokens(s, s1);
  }

  lemma RegisterSimulates(s: Auth, id: Id, org: OrgId, email: string, password: string, first: Option<string>,
                          last: Option<string>, env: Env)
    requires Coherent(s) && FreshJti(s, env.refreshJti) && FreshFamily(s, env.family)
    ensures Coherent(Register(s, id, org, email, password, first, last, env).0)
    ensures Simulates(s, Call(RegisterReq(id, org, email, password, first, last), env))
  {
    hide Coherent, Sessions, NewOwner, EmailVerification;
    FamilyIsNew(s, env.family);
    assert EmailVerification(id, env).userId == id by { MailNames(id, env); }
    var s1 := NewOwnerIsCoherent(s, org, id, NewOwner(email, password, first, last), EmailVerification(id, env));
    IssueAdvances(s1, id, env.family, env);
  }

  lemma MailNames(id: Id, env: Env)
    ensures EmailVerification(id, env).userId == id
  {
  }

  lemma LoginSimulates(s: Auth, call: Call)
    requires Coherent(s) && Fresh(s, call) && call.request.LoginReq?
    ensures Coherent(Serve(s, call).0) && Simulates(s, call)
  {
    var env, found := call.env, call.request.found;
    if Serve(s, call).1.Ok? {
      FamilyIsNew(s, env.family);
      var s1 := WithUser(s, found.value, s.users[found.value].row.(lastLoginAt := Some(env.now)));
      CoherenceOfTokens(s, s1);
      hide Coherent, Sessions;
      IssueAdvances(s1, found.value, env.family, env);
    }
  }

  /** Logging a user out everywhere, whatever becomes of the user and verification columns. */
  lemma RevokeAllSimulates(s: Auth, user: Id, now: Millis, s': Auth)
    requires Coherent(s) && s' == s.(users := s'.users, verifications := s'.verifications,
                                     refreshTokens := RevokeAllForUser(s.refreshTokens, user, now))
    requires s.users.Keys <= s'.users.Keys
    requires forall i :: 0 <= i < |s'.verifications| ==> s'.verifications[i].userId in s'.users
    ensures Coherent(s')
    ensures Sessions(s'.refreshTokens) == SM.EndAllOf(Sessions(s.refreshTokens), user)
  {
    RevokeAllEnds(s.refreshTokens, user, now);
    RevocationKeepsCoherence(s, s'.refreshTokens);
    CoherenceOfTokens(s.(refreshTokens := s'.refreshTokens), s');
  }

  lemma ResetSimulates(s: Auth, raw: Id, newPassword: string, env: Env)
    requires Coherent(s)
    ensures Coherent(ResetPassword(s, raw, newPassword, env).0)
    ensures Simulates(s, Call(ResetPasswordReq(raw, newPassword), env))
  {
    var s' := ResetPassword(s, raw, newPassword, env).0;
    if ResetPassword(s, raw, newPassword, env).1.Ok? {
      var i := FindVerification(s.verifications, Digest(raw), PASSWORD_RESET).value;
      RevokeAllSimulates(s, s.verifications[i].userId, env.now, s');
    }
  }

  lemma ChangeSimulates(s: Auth, id: Id, current: string, newPassword: string, env: Env)
    requires Coherent(s)
    ensures Coherent(ChangePassword(s, id, current, newPassword, env).0)
    ensures Simulates(s, Call(ChangePasswordReq(id, current, newPassword), env))
  {
    var s' := ChangePassword(s, id, current, newPassword, env).0;
    if ChangePassword(s, id, current, newPassword, env).1.Ok? {
      RevokeAllSimulates(s, id, env.now, s');
    }
  }

  lemma StepRefines(s: Auth, call: Call)
    requires Coherent(s) && Fresh(s, call)
    ensures Coherent(Serve(s, call).0)
    ensures Simulates(s, call)
  {
    match call.request
    case RegisterReq(id, org, email, password, first, last) =>
      RegisterSimulates(s, id, org, email, password, first, last, call.env);
    case LoginReq(_, _) => LoginSimulates(s, call);
    case RefreshReq(token) => RefreshSimulates(s, token, call.env);
    case LogoutReq(token, jti) => LogoutSimulates(s, token, jti, call.env);
    case ForgotPasswordReq(_) => CoherenceOfTokens(s, Serve(s, call).0);
    case ResetPasswordReq(raw, newPassword) => ResetSimulates(s, raw, newPassword, call.env);
    case VerifyEmailReq(_) => CoherenceOfTokens(s, Serve(s, call).0);
    case ChangePasswordReq(id, current, newPassword) => ChangeSimulates(s, id, current, newPassword, call.env);
    case MeReq(_) =>
    case SetActive(_, _) => CoherenceOfTokens(s, Serve(s, call).0);
  }

  /** Main result: every serial run is, reply by reply, a run of the session machine. */
  lemma {:induction false} RunRefines(s: Auth, calls: seq<Call>)
    requires Coherent(s) && FreshRun(s, calls)
    ensures Coherent(Run(s, calls).0)
    ensures Abstract(Run(s, calls).0) == SM.Run(Abstract(s), calls).0
    ensures Run(s, calls).1 == SM.Run(Abstract(s), calls).1
    decreases |calls|
  {
    if calls != [] {
      StepRefines(s, calls[0]);
      RunRefines(Serve(s, calls[0]).0, calls[1..]);
    }
  }
}
