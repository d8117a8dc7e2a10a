// What replies of the auth service reveal about passwords: only whether a check passed.
module Secrets {
  import opened Wrappers
  import opened Tables
  import opened Schema
  import opened AuthSpec

  /** What leaves of a user is every column but the hash. */
  lemma SanitizeDropsOnlyTheHash(id: Id, user: Owned<User>, hash: Digest<string>)
    ensures Sanitize(id, Owned(user.org, user.row.(passwordHash := hash))) == Sanitize(id, user)
    ensures var s := Sanitize(id, user);
            user == Owned(s.org, User(s.email, user.row.passwordHash, s.firstName, s.lastName, s.avatarUrl, s.role,
                                      s.isActive, s.emailVerified, s.lastLoginAt))
  {
  }

  // --- two runs ---------------------------------------------------------

  predicate SameButHash(u: Owned<User>, u': Owned<User>) {
    u' == Owned(u.org, u.row.(passwordHash := u'.row.passwordHash))
  }

  /** The same state up to the password hashes in force. */
  predicate Alike(s: Auth, s': Auth) {
    && s' == s.(users := s'.users) && s'.users.Keys == s.users.Keys
    && forall id :: id in s.users ==> SameButHash(s.users[id], s'.users[id])
  }

  /** The same request up to the passwords typed. */
  predicate SameButPasswords(r: Request, r': Request) {
    match r
    case RegisterReq(id, org, email, _, first, last) =>
      r'.RegisterReq? && r' == RegisterReq(id, org, email, r'.password, first, last)
    case LoginReq(found, _) => r'.LoginReq? && r' == LoginReq(found, r'.password)
    case ResetPasswordReq(raw, _) => r'.ResetPasswordReq? && r' == ResetPasswordReq(raw, r'.newPassword)
    case ChangePasswordReq(id, _, _) => r'.ChangePasswordReq? && r' == ChangePasswordReq(id, r'.current, r'.newPassword)
    case _ => r' == r
  }

  /** The request types the password that is in force, where it has to type one. */
  predicate CheckPasses(s: Auth, r: Request) {
    match r
    case LoginReq(found, password) =>
      found.Some? && found.value in s.users && s.users[found.value].row.passwordHash == Digest(password)
    case ChangePasswordReq(id, current, _) => id in s.users && s.users[id].row.passwordHash == Digest(current)
    case _ => true
  }

  predicate AgreeingCalls(s: Auth, c: Call, s': Auth, c': Call) {
    && c'.env == c.env && SameButPasswords(c.request, c'.request)
    && (CheckPasses(s, c.request) <==> CheckPasses(s', c'.request))
  }

  lemma IssuesAlike(s: Auth, s': Auth, id: Id, family: Id, env: Env)
    requires Alike(s, s') && id in s.users
    ensures IssueAndPersist(s, id, family, env).1 == IssueAndPersist(s', id, family, env).1
    ensures Alike(IssueAndPersist(s, id, family, env).0, IssueAndPersist(s', id, family, env).0)
  {
    assert SameButHash(s.users[id], s'.users[id]);
  }

  lemma PutAlike(s: Auth, s': Auth, id: Id, user: User, user': User)
    requires Alike(s, s') && id in s.users && user' == user.(passwordHash := user'.passwordHash)
    ensures Alike(WithUser(s, id, user), WithUser(s', id, user'))
  {
  }

  lemma RegisterAlike(s: Auth, c: Call, s': Auth, c': Call)
    requires Alike(s, s') && c.request.RegisterReq? && AgreeingCalls(s, c, s', c')
    ensures Serve(s, c).1 == Serve(s', c').1 && Alike(Serve(s, c).0, Serve(s', c').0)
  {
    var r, env := c.request, c.env;
    var mails := s.verifications + [EmailVerification(r.id, env)];
    var s1 := s.(users := Insert(s.users, r.org, r.id, NewOwner(r.email, r.password, r.first, r.last)),
                 verifications := mails);
    var s1' := s'.(users := Insert(s'.users, r.org, r.id, NewOwner(r.email, c'.request.password, r.first, r.last)),
                   verifications := mails);
    assert Alike(s1, s1');
    IssuesAlike(s1, s1', r.id, env.family, env);
    SanitizeDropsOnlyTheHash(r.id, s1.users[r.id], s1'.users[r.id].row.passwordHash);
    hide IssueAndPersist, Sanitize;
  }

  lemma LoginAlike(s: Auth, c: Call, s': Auth, c': Call)
    requires Alike(s, s') && c.request.LoginReq? && AgreeingCalls(s, c, s', c')
    ensures Serve(s, c).1 == Serve(s', c').1 && Alike(Serve(s, c).0, Serve(s', c').0)
  {
    var found, env := c.request.found, c.env;
    if found.Some? && found.value in s.users {
      var id := found.value;
      var u, u' := s.users[id], s'.users[id];
      assert SameButHash(u, u');
      var row, row' := u.row.(lastLoginAt := Some(env.now)), u'.row.(lastLoginAt := Some(env.now));
      PutAlike(s, s', id, row, row');
      IssuesAlike(WithUser(s, id, row), WithUser(s', id, row'), id, env.family, env);
      SanitizeDropsOnlyTheHash(id, u, u'.row.passwordHash);
      hide IssueAndPersist, Sanitize, WithUser;
    }
  }

  lemma RefreshAlike(s: Auth, c: Call, s': Auth, c': Call)
    requires Alike(s, s') && c.request.RefreshReq? && AgreeingCalls(s, c, s', c')
    ensures Serve(s, c).1 == Serve(s', c').1 && Alike(Serve(s, c).0, Serve(s', c').0)
  {
    hide FindRefreshByHash, RevokeFamily;
    var token, env := c.request.token, c.env;
    if token.sub in s.users {
      assert SameButHash(s.users[token.sub], s'.users[token.sub]);
      var found := FindRefreshByHash(s.refreshTokens, Digest(token));
      if found.Some? {
        var rows := RevokeRefreshToken(s.refreshTokens, found.value, env.now);
        IssuesAlike(s.(refreshTokens := rows), s'.(refreshTokens := rows), token.sub,
                    s.refreshTokens[found.value].family, env);
      }
    }
    hide IssueAndPersist;
  }

  lemma PasswordWritesAlike(s: Auth, c: Call, s': Auth, c': Call)
    requires Alike(s, s') && AgreeingCalls(s, c, s', c')
    requires c.request.ResetPasswordReq? || c.request.ChangePasswordReq?
    ensures Serve(s, c).1 == Serve(s', c').1 && Alike(Serve(s, c).0, Serve(s', c').0)
  {
    hide FindVerification, RevokeAllForUser;
    var r := c.request;
    if r.ChangePasswordReq? {
      if r.id in s.users { assert SameButHash(s.users[r.id], s'.users[r.id]); }
    } else {
      var found := FindVerification(s.verifications, Digest(r.raw), PASSWORD_RESET);
      if found.Some? && s.verifications[found.value].userId in s.users {
        var id := s.verifications[found.value].userId;
        assert SameButHash(s.users[id], s'.users[id]);
      }
    }
  }

  lemma LogoutAlike(s: Auth, c: Call, s': Auth, c': Call)
    requires Alike(s, s') && AgreeingCalls(s, c, s', c') && (c.request.LogoutReq? || c.request.ForgotPasswordReq?)
    ensures Serve(s, c).1 == Serve(s', c').1 && Alike(Serve(s, c).0, Serve(s', c').0)
  {
    hide FindRefreshByHash, BlacklistAccess, RevokeRefreshToken, SameButHash;
  }

  lemma VerifyAlike(s: Auth, c: Call, s': Auth, c': Call)
    requires Alike(s, s') && AgreeingCalls(s, c, s', c') && c.request.VerifyEmailReq?
    ensures Serve(s, c).1 == Serve(s', c').1 && Alike(Serve(s, c).0, Serve(s', c').0)
  {
    hide FindVerification;
    var found := FindVerification(s.verifications, Digest(c.request.raw), EMAIL_VERIFY);
    if found.Some? && s.verifications[found.value].userId in s.users {
      var id := s.verifications[found.value].userId;
      assert SameButHash(s.users[id], s'.users[id]);
    }
  }

  lemma RecordsAlike(s: Auth, c: Call, s': Auth, c': Call)
    requires Alike(s, s') && AgreeingCalls(s, c, s', c') && (c.request.MeReq? || c.request.SetActive?)
    ensures Serve(s, c).1 == Serve(s', c').1 && Alike(Serve(s, c).0, Serve(s', c').0)
  {
    var r := c.request;
    if r.id in s.users {
      SanitizeDropsOnlyTheHash(r.id, s.users[r.id], s'.users[r.id].row.passwordHash);
      assert SameButHash(s.users[r.id], s'.users[r.id]);
    }
  }

  lemma StepAlike(s: Auth, c: Call, s': Auth, c': Call)
    requires Alike(s, s') && AgreeingCalls(s, c, s', c')
    ensures Serve(s, c).1 == Serve(s', c').1 && Alike(Serve(s, c).0, Serve(s', c').0)
  {
    hide Serve, Alike, AgreeingCalls;
    var r := c.request;
    if r.RegisterReq? { RegisterAlike(s, c, s', c'); }
    else if r.LoginReq? { LoginAlike(s, c, s', c'); }
    else if r.RefreshReq? { RefreshAlike(s, c, s', c'); }
    else if r.ResetPasswordReq? || r.ChangePasswordReq? { PasswordWritesAlike(s, c, s', c'); }
    else if r.LogoutReq? || r.ForgotPasswordReq? { LogoutAlike(s, c, s', c'); }
    else if r.VerifyEmailReq? { VerifyAlike(s, c, s', c'); }
    else { RecordsAlike(s, c, s', c'); }
  }

  /** Call by call the same requests, whose password checks come out the same. */
  predicate AgreeingRuns(s: Auth, calls: seq<Call>, s': Auth, calls': seq<Call>)
    decreases |calls|
  {
    && |calls'| == |calls|
    && (calls == []
        || (&& AgreeingCalls(s, calls[0], s', calls'[0])
            && AgreeingRuns(Serve(s, calls[0]).0, calls[1..], Serve(s', calls'[0]).0, calls'[1..])))
  }

  /**
   * Two runs with different passwords in force and typed, in which every password check comes out
   * the same, get the same replies throughout, user records included.
   */
  lemma {:induction false} RepliesRevealOnlyChecks(s: Auth, calls: seq<Call>, s': Auth, calls': seq<Call>)
    requires Alike(s, s') && AgreeingRuns(s, calls, s', calls')
    ensures Run(s, calls).1 == Run(s', calls').1 && Alike(Run(s, calls).0, Run(s', calls').0)
    decreases |calls|
  {
    hide Serve, Alike, AgreeingCalls;
    if calls != [] {
      StepAlike(s, calls[0], s', calls'[0]);
      RepliesRevealOnlyChecks(Serve(s, calls[0]).0, calls[1..], Serve(s', calls'[0]).0, calls'[1..]);
    }
  }

  // --- other passwords --------------------------------------------------

  type Renaming = string -> string

  ghost predicate Injective(f: Renaming) { forall a, b :: f(a) == f(b) ==> a == b }

  /** The state in which everyone has chosen another password. */
  function Renamed(s: Auth, f: Renaming): Auth {
    s.(users := map id | id in s.users ::
         Owned(s.users[id].org, s.users[id].row.(passwordHash := Digest(f(s.users[id].row.passwordHash.preimage)))))
  }

  /** The call typing those passwords. */
  function RenamedCall(c: Call, f: Renaming): Call {
    c.(request :=
         match c.request
         case RegisterReq(id, org, email, password, first, last) =>
           RegisterReq(id, org, email, f(password), first, last)
         case LoginReq(found, password) => LoginReq(found, f(password))
         case ResetPasswordReq(raw, newPassword) => ResetPasswordReq(raw, f(newPassword))
         case ChangePasswordReq(id, current, newPassword) => ChangePasswordReq(id, f(current), f(newPassword))
         case r => r)
  }

  function RenamedCalls(calls: seq<Call>, f: Renaming): seq<Call> {
    seq(|calls|, i requires 0 <= i < |calls| => RenamedCall(calls[i], f))
  }

  lemma RenamingAgrees(s: Auth, c: Call, f: Renaming)
    requires Injective(f)
    ensures Alike(s, Renamed(s, f)) && AgreeingCalls(s, c, Renamed(s, f), RenamedCall(c, f))
  {
  }

  lemma UsersRenamed(s: Auth, s': Auth, f: Renaming)
    requires Alike(s, s') && HashesFollow(s, s', f)
    ensures s' == Renamed(s, f)
  {
    assert s'.users == Renamed(s, f).users;
  }

  lemma ServeRenamed(s: Auth, c: Call, f: Renaming)
    requires Injective(f)
    ensures Serve(Renamed(s, f), RenamedCall(c, f)) == (Renamed(Serve(s, c).0, f), Serve(s, c).1)
  {
    RenamingAgrees(s, c, f);
    StepAlike(s, c, Renamed(s, f), RenamedCall(c, f));
    HashesRenamed(s, c, f);
    hide Serve, Alike, AgreeingCalls, Renamed, HashesFollow;
    UsersRenamed(Serve(s, c).0, Serve(Renamed(s, f), RenamedCall(c, f)).0, f);
  }

  predicate SetsHash(r: Request) { r.RegisterReq? || r.ResetPasswordReq? || r.ChangePasswordReq? }

  lemma HashesStay(s: Auth, c: Call)
    requires !SetsHash(c.request)
    ensures Serve(s, c).0.users.Keys == s.users.Keys
    ensures forall id :: id in s.users ==> Serve(s, c).0.users[id].row.passwordHash == s.users[id].row.passwordHash
  {
    hide FindVerification, FindRefreshByHash, BlacklistAccess, RevokeFamily, Sanitize;
  }

  predicate HashesFollow(s: Auth, s': Auth, f: Renaming) {
    forall id :: id in s.users && id in s'.users ==>
                   s'.users[id].row.passwordHash == Digest(f(s.users[id].row.passwordHash.preimage))
  }

  lemma RegisteredHash(s: Auth, c: Call, f: Renaming)
    requires c.request.RegisterReq?
    ensures HashesFollow(Serve(s, c).0, Serve(Renamed(s, f), RenamedCall(c, f)).0, f)
  {
    hide Sanitize, SignAccess, SignRefresh;
  }

  lemma ChangedHash(s: Auth, c: Call, f: Renaming)
    requires Injective(f) && c.request.ChangePasswordReq?
    ensures HashesFollow(Serve(s, c).0, Serve(Renamed(s, f), RenamedCall(c, f)).0, f)
  {
    hide RevokeAllForUser;
  }

  lemma ResetHash(s: Auth, c: Call, f: Renaming)
    requires c.request.ResetPasswordReq?
    ensures HashesFollow(Serve(s, c).0, Serve(Renamed(s, f), RenamedCall(c, f)).0, f)
  {
    hide FindVerification, RevokeAllForUser;
  }

  lemma HashesRenamed(s: Auth, c: Call, f: Renaming)
    requires Injective(f)
    ensures HashesFollow(Serve(s, c).0, Serve(Renamed(s, f), RenamedCall(c, f)).0, f)
  {
    if c.request.RegisterReq? { RegisteredHash(s, c, f); }
    else if c.request.ChangePasswordReq? { ChangedHash(s, c, f); }
    else if c.request.ResetPasswordReq? { ResetHash(s, c, f); }
    else {
      HashesStay(s, c);
      HashesStay(Renamed(s, f), RenamedCall(c, f));
      hide Serve;
    }
  }

  /** If everyone had other passwords, equal where they are equal now, no reply of any run would differ. */
  lemma {:induction false} PasswordsNeverShow(s: Auth, calls: seq<Call>, f: Renaming)
    requires Injective(f)
    ensures Run(Renamed(s, f), RenamedCalls(calls, f)).1 == Run(s, calls).1
    ensures Run(Renamed(s, f), RenamedCalls(calls, f)).0 == Renamed(Run(s, calls).0, f)
    decreases |calls|
  {
    hide Serve, Renamed, RenamedCall;
    var renamed := RenamedCalls(calls, f);
    if calls != [] {
      ServeRenamed(s, calls[0], f);
      assert renamed[1..] == RenamedCalls(calls[1..], f);
      PasswordsNeverShow(Serve(s, calls[0]).0, calls[1..], f);
    }
  }
}
