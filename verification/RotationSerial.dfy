// Requests that nothing interrupts: their steps add up to the serial service, and
// whole serial runs inherit the bound of the interleaved ones.
module RotationSerial {
  import opened Wrappers
  import opened Tables
  import opened Schema
  import opened AuthSpec
  import opened Forests
  import opened RotationSteps
  import opened RotationTheorems

  /** `n` steps of one request on the tables, history and position. */
  function Iterate(auth: Auth, parents: seq<Option<nat>>, thread: Thread, env: Env, n: nat):
    (Auth, seq<Option<nat>>, Thread)
    decreases n
  {
    if n == 0 then (auth, parents, thread)
    else
      var (auth', parents', thread') := Next(auth, parents, thread, env);
      Iterate(auth', parents', thread', env, n - 1)
  }

  function AdvanceTimes(w: World, tid: nat, env: Env, n: nat): World
    decreases n
  {
    if n == 0 then w else AdvanceTimes(Apply(w, Advance(tid, env)), tid, env, n - 1)
  }

  lemma {:induction false} AdvanceIterates(w: World, tid: nat, env: Env, n: nat)
    requires tid in w.threads
    ensures var (auth, parents, thread) := Iterate(w.auth, w.parents, w.threads[tid], env, n);
            AdvanceTimes(w, tid, env, n) == World(auth, parents, w.threads[tid := thread])
    decreases n
  {
    hide Next;
    if n > 0 {
      var w1 := Apply(w, Advance(tid, env));
      AdvanceIterates(w1, tid, env, n - 1);
      var t := Iterate(w.auth, w.parents, w.threads[tid], env, n).2;
      assert w1.threads[tid := t] == w.threads[tid := t];
    } else {
      assert w.threads == w.threads[tid := w.threads[tid]];
    }
  }

  lemma {:induction false} FinishedIdles(auth: Auth, parents: seq<Option<nat>>, reply: Result<Reply, Failure>, env: Env,
                                         n: nat)
    ensures Iterate(auth, parents, Finished(reply), env, n) == (auth, parents, Finished(reply))
    decreases n
  {
    if n > 0 { FinishedIdles(auth, parents, reply, env, n - 1); }
  }

  lemma OneStep(auth: Auth, parents: seq<Option<nat>>, thread: Thread, env: Env, n: nat)
    ensures var (auth', parents', thread') := Next(auth, parents, thread, env);
            Iterate(auth, parents, thread, env, n + 1) == Iterate(auth', parents', thread', env, n)
  {
    hide Next;
  }

  /** Signing and storing: the last two steps of whatever issues. */
  lemma IssueTail(auth: Auth, parents: seq<Option<nat>>, id: Id, user: Owned<User>, rotation: Option<Rotation>,
                  env: Env, n: nat)
    requires id in auth.users && SignAccess(id, user, env) == SignAccess(id, auth.users[id], env)
    ensures var (auth', tokens) := IssueAndPersist(auth, id, FamilyOf(rotation, env), env);
            Iterate(auth, parents, TokensDue(id, user, rotation), env, n + 2)
            == (auth', parents + [ParentOf(rotation)], Finished(Ok(Issued(Shown(id, user, rotation), tokens))))
  {
    hide Iterate, Sanitize;
    var (auth1, parents1, thread1) := Next(auth, parents, TokensDue(id, user, rotation), env);
    OneStep(auth, parents, TokensDue(id, user, rotation), env, n + 1);
    OneStep(auth1, parents1, thread1, env, n);
    var (auth', tokens) := IssueAndPersist(auth, id, FamilyOf(rotation, env), env);
    FinishedIdles(auth', parents + [ParentOf(rotation)], Ok(Issued(Shown(id, user, rotation), tokens)), env, n);
  }

  /** A refresh that has found its row live. */
  lemma RotationTail(s: Auth, parents: seq<Option<nat>>, token: RefreshJwt, row: nat, env: Env)
    requires row < |s.refreshTokens|
    ensures Iterate(s, parents, RowRead(token, row, s.refreshTokens[row].family), env, 4)
            == if !(token.sub in s.users && s.users[token.sub].row.isActive)
               then (s, parents, Finished(Err(AccountInactive)))
               else
                 var s1 := WithRows(s, RevokeRefreshToken(s.refreshTokens, row, env.now));
                 var (s2, tokens) := IssueAndPersist(s1, token.sub, s.refreshTokens[row].family, env);
                 (s2, parents + [Some(row)], Finished(Ok(Issued(None, tokens))))
  {
    hide Iterate, SignAccess, Sanitize, IssueAndPersist;
    var family := s.refreshTokens[row].family;
    OneStep(s, parents, RowRead(token, row, family), env, 3);
    if token.sub in s.users && s.users[token.sub].row.isActive {
      var user := s.users[token.sub];
      OneStep(s, parents, UserRead(token.sub, user, row, family), env, 2);
      IssueTail(WithRows(s, RevokeRefreshToken(s.refreshTokens, row, env.now)), parents, token.sub, user,
                Some(Rotation(row, family)), env, 0);
    } else {
      FinishedIdles(s, parents, Err(AccountInactive), env, 3);
    }
  }

  // --- one request ------------------------------------------------------

  /** Where a request starts. */
  function Start(request: Request): Thread
    requires !request.SetActive?
  {
    match request
    case RegisterReq(id, org, email, password, first, last) =>
      RegisterStarted(id, org, email, password, first, last)
    case LoginReq(found, password) => LoginStarted(found, password)
    case RefreshReq(token) => RefreshStarted(token)
    case LogoutReq(token, jti) => LogoutStarted(token, jti)
    case ForgotPasswordReq(found) => ForgotStarted(found)
    case ResetPasswordReq(raw, newPassword) => MailStarted(raw, NewPassword(newPassword))
    case VerifyEmailReq(raw) => MailStarted(raw, ConfirmEmail)
    case ChangePasswordReq(id, current, newPassword) => ChangeStarted(id, current, newPassword)
    case MeReq(id) => MeStarted(id)
  }

  /** Spawned and advanced until it has finished; six steps are enough for any request. */
  function Completed(w: World, call: Call, tid: nat): World {
    if call.request.SetActive? then Apply(w, Activate(call.request.id, call.request.active))
    else AdvanceTimes(Apply(w, Spawn(tid, Start(call.request))), tid, call.env, 6)
  }

  /** The row that the request replaces, when it rotates. */
  function Rotates(s: Auth, call: Call): Option<nat> {
    if call.request.RefreshReq? then FindRefreshByHash(s.refreshTokens, Digest(call.request.token)) else None
  }

  /** History after the request: one entry more exactly when it issued. */
  predicate Grown(w: World, w': World, call: Call) {
    w'.parents == if Serve(w.auth, call).1.Ok? && Serve(w.auth, call).1.value.Issued?
                  then w.parents + [Rotates(w.auth, call)] else w.parents
  }

  /** New family ids and user ids are new, and a user that the e-mail lookup found exists. */
  predicate Drawn(s: Auth, call: Call) {
    && (call.request.LoginReq? || call.request.RegisterReq? ==> FreshFamily(s, call.env.family))
    && (call.request.RegisterReq? ==> call.request.id !in s.users)
    && (call.request.ForgotPasswordReq? && call.request.found.Some? ==> call.request.found.value in s.users)
  }

  lemma RefreshIterates(s: Auth, parents: seq<Option<nat>>, token: RefreshJwt, env: Env)
    ensures var (s', reply) := Refresh(s, token, env);
            Iterate(s, parents, RefreshStarted(token), env, 6)
            == (s', if reply.Ok? then parents + [FindRefreshByHash(s.refreshTokens, Digest(token))] else parents,
                Finished(reply))
  {
    hide Iterate, FindRefreshByHash, SignAccess, Sanitize, IssueAndPersist, RevokeFamily;
    OneStep(s, parents, RefreshStarted(token), env, 5);
    if !Verifies(s, token, env.now) {
      FinishedIdles(s, parents, Err(InvalidRefreshToken), env, 5);
    } else {
      OneStep(s, parents, RefreshVerified(token), env, 4);
      var found := FindRefreshByHash(s.refreshTokens, Digest(token));
      if found.None? || s.refreshTokens[found.value].revokedAt.Some? {
        OneStep(s, parents, ReuseSeen(token.family), env, 3);
        FinishedIdles(Refresh(s, token, env).0, parents, Err(RefreshReuse), env, 3);
      } else if s.refreshTokens[found.value].expiresAt < env.now {
        FinishedIdles(s, parents, Err(RefreshExpired), env, 4);
      } else {
        RotationTail(s, parents, token, found.value, env);
      }
    }
  }

  lemma LoginIterates(s: Auth, parents: seq<Option<nat>>, found: Option<Id>, password: string, env: Env)
    ensures var (s', reply) := Login(s, found, password, env);
            Iterate(s, parents, LoginStarted(found, password), env, 6)
            == (s', if reply.Ok? then parents + [None] else parents, Finished(reply))
  {
    hide Iterate, Sanitize, IssueAndPersist;
    OneStep(s, parents, LoginStarted(found, password), env, 5);
    if Login(s, found, password, env).1.Ok? {
      var user := s.users[found.value];
      var s1 := WithUser(s, found.value, user.row.(lastLoginAt := Some(env.now)));
      OneStep(s, parents, LoginChecked(found.value, user), env, 4);
      IssueTail(s1, parents, found.value, user, None, env, 2);
    } else {
      FinishedIdles(s, parents, Err(InvalidCredentials), env, 5);
    }
  }

  lemma LogoutIterates(s: Auth, parents: seq<Option<nat>>, token: Option<RefreshJwt>, jti: Option<string>, env: Env)
    ensures Iterate(s, parents, LogoutStarted(token, jti), env, 6)
            == (Logout(s, token, jti, env), parents, Finished(Ok(Done)))
  {
    hide Iterate, FindRefreshByHash, BlacklistAccess;
    OneStep(s, parents, LogoutStarted(token, jti), env, 5);
    var s1 := Logout(s, token, jti, env);
    if token.Some? && FindRefreshByHash(s.refreshTokens, Digest(token.value)).Some?
       && Live(s.refreshTokens[FindRefreshByHash(s.refreshTokens, Digest(token.value)).value]) {
      var row := FindRefreshByHash(s.refreshTokens, Digest(token.value)).value;
      OneStep(s, parents, LogoutRowRead(row, jti), env, 4);
      OneStep(s1.(blacklist := s.blacklist), parents, BlacklistDue(jti), env, 3);
      FinishedIdles(s1, parents, Ok(Done), env, 3);
    } else {
      OneStep(s, parents, BlacklistDue(jti), env, 4);
      FinishedIdles(s1, parents, Ok(Done), env, 4);
    }
  }

  lemma RegisterIterates(s: Auth, parents: seq<Option<nat>>, id: Id, org: OrgId, email: string, password: string,
                         first: Option<string>, last: Option<string>, env: Env)
    requires id !in s.users
    ensures var (s', reply) := Register(s, id, org, email, password, first, last, env);
            Iterate(s, parents, RegisterStarted(id, org, email, password, first, last), env, 6)
            == (s', parents + [None], Finished(reply))
  {
    hide Iterate, Sanitize, IssueAndPersist, NewOwner, EmailVerification;
    var user := Owned(org, NewOwner(email, password, first, last));
    var s1 := s.(users := Insert(s.users, org, id, user.row));
    var s2 := s1.(verifications := s.verifications + [EmailVerification(id, env)]);
    OneStep(s, parents, RegisterStarted(id, org, email, password, first, last), env, 5);
    OneStep(s1, parents, VerificationOwed(id, user), env, 4);
    IssueTail(s2, parents, id, user, None, env, 2);
    assert s2 == s.(users := s1.users, verifications := s2.verifications);
  }

  lemma ForgotIterates(s: Auth, parents: seq<Option<nat>>, found: Option<Id>, env: Env)
    requires found.Some? ==> found.value in s.users
    ensures Iterate(s, parents, ForgotStarted(found), env, 6)
            == (ForgotPassword(s, found, env), parents, Finished(Ok(Done)))
  {
    hide Iterate, PasswordResetMail;
    OneStep(s, parents, ForgotStarted(found), env, 5);
    FinishedIdles(ForgotPassword(s, found, env), parents, Ok(Done), env, 5);
  }

  // Requests with a mailed token, position by position.

  /** The row that a mailed token is found in, if it has not expired. */
  function Presented(s: Auth, raw: Id, use: Use, env: Env): Option<nat> {
    var found := FindVerification(s.verifications, Digest(raw), KindOf(use));
    if found.Some? && s.verifications[found.value].expiresAt < env.now then None else found
  }

  lemma MailLookup(s: Auth, parents: seq<Option<nat>>, raw: Id, use: Use, env: Env, n: nat)
    ensures var found := Presented(s, raw, use, env);
            Iterate(s, parents, MailStarted(raw, use), env, n + 1)
            == if found.None? then (s, parents, Finished(Err(InvalidVerification)))
               else Iterate(s, parents, MailRead(found.value, s.verifications[found.value].userId, use), env, n)
  {
    hide Iterate, FindVerification;
    OneStep(s, parents, MailStarted(raw, use), env, n);
    FinishedIdles(s, parents, Err(InvalidVerification), env, n);
  }

  lemma MailWrite(s: Auth, parents: seq<Option<nat>>, mail: nat, id: Id, use: Use, env: Env, n: nat)
    ensures Iterate(s, parents, MailRead(mail, id, use), env, n + 1)
            == if id !in s.users then (s, parents, Finished(Err(NotFound)))
               else Iterate(WithUser(s, id, Used(s.users[id].row, use)), parents, MailDue(mail, id, use), env, n)
  {
    hide Iterate, Used;
    OneStep(s, parents, MailRead(mail, id, use), env, n);
    FinishedIdles(s, parents, Err(NotFound), env, n);
  }

  lemma MailMark(s: Auth, parents: seq<Option<nat>>, mail: nat, id: Id, use: Use, env: Env, n: nat)
    requires mail < |s.verifications|
    ensures var s' := s.(verifications := MarkVerificationUsed(s.verifications, mail, env.now));
            Iterate(s, parents, MailDue(mail, id, use), env, n + 1)
            == if use.ConfirmEmail? then (s', parents, Finished(Ok(Done)))
               else Iterate(s', parents, SessionsDue(id), env, n)
  {
    hide Iterate;
    var s' := s.(verifications := MarkVerificationUsed(s.verifications, mail, env.now));
    OneStep(s, parents, MailDue(mail, id, use), env, n);
    FinishedIdles(s', parents, Ok(Done), env, n);
  }

  /** The last step of whatever ends a user's sessions. */
  lemma SessionsTail(s: Auth, parents: seq<Option<nat>>, id: Id, env: Env, n: nat)
    ensures Iterate(s, parents, SessionsDue(id), env, n + 1)
            == (WithRows(s, RevokeAllForUser(s.refreshTokens, id, env.now)), parents, Finished(Ok(Done)))
  {
    hide Iterate, RevokeAllForUser;
    var s' := WithRows(s, RevokeAllForUser(s.refreshTokens, id, env.now));
    OneStep(s, parents, SessionsDue(id), env, n);
    FinishedIdles(s', parents, Ok(Done), env, n);
  }

  lemma ResetIterates(s: Auth, parents: seq<Option<nat>>, raw: Id, password: string, env: Env)
    ensures var (s', reply) := ResetPassword(s, raw, password, env);
            Iterate(s, parents, MailStarted(raw, NewPassword(password)), env, 6) == (s', parents, Finished(reply))
  {
    hide Iterate, FindVerification, RevokeAllForUser;
    var use, found := NewPassword(password), Presented(s, raw, NewPassword(password), env);
    MailLookup(s, parents, raw, use, env, 5);
    if found.Some? {
      var id := s.verifications[found.value].userId;
      MailWrite(s, parents, found.value, id, use, env, 4);
      if id in s.users {
        var s1 := WithUser(s, id, Used(s.users[id].row, use));
        var s2 := s1.(verifications := MarkVerificationUsed(s.verifications, found.value, env.now));
        MailMark(s1, parents, found.value, id, use, env, 3);
        SessionsTail(s2, parents, id, env, 2);
      }
    }
  }

  lemma VerifyIterates(s: Auth, parents: seq<Option<nat>>, raw: Id, env: Env)
    ensures var (s', reply) := VerifyEmail(s, raw, env);
            Iterate(s, parents, MailStarted(raw, ConfirmEmail), env, 6) == (s', parents, Finished(reply))
  {
    hide Iterate, FindVerification;
    var found := Presented(s, raw, ConfirmEmail, env);
    MailLookup(s, parents, raw, ConfirmEmail, env, 5);
    if found.Some? {
      var id := s.verifications[found.value].userId;
      MailWrite(s, parents, found.value, id, ConfirmEmail, env, 4);
      if id in s.users {
        var s1 := WithUser(s, id, Used(s.users[id].row, ConfirmEmail));
        MailMark(s1, parents, found.value, id, ConfirmEmail, env, 3);
      }
    }
  }

  lemma PasswordWrite(s: Auth, parents: seq<Option<nat>>, id: Id, password: string, env: Env, n: nat)
    requires id in s.users
    ensures Iterate(s, parents, PasswordDue(id, password), env, n + 1)
            == Iterate(WithUser(s, id, s.users[id].row.(passwordHash := Digest(password))), parents, SessionsDue(id),
                       env, n)
  {
    OneStep(s, parents, PasswordDue(id, password), env, n);
    hide Iterate;
  }

  lemma ChangeIterates(s: Auth, parents: seq<Option<nat>>, id: Id, current: string, password: string, env: Env)
    ensures var (s', reply) := ChangePassword(s, id, current, password, env);
            Iterate(s, parents, ChangeStarted(id, current, password), env, 6) == (s', parents, Finished(reply))
  {
    hide Iterate, RevokeAllForUser;
    OneStep(s, parents, ChangeStarted(id, current, password), env, 5);
    var (s', reply) := ChangePassword(s, id, current, password, env);
    if reply.Ok? {
      PasswordWrite(s, parents, id, password, env, 4);
      SessionsTail(WithUser(s, id, s.users[id].row.(passwordHash := Digest(password))), parents, id, env, 3);
    } else {
      FinishedIdles(s, parents, reply, env, 5);
    }
  }

  lemma MeIterates(s: Auth, parents: seq<Option<nat>>, id: Id, env: Env)
    ensures Iterate(s, parents, MeStarted(id), env, 6) == (s, parents, Finished(Me(s, id)))
  {
    hide Iterate, Me;
    OneStep(s, parents, MeStarted(id), env, 5);
    FinishedIdles(s, parents, Me(s, id), env, 5);
  }

  /** All of them: the effect and the answer of the serial service, and one row more exactly when it issued. */
  lemma RequestIterates(s: Auth, parents: seq<Option<nat>>, call: Call)
    requires !call.request.SetActive? && Drawn(s, call)
    ensures var (s', reply) := Serve(s, call);
            Iterate(s, parents, Start(call.request), call.env, 6)
            == (s', if reply.Ok? && reply.value.Issued? then parents + [Rotates(s, call)] else parents, Finished(reply))
  {
    hide Iterate, FindRefreshByHash, Login, Register, Refresh, Logout, ForgotPassword, ResetPassword, VerifyEmail;
    hide ChangePassword, Me;
    RepliesOf(s, call);
    var env := call.env;
    match call.request
    case RegisterReq(id, org, email, password, first, last) =>
      RegisterIterates(s, parents, id, org, email, password, first, last, env);
    case LoginReq(found, password) => LoginIterates(s, parents, found, password, env);
    case RefreshReq(token) => RefreshIterates(s, parents, token, env);
    case LogoutReq(token, jti) => LogoutIterates(s, parents, token, jti, env);
    case ForgotPasswordReq(found) => ForgotIterates(s, parents, found, env);
    case ResetPasswordReq(raw, password) => ResetIterates(s, parents, raw, password, env);
    case VerifyEmailReq(raw) => VerifyIterates(s, parents, raw, env);
    case ChangePasswordReq(id, current, password) => ChangeIterates(s, parents, id, current, password, env);
    case MeReq(id) => MeIterates(s, parents, id, env);
  }

  /** Sessions are started or rotated by these three requests only. */
  predicate Issues(request: Request) { request.RegisterReq? || request.LoginReq? || request.RefreshReq? }

  lemma RepliesOf(s: Auth, call: Call)
    ensures Serve(s, call).1.Ok? ==> (Serve(s, call).1.value.Issued? <==> Issues(call.request))
    ensures call.request.RegisterReq? ==> Serve(s, call).1.Ok?
  {
    hide FindRefreshByHash, FindVerification, Sanitize;
  }

  /** Left alone, the steps of a request have the effect and the answer of the serial service. */
  lemma UninterruptedIsSerial(w: World, call: Call, tid: nat)
    requires tid !in w.threads && Drawn(w.auth, call)
    ensures var (s', reply) := Serve(w.auth, call);
            && Completed(w, call, tid).auth == s'
            && Completed(w, call, tid).threads
               == (if call.request.SetActive? then w.threads else w.threads[tid := Finished(reply)])
    ensures Grown(w, Completed(w, call, tid), call)
  {
    if !call.request.SetActive? {
      var start := Start(call.request);
      var w0 := Apply(w, Spawn(tid, start));
      assert w0 == w.(threads := w.threads[tid := start]);
      var t := Iterate(w.auth, w.parents, start, call.env, 6).2;
      assert w0.threads[tid := t] == w.threads[tid := t];
      AdvanceIterates(w0, tid, call.env, 6);
      RequestIterates(w.auth, w.parents, call);
      hide Apply, Iterate, AdvanceTimes, FindRefreshByHash, Serve, Start;
    }
  }

  // --- serial runs as event runs ----------------------------------------

  function Advances(tid: nat, env: Env, n: nat): seq<Event> {
    if n == 0 then [] else [Advance(tid, env)] + Advances(tid, env, n - 1)
  }

  function EventsOf(call: Call, tid: nat): seq<Event> {
    if call.request.SetActive? then [Activate(call.request.id, call.request.active)]
    else [Spawn(tid, Start(call.request))] + Advances(tid, call.env, 6)
  }

  /** A login that has not drawn its family yet. */
  predicate IsLoggingIn(thread: Thread) {
    || thread.LoginStarted? || thread.LoginChecked? || thread.RegisterStarted? || thread.VerificationOwed?
    || (thread.TokensDue? && thread.rotation.None?)
  }

  /** No other request is in flight, and a login still to sign has an unused family. */
  predicate Calm(w: World, tid: nat, env: Env) {
    && tid in w.threads
    && (forall t :: t in w.threads && t != tid ==> w.threads[t].Finished?)
    && (IsLoggingIn(w.threads[tid]) ==> FreshFamily(w.auth, env.family))
  }

  lemma StaysCalm(w: World, tid: nat, env: Env)
    requires Calm(w, tid, env)
    ensures FreshEvent(w, Advance(tid, env)) && Calm(Apply(w, Advance(tid, env)), tid, env)
  {
    hide FindRefreshByHash, Verifies, SignAccess, SignRefresh, Sanitize;
  }

  lemma {:induction false} AdvancesAreEvents(w: World, tid: nat, env: Env, n: nat)
    requires Calm(w, tid, env)
    ensures FreshEvents(w, Advances(tid, env, n)) && RunEvents(w, Advances(tid, env, n)) == AdvanceTimes(w, tid, env, n)
    decreases n
  {
    hide Apply, Calm, FreshEvent;
    if n > 0 {
      StaysCalm(w, tid, env);
      AdvancesAreEvents(Apply(w, Advance(tid, env)), tid, env, n - 1);
      RunCons(w, Advance(tid, env), Advances(tid, env, n - 1));
    }
  }

  /** Every request so far has finished, under an id below `tid`. */
  predicate Idle(w: World, tid: nat) { forall t :: t in w.threads ==> t < tid && w.threads[t].Finished? }

  lemma RequestIsEvents(w: World, call: Call, tid: nat)
    requires Idle(w, tid) && Drawn(w.auth, call)
    ensures FreshEvents(w, EventsOf(call, tid)) && RunEvents(w, EventsOf(call, tid)) == Completed(w, call, tid)
  {
    hide FreshFamily, NextAccount, Next;
    if call.request.SetActive? {
      var e := Activate(call.request.id, call.request.active);
      assert [e] == [e] + [];
      RunCons(w, e, []);
      assert RunEvents(Apply(w, e), []) == Apply(w, e);
    } else {
      var e := Spawn(tid, Start(call.request));
      AdvancesAreEvents(Apply(w, e), tid, call.env, 6);
      RunCons(w, e, Advances(tid, call.env, 6));
    }
  }

  // --- no row is rotated twice ------------------------------------------

  predicate Unbranched(w: World)
    requires |w.parents| == |w.auth.refreshTokens|
  {
    forall i :: 0 <= i < |w.parents| ==> Children(Nodes(w), i) <= 1
  }

  /** A serial refresh replaces a row that nothing has replaced. */
  lemma RotatesALeaf(w: World, call: Call)
    requires Inv(w) && Serve(w.auth, call).1.Ok? && Rotates(w.auth, call).Some?
    ensures Rotates(w.auth, call).value < |w.parents| && Children(Nodes(w), Rotates(w.auth, call).value) == 0
  {
    hide Inv;
    var p := Rotates(w.auth, call).value;
    assert |w.parents| == |w.auth.refreshTokens| by { assert Inv(w); SameLength(w); }
    if Children(Nodes(w), p) > 0 {
      SucceededIsRevoked(w, p);
      assert false;
    }
  }

  lemma SameLength(w: World)
    requires Inv(w)
    ensures |w.parents| == |w.auth.refreshTokens|
  {
  }

  lemma StaysUnbranched(w: World, w': World, call: Call)
    requires Inv(w) && Inv(w') && Extends(w, w') && Grown(w, w', call) && Unbranched(w)
    ensures Unbranched(w')
  {
    var ns, ns', n := Nodes(w), Nodes(w'), |w.parents|;
    if w'.parents == w.parents {
      assert ns' == ns;
    } else {
      var x := w'.parents[n];
      assert ns'[..n] == ns && ns'[n].parent == x;
      RowsFormForest(w);
      if x.Some? { RotatesALeaf(w, call); }
      forall i | 0 <= i < |w'.parents| ensures Children(ns', i) <= 1 {
        if i == n { NoChildYet(ns, n); }
      }
    }
  }

  predicate DrawnRun(s: Auth, calls: seq<Call>)
    decreases |calls|
  {
    calls == [] || (Drawn(s, calls[0]) && DrawnRun(Serve(s, calls[0]).0, calls[1..]))
  }

  lemma OneRequest(w: World, call: Call, tid: nat)
    requires Inv(w) && Unbranched(w) && Idle(w, tid) && Drawn(w.auth, call)
    ensures var w' := Completed(w, call, tid);
            Inv(w') && Unbranched(w') && Idle(w', tid + 1) && w'.auth == Serve(w.auth, call).0
  {
    hide Completed, EventsOf, Inv, Extends, Grown, Serve, Drawn;
    RequestIsEvents(w, call, tid);
    RunKeepsInv(w, EventsOf(call, tid));
    UninterruptedIsSerial(w, call, tid);
    assert Inv(Completed(w, call, tid));
    SameLength(Completed(w, call, tid));
    StaysUnbranched(w, Completed(w, call, tid), call);
  }

  /** Any serial run is the run of the steps of its requests, one request after the other. */
  lemma {:induction false} SerialIsInterleaved(w: World, calls: seq<Call>, tid: nat)
    returns (events: seq<Event>, w': World)
    requires Inv(w) && Unbranched(w) && Idle(w, tid) && DrawnRun(w.auth, calls)
    ensures FreshEvents(w, events) && w' == RunEvents(w, events) && w'.auth == Run(w.auth, calls).0
    ensures Inv(w') && Unbranched(w')
    decreases |calls|
  {
    hide Inv, Idle, Serve, Drawn, Completed, Unbranched, EventsOf;
    if calls != [] {
      OneRequest(w, calls[0], tid);
      RequestIsEvents(w, calls[0], tid);
      var rest;
      rest, w' := SerialIsInterleaved(Completed(w, calls[0], tid), calls[1..], tid + 1);
      RunAppend(w, EventsOf(calls[0], tid), rest);
      events := EventsOf(calls[0], tid) + rest;
    } else {
      events, w' := [], w;
    }
  }

  lemma {:induction false} LiveIsPresent(rows: seq<RefreshRow>, family: Id)
    requires LiveCount(rows, family) > 0
    ensures Present(rows, family)
  {
    var n := |rows| - 1;
    if rows[n].family != family {
      LiveIsPresent(rows[..n], family);
      var i :| 0 <= i < n && rows[..n][i].family == family;
      assert rows[i].family == family;
    }
  }

  /**
   * The serial theorem as a case of the interleaved one: any serial run of the auth requests leaves each
   * family at most one live token, because run one after the other no two requests rotate the same row.
   */
  lemma SerialHasOneLive(w: World, calls: seq<Call>, tid: nat, family: Id)
    requires Inv(w) && Unbranched(w) && Idle(w, tid) && DrawnRun(w.auth, calls)
    ensures LiveCount(Run(w.auth, calls).0.refreshTokens, family) <= 1
  {
    hide Inv, Idle, Run, DrawnRun, Unbranched;
    var events, w' := SerialIsInterleaved(w, calls, tid);
    if LiveCount(w'.auth.refreshTokens, family) > 0 {
      LiveIsPresent(w'.auth.refreshTokens, family);
      UnbranchedChildren(w');
      UnbranchedHasOneLive(w', family);
    }
  }

  lemma UnbranchedChildren(w: World)
    requires Inv(w) && Unbranched(w)
    ensures |w.parents| == |w.auth.refreshTokens|
    ensures forall i :: 0 <= i < |w.parents| ==> Children(Nodes(w), i) <= 1
  {
  }
}
