// Every request of AuthService with each `await` a step of its own, requests interleaving freely.
module RotationSteps {
  import opened Wrappers
  import opened Tables
  import opened Schema
  import opened AuthSpec
  import opened Forests

  // The row that a refresh has revoked and is about to replace.
  datatype Rotation = Rotation(row: nat, family: Id)

  // What a mailed token is presented for.
  datatype Use = NewPassword(password: string) | ConfirmEmail

  // Where a request in flight stands, with the values it has read so far. TokensDue is
  // about to sign a pair, RowDue has signed it and is about to store the refresh half.
  datatype Thread =
    | RefreshStarted(token: RefreshJwt)
    | RefreshVerified(token: RefreshJwt)
    | ReuseSeen(burning: Id)
    | RowRead(token: RefreshJwt, row: nat, family: Id)
    | UserRead(id: Id, user: Owned<User>, row: nat, family: Id)
    | LogoutStarted(presented: Option<RefreshJwt>, jti: Option<string>)
    | LogoutRowRead(row: nat, jti: Option<string>)
    | BlacklistDue(jti: Option<string>)
    | LoginStarted(found: Option<Id>, password: string)
    | LoginChecked(id: Id, user: Owned<User>)
    | TokensDue(id: Id, user: Owned<User>, rotation: Option<Rotation>)
    | RowDue(id: Id, family: Id, parent: Option<nat>, shown: Option<SafeUser>, tokens: Tokens)
    | RegisterStarted(id: Id, org: OrgId, email: string, password: string, first: Option<string>, last: Option<string>)
    | VerificationOwed(id: Id, user: Owned<User>)
    | ForgotStarted(found: Option<Id>)
    | MailStarted(raw: Id, use: Use)
    | MailRead(mail: nat, id: Id, use: Use)
    | MailDue(mail: nat, id: Id, use: Use)
    | ChangeStarted(id: Id, current: string, password: string)
    | PasswordDue(id: Id, password: string)
    | SessionsDue(id: Id)
    | MeStarted(id: Id)
    | Finished(reply: Result<Reply, Failure>)

  // `parents` is history: which row each row was rotated from.
  datatype World = World(auth: Auth, parents: seq<Option<nat>>, threads: map<nat, Thread>)

  datatype Event =
    | Spawn(tid: nat, thread: Thread)
    | Advance(tid: nat, env: Env)
    | Activate(user: Id, active: bool)   // an operator flips isActive

  predicate IsStart(thread: Thread) {
    || thread.RefreshStarted? || thread.LogoutStarted? || thread.LoginStarted? || thread.RegisterStarted?
    || thread.ForgotStarted? || thread.MailStarted? || thread.ChangeStarted? || thread.MeStarted?
  }

  function WithRows(auth: Auth, rows: seq<RefreshRow>): Auth { auth.(refreshTokens := rows) }

  /** Login and registration return the user record as read, refresh does not. */
  function Shown(id: Id, user: Owned<User>, rotation: Option<Rotation>): Option<SafeUser> {
    if rotation.Some? then None else Some(Sanitize(id, user))
  }

  function FamilyOf(rotation: Option<Rotation>, env: Env): Id {
    if rotation.Some? then rotation.value.family else env.family
  }

  function ParentOf(rotation: Option<Rotation>): Option<nat> {
    if rotation.Some? then Some(rotation.value.row) else None
  }

  function KindOf(use: Use): TokenType { if use.ConfirmEmail? then EMAIL_VERIFY else PASSWORD_RESET }

  /** The column that a mailed token is good for. */
  function Used(user: User, use: Use): User {
    match use
    case NewPassword(password) => user.(passwordHash := Digest(password))
    case ConfirmEmail => user.(emailVerified := true)
  }

  /** One step of a request on accounts and mailed tokens. */
  function NextAccount(auth: Auth, thread: Thread, env: Env): (r: (Auth, Thread))
    ensures r.0 == auth.(users := r.0.users, verifications := r.0.verifications, refreshTokens := r.0.refreshTokens)
    ensures r.0.refreshTokens == auth.refreshTokens
            || (thread.SessionsDue? && r.0.refreshTokens == RevokeAllForUser(auth.refreshTokens, thread.id, env.now))
    ensures forall id :: id in auth.users ==>
                           id in r.0.users && r.0.users[id].row.isActive == auth.users[id].row.isActive
    ensures r.1.VerificationOwed? || r.1.MailRead? || r.1.MailDue? || r.1.PasswordDue? || r.1.SessionsDue?
            || (r.1.TokensDue? && thread.VerificationOwed? && r.1 == TokensDue(thread.id, thread.user, None))
            || r.1.Finished? || r.1 == thread
    ensures r.1.VerificationOwed? && r.1 != thread ==> r.1.id in r.0.users
  {
    match thread
    case RegisterStarted(id, org, email, password, first, last) =>
      if id in auth.users then (auth, Finished(Err(UniqueViolation)))
      else
        var owner := NewOwner(email, password, first, last);
        (auth.(users := Insert(auth.users, org, id, owner)), VerificationOwed(id, Owned(org, owner)))
    case VerificationOwed(id, user) =>
      (auth.(verifications := auth.verifications + [EmailVerification(id, env)]), TokensDue(id, user, None))
    case ForgotStarted(found) =>
      if found.None? then (auth, Finished(Ok(Done)))
      else if found.value !in auth.users then (auth, Finished(Err(ForeignKeyViolation)))
      else
        (auth.(verifications := auth.verifications + [PasswordResetMail(found.value, env)]), Finished(Ok(Done)))
    case MailStarted(raw, use) =>
      var found := FindVerification(auth.verifications, Digest(raw), KindOf(use));
      (auth,
       if found.None? || auth.verifications[found.value].expiresAt < env.now then Finished(Err(InvalidVerification))
       else MailRead(found.value, auth.verifications[found.value].userId, use))
    case MailRead(mail, id, use) =>
      if id !in auth.users then (auth, Finished(Err(NotFound)))
      else (WithUser(auth, id, Used(auth.users[id].row, use)), MailDue(mail, id, use))
    case MailDue(mail, id, use) =>
      if mail < |auth.verifications| then
        (auth.(verifications := MarkVerificationUsed(auth.verifications, mail, env.now)),
         if use.ConfirmEmail? then Finished(Ok(Done)) else SessionsDue(id))
      else (auth, Finished(Err(NotFound)))
    case ChangeStarted(id, current, password) =>
      (auth,
       if id !in auth.users then Finished(Err(Unauthorized))
       else if auth.users[id].row.passwordHash != Digest(current) then Finished(Err(WrongPassword))
       else PasswordDue(id, password))
    case PasswordDue(id, password) =>
      if id !in auth.users then (auth, Finished(Err(NotFound)))
      else (WithUser(auth, id, auth.users[id].row.(passwordHash := Digest(password))), SessionsDue(id))
    case SessionsDue(id) =>
      (WithRows(auth, RevokeAllForUser(auth.refreshTokens, id, env.now)), Finished(Ok(Done)))
    case MeStarted(id) => (auth, Finished(Me(auth, id)))
    case _ => (auth, thread)
  }

  /** One step of one request: the new tables, history and position. */
  function Next(auth: Auth, parents: seq<Option<nat>>, thread: Thread, env: Env): (Auth, seq<Option<nat>>, Thread) {
    match thread
    case RefreshStarted(token) =>
      (auth, parents,
       if Verifies(auth, token, env.now) then RefreshVerified(token) else Finished(Err(InvalidRefreshToken)))
    case RefreshVerified(token) =>
      var found := FindRefreshByHash(auth.refreshTokens, Digest(token));
      (auth, parents,
       if found.None? || auth.refreshTokens[found.value].revokedAt.Some? then ReuseSeen(token.family)
       else if auth.refreshTokens[found.value].expiresAt < env.now then Finished(Err(RefreshExpired))
       else RowRead(token, found.value, auth.refreshTokens[found.value].family))
    case ReuseSeen(family) =>
      (WithRows(auth, RevokeFamily(auth.refreshTokens, family, env.now)), parents, Finished(Err(RefreshReuse)))
    case RowRead(token, row, family) =>
      (auth, parents,
       if token.sub !in auth.users || !auth.users[token.sub].row.isActive then Finished(Err(AccountInactive))
       else UserRead(token.sub, auth.users[token.sub], row, family))
    case UserRead(id, user, row, family) =>
      if row < |auth.refreshTokens| then
        (WithRows(auth, RevokeRefreshToken(auth.refreshTokens, row, env.now)), parents,
         TokensDue(id, user, Some(Rotation(row, family))))
      else (auth, parents, Finished(Err(NotFound)))
    case LogoutStarted(presented, jti) =>
      if presented.None? then (auth, parents, BlacklistDue(jti))
      else
        var found := FindRefreshByHash(auth.refreshTokens, Digest(presented.value));
        (auth, parents,
         if found.None? || auth.refreshTokens[found.value].revokedAt.Some? then BlacklistDue(jti)
         else LogoutRowRead(found.value, jti))
    case LogoutRowRead(row, jti) =>
      if row < |auth.refreshTokens| then
        (WithRows(auth, RevokeRefreshToken(auth.refreshTokens, row, env.now)), parents, BlacklistDue(jti))
      else (auth, parents, Finished(Err(NotFound)))
    case BlacklistDue(jti) =>
      (auth.(blacklist := BlacklistAccess(auth.blacklist, jti, env)), parents, Finished(Ok(Done)))
    case LoginStarted(found, password) =>
      (auth, parents,
       if found.Some? && found.value in auth.users && auth.users[found.value].row.isActive
          && auth.users[found.value].row.passwordHash == Digest(password)
       then LoginChecked(found.value, auth.users[found.value]) else Finished(Err(InvalidCredentials)))
    case LoginChecked(id, user) =>
      if id in auth.users then
        (WithUser(auth, id, auth.users[id].row.(lastLoginAt := Some(env.now))), parents, TokensDue(id, user, None))
      else (auth, parents, Finished(Err(NotFound)))
    case TokensDue(id, user, rotation) =>
      var family := FamilyOf(rotation, env);
      var tokens := Tokens(SignAccess(id, user, env), SignRefresh(id, family, env));
      (auth.(signed := auth.signed + {tokens.refresh}), parents,
       RowDue(id, family, ParentOf(rotation), Shown(id, user, rotation), tokens))
    case RowDue(id, family, parent, shown, tokens) =>
      if id in auth.users then
        var row := RefreshRow(id, Digest(tokens.refresh), family, env.now + env.refreshTtl * 1000, None);
        (WithRows(auth, auth.refreshTokens + [row]), parents + [parent], Finished(Ok(Issued(shown, tokens))))
      else (auth, parents, Finished(Err(ForeignKeyViolation)))
    case _ =>
      var (auth', thread') := NextAccount(auth, thread, env);
      (auth', parents, thread')
  }

  function Apply(w: World, e: Event): World {
    match e
    case Spawn(tid, thread) =>
      if tid !in w.threads && IsStart(thread) then w.(threads := w.threads[tid := thread]) else w
    case Advance(tid, env) =>
      if tid !in w.threads then w
      else
        var (auth, parents, thread) := Next(w.auth, w.parents, w.threads[tid], env);
        World(auth, parents, w.threads[tid := thread])
    case Activate(user, active) =>
      if user in w.auth.users then w.(auth := WithUser(w.auth, user, w.auth.users[user].row.(isActive := active)))
      else w
  }

  function RunEvents(w: World, events: seq<Event>): World
    decreases |events|
  {
    if events == [] then w else RunEvents(Apply(w, events[0]), events[1..])
  }

  /** No row carries the family, and no login in flight is about to store one that does. */
  predicate NewFamily(w: World, family: Id) {
    && FreshFamily(w.auth, family)
    && forall tid :: tid in w.threads && w.threads[tid].RowDue? ==> w.threads[tid].family != family
  }

  /** A login draws a family id that nobody has. */
  predicate FreshEvent(w: World, e: Event) {
    e.Advance? && e.tid in w.threads && w.threads[e.tid].TokensDue? && w.threads[e.tid].rotation.None? ==>
      NewFamily(w, e.env.family)
  }

  predicate FreshEvents(w: World, events: seq<Event>)
    decreases |events|
  {
    events == [] || (FreshEvent(w, events[0]) && FreshEvents(Apply(w, events[0]), events[1..]))
  }

  // --- the invariant ----------------------------------------------------

  function Nodes(w: World): seq<Node>
    requires |w.parents| == |w.auth.refreshTokens|
  {
    seq(|w.parents|, i requires 0 <= i < |w.parents| => Node(w.auth.refreshTokens[i].family, w.parents[i]))
  }

  /** Each row is the rotation of an earlier, revoked row of its family, or its family's first. */
  predicate GoodRow(w: World, i: nat)
    requires i < |w.auth.refreshTokens| == |w.parents|
  {
    var rows := w.auth.refreshTokens;
    && rows[i].tokenHash.preimage.sub == rows[i].userId
    && rows[i].tokenHash.preimage.family == rows[i].family
    && rows[i].userId in w.auth.users
    && (w.parents[i].Some? ==>
          var p := w.parents[i].value;
          p < i && rows[p].family == rows[i].family && rows[p].userId == rows[i].userId && !Live(rows[p]))
    && (w.parents[i].None? ==> forall j :: 0 <= j < i ==> rows[j].family != rows[i].family)
  }

  predicate HoldsRow(w: World, user: Id, row: nat, family: Id) {
    && row < |w.auth.refreshTokens|
    && w.auth.refreshTokens[row].family == family && w.auth.refreshTokens[row].userId == user
  }

  predicate HoldsRevokedRow(w: World, user: Id, row: nat, family: Id) {
    HoldsRow(w, user, row, family) && !Live(w.auth.refreshTokens[row])
  }

  predicate GoodThread(w: World, thread: Thread) {
    match thread
    case RowRead(token, row, family) => HoldsRow(w, token.sub, row, family)
    case UserRead(id, _, row, family) => HoldsRow(w, id, row, family)
    case LogoutRowRead(row, _) => row < |w.auth.refreshTokens|
    case LoginChecked(id, _) => id in w.auth.users
    case VerificationOwed(id, _) => id in w.auth.users
    case TokensDue(id, _, rotation) =>
      && id in w.auth.users
      && (rotation.Some? ==> HoldsRevokedRow(w, id, rotation.value.row, rotation.value.family))
    case RowDue(id, family, parent, _, tokens) =>
      && id in w.auth.users && tokens.refresh.sub == id && tokens.refresh.family == family
      && (parent.Some? ==> HoldsRevokedRow(w, id, parent.value, family))
      && (parent.None? ==> FreshFamily(w.auth, family))
    case _ => true
  }

  /** The new family that a login in flight has signed a token for. */
  function Claim(thread: Thread): Option<Id> {
    if thread.RowDue? && thread.parent.None? then Some(thread.family) else None
  }

  predicate DistinctClaims(threads: map<nat, Thread>) {
    forall s, t :: s in threads && t in threads && s != t && Claim(threads[s]).Some? ==>
                     Claim(threads[s]) != Claim(threads[t])
  }

  predicate Inv(w: World) {
    && |w.parents| == |w.auth.refreshTokens|
    && (forall i :: 0 <= i < |w.parents| ==> GoodRow(w, i))
    && (forall tid :: tid in w.threads ==> GoodThread(w, w.threads[tid]))
    && DistinctClaims(w.threads)
  }

  /** Rows are only ever added, and of the old ones only revokedAt is ever filled in. */
  predicate Extends(w: World, w': World) {
    var rows, rows' := w.auth.refreshTokens, w'.auth.refreshTokens;
    && |w.parents| == |rows| <= |rows'| == |w'.parents|
    && w'.parents[..|rows|] == w.parents
    && w.auth.users.Keys <= w'.auth.users.Keys
    && forall i :: 0 <= i < |rows| ==>
                     rows'[i] == rows[i].(revokedAt := rows'[i].revokedAt) && (Live(rows'[i]) ==> Live(rows[i]))
  }

  /** One step of one request: at most one more row, and of the old ones only revokedAt filled in. */
  predicate Grows(auth: Auth, parents: seq<Option<nat>>, auth': Auth, parents': seq<Option<nat>>) {
    var rows, rows' := auth.refreshTokens, auth'.refreshTokens;
    && auth.users.Keys <= auth'.users.Keys
    && |rows| <= |rows'| && |parents| <= |parents'| && |rows'| - |rows| == |parents'| - |parents|
    && parents'[..|parents|] == parents
    && forall i :: 0 <= i < |rows| ==>
                     rows'[i] == rows[i].(revokedAt := rows'[i].revokedAt) && (Live(rows'[i]) ==> Live(rows[i]))
  }

  lemma SessionStepGrows(auth: Auth, parents: seq<Option<nat>>, thread: Thread, env: Env)
    requires thread.RefreshStarted? || thread.RefreshVerified? || thread.ReuseSeen? || thread.RowRead?
             || thread.UserRead? || thread.LogoutStarted? || thread.LogoutRowRead? || thread.BlacklistDue?
    ensures Next(auth, parents, thread, env).1 == parents
    ensures Grows(auth, parents, Next(auth, parents, thread, env).0, parents)
  {
    hide FindRefreshByHash, Verifies, NextAccount, BlacklistAccess;
  }

  lemma OtherStepGrows(auth: Auth, parents: seq<Option<nat>>, thread: Thread, env: Env)
    requires !thread.RefreshStarted? && !thread.RefreshVerified? && !thread.ReuseSeen? && !thread.RowRead?
    requires !thread.UserRead? && !thread.LogoutStarted? && !thread.LogoutRowRead? && !thread.BlacklistDue?
    ensures |parents| <= |Next(auth, parents, thread, env).1|
    ensures Grows(auth, parents, Next(auth, parents, thread, env).0, Next(auth, parents, thread, env).1)
  {
    hide SignAccess, SignRefresh, Sanitize, NextAccount;
  }

  lemma StepExtends(w: World, e: Event)
    requires Inv(w)
    ensures Extends(w, Apply(w, e))
  {
    hide GoodRow, GoodThread, DistinctClaims, Next;
    if e.Advance? && e.tid in w.threads {
      var t := w.threads[e.tid];
      if t.RefreshStarted? || t.RefreshVerified? || t.ReuseSeen? || t.RowRead? || t.UserRead? || t.LogoutStarted?
         || t.LogoutRowRead? || t.BlacklistDue?
      {
        SessionStepGrows(w.auth, w.parents, t, e.env);
      } else {
        OtherStepGrows(w.auth, w.parents, t, e.env);
      }
    }
  }

  /** The row a step may add at the end: a login's new family or a rotation. */
  predicate Adds(w: World, w': World, row: RefreshRow, parent: Option<nat>) {
    && w'.auth.refreshTokens == w.auth.refreshTokens + [row] && w'.parents == w.parents + [parent]
    && row.tokenHash.preimage.sub == row.userId && row.tokenHash.preimage.family == row.family
    && row.userId in w'.auth.users && Live(row)
    && (parent.Some? ==> HoldsRevokedRow(w, row.userId, parent.value, row.family))
    && (parent.None? ==> FreshFamily(w.auth, row.family))
  }

  /** A step whose request is about to store a row. */
  predicate Stores(w: World, e: Event) { e.Advance? && e.tid in w.threads && w.threads[e.tid].RowDue? }

  lemma StoreAdds(w: World, e: Event) returns (row: RefreshRow)
    requires Inv(w) && Stores(w, e)
    ensures Adds(w, Apply(w, e), row, w.threads[e.tid].parent)
    ensures row.family == w.threads[e.tid].family && row.userId == w.threads[e.tid].id
  {
    var t := w.threads[e.tid];
    assert GoodThread(w, t);
    row := RefreshRow(t.id, Digest(t.tokens.refresh), t.family, e.env.now + e.env.refreshTtl * 1000, None);
    hide HoldsRevokedRow, FreshFamily, GoodRow, DistinctClaims;
  }

  lemma OthersAddNothing(w: World, e: Event)
    requires !Stores(w, e)
    ensures |Apply(w, e).auth.refreshTokens| == |w.auth.refreshTokens| && Apply(w, e).parents == w.parents
  {
    hide FindRefreshByHash, Verifies, SignAccess, SignRefresh, Sanitize;
  }

  // --- rows stay good ---------------------------------------------------

  lemma GoodRowStays(w: World, w': World, i: nat)
    requires |w.parents| == |w.auth.refreshTokens| && i < |w.parents| && GoodRow(w, i) && Extends(w, w')
    ensures GoodRow(w', i)
  {
    assert w'.parents[i] == w.parents[i];
  }

  lemma AddedRowIsGood(w: World, w': World, row: RefreshRow, parent: Option<nat>)
    requires |w.parents| == |w.auth.refreshTokens| && Adds(w, w', row, parent)
    ensures GoodRow(w', |w.parents|)
  {
  }

  lemma RowsStayGood(w: World, e: Event)
    requires Inv(w)
    ensures Extends(w, Apply(w, e))
    ensures forall i :: 0 <= i < |Apply(w, e).parents| ==> GoodRow(Apply(w, e), i)
  {
    hide Apply, GoodRow, GoodThread, DistinctClaims;
    var w' := Apply(w, e);
    StepExtends(w, e);
    if Stores(w, e) {
      var row := StoreAdds(w, e);
      AddedRowIsGood(w, w', row, w.threads[e.tid].parent);
    } else {
      OthersAddNothing(w, e);
    }
    forall i | 0 <= i < |w'.parents| ensures GoodRow(w', i) {
      if i < |w.parents| { GoodRowStays(w, w', i); }
    }
  }

  // --- positions stay good ----------------------------------------------

  /** Every other step keeps a claimed family unused. */
  lemma ClaimStays(w: World, e: Event, tid: nat)
    requires Inv(w) && tid in w.threads && Claim(w.threads[tid]).Some? && !(e.Advance? && e.tid == tid)
    ensures FreshFamily(Apply(w, e).auth, w.threads[tid].family)
  {
    hide Apply, GoodRow;
    var rows, rows' := w.auth.refreshTokens, Apply(w, e).auth.refreshTokens;
    assert GoodThread(w, w.threads[tid]);
    StepExtends(w, e);
    if Stores(w, e) {
      var row := StoreAdds(w, e);
      assert row.family != w.threads[tid].family by {
        if w.threads[e.tid].parent.None? { assert Claim(w.threads[e.tid]) != Claim(w.threads[tid]); }
      }
    } else {
      OthersAddNothing(w, e);
    }
    forall i | 0 <= i < |rows'| ensures rows'[i].family != w.threads[tid].family {
      if i < |rows| { assert rows'[i].family == rows[i].family; }
    }
  }

  lemma GoodThreadStays(w: World, w': World, thread: Thread)
    requires GoodThread(w, thread) && Extends(w, w')
    requires Claim(thread).Some? ==> FreshFamily(w'.auth, thread.family)
    ensures GoodThread(w', thread)
  {
    hide FreshFamily;
  }

  lemma LookupIsGood(w: World, tid: nat, env: Env)
    requires Inv(w) && tid in w.threads && w.threads[tid].RefreshVerified?
    ensures GoodThread(Apply(w, Advance(tid, env)), Apply(w, Advance(tid, env)).threads[tid])
  {
    var token := w.threads[tid].token;
    var found := FindRefreshByHash(w.auth.refreshTokens, Digest(token));
    if found.Some? {
      assert GoodRow(w, found.value);
      assert w.auth.refreshTokens[found.value].tokenHash.preimage == token;
    }
    hide FindRefreshByHash, GoodRow, DistinctClaims;
  }

  lemma SigningIsGood(w: World, tid: nat, env: Env)
    requires Inv(w) && FreshEvent(w, Advance(tid, env)) && tid in w.threads && w.threads[tid].TokensDue?
    ensures GoodThread(Apply(w, Advance(tid, env)), Apply(w, Advance(tid, env)).threads[tid])
  {
    assert GoodThread(w, w.threads[tid]);
    hide GoodRow, DistinctClaims, SignAccess, Sanitize;
  }

  lemma NewPositionIsGood(w: World, tid: nat, env: Env)
    requires Inv(w) && FreshEvent(w, Advance(tid, env)) && tid in w.threads
    ensures GoodThread(Apply(w, Advance(tid, env)), Apply(w, Advance(tid, env)).threads[tid])
  {
    if w.threads[tid].RefreshVerified? {
      LookupIsGood(w, tid, env);
    } else if w.threads[tid].TokensDue? {
      SigningIsGood(w, tid, env);
    } else {
      assert GoodThread(w, w.threads[tid]);
      assert w.threads[tid].UserRead? ==> w.threads[tid].id in w.auth.users by {
        if w.threads[tid].UserRead? { assert GoodRow(w, w.threads[tid].row); }
      }
      hide FindRefreshByHash, Verifies, GoodRow, DistinctClaims, SignAccess, SignRefresh, Sanitize, FreshFamily;
      hide NextAccount, BlacklistAccess;
    }
  }

  lemma ThreadsMoveAlone(w: World, e: Event, tid: nat)
    requires tid in Apply(w, e).threads
    ensures var after := Apply(w, e).threads[tid];
            || (tid in w.threads && after == w.threads[tid])
            || (e.Advance? && e.tid == tid && tid in w.threads)
            || IsStart(after)
  {
    hide Next;
  }

  lemma PositionsStayGood(w: World, e: Event, tid: nat)
    requires Inv(w) && FreshEvent(w, e) && tid in Apply(w, e).threads
    ensures GoodThread(Apply(w, e), Apply(w, e).threads[tid])
  {
    hide Apply, GoodRow, DistinctClaims, Next;
    ThreadsMoveAlone(w, e, tid);
    StepExtends(w, e);
    if e.Advance? && e.tid == tid && tid in w.threads {
      NewPositionIsGood(w, tid, e.env);
    } else if tid in w.threads && Apply(w, e).threads[tid] == w.threads[tid] {
      if Claim(w.threads[tid]).Some? { ClaimStays(w, e, tid); }
      GoodThreadStays(w, Apply(w, e), w.threads[tid]);
    }
  }

  lemma NewClaim(w: World, tid: nat, env: Env)
    requires FreshEvent(w, Advance(tid, env)) && tid in w.threads
    ensures var claim := Claim(Apply(w, Advance(tid, env)).threads[tid]);
            claim.Some? ==> forall t :: t in w.threads ==> Claim(w.threads[t]) != claim
  {
    hide FindRefreshByHash, Verifies, SignAccess, SignRefresh, Sanitize, FreshFamily;
  }

  lemma ClaimsStayDistinct(w: World, e: Event)
    requires Inv(w) && FreshEvent(w, e)
    ensures DistinctClaims(Apply(w, e).threads)
  {
    hide Apply, GoodRow, GoodThread, Next, FreshEvent;
    var threads := Apply(w, e).threads;
    if e.Advance? && e.tid in w.threads { NewClaim(w, e.tid, e.env); }
    forall s, t | s in threads && t in threads && s != t && Claim(threads[s]).Some?
      ensures Claim(threads[s]) != Claim(threads[t])
    {
      ThreadsMoveAlone(w, e, s);
      ThreadsMoveAlone(w, e, t);
    }
  }

  lemma StepKeepsInv(w: World, e: Event)
    requires Inv(w) && FreshEvent(w, e)
    ensures Inv(Apply(w, e)) && Extends(w, Apply(w, e))
  {
    hide Apply, GoodRow, GoodThread, DistinctClaims, FreshEvent;
    RowsStayGood(w, e);
    forall tid | tid in Apply(w, e).threads ensures GoodThread(Apply(w, e), Apply(w, e).threads[tid]) {
      PositionsStayGood(w, e, tid);
    }
    ClaimsStayDistinct(w, e);
  }

  lemma ExtendsTransitively(w: World, w1: World, w2: World)
    requires Extends(w, w1) && Extends(w1, w2)
    ensures Extends(w, w2)
  {
    assert w2.parents[..|w.parents|] == w1.parents[..|w.parents|];
  }

  /** In every interleaving: the invariant holds, and no revocation is ever undone. */
  lemma {:induction false} RunKeepsInv(w: World, events: seq<Event>)
    requires Inv(w) && FreshEvents(w, events)
    ensures Inv(RunEvents(w, events)) && Extends(w, RunEvents(w, events))
    decreases |events|
  {
    hide Apply, Inv, Extends, FreshEvent;
    if events != [] {
      var w1 := Apply(w, events[0]);
      StepKeepsInv(w, events[0]);
      RunKeepsInv(w1, events[1..]);
      ExtendsTransitively(w, w1, RunEvents(w, events));
    } else {
      assert Extends(w, w) by { ExtendsItself(w); }
    }
  }

  lemma ExtendsItself(w: World)
    requires Inv(w)
    ensures Extends(w, w)
  {
  }

  // --- the expired answer -----------------------------------------------

  /**
   * The clock is read again after the row lookup, so a token can be found expired although its
   * signature check passed: exactly when an unrevoked row is found whose expiry is before that clock.
   */
  lemma ExpiredExactlyWhen(auth: Auth, parents: seq<Option<nat>>, thread: Thread, env: Env)
    requires !thread.Finished?
    ensures Next(auth, parents, thread, env).2 == Finished(Err(RefreshExpired))
            <==> && thread.RefreshVerified?
                 && var found := FindRefreshByHash(auth.refreshTokens, Digest(thread.token));
                    found.Some? && Live(auth.refreshTokens[found.value])
                    && auth.refreshTokens[found.value].expiresAt < env.now
  {
    hide FindRefreshByHash, Verifies, SignAccess, SignRefresh, Sanitize;
  }

  /** For a row that outlives its token this takes the clock passing `exp` between the two steps. */
  lemma ExpiredTakesTime(auth: Auth, token: RefreshJwt, checked: Env, later: Auth, parents: seq<Option<nat>>, read: Env)
    requires Verifies(auth, token, checked.now)
    requires forall i :: 0 <= i < |later.refreshTokens| && later.refreshTokens[i].tokenHash == Digest(token) ==>
                           token.exp * 1000 <= later.refreshTokens[i].expiresAt
    requires Next(later, parents, RefreshVerified(token), read).2 == Finished(Err(RefreshExpired))
    ensures checked.now < token.exp * 1000 < read.now
  {
    hide FindRefreshByHash;
  }
}
