// Runs that show what interleaving can do: the live bound is reached, and a token
// expires between the signature check and the row lookup.
module RotationWitness {
  import opened Wrappers
  import opened Tables
  import opened Schema
  import opened AuthSpec
  import opened Forests
  import opened RotationSteps
  import opened RotationTheorems

  const HOUR: nat := 3600

  function At(now: Millis, jti: Id): Env { Env(now, HOUR, HOUR, HOUR, "a", jti, 0, 0) }

  function OnlyUser(): Owned<User> {
    Owned(OrgId("org"), User("u@x", Digest("pw"), None, None, None, OWNER, true, true, None))
  }

  /** One active user, just logged in: family 0 with its one live row. */
  function LoggedIn(): World {
    var auth := Auth(map[0 := OnlyUser()], [], [], {}, map[]);
    var (auth', tokens) := IssueAndPersist(auth, 0, 0, At(0, 0));
    World(auth', [None], map[])
  }

  function FirstToken(): RefreshJwt { SignRefresh(0, 0, At(0, 0)) }

  lemma FirstTokenFound()
    ensures FindRefreshByHash(LoggedIn().auth.refreshTokens, Digest(FirstToken())) == Some(0)
  {
    var rows := LoggedIn().auth.refreshTokens;
    assert rows[..0] == [];
    assert FindRefreshByHash(rows[..0], Digest(FirstToken())).None?;
  }

  // --- expired between two steps ----------------------------------------

  /** Checked a millisecond before its hour is over, looked up a millisecond after. */
  function TooLate(): seq<Event> {
    [Spawn(0, RefreshStarted(FirstToken())), Advance(0, At(3599999, 0)), Advance(0, At(3600001, 0))]
  }

  /** The "expired" answer does occur once requests are taken apart at their awaits. */
  lemma ExpiredIsReached()
    ensures Inv(LoggedIn()) && FreshEvents(LoggedIn(), TooLate())
    ensures RunEvents(LoggedIn(), TooLate()).threads[0 := Finished(Err(RefreshExpired))]
            == RunEvents(LoggedIn(), TooLate()).threads
  {
    var w, e := LoggedIn(), TooLate();
    FirstTokenFound();
    RunThree(w, e[0], e[1], e[2]);
    var w1 := Apply(w, e[0]);
    assert w1 == w.(threads := map[0 := RefreshStarted(FirstToken())]);
    var w2 := Apply(w1, e[1]);
    assert w2.threads[0] == RefreshVerified(FirstToken()) && w2.auth == w.auth;
    hide FindRefreshByHash;
    assert Apply(w2, e[2]).threads[0] == Finished(Err(RefreshExpired));
  }

  // --- the bound is attained --------------------------------------------

  /** Refresh number `tid` up to the point where it has read row and user. */
  function ReadPhase(tid: nat): seq<Event> {
    [Spawn(tid, RefreshStarted(FirstToken())), Advance(tid, At(0, 0)), Advance(tid, At(0, 0)), Advance(tid, At(0, 0))]
  }

  /** The rest of it: revoke the row, sign, store the successor. */
  function WritePhase(tid: nat): seq<Event> {
    [Advance(tid, At(0, 0)), Advance(tid, At(0, tid + 1)), Advance(tid, At(0, 0))]
  }

  function ReadAll(k: nat): seq<Event> { if k == 0 then [] else ReadAll(k - 1) + ReadPhase(k - 1) }

  function WriteAll(k: nat): seq<Event> { if k == 0 then [] else WriteAll(k - 1) + WritePhase(k - 1) }

  ghost predicate AllHaveRead(w: World, k: nat) {
    && w.auth == LoggedIn().auth && w.parents == [None]
    && forall tid: nat :: (tid < k ==> tid in w.threads && w.threads[tid] == UserRead(0, OnlyUser(), 0, 0))
                          && (tid >= k ==> tid !in w.threads)
  }

  /** The token's row 0 is live and its user active, so a refresh reads through. */
  predicate ReadsThrough(auth: Auth, token: RefreshJwt) {
    && Verifies(auth, token, 0)
    && FindRefreshByHash(auth.refreshTokens, Digest(token)) == Some(0)
    && auth.refreshTokens[0].revokedAt.None? && auth.refreshTokens[0].family == 0
    && token.sub == 0 && 0 in auth.users && auth.users[0] == OnlyUser()
  }

  lemma FirstTokenReadsThrough()
    ensures ReadsThrough(LoggedIn().auth, FirstToken())
  {
    FirstTokenFound();
    hide FindRefreshByHash;
  }

  lemma ReadPhaseReads(w: World, tid: nat)
    requires tid !in w.threads && ReadsThrough(w.auth, FirstToken())
    ensures FreshEvents(w, ReadPhase(tid))
    ensures RunEvents(w, ReadPhase(tid)) == w.(threads := w.threads[tid := UserRead(0, OnlyUser(), 0, 0)])
  {
    hide FindRefreshByHash, FirstToken;
    var e := ReadPhase(tid);
    RunFour(w, e[0], e[1], e[2], e[3]);
    var w1 := Apply(w, e[0]);
    assert w1 == w.(threads := w.threads[tid := RefreshStarted(FirstToken())]);
    var w2 := Apply(w1, e[1]);
    assert w2 == w.(threads := w.threads[tid := RefreshVerified(FirstToken())]);
    var w3 := Apply(w2, e[2]);
    assert w3 == w.(threads := w.threads[tid := RowRead(FirstToken(), 0, 0)]);
    var w4 := Apply(w3, e[3]);
    assert w4 == w.(threads := w.threads[tid := UserRead(0, OnlyUser(), 0, 0)]);
  }

  lemma {:induction false} ReadersDoNotWrite(k: nat)
    ensures FreshEvents(LoggedIn(), ReadAll(k))
    ensures AllHaveRead(RunEvents(LoggedIn(), ReadAll(k)), k)
  {
    hide LoggedIn, ReadsThrough, FreshEvents, ReadPhase, OnlyUser;
    if k > 0 {
      var w := RunEvents(LoggedIn(), ReadAll(k - 1));
      ReadersDoNotWrite(k - 1);
      RunAppend(LoggedIn(), ReadAll(k - 1), ReadPhase(k - 1));
      FirstTokenReadsThrough();
      ReadPhaseReads(w, k - 1);
      hide RunEvents;
    } else {
      assert FreshEvents(LoggedIn(), []) && AllHaveRead(RunEvents(LoggedIn(), []), 0) by { NobodyHasRead(); }
    }
  }

  lemma NobodyHasRead()
    ensures FreshEvents(LoggedIn(), []) && AllHaveRead(RunEvents(LoggedIn(), []), 0)
  {
  }

  /** After k writers: the first row, revoked from the first writer on, and k live rotations of it. */
  predicate BranchedRows(rows: seq<RefreshRow>, k: nat) {
    && |rows| == k + 1 && rows[0].family == 0 && (Live(rows[0]) <==> k == 0)
    && forall i :: 1 <= i <= k ==> rows[i].family == 0 && Live(rows[i])
  }

  predicate BranchedParents(parents: seq<Option<nat>>, k: nat) {
    |parents| == k + 1 && parents[0].None? && forall i :: 1 <= i <= k ==> parents[i] == Some(0)
  }

  predicate Waiting(threads: map<nat, Thread>, k: nat, n: nat) {
    forall tid :: k <= tid < n ==> tid in threads && threads[tid] == UserRead(0, OnlyUser(), 0, 0)
  }

  predicate Branched(w: World, k: nat, n: nat) {
    && BranchedRows(w.auth.refreshTokens, k) && BranchedParents(w.parents, k) && Waiting(w.threads, k, n)
    && 0 in w.auth.users
  }

  lemma RevokeStep(w: World, tid: nat, user: Owned<User>, env: Env)
    requires tid in w.threads && w.threads[tid] == UserRead(0, user, 0, 0) && |w.auth.refreshTokens| > 0
    ensures Apply(w, Advance(tid, env))
            == World(WithRows(w.auth, RevokeRefreshToken(w.auth.refreshTokens, 0, env.now)), w.parents,
                     w.threads[tid := TokensDue(0, user, Some(Rotation(0, 0)))])
  {
  }

  lemma SignStep(w: World, tid: nat, user: Owned<User>, env: Env) returns (tokens: Tokens)
    requires tid in w.threads && w.threads[tid] == TokensDue(0, user, Some(Rotation(0, 0)))
    ensures Apply(w, Advance(tid, env))
            == World(w.auth.(signed := w.auth.signed + {tokens.refresh}), w.parents,
                     w.threads[tid := RowDue(0, 0, Some(0), None, tokens)])
  {
    tokens := Tokens(SignAccess(0, user, env), SignRefresh(0, 0, env));
  }

  lemma StoreStep(w: World, tid: nat, tokens: Tokens, env: Env) returns (row: RefreshRow)
    requires tid in w.threads && w.threads[tid] == RowDue(0, 0, Some(0), None, tokens) && 0 in w.auth.users
    ensures row.family == 0 && Live(row)
    ensures Apply(w, Advance(tid, env))
            == World(WithRows(w.auth, w.auth.refreshTokens + [row]), w.parents + [Some(0)],
                     w.threads[tid := Finished(Ok(Issued(None, tokens)))])
  {
    row := RefreshRow(0, Digest(tokens.refresh), 0, env.now + env.refreshTtl * 1000, None);
  }

  /** One more reader writes: the first row is revoked once more and gets one more rotation. */
  lemma WritePhaseBranches(w: World, k: nat, n: nat)
    requires Branched(w, k, n) && k < n
    ensures FreshEvents(w, WritePhase(k))
    ensures Branched(RunEvents(w, WritePhase(k)), k + 1, n)
  {
    hide OnlyUser;
    var e := WritePhase(k);
    RunThree(w, e[0], e[1], e[2]);
    RevokeStep(w, k, OnlyUser(), At(0, 0));
    var w1 := Apply(w, e[0]);
    assert FreshEvent(w, e[0]);
    var tokens := SignStep(w1, k, OnlyUser(), At(0, k + 1));
    var w2 := Apply(w1, e[1]);
    assert FreshEvent(w1, e[1]);
    var row := StoreStep(w2, k, tokens, At(0, 0));
    assert FreshEvent(w2, e[2]);
    hide Apply, RunEvents, FreshEvents, FreshEvent, At;
    assert BranchedRows(w.auth.refreshTokens[0 := w.auth.refreshTokens[0].(revokedAt := Some(0))] + [row], k + 1);
    assert BranchedParents(w.parents + [Some(0)], k + 1);
  }

  lemma NobodyHasWritten(w: World, n: nat)
    requires AllHaveRead(w, n)
    ensures FreshEvents(w, WriteAll(0)) && Branched(RunEvents(w, WriteAll(0)), 0, n)
  {
  }

  lemma {:induction false} WritersBranch(w: World, k: nat, n: nat)
    requires AllHaveRead(w, n) && k <= n
    ensures FreshEvents(w, WriteAll(k))
    ensures Branched(RunEvents(w, WriteAll(k)), k, n)
  {
    hide Branched, WritePhase, AllHaveRead, FreshEvents, RunEvents;
    if k > 0 {
      WritersBranch(w, k - 1, n);
      RunAppend(w, WriteAll(k - 1), WritePhase(k - 1));
      WritePhaseBranches(RunEvents(w, WriteAll(k - 1)), k - 1, n);
    } else {
      NobodyHasWritten(w, n);
    }
  }

  lemma {:induction false} BranchedCounts(w: World, k: nat, n: nat, m: nat)
    requires Branched(w, k, n) && m <= k
    ensures LiveCount(w.auth.refreshTokens[..m + 1], 0) == m + (if k == 0 then 1 else 0)
    ensures Children(Nodes(w)[..m + 1], 0) == m
  {
    var rows, ns := w.auth.refreshTokens, Nodes(w);
    assert rows[..m + 1][..m] == rows[..m] && ns[..m + 1][..m] == ns[..m];
    if m > 0 {
      BranchedCounts(w, k, n, m - 1);
    } else {
      assert LiveCount(rows[..0], 0) == 0 && Children(ns[..0], 0) == 0;
    }
  }

  lemma {:induction false} OnlyRootBranches(ns: seq<Node>, p: nat)
    requires 0 < p && forall i :: 0 <= i < |ns| ==> ns[i].parent.None? || ns[i].parent == Some(0)
    ensures Children(ns, p) == 0
  {
    if ns != [] { OnlyRootBranches(ns[..|ns| - 1], p); }
  }

  lemma {:induction false} BranchingOf(ns: seq<Node>, n: nat)
    requires 0 < n <= |ns| && ns[0].tree == 0 && forall p: nat :: 0 < p ==> Children(ns, p) == 0
    ensures Branching(ns, 0, n) == if Children(ns, 0) > 0 then Children(ns, 0) - 1 else 0
  {
    if n > 1 { BranchingOf(ns, n - 1); } else { assert Branching(ns, 0, 0) == 0; }
  }

  lemma LoggedInIsGood()
    ensures Inv(LoggedIn())
  {
    assert GoodRow(LoggedIn(), 0);
  }

  /** For every k >= 1 some interleaving of k refreshes of one token leaves k live tokens: LiveBound is tight. */
  lemma BoundAttained(k: nat) returns (events: seq<Event>, w: World)
    requires k > 0
    ensures Inv(LoggedIn()) && FreshEvents(LoggedIn(), events) && w == RunEvents(LoggedIn(), events)
    ensures Inv(w) && LiveCount(w.auth.refreshTokens, 0) == k == 1 + Branching(Nodes(w), 0, |w.parents|)
  {
    LoggedInIsGood();
    hide Inv, FreshEvents, LoggedIn, AllHaveRead;
    events := ReadAll(k) + WriteAll(k);
    ReadersDoNotWrite(k);
    var w0 := RunEvents(LoggedIn(), ReadAll(k));
    WritersBranch(w0, k, k);
    RunAppend(LoggedIn(), ReadAll(k), WriteAll(k));
    w := RunEvents(LoggedIn(), events);
    RunKeepsInv(LoggedIn(), events);
    hide RunEvents, Extends;
    BranchedCounts(w, k, k, k);
    assert w.auth.refreshTokens[..k + 1] == w.auth.refreshTokens && Nodes(w)[..k + 1] == Nodes(w);
    forall p: nat | 0 < p ensures Children(Nodes(w), p) == 0 { OnlyRootBranches(Nodes(w), p); }
    BranchingOf(Nodes(w), k + 1);
  }
}
