// Where OWNER comes from. A caller's organization and role are those of its access
// token, written when the token was issued; the user row may have changed since.
module Roles {
  import opened Wrappers
  import opened Tables
  import opened Schema
  import opened AuthSpec
  import AccessTokens
  import Crm
  import Redis
  import S = StoreSpec

  // The auth state together with every access token issued and every organization
  // registered so far.
  datatype System = System(auth: Auth, issued: set<AccessJwt>, orgs: set<OrgId>)

  datatype Event =
    | AuthEvent(call: Call)
    | RoleChange(token: AccessJwt, user: Id, role: Role, now: Millis)

  /** TenantGuard: the context is hydrated from the token's payload. */
  function Hydrate(token: AccessJwt): Crm.Ctx { Crm.Ctx(token.sub, token.org, token.role) }

  predicate Authenticated(w: System, token: AccessJwt, now: Millis) {
    token in w.issued && AccessTokens.Accepts(w.auth.blacklist, token, now)
  }

  function Next(w: System, e: Event): System {
    match e
    case AuthEvent(call) =>
      var (auth, reply) := Serve(w.auth, call);
      System(auth, if reply.Ok? && reply.value.Issued? then w.issued + {reply.value.tokens.access} else w.issued,
             if call.request.RegisterReq? then w.orgs + {call.request.org} else w.orgs)
    case RoleChange(token, user, role, now) =>
      if !Authenticated(w, token, now) then w
      else w.(auth := w.auth.(users := S.ChangeRole(w.auth.users, Hydrate(token), user, role).0))
  }

  /** The system after the first `n` events. */
  function At(w: System, es: seq<Event>, n: nat): System
    requires n <= |es|
  {
    if n == 0 then w else Next(At(w, es, n - 1), es[n - 1])
  }

  predicate IsOwner(users: Table<User>, org: OrgId, id: Id) {
    id in users && users[id].org == org && users[id].row.role == OWNER
  }

  predicate Registers(e: Event, org: OrgId) {
    e.AuthEvent? && e.call.request.RegisterReq? && e.call.request.org == org
  }

  /** OWNER handed to `id` on the strength of an accepted OWNER token of the same organization. */
  predicate Promotes(w: System, e: Event, org: OrgId, id: Id) {
    && e.RoleChange? && e.user == id && e.role == OWNER
    && Authenticated(w, e.token, e.now) && e.token.org == org && e.token.role == OWNER
  }

  lemma ServeHandsOutNoRoles(s: Auth, call: Call, org: OrgId, id: Id)
    requires !IsOwner(s.users, org, id) && IsOwner(Serve(s, call).0.users, org, id)
    ensures call.request.RegisterReq? && call.request.org == org && call.request.id == id
  {
    hide FindRefreshByHash, FindVerification, Verifies, RevokeFamily;
  }

  /** A member becomes an owner exactly by promotion, anyone else exactly by registering the organization. */
  lemma OwnersAreMade(w: System, e: Event, org: OrgId, id: Id)
    requires !IsOwner(w.auth.users, org, id)
    ensures IsOwner(Next(w, e).auth.users, org, id)
            <==> || (Promotes(w, e, org, id) && OwnedBy(w.auth.users, org, id))
                 || (Registers(e, org) && e.call.request.id == id)
  {
    hide AccessTokens.Accepts;
    if e.AuthEvent? {
      if IsOwner(Next(w, e).auth.users, org, id) {
        hide Serve;
        ServeHandsOutNoRoles(w.auth, e.call, org, id);
      }
    }
  }

  /** A new token says OWNER exactly when its user is an owner of its organization. */
  lemma TokensTellTheTruth(w: System, e: Event, token: AccessJwt)
    requires token !in w.issued && token in Next(w, e).issued
    ensures token.role == OWNER <==> IsOwner(Next(w, e).auth.users, token.org, token.sub)
    ensures e.AuthEvent? && (e.call.request.RegisterReq? ==> token.org == e.call.request.org)
    ensures !e.call.request.RegisterReq? ==>
              (token.role == OWNER <==> IsOwner(w.auth.users, token.org, token.sub))
    ensures token.exp == Seconds(e.call.env.now) + e.call.env.accessTtl
  {
    hide FindRefreshByHash, FindVerification, Verifies, RevokeFamily, AccessTokens.Accepts;
  }

  // --- lineage over runs ------------------------------------------------

  /** The `i`-th event issued the token, to a user who was then an owner. */
  predicate IssuedToOwner(w: System, es: seq<Event>, i: nat, token: AccessJwt)
    requires i < |es|
  {
    && token !in At(w, es, i).issued && token in At(w, es, i + 1).issued
    && IsOwner(At(w, es, i + 1).auth.users, token.org, token.sub)
  }

  /** The token was outstanding from the start, or an earlier event of the run issued it to an owner. */
  ghost predicate FromAnOwner(w: System, es: seq<Event>, n: nat, token: AccessJwt)
    requires n <= |es|
  {
    token in w.issued || exists i: nat :: i < n && IssuedToOwner(w, es, i, token)
  }

  lemma {:induction false} OwnerTokensComeFromOwners(w: System, es: seq<Event>, n: nat, token: AccessJwt)
    requires n <= |es| && token in At(w, es, n).issued && token.role == OWNER
    ensures FromAnOwner(w, es, n, token)
  {
    hide Next;
    if n > 0 {
      if token in At(w, es, n - 1).issued {
        OwnerTokensComeFromOwners(w, es, n - 1, token);
      } else {
        TokensTellTheTruth(At(w, es, n - 1), es[n - 1], token);
        assert IssuedToOwner(w, es, n - 1, token);
      }
    }
  }

  /** The `j`-th event is what made `id` an owner of `org`, and its token goes back to an owner. */
  ghost predicate MadeOwnerAt(w: System, es: seq<Event>, j: nat, org: OrgId, id: Id)
    requires j < |es|
  {
    || (Promotes(At(w, es, j), es[j], org, id) && FromAnOwner(w, es, j, es[j].token))
    || (Registers(es[j], org) && es[j].call.request.id == id)
  }

  /**
   * Whoever gains OWNER during a run registered the organization or was promoted through a token
   * of that organization whose user was an owner when it was issued.
   */
  lemma {:induction false} OwnerLineage(w: System, es: seq<Event>, n: nat, org: OrgId, id: Id)
    requires n <= |es|
    requires !IsOwner(w.auth.users, org, id) && IsOwner(At(w, es, n).auth.users, org, id)
    ensures exists j: nat :: j < n && MadeOwnerAt(w, es, j, org, id)
  {
    hide Next, FromAnOwner, Registers;
    if IsOwner(At(w, es, n - 1).auth.users, org, id) {
      OwnerLineage(w, es, n - 1, org, id);
    } else {
      OwnersAreMade(At(w, es, n - 1), es[n - 1], org, id);
      if Promotes(At(w, es, n - 1), es[n - 1], org, id) {
        OwnerTokensComeFromOwners(w, es, n - 1, es[n - 1].token);
      }
      assert MadeOwnerAt(w, es, n - 1, org, id);
    }
  }

  // --- an organization without owners -----------------------------------

  function TimeOf(e: Event): Millis { if e.AuthEvent? then e.call.env.now else e.now }

  predicate Chronological(es: seq<Event>, from: Millis) {
    && (forall i :: 0 <= i < |es| ==> from <= TimeOf(es[i]))
    && forall i, j :: 0 <= i < j < |es| ==> TimeOf(es[i]) <= TimeOf(es[j])
  }

  /** No owner, and no OWNER token that is still unexpired at `now`. */
  ghost predicate Ownerless(w: System, org: OrgId, now: Millis) {
    && (forall id :: id in w.auth.users ==> !IsOwner(w.auth.users, org, id))
    && forall t :: t in w.issued && t.org == org && t.role == OWNER ==> t.exp <= Seconds(now)
  }

  lemma StaysOwnerless(w: System, e: Event, org: OrgId, now: Millis)
    requires Ownerless(w, org, now) && now <= TimeOf(e) && !Registers(e, org)
    ensures Ownerless(Next(w, e), org, now)
  {
    hide Next;
    assert Seconds(now) <= Seconds(TimeOf(e));
    forall id | id in Next(w, e).auth.users ensures !IsOwner(Next(w, e).auth.users, org, id) {
      if IsOwner(Next(w, e).auth.users, org, id) {
        OwnersAreMade(w, e, org, id);
      }
    }
    forall t | t in Next(w, e).issued && t.org == org && t.role == OWNER ensures t.exp <= Seconds(now) {
      if t !in w.issued { TokensTellTheTruth(w, e, t); } else { assert t in w.issued; }
    }
  }

  /** A registration creates its organization under an id never used before. */
  predicate FreshOrgs(w: System, es: seq<Event>) {
    forall i :: 0 <= i < |es| && es[i].AuthEvent? && es[i].call.request.RegisterReq? ==>
                  es[i].call.request.org !in At(w, es, i).orgs
  }

  lemma OrgsGrow(w: System, e: Event, org: OrgId)
    ensures org in Next(w, e).orgs <==> org in w.orgs || Registers(e, org)
  {
    hide Serve, AccessTokens.Accepts;
  }

  /** An organization without owners and without unexpired OWNER tokens never has an owner again. */
  lemma {:induction false} OwnerlessForGood(w: System, es: seq<Event>, n: nat, org: OrgId, now: Millis)
    requires n <= |es| && Ownerless(w, org, now) && Chronological(es, now)
    requires org in w.orgs && FreshOrgs(w, es)
    ensures Ownerless(At(w, es, n), org, now) && org in At(w, es, n).orgs
  {
    hide Next, Ownerless;
    if n > 0 {
      OwnerlessForGood(w, es, n - 1, org, now);
      OrgsGrow(At(w, es, n - 1), es[n - 1], org);
      assert !Registers(es[n - 1], org);
      StaysOwnerless(At(w, es, n - 1), es[n - 1], org, now);
    }
  }

  // --- when an owner can return -----------------------------------------

  ghost predicate HasOwner(users: Table<User>, org: OrgId) { exists id :: id in users && IsOwner(users, org, id) }

  ghost predicate HasMember(users: Table<User>, org: OrgId) { exists id :: id in users && OwnedBy(users, org, id) }

  predicate IsOwnerToken(w: System, token: AccessJwt, org: OrgId) {
    token in w.issued && token.org == org && token.role == OWNER
  }

  /** An issued OWNER token of the organization is accepted now or at some later time. */
  ghost predicate HasPower(w: System, org: OrgId, now: Millis) {
    exists token, t: Millis ::
      now <= t && IsOwnerToken(w, token, org) && AccessTokens.Accepts(w.auth.blacklist, token, t)
  }

  /** Every entry of the blacklist was written by now, with the one configured lifetime. */
  predicate WrittenWithin(blacklist: Redis.Store<string>, now: Millis, ttl: nat) {
    forall key :: key in blacklist ==>
                    blacklist[key].expiresAt.Some? && blacklist[key].expiresAt.value <= now + ttl * 1000
  }

  predicate Configured(es: seq<Event>, ttl: nat) {
    forall e :: e in es && e.AuthEvent? ==> e.call.env.refreshTtl == ttl
  }

  /** No owner, and nobody to make one of or nobody with the power to. */
  ghost predicate Stuck(w: System, org: OrgId, now: Millis, ttl: nat) {
    && !HasOwner(w.auth.users, org) && !(HasMember(w.auth.users, org) && HasPower(w, org, now))
    && WrittenWithin(w.auth.blacklist, now, ttl)
  }

  /** What a request does to the blacklist: nothing, or one entry with the configured lifetime. */
  ghost predicate Marks(blacklist: Redis.Store<string>, blacklist': Redis.Store<string>, ttl: nat, now: Millis) {
    || blacklist' == blacklist
    || exists jti: string :: blacklist' == Redis.SetEx(blacklist, Redis.BlacklistKey(jti), "1", ttl, now)
  }

  lemma EventMarks(w: System, e: Event, ttl: nat)
    requires e.AuthEvent? ==> e.call.env.refreshTtl == ttl
    ensures Marks(w.auth.blacklist, Next(w, e).auth.blacklist, ttl, TimeOf(e))
  {
    hide FindRefreshByHash, FindVerification, Verifies, RevokeFamily, AccessTokens.Accepts;
    if e.AuthEvent? && e.call.request.LogoutReq? && e.call.request.accessJti.Some? {
      var jti := e.call.request.accessJti.value;
      assert jti == ""
          || Next(w, e).auth.blacklist == Redis.SetEx(w.auth.blacklist, Redis.BlacklistKey(jti), "1", ttl, TimeOf(e));
    }
  }

  /** Under one configured lifetime a mark is only ever prolonged, so no token regains acceptance. */
  lemma MarksOnlyProlong(blacklist: Redis.Store<string>, blacklist': Redis.Store<string>, ttl: nat, before: Millis,
                         now: Millis, token: AccessJwt, t: Millis)
    requires WrittenWithin(blacklist, before, ttl) && Marks(blacklist, blacklist', ttl, now) && before <= now <= t
    ensures WrittenWithin(blacklist', now, ttl)
    ensures AccessTokens.Accepts(blacklist', token, t) ==> AccessTokens.Accepts(blacklist, token, t)
  {
    hide Redis.BlacklistKey;
  }

  lemma NoNewMember(w: System, e: Event, org: OrgId)
    requires !Registers(e, org) && HasMember(Next(w, e).auth.users, org)
    ensures HasMember(w.auth.users, org)
  {
    hide FindRefreshByHash, FindVerification, Verifies, RevokeFamily, AccessTokens.Accepts;
    var id :| id in Next(w, e).auth.users && OwnedBy(Next(w, e).auth.users, org, id);
    assert id in w.auth.users && OwnedBy(w.auth.users, org, id);
  }

  lemma StaysStuck(w: System, e: Event, org: OrgId, before: Millis, ttl: nat)
    requires Stuck(w, org, before, ttl) && before <= TimeOf(e) && !Registers(e, org)
    requires e.AuthEvent? ==> e.call.env.refreshTtl == ttl
    ensures Stuck(Next(w, e), org, TimeOf(e), ttl)
  {
    hide Next, Marks, WrittenWithin, AccessTokens.Accepts, OwnedBy;
    var w', now := Next(w, e), TimeOf(e);
    EventMarks(w, e, ttl);
    MarksOnlyProlong(w.auth.blacklist, w'.auth.blacklist, ttl, before, now, AnyToken(org), now);
    forall id | id in w'.auth.users ensures !IsOwner(w'.auth.users, org, id) {
      if IsOwner(w'.auth.users, org, id) { OwnerTakesPower(w, e, org, id, before); }
    }
    assert !HasOwner(w'.auth.users, org);
    if HasMember(w'.auth.users, org) { NoNewMember(w, e, org); }
    if HasPower(w', org, now) { NoNewPower(w, e, org, before, ttl); }
  }

  /** Without an owner to sign a new token for, whoever has the power after the event had it before. */
  lemma NoNewPower(w: System, e: Event, org: OrgId, before: Millis, ttl: nat)
    requires WrittenWithin(w.auth.blacklist, before, ttl) && before <= TimeOf(e)
    requires Marks(w.auth.blacklist, Next(w, e).auth.blacklist, ttl, TimeOf(e))
    requires !HasOwner(Next(w, e).auth.users, org) && HasPower(Next(w, e), org, TimeOf(e))
    ensures HasPower(w, org, before)
  {
    hide Next, Marks, WrittenWithin, AccessTokens.Accepts, HasOwner;
    var w', now := Next(w, e), TimeOf(e);
    var token, t: Millis :|
      now <= t && IsOwnerToken(w', token, org) && AccessTokens.Accepts(w'.auth.blacklist, token, t);
    MarksOnlyProlong(w.auth.blacklist, w'.auth.blacklist, ttl, before, now, token, t);
    assert token in w.issued by { if token !in w.issued { NewPowerTakesOwner(w, e, token); } }
    assert IsOwnerToken(w, token, org);
  }

  function AnyToken(org: OrgId): AccessJwt { AccessJwt(0, org, AGENT, "", "", 0) }

  lemma OwnerTakesPower(w: System, e: Event, org: OrgId, id: Id, before: Millis)
    requires before <= TimeOf(e) && !Registers(e, org)
    requires !IsOwner(w.auth.users, org, id) && IsOwner(Next(w, e).auth.users, org, id)
    ensures HasMember(w.auth.users, org) && HasPower(w, org, before)
  {
    OwnersAreMade(w, e, org, id);
    hide Next, AccessTokens.Accepts;
    assert id in w.auth.users && OwnedBy(w.auth.users, org, id);
    assert before <= e.now && IsOwnerToken(w, e.token, org) && AccessTokens.Accepts(w.auth.blacklist, e.token, e.now);
  }

  lemma NewPowerTakesOwner(w: System, e: Event, token: AccessJwt)
    requires token !in w.issued && token in Next(w, e).issued && token.role == OWNER
    ensures HasOwner(Next(w, e).auth.users, token.org)
  {
    TokensTellTheTruth(w, e, token);
    hide Next;
    assert token.sub in Next(w, e).auth.users;
  }

  function LastTime(es: seq<Event>, n: nat, from: Millis): Millis
    requires n <= |es|
  {
    if n == 0 then from else TimeOf(es[n - 1])
  }

  lemma {:induction false} StuckForGood(w: System, es: seq<Event>, n: nat, org: OrgId, now: Millis, ttl: nat)
    requires n <= |es| && Stuck(w, org, now, ttl) && Chronological(es, now) && Configured(es, ttl)
    requires org in w.orgs && FreshOrgs(w, es)
    ensures Stuck(At(w, es, n), org, LastTime(es, n, now), ttl) && org in At(w, es, n).orgs
  {
    hide Next, Stuck;
    if n > 0 {
      StuckForGood(w, es, n - 1, org, now, ttl);
      OrgsGrow(At(w, es, n - 1), es[n - 1], org);
      assert !Registers(es[n - 1], org);
      assert es[n - 1] in es;
      StaysStuck(At(w, es, n - 1), es[n - 1], org, LastTime(es, n - 1, now), ttl);
    }
  }

  /** Some run from now on gives the organization an owner again. */
  ghost predicate CanHaveOwner(w: System, org: OrgId, now: Millis, ttl: nat) {
    exists es, n: nat ::
      && n <= |es| && Chronological(es, now) && Configured(es, ttl) && FreshOrgs(w, es)
      && HasOwner(At(w, es, n).auth.users, org)
  }

  lemma PowerMakesOwner(w: System, org: OrgId, now: Millis, ttl: nat)
    requires HasMember(w.auth.users, org) && HasPower(w, org, now) && !HasOwner(w.auth.users, org)
    ensures CanHaveOwner(w, org, now, ttl)
  {
    var id :| id in w.auth.users && OwnedBy(w.auth.users, org, id);
    var token, t: Millis :|
      now <= t && IsOwnerToken(w, token, org) && AccessTokens.Accepts(w.auth.blacklist, token, t);
    var e := RoleChange(token, id, OWNER, t);
    OwnersAreMade(w, e, org, id);
    hide Next, AccessTokens.Accepts;
    assert At(w, [e], 0) == w && At(w, [e], 1) == Next(w, e);
    assert id in At(w, [e], 1).auth.users && IsOwner(At(w, [e], 1).auth.users, org, id);
    assert Chronological([e], now) && Configured([e], ttl) && FreshOrgs(w, [e]);
  }

  /**
   * An organization without owners can have one again if and only if it has a member and an issued OWNER token
   * of it is, now or later, neither expired nor blacklisted; its own promotions need nothing else.
   */
  lemma OwnerReturnsExactlyWhen(w: System, org: OrgId, now: Millis, ttl: nat)
    requires org in w.orgs && !HasOwner(w.auth.users, org) && WrittenWithin(w.auth.blacklist, now, ttl)
    ensures CanHaveOwner(w, org, now, ttl) <==> HasMember(w.auth.users, org) && HasPower(w, org, now)
  {
    if HasMember(w.auth.users, org) && HasPower(w, org, now) {
      hide HasOwner, HasPower, HasMember, CanHaveOwner;
      PowerMakesOwner(w, org, now, ttl);
    } else {
      hide HasOwner, HasMember, HasPower, Chronological, Configured, FreshOrgs, At;
      forall es, n: nat | n <= |es| && Chronological(es, now) && Configured(es, ttl) && FreshOrgs(w, es)
        ensures !HasOwner(At(w, es, n).auth.users, org)
      {
        StuckForGood(w, es, n, org, now, ttl);
      }
    }
  }
}
