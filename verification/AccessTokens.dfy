// JwtStrategy.validate against the logout blacklist.
module AccessTokens {
  import opened Wrappers
  import opened Tables
  import opened Schema
  import opened AuthSpec
  import opened Redis
  import Effects = AuthEffects
  import Decimal
  import Ttl

  predicate IsBlacklisted(blacklist: Store<string>, jti: string, now: Millis) {
    Get(blacklist, BlacklistKey(jti), now).Some?
  }

  /** A token that carries our signature is accepted while unexpired and not blacklisted. */
  predicate Accepts(blacklist: Store<string>, token: AccessJwt, now: Millis) {
    Seconds(now) < token.exp && (token.jti == "" || !IsBlacklisted(blacklist, token.jti, now))
  }

  /** The clock never runs backwards and the configured lifetimes stay put. */
  predicate Chronological(calls: seq<Call>, from: Millis, accessTtl: nat, refreshTtl: nat) {
    && (forall i :: 0 <= i < |calls| ==> from <= calls[i].env.now
                                         && calls[i].env.accessTtl == accessTtl
                                         && calls[i].env.refreshTtl == refreshTtl)
    && (forall i, j :: 0 <= i < j < |calls| ==> calls[i].env.now <= calls[j].env.now)
  }

  /** The blacklist entry of `jti` lasts at least until `until`. */
  predicate Covers(blacklist: Store<string>, jti: string, until: Millis) {
    && BlacklistKey(jti) in blacklist
    && (blacklist[BlacklistKey(jti)].expiresAt.Some? ==> until <= blacklist[BlacklistKey(jti)].expiresAt.value)
  }

  lemma StepCovers(s: Auth, call: Call, jti: string, until: Millis)
    requires Covers(s.blacklist, jti, until) && until <= call.env.now + call.env.refreshTtl * 1000
    ensures Covers(Serve(s, call).0.blacklist, jti, until)
  {
    hide FindRefreshByHash, FindVerification;
  }

  lemma {:induction false} RunCovers(s: Auth, calls: seq<Call>, jti: string, from: Millis, accessTtl: nat,
                                     refreshTtl: nat)
    requires Chronological(calls, from, accessTtl, refreshTtl)
    requires Covers(s.blacklist, jti, from + refreshTtl * 1000)
    ensures Covers(Run(s, calls).0.blacklist, jti, from + refreshTtl * 1000)
    decreases |calls|
  {
    if calls != [] {
      StepCovers(s, calls[0], jti, from + refreshTtl * 1000);
      RunCovers(Serve(s, calls[0]).0, calls[1..], jti, from, accessTtl, refreshTtl);
    }
  }

  /** An access token issued at or before a logout that names it is rejected ever after. */
  lemma LogoutIsPermanent(s: Auth, refresh: Option<RefreshJwt>, token: AccessJwt, issuedAt: Millis, env: Env,
                          later: seq<Call>, now: Millis)
    requires token.exp == Seconds(issuedAt) + env.accessTtl && issuedAt <= env.now
    requires token.jti != "" && env.accessTtl <= env.refreshTtl
    requires Chronological(later, env.now, env.accessTtl, env.refreshTtl)
    requires env.now <= now && forall i :: 0 <= i < |later| ==> later[i].env.now <= now
    ensures !Accepts(Run(Logout(s, refresh, Some(token.jti), env), later).0.blacklist, token, now)
  {
    hide FindRefreshByHash;
    var s1 := Logout(s, refresh, Some(token.jti), env);
    RunCovers(s1, later, token.jti, env.now, env.accessTtl, env.refreshTtl);
    if env.now + env.refreshTtl * 1000 <= now {
      assert Seconds(env.now + env.refreshTtl * 1000) == Seconds(env.now) + env.refreshTtl;
    }
  }

  /** Some call of the run logs out naming the jti. */
  predicate LogsOut(call: Call, jti: string) { call.request.LogoutReq? && call.request.accessJti == Some(jti) }

  lemma NamedIsCovered(s: Auth, call: Call, jti: string)
    requires LogsOut(call, jti) && jti != ""
    ensures Covers(Serve(s, call).0.blacklist, jti, call.env.now + call.env.refreshTtl * 1000)
  {
    hide FindRefreshByHash;
  }

  lemma OthersLeaveUnlisted(s: Auth, call: Call, jti: string)
    requires !LogsOut(call, jti) && BlacklistKey(jti) !in s.blacklist
    ensures BlacklistKey(jti) !in Serve(s, call).0.blacklist
  {
    hide FindRefreshByHash, FindVerification, BlacklistKey;
    if call.request.LogoutReq? && call.request.accessJti.Some? {
      KeysNeverMeet(OrgId(""), OrgId(""), jti, call.request.accessJti.value);
    }
  }

  /** A jti ends up on the blacklist exactly if some call logged out naming it, and then for the whole lifetime. */
  lemma {:induction false} ListedExactlyWhen(s: Auth, calls: seq<Call>, jti: string, from: Millis, accessTtl: nat,
                                             refreshTtl: nat)
    requires Chronological(calls, from, accessTtl, refreshTtl) && jti != "" && BlacklistKey(jti) !in s.blacklist
    ensures if exists c :: c in calls && LogsOut(c, jti)
            then Covers(Run(s, calls).0.blacklist, jti, from + refreshTtl * 1000)
            else BlacklistKey(jti) !in Run(s, calls).0.blacklist
    decreases |calls|
  {
    hide Serve, Covers, LogsOut;
    if calls != [] {
      var s1 := Serve(s, calls[0]).0;
      if LogsOut(calls[0], jti) {
        NamedIsCovered(s, calls[0], jti);
        CoversLess(s1.blacklist, jti, calls[0].env.now + refreshTtl * 1000, from + refreshTtl * 1000);
        RunCovers(s1, calls[1..], jti, from, accessTtl, refreshTtl);
      } else {
        OthersLeaveUnlisted(s, calls[0], jti);
        ListedExactlyWhen(s1, calls[1..], jti, from, accessTtl, refreshTtl);
        assert forall c :: c in calls && LogsOut(c, jti) ==> c in calls[1..];
      }
    }
  }

  lemma CoversLess(blacklist: Store<string>, jti: string, until: Millis, less: Millis)
    requires Covers(blacklist, jti, until) && less <= until
    ensures Covers(blacklist, jti, less)
  {
  }

  /**
   * From its issue to its logout: where the access lifetime is at most the refresh lifetime, a token that register,
   * login or refresh answered with is accepted at any later time if and only if it is unexpired and no call since
   * has logged out naming it.
   */
  lemma AcceptedExactlyWhen(s: Auth, issue: Call, later: seq<Call>, now: Millis)
    requires Effects.Issues(s, issue) && issue.env.accessJti != ""
    requires BlacklistKey(issue.env.accessJti) !in s.blacklist && issue.env.accessTtl <= issue.env.refreshTtl
    requires Chronological(later, issue.env.now, issue.env.accessTtl, issue.env.refreshTtl)
    requires issue.env.now <= now && forall c :: c in later ==> c.env.now <= now
    ensures var (s1, reply) := Serve(s, issue);
            Accepts(Run(s1, later).0.blacklist, reply.value.tokens.access, now)
            <==> && now / 1000 < issue.env.now / 1000 + issue.env.accessTtl
                 && !exists c :: c in later && LogsOut(c, issue.env.accessJti)
  {
    var env := issue.env;
    Effects.TokensCarryTheRow(s, issue);
    OthersLeaveUnlisted(s, issue, env.accessJti);
    hide Serve;
    ListedExactlyWhen(Serve(s, issue).0, later, env.accessJti, env.now, env.accessTtl, env.refreshTtl);
    hide Run, LogsOut, BlacklistKey, Chronological;
    if env.now + env.refreshTtl * 1000 <= now {
      assert Seconds(env.now + env.refreshTtl * 1000) == Seconds(env.now) + env.refreshTtl;
    }
  }

  /** A token issued at `issuedAt` and blacklisted at `loggedOut` is accepted again at `now`. */
  predicate SlipsThrough(accessTtl: nat, refreshTtl: nat, issuedAt: Millis, loggedOut: Millis, now: Millis) {
    var token := AccessJwt(0, OrgId(""), AGENT, "", "jti", Seconds(issuedAt) + accessTtl);
    && issuedAt <= loggedOut <= now
    && Accepts(SetEx(map[], BlacklistKey("jti"), "1", refreshTtl, loggedOut), token, now)
  }

  /** The lifetimes alone decide: logout is permanent if and only if accessTtl <= refreshTtl. */
  lemma PermanentExactlyWhen(accessTtl: nat, refreshTtl: nat)
    ensures (forall issuedAt: nat, loggedOut: nat, now: nat ::
               !SlipsThrough(accessTtl, refreshTtl, issuedAt, loggedOut, now))
            <==> accessTtl <= refreshTtl
  {
    if accessTtl > refreshTtl {
      assert Seconds(refreshTtl * 1000) == refreshTtl;
      assert SlipsThrough(accessTtl, refreshTtl, 0, 0, refreshTtl * 1000);
    } else {
      forall issuedAt: nat, loggedOut: nat, now: nat
        ensures !SlipsThrough(accessTtl, refreshTtl, issuedAt, loggedOut, now)
      {
        if loggedOut + refreshTtl * 1000 <= now {
          assert Seconds(loggedOut + refreshTtl * 1000) == Seconds(loggedOut) + refreshTtl;
        }
      }
    }
  }

  /**
   * The condition on the configured strings: any access lifetime written with a unit, against any
   * refresh string at all, a bare number or an unreadable one (read as 900) included.
   */
  lemma ConfiguredLogoutIsPermanent(n: nat, unit: char, refresh: string)
    requires Ttl.IsUnit(unit)
    ensures var accessTtl, refreshTtl := Ttl.ParseTtl(Decimal.Digits(n) + [unit]), Ttl.ParseTtl(refresh);
            (forall issuedAt: nat, loggedOut: nat, now: nat ::
               !SlipsThrough(accessTtl, refreshTtl, issuedAt, loggedOut, now))
            <==> n * Ttl.UnitSeconds(unit) <= refreshTtl
  {
    var access := Decimal.Digits(n) + [unit];
    Ttl.TtlInvertsPrinting(n, unit, "", "");
    assert "" + access + "" == access;
    PermanentExactlyWhen(Ttl.ParseTtl(access), Ttl.ParseTtl(refresh));
  }
}
