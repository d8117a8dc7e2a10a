// How often one mailed token can be redeemed when requests interleave.
module RotationMails {
  import opened Wrappers
  import opened Tables
  import opened Schema
  import opened AuthSpec
  import opened RotationSteps
  import opened RotationTheorems
  import opened RotationEnds
  import Mails = SessionTheorems

  /** A request that has found the mail and is about to write the account it is good for. */
  predicate HasRead(thread: Thread, mail: nat) { thread.MailRead? && thread.mail == mail }

  function Readers(w: World, mail: nat): set<nat> { set tid | tid in w.threads && HasRead(w.threads[tid], mail) }

  /** The step that writes the account. */
  predicate Redeems(w: World, e: Event, mail: nat) {
    e.Advance? && e.tid in w.threads && HasRead(w.threads[e.tid], mail) && w.threads[e.tid].id in w.auth.users
  }

  function Redemptions(w: World, events: seq<Event>, mail: nat): nat
    decreases |events|
  {
    if events == [] then 0
    else (if Redeems(w, events[0], mail) then 1 else 0) + Redemptions(Apply(w, events[0]), events[1..], mail)
  }

  /** A lookup at time `now` or later can still find the row. */
  predicate Open(row: VerificationRow, now: Millis) { row.usedAt.None? && now <= row.expiresAt }

  // --- no more than have read it ----------------------------------------

  /** Mails are only ever added, and of the old ones only usedAt is ever filled in. */
  predicate KeepsMails(rows: seq<VerificationRow>, rows': seq<VerificationRow>) {
    && |rows| <= |rows'|
    && forall i :: 0 <= i < |rows| ==>
                     && rows'[i] == rows[i].(usedAt := rows'[i].usedAt)
                     && (rows[i].usedAt.Some? ==> rows'[i].usedAt.Some?)
  }

  lemma AccountStepKeepsMails(auth: Auth, thread: Thread, env: Env)
    ensures KeepsMails(auth.verifications, NextAccount(auth, thread, env).0.verifications)
  {
    hide FindVerification, RevokeAllForUser, NewOwner, Me, EmailVerification, PasswordResetMail, Used;
  }

  /** Session steps leave the mails alone. */
  lemma ThreadKeepsMails(auth: Auth, parents: seq<Option<nat>>, thread: Thread, env: Env)
    ensures KeepsMails(auth.verifications, Next(auth, parents, thread, env).0.verifications)
  {
    AccountStepKeepsMails(auth, thread, env);
    hide NextAccount, FindRefreshByHash, Verifies, SignAccess, SignRefresh, Sanitize, BlacklistAccess, RevokeFamily;
  }

  lemma StepKeepsMails(w: World, e: Event)
    ensures KeepsMails(w.auth.verifications, Apply(w, e).auth.verifications)
  {
    hide Next;
    if e.Advance? && e.tid in w.threads { ThreadKeepsMails(w.auth, w.parents, w.threads[e.tid], e.env); }
  }

  /** Only a lookup makes a reader, and only while the mail is open. */
  lemma NewReaderFoundIt(w: World, e: Event, mail: nat)
    requires e.Advance? && e.tid in w.threads && HasRead(Apply(w, e).threads[e.tid], mail)
    ensures mail < |w.auth.verifications| && Open(w.auth.verifications[mail], e.env.now)
    ensures Apply(w, e).threads[e.tid].id == w.auth.verifications[mail].userId
    ensures w.threads[e.tid].MailStarted?
  {
    hide FindRefreshByHash, Verifies, SignAccess, SignRefresh, Sanitize, BlacklistAccess;
    hide RevokeFamily, RevokeAllForUser, NewOwner, Me;
  }

  /** Closed, the mail gains no reader, and a redemption costs one. */
  lemma ClosedStep(w: World, e: Event, mail: nat, before: Millis)
    requires mail < |w.auth.verifications| && !Open(w.auth.verifications[mail], before) && before <= TimeOf(e, before)
    ensures mail < |Apply(w, e).auth.verifications|
    ensures !Open(Apply(w, e).auth.verifications[mail], TimeOf(e, before))
    ensures |Readers(Apply(w, e), mail)| + (if Redeems(w, e, mail) then 1 else 0) <= |Readers(w, mail)|
  {
    hide Apply, Next;
    StepKeepsMails(w, e);
    var w' := Apply(w, e);
    var gone := if Redeems(w, e, mail) then {e.tid} else {};
    forall tid | tid in Readers(w', mail) ensures tid in Readers(w, mail) && tid !in gone {
      ThreadsMoveAlone(w, e, tid);
      if e.Advance? && e.tid == tid && tid in w.threads { NewReaderFoundIt(w, e, mail); }
    }
    FewerOf(Readers(w', mail), Readers(w, mail) - gone);
    if gone != {} { assert e.tid in Readers(w, mail); }
  }

  lemma {:induction false} FewerOf(a: set<nat>, b: set<nat>)
    requires a <= b
    ensures |a| <= |b|
    decreases |a|
  {
    if a != {} {
      var x :| x in a;
      FewerOf(a - {x}, b - {x});
    }
  }

  lemma {:induction false} ClosedRun(w: World, events: seq<Event>, mail: nat, before: Millis, operator: bool)
    requires mail < |w.auth.verifications| && !Open(w.auth.verifications[mail], before)
    requires Realistic(w, events, before, operator)
    ensures Redemptions(w, events, mail) <= |Readers(w, mail)|
    decreases |events|
  {
    hide Apply, Redeems, Readers, Open, FreshEvent;
    if events != [] {
      ClosedStep(w, events[0], mail, before);
      ClosedRun(Apply(w, events[0]), events[1..], mail, TimeOf(events[0], before), operator);
    }
  }

  // --- and all of them can ----------------------------------------------

  /** The mail's user exists, and whoever has read it is about to write that user. */
  predicate Sound(w: World, mail: nat) {
    && mail < |w.auth.verifications| && w.auth.verifications[mail].userId in w.auth.users
    && forall tid :: tid in w.threads && HasRead(w.threads[tid], mail) ==>
                       w.threads[tid].id == w.auth.verifications[mail].userId
  }

  lemma WriteStep(w: World, tid: nat, mail: nat, env: Env, operator: bool)
    requires Sound(w, mail) && tid in Readers(w, mail)
    ensures var w' := Apply(w, Advance(tid, env));
            && Redeems(w, Advance(tid, env), mail) && Sound(w', mail) && Readers(w', mail) == Readers(w, mail) - {tid}
            && RealisticEvent(w, Advance(tid, env), env.now, operator)
  {
    hide Used;
  }

  lemma {:induction false} AllReadersRedeem(w: World, mail: nat, env: Env, operator: bool)
    returns (events: seq<Event>)
    requires Sound(w, mail)
    ensures Realistic(w, events, env.now, operator) && Redemptions(w, events, mail) == |Readers(w, mail)|
    decreases |Readers(w, mail)|
  {
    hide Apply, Redeems, Sound, FreshEvent, RealisticEvent;
    if Readers(w, mail) == {} {
      events := [];
    } else {
      var tid :| tid in Readers(w, mail);
      var e := Advance(tid, env);
      WriteStep(w, tid, mail, env, operator);
      hide Readers;
      var rest := AllReadersRedeem(Apply(w, e), mail, env, operator);
      events := [e] + rest;
      assert events[0] == e && events[1..] == rest;
    }
  }

  /** The request that presents the mail. */
  function Presenting(row: VerificationRow): Thread {
    MailStarted(row.tokenHash.preimage, if row.kind.EMAIL_VERIFY? then ConfirmEmail else NewPassword(""))
  }

  lemma PresentStep(w: World, tid: nat, mail: nat, now: Millis, operator: bool)
    requires Sound(w, mail) && tid !in w.threads
    ensures var spawn := Spawn(tid, Presenting(w.auth.verifications[mail]));
            && Apply(w, spawn) == w.(threads := w.threads[tid := spawn.thread])
            && RealisticEvent(w, spawn, now, operator) && !Redeems(w, spawn, mail)
  {
  }

  lemma LookupStep(w: World, tid: nat, mail: nat, env: Env, operator: bool)
    requires mail < |w.auth.verifications| && Mails.DistinctRaw(w.auth.verifications)
    requires Open(w.auth.verifications[mail], env.now)
    requires tid in w.threads && w.threads[tid] == Presenting(w.auth.verifications[mail])
    ensures var row, find := w.auth.verifications[mail], Advance(tid, env);
            && Apply(w, find) == w.(threads := w.threads[tid := MailRead(mail, row.userId, Presenting(row).use)])
            && RealisticEvent(w, find, env.now, operator) && !Redeems(w, find, mail)
  {
    Mails.FindVerificationFinds(w.auth.verifications, mail);
    hide FindVerification, Mails.DistinctRaw;
  }

  lemma ReaderAdded(w: World, tid: nat, mail: nat, use: Use)
    requires Sound(w, mail) && tid !in w.threads
    ensures var w' := w.(threads := w.threads[tid := MailRead(mail, w.auth.verifications[mail].userId, use)]);
            Sound(w', mail) && |Readers(w', mail)| == |Readers(w, mail)| + 1
  {
    var w' := w.(threads := w.threads[tid := MailRead(mail, w.auth.verifications[mail].userId, use)]);
    assert Readers(w', mail) == Readers(w, mail) + {tid};
  }

  /** An open mail can be found by any number of requests before the first of them marks it. */
  lemma {:induction false} GatherReaders(w: World, mail: nat, n: nat, env: Env, operator: bool)
    returns (events: seq<Event>)
    requires Sound(w, mail) && Mails.DistinctRaw(w.auth.verifications) && Open(w.auth.verifications[mail], env.now)
    ensures Realistic(w, events, env.now, operator) && Redemptions(w, events, mail) >= n + |Readers(w, mail)|
    decreases n
  {
    SoundNames(w, mail);
    hide Apply, Redeems, Sound, RealisticEvent, Readers, Open, Mails.DistinctRaw;
    if n == 0 {
      events := AllReadersRedeem(w, mail, env, operator);
    } else {
      var row := w.auth.verifications[mail];
      var tid := NextId(w.threads.Keys);
      var spawn, find := Spawn(tid, Presenting(row)), Advance(tid, env);
      var w1 := w.(threads := w.threads[tid := Presenting(row)]);
      var w2 := w.(threads := w.threads[tid := MailRead(mail, row.userId, Presenting(row).use)]);
      PresentStep(w, tid, mail, env.now, operator);
      LookupStep(w1, tid, mail, env, operator);
      assert w1.threads[tid := MailRead(mail, row.userId, Presenting(row).use)] == w2.threads;
      ReaderAdded(w, tid, mail, Presenting(row).use);
      var rest := GatherReaders(w2, mail, n - 1, env, operator);
      assert ([find] + rest)[1..] == rest;
      assert Realistic(w1, [find] + rest, env.now, operator);
      assert Redemptions(w1, [find] + rest, mail) == Redemptions(w2, rest, mail);
      events := [spawn] + ([find] + rest);
      assert events[1..] == [find] + rest;
    }
  }

  lemma SoundNames(w: World, mail: nat)
    requires Sound(w, mail)
    ensures mail < |w.auth.verifications|
  {
  }

  // --- exactly ----------------------------------------------------------

  /** Whatever happens from `before` on, the mail is redeemed at most `n` more times. */
  ghost predicate AtMost(w: World, mail: nat, n: nat, before: Millis, operator: bool) {
    forall events :: Realistic(w, events, before, operator) ==> Redemptions(w, events, mail) <= n
  }

  /**
   * Interleaved, a mailed token is redeemed at most n more times if and only if it is marked as used or expired
   * and at most n requests in flight have read it; as long as it is open there is no bound.
   */
  lemma RedeemedAtMostExactlyWhen(w: World, mail: nat, n: nat, env: Env, operator: bool)
    requires Sound(w, mail) && Mails.DistinctRaw(w.auth.verifications)
    ensures AtMost(w, mail, n, env.now, operator)
            <==> !Open(w.auth.verifications[mail], env.now) && |Readers(w, mail)| <= n
  {
    SoundNames(w, mail);
    hide Sound, Open, Readers, Realistic, Redemptions, Mails.DistinctRaw;
    if Open(w.auth.verifications[mail], env.now) {
      var events := GatherReaders(w, mail, n + 1, env, operator);
      assert Redemptions(w, events, mail) > n;
    } else {
      var events := AllReadersRedeem(w, mail, env, operator);
      forall later | Realistic(w, later, env.now, operator) ensures Redemptions(w, later, mail) <= |Readers(w, mail)| {
        ClosedRun(w, later, mail, env.now, operator);
      }
    }
  }
}
