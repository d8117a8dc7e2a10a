// The read-through caches with every await a step: when an answer can be older than
// one that was given before it.
module CacheRaces {
  import opened Wrappers
  import opened Tables
  import opened Schema
  import opened Crm
  import opened Redis
  import opened Caches
  import Tenancy

  // Where a read stands; `taken` is the number of the step at which its figures were computed.
  datatype Thread =
    | Started(board: Board, org: OrgId)
    | Missed(board: Board, org: OrgId)
    | Queried(board: Board, org: OrgId, taken: nat, answer: Cached)
    | Answered(board: Board, org: OrgId, taken: nat, answer: Cached)

  // `fills` is history: at which step the value under each key was computed.
  datatype World = World(system: System, fills: map<string, nat>, steps: nat, threads: map<nat, Thread>)

  datatype Event =
    | Serve(call: Tenancy.Call)
    | Spawn(tid: nat, board: Board, org: OrgId)
    | Advance(tid: nat, now: Millis)
    | Blacklist(jti: string, ttl: nat, now: Millis)

  function FilledAt(w: World, key: string): nat { if key in w.fills then w.fills[key] else 0 }

  /** One step of a read: look the answer up, compute it, keep it. */
  function NextRead(w: World, thread: Thread, now: Millis): (Store<Cached>, map<string, nat>, Thread) {
    var store, key := w.system.store, KeyOf(thread.board, thread.org);
    match thread
    case Started(board, org) =>
      var cached := Get(store, key, now);
      (store, w.fills,
       if cached.Some? then Answered(board, org, FilledAt(w, key), cached.value) else Missed(board, org))
    case Missed(board, org) =>
      (store, w.fills, Queried(board, org, w.steps, Computed(board, w.system.db, org, now)))
    case Queried(board, org, taken, answer) =>
      (Set(store, key, answer, Some(KeptFor(board)), now), w.fills[key := taken], Answered(board, org, taken, answer))
    case Answered(_, _, _, _) => (store, w.fills, thread)
  }

  ghost function Apply(w: World, e: Event): World {
    var s := w.system;
    match e
    case Serve(call) => w.(system := s.(db := Tenancy.Step(s.db, call).0), steps := w.steps + 1)
    case Spawn(tid, board, org) =>
      if tid in w.threads then w.(steps := w.steps + 1)
      else w.(threads := w.threads[tid := Started(board, org)], steps := w.steps + 1)
    case Advance(tid, now) =>
      if tid !in w.threads then w.(steps := w.steps + 1)
      else
        var (store, fills, thread) := NextRead(w, w.threads[tid], now);
        World(s.(store := store), fills, w.steps + 1, w.threads[tid := thread])
    case Blacklist(jti, ttl, now) =>
      w.(system := s.(store := SetEx(s.store, BlacklistKey(jti), Mark, ttl, now)), steps := w.steps + 1)
  }

  function TimeOf(e: Event, before: Millis): Millis {
    match e
    case Advance(_, now) => now
    case Blacklist(_, _, now) => now
    case _ => before
  }

  /** The clock of the run does not go back. */
  predicate Chronological(events: seq<Event>, before: Millis) {
    events == []
    || (before <= TimeOf(events[0], before) && Chronological(events[1..], TimeOf(events[0], before)))
  }

  /** The step answers a read of the board with figures computed before step `mark`. */
  ghost predicate AnswersOlder(w: World, e: Event, board: Board, org: OrgId, mark: nat) {
    && e.Advance? && e.tid in w.threads && !w.threads[e.tid].Answered?
    && w.threads[e.tid].board == board && w.threads[e.tid].org == org
    && Apply(w, e).threads[e.tid].Answered? && Apply(w, e).threads[e.tid].taken < mark
  }

  ghost predicate SomeAnswerOlder(w: World, events: seq<Event>, board: Board, org: OrgId, mark: nat)
    decreases |events|
  {
    events != []
    && (AnswersOlder(w, events[0], board, org, mark)
        || SomeAnswerOlder(Apply(w, events[0]), events[1..], board, org, mark))
  }

  /** Older figures are still kept, or a read in flight has computed some and not yet kept them. */
  ghost predicate Lingers(w: World, board: Board, org: OrgId, mark: nat, now: Millis) {
    || (Get(w.system.store, KeyOf(board, org), now).Some? && FilledAt(w, KeyOf(board, org)) < mark)
    || exists tid :: tid in w.threads && Holds(w.threads[tid], board, org, mark)
  }

  predicate Holds(thread: Thread, board: Board, org: OrgId, mark: nat) {
    thread.Queried? && thread.board == board && thread.org == org && thread.taken < mark
  }

  lemma StaysGone(store: Store<Cached>, key: string, before: Millis, now: Millis)
    requires before <= now && Get(store, key, now).Some?
    ensures Get(store, key, before).Some?
  {
  }

  lemma ReadLeavesNothing(w: World, tid: nat, now: Millis, board: Board, org: OrgId, mark: nat, before: Millis)
    requires tid in w.threads && mark <= w.steps && before <= now && !Lingers(w, board, org, mark, before)
    ensures !AnswersOlder(w, Advance(tid, now), board, org, mark)
    ensures !Lingers(Apply(w, Advance(tid, now)), board, org, mark, now)
  {
    var t, key, w' := w.threads[tid], KeyOf(board, org), Apply(w, Advance(tid, now));
    KeysDiffer(board, org, t.board, t.org, "");
    assert !Holds(t, board, org, mark);
    hide Computed, KeyOf;
    forall s | s in w'.threads ensures !Holds(w'.threads[s], board, org, mark) {
      assert s in w.threads && !Holds(w.threads[s], board, org, mark);
    }
  }

  lemma OthersLeaveNothing(w: World, e: Event, board: Board, org: OrgId, mark: nat, before: Millis)
    requires !(e.Advance? && e.tid in w.threads)
    requires before <= TimeOf(e, before) && !Lingers(w, board, org, mark, before)
    ensures !AnswersOlder(w, e, board, org, mark)
    ensures !Lingers(Apply(w, e), board, org, mark, TimeOf(e, before))
  {
    if e.Blacklist? { KeysDiffer(board, org, board, org, e.jti); }
    hide KeyOf, Tenancy.Step, BlacklistKey;
    var w' := Apply(w, e);
    forall s | s in w'.threads ensures !Holds(w'.threads[s], board, org, mark) {
      if s in w.threads { assert !Holds(w.threads[s], board, org, mark); }
    }
  }

  lemma {:induction false} NothingLingers(w: World, events: seq<Event>, board: Board, org: OrgId, mark: nat,
                                          before: Millis)
    requires mark <= w.steps && Chronological(events, before) && !Lingers(w, board, org, mark, before)
    ensures !SomeAnswerOlder(w, events, board, org, mark)
    decreases |events|
  {
    hide Lingers, AnswersOlder;
    if events != [] {
      var e := events[0];
      if e.Advance? && e.tid in w.threads { ReadLeavesNothing(w, e.tid, e.now, board, org, mark, before); }
      else { OthersLeaveNothing(w, e, board, org, mark, before); }
      assert Apply(w, e).steps == w.steps + 1;
      hide Apply;
      NothingLingers(Apply(w, e), events[1..], board, org, mark, TimeOf(e, before));
    }
  }

  lemma LingeringAnswers(w: World, board: Board, org: OrgId, mark: nat, before: Millis) returns (events: seq<Event>)
    requires Lingers(w, board, org, mark, before)
    ensures Chronological(events, before) && SomeAnswerOlder(w, events, board, org, mark)
  {
    hide Computed, KeyOf;
    if tid :| tid in w.threads && Holds(w.threads[tid], board, org, mark) {
      events := [Advance(tid, before)];
      assert events[1..] == [];
      assert AnswersOlder(w, events[0], board, org, mark);
    } else {
      var tid := NextId(w.threads.Keys);
      events := [Spawn(tid, board, org), Advance(tid, before)];
      var w1 := Apply(w, events[0]);
      assert events[1..] == [events[1]] && events[1..][1..] == [];
      assert Chronological(events[1..][1..], before) && Chronological(events[1..], before);
      assert AnswersOlder(w1, events[1], board, org, mark);
      assert SomeAnswerOlder(w1, events[1..], board, org, mark);
    }
  }

  /**
   * With the awaits interleaved, answers can go back: figures older than a past step are answered later on if
   * and only if such figures are still kept now, or a read in flight has computed them and not yet kept them.
   */
  lemma GoesBackExactlyWhen(w: World, board: Board, org: OrgId, mark: nat, before: Millis)
    requires mark <= w.steps
    ensures (exists events :: Chronological(events, before) && SomeAnswerOlder(w, events, board, org, mark))
            <==> Lingers(w, board, org, mark, before)
  {
    if Lingers(w, board, org, mark, before) {
      var events := LingeringAnswers(w, board, org, mark, before);
    } else {
      forall events | Chronological(events, before) ensures !SomeAnswerOlder(w, events, board, org, mark) {
        NothingLingers(w, events, board, org, mark, before);
      }
    }
  }

  // --- left alone, and not left alone -----------------------------------

  ghost function RunEvents(w: World, events: seq<Event>): World
    decreases |events|
  {
    if events == [] then w else RunEvents(Apply(w, events[0]), events[1..])
  }

  lemma RunFour(w: World, a: Event, b: Event, c: Event, d: Event)
    ensures RunEvents(w, [a, b, c, d]) == Apply(Apply(Apply(Apply(w, a), b), c), d)
  {
    hide Apply;
    assert [a, b, c, d][1..] == [b, c, d] && [b, c, d][1..] == [c, d] && [c, d][1..] == [d] && [d][1..] == [];
    var w2 := Apply(Apply(w, a), b);
    assert RunEvents(w2, [c, d]) == RunEvents(Apply(w2, c), [d]) == Apply(Apply(w2, c), d);
  }

  /** The steps of a read that nothing interrupts are the read-through. */
  lemma UninterruptedIsReadThrough(w: World, tid: nat, board: Board, org: OrgId, now: Millis)
    requires tid !in w.threads
    ensures var w' := RunEvents(w, [Spawn(tid, board, org), Advance(tid, now), Advance(tid, now), Advance(tid, now)]);
            var (system, answer) := ReadThrough(w.system, board, org, now);
            w'.system == system && tid in w'.threads && w'.threads[tid].Answered? && w'.threads[tid].answer == answer
  {
    hide Computed, KeyOf;
    RunFour(w, Spawn(tid, board, org), Advance(tid, now), Advance(tid, now), Advance(tid, now));
    var w2 := Apply(Apply(w, Spawn(tid, board, org)), Advance(tid, now));
    var w3 := Apply(w2, Advance(tid, now));
    if w2.threads[tid].Answered? { assert w3.threads[tid] == w2.threads[tid]; }
    else { assert w3.threads[tid].Queried?; }
  }

  /** Everything else acts as it does in the serial runs. */
  lemma OthersActAsInSerial(w: World, call: Tenancy.Call, jti: string, ttl: nat, now: Millis)
    ensures Apply(w, Serve(call)).system == Caches.Next(w.system, Request(call))
    ensures Apply(w, Event.Blacklist(jti, ttl, now)).system
            == Caches.Next(w.system, Caches.Event.Blacklist(jti, ttl, now))
  {
    hide Tenancy.Step, BlacklistKey;
  }

  /** Two reads of a board that nobody has asked for yet. */
  function AskedTwice(db: Db, board: Board, org: OrgId): World {
    World(System(db, map[]), map[], 0, map[0 := Started(board, org), 1 := Started(board, org)])
  }

  /** Both miss, the second computes last and answers first, and then the first answers with its older figures. */
  lemma OlderIsAnswered(db: Db, board: Board, org: OrgId) returns (w4: World)
    ensures w4 == RunEvents(AskedTwice(db, board, org), [Advance(0, 0), Advance(1, 0), Advance(0, 0), Advance(1, 0)])
    ensures var w5 := Apply(w4, Advance(1, 0));
            && 1 in w5.threads && w5.threads[1].Answered?
            && AnswersOlder(w5, Advance(0, 0), board, org, w5.threads[1].taken)
  {
    hide Computed, KeyOf;
    var w := AskedTwice(db, board, org);
    RunFour(w, Advance(0, 0), Advance(1, 0), Advance(0, 0), Advance(1, 0));
    var w2 := Apply(Apply(w, Advance(0, 0)), Advance(1, 0));
    assert w2 == w.(steps := 2, threads := map[0 := Missed(board, org), 1 := Missed(board, org)]);
    w4 := Apply(Apply(w2, Advance(0, 0)), Advance(1, 0));
    var answer := Computed(board, db, org, 0);
    assert w4.threads[0] == Queried(board, org, 2, answer) && w4.threads[1] == Queried(board, org, 3, answer);
  }
}
