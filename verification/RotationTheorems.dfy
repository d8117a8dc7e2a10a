// What interleaved rotation guarantees, exactly.
module RotationTheorems {
  import opened Wrappers
  import opened Tables
  import opened Schema
  import opened AuthSpec
  import opened Forests
  import opened RotationSteps

  function LiveCount(rows: seq<RefreshRow>, family: Id): nat {
    if rows == [] then 0
    else LiveCount(rows[..|rows| - 1], family)
         + (if rows[|rows| - 1].family == family && Live(rows[|rows| - 1]) then 1 else 0)
  }

  predicate Present(rows: seq<RefreshRow>, family: Id) {
    exists i :: 0 <= i < |rows| && rows[i].family == family
  }

  predicate HasLive(rows: seq<RefreshRow>, family: Id) {
    exists i :: 0 <= i < |rows| && rows[i].family == family && Live(rows[i])
  }

  // --- the tree bound ---------------------------------------------------

  lemma {:induction false} HasParentedChild(ns: seq<Node>, p: nat) returns (c: nat)
    requires Children(ns, p) > 0
    ensures c < |ns| && ns[c].parent == Some(p)
  {
    var n := |ns| - 1;
    if ns[n].parent == Some(p) { c := n; } else { c := HasParentedChild(ns[..n], p); }
  }

  /** A family has exactly one root: the row its login created. */
  lemma {:induction false} OneRoot(w: World, family: Id, n: nat)
    requires Inv(w) && n <= |w.parents|
    ensures Roots(Nodes(w)[..n], family) == if Present(w.auth.refreshTokens[..n], family) then 1 else 0
  {
    if n > 0 {
      OneRoot(w, family, n - 1);
      assert Nodes(w)[..n][..n - 1] == Nodes(w)[..n - 1];
      assert GoodRow(w, n - 1);
      var rows := w.auth.refreshTokens;
      if rows[n - 1].family == family {
        assert rows[..n][n - 1].family == family;
        if w.parents[n - 1].Some? {
          assert rows[..n - 1][w.parents[n - 1].value].family == family;
        }
      } else if Present(rows[..n], family) {
        var i :| 0 <= i < n && rows[..n][i].family == family;
        assert rows[..n - 1][i].family == family;
      }
      if Present(rows[..n - 1], family) {
        var i :| 0 <= i < n - 1 && rows[..n - 1][i].family == family;
        assert rows[..n][i].family == family;
      }
    }
  }

  /** A row with a successor is revoked, so live rows are leaves. */
  lemma SucceededIsRevoked(w: World, i: nat)
    requires Inv(w) && i < |w.parents| && Children(Nodes(w), i) > 0
    ensures !Live(w.auth.refreshTokens[i])
  {
    var c := HasParentedChild(Nodes(w), i);
    assert GoodRow(w, c);
  }

  lemma {:induction false} LiveAreLeaves(w: World, family: Id, n: nat)
    requires Inv(w) && n <= |w.parents|
    ensures LiveCount(w.auth.refreshTokens[..n], family) <= Leaves(Nodes(w), family, n)
  {
    if n > 0 {
      var rows := w.auth.refreshTokens;
      LiveAreLeaves(w, family, n - 1);
      assert rows[..n][..n - 1] == rows[..n - 1];
      if Children(Nodes(w), n - 1) > 0 { SucceededIsRevoked(w, n - 1); }
    }
  }

  lemma RowsFormForest(w: World)
    requires Inv(w)
    ensures IsForest(Nodes(w))
  {
    var ns := Nodes(w);
    forall i | 0 <= i < |ns| && ns[i].parent.Some?
      ensures ns[i].parent.value < i && ns[ns[i].parent.value].tree == ns[i].tree
    {
      assert GoodRow(w, i);
    }
  }

  /** Live tokens of a family: at most 1 + the sum over rotated rows of (rotations - 1). */
  lemma LiveBound(w: World, family: Id)
    requires Inv(w) && Present(w.auth.refreshTokens, family)
    ensures LiveCount(w.auth.refreshTokens, family) <= 1 + Branching(Nodes(w), family, |w.parents|)
  {
    var n := |w.parents|;
    assert w.auth.refreshTokens[..n] == w.auth.refreshTokens && Nodes(w)[..n] == Nodes(w);
    RowsFormForest(w);
    LeafCount(Nodes(w), family);
    OneRoot(w, family, n);
    LiveAreLeaves(w, family, n);
  }

  lemma {:induction false} NoBranching(ns: seq<Node>, tree: nat, n: nat)
    requires n <= |ns| && forall i :: 0 <= i < |ns| && ns[i].tree == tree ==> Children(ns, i) <= 1
    ensures Branching(ns, tree, n) == 0
  {
    if n > 0 { NoBranching(ns, tree, n - 1); }
  }

  /** Where no row was rotated twice, at most one token is live. */
  lemma UnbranchedHasOneLive(w: World, family: Id)
    requires Inv(w) && Present(w.auth.refreshTokens, family)
    requires forall i :: 0 <= i < |w.parents| && Nodes(w)[i].tree == family ==> Children(Nodes(w), i) <= 1
    ensures LiveCount(w.auth.refreshTokens, family) <= 1
  {
    LiveBound(w, family);
    NoBranching(Nodes(w), family, |w.parents|);
  }

  // --- one user per family ----------------------------------------------

  lemma {:induction false} RootOf(w: World, i: nat) returns (r: nat)
    requires Inv(w) && i < |w.parents|
    ensures r <= i && w.parents[r].None?
    ensures w.auth.refreshTokens[r].family == w.auth.refreshTokens[i].family
    ensures w.auth.refreshTokens[r].userId == w.auth.refreshTokens[i].userId
  {
    assert GoodRow(w, i);
    if w.parents[i].None? { r := i; } else { r := RootOf(w, w.parents[i].value); }
  }

  /** In every interleaving all rows of a family belong to the user of its login. */
  lemma OneUserPerFamily(w: World, i: nat, j: nat)
    requires Inv(w) && i < |w.parents| && j < |w.parents|
    requires w.auth.refreshTokens[i].family == w.auth.refreshTokens[j].family
    ensures w.auth.refreshTokens[i].userId == w.auth.refreshTokens[j].userId
  {
    var r := RootOf(w, i);
    var q := RootOf(w, j);
    assert GoodRow(w, r) && GoodRow(w, q);
  }

  // --- runs put together ------------------------------------------------

  lemma {:induction false} RunAppend(w: World, a: seq<Event>, b: seq<Event>)
    ensures RunEvents(w, a + b) == RunEvents(RunEvents(w, a), b)
    ensures FreshEvents(w, a + b) <==> FreshEvents(w, a) && FreshEvents(RunEvents(w, a), b)
    decreases |a|
  {
    hide Apply, FreshEvent;
    if a == [] {
      assert a + b == b;
    } else {
      assert (a + b)[0] == a[0] && (a + b)[1..] == a[1..] + b;
      RunAppend(Apply(w, a[0]), a[1..], b);
    }
  }

  lemma RunCons(w: World, e: Event, rest: seq<Event>)
    ensures RunEvents(w, [e] + rest) == RunEvents(Apply(w, e), rest)
    ensures FreshEvents(w, [e] + rest) <==> FreshEvent(w, e) && FreshEvents(Apply(w, e), rest)
  {
    hide Apply, FreshEvent;
    assert ([e] + rest)[1..] == rest;
  }

  lemma RunThree(w: World, a: Event, b: Event, c: Event)
    ensures RunEvents(w, [a, b, c]) == Apply(Apply(Apply(w, a), b), c)
    ensures FreshEvents(w, [a, b, c]) <==>
            FreshEvent(w, a) && FreshEvent(Apply(w, a), b) && FreshEvent(Apply(Apply(w, a), b), c)
  {
    hide Apply, FreshEvent;
    assert [a, b, c] == [a] + ([b] + ([c] + []));
    RunCons(w, a, [b] + ([c] + []));
    RunCons(Apply(w, a), b, [c] + []);
    RunCons(Apply(Apply(w, a), b), c, []);
  }

  lemma RunFour(w: World, a: Event, b: Event, c: Event, d: Event)
    ensures RunEvents(w, [a, b, c, d]) == Apply(Apply(Apply(Apply(w, a), b), c), d)
    ensures FreshEvents(w, [a, b, c, d]) <==>
            FreshEvent(w, a) && FreshEvent(Apply(w, a), b) && FreshEvent(Apply(Apply(w, a), b), c)
            && FreshEvent(Apply(Apply(Apply(w, a), b), c), d)
  {
    hide Apply, FreshEvent;
    assert [a, b, c, d] == [a] + [b, c, d];
    RunCons(w, a, [b, c, d]);
    RunThree(Apply(w, a), b, c, d);
  }
}
