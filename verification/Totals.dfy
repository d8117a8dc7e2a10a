// Adding up the values of a map: SELECT SUM over a set of rows.
module Totals {
  import opened Tables

  predicate IsLeast(s: set<nat>, k: nat) { k in s && forall j :: j in s ==> k <= j }

  lemma {:induction false} LeastExists(s: set<nat>)
    requires s != {}
    ensures exists k :: IsLeast(s, k)
    decreases |s|
  {
    var k :| k in s;
    if s == {k} {
      assert IsLeast(s, k);
    } else {
      LeastExists(s - {k});
      var least :| IsLeast(s - {k}, least);
      assert forall j :: j in s ==> j == k || j in s - {k};
      assert IsLeast(s, if k < least then k else least);
    }
  }

  function Least(s: set<nat>): (k: nat)
    requires s != {}
    ensures IsLeast(s, k)
  {
    LeastExists(s);
    var k :| k in s && IsLeast(s, k);
    k
  }

  function Total(m: map<Id, int>): int
    decreases |m|
  {
    if m == map[] then 0
    else
      assert m.Keys != {};
      var k := Least(m.Keys);
      m[k] + Total(m - {k})
  }

  /** The keys in `s` only. */
  function Restrict(m: map<Id, int>, s: set<Id>): map<Id, int> { map k | k in m && k in s :: m[k] }

  lemma {:induction false} TotalRemove(m: map<Id, int>, k: Id)
    requires k in m
    ensures Total(m) == m[k] + Total(m - {k})
    decreases |m|
  {
    var j :| j in m && Total(m) == m[j] + Total(m - {j});
    if j != k {
      TotalRemove(m - {j}, k);
      TotalRemove(m - {k}, j);
      assert m - {j} - {k} == m - {k} - {j};
    }
  }

  lemma TotalPut(m: map<Id, int>, k: Id, v: int)
    ensures Total(m[k := v]) == Total(m) - (if k in m then m[k] else 0) + v
  {
    TotalRemove(m[k := v], k);
    assert m[k := v] - {k} == m - {k};
    if k in m { TotalRemove(m, k); } else { assert m - {k} == m; }
  }

  lemma SplitInside(m: map<Id, int>, s: set<Id>, k: Id)
    requires k in m && k in s
    ensures Total(Restrict(m, s)) == m[k] + Total(Restrict(m - {k}, s))
    ensures m - s == m - {k} - s
  {
    TotalRemove(Restrict(m, s), k);
    assert Restrict(m, s) - {k} == Restrict(m - {k}, s);
  }

  lemma SplitOutside(m: map<Id, int>, s: set<Id>, k: Id)
    requires k in m && k !in s
    ensures Total(m - s) == m[k] + Total(m - {k} - s)
    ensures Restrict(m, s) == Restrict(m - {k}, s)
  {
    TotalRemove(m - s, k);
    assert m - s - {k} == m - {k} - s;
  }

  lemma {:induction false} TotalSplit(m: map<Id, int>, s: set<Id>)
    ensures Total(m) == Total(m - s) + Total(Restrict(m, s))
    decreases |m|
  {
    if m != map[] {
      var k :| k in m;
      TotalRemove(m, k);
      TotalSplit(m - {k}, s);
      if k in s { SplitInside(m, s, k); } else { SplitOutside(m, s, k); }
    } else {
      assert m - s == m && Restrict(m, s) == m;
    }
  }

  lemma {:induction false} TotalNonNegative(m: map<Id, int>)
    requires forall k :: k in m ==> m[k] >= 0
    ensures Total(m) >= 0
    decreases |m|
  {
    if m != map[] {
      var k :| k in m && Total(m) == m[k] + Total(m - {k});
      TotalNonNegative(m - {k});
    }
  }
}
