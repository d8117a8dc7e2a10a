// skip, buildPaginationMeta and findMany({ skip, take }): pages cut a fixed ordered result.
module Pagination {
  import Money

  datatype Meta = Meta(total: nat, page: int, limit: int, totalPages: int, hasNextPage: bool, hasPrevPage: bool)

  function Skip(page: int, limit: int): int { (page - 1) * limit }

  function Ceil(total: nat, limit: nat): nat
    requires limit >= 1
  {
    (total + limit - 1) / limit
  }

  function BuildMeta(total: nat, page: int, limit: nat): Meta
    requires limit >= 1
  {
    var totalPages := if Ceil(total, limit) < 1 then 1 else Ceil(total, limit);
    Meta(total, page, limit, totalPages, page < totalPages, page > 1)
  }

  function Min(a: nat, b: nat): nat { if a < b then a else b }

  /** findMany({ skip, take: limit }) on the ordered result. */
  function Page<T>(list: seq<T>, page: nat, limit: nat): seq<T>
    requires page >= 1
  {
    list[Min(Skip(page, limit), |list|)..Min(Skip(page, limit) + limit, |list|)]
  }

  /** Pages 1 to `n` one after the other. */
  function Pages<T>(list: seq<T>, n: nat, limit: nat): seq<T> {
    if n == 0 then [] else Pages(list, n - 1, limit) + Page(list, n, limit)
  }

  lemma {:induction false} PagesArePrefix<T>(list: seq<T>, n: nat, limit: nat)
    ensures Pages(list, n, limit) == list[..Min(n * limit, |list|)]
  {
    if n > 0 {
      PagesArePrefix(list, n - 1, limit);
      assert (n - 1) * limit + limit == n * limit;
    }
  }

  /** total <= totalPages * limit, and one page fewer would not do. */
  lemma CeilIsTight(total: nat, limit: nat)
    requires limit >= 1
    ensures total <= Ceil(total, limit) * limit < total + limit
  {
    var n := total + limit - 1;
    assert n == n / limit * limit + n % limit;
  }

  lemma Ordered(a: int, b: int, limit: nat)
    requires limit >= 1
    ensures a < b <==> a * limit < b * limit
    ensures a < b ==> a * limit + limit <= b * limit
  {
    Money.TimesKeepsOrder(a + 1, b, limit);
    Money.TimesKeepsOrder(b, a, limit);
    assert (a + 1) * limit == a * limit + limit;
  }

  /** Pages 1..totalPages put together are the whole result, in order. */
  lemma PagesPartition<T>(list: seq<T>, page: int, limit: nat)
    requires limit >= 1
    ensures Pages(list, BuildMeta(|list|, page, limit).totalPages, limit) == list
  {
    var n := BuildMeta(|list|, page, limit).totalPages;
    PagesArePrefix(list, n, limit);
    CeilIsTight(|list|, limit);
    if Ceil(|list|, limit) < 1 { assert Ceil(|list|, limit) * limit == 0; }
  }

  /** hasNextPage holds exactly when elements remain past this page, hasPrevPage when some lie before it. */
  lemma NextPageExactlyWhen<T>(list: seq<T>, page: nat, limit: nat)
    requires limit >= 1 && page >= 1
    ensures BuildMeta(|list|, page, limit).hasNextPage <==> page * limit < |list|
    ensures BuildMeta(|list|, page, limit).hasNextPage <==> Page(list, page + 1, limit) != []
    ensures BuildMeta(|list|, page, limit).hasPrevPage <==> Skip(page, limit) > 0
    ensures var meta := BuildMeta(|list|, page, limit);
            meta.total == |list| && meta.page == page && meta.limit == limit
  {
    CeilIsTight(|list|, limit);
    Ordered(page, Ceil(|list|, limit), limit);
    if Ceil(|list|, limit) <= page { Ordered(Ceil(|list|, limit), page + 1, limit); }
    assert Ceil(|list|, limit) <= page ==> Ceil(|list|, limit) * limit <= page * limit by {
      assert Ceil(|list|, limit) <= page ==> (page - Ceil(|list|, limit)) * limit >= 0;
    }
    assert Skip(page + 1, limit) == page * limit;
    Ordered(0, page - 1, limit);
  }

  /** Pages past the last are empty. */
  lemma PagesBeyondAreEmpty<T>(list: seq<T>, page: nat, limit: nat)
    requires limit >= 1 && page > BuildMeta(|list|, page, limit).totalPages
    ensures Page(list, page, limit) == []
  {
    var last := (page - 1) as nat;
    NextPageExactlyWhen(list, last, limit);
    assert last + 1 == page;
  }

  /** Element `k` is on page k / limit + 1. */
  lemma ElementIsOnItsPage<T>(list: seq<T>, k: nat, limit: nat)
    requires limit >= 1 && k < |list|
    ensures k % limit < |Page(list, k / limit + 1, limit)| && Page(list, k / limit + 1, limit)[k % limit] == list[k]
    ensures 1 <= k / limit + 1 <= BuildMeta(|list|, 1, limit).totalPages
  {
    assert k == k / limit * limit + k % limit;
    CeilIsTight(|list|, limit);
    Ordered(k / limit, Ceil(|list|, limit), limit);
  }

  lemma QuotientIs(k: nat, p: nat, limit: nat)
    requires limit >= 1 && p * limit <= k < p * limit + limit
    ensures k / limit == p
  {
    assert k == k / limit * limit + k % limit;
    Ordered(p, k / limit, limit);
    Ordered(k / limit, p, limit);
  }

  /** When the result repeats nothing, every element is on exactly one page. */
  lemma OnExactlyOnePage<T>(list: seq<T>, k: nat, limit: nat, page: nat)
    requires limit >= 1 && k < |list| && page >= 1
    requires forall i, j :: 0 <= i < j < |list| ==> list[i] != list[j]
    ensures list[k] in Page(list, page, limit) <==> page == k / limit + 1
  {
    if page == k / limit + 1 {
      ElementIsOnItsPage(list, k, limit);
    } else if list[k] in Page(list, page, limit) {
      var i :| 0 <= i < |Page(list, page, limit)| && Page(list, page, limit)[i] == list[k];
      assert Page(list, page, limit)[i] == list[Skip(page, limit) + i];
      QuotientIs(k, page - 1, limit);
      assert false;
    }
  }
}
