/** Pagination: the pages of a listing tile it. */
module Query {

  datatype Meta = Meta(page: nat, limit: nat, total: nat, totalPages: nat, hasNext: bool, hasPrev: bool)

  function PaginationParams(page: int, limit: int): (int, int) {
    ((page - 1) * limit, limit)
  }

  /** Math.ceil of an exact quotient. */
  function CeilDiv(a: nat, b: nat): nat
    requires b > 0
  {
    (a + b - 1) / b
  }

  function PaginationMeta(page: nat, limit: nat, total: nat): Meta
    requires limit > 0
  {
    Meta(page, limit, total, CeilDiv(total, limit), page * limit < total, page > 1)
  }

  function Clip(n: int, hi: nat): nat {
    if n < 0 then 0 else if n > hi then hi else n
  }

  /** The rows a query with the given skip and take returns. */
  function Fetch<T>(rows: seq<T>, page: nat, limit: nat): seq<T>
    requires page >= 1
  {
    var (skip, take) := PaginationParams(page, limit);
    var from := Clip(skip, |rows|);
    rows[from..Clip(from + take, |rows|)]
  }

  function FirstPages<T>(rows: seq<T>, limit: nat, n: nat): seq<T> {
    if n == 0 then [] else FirstPages(rows, limit, n - 1) + Fetch(rows, n, limit)
  }

  lemma {:induction false} FirstPagesArePrefix<T>(rows: seq<T>, limit: nat, n: nat)
    requires limit > 0
    ensures FirstPages(rows, limit, n) == rows[..Clip(n * limit, |rows|)]
  {
    if n > 0 {
      FirstPagesArePrefix(rows, limit, n - 1);
      assert (n - 1) * limit + limit == n * limit;
      assert (n - 1) * limit >= 0;
    }
  }

  lemma Scale(a: nat, b: nat, m: nat)
    requires a <= b
    ensures a * m <= b * m
  {
    assert b * m == a * m + (b - a) * m;
  }

  /** k pages reach the end exactly from the ceiling on. */
  lemma CeilDivIsLeast(total: nat, limit: nat, k: nat)
    requires limit > 0
    ensures CeilDiv(total, limit) <= k <==> total <= k * limit
  {
    var c := CeilDiv(total, limit);
    assert c * limit <= total + limit - 1 < c * limit + limit;
    if c <= k {
      Scale(c, k, limit);
    } else {
      Scale(k + 1, c, limit);
      assert (k + 1) * limit == k * limit + limit;
    }
  }

  lemma FetchSize<T>(rows: seq<T>, page: nat, limit: nat, skip: nat)
    requires limit > 0 && page >= 1 && skip == (page - 1) * limit
    ensures Fetch(rows, page, limit) == [] <==> |rows| <= skip
    ensures skip + limit <= |rows| ==> |Fetch(rows, page, limit)| == limit
  {
  }

  lemma AllPages<T>(rows: seq<T>, limit: nat, n: nat)
    requires limit > 0 && |rows| <= n * limit
    ensures FirstPages(rows, limit, n) == rows
  {
    FirstPagesArePrefix(rows, limit, n);
    assert rows[..|rows|] == rows;
  }

  lemma Distribute(page: nat, limit: nat)
    requires page >= 1
    ensures (page - 1) * limit + limit == page * limit
  {
  }

  /** Pages 1..totalPages concatenate to the listing, later pages are empty, and hasNext holds
      exactly before the last page. */
  lemma PagesTile<T>(rows: seq<T>, limit: nat, page: nat)
    requires limit > 0 && page >= 1
    ensures var meta := PaginationMeta(page, limit, |rows|);
      && FirstPages(rows, limit, meta.totalPages) == rows
      && (page > meta.totalPages <==> Fetch(rows, page, limit) == [])
      && (meta.hasNext <==> page < meta.totalPages)
      && (meta.hasNext ==> |Fetch(rows, page, limit)| == limit)
      && (meta.hasPrev <==> PaginationParams(page, limit).0 > 0)
      && meta.page == page && meta.limit == limit && meta.total == |rows|
  {
    var pages, total := CeilDiv(|rows|, limit), |rows|;
    CeilDivIsLeast(total, limit, pages);
    AllPages(rows, limit, pages);
    var skip, end := (page - 1) * limit, page * limit;
    Scale(0, page - 1, limit);
    assert skip + limit == end by {
      Distribute(page, limit);
    }
    FetchSize(rows, page, limit, skip);
    CeilDivIsLeast(total, limit, page - 1);
    CeilDivIsLeast(total, limit, page);
  }
}
