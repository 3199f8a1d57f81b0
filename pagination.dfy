/** `LIMIT 20 OFFSET $1` with `$1 = (page_number - 1) * 20`: the page arithmetic of the
    paginated listings and the way PostgreSQL applies LIMIT and OFFSET to an ordered result. */
module Pagination {
  import opened Wrappers
  import opened Schema
  import opened Sequences

  /** Rows per page (the LIMIT of every paginated listing). */
  const PageSize: nat := 20

  /** The range of PostgreSQL's bigint, the type an OFFSET parameter is bound to. */
  const BigintMin: int := -0x8000_0000_0000_0000
  const BigintMax: int := 0x7FFF_FFFF_FFFF_FFFF

  function Min(a: int, b: int): int {
    if a <= b then a else b
  }

  /** The offset bound for 1-based page `page`. */
  function PageOffset(page: int): (offset: int)
    ensures page >= 1 ==> offset >= 0 && offset % PageSize == 0
    ensures page >= 1 <==> offset >= 0
  {
    (page - 1) * PageSize
  }

  /** The rows that `LIMIT limit OFFSET offset` keeps, for an offset PostgreSQL accepts. */
  function Slice<T>(rows: seq<T>, offset: nat, limit: nat): (r: seq<T>)
    ensures |r| == if offset >= |rows| then 0 else Min(limit, |rows| - offset)
    ensures forall i :: 0 <= i < |r| ==> r[i] == rows[offset + i]
  {
    if offset >= |rows| then [] else rows[offset..Min(offset + limit, |rows|)]
  }

  /** `LIMIT limit OFFSET offset` applied to an ordered result: an offset outside bigint
      or below zero is an error; otherwise the rows from position `offset` on, at most `limit`. */
  function LimitOffset<T>(rows: seq<T>, limit: nat, offset: int): (r: Result<seq<T>, DbError>)
    ensures r.Failure? <==> offset < 0 || offset > BigintMax
    ensures offset < BigintMin || offset > BigintMax ==> r == Failure(OffsetOutOfRange)
    ensures BigintMin <= offset < 0 ==> r == Failure(NegativeOffset)
    ensures r.Success? ==> |r.value| <= limit && r.value == rows[Min(offset, |rows|)..Min(offset + limit, |rows|)]
  {
    if offset < BigintMin || offset > BigintMax then Failure(OffsetOutOfRange)
    else if offset < 0 then Failure(NegativeOffset)
    else Success(Slice(rows, offset, limit))
  }

  /** Two adjacent windows make up one window as wide as both. */
  lemma SlicesAdjoin<T>(rows: seq<T>, offset: nat, a: nat, b: nat)
    ensures Slice(rows, offset, a) + Slice(rows, offset + a, b) == Slice(rows, offset, a + b)
  {
  }

  /** Pages 1 to k of `rows`, one after the other. */
  function PagesUpTo<T>(rows: seq<T>, k: nat): seq<T> {
    if k == 0 then [] else PagesUpTo(rows, k - 1) + Slice(rows, PageOffset(k), PageSize)
  }

  /** Reading pages 1, 2, ..., k in turn yields the first k * 20 rows, each exactly once:
      consecutive pages are contiguous and disjoint and skip nothing. */
  lemma {:induction false} PagesUpToIsPrefix<T>(rows: seq<T>, k: nat)
    ensures PagesUpTo(rows, k) == Slice(rows, 0, k * PageSize)
    ensures PagesUpTo(rows, k) == rows[..Min(|rows|, k * PageSize)]
  {
    if k > 0 {
      PagesUpToIsPrefix(rows, k - 1);
      SlicesAdjoin(rows, 0, (k - 1) * PageSize, PageSize);
    }
  }

  /** Row `i` of the full result is on page `i / 20 + 1`, at position `i % 20`, and on no
      other page. */
  lemma RowOnItsPage<T>(rows: seq<T>, i: nat, page: int)
    requires i < |rows|
    ensures var n := i / PageSize + 1;
      && 0 <= PageOffset(n) <= i < PageOffset(n) + PageSize
      && Slice(rows, PageOffset(n), PageSize)[i % PageSize] == rows[i]
    ensures page >= 1 && PageOffset(page) <= i < PageOffset(page) + PageSize <==> page == i / PageSize + 1
  {
  }

  /** Every window of a sorted result is sorted. */
  lemma SliceKeepsOrder<T>(le: (T, T) -> bool, rows: seq<T>, offset: nat, limit: nat)
    requires SortedBy(le, rows)
    ensures SortedBy(le, Slice(rows, offset, limit))
  {
  }

  /** In a sorted result, a row on an earlier page never comes after a row on a later one. */
  lemma EarlierPageFirst<T>(le: (T, T) -> bool, rows: seq<T>, p: int, q: int, a: nat, b: nat)
    requires SortedBy(le, rows) && 1 <= p < q
    requires a < |Slice(rows, PageOffset(p), PageSize)| && b < |Slice(rows, PageOffset(q), PageSize)|
    ensures le(Slice(rows, PageOffset(p), PageSize)[a], Slice(rows, PageOffset(q), PageSize)[b])
  {
  }
}
