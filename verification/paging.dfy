/**
 * Feed parameters, page metadata and integer IDs (`types_misc.go`). All page
 * arithmetic is on Go's `uint64`.
 */
module Paging {
  import opened Wrappers
  import opened Text
  import opened Ints
  import opened Config
  import opened ErrorModel

  /** The paging part of `FeedParams`; `limit` is absent when the request gave none. */
  datatype FeedParams = FeedParams(limit: Option<u64>, offset: u64, noPageInfo: bool)

  /** `FeedParams.ValidLimit`: the default when absent, otherwise the request's limit capped at the maximum. */
  function ValidLimit(p: FeedParams): (r: u64)
    ensures r <= FeedSizeMax
    ensures p.limit.None? ==> r == FeedSizeDefault
    ensures p.limit.Some? ==> r == (if p.limit.value > FeedSizeMax then FeedSizeMax else p.limit.value)
  {
    match p.limit
    case None => FeedSizeDefault
    case Some(n) => if n > FeedSizeMax then FeedSizeMax else n
  }

  /** A valid limit is accepted as it is: asking again with it gives it back. */
  lemma ValidLimitIdempotent(p: FeedParams)
    ensures ValidLimit(p.(limit := Some(ValidLimit(p)))) == ValidLimit(p)
  {
    FeedSizeDefaultAllowed();
  }

  /** `FeedParams.ValidOffset`: the offset exactly as given. */
  function ValidOffset(p: FeedParams): (r: u64)
    ensures r == p.offset
  {
    p.offset
  }

  /** `PageInfo`; the two optional page numbers are the pointers `NextPage` and `PrevPage`. */
  datatype PageInfo = PageInfo(
    total: u64,
    totalPages: u64,
    page: u64,
    perPage: u64,
    nextPage: Option<u64>,
    prevPage: Option<u64>,
    hasNext: bool,
    hasPrev: bool)

  /**
   * `math.Ceil(float64(total) / float64(limit))`, computed exactly: the least
   * `n` with `n * limit >= total`.
   */
  function CeilDiv(total: u64, limit: u64): (n: u64)
    requires limit > 0
    ensures n * limit >= total
    ensures n == 0 || (n - 1) * limit < total
  {
    (total + limit - 1) / limit
  }

  /** `uint64` subtraction, which wraps around below zero. */
  function SubU64(a: u64, b: u64): (r: u64)
    ensures a >= b ==> r == a - b
    ensures a < b ==> r == a - b + MaxUint64 + 1
  {
    if a >= b then a - b else a - b + MaxUint64 + 1
  }

  /**
   * `PageInfoFrom(limit, offset, total)`: 0-based page number, ceiling page
   * count, and neighbouring pages when they exist. A limit of 0 means a single
   * page. The `totalPages - 1` of the code is a `uint64` subtraction; the
   * `total > 0` test before it keeps its wrap-around from mattering.
   */
  function PageInfoFrom(limit: u64, offset: u64, total: u64): (r: PageInfo)
    ensures r.total == total && r.perPage == limit
    ensures limit == 0 ==> r.totalPages == 1 && r.page == 0
    ensures limit > 0 ==> r.page * limit <= offset < (r.page + 1) * limit
    ensures limit > 0 ==> r.totalPages * limit >= total && (r.totalPages == 0 || (r.totalPages - 1) * limit < total)
    ensures r.nextPage.Some? <==> total > 0 && r.page + 1 < r.totalPages
    ensures r.nextPage.Some? ==> r.nextPage.value == r.page + 1
    ensures r.prevPage.Some? <==> total > 0 && r.page > 0
    ensures r.prevPage.Some? ==> r.prevPage.value == r.page - 1
    ensures r.hasNext == r.nextPage.Some? && r.hasPrev == r.prevPage.Some?
  {
    var totalPages: u64 := if limit > 0 then CeilDiv(total, limit) else 1;
    var page: u64 := if limit > 0 then offset / limit else 0;
    var next: Option<u64> := if total > 0 && SubU64(totalPages, 1) > page then Some(page + 1) else None;
    var prev: Option<u64> := if total > 0 && page > 0 then Some(page - 1) else None;
    PageInfo(total, totalPages, page, limit, next, prev, next.Some?, prev.Some?)
  }

  /** With a positive limit there are no pages for no rows, and at least one page otherwise. */
  lemma PageCountZeroIffEmpty(limit: u64, offset: u64, total: u64)
    requires limit > 0
    ensures PageInfoFrom(limit, offset, total).totalPages == 0 <==> total == 0
  {
    var r := PageInfoFrom(limit, offset, total);
    if total == 0 && r.totalPages > 0 {
      MulMonotone(0, r.totalPages - 1, limit);
      assert false;
    }
  }

  /** A next page, when offered, starts before the last row: it is never empty. */
  lemma NextPageHasRows(limit: u64, offset: u64, total: u64)
    requires limit > 0 && PageInfoFrom(limit, offset, total).nextPage.Some?
    ensures PageInfoFrom(limit, offset, total).nextPage.value * limit < total
  {
    var r := PageInfoFrom(limit, offset, total);
    var n := r.nextPage.value;
    assert n <= r.totalPages - 1;
    assert n * limit <= (r.totalPages - 1) * limit by {
      MulMonotone(n, r.totalPages - 1, limit);
    }
  }

  lemma MulMonotone(a: nat, b: nat, k: nat)
    requires a <= b
    ensures a * k <= b * k
  {
  }

  /** The page holding the last row has no next page. */
  lemma LastPageHasNoNext(limit: u64, total: u64)
    requires limit > 0 && total > 0
    ensures PageInfoFrom(limit, total - 1, total).nextPage.None?
  {
    var r := PageInfoFrom(limit, total - 1, total);
    if r.page + 1 < r.totalPages {
      MulMonotone(r.page + 1, r.totalPages - 1, limit);
      assert false;
    }
  }

  /** `IntId`: a 64-bit integer key; `IsValid` and `Validate` take it by pointer, so it may be absent. */
  predicate IsValid(id: Option<i64>)
    ensures IsValid(id) ==> id.Some? && 1 <= id.value <= MaxInt64
    ensures id.Some? && id.value >= 1 ==> IsValid(id)
  {
    id.Some? && id.value > 0
  }

  /** `IntId.Validate`: an error for a missing ID and for one that is not positive, nil otherwise. */
  function Validate(id: Option<i64>): (r: Chain)
    ensures r == [] <==> IsValid(id)
    ensures id.None? ==> r == [Msg("missing integer ID")]
  {
    match id
    case None => [Msg("missing integer ID")]
    case Some(v) =>
      if IsValid(id) then []
      else [Msg("integer ID " + IntToString(v) + " doesn't appear to be valid")]
  }

  /** `IntId.Maybe`: the ID itself when it is valid, nothing otherwise. */
  function Maybe(id: i64): (r: Option<i64>)
    ensures r.Some? <==> id > 0
    ensures r.Some? ==> r.value == id
    ensures r.None? || IsValid(r)
  {
    if IsValid(Some(id)) then Some(id) else None
  }

  /** `IntIds.IsEmpty`: a missing list or an empty one. */
  predicate IntIdsIsEmpty(ids: Option<seq<i64>>)
    ensures IntIdsIsEmpty(ids) <==> ids.None? || ids.value == []
  {
    ids.None? || |ids.value| == 0
  }

  /** `IntIds.Strings`: each ID in decimal, in order. */
  method IntIdsStrings(ids: seq<i64>) returns (out: seq<string>)
    ensures |out| == |ids|
    ensures forall i :: 0 <= i < |ids| ==> Atoi(out[i]) == ids[i]
    ensures forall i :: 0 <= i < |ids| ==> |out[i]| > 0 && (out[i][0] == '-' <==> ids[i] < 0)
  {
    out := [];
    for i := 0 to |ids|
      invariant |out| == i
      invariant forall j :: 0 <= j < i ==> Atoi(out[j]) == ids[j]
      invariant forall j :: 0 <= j < i ==> |out[j]| > 0 && (out[j][0] == '-' <==> ids[j] < 0)
    {
      AtoiFormatInt(ids[i]);
      out := out + [IntToString(ids[i])];
    }
  }
}
