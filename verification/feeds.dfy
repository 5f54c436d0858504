/**
 * Feed queries (`db_misc.go`): the paging clauses, and the order in which a
 * feed's total, its items and the per-item refetch (`DbFill`) are queried,
 * with the short-circuits between them.
 *
 * Queries are not run: each one is represented by its outcome, and every
 * function reports which queries it issued.
 */
module Feeds {
  import opened Wrappers
  import opened Ints
  import opened ErrorModel
  import opened Paging

  /** A clause `qPaging` appends: `limit $1` or `offset $1` with its argument. */
  datatype Clause = LimitClause(n: u64) | OffsetClause(n: u64)

  /**
   * `qPaging`: a limit clause when the valid limit is positive, then an offset
   * clause when the offset is positive, and nothing else.
   */
  function QPaging(p: FeedParams): (r: seq<Clause>)
    ensures LimitClause(ValidLimit(p)) in r <==> ValidLimit(p) > 0
    ensures OffsetClause(ValidOffset(p)) in r <==> ValidOffset(p) > 0
    ensures forall i :: 0 <= i < |r| ==> r[i] in {LimitClause(ValidLimit(p)), OffsetClause(ValidOffset(p))}
    ensures forall i, j :: 0 <= i < j < |r| ==> r[i].LimitClause? && r[j].OffsetClause?
  {
    var limit := ValidLimit(p);
    var offset := ValidOffset(p);
    (if limit > 0 then [LimitClause(limit)] else []) + (if offset > 0 then [OffsetClause(offset)] else [])
  }

  /** The outcome of one query: the rows it scanned into its output, or its error. */
  datatype QueryResult<T> = Rows(value: T) | QueryFailed(err: Failure)

  /** The queries a feed operation can issue. */
  datatype Query = TotalQuery | ItemsQuery | FillQuery(index: nat)

  /** A feed: its items, once fetched, and its page metadata. */
  datatype Feed<T> = Feed(items: Option<T>, pageInfo: PageInfo)

  /** What a feed operation returns: the feed as it left it, its error, and the queries it issued in order. */
  datatype FeedRun<T> = FeedRun(feed: Feed<T>, err: Chain, queries: seq<Query>)

  /**
   * `dbMaybeGetFeedTotal`: with `NoPageInfo` nothing happens. Otherwise the
   * count query runs; its error is returned as it is, and on success the page
   * metadata is computed from the valid limit, the offset and the count.
   */
  function DbMaybeGetFeedTotal<T>(feed: Feed<T>, p: FeedParams, total: QueryResult<u64>): (r: FeedRun<T>)
    ensures p.noPageInfo ==> r == FeedRun(feed, [], [])
    ensures !p.noPageInfo ==> r.queries == [TotalQuery]
    ensures !p.noPageInfo && total.QueryFailed? ==> r.err == total.err && r.feed == feed
    ensures !p.noPageInfo && total.Rows? ==>
              r.err == [] && r.feed == feed.(pageInfo := PageInfoFrom(ValidLimit(p), ValidOffset(p), total.value))
  {
    if p.noPageInfo then FeedRun(feed, [], [])
    else match total
      case QueryFailed(e) => FeedRun(feed, e, [TotalQuery])
      case Rows(n) => FeedRun(feed.(pageInfo := PageInfoFrom(ValidLimit(p), ValidOffset(p), n)), [], [TotalQuery])
  }

  /**
   * `dbGetFeedUnpaged`: the total, then, unless that failed or the valid
   * limit is 0, the items query.
   */
  function DbGetFeedUnpaged<T>(feed: Feed<T>, p: FeedParams, total: QueryResult<u64>, items: QueryResult<T>): (r: FeedRun<T>)
    ensures DbMaybeGetFeedTotal(feed, p, total).err != [] ==> r == DbMaybeGetFeedTotal(feed, p, total)
    ensures ItemsQuery in r.queries <==> DbMaybeGetFeedTotal(feed, p, total).err == [] && ValidLimit(p) > 0
    ensures ValidLimit(p) == 0 ==> r.err == DbMaybeGetFeedTotal(feed, p, total).err
    ensures ItemsQuery in r.queries && items.QueryFailed? ==> r.err == items.err
    ensures ItemsQuery in r.queries && items.Rows? ==> r.err == [] && r.feed.items == Some(items.value)
  {
    var t := DbMaybeGetFeedTotal(feed, p, total);
    if t.err != [] then t
    else if ValidLimit(p) == 0 then t
    else match items
      case QueryFailed(e) => FeedRun(t.feed, e, t.queries + [ItemsQuery])
      case Rows(v) => FeedRun(t.feed.(items := Some(v)), [], t.queries + [ItemsQuery])
  }

  /** An element of a fetched item list: whether it implements `DbFiller`, and what its `DbFill` would return. */
  datatype Item = Item(filler: bool, fillErr: Chain)

  /** `maybeDbFill`: a no-op returning nil for a value that is not a `DbFiller`, else `DbFill`'s result. */
  function MaybeDbFill(item: Item): (r: Chain)
    ensures !item.filler ==> r == []
    ensures item.filler ==> r == item.fillErr
  {
    if item.filler then item.fillErr else []
  }

  /** The error of filling `items` one by one, stopping at the first failure. */
  function FillErr(items: seq<Item>): (r: Chain)
    ensures r == [] <==> forall i :: 0 <= i < |items| ==> MaybeDbFill(items[i]) == []
    ensures r != [] ==> exists i :: 0 <= i < |items| && r == MaybeDbFill(items[i]) && forall j :: 0 <= j < i ==> MaybeDbFill(items[j]) == []
  {
    if items == [] then []
    else if MaybeDbFill(items[0]) != [] then MaybeDbFill(items[0])
    else
      var r := FillErr(items[1..]);
      assert r != [] ==> exists i :: 1 <= i < |items| && r == MaybeDbFill(items[i]) && forall j :: 0 <= j < i ==> MaybeDbFill(items[j]) == [] by {
        if r != [] {
          var k :| 0 <= k < |items[1..]| && r == MaybeDbFill(items[1..][k]) && forall j :: 0 <= j < k ==> MaybeDbFill(items[1..][j]) == [];
          assert items[1..][k] == items[k + 1];
          forall j | 0 <= j < k + 1 ensures MaybeDbFill(items[j]) == [] {
            if j > 0 { assert items[j] == items[1..][j - 1]; }
          }
        }
      }
      r
  }

  /**
   * The loop of `maybeDbFillSlice`: fill each element in order and stop at the
   * first error. Reports the error and how many elements were visited.
   */
  method FillEach(items: seq<Item>) returns (err: Chain, visited: nat)
    ensures err == FillErr(items)
    ensures visited <= |items|
    ensures err == [] ==> visited == |items|
    ensures err != [] ==> visited >= 1 && err == MaybeDbFill(items[visited - 1])
    ensures forall j :: 0 <= j < visited - 1 || (err == [] && 0 <= j < visited) ==> MaybeDbFill(items[j]) == []
  {
    var i := 0;
    while i < |items|
      invariant 0 <= i <= |items|
      invariant forall j :: 0 <= j < i ==> MaybeDbFill(items[j]) == []
      invariant FillErr(items) == FillErr(items[i..])
    {
      var e := MaybeDbFill(items[i]);
      if e != [] {
        return e, i + 1;
      }
      assert items[i..][1..] == items[i + 1..];
      i := i + 1;
    }
    return [], |items|;
  }

  /** `dbQueryWithFill`: the key query, then, only if it succeeded, a fill of every element. */
  function DbQueryWithFill(keys: QueryResult<seq<Item>>): (r: (Chain, seq<Query>))
    ensures keys.QueryFailed? ==> r == (keys.err, [ItemsQuery])
    ensures keys.Rows? ==> |r.1| >= 1 && r.1[0] == ItemsQuery && r.0 == FillErr(keys.value)
    ensures keys.Rows? ==> r.1[1..] == FillQueries(keys.value, 0)
  {
    match keys
    case QueryFailed(e) => (e, [ItemsQuery])
    case Rows(v) => (FillErr(v), [ItemsQuery] + FillQueries(v, 0))
  }

  /**
   * The `DbFill` calls made while filling `items[from..]`: one per element
   * that is a `DbFiller`, in order, up to and including the first that fails.
   */
  function FillQueries(items: seq<Item>, from: nat): (r: seq<Query>)
    requires from <= |items|
    ensures forall i :: 0 <= i < |r| ==> r[i].FillQuery? && from <= r[i].index < |items| && items[r[i].index].filler
    ensures forall i, j :: 0 <= i < j < |r| ==> r[i].index < r[j].index
    ensures forall i :: 0 <= i < |r| - 1 ==> items[r[i].index].fillErr == []
    ensures r == [] <==> forall k :: from <= k < |items| ==> !items[k].filler
    decreases |items| - from
  {
    if from == |items| then []
    else if !items[from].filler then FillQueries(items, from + 1)
    else if items[from].fillErr != [] then [FillQuery(from)]
    else [FillQuery(from)] + FillQueries(items, from + 1)
  }

  /**
   * No filler is skipped: every filler that the fill loop reaches, because
   * no filler before it failed, gets its own `DbFill` call.
   */
  lemma {:induction false} FillQueriesComplete(items: seq<Item>, from: nat, k: nat)
    requires from <= k < |items| && items[k].filler && NoFillFailsBefore(items, from, k)
    ensures exists i :: 0 <= i < |FillQueries(items, from)| && FillQueries(items, from)[i] == FillQuery(k)
    decreases k - from
  {
    var r := FillQueries(items, from);
    if k == from {
      assert r[0] == FillQuery(k);
    } else {
      assert NoFillFailsBefore(items, from + 1, k);
      FillQueriesComplete(items, from + 1, k);
      var rest := FillQueries(items, from + 1);
      var i :| 0 <= i < |rest| && rest[i] == FillQuery(k);
      if items[from].filler {
        assert items[from].fillErr == [];
        assert r[i + 1] == rest[i];
      } else {
        assert r[i] == rest[i];
      }
    }
  }

  /** Every filler in `items[from..k]` fills without error, so filling reaches `k`. */
  predicate NoFillFailsBefore(items: seq<Item>, from: nat, k: nat)
    requires k <= |items|
  {
    forall j :: from <= j < k && items[j].filler ==> items[j].fillErr == []
  }

  /**
   * `dbGetFeedWithFill`: the total, then, unless that failed or the valid
   * limit is 0, the key query followed by the fills.
   */
  function DbGetFeedWithFill(feed: Feed<seq<Item>>, p: FeedParams, total: QueryResult<u64>, keys: QueryResult<seq<Item>>): (r: FeedRun<seq<Item>>)
    ensures DbMaybeGetFeedTotal(feed, p, total).err != [] ==> r == DbMaybeGetFeedTotal(feed, p, total)
    ensures ItemsQuery in r.queries <==> DbMaybeGetFeedTotal(feed, p, total).err == [] && ValidLimit(p) > 0
    ensures ItemsQuery in r.queries ==> r.err == DbQueryWithFill(keys).0
    ensures ItemsQuery in r.queries ==> r.queries == DbMaybeGetFeedTotal(feed, p, total).queries + DbQueryWithFill(keys).1
    ensures ItemsQuery in r.queries && keys.Rows? ==> r.feed.items == Some(keys.value)
    ensures ItemsQuery in r.queries && keys.QueryFailed? ==> r.feed.items == feed.items
    ensures r.feed.pageInfo == DbMaybeGetFeedTotal(feed, p, total).feed.pageInfo
    ensures ValidLimit(p) == 0 ==> r.err == DbMaybeGetFeedTotal(feed, p, total).err
  {
    var t := DbMaybeGetFeedTotal(feed, p, total);
    if t.err != [] then t
    else if ValidLimit(p) == 0 then t
    else
      var (err, qs) := DbQueryWithFill(keys);
      var feed' := if keys.Rows? then t.feed.(items := Some(keys.value)) else t.feed;
      FeedRun(feed', err, t.queries + qs)
  }

  /** A feed requested with limit 0 is only counted: no items query is issued. */
  lemma ZeroLimitOnlyCounts<T>(feed: Feed<T>, p: FeedParams, total: QueryResult<u64>, items: QueryResult<T>)
    requires p.limit == Some(0)
    ensures DbGetFeedUnpaged(feed, p, total, items).queries == (if p.noPageInfo then [] else [TotalQuery])
    ensures !p.noPageInfo && total.Rows? ==> DbGetFeedUnpaged(feed, p, total, items).feed.pageInfo.totalPages == 1
  {
  }
}
