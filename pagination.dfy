/**
 * Pagination as both list endpoints compute it:
 *   limit  = parseInt(limit)  || result.length
 *   offset = parseInt(offset) || 0
 *   page   = result.slice(offset, offset + limit)
 * with `Array.prototype.slice`'s clamping of negative and out-of-range indices.
 */
module Pagination {
  import opened Js

  function Min(a: int, b: int): int { if a < b then a else b }
  function Max(a: int, b: int): int { if a < b then b else a }

  /** How `slice` turns an index argument into a position: negative counts from the end; clamped to `[0, len]`. */
  function RelativeIndex(k: int, len: nat): (r: nat)
    ensures r <= len
    ensures 0 <= k ==> r == Min(k, len)
    ensures k < 0 ==> r == Max(len + k, 0)
  {
    if k < 0 then (if len + k < 0 then 0 else len + k)
    else if k < len then k
    else len
  }

  /** `s.slice(start, end)` */
  function Slice<T>(s: seq<T>, start: int, end: int): (r: seq<T>)
    ensures var from, to := RelativeIndex(start, |s|), RelativeIndex(end, |s|);
      |r| == Max(0, to - from) &&
      forall i :: 0 <= i < |r| ==> from + i < |s| && r[i] == s[from + i]
  {
    var from, to := RelativeIndex(start, |s|), RelativeIndex(end, |s|);
    if from < to then s[from..to] else []
  }

  /** `parseInt(limit) || count`: a missing (NaN) or zero limit means "everything". */
  function EffectiveLimit(limit: Option<int>, count: nat): int {
    if limit.Some? && limit.value != 0 then limit.value else count
  }

  /** `parseInt(offset) || 0` */
  function EffectiveOffset(offset: Option<int>): int {
    if offset.Some? then offset.value else 0
  }

  /** The `{ properties, total, limit, offset }` object both list endpoints return. */
  datatype Page<T> = Page(items: seq<T>, total: nat, limit: int, offset: int)

  /** Paginates an already filtered result. */
  function Paginate<T>(result: seq<T>, limit: Option<int>, offset: Option<int>): (p: Page<T>)
    ensures p.total == |result|
    ensures p.limit == EffectiveLimit(limit, |result|) && p.offset == EffectiveOffset(offset)
  {
    var lim := EffectiveLimit(limit, |result|);
    var off := EffectiveOffset(offset);
    Page(Slice(result, off, off + lim), |result|, lim, off)
  }

  /**
   * For a non-negative offset and limit the page is the run of `limit` items
   * starting at `offset`, cut short by the end of the result.
   */
  lemma PageWindow<T>(result: seq<T>, limit: Option<int>, offset: Option<int>)
    requires 0 <= EffectiveOffset(offset) && 0 <= EffectiveLimit(limit, |result|)
    ensures var p := Paginate(result, limit, offset);
      |p.items| == Max(0, Min(p.limit, p.total - p.offset)) &&
      forall i :: 0 <= i < |p.items| ==> p.items[i] == result[p.offset + i]
  {
  }

  /** With neither limit nor offset the page is the whole result. */
  lemma NoPaginationIsEverything<T>(result: seq<T>)
    ensures Paginate(result, None, None).items == result
  {
    var p := Paginate(result, None, None);
    assert p.items == result[0..|result|];
  }

  /** Five items, `limit=2`, `offset=4`: one item on the page, total five. */
  lemma LastPartialPage<T>(result: seq<T>)
    requires |result| == 5
    ensures var p := Paginate(result, Some(2), Some(4));
      p.items == [result[4]] && p.total == 5
  {
  }
}
