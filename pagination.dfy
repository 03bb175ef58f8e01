/**
 * Page parameters as the listings read them, and the document store's
 * `skip`/`limit` semantics.
 */
module Pagination {
  import opened Common

  /**
   * A numeric query-string or route parameter after `parseInt`: absent (an
   * empty string behaves the same), or the integer a numeric string parses to.
   */
  datatype Param = Absent | Given(n: int)

  /** `parseInt(x || "d", 10)`: the default replaces only a missing parameter. */
  function OrDefault(p: Param, d: int): int {
    if p.Given? then p.n else d
  }

  /** `parseInt(x) || d`: the default also replaces a parameter that parses to 0. */
  function OrDefaultNonZero(p: Param, d: int): int {
    if p.Given? && p.n != 0 then p.n else d
  }

  /** `(page - 1) * limit`. */
  function SkipCount(page: int, limit: int): int {
    (page - 1) * limit
  }

  function Abs(n: int): nat {
    if n < 0 then -n else n
  }

  /**
   * `find(...).skip(skip).limit(limit)`: the server refuses a negative skip
   * (None); a limit of 0 means no limit and a negative limit counts as its
   * absolute value. The window is the run of consecutive items from `skip`.
   */
  function FindWindow<T>(xs: seq<T>, skip: int, limit: int): (r: Option<seq<T>>)
    ensures r.None? <==> skip < 0
    ensures r.Some? ==> skip + |r.value| <= |xs| || r.value == []
    ensures r.Some? ==> forall i :: 0 <= i < |r.value| ==> skip + i < |xs| && r.value[i] == xs[skip + i]
    ensures r.Some? && limit != 0 ==> |r.value| == if skip >= |xs| then 0 else Min(Abs(limit), |xs| - skip)
    ensures r.Some? && limit == 0 ==> |r.value| == if skip >= |xs| then 0 else |xs| - skip
  {
    if skip < 0 then None
    else
      var rest := if skip >= |xs| then [] else xs[skip..];
      if limit == 0 || Abs(limit) >= |rest| then Some(rest) else Some(rest[..Abs(limit)])
  }

  function Min(a: int, b: int): int {
    if a <= b then a else b
  }

  /**
   * `$skip` then `$limit` in an aggregation pipeline: the server refuses a
   * negative skip and a limit that is not positive (None).
   */
  function AggregateWindow<T>(xs: seq<T>, skip: int, limit: int): (r: Option<seq<T>>)
    ensures r.None? <==> skip < 0 || limit <= 0
    ensures r.Some? ==> r == FindWindow(xs, skip, limit)
  {
    if skip < 0 || limit <= 0 then None else FindWindow(xs, skip, limit)
  }

  /**
   * `Math.ceil(total / limit)`. Division by 0 gives a non-finite number,
   * which the JSON reply carries as `null` (None).
   */
  function TotalPages(total: nat, limit: int): (r: Option<int>)
    ensures r.None? <==> limit == 0
    ensures limit > 0 ==> (r.value - 1) * limit < total <= r.value * limit
    ensures limit < 0 ==> r.value * limit <= total < (r.value - 1) * limit
  {
    if limit == 0 then None
    else if limit > 0 then Some(CeilDiv(total, limit))
    else Some(-(total / -limit))
  }

  function CeilDiv(a: nat, b: int): (q: nat)
    requires b > 0
    ensures (q - 1) * b < a <= q * b
  {
    if a == 0 then 0 else 1 + CeilDiv(if a <= b then 0 else a - b, b)
  }

  /**
   * With a positive limit, paging from page 1 to `totalPages` reaches every
   * item: item i sits on page i / limit + 1 at position i % limit.
   */
  lemma PageOfItem<T>(xs: seq<T>, limit: int, i: nat)
    requires limit > 0 && i < |xs|
    ensures var page := i / limit + 1;
      && 1 <= page <= TotalPages(|xs|, limit).value
      && FindWindow(xs, SkipCount(page, limit), limit).Some?
      && i % limit < |FindWindow(xs, SkipCount(page, limit), limit).value|
      && FindWindow(xs, SkipCount(page, limit), limit).value[i % limit] == xs[i]
  {
    var page := i / limit + 1;
    var skip := SkipCount(page, limit);
    assert skip == i - i % limit;
    var t := TotalPages(|xs|, limit).value;
    if page > t {
      MulMonotone(t, page - 1, limit);
    }
  }

  /** A page past `totalPages` is empty. */
  lemma PastLastPage<T>(xs: seq<T>, limit: int, page: int)
    requires limit > 0 && page > TotalPages(|xs|, limit).value
    ensures FindWindow(xs, SkipCount(page, limit), limit) == Some([])
  {
    MulMonotone(TotalPages(|xs|, limit).value, page - 1, limit);
  }

  lemma MulMonotone(a: int, b: int, c: int)
    requires a <= b && c > 0
    ensures a * c <= b * c
  {
  }
}
