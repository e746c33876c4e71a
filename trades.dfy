/** Trade records as the trades endpoint returns them, and the facts about
    their order that the paginator relies on. */
module Trades {

  datatype Option<T> = None | Some(value: T)

  /** One trade, in the positional shape [ID, MILLISECOND TIMESTAMP, AMOUNT, PRICE]. */
  datatype Trade = Trade(id: int, ts: int, amount: real, price: real)

  /** Timestamps never decrease along the page: the request asks for `sort=1`. */
  ghost predicate Ascending(page: seq<Trade>)
  {
    forall i, j :: 0 <= i < j < |page| ==> page[i].ts <= page[j].ts
  }

  /** `a` is obtained from `b` by deleting elements and keeping the order of the rest. */
  ghost predicate IsSubseq(a: seq<Trade>, b: seq<Trade>)
    decreases |b|
  {
    if a == [] then true
    else if b == [] then false
    else (a[0] == b[0] && IsSubseq(a[1..], b[1..])) || IsSubseq(a, b[1..])
  }

  /** The records of `page` whose timestamp is not after `end`, in page order
      (the `filter` applied to the final page). */
  function UntilEnd(page: seq<Trade>, end: int): (r: seq<Trade>)
    ensures |r| <= |page|
    ensures IsSubseq(r, page)
    ensures forall t :: t in r <==> t in page && t.ts <= end
  {
    if page == [] then []
    else if page[0].ts <= end then [page[0]] + UntilEnd(page[1..], end)
    else UntilEnd(page[1..], end)
  }

  /** The filter keeps each record with `ts <= end` as many times as the page
      holds it, and drops every other record. */
  lemma {:induction false} UntilEndCounts(page: seq<Trade>, end: int, t: Trade)
    ensures multiset(UntilEnd(page, end))[t] == if t.ts <= end then multiset(page)[t] else 0
  {
    if page != [] {
      UntilEndCounts(page[1..], end, t);
      assert page == [page[0]] + page[1..];
    }
  }

  /** Nothing survives the filter when the page starts after `end` and ascends. */
  lemma UntilEndEmpty(page: seq<Trade>, end: int)
    requires Ascending(page) && page != [] && page[0].ts > end
    ensures UntilEnd(page, end) == []
  {
    forall i | 0 <= i < |page| ensures page[i].ts > end {
      assert i == 0 || page[0].ts <= page[i].ts;
    }
    var r := UntilEnd(page, end);
    assert forall t :: t in r ==> t in page && t.ts <= end;
  }

  /** On an ascending page the filter drops a tail only: what it keeps is a prefix. */
  lemma {:induction false} UntilEndIsPrefix(page: seq<Trade>, end: int)
    requires Ascending(page)
    ensures UntilEnd(page, end) == page[..|UntilEnd(page, end)|]
  {
    if page == [] {
    } else if page[0].ts <= end {
      var tail := page[1..];
      UntilEndIsPrefix(tail, end);
      var m := |UntilEnd(tail, end)|;
      assert UntilEnd(page, end) == [page[0]] + tail[..m];
      assert [page[0]] + tail[..m] == page[..m + 1];
    } else {
      UntilEndEmpty(page, end);
    }
  }

  /** The filtered final page of an ascending page is ascending. */
  lemma UntilEndAscending(page: seq<Trade>, end: int)
    requires Ascending(page)
    ensures Ascending(UntilEnd(page, end))
  {
    UntilEndIsPrefix(page, end);
  }

  /** No record of an ascending page is later than the page's last record. */
  lemma LastIsLatest(page: seq<Trade>, t: Trade)
    requires Ascending(page) && t in page
    ensures t.ts <= page[|page| - 1].ts
  {
    var i :| 0 <= i < |page| && page[i] == t;
  }
}
