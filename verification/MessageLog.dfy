/** The server's message table for one channel and its two queries
    (backend/services/community-service/repository.go, user-service/repository.go). */
module MessageLog {
  import opened Wrappers
  import opened Decimal
  import opened MessageOrder
  import opened MessageStore
  import opened MessageConvergence

  const DEFAULT_SINCE_LIMIT: int := 200
  const DEFAULT_PAGE_LIMIT: int := 50

  /** One page of history; `nextCursor` is empty on the last page. */
  datatype Page = Page(rows: seq<Msg>, nextCursor: string)

  function Take<T>(s: seq<T>, n: int): seq<T> {
    if n <= 0 then [] else if n >= |s| then s else s[..n]
  }

  function Reverse(s: seq<Msg>): seq<Msg> {
    if s == [] then [] else [s[|s|-1]] + Reverse(s[..|s|-1])
  }

  lemma {:induction false} ReverseIndex(s: seq<Msg>)
    ensures |Reverse(s)| == |s|
    ensures forall i :: 0 <= i < |s| ==> Reverse(s)[i] == s[|s|-1-i]
  {
    if s != [] { ReverseIndex(s[..|s|-1]); }
  }

  lemma {:induction false} ReverseMembers(s: seq<Msg>)
    ensures forall x :: x in Reverse(s) <==> x in s
  {
    if s != [] {
      ReverseMembers(s[..|s|-1]);
      assert s == s[..|s|-1] + [s[|s|-1]];
    }
  }

  /** `WHERE seq > since ORDER BY seq ASC` over rows stored in seq order. */
  function Above(rows: seq<Msg>, since: int): seq<Msg> {
    Filter((m: Msg) => m.seqNo > since, rows)
  }

  /** `[WHERE seq < bound] ORDER BY seq DESC`. */
  function Below(rows: seq<Msg>, bound: Option<int>): seq<Msg> {
    Reverse(Filter((m: Msg) => bound.Some? ==> m.seqNo < bound.value, rows))
  }

  function Since(rows: seq<Msg>, since: int, limit: int): seq<Msg> {
    Take(Above(rows, since), if limit <= 0 then DEFAULT_SINCE_LIMIT else limit)
  }

  /** The page below `bound`: a row beyond the limit only announces a further page. */
  function HistoryPage(rows: seq<Msg>, limit: int, bound: Option<int>): Page
    requires limit > 0
  {
    var sel := Below(rows, bound);
    if |sel| > limit then Page(sel[..limit], FormatInt(sel[limit-1].seqNo)) else Page(sel, "")
  }

  function BoundOf(cursor: string): Result<Option<int>, string> {
    if cursor == "" then Ok(None)
    else match ParseInt(cursor)
         case Some(n) => Ok(Some(n))
         case None => Err("invalid cursor")
  }

  /** The reply to a history request: catch-up after `sinceSeq` when it is positive, a page
      of history otherwise. */
  function Reply(rows: seq<Msg>, sinceSeq: int, requested: int, cursor: string): Result<Page, string> {
    var limit := if requested > 0 then requested else DEFAULT_PAGE_LIMIT;
    if sinceSeq > 0 then Ok(Page(Since(rows, sinceSeq, limit), ""))
    else match BoundOf(cursor)
         case Ok(bound) => Ok(HistoryPage(rows, limit, bound))
         case Err(e) => Err(e)
  }

  method GetChannelMessages(rows: seq<Msg>, limit: int, cursor: string) returns (r: Result<Page, string>)
    requires limit > 0
    ensures match BoundOf(cursor)
            case Ok(bound) => r == Ok(HistoryPage(rows, limit, bound))
            case Err(e) => r == Err(e)
  {
    var bound := None;
    if cursor != "" {
      var parsed := ParseInt(cursor);
      if parsed.None? { return Err("invalid cursor"); }
      bound := parsed;
    }
    var sel := Below(rows, bound);
    var fetched := Take(sel, limit + 1);
    var messages := [];
    for i := 0 to |fetched|
      invariant messages == fetched[..i]
    {
      messages := messages + [fetched[i]];
    }
    assert messages == fetched;
    var nextCursor := "";
    if |messages| > limit {
      assert fetched == sel[..limit+1] && fetched[..limit] == sel[..limit];
      nextCursor := FormatInt(messages[limit-1].seqNo);
      messages := messages[..limit];
    }
    r := Ok(Page(messages, nextCursor));
  }

  method GetChannelMessagesSince(rows: seq<Msg>, sinceSeq: int, limit: int) returns (r: seq<Msg>)
    ensures r == Since(rows, sinceSeq, limit)
    ensures Ascending(rows) ==> CatchesUp(r, rows, sinceSeq, if limit > 0 then limit else 200)
  {
    SinceCatchesUp(rows, sinceSeq, limit);
    var n := limit;
    if n <= 0 { n := DEFAULT_SINCE_LIMIT; }
    var fetched := Take(Above(rows, sinceSeq), n);
    r := [];
    for i := 0 to |fetched|
      invariant r == fetched[..i]
    {
      r := r + [fetched[i]];
    }
  }

  method GetMessages(rows: seq<Msg>, sinceSeq: int, requested: int, cursor: string)
    returns (r: Result<Page, string>)
    ensures r == Reply(rows, sinceSeq, requested, cursor)
  {
    var limit := DEFAULT_PAGE_LIMIT;
    if requested > 0 { limit := requested; }
    if sinceSeq > 0 {
      var since := GetChannelMessagesSince(rows, sinceSeq, limit);
      r := Ok(Page(since, ""));
    } else {
      r := GetChannelMessages(rows, limit, cursor);
    }
  }

  // ---------- Catch-up and paging on ascending rows ----------

  /** What a catch-up of at most `n` messages is: messages above the seq, ascending, none left
      out below one that is in, and none left out at all unless there are `n`. */
  ghost predicate CatchesUp(r: seq<Msg>, rows: seq<Msg>, since: int, n: int) {
    && Ascending(r) && |r| <= n
    && (forall m :: m in r ==> m in rows && m.seqNo > since)
    && forall m :: m in rows && m.seqNo > since && m !in r ==>
         |r| == n && forall x :: x in r ==> x.seqNo < m.seqNo
  }

  lemma SinceCatchesUp(rows: seq<Msg>, since: int, limit: int)
    ensures Ascending(rows) ==> CatchesUp(Since(rows, since, limit), rows, since, if limit > 0 then limit else 200)
  {
    var above, r := Above(rows, since), Since(rows, since, limit);
    AboveMembers(rows, since);
    if Ascending(rows) {
      FilterAscending((m: Msg) => m.seqNo > since, rows);
      forall i | 0 <= i < |r| ensures above[i] in r { assert r[i] in r; }
      forall m | m in above && m !in r ensures |r| < |above| && forall x :: x in r ==> x.seqNo < m.seqNo {
        var i :| 0 <= i < |above| && above[i] == m;
        assert i >= |r|;
      }
    }
  }

  lemma AboveMembers(rows: seq<Msg>, since: int)
    ensures forall m :: m in Above(rows, since) <==> m in rows && m.seqNo > since
  {
    FilterSorted((m: Msg) => m.seqNo > since, rows);
  }

  lemma {:induction false} FilterAscending(keep: Msg -> bool, s: seq<Msg>)
    requires Ascending(s)
    ensures Ascending(Filter(keep, s))
  {
    if s != [] {
      var t, e := s[..|s|-1], s[|s|-1];
      FilterAscending(keep, t);
      FilterSorted(keep, t);
      forall i | 0 <= i < |Filter(keep, t)| ensures Filter(keep, t)[i].seqNo < e.seqNo {
        assert Filter(keep, t)[i] in t;
      }
    }
  }

  /** Moving the bound up to the last row taken removes exactly the rows taken. */
  lemma {:induction false} AboveTaken(rows: seq<Msg>, since: int, k: nat)
    requires Ascending(rows) && 0 < k <= |Above(rows, since)|
    ensures Above(rows, Above(rows, since)[k-1].seqNo) == Above(rows, since)[k..]
  {
    var above := Above(rows, since);
    var last := above[k-1].seqNo;
    FilterAscending((m: Msg) => m.seqNo > since, rows);
    AboveMembers(rows, since);
    assert above[k-1] in above;
    AboveTwice(rows, since, last);
    AboveSplit(above, k);
  }

  lemma {:induction false} AboveTwice(rows: seq<Msg>, low: int, high: int)
    requires low <= high
    ensures Above(rows, high) == Above(Above(rows, low), high)
  {
    if rows != [] {
      var t, e := rows[..|rows|-1], rows[|rows|-1];
      AboveTwice(t, low, high);
      if e.seqNo > low {
        FilterSnoc((m: Msg) => m.seqNo > high, Above(t, low), e);
      } else {
        assert Above(t, low) + [] == Above(t, low);
      }
    }
  }

  lemma AboveSplit(s: seq<Msg>, k: nat)
    requires Ascending(s) && 0 < k <= |s|
    ensures Above(s, s[k-1].seqNo) == s[k..]
  {
    var b, head, tail := s[k-1].seqNo, s[..k], s[k..];
    assert s == head + tail;
    FilterAppend((m: Msg) => m.seqNo > b, head, tail);
    AllAbove(tail, b);
    NoneAbove(head, b);
  }

  lemma {:induction false} AllAbove(s: seq<Msg>, b: int)
    requires forall i :: 0 <= i < |s| ==> s[i].seqNo > b
    ensures Above(s, b) == s
  {
    if s != [] {
      AllAbove(s[..|s|-1], b);
      assert s == s[..|s|-1] + [s[|s|-1]];
    }
  }

  lemma {:induction false} NoneAbove(s: seq<Msg>, b: int)
    requires forall i :: 0 <= i < |s| ==> s[i].seqNo <= b
    ensures Above(s, b) == []
  {
    if s != [] {
      NoneAbove(s[..|s|-1], b);
    }
  }
}
