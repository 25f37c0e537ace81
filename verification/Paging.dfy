/** Keyset paging over a table that changes between requests: message history downwards by
    seq, member, community and friend lists upwards by id. */
module Paging {
  import opened Wrappers
  import opened Decimal
  import opened MessageOrder
  import opened MessageStore
  import opened MessageConvergence
  import opened MessageLog

  // ---------- One page, whatever the direction ----------

  /** One request of a paging run: the keys in the table when it was served, the page
      returned, and the cursor for the next request. Downward pages use negated keys. */
  datatype Leg = Leg(live: set<int>, page: seq<int>, next: Option<int>)

  ghost predicate Rising(s: seq<int>) { forall i, j :: 0 <= i < j < |s| ==> s[i] < s[j] }

  predicate Past(x: int, after: Option<int>) { after.Some? ==> x > after.value }

  /** What a keyset page promises about the keys past the cursor it was asked for. */
  ghost predicate Served(leg: Leg, after: Option<int>, limit: nat) {
    && Rising(leg.page)
    && (forall x :: x in leg.page ==> x in leg.live && Past(x, after))
    && (leg.next.None? ==> forall x :: x in leg.live && Past(x, after) ==> x in leg.page)
    && (leg.next.Some? ==>
          && |leg.page| == limit && (forall x :: x in leg.page ==> x <= leg.next.value)
          && Past(leg.next.value, after)
          && forall x :: x in leg.live && Past(x, after) && x <= leg.next.value ==> x in leg.page)
  }

  function After(legs: seq<Leg>): Option<int> { if legs == [] then None else legs[|legs|-1].next }

  /** A run from the first page, each request carrying the cursor of the one before. */
  ghost predicate Follows(legs: seq<Leg>, limit: nat) {
    legs != [] ==>
      var init := legs[..|legs|-1];
      && Follows(init, limit)
      && (init != [] ==> After(init).Some?)
      && Served(legs[|legs|-1], After(init), limit)
  }

  function Returned(legs: seq<Leg>): seq<int> {
    if legs == [] then [] else Returned(legs[..|legs|-1]) + legs[|legs|-1].page
  }

  lemma {:induction false} RunRises(legs: seq<Leg>, limit: nat)
    requires Follows(legs, limit)
    ensures Rising(Returned(legs))
    ensures After(legs).Some? ==> forall x :: x in Returned(legs) ==> x <= After(legs).value
  {
    if legs != [] {
      var init, last := legs[..|legs|-1], legs[|legs|-1];
      RunRises(init, limit);
      var got := Returned(init);
      forall i, j | 0 <= i < |got| && 0 <= j < |last.page| ensures got[i] < last.page[j] {
        assert got[i] in got && last.page[j] in last.page;
      }
    }
  }

  /** Every page but the last is full. */
  lemma {:induction false} RunCount(legs: seq<Leg>, limit: nat)
    requires Follows(legs, limit)
    ensures After(legs).Some? ==> |Returned(legs)| == |legs| * limit
    ensures legs != [] ==> |Returned(legs)| >= (|legs| - 1) * limit
  {
    if legs != [] {
      RunCount(legs[..|legs|-1], limit);
      assert |legs| * limit == (|legs| - 1) * limit + limit;
    }
  }

  /** Nothing that stays in the table is skipped. */
  lemma {:induction false} RunCovers(legs: seq<Leg>, limit: nat, x: int)
    requires Follows(legs, limit) && legs != []
    requires forall leg :: leg in legs ==> x in leg.live
    ensures x in Returned(legs) || (After(legs).Some? && x > After(legs).value)
  {
    var init, last := legs[..|legs|-1], legs[|legs|-1];
    assert last in legs;
    if init != [] {
      RunCovers(init, limit, x);
    }
  }

  /** Every returned key was live when its page was served. */
  lemma {:induction false} RunReturnsLive(legs: seq<Leg>, limit: nat, x: int)
    requires Follows(legs, limit) && x in Returned(legs)
    ensures exists leg :: leg in legs && x in leg.live && x in leg.page
  {
    var init, last := legs[..|legs|-1], legs[|legs|-1];
    if x in last.page {
      assert last in legs;
    } else {
      RunReturnsLive(init, limit, x);
      var leg :| leg in init && x in leg.live && x in leg.page;
      assert leg in legs;
    }
  }

  lemma {:induction false} RisingCount(s: seq<int>, pool: set<int>)
    requires Rising(s) && forall x :: x in s ==> x in pool
    ensures |s| <= |pool|
  {
    if s != [] {
      var t, e := s[..|s|-1], s[|s|-1];
      assert e in pool;
      RisingCount(t, pool - {e});
    }
  }

  lemma {:induction false} Occurrences(s: seq<int>, x: int)
    requires Rising(s)
    ensures multiset(s)[x] == if x in s then 1 else 0
  {
    if s != [] {
      var t, e := s[..|s|-1], s[|s|-1];
      assert s == t + [e];
      Occurrences(t, x);
    }
  }

  /** Paging to exhaustion returns every key that stays live exactly once, in order, and a
      run over a bounded pool of keys has a bounded number of pages. */
  lemma PagingIsExact(legs: seq<Leg>, limit: nat, pool: set<int>)
    requires Follows(legs, limit) && legs != []
    requires forall x :: x in Returned(legs) ==> x in pool
    ensures Rising(Returned(legs))
    ensures (|legs| - 1) * limit <= |pool|
    ensures After(legs).None? ==>
              forall x :: (forall leg :: leg in legs ==> x in leg.live) ==> multiset(Returned(legs))[x] == 1
    ensures forall x :: x in Returned(legs) ==> exists leg :: leg in legs && x in leg.live && x in leg.page
  {
    RunRises(legs, limit);
    RunCount(legs, limit);
    RisingCount(Returned(legs), pool);
    forall x | After(legs).None? && (forall leg :: leg in legs ==> x in leg.live)
      ensures multiset(Returned(legs))[x] == 1
    {
      RunCovers(legs, limit, x);
      Occurrences(Returned(legs), x);
    }
    forall x | x in Returned(legs)
      ensures exists leg :: leg in legs && x in leg.live && x in leg.page
    {
      RunReturnsLive(legs, limit, x);
    }
  }

  /** Cutting the ordered keys past the cursor at the limit makes a keyset page. */
  lemma CutIsServed(sel: seq<int>, live: set<int>, after: Option<int>, limit: nat)
    requires Rising(sel) && limit > 0 && forall x :: x in sel <==> x in live && Past(x, after)
    ensures Served(if |sel| > limit then Leg(live, sel[..limit], Some(sel[limit-1])) else Leg(live, sel, None),
                   after, limit)
  {
    if |sel| > limit {
      assert sel[limit-1] in sel;
      forall x | x in sel && x <= sel[limit-1] ensures x in sel[..limit] {
        var i :| 0 <= i < |sel| && sel[i] == x;
        assert sel[..limit][i] == x;
      }
    }
  }

  // ---------- Message history: downwards by seq ----------

  /** A message table and the highest sequence number it ever issued. */
  datatype Table = Table(rows: seq<Msg>, issued: int)

  ghost predicate Valid(t: Table) {
    && Ascending(t.rows)
    && forall m :: m in t.rows ==> 0 < m.seqNo <= t.issued <= MAX_INT64
  }

  function SeqNos(s: seq<Msg>): set<int> { set m | m in s :: m.seqNo }

  /** Deletes, edits and inserts: a new row gets a number above every number issued before. */
  ghost predicate Evolves(t: Table, u: Table) {
    && t.issued <= u.issued
    && forall m :: m in u.rows ==> m.seqNo in SeqNos(t.rows) || m.seqNo > t.issued
  }

  function Downward(s: seq<Msg>): seq<int> {
    seq(|s|, i requires 0 <= i < |s| => -s[i].seqNo)
  }

  lemma BelowMembers(rows: seq<Msg>, bound: Option<int>)
    requires Ascending(rows)
    ensures forall m :: m in Below(rows, bound) <==> m in rows && (bound.Some? ==> m.seqNo < bound.value)
    ensures Rising(Downward(Below(rows, bound)))
  {
    var keep := (m: Msg) => bound.Some? ==> m.seqNo < bound.value;
    FilterSorted(keep, rows);
    FilterAscending(keep, rows);
    var kept := Filter(keep, rows);
    assert Below(rows, bound) == Reverse(kept);
    ReverseIndex(kept);
    ReverseMembers(kept);
  }

  predicate Under(m: Msg, bound: Option<int>) { bound.Some? ==> m.seqNo < bound.value }

  /** What one page holds: everything below the bound, or the `limit` newest of it with the
      last row kept as cursor, so that the row only peeked at opens the next page. */
  ghost predicate PageHolds(page: Page, rows: seq<Msg>, limit: nat, bound: Option<int>)
    requires limit > 0
  {
    && Rising(Downward(page.rows))
    && (forall m :: m in page.rows ==> m in rows && Under(m, bound))
    && (page.nextCursor == "" ==> forall m :: m in rows && Under(m, bound) ==> m in page.rows)
    && (page.nextCursor != "" ==>
          && |page.rows| == limit
          && ParseInt(page.nextCursor) == Some(page.rows[limit-1].seqNo)
          && (forall m :: m in page.rows ==> m.seqNo >= page.rows[limit-1].seqNo)
          && forall m :: m in rows && Under(m, bound) && m.seqNo >= page.rows[limit-1].seqNo ==> m in page.rows)
  }

  lemma Truncation(sel: seq<Msg>, limit: nat)
    requires Rising(Downward(sel)) && 0 < limit < |sel|
    ensures Rising(Downward(sel[..limit]))
    ensures forall m :: m in sel[..limit] <==> m in sel && m.seqNo >= sel[limit-1].seqNo
  {
    var keys := Downward(sel);
    assert Downward(sel[..limit]) == keys[..limit];
    forall m | m in sel ensures m in sel[..limit] <==> m.seqNo >= sel[limit-1].seqNo {
      assert sel[limit-1].seqNo == -keys[limit-1];
      if m in sel[..limit] {
        var j :| 0 <= j < limit && sel[j] == m;
        assert m.seqNo == -keys[j];
      }
      if m.seqNo >= sel[limit-1].seqNo {
        var i :| 0 <= i < |sel| && sel[i] == m;
        assert m.seqNo == -keys[i];
        assert i < limit;
        assert sel[..limit][i] == m;
      }
    }
  }

  lemma HistoryPageRows(t: Table, limit: nat, bound: Option<int>)
    requires Valid(t) && limit > 0
    ensures PageHolds(HistoryPage(t.rows, limit, bound), t.rows, limit, bound)
  {
    var sel, page := Below(t.rows, bound), HistoryPage(t.rows, limit, bound);
    BelowMembers(t.rows, bound);
    assert forall m :: m in sel <==> m in t.rows && Under(m, bound);
    if |sel| > limit {
      var last := sel[limit-1];
      assert last in t.rows;
      CursorRoundTrip(last.seqNo);
      Truncation(sel, limit);
      assert page.rows[limit-1] == last;
    }
  }

  /** What a page of history of at most `n` messages is: messages below the bound, descending,
      none left out above one that is in, none left out at all unless there are `n`, and then
      the seq of the last one as cursor. */
  ghost predicate IsPage(page: Page, rows: seq<Msg>, n: int, bound: Option<int>) {
    && Rising(Downward(page.rows)) && |page.rows| <= n
    && (forall m :: m in page.rows ==> m in rows && Under(m, bound))
    && (forall m :: m in rows && Under(m, bound) && m !in page.rows ==>
          page.nextCursor != "" && forall x :: x in page.rows ==> x.seqNo > m.seqNo)
    && (page.nextCursor != "" ==>
          && |page.rows| == n && n > 0 && ParseInt(page.nextCursor) == Some(page.rows[n-1].seqNo)
          && exists m :: m in rows && Under(m, bound) && m !in page.rows)
  }

  lemma HistoryIsPage(t: Table, limit: nat, bound: Option<int>)
    requires Valid(t) && limit > 0
    ensures IsPage(HistoryPage(t.rows, limit, bound), t.rows, limit, bound)
  {
    var sel, page := Below(t.rows, bound), HistoryPage(t.rows, limit, bound);
    HistoryPageRows(t, limit, bound);
    BelowMembers(t.rows, bound);
    if |sel| > limit {
      assert Downward(sel)[limit] == -sel[limit].seqNo && Downward(sel)[limit-1] == -sel[limit-1].seqNo;
      assert sel[limit] in sel;
      assert page.rows[limit-1] == sel[limit-1];
    }
  }

  /** What a request is answered with: an error exactly for a cursor that is no number and is
      needed, else a catch-up or a page of as many messages as asked for, or 50. */
  lemma RequestIsAnswered(t: Table, sinceSeq: int, requested: int, cursor: string)
    requires Valid(t)
    ensures var r := Reply(t.rows, sinceSeq, requested, cursor);
            var n := if requested > 0 then requested else 50;
            && (r.Err? <==> sinceSeq <= 0 && cursor != "" && ParseInt(cursor).None?)
            && (sinceSeq > 0 ==> r.value.nextCursor == "" && CatchesUp(r.value.rows, t.rows, sinceSeq, n))
            && (r.Ok? && sinceSeq <= 0 ==>
                  IsPage(r.value, t.rows, n, if cursor == "" then None else ParseInt(cursor)))
  {
    var n := if requested > 0 then requested else 50;
    SinceCatchesUp(t.rows, sinceSeq, n);
    if sinceSeq <= 0 && BoundOf(cursor).Ok? { HistoryIsPage(t, n, BoundOf(cursor).value); }
  }

  /** The keys of a table read downwards. */
  function DownSet(s: seq<Msg>): set<int> { set m | m in s :: -m.seqNo }

  function DownCursor(cursor: string): Option<int> {
    match ParseInt(cursor) case Some(n) => Some(-n) case None => None
  }

  function HistoryLeg(t: Table, page: Page): Leg {
    Leg(DownSet(t.rows), Downward(page.rows), DownCursor(page.nextCursor))
  }

  lemma DownwardMembers(s: seq<Msg>)
    ensures forall x :: x in Downward(s) <==> x in DownSet(s)
  {
    forall x | x in DownSet(s) ensures x in Downward(s) {
      var m :| m in s && -m.seqNo == x;
      var i :| 0 <= i < |s| && s[i] == m;
      assert Downward(s)[i] == x;
    }
  }

  lemma DownSetNo(s: seq<Msg>, n: int)
    ensures -n in DownSet(s) <==> n in SeqNos(s)
  {
    if n in SeqNos(s) {
      var m :| m in s && m.seqNo == n;
      assert -m.seqNo in DownSet(s);
    }
  }

  function DownBound(bound: Option<int>): Option<int> {
    match bound case Some(n) => Some(-n) case None => None
  }

  /** A page of history is a keyset page. */
  lemma HistoryPageServed(t: Table, limit: nat, bound: Option<int>)
    requires Valid(t) && limit > 0
    ensures Served(HistoryLeg(t, HistoryPage(t.rows, limit, bound)), DownBound(bound), limit)
  {
    HistoryPageRows(t, limit, bound);
    HoldsIsServed(t, HistoryPage(t.rows, limit, bound), limit, bound);
  }

  lemma HoldsIsServed(t: Table, page: Page, limit: nat, bound: Option<int>)
    requires limit > 0 && PageHolds(page, t.rows, limit, bound)
    ensures Served(HistoryLeg(t, page), DownBound(bound), limit)
  {
    var leg, after := HistoryLeg(t, page), DownBound(bound);
    DownwardMembers(page.rows);
    forall x | x in leg.page ensures x in leg.live && Past(x, after) && (leg.next.Some? ==> x <= leg.next.value) {
      var m :| m in page.rows && -m.seqNo == x;
      assert Under(m, bound);
    }
    forall x | x in leg.live && Past(x, after) && (leg.next.Some? ==> x <= leg.next.value) ensures x in leg.page {
      var m :| m in t.rows && -m.seqNo == x;
      assert Under(m, bound);
    }
    if page.nextCursor != "" {
      assert page.rows[limit-1] in page.rows;
    }
  }

  // ---------- A run of history requests ----------

  /** One request of a run: the table as it was when served, and the page returned. */
  datatype Visit = Visit(table: Table, page: Page)

  function NextCursor(vs: seq<Visit>): string { if vs == [] then "" else vs[|vs|-1].page.nextCursor }

  /** The first request has no cursor, every other one the cursor of the page before, which
      was not the last; in between the table evolves. */
  ghost predicate HistoryRun(vs: seq<Visit>, limit: nat) {
    vs != [] ==>
      var init, last := vs[..|vs|-1], vs[|vs|-1];
      && HistoryRun(init, limit)
      && Valid(last.table)
      && (init != [] ==> NextCursor(init) != "" && Evolves(init[|init|-1].table, last.table))
      && Reply(last.table.rows, 0, limit, NextCursor(init)) == Ok(last.page)
  }

  function Messages(vs: seq<Visit>): seq<Msg> {
    if vs == [] then [] else Messages(vs[..|vs|-1]) + vs[|vs|-1].page.rows
  }

  function Legs(vs: seq<Visit>): seq<Leg> {
    if vs == [] then [] else Legs(vs[..|vs|-1]) + [HistoryLeg(vs[|vs|-1].table, vs[|vs|-1].page)]
  }

  lemma ReplyIsPage(rows: seq<Msg>, limit: nat, cursor: string, page: Page)
    requires limit > 0 && Reply(rows, 0, limit, cursor) == Ok(page)
    ensures BoundOf(cursor).Ok? && page == HistoryPage(rows, limit, BoundOf(cursor).value)
  {
  }

  lemma DownwardAppend(s: seq<Msg>, t: seq<Msg>)
    ensures Downward(s + t) == Downward(s) + Downward(t)
  {
  }

  lemma VisitServed(table: Table, page: Page, cursor: string, limit: nat)
    requires limit > 0 && Valid(table) && Reply(table.rows, 0, limit, cursor) == Ok(page)
    ensures Served(HistoryLeg(table, page), DownCursor(cursor), limit)
    ensures page.nextCursor == "" <==> DownCursor(page.nextCursor).None?
  {
    ReplyIsPage(table.rows, limit, cursor, page);
    var bound := BoundOf(cursor).value;
    HistoryPageServed(table, limit, bound);
    HistoryPageRows(table, limit, bound);
  }

  lemma FollowsSnoc(legs: seq<Leg>, leg: Leg, limit: nat)
    requires Follows(legs, limit) && Served(leg, After(legs), limit)
    requires legs != [] ==> After(legs).Some?
    ensures Follows(legs + [leg], limit)
    ensures Returned(legs + [leg]) == Returned(legs) + leg.page && After(legs + [leg]) == leg.next
  {
    assert (legs + [leg])[..|legs + [leg]|-1] == legs;
  }

  lemma {:induction false} HistoryFollows(vs: seq<Visit>, limit: nat)
    requires limit > 0 && HistoryRun(vs, limit)
    ensures |Legs(vs)| == |vs| && Follows(Legs(vs), limit)
    ensures Returned(Legs(vs)) == Downward(Messages(vs))
    ensures After(Legs(vs)) == DownCursor(NextCursor(vs))
    ensures DownCursor(NextCursor(vs)).None? <==> NextCursor(vs) == ""
  {
    if vs != [] {
      var init, last := vs[..|vs|-1], vs[|vs|-1];
      HistoryFollows(init, limit);
      VisitServed(last.table, last.page, NextCursor(init), limit);
      FollowsSnoc(Legs(init), HistoryLeg(last.table, last.page), limit);
      DownwardAppend(Messages(init), last.page.rows);
    }
  }

  /** Inserts land above everything issued, so a run only ever returns rows that the table
      held when its first page was served. */
  lemma {:induction false} OnlyFirstTable(vs: seq<Visit>, limit: nat)
    requires limit > 0 && vs != [] && HistoryRun(vs, limit)
    ensures var first, last := vs[0].table, vs[|vs|-1].table;
            && Valid(first) && first.issued <= last.issued
            && (forall m :: m in last.rows ==> m.seqNo in SeqNos(first.rows) || m.seqNo > first.issued)
            && (forall m :: m in Messages(vs) ==> m.seqNo in SeqNos(first.rows))
            && (NextCursor(vs) != "" ==>
                  ParseInt(NextCursor(vs)).Some? && ParseInt(NextCursor(vs)).value <= first.issued)
  {
    var init, last := vs[..|vs|-1], vs[|vs|-1];
    if init != [] { OnlyFirstTable(init, limit); }
    ReplyIsPage(last.table.rows, limit, NextCursor(init), last.page);
    HistoryPageRows(last.table, limit, BoundOf(NextCursor(init)).value);
    if init != [] {
      forall m | m in last.table.rows
        ensures m.seqNo in SeqNos(vs[0].table.rows) || m.seqNo > vs[0].table.issued
      {
        if m.seqNo in SeqNos(init[|init|-1].table.rows) {
          var k :| k in init[|init|-1].table.rows && k.seqNo == m.seqNo;
        }
      }
    }
    if last.page.nextCursor != "" {
      assert last.page.rows[limit-1] in last.page.rows;
    }
  }

  lemma {:induction false} LegOfVisit(vs: seq<Visit>, leg: Leg)
    requires leg in Legs(vs)
    ensures exists v :: v in vs && leg == HistoryLeg(v.table, v.page)
  {
    var init, last := vs[..|vs|-1], vs[|vs|-1];
    if leg in Legs(init) {
      LegOfVisit(init, leg);
      var v :| v in init && leg == HistoryLeg(v.table, v.page);
      assert v in vs;
    } else {
      assert last in vs;
    }
  }

  lemma {:induction false} DescendingCount(got: seq<Msg>, pool: set<int>)
    requires Rising(Downward(got)) && forall m :: m in got ==> m.seqNo in pool
    ensures |got| <= |pool|
  {
    if got != [] {
      var t, e := got[..|got|-1], got[|got|-1];
      assert e.seqNo in pool;
      var keys := Downward(got);
      assert Downward(t) == keys[..|t|];
      forall i | 0 <= i < |t| ensures t[i].seqNo != e.seqNo {
        assert keys[i] < keys[|t|];
      }
      DescendingCount(t, pool - {e.seqNo});
    }
  }

  /** A message with sequence number `n` stays in the table from the first page to the last. */
  ghost predicate LiveThroughout(vs: seq<Visit>, n: int) {
    forall v :: v in vs ==> n in SeqNos(v.table.rows)
  }

  lemma LiveIsReturned(vs: seq<Visit>, limit: nat, n: int)
    requires limit > 0 && vs != [] && HistoryRun(vs, limit)
    requires NextCursor(vs) == "" && LiveThroughout(vs, n)
    ensures n in SeqNos(Messages(vs))
  {
    HistoryFollows(vs, limit);
    var legs := Legs(vs);
    forall leg | leg in legs ensures -n in leg.live {
      LegOfVisit(vs, leg);
      var v :| v in vs && leg == HistoryLeg(v.table, v.page);
      DownSetNo(v.table.rows, n);
    }
    RunCovers(legs, limit, -n);
    DownwardMembers(Messages(vs));
    DownSetNo(Messages(vs), n);
  }

  lemma {:induction false} ReturnedWasLive(vs: seq<Visit>, limit: nat, n: int)
    requires limit > 0 && HistoryRun(vs, limit) && n in SeqNos(Messages(vs))
    ensures exists v :: v in vs && n in SeqNos(v.table.rows)
  {
    var init, last := vs[..|vs|-1], vs[|vs|-1];
    if n in SeqNos(Messages(init)) {
      ReturnedWasLive(init, limit, n);
      var v :| v in init && n in SeqNos(v.table.rows);
      assert v in vs;
    } else {
      ReplyIsPage(last.table.rows, limit, NextCursor(init), last.page);
      HistoryPageRows(last.table, limit, BoundOf(NextCursor(init)).value);
      assert last in vs;
    }
  }

  /** Paging a channel's history to exhaustion, with messages sent, edited and deleted in
      between: strictly descending seq (so nothing twice), at most `rows / limit + 1`
      requests, every message live throughout is returned, and nothing that never was. */
  lemma HistoryPagingIsExact(vs: seq<Visit>, limit: nat)
    requires limit > 0 && vs != [] && HistoryRun(vs, limit)
    ensures forall i, j :: 0 <= i < j < |Messages(vs)| ==> Messages(vs)[i].seqNo > Messages(vs)[j].seqNo
    ensures (|vs| - 1) * limit <= |SeqNos(vs[0].table.rows)|
    ensures NextCursor(vs) == "" ==> forall n :: LiveThroughout(vs, n) ==> n in SeqNos(Messages(vs))
    ensures forall n :: n in SeqNos(Messages(vs)) ==> exists v :: v in vs && n in SeqNos(v.table.rows)
  {
    var got := Messages(vs);
    HistoryFollows(vs, limit);
    RunRises(Legs(vs), limit);
    RunCount(Legs(vs), limit);
    OnlyFirstTable(vs, limit);
    DescendingCount(got, SeqNos(vs[0].table.rows));
    forall i, j | 0 <= i < j < |got| ensures got[i].seqNo > got[j].seqNo {
      assert Downward(got)[i] < Downward(got)[j];
    }
    forall n | NextCursor(vs) == "" && LiveThroughout(vs, n) ensures n in SeqNos(got) {
      LiveIsReturned(vs, limit, n);
    }
    forall n | n in SeqNos(got) ensures exists v :: v in vs && n in SeqNos(v.table.rows) {
      ReturnedWasLive(vs, limit, n);
    }
  }
}
