/** The pagers that list members, communities and friends upwards by id. Ids are UUIDs,
    taken here as the integers whose order the database compares them in. */
module IdPaging {
  import opened Wrappers
  import opened Paging

  datatype Row = Row(id: int, name: string)

  datatype RowPage = RowPage(rows: seq<Row>, nextCursor: Option<int>)

  /** Rows as the database returns them: ordered by id, one per id. */
  ghost predicate Ordered(rows: seq<Row>) {
    forall i, j :: 0 <= i < j < |rows| ==> rows[i].id < rows[j].id
  }

  function IdSet(rows: seq<Row>): set<int> { set r | r in rows :: r.id }

  function IdSeq(rows: seq<Row>): seq<int> {
    seq(|rows|, i requires 0 <= i < |rows| => rows[i].id)
  }

  /** `[WHERE id > cursor] ORDER BY id`. */
  function AfterCursor(rows: seq<Row>, cursor: Option<int>): seq<Row> {
    if rows == [] then []
    else
      AfterCursor(rows[..|rows|-1], cursor) +
      (if Past(rows[|rows|-1].id, cursor) then [rows[|rows|-1]] else [])
  }

  function PageAfter(rows: seq<Row>, limit: int, cursor: Option<int>): RowPage
    requires limit > 0
  {
    var sel := AfterCursor(rows, cursor);
    if |sel| > limit then RowPage(sel[..limit], Some(sel[limit-1].id)) else RowPage(sel, None)
  }

  /** `ListMembersByCommunity`; the community and friend lists differ only in their joins. */
  method ListMembersByCommunity(rows: seq<Row>, limit: int, cursor: Option<int>) returns (page: RowPage)
    requires limit > 0
    ensures page == PageAfter(rows, limit, cursor)
  {
    var sel := AfterCursor(rows, cursor);
    var fetched := if |sel| > limit + 1 then sel[..limit+1] else sel;
    var members := [];
    for i := 0 to |fetched|
      invariant members == fetched[..i]
    {
      members := members + [fetched[i]];
    }
    assert members == fetched;
    var nextCursor := None;
    if |members| > limit {
      assert fetched[..limit] == sel[..limit];
      nextCursor := Some(members[limit-1].id);
      members := members[..limit];
    }
    page := RowPage(members, nextCursor);
  }

  lemma {:induction false} AfterCursorMembers(rows: seq<Row>, cursor: Option<int>)
    requires Ordered(rows)
    ensures Ordered(AfterCursor(rows, cursor))
    ensures forall r :: r in AfterCursor(rows, cursor) <==> r in rows && Past(r.id, cursor)
  {
    if rows != [] {
      var t, e := rows[..|rows|-1], rows[|rows|-1];
      assert rows == t + [e];
      AfterCursorMembers(t, cursor);
      forall i | 0 <= i < |AfterCursor(t, cursor)| ensures AfterCursor(t, cursor)[i].id < e.id {
        assert AfterCursor(t, cursor)[i] in t;
      }
    }
  }

  /** A page holds rows past the cursor, in id order, at most `limit` of them, leaves none out
      below one that is in, and has a cursor, the last id, exactly when it leaves some out. */
  lemma PageAfterIs(rows: seq<Row>, limit: nat, cursor: Option<int>)
    requires Ordered(rows) && limit > 0
    ensures var page := PageAfter(rows, limit, cursor);
            && Ordered(page.rows) && |page.rows| <= limit
            && (forall r :: r in page.rows ==> r in rows && Past(r.id, cursor))
            && (forall r :: r in rows && Past(r.id, cursor) && r !in page.rows ==>
                  page.nextCursor.Some? && forall x :: x in page.rows ==> x.id < r.id)
            && (page.nextCursor.Some? ==>
                  && |page.rows| == limit && page.nextCursor.value == page.rows[limit-1].id
                  && exists r :: r in rows && Past(r.id, cursor) && r !in page.rows)
  {
    var sel, page := AfterCursor(rows, cursor), PageAfter(rows, limit, cursor);
    AfterCursorMembers(rows, cursor);
    forall i | 0 <= i < |page.rows| ensures sel[i] in page.rows { assert page.rows[i] in page.rows; }
    forall r | r in sel && r !in page.rows ensures |sel| > limit && forall x :: x in page.rows ==> x.id < r.id {
      var i :| 0 <= i < |sel| && sel[i] == r;
      assert i >= |page.rows|;
    }
    if |sel| > limit { assert sel[limit] in sel && sel[limit] !in page.rows; }
  }

  function RowLeg(rows: seq<Row>, page: RowPage): Leg {
    Leg(IdSet(rows), IdSeq(page.rows), page.nextCursor)
  }

  lemma SelectedKeys(rows: seq<Row>, cursor: Option<int>)
    requires Ordered(rows)
    ensures Rising(IdSeq(AfterCursor(rows, cursor)))
    ensures forall x :: x in IdSeq(AfterCursor(rows, cursor)) <==> x in IdSet(rows) && Past(x, cursor)
  {
    var sel := AfterCursor(rows, cursor);
    AfterCursorMembers(rows, cursor);
    IdMembers(sel);
    forall x | x in IdSet(rows) && Past(x, cursor) ensures x in IdSet(sel) {
      var r :| r in rows && r.id == x;
      assert r in sel;
    }
  }

  lemma PageAfterServed(rows: seq<Row>, limit: nat, cursor: Option<int>)
    requires Ordered(rows) && limit > 0
    ensures Served(RowLeg(rows, PageAfter(rows, limit, cursor)), cursor, limit)
  {
    var sel := AfterCursor(rows, cursor);
    SelectedKeys(rows, cursor);
    CutIsServed(IdSeq(sel), IdSet(rows), cursor, limit);
    if |sel| > limit { assert IdSeq(sel[..limit]) == IdSeq(sel)[..limit]; }
  }

  lemma IdMembers(rows: seq<Row>)
    ensures forall x :: x in IdSeq(rows) <==> x in IdSet(rows)
  {
    forall x | x in IdSet(rows) ensures x in IdSeq(rows) {
      var i :| 0 <= i < |rows| && rows[i].id == x;
      assert IdSeq(rows)[i] == x;
    }
  }

  datatype RowVisit = RowVisit(rows: seq<Row>, page: RowPage)

  function NextOf(vs: seq<RowVisit>): Option<int> {
    if vs == [] then None else vs[|vs|-1].page.nextCursor
  }

  /** A run over a list that may change in any way between its pages. */
  ghost predicate RowRun(vs: seq<RowVisit>, limit: nat)
    requires limit > 0
  {
    vs != [] ==>
      var init, last := vs[..|vs|-1], vs[|vs|-1];
      && RowRun(init, limit)
      && Ordered(last.rows)
      && (init != [] ==> NextOf(init).Some?)
      && last.page == PageAfter(last.rows, limit, NextOf(init))
  }

  function Listed(vs: seq<RowVisit>): seq<Row> {
    if vs == [] then [] else Listed(vs[..|vs|-1]) + vs[|vs|-1].page.rows
  }

  function RowLegs(vs: seq<RowVisit>): seq<Leg> {
    if vs == [] then [] else RowLegs(vs[..|vs|-1]) + [RowLeg(vs[|vs|-1].rows, vs[|vs|-1].page)]
  }

  lemma {:induction false} LegOfRows(vs: seq<RowVisit>, leg: Leg)
    requires leg in RowLegs(vs)
    ensures exists v :: v in vs && leg == RowLeg(v.rows, v.page)
  {
    var init, last := vs[..|vs|-1], vs[|vs|-1];
    if leg in RowLegs(init) {
      LegOfRows(init, leg);
      var v :| v in init && leg == RowLeg(v.rows, v.page);
      assert v in vs;
    } else {
      assert last in vs;
    }
  }

  lemma IdSeqAppend(a: seq<Row>, b: seq<Row>)
    ensures IdSeq(a + b) == IdSeq(a) + IdSeq(b)
  {
  }

  lemma {:induction false} RowsFollow(vs: seq<RowVisit>, limit: nat)
    requires limit > 0 && RowRun(vs, limit)
    ensures |RowLegs(vs)| == |vs| && Follows(RowLegs(vs), limit)
    ensures Returned(RowLegs(vs)) == IdSeq(Listed(vs))
    ensures After(RowLegs(vs)) == NextOf(vs)
  {
    if vs != [] {
      var init, last := vs[..|vs|-1], vs[|vs|-1];
      RowsFollow(init, limit);
      PageAfterServed(last.rows, limit, NextOf(init));
      FollowsSnoc(RowLegs(init), RowLeg(last.rows, last.page), limit);
      IdSeqAppend(Listed(init), last.page.rows);
    }
  }

  ghost predicate ListedThroughout(vs: seq<RowVisit>, id: int) {
    forall v :: v in vs ==> id in IdSet(v.rows)
  }

  /** Listing to exhaustion: ids strictly ascending, everyone on the list throughout appears
      exactly once, nobody who never was, and a bounded number of pages. */
  lemma IdPagingIsExact(vs: seq<RowVisit>, limit: nat, pool: set<int>)
    requires limit > 0 && vs != [] && RowRun(vs, limit)
    requires forall v :: v in vs ==> IdSet(v.rows) <= pool
    ensures Ordered(Listed(vs))
    ensures (|vs| - 1) * limit <= |pool|
    ensures NextOf(vs).None? ==>
              forall id :: ListedThroughout(vs, id) ==> multiset(IdSeq(Listed(vs)))[id] == 1
    ensures forall id :: id in IdSeq(Listed(vs)) ==> exists v :: v in vs && id in IdSet(v.rows)
  {
    var legs := RowLegs(vs);
    RowsFollow(vs, limit);
    forall x | x in Returned(legs) ensures exists v :: v in vs && x in IdSet(v.rows) {
      RunReturnsLive(legs, limit, x);
      var leg :| leg in legs && x in leg.live && x in leg.page;
      LegOfRows(vs, leg);
    }
    forall id | ListedThroughout(vs, id) ensures forall leg :: leg in legs ==> id in leg.live {
      forall leg | leg in legs ensures id in leg.live {
        LegOfRows(vs, leg);
      }
    }
    PagingIsExact(legs, limit, pool);
    assert forall i :: 0 <= i < |Listed(vs)| ==> Listed(vs)[i].id == IdSeq(Listed(vs))[i];
  }
}
