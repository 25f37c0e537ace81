/** The message sync protocol of one channel: a server table, a client list and cursor, pushes
    that may be lost, repeated or reordered, and overlapping backfill rounds. */
module Sync {
  import opened Wrappers
  import opened Decimal
  import opened MessageOrder
  import opened MessageStore
  import opened MessageConvergence
  import opened MessageLog
  import opened Paging
  import opened SyncStore

  /** A backfill round in flight: asked with a cursor, or answered. `low` records from which
      sequence number upwards the answer is complete. */
  datatype Round = Asked(since: int) | Answered(since: int, low: int, items: seq<Msg>)

  /** `known` holds the references of every message the server ever issued. */
  datatype State = State(table: Table, known: set<Ref>, list: seq<Msg>, cursor: int, rounds: seq<Round>)

  datatype Action =
    | Insert(m: Msg)            // a message becomes visible on the server
    | Expunge(seqNo: int)       // and may be deleted there
    | Arrive(m: Msg)            // a live push of any message ever issued, any number of times
    | SendTemp(m: Msg)
    | AckTemp(tempId: string, m: Msg)
    | DropLocal(id: string)     // the deleting client removes its own copy
    | LoadHistory
    | LoadMore
    | Ask
    | Serve(i: nat)
    | Apply(i: nat)
    | Lose(i: nat)
    | Reload(saved: int)        // a new page: empty list, whatever cursor was persisted

  // ---------- The protocol ----------

  function Newest(rows: seq<Msg>, n: int): seq<Msg>
    requires n > 0
  {
    HistoryPage(rows, n, None).rows
  }

  /** The reply to a round: catch-up when a cursor is known, the newest page otherwise. */
  function Answer(rows: seq<Msg>, since: int): seq<Msg> {
    if since > 0 then Since(rows, since, BACKFILL_LIMIT) else Newest(rows, BACKFILL_LIMIT)
  }

  /** The sequence number from which upwards the `n` newest rows are all the rows. */
  function LowOf(rows: seq<Msg>, n: int): int
    requires n > 0
  {
    if |rows| <= n then 1 else rows[|rows|-n].seqNo
  }

  function Raise(cursor: int, since: int, items: seq<Msg>): int {
    var max := MaxFrom(items, since);
    if max > since && max > cursor then max else cursor
  }

  ghost predicate Enabled(temps: set<string>, s: State, a: Action) {
    match a
    case Insert(m) =>
      && s.table.issued < m.seqNo <= MAX_INT64
      && m.id !in temps && forall r :: r in s.known ==> r.id != m.id
    case Arrive(m) => RefOf(m) in s.known
    case SendTemp(m) => m.id in temps
    case AckTemp(t, m) => t in temps && RefOf(m) in s.known
    case DropLocal(id) => forall m :: m in s.table.rows ==> m.id != id
    case Serve(i) => i < |s.rounds| && s.rounds[i].Asked?
    case Apply(i) => i < |s.rounds| && s.rounds[i].Answered?
    case Lose(i) => i < |s.rounds|
    case Reload(saved) => 0 <= saved <= s.cursor
    case _ => true
  }

  function Without1(rounds: seq<Round>, i: nat): seq<Round>
    requires i < |rounds|
  {
    rounds[..i] + rounds[i+1..]
  }

  function Unlisted(list: seq<Msg>, items: seq<Msg>): seq<Msg> {
    Filter((m: Msg) => m.id !in Ids(list), items)
  }

  function Merged(older: seq<Msg>, list: seq<Msg>): seq<Msg> {
    if older == [] then list else StableSort(older + list)
  }

  function Next(s: State, a: Action): State
    requires (a.Serve? || a.Apply? || a.Lose?) ==> a.i < |s.rounds|
    requires a.Apply? ==> s.rounds[a.i].Answered?
  {
    var rows := s.table.rows;
    match a
    case Insert(m) => s.(table := Table(rows + [m], m.seqNo), known := s.known + {RefOf(m)})
    case Expunge(n) => s.(table := Table(Filter((m: Msg) => m.seqNo != n, rows), s.table.issued))
    case Arrive(m) => s.(list := Step(s.list, Push(m)))
    case SendTemp(m) => s.(list := Step(s.list, Send(m)))
    case AckTemp(t, m) => s.(list := Step(s.list, Ack(t, m)))
    case DropLocal(id) => s.(list := Step(s.list, Delete(id)))
    case LoadHistory =>
      var items := Newest(rows, DEFAULT_PAGE_LIMIT);
      s.(list := Step(s.list, Load(Reverse(items))), cursor := Raise(s.cursor, 0, items))
    case LoadMore =>
      s.(list := Merged(Unlisted(s.list, Newest(rows, DEFAULT_PAGE_LIMIT)), s.list))
    case Ask => s.(rounds := s.rounds + [Asked(s.cursor)])
    case Serve(i) =>
      var since := s.rounds[i].since;
      var low := if since > 0 then since + 1 else LowOf(rows, BACKFILL_LIMIT);
      s.(rounds := s.rounds[i := Answered(since, low, Answer(rows, since))])
    case Apply(i) =>
      var r := s.rounds[i];
      State(s.table, s.known, Step(s.list, Backfill(r.items)), Raise(s.cursor, r.since, r.items),
            Without1(s.rounds, i))
    case Lose(i) => s.(rounds := Without1(s.rounds, i))
    case Reload(saved) => State(s.table, s.known, [], saved, [])
  }

  /** The floor of what the list is complete above. Only three things raise it: a history
      load, which starts the list over; a reload, which empties it; and a round asked without
      a cursor whose answer did not reach down to what was already covered. */
  function NextFloor(s: State, a: Action, floor: int): int
    requires (a.Serve? || a.Apply? || a.Lose?) ==> a.i < |s.rounds|
    requires a.Apply? ==> s.rounds[a.i].Answered?
  {
    match a
    case LoadHistory => LowOf(s.table.rows, DEFAULT_PAGE_LIMIT)
    case Reload(saved) => saved + 1
    case Apply(i) =>
      var r := s.rounds[i];
      if r.since <= 0 && MaxFrom(r.items, r.since) > s.cursor && r.low > s.cursor + 1 then r.low else floor
    case _ => floor
  }

  /** The server's half of a round and of a history load is the request handler, and the
      client's half moves the cursor as applying a round does. */
  lemma ActionsAreTheHandlers(rows: seq<Msg>, cursors: map<string, int>, channelId: string, since: int, items: seq<Msg>)
    ensures Reply(rows, since, BACKFILL_LIMIT, "").Ok?
    ensures Reply(rows, since, BACKFILL_LIMIT, "").value.rows == Answer(rows, since)
    ensures Reply(rows, 0, DEFAULT_PAGE_LIMIT, "").Ok?
    ensures Reply(rows, 0, DEFAULT_PAGE_LIMIT, "").value.rows == Newest(rows, DEFAULT_PAGE_LIMIT)
    ensures var max := MaxFrom(items, since);
            var after := if max > since then Advanced(cursors, channelId, max) else cursors;
            CursorIn(after, channelId) == Raise(CursorIn(cursors, channelId), since, items)
  {
  }

  // ---------- The invariant ----------

  /** Every local message is an optimistic one or a true copy of a message once issued. */
  ghost predicate Honest(temps: set<string>, known: set<Ref>, list: seq<Msg>) {
    DistinctIds(list) && forall m :: m in list ==> m.id in temps || RefOf(m) in known
  }

  /** Every live message in [low, high] is in the list. */
  ghost predicate Covers(list: seq<Msg>, rows: seq<Msg>, low: int, high: int) {
    forall m :: m in rows && low <= m.seqNo <= high ==> RefOf(m) in Refs(list)
  }

  ghost predicate ServerOk(temps: set<string>, t: Table, known: set<Ref>) {
    && Valid(t) && 0 <= t.issued && Coherent(known) && Refs(t.rows) <= known
    && forall r :: r in known ==> r.seqNo <= t.issued && r.id !in temps
  }

  ghost predicate RoundOk(r: Round, t: Table, known: set<Ref>, cursor: int) {
    && 0 <= r.since <= cursor
    && (r.Answered? ==>
          && Refs(r.items) <= known
          && (r.since > 0 ==> r.low == r.since + 1)
          && Covers(r.items, t.rows, r.low, MaxFrom(r.items, r.since)))
  }

  ghost predicate Inv(temps: set<string>, s: State, floor: int) {
    && ServerOk(temps, s.table, s.known)
    && Honest(temps, s.known, s.list)
    && 0 <= s.cursor <= s.table.issued
    && Covers(s.list, s.table.rows, floor, s.cursor)
    && forall r :: r in s.rounds ==> RoundOk(r, s.table, s.known, s.cursor)
  }

  // ---------- What each list operation holds ----------

  lemma {:induction false} SequencedCopy(items: seq<Msg>, id: string)
    requires forall m :: m in items ==> HasSeq(m)
    ensures LastSequenced(items, id) == LastCopy(items, id)
    ensures LastCopy(items, id) == [] ==> id !in Ids(items)
    ensures LastCopy(items, id) != [] ==>
              |LastCopy(items, id)| == 1 && LastCopy(items, id)[0] in items && LastCopy(items, id)[0].id == id
  {
    if items != [] {
      var t, e := items[..|items|-1], items[|items|-1];
      assert items == t + [e];
      SequencedCopy(t, id);
    }
  }

  lemma {:induction false} LastCopyDistinct(s: seq<Msg>, id: string)
    requires DistinctIds(s)
    ensures LastCopy(s, id) == Get(s, id)
  {
    if s != [] {
      var t, e := s[..|s|-1], s[|s|-1];
      LastCopyDistinct(t, id);
      assert s == t + [e];
      if e.id == id {
        GetMember(s, e);
      } else {
        GetIn(t, id);
        GetIn(s, id);
        if Get(t, id) != [] { GetMember(s, Get(t, id)[0]); }
        IdsSnoc(s);
      }
    }
  }

  /** Merging server messages into an honest list adds exactly their references. */
  lemma MergeHolds(temps: set<string>, known: set<Ref>, list: seq<Msg>, items: seq<Msg>)
    requires Coherent(known) && Honest(temps, known, list) && Refs(items) <= known
    requires forall r :: r in known ==> r.id !in temps
    ensures Honest(temps, known, Merge(list, items))
    ensures forall r :: r in known ==> (r in Refs(Merge(list, items)) <==> r in Refs(list) || r in Refs(items))
  {
    var out := Merge(list, items);
    MergeShape(list, items);
    forall m | m in items ensures HasSeq(m) { assert RefOf(m) in Refs(items); }
    forall m | m in out ensures m in list || m in items {
      CopyOrigin(list, items, m.id);
      GetMember(out, m);
    }
    forall m | m in out ensures m.id in temps || RefOf(m) in known {
      if m in items { assert RefOf(m) in Refs(items); }
    }
    forall r | r in known ensures r in Refs(out) <==> r in Refs(list) || r in Refs(items) {
      CopyOrigin(list, items, r.id);
      KnownRef(temps, known, list, r);
      KnownRef(temps, known, items, r);
      KnownRef(temps, known, out, r);
    }
  }

  lemma CopyOrigin(list: seq<Msg>, items: seq<Msg>, id: string)
    requires DistinctIds(list) && forall m :: m in items ==> HasSeq(m)
    ensures var got := Get(Merge(list, items), id);
            && (got != [] ==> got[0] in list || got[0] in items)
            && (got == [] <==> id !in Ids(list) && id !in Ids(items))
  {
    MergeKeepsFreshest(list, items, id);
    SequencedCopy(items, id);
    LastCopyDistinct(list, id);
    GetIn(list, id);
    MergeShape(list, items);
    GetIn(Merge(list, items), id);
  }

  lemma KnownRef(temps: set<string>, known: set<Ref>, list: seq<Msg>, r: Ref)
    requires Coherent(known) && r in known && r.id !in temps
    requires forall m :: m in list ==> m.id in temps || RefOf(m) in known
    ensures r in Refs(list) <==> r.id in Ids(list)
  {
    if r.id in Ids(list) {
      var m :| m in list && m.id == r.id;
      assert RefOf(m) in known;
      assert RefOf(m) == r;
    }
  }

  // ---------- What each query returns ----------

  lemma BelowEverything(rows: seq<Msg>, bound: Option<int>)
    requires bound.None?
    ensures Below(rows, bound) == Reverse(rows)
  {
    KeepAll((m: Msg) => bound.Some? ==> m.seqNo < bound.value, rows);
  }

  lemma {:induction false} KeepAll(keep: Msg -> bool, s: seq<Msg>)
    requires forall i :: 0 <= i < |s| ==> keep(s[i])
    ensures Filter(keep, s) == s
  {
    if s != [] {
      KeepAll(keep, s[..|s|-1]);
      assert s == s[..|s|-1] + [s[|s|-1]];
    }
  }

  /** The newest page is the end of the table, newest row first. */
  lemma NewestRows(rows: seq<Msg>, n: int)
    requires n > 0
    ensures |Newest(rows, n)| == if |rows| <= n then |rows| else n
    ensures forall i :: 0 <= i < |Newest(rows, n)| ==> Newest(rows, n)[i] == rows[|rows|-1-i]
  {
    BelowEverything(rows, None);
    ReverseIndex(rows);
  }

  lemma NewestCovers(t: Table, n: int)
    requires Valid(t) && n > 0
    ensures forall m :: m in Newest(t.rows, n) ==> m in t.rows
    ensures forall m :: m in t.rows && m.seqNo >= LowOf(t.rows, n) ==> m in Newest(t.rows, n)
  {
    var rows, page := t.rows, Newest(t.rows, n);
    NewestRows(rows, n);
    forall m | m in rows && m.seqNo >= LowOf(rows, n) ensures m in page {
      var i :| 0 <= i < |rows| && rows[i] == m;
      assert |rows| - 1 - i < |page|;
      assert page[|rows| - 1 - i] == m;
    }
  }

  lemma MaxOfAscending(items: seq<Msg>, since: int)
    requires Ascending(items) && items != [] && items[|items|-1].seqNo > since
    ensures MaxFrom(items, since) == items[|items|-1].seqNo
  {
    var top := items[|items|-1];
    assert top in items;
    MaxFromIsMax(items, since);
    if MaxFrom(items, since) != since {
      var m :| m in items && m.seqNo == MaxFrom(items, since);
    }
  }

  lemma PrefixCovers(above: seq<Msg>, k: nat, since: int)
    requires Ascending(above) && k <= |above| && forall m :: m in above ==> m.seqNo > since
    ensures forall m :: m in above && m.seqNo <= MaxFrom(above[..k], since) ==> m in above[..k]
  {
    var items := above[..k];
    if k > 0 {
      assert items[k-1] in above;
      MaxOfAscending(items, since);
      forall m | m in above && m.seqNo <= items[k-1].seqNo ensures m in items {
        var i :| 0 <= i < |above| && above[i] == m;
        assert i < k;
        assert items[i] == m;
      }
    }
  }

  /** Catch-up returns a run of consecutive live messages starting right above `since`. */
  lemma SinceCovers(t: Table, since: int, limit: int)
    requires Valid(t) && limit > 0
    ensures var items := Since(t.rows, since, limit);
            && (forall m :: m in items ==> m in t.rows && m.seqNo > since)
            && (forall m :: m in t.rows && since < m.seqNo <= MaxFrom(items, since) ==> m in items)
  {
    var above := Above(t.rows, since);
    var k := if limit >= |above| then |above| else limit;
    AboveMembers(t.rows, since);
    FilterAscending((m: Msg) => m.seqNo > since, t.rows);
    assert above[..k] == Since(t.rows, since, limit);
    PrefixCovers(above, k, since);
  }

  // ---------- The invariant is inductive ----------

  lemma RaiseFacts(t: Table, known: set<Ref>, cursor: int, since: int, items: seq<Msg>)
    requires Refs(items) <= known && forall r :: r in known ==> r.seqNo <= t.issued
    requires 0 <= since && 0 <= cursor <= t.issued
    ensures cursor <= Raise(cursor, since, items) <= t.issued
    ensures Raise(cursor, since, items) > cursor ==> Raise(cursor, since, items) == MaxFrom(items, since) > since
  {
    MaxFromIsMax(items, since);
    if MaxFrom(items, since) != since {
      var m :| m in items && m.seqNo == MaxFrom(items, since);
      assert RefOf(m) in Refs(items);
    }
  }

  /** A round stays complete when messages are deleted or inserted above its reach. */
  lemma RoundStays(r: Round, t: Table, known: set<Ref>, cursor: int, t': Table, known': set<Ref>)
    requires RoundOk(r, t, known, cursor) && 0 <= cursor <= t.issued && known <= known'
    requires forall q :: q in known ==> q.seqNo <= t.issued
    requires forall m :: m in t'.rows ==> m in t.rows || m.seqNo > t.issued
    ensures RoundOk(r, t', known', cursor)
  {
    if r.Answered? {
      RaiseFacts(t, known, cursor, r.since, r.items);
      MaxFromIsMax(r.items, r.since);
      if MaxFrom(r.items, r.since) != r.since {
        var x :| x in r.items && x.seqNo == MaxFrom(r.items, r.since);
        assert RefOf(x) in Refs(r.items);
      }
    }
  }

  lemma ServerInsert(temps: set<string>, s: State, m: Msg)
    requires ServerOk(temps, s.table, s.known) && Enabled(temps, s, Insert(m))
    ensures var n := Next(s, Insert(m)); ServerOk(temps, n.table, n.known)
  {
    var rows := s.table.rows;
    assert Refs(rows + [m]) == Refs(rows) + {RefOf(m)};
    forall i | 0 <= i < |rows| ensures rows[i].seqNo < m.seqNo { assert rows[i] in rows; }
  }

  lemma InsertKeeps(temps: set<string>, s: State, m: Msg, floor: int)
    requires Inv(temps, s, floor) && Enabled(temps, s, Insert(m))
    ensures Inv(temps, Next(s, Insert(m)), floor)
  {
    var n := Next(s, Insert(m));
    ServerInsert(temps, s, m);
    forall r | r in s.rounds ensures RoundOk(r, n.table, n.known, n.cursor) {
      RoundStays(r, s.table, s.known, s.cursor, n.table, n.known);
    }
  }

  lemma ExpungeKeeps(temps: set<string>, s: State, no: int, floor: int)
    requires Inv(temps, s, floor)
    ensures Inv(temps, Next(s, Expunge(no)), floor)
  {
    var rows, keep := s.table.rows, (m: Msg) => m.seqNo != no;
    FilterSorted(keep, rows);
    FilterAscending(keep, rows);
  }

  /** Replacing the list by one that holds at least the same references keeps the invariant. */
  lemma ListKeeps(temps: set<string>, s: State, list: seq<Msg>, floor: int)
    requires Inv(temps, s, floor) && Honest(temps, s.known, list)
    requires forall m :: m in s.table.rows && RefOf(m) in Refs(s.list) ==> RefOf(m) in Refs(list)
    ensures Inv(temps, s.(list := list), floor)
  {
  }

  lemma RemoveHolds(temps: set<string>, known: set<Ref>, list: seq<Msg>, id: string)
    requires Honest(temps, known, list)
    ensures Honest(temps, known, Remove(list, id))
    ensures forall r: Ref :: r in Refs(Remove(list, id)) <==> r in Refs(list) && r.id != id
  {
    FilterSorted((m: Msg) => m.id != id, list);
    FilterDistinct((m: Msg) => m.id != id, list);
    forall r: Ref | r in Refs(list) && r.id != id ensures r in Refs(Remove(list, id)) {
      var m :| m in list && RefOf(m) == r;
      assert m in Remove(list, id);
    }
  }

  lemma {:induction false} FilterDistinct(keep: Msg -> bool, s: seq<Msg>)
    requires DistinctIds(s)
    ensures DistinctIds(Filter(keep, s))
  {
    if s != [] {
      var t, e := s[..|s|-1], s[|s|-1];
      FilterDistinct(keep, t);
      FilterSorted(keep, t);
      forall i | 0 <= i < |Filter(keep, t)| ensures Filter(keep, t)[i].id != e.id {
        assert Filter(keep, t)[i] in t;
      }
    }
  }

  /** Appending an optimistic message changes no server reference. */
  lemma SendHolds(temps: set<string>, known: set<Ref>, list: seq<Msg>, m: Msg)
    requires Honest(temps, known, list) && m.id in temps
    ensures Honest(temps, known, Append(list, m))
    ensures forall r: Ref :: r in Refs(list) && r.id !in temps ==> r in Refs(Append(list, m))
  {
    var out := Append(list, m);
    MaxSeqIsMax(list);
    MergeShape(list, [Local(list, m)]);
    forall x | x in out ensures x.id in temps || RefOf(x) in known {
      CopyOrigin(list, [Local(list, m)], x.id);
      GetMember(out, x);
    }
    forall r: Ref | r in Refs(list) && r.id !in temps ensures r in Refs(out) {
      var x :| x in list && RefOf(x) == r;
      OneCopy(Local(list, m), r.id);
      MergeKeepsFreshest(list, [Local(list, m)], r.id);
      LastCopyDistinct(list, r.id);
      GetMember(list, x);
      GetIn(out, r.id);
    }
  }

  lemma OneCopy(k: Msg, id: string)
    ensures LastCopy([k], id) == if k.id == id then [k] else []
    ensures k.id != id ==> LastSequenced([k], id) == []
  {
    assert [k][..0] == [];
  }

  lemma ArriveKeeps(temps: set<string>, s: State, m: Msg, floor: int)
    requires Inv(temps, s, floor) && RefOf(m) in s.known
    ensures Inv(temps, s.(list := Append(s.list, m)), floor)
  {
    MergeHolds(temps, s.known, s.list, [m]);
    forall x | x in s.table.rows ensures RefOf(x) in s.known { assert RefOf(x) in Refs(s.table.rows); }
    ListKeeps(temps, s, Append(s.list, m), floor);
  }

  lemma DropKeeps(temps: set<string>, s: State, id: string, floor: int)
    requires Inv(temps, s, floor) && forall m :: m in s.table.rows ==> m.id != id
    ensures Inv(temps, s.(list := Remove(s.list, id)), floor)
  {
    RemoveHolds(temps, s.known, s.list, id);
    ListKeeps(temps, s, Remove(s.list, id), floor);
  }

  lemma SendKeeps(temps: set<string>, s: State, m: Msg, floor: int)
    requires Inv(temps, s, floor) && m.id in temps
    ensures Inv(temps, s.(list := Append(s.list, m)), floor)
  {
    SendHolds(temps, s.known, s.list, m);
    forall x | x in s.table.rows ensures x.id !in temps {
      assert RefOf(x) in Refs(s.table.rows);
    }
    ListKeeps(temps, s, Append(s.list, m), floor);
  }

  lemma AckKeeps(temps: set<string>, s: State, t: string, m: Msg, floor: int)
    requires Inv(temps, s, floor) && t in temps && RefOf(m) in s.known
    ensures Inv(temps, s.(list := Step(s.list, Ack(t, m))), floor)
  {
    if Reconciles(t, m) {
      forall x | x in s.table.rows ensures x.id != t { assert RefOf(x) in Refs(s.table.rows); }
      DropKeeps(temps, s, t, floor);
      ArriveKeeps(temps, s.(list := Remove(s.list, t)), m, floor);
    }
  }

  lemma ReverseDistinct(s: seq<Msg>)
    requires DistinctIds(s)
    ensures DistinctIds(Reverse(s))
  {
    ReverseIndex(s);
  }

  lemma RowsDistinct(t: Table, known: set<Ref>)
    requires Valid(t) && Coherent(known) && Refs(t.rows) <= known
    ensures DistinctIds(t.rows)
  {
    var rows := t.rows;
    forall i, j | 0 <= i < j < |rows| ensures rows[i].id != rows[j].id {
      assert RefOf(rows[i]) in Refs(rows) && RefOf(rows[j]) in Refs(rows);
    }
  }

  lemma NewestDistinct(temps: set<string>, t: Table, known: set<Ref>, n: int)
    requires ServerOk(temps, t, known) && n > 0
    ensures DistinctIds(Newest(t.rows, n)) && Refs(Newest(t.rows, n)) <= Refs(t.rows) <= known
  {
    RowsDistinct(t, known);
    NewestRows(t.rows, n);
    NewestCovers(t, n);
    ReverseDistinct(t.rows);
  }

  lemma LoadedHolds(temps: set<string>, known: set<Ref>, items: seq<Msg>)
    requires DistinctIds(items) && Refs(items) <= known
    ensures var list := Step([], Load(Reverse(items)));
            Honest(temps, known, list) && forall m :: m in list <==> m in items
  {
    ReverseDistinct(items);
    ReverseMembers(items);
    SortKeepsDistinct(Reverse(items));
    StableSortElements(Reverse(items));
    forall m | m in items ensures RefOf(m) in known { assert RefOf(m) in Refs(items); }
  }

  lemma LoadKeeps(temps: set<string>, s: State, floor: int)
    requires Inv(temps, s, floor)
    ensures Inv(temps, Next(s, LoadHistory), NextFloor(s, LoadHistory, floor))
  {
    var items := Newest(s.table.rows, DEFAULT_PAGE_LIMIT);
    NewestDistinct(temps, s.table, s.known, DEFAULT_PAGE_LIMIT);
    NewestCovers(s.table, DEFAULT_PAGE_LIMIT);
    LoadedHolds(temps, s.known, items);
    RaiseFacts(s.table, s.known, s.cursor, 0, items);
  }

  lemma MergedHolds(temps: set<string>, known: set<Ref>, older: seq<Msg>, list: seq<Msg>)
    requires Honest(temps, known, list) && DistinctIds(older) && Refs(older) <= known
    requires forall m :: m in older ==> m.id !in Ids(list)
    ensures Honest(temps, known, Merged(older, list))
    ensures Refs(list) <= Refs(Merged(older, list))
  {
    var all := older + list;
    forall i, j | 0 <= i < j < |all| ensures all[i].id != all[j].id {
      if i < |older| && j >= |older| {
        assert all[i] in older && all[j] in list;
      }
    }
    SortKeepsDistinct(all);
    StableSortElements(all);
    forall m | m in all ensures m.id in temps || RefOf(m) in known {
      if m in older { assert RefOf(m) in Refs(older); }
    }
  }

  lemma UnlistedHolds(list: seq<Msg>, items: seq<Msg>)
    requires DistinctIds(items)
    ensures DistinctIds(Unlisted(list, items))
    ensures forall m :: m in Unlisted(list, items) <==> m in items && m.id !in Ids(list)
    ensures Refs(Unlisted(list, items)) <= Refs(items)
  {
    FilterSorted((m: Msg) => m.id !in Ids(list), items);
    FilterDistinct((m: Msg) => m.id !in Ids(list), items);
  }

  /** A history load shows exactly the newest 50 messages and moves the cursor up to them. */
  lemma LoadShowsNewest(s: State)
    requires Valid(s.table)
    ensures var r := Next(s, LoadHistory);
            && Sorted(r.list) && |r.list| == (if |s.table.rows| <= 50 then |s.table.rows| else 50)
            && (forall m :: m in s.table.rows && m !in r.list ==> forall x :: x in r.list ==> x.seqNo > m.seqNo)
            && (forall m :: m in r.list ==> m in s.table.rows && m.seqNo <= r.cursor)
            && (r.cursor == s.cursor || exists m :: m in r.list && m.seqNo == r.cursor)
  {
    var items := Newest(s.table.rows, DEFAULT_PAGE_LIMIT);
    NewestRows(s.table.rows, DEFAULT_PAGE_LIMIT);
    NewestSplit(s.table, DEFAULT_PAGE_LIMIT);
    ReverseIndex(items);
    ReverseMembers(items);
    StableSortElements(Reverse(items));
    RaiseIs(s.cursor, items);
    LoadIs(s);
  }

  lemma LoadIs(s: State)
    ensures var items := Newest(s.table.rows, DEFAULT_PAGE_LIMIT);
            && Next(s, LoadHistory).list == StableSort(Reverse(items))
            && Next(s, LoadHistory).cursor == Raise(s.cursor, 0, items)
  {
  }

  lemma RaiseIs(cursor: int, items: seq<Msg>)
    requires forall m :: m in items ==> m.seqNo > 0
    ensures var r := Raise(cursor, 0, items);
            && (forall m :: m in items ==> m.seqNo <= r)
            && (r == cursor || exists m :: m in items && m.seqNo == r)
  {
    MaxFromIsMax(items, 0);
  }

  lemma NewestSplit(t: Table, n: int)
    requires Valid(t) && n > 0
    ensures forall m :: m in Newest(t.rows, n) ==> m in t.rows && m.seqNo > 0 && m.seqNo >= LowOf(t.rows, n)
    ensures forall m :: m in t.rows && m !in Newest(t.rows, n) ==> m.seqNo < LowOf(t.rows, n)
  {
    var items := Newest(t.rows, n);
    NewestCovers(t, n);
    NewestReach(t, n);
    forall m | m in items ensures m.seqNo >= LowOf(t.rows, n) { assert RefOf(m) in Refs(items); }
  }

  lemma LoadMoreIs(s: State)
    ensures Next(s, LoadMore) ==
            s.(list := Merged(Unlisted(s.list, Newest(s.table.rows, DEFAULT_PAGE_LIMIT)), s.list))
  {
  }

  lemma LoadMoreKeeps(temps: set<string>, s: State, floor: int)
    requires Inv(temps, s, floor)
    ensures Inv(temps, Next(s, LoadMore), floor)
  {
    var items := Newest(s.table.rows, DEFAULT_PAGE_LIMIT);
    NewestDistinct(temps, s.table, s.known, DEFAULT_PAGE_LIMIT);
    UnlistedHolds(s.list, items);
    MergedHolds(temps, s.known, Unlisted(s.list, items), s.list);
    var list := Merged(Unlisted(s.list, items), s.list);
    ListKeeps(temps, s, list, floor);
    LoadMoreIs(s);
  }

  /** Scrolling back asks for the newest page again: it changes the list if and only if one of
      the newest 50 messages is missing from it, and never adds an older one. */
  lemma LoadMoreAddsNothingOlder(s: State)
    requires Valid(s.table)
    ensures Next(s, LoadMore) == s <==>
            forall m :: m in Newest(s.table.rows, DEFAULT_PAGE_LIMIT) ==> m.id in Ids(s.list)
    ensures forall m :: m in Next(s, LoadMore).list ==>
              m in s.list || (m in s.table.rows && m.seqNo >= LowOf(s.table.rows, DEFAULT_PAGE_LIMIT))
  {
    var items := Newest(s.table.rows, DEFAULT_PAGE_LIMIT);
    MergedAdds(s.list, items);
    NewestReach(s.table, DEFAULT_PAGE_LIMIT);
    NewestCovers(s.table, DEFAULT_PAGE_LIMIT);
    forall m | m in items ensures m.seqNo >= LowOf(s.table.rows, DEFAULT_PAGE_LIMIT) {
      assert RefOf(m) in Refs(items);
    }
  }

  lemma MergedAdds(list: seq<Msg>, items: seq<Msg>)
    ensures var r := Merged(Unlisted(list, items), list);
            && (r == list <==> forall m :: m in items ==> m.id in Ids(list))
            && forall m :: m in r ==> m in list || m in items
  {
    var older := Unlisted(list, items);
    FilterSorted((m: Msg) => m.id !in Ids(list), items);
    if older == [] {
      assert forall m :: m in items && m.id !in Ids(list) ==> m in older;
    } else {
      SomeMember(older);
      StableSortElements(older + list);
      assert older[0] in Merged(older, list);
    }
  }

  lemma ServeKeeps(temps: set<string>, s: State, i: nat, floor: int)
    requires Inv(temps, s, floor) && Enabled(temps, s, Serve(i))
    ensures Inv(temps, Next(s, Serve(i)), floor)
  {
    var since, rows := s.rounds[i].since, s.table.rows;
    assert s.rounds[i] in s.rounds;
    var r := Next(s, Serve(i)).rounds[i];
    if since > 0 {
      SinceCovers(s.table, since, BACKFILL_LIMIT);
    } else {
      NewestCovers(s.table, BACKFILL_LIMIT);
    }
    forall m | m in r.items ensures RefOf(m) in s.known { assert RefOf(m) in Refs(rows); }
    assert RoundOk(r, s.table, s.known, s.cursor);
    forall q | q in Next(s, Serve(i)).rounds ensures q == r || q in s.rounds {}
  }

  lemma ApplyKeeps(temps: set<string>, s: State, i: nat, floor: int)
    requires Inv(temps, s, floor) && Enabled(temps, s, Apply(i))
    ensures Inv(temps, Next(s, Apply(i)), NextFloor(s, Apply(i), floor))
  {
    var r, s', floor' := s.rounds[i], Next(s, Apply(i)), NextFloor(s, Apply(i), floor);
    assert r in s.rounds;
    MergeHolds(temps, s.known, s.list, r.items);
    RaiseFacts(s.table, s.known, s.cursor, r.since, r.items);
    forall m | m in s.table.rows && floor' <= m.seqNo <= s'.cursor ensures RefOf(m) in Refs(s'.list) {
      assert RefOf(m) in Refs(s.table.rows);
      if m.seqNo > s.cursor || floor' != floor {
        assert RefOf(m) in Refs(r.items);
      } else {
        assert RefOf(m) in Refs(s.list);
      }
    }
    forall q | q in s'.rounds ensures RoundOk(q, s'.table, s'.known, s'.cursor) {
      assert q in s.rounds;
    }
  }

  /** The coverage invariant: whatever happens next, every live message between the floor and
      the cursor is in the list, and only the three events of `NextFloor` raise the floor. */
  lemma CoverageStep(temps: set<string>, s: State, a: Action, floor: int)
    requires Inv(temps, s, floor) && Enabled(temps, s, a)
    ensures Inv(temps, Next(s, a), NextFloor(s, a, floor))
  {
    match a
    case Insert(m) => InsertKeeps(temps, s, m, floor);
    case Expunge(n) => ExpungeKeeps(temps, s, n, floor);
    case LoadHistory => LoadKeeps(temps, s, floor);
    case LoadMore => LoadMoreKeeps(temps, s, floor);
    case Serve(i) => ServeKeeps(temps, s, i, floor);
    case Apply(i) => ApplyKeeps(temps, s, i, floor);
    case Ask =>
    case Lose(i) =>
    case Reload(saved) =>
    case Arrive(m) => ArriveKeeps(temps, s, m, floor);
    case SendTemp(m) => SendKeeps(temps, s, m, floor);
    case AckTemp(t, m) => AckKeeps(temps, s, t, m, floor);
    case DropLocal(id) => DropKeeps(temps, s, id, floor);
  }

  // ---------- Whole runs ----------

  ghost predicate Legal(temps: set<string>, s: State, actions: seq<Action>)
    decreases |actions|
  {
    actions == [] || (Enabled(temps, s, actions[0]) && Legal(temps, Next(s, actions[0]), actions[1..]))
  }

  ghost function Exec(temps: set<string>, s: State, actions: seq<Action>): State
    requires Legal(temps, s, actions)
    decreases |actions|
  {
    if actions == [] then s else Exec(temps, Next(s, actions[0]), actions[1..])
  }

  ghost function ExecFloor(temps: set<string>, s: State, actions: seq<Action>, floor: int): int
    requires Legal(temps, s, actions)
    decreases |actions|
  {
    if actions == [] then floor
    else ExecFloor(temps, Next(s, actions[0]), actions[1..], NextFloor(s, actions[0], floor))
  }

  /** Along every run the list holds every live message between the floor and the cursor. */
  lemma {:induction false} CoverageInvariant(temps: set<string>, s: State, actions: seq<Action>, floor: int)
    requires Inv(temps, s, floor) && Legal(temps, s, actions)
    ensures Inv(temps, Exec(temps, s, actions), ExecFloor(temps, s, actions, floor))
    decreases |actions|
  {
    if actions != [] {
      CoverageStep(temps, s, actions[0], floor);
      CoverageInvariant(temps, Next(s, actions[0]), actions[1..], NextFloor(s, actions[0], floor));
    }
  }

  /** The floor moves only by a history load, by a reload, or by applying a round that was
      asked without a cursor, moves the cursor, and does not reach down to what it covered. */
  lemma FloorRises(temps: set<string>, s: State, a: Action, floor: int)
    requires Inv(temps, s, floor) && Enabled(temps, s, a)
    ensures Inv(temps, Next(s, a), NextFloor(s, a, floor))
    ensures NextFloor(s, a, floor) != floor ==>
              || a.LoadHistory? || a.Reload?
              || (a.Apply? && s.rounds[a.i].since == 0 && s.rounds[a.i].low > s.cursor + 1
                  && Next(s, a).cursor > s.cursor)
  {
    CoverageStep(temps, s, a, floor);
    if a.Apply? { assert s.rounds[a.i] in s.rounds; }
  }

  // ---------- Convergence once nothing is inserted any more ----------

  /** One undisturbed round: ask, serve, apply. */
  function RoundTrip(s: State): (r: State)
    ensures r.table == s.table && r.known == s.known
  {
    var items := Answer(s.table.rows, s.cursor);
    s.(list := Merge(s.list, items), cursor := Raise(s.cursor, s.cursor, items))
  }

  function Trips(s: State, n: nat): (r: State)
    ensures r.table == s.table && r.known == s.known
    decreases n
  {
    if n == 0 then s else Trips(RoundTrip(s), n - 1)
  }

  lemma RoundTripIsProtocol(temps: set<string>, s: State)
    ensures var i := |s.rounds|;
            && Enabled(temps, s, Ask)
            && Enabled(temps, Next(s, Ask), Serve(i))
            && Enabled(temps, Next(Next(s, Ask), Serve(i)), Apply(i))
            && RoundTrip(s) == Next(Next(Next(s, Ask), Serve(i)), Apply(i))
  {
    var i := |s.rounds|;
    var served := Next(Next(s, Ask), Serve(i));
    assert Without1(served.rounds, i) == s.rounds;
  }

  lemma RoundTripInv(temps: set<string>, s: State, floor: int) returns (floor': int)
    requires Inv(temps, s, floor)
    ensures Inv(temps, RoundTrip(s), floor') && (s.cursor > 0 ==> floor' == floor)
  {
    var i := |s.rounds|;
    var asked := Next(s, Ask);
    var served := Next(asked, Serve(i));
    CoverageStep(temps, s, Ask, floor);
    CoverageStep(temps, asked, Serve(i), floor);
    CoverageStep(temps, served, Apply(i), floor);
    RoundTripIsProtocol(temps, s);
    floor' := NextFloor(served, Apply(i), floor);
  }

  lemma {:induction false} CatchUpStep(t: Table, cursor: int)
    requires Valid(t) && cursor > 0
    ensures var items, k := Answer(t.rows, cursor), |Above(t.rows, cursor)|;
            |Above(t.rows, Raise(cursor, cursor, items))| == if k <= BACKFILL_LIMIT then 0 else k - BACKFILL_LIMIT
  {
    var above, items := Above(t.rows, cursor), Answer(t.rows, cursor);
    AboveMembers(t.rows, cursor);
    FilterAscending((m: Msg) => m.seqNo > cursor, t.rows);
    if above != [] {
      var k := |items|;
      assert items == above[..k];
      assert forall m :: m in items ==> m in above;
      assert items[k-1] in items;
      MaxOfAscending(items, cursor);
      AboveTaken(t.rows, cursor, k);
    }
  }

  lemma RoundTripBacklog(temps: set<string>, s: State, floor: int)
    requires Inv(temps, s, floor) && s.cursor > 0
    ensures Inv(temps, RoundTrip(s), floor) && RoundTrip(s).cursor > 0
    ensures var k := |Above(s.table.rows, s.cursor)|;
            |Above(s.table.rows, RoundTrip(s).cursor)| == if k <= BACKFILL_LIMIT then 0 else k - BACKFILL_LIMIT
  {
    var f := RoundTripInv(temps, s, floor);
    CatchUpStep(s.table, s.cursor);
  }

  /** What is left of a backlog of `k` messages after `n` rounds of at most 200. */
  function Left(k: int, n: nat): int
    decreases n
  {
    if n == 0 then k else Left(if k <= BACKFILL_LIMIT then 0 else k - BACKFILL_LIMIT, n - 1)
  }

  /** The backlog is empty after exactly as many rounds as it takes 200s to cover it. */
  lemma {:induction false} RoundsNeeded(k: nat, n: nat)
    ensures Left(k, n) == if k <= 200 * n then 0 else k - 200 * n
    decreases n
  {
    if n > 0 { RoundsNeeded(if k <= BACKFILL_LIMIT then 0 else k - BACKFILL_LIMIT, n - 1); }
  }

  /** With `k` live messages above a positive cursor and nothing new, every round takes 200
      off the backlog until it is gone. */
  lemma {:induction false} BoundedConvergence(temps: set<string>, s: State, floor: int, n: nat)
    requires Inv(temps, s, floor) && s.cursor > 0
    ensures Inv(temps, Trips(s, n), floor)
    ensures Trips(s, n).cursor > 0
    ensures |Above(s.table.rows, Trips(s, n).cursor)| == Left(|Above(s.table.rows, s.cursor)|, n)
    decreases n
  {
    if n > 0 {
      RoundTripBacklog(temps, s, floor);
      BoundedConvergence(temps, RoundTrip(s), floor, n - 1);
    }
  }

  /** After those rounds the list is complete above the floor, and in particular holds every
      message that was above the cursor. */
  lemma {:induction false} CaughtUp(temps: set<string>, s: State, floor: int, n: nat)
    requires Inv(temps, s, floor) && s.cursor > 0
    requires |Above(s.table.rows, s.cursor)| <= 200 * n
    ensures forall m :: m in s.table.rows && (m.seqNo >= floor || m.seqNo > s.cursor)
              ==> RefOf(m) in Refs(Trips(s, n).list)
  {
    var end := Trips(s, n);
    BoundedConvergence(temps, s, floor, n);
    BoundedConvergence(temps, s, s.cursor + 1, n);
    RoundsNeeded(|Above(s.table.rows, s.cursor)|, n);
    AboveMembers(s.table.rows, end.cursor);
    forall m | m in s.table.rows ensures m.seqNo <= end.cursor {
      assert m !in Above(s.table.rows, end.cursor);
    }
  }

  // ---------- Without a cursor, convergence can fail ----------

  ghost predicate AllHeld(s: State) { Covers(s.list, s.table.rows, 1, s.table.issued) }

  lemma NewestExactly(t: Table, n: int)
    requires Valid(t) && n > 0
    ensures forall m :: m in t.rows ==> (RefOf(m) in Refs(Newest(t.rows, n)) <==> m.seqNo >= LowOf(t.rows, n))
  {
    NewestCovers(t, n);
    NewestReach(t, n);
  }

  lemma NewestReach(t: Table, n: int)
    requires Valid(t) && n > 0
    ensures forall r: Ref :: r in Refs(Newest(t.rows, n)) ==> r.seqNo >= LowOf(t.rows, n)
  {
    var rows, items := t.rows, Newest(t.rows, n);
    NewestRows(rows, n);
    forall m | m in items ensures m.seqNo >= LowOf(rows, n) {
      var j :| 0 <= j < |items| && items[j] == m;
      assert rows[|rows|-1-j] == m && (|rows| > n ==> |rows|-n <= |rows|-1-j);
      assert m in rows;
    }
  }

  lemma FirstTripHolds(temps: set<string>, s: State, floor: int)
    requires Inv(temps, s, floor) && s.cursor == 0
    ensures forall m :: m in s.table.rows ==>
              (RefOf(m) in Refs(RoundTrip(s).list) <==>
               RefOf(m) in Refs(s.list) || m.seqNo >= LowOf(s.table.rows, BACKFILL_LIMIT))
  {
    var rows, items := s.table.rows, Newest(s.table.rows, BACKFILL_LIMIT);
    NewestExactly(s.table, BACKFILL_LIMIT);
    NewestDistinct(temps, s.table, s.known, BACKFILL_LIMIT);
    MergeHolds(temps, s.known, s.list, items);
    forall m | m in rows ensures RefOf(m) in s.known { assert RefOf(m) in Refs(rows); }
  }

  /** The cursor has passed every live message. */
  ghost predicate Passed(s: State) { forall m :: m in s.table.rows ==> m.seqNo <= s.cursor }

  lemma FirstTripPasses(temps: set<string>, s: State)
    requires ServerOk(temps, s.table, s.known) && s.cursor == 0
    ensures Passed(RoundTrip(s)) && RoundTrip(s).cursor >= 0
  {
    var rows, items := s.table.rows, Newest(s.table.rows, BACKFILL_LIMIT);
    NewestRows(rows, BACKFILL_LIMIT);
    MaxFromIsMax(items, 0);
    forall m | m in rows ensures m.seqNo <= MaxFrom(items, 0) {
      var i :| 0 <= i < |rows| && rows[i] == m;
      assert items[0] in items && items[0] == rows[|rows|-1];
    }
  }

  lemma FirstTripAll(temps: set<string>, s: State, floor: int)
    requires Inv(temps, s, floor) && s.cursor == 0
    ensures AllHeld(RoundTrip(s)) <==> Covers(s.list, s.table.rows, 1, LowOf(s.table.rows, BACKFILL_LIMIT) - 1)
  {
    FirstTripHolds(temps, s, floor);
  }

  /** Nothing is above the cursor and the list is as a merge leaves it. */
  ghost predicate Idle(s: State) { Valid(s.table) && Passed(s) && Settled(s.list) && 0 <= s.cursor }

  lemma IdleTrip(s: State)
    requires Idle(s)
    ensures RoundTrip(s) == s
  {
    var rows, items := s.table.rows, Answer(s.table.rows, s.cursor);
    if s.cursor > 0 {
      AboveMembers(rows, s.cursor);
      assert Above(rows, s.cursor) == [] by {
        if Above(rows, s.cursor) != [] { SomeMember(Above(rows, s.cursor)); }
      }
    } else {
      if rows != [] { SomeMember(rows); }
      NewestRows(rows, BACKFILL_LIMIT);
    }
    assert items == [];
    SettledIsFixed(s.list);
  }

  lemma {:induction false} IdleTrips(s: State, n: nat)
    requires Idle(s)
    ensures Trips(s, n) == s
    decreases n
  {
    if n > 0 {
      IdleTrip(s);
      IdleTrips(s, n - 1);
    }
  }

  /** A client without a cursor fetches only the newest 200 messages and then moves its cursor
      past all of them. However many rounds follow, it shows every live message if and only
      if it already held all but the newest 200; so with 200 or fewer it always does, and with
      an empty list and more than 200 it never does. */
  lemma {:induction false} ZeroCursorGap(temps: set<string>, s: State, floor: int, n: nat)
    requires Inv(temps, s, floor) && s.cursor == 0 && n > 0
    ensures AllHeld(Trips(s, n)) <==> Covers(s.list, s.table.rows, 1, LowOf(s.table.rows, BACKFILL_LIMIT) - 1)
  {
    FirstTripAll(temps, s, floor);
    OneTripSettles(temps, s, n);
  }

  lemma {:induction false} OneTripSettles(temps: set<string>, s: State, n: nat)
    requires ServerOk(temps, s.table, s.known) && s.cursor == 0 && n > 0
    ensures Trips(s, n) == RoundTrip(s)
  {
    FirstTripIdles(temps, s);
    TripsFirst(s, n);
    IdleTrips(RoundTrip(s), n - 1);
  }

  lemma FirstTripIdles(temps: set<string>, s: State)
    requires ServerOk(temps, s.table, s.known) && s.cursor == 0
    ensures Idle(RoundTrip(s))
  {
    FirstTripPasses(temps, s);
    TripSettles(s);
  }

  lemma {:induction false} TripsFirst(s: State, n: nat)
    requires n > 0
    ensures Trips(s, n) == Trips(RoundTrip(s), n - 1)
  {
  }

  lemma TripSettles(s: State)
    ensures Settled(RoundTrip(s).list)
  {
    MergeShape(s.list, Answer(s.table.rows, s.cursor));
  }

  lemma {:induction false} EmptyListGap(temps: set<string>, s: State, n: nat)
    requires Inv(temps, s, 1) && s.cursor == 0 && s.list == [] && n > 0
    ensures AllHeld(Trips(s, n)) <==> |s.table.rows| <= BACKFILL_LIMIT
  {
    ZeroCursorGap(temps, s, 1, n);
    var rows := s.table.rows;
    if |rows| > BACKFILL_LIMIT {
      assert rows[0] in rows && rows[0].seqNo < LowOf(rows, BACKFILL_LIMIT);
      assert RefOf(rows[0]) !in Refs(s.list);
    }
  }

  // ---------- A client that never catches up ----------

  function Numbered(k: nat): Msg { Msg(seq(k, _ => 'm'), k, 0, "") }

  function Inserts(from: nat, n: nat): seq<Action>
    decreases n
  {
    if n == 0 then [] else [Insert(Numbered(from + 1))] + Inserts(from + 1, n - 1)
  }

  lemma {:induction false} InsertsRun(s: State, n: nat)
    requires 0 <= s.table.issued && s.table.issued + n <= MAX_INT64
    requires forall r :: r in s.known ==> |r.id| <= s.table.issued
    ensures var actions := Inserts(s.table.issued, n);
            && Legal({}, s, actions)
            && var t := Exec({}, s, actions);
            && t.list == s.list && t.cursor == s.cursor
            && |t.table.rows| == |s.table.rows| + n
            && ExecFloor({}, s, actions, 1) == 1
    decreases n
  {
    if n > 0 {
      var m := Numbered(s.table.issued + 1);
      assert forall r :: r in s.known ==> |r.id| < |m.id|;
      InsertsRun(Next(s, Insert(m)), n - 1);
      assert Inserts(s.table.issued, n)[1..] == Inserts(s.table.issued + 1, n - 1);
    }
  }

  const Fresh: State := State(Table([], 0), {}, [], 0, [])

  /** A new client loads an empty channel and misses `k` pushes. However many rounds follow,
      they give it all of them if and only if `k` is at most 200. */
  lemma {:induction false} GapIsReached(k: nat, n: nat)
    requires n > 0 && k <= MAX_INT64
    ensures var actions := [LoadHistory] + Inserts(0, k);
            Legal({}, Fresh, actions) && (AllHeld(Trips(Exec({}, Fresh, actions), n)) <==> k <= 200)
  {
    var actions := [LoadHistory] + Inserts(0, k);
    EmptyLoad();
    assert actions[1..] == Inserts(0, k);
    InsertsRun(Fresh, k);
    CoverageInvariant({}, Fresh, Inserts(0, k), 1);
    EmptyListGap({}, Exec({}, Fresh, Inserts(0, k)), n);
  }

  lemma EmptyLoad()
    ensures Next(Fresh, LoadHistory) == Fresh
  {
    NewestRows([], DEFAULT_PAGE_LIMIT);
    assert Newest([], DEFAULT_PAGE_LIMIT) == [];
  }
}
