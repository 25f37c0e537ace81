/** What the store's actions add up to: merging is blind to order and batching, the freshest
    copy wins, and optimistic sends leave no trace once acknowledged. */
module MessageConvergence {
  import opened MessageOrder
  import opened MessageStore

  // ---------- Which copy of a message survives a merge ----------

  function LastCopy(s: seq<Msg>, id: string): seq<Msg> {
    if s == [] then [] else if s[|s|-1].id == id then [s[|s|-1]] else LastCopy(s[..|s|-1], id)
  }

  function LastSequenced(s: seq<Msg>, id: string): seq<Msg> {
    if s == [] then []
    else if s[|s|-1].id == id && HasSeq(s[|s|-1]) then [s[|s|-1]]
    else LastSequenced(s[..|s|-1], id)
  }

  /** The last sequenced incoming copy; failing that a sequenced local copy; failing that
      the last incoming copy; failing that the local one. */
  function Winner(existing: seq<Msg>, incoming: seq<Msg>, id: string): seq<Msg> {
    var mine, theirs := LastCopy(existing, id), LastCopy(incoming, id);
    if LastSequenced(incoming, id) != [] then LastSequenced(incoming, id)
    else if (mine != [] && HasSeq(mine[0])) || theirs == [] then mine
    else theirs
  }

  lemma {:induction false} GetPut(s: seq<Msg>, m: Msg, id: string)
    ensures Get(Put(s, m), id) == if id == m.id then [m] else Get(s, id)
  {
    if s != [] && s[0].id != m.id {
      GetPut(s[1..], m, id);
    }
  }

  lemma {:induction false} GetPutAll(t: seq<Msg>, id: string)
    ensures Get(PutAll([], t), id) == LastCopy(t, id)
  {
    if t != [] {
      GetPutAll(t[..|t|-1], id);
      GetPut(PutAll([], t[..|t|-1]), t[|t|-1], id);
    }
  }

  lemma {:induction false} GetAbsorbAll(existing: seq<Msg>, t: seq<Msg>, id: string)
    ensures Get(AbsorbAll(PutAll([], existing), t), id) == Winner(existing, t, id)
  {
    var s := PutAll([], existing);
    if t == [] {
      GetPutAll(existing, id);
    } else {
      var n := |t| - 1;
      GetAbsorbAll(existing, t[..n], id);
      GetPut(AbsorbAll(s, t[..n]), t[n], id);
      LastSequencedIsSequenced(t[..n], id);
      LastSequencedIsSequenced(t, id);
    }
  }

  lemma {:induction false} LastSequencedIsSequenced(t: seq<Msg>, id: string)
    ensures LastSequenced(t, id) != [] ==> HasSeq(LastSequenced(t, id)[0])
    ensures LastCopy(t, id) != [] && HasSeq(LastCopy(t, id)[0]) ==>
              LastSequenced(t, id) == LastCopy(t, id)
    ensures LastSequenced(t, id) != [] ==> LastCopy(t, id) != []
  {
    if t != [] { LastSequencedIsSequenced(t[..|t|-1], id); }
  }

  lemma {:induction false} GetMember(s: seq<Msg>, m: Msg)
    requires DistinctIds(s) && m in s
    ensures Get(s, m.id) == [m]
  {
    if s[0] != m {
      assert s == [s[0]] + s[1..];
      GetMember(s[1..], m);
    }
  }

  /** A merge stores, under every id, exactly the winning copy. */
  lemma MergeKeepsFreshest(existing: seq<Msg>, incoming: seq<Msg>, id: string)
    ensures Get(Merge(existing, incoming), id) == Winner(existing, incoming, id)
  {
    var all := AbsorbAll(PutAll([], existing), incoming);
    GetAbsorbAll(existing, incoming, id);
    PutAllShape([], existing);
    AbsorbAllShape(PutAll([], existing), incoming);
    MergeShape(existing, incoming);
    StableSortElements(all);
    GetIn(all, id);
    GetIn(StableSort(all), id);
    if Get(all, id) != [] {
      GetMember(StableSort(all), Get(all, id)[0]);
    }
  }

  /** A message without a sequence number never replaces a copy that has one. */
  lemma SequencelessNeverOverwrites(existing: seq<Msg>, incoming: seq<Msg>, m: Msg)
    requires LastCopy(existing, m.id) == [m] && HasSeq(m)
    requires forall x :: x in incoming && x.id == m.id ==> !HasSeq(x)
    ensures m in Merge(existing, incoming)
  {
    MergeKeepsFreshest(existing, incoming, m.id);
    NoneSequenced(incoming, m.id);
    GetIn(Merge(existing, incoming), m.id);
  }

  lemma {:induction false} NoneSequenced(t: seq<Msg>, id: string)
    requires forall x :: x in t && x.id == id ==> !HasSeq(x)
    ensures LastSequenced(t, id) == []
  {
    if t != [] {
      assert t[|t|-1] in t;
      NoneSequenced(t[..|t|-1], id);
    }
  }

  // ---------- Merging is order-blind ----------

  datatype Ref = Ref(id: string, seqNo: int)

  function RefOf(m: Msg): Ref { Ref(m.id, m.seqNo) }

  function Refs(s: seq<Msg>): set<Ref> { set m | m in s :: RefOf(m) }

  function RefSeq(s: seq<Msg>): seq<Ref> { seq(|s|, i requires 0 <= i < |s| => RefOf(s[i])) }

  /** Server references: positive sequence numbers, one per id and one id per number. */
  ghost predicate Coherent(refs: set<Ref>) {
    && (forall r :: r in refs ==> r.seqNo > 0)
    && (forall r, q :: r in refs && q in refs ==> (r.id == q.id <==> r.seqNo == q.seqNo))
  }

  ghost predicate Ascending(s: seq<Msg>) {
    forall i, j :: 0 <= i < j < |s| ==> s[i].seqNo < s[j].seqNo
  }

  /** The messages that a push or a backfill brings in. */
  function Carried(e: Event): seq<Msg> {
    match e case Push(m) => [m] case Backfill(b) => b case _ => []
  }

  function CarriedRefs(es: seq<Event>): set<Ref> {
    if es == [] then {} else CarriedRefs(es[..|es|-1]) + Refs(Carried(es[|es|-1]))
  }

  lemma PutRefs(s: seq<Msg>, m: Msg)
    requires Coherent(Refs(s) + {RefOf(m)})
    ensures Refs(Put(s, m)) == Refs(s) + {RefOf(m)}
  {
    PutShape(s, m);
    forall x | x in s ensures RefOf(x) in Refs(Put(s, m)) {
      assert RefOf(x) in Refs(s);
      if x.id == m.id { assert RefOf(x) == RefOf(m); }
    }
  }

  lemma {:induction false} PutAllRefs(s: seq<Msg>, t: seq<Msg>)
    requires Coherent(Refs(s) + Refs(t))
    ensures Refs(PutAll(s, t)) == Refs(s) + Refs(t)
  {
    if t != [] {
      var n := |t| - 1;
      assert t == t[..n] + [t[n]];
      assert Refs(t) == Refs(t[..n]) + {RefOf(t[n])};
      PutAllRefs(s, t[..n]);
      PutRefs(PutAll(s, t[..n]), t[n]);
    }
  }

  lemma {:induction false} AbsorbAllIsPutAll(s: seq<Msg>, t: seq<Msg>)
    requires forall m :: m in t ==> HasSeq(m)
    ensures AbsorbAll(s, t) == PutAll(s, t)
  {
    if t != [] { AbsorbAllIsPutAll(s, t[..|t|-1]); }
  }

  lemma SortIsAscending(s: seq<Msg>)
    requires DistinctIds(s) && Coherent(Refs(s))
    ensures Ascending(StableSort(s)) && Refs(StableSort(s)) == Refs(s)
  {
    StableSortElements(s);
    SortKeepsDistinct(s);
    var r := StableSort(s);
    forall i, j | 0 <= i < j < |r| ensures r[i].seqNo < r[j].seqNo {
      assert RefOf(r[i]) in Refs(s) && RefOf(r[j]) in Refs(s);
      assert ByChrono(r[i], r[j]) <= 0;
    }
  }

  /** Over server messages a merge is a union of references in ascending order. */
  lemma MergeIsUnion(existing: seq<Msg>, incoming: seq<Msg>)
    requires Coherent(Refs(existing) + Refs(incoming))
    ensures Refs(Merge(existing, incoming)) == Refs(existing) + Refs(incoming)
    ensures Ascending(Merge(existing, incoming))
  {
    var base := PutAll([], existing);
    PutAllRefs([], existing);
    forall m | m in incoming ensures HasSeq(m) { assert RefOf(m) in Refs(incoming); }
    AbsorbAllIsPutAll(base, incoming);
    PutAllRefs(base, incoming);
    PutAllShape([], existing);
    PutAllShape(base, incoming);
    SortIsAscending(PutAll(base, incoming));
  }

  lemma {:induction false} RunIsUnion(s: seq<Msg>, es: seq<Event>)
    requires forall e :: e in es ==> e.Push? || e.Backfill?
    requires Ascending(s) && Coherent(Refs(s) + CarriedRefs(es))
    ensures Refs(Run(s, es)) == Refs(s) + CarriedRefs(es)
    ensures Ascending(Run(s, es))
  {
    if es != [] {
      var n := |es| - 1;
      var before, e := Run(s, es[..n]), es[n];
      assert e in es;
      RunIsUnion(s, es[..n]);
      MergeIsUnion(before, Carried(e));
      if e.Push? {
        assert RefOf(e.m) in Refs(Carried(e));
      }
    }
  }

  lemma AscendingSnoc(s: seq<Msg>)
    requires Ascending(s) && s != []
    ensures Ascending(s[..|s|-1])
    ensures Refs(s[..|s|-1]) == Refs(s) - {RefOf(s[|s|-1])}
    ensures forall r :: r in Refs(s) ==> r.seqNo <= s[|s|-1].seqNo
    ensures RefOf(s[|s|-1]) in Refs(s)
    ensures RefSeq(s) == RefSeq(s[..|s|-1]) + [RefOf(s[|s|-1])]
  {
    var t, x := s[..|s|-1], s[|s|-1];
    assert s == t + [x];
    forall m | m in t ensures m.seqNo < x.seqNo {}
  }

  lemma {:induction false} AscendingUnique(a: seq<Msg>, b: seq<Msg>)
    requires Ascending(a) && Ascending(b) && Refs(a) == Refs(b)
    ensures RefSeq(a) == RefSeq(b)
  {
    if a == [] || b == [] {
      if a != [] { AscendingSnoc(a); }
      if b != [] { AscendingSnoc(b); }
    } else {
      AscendingSnoc(a);
      AscendingSnoc(b);
      var x, y := RefOf(a[|a|-1]), RefOf(b[|b|-1]);
      assert x.seqNo == y.seqNo;
      var m :| m in b && RefOf(m) == x;
      assert m == b[|b|-1];
      AscendingUnique(a[..|a|-1], b[..|b|-1]);
    }
  }

  /** Two clients that received the same server messages, in whatever batches, order and
      multiplicity, by push or by backfill, show the same (id, seq) list. */
  lemma OrderBlind(s: seq<Msg>, es: seq<Event>, fs: seq<Event>)
    requires forall e :: e in es || e in fs ==> e.Push? || e.Backfill?
    requires Ascending(s) && Coherent(Refs(s) + CarriedRefs(es))
    requires CarriedRefs(es) == CarriedRefs(fs)
    ensures RefSeq(Run(s, es)) == RefSeq(Run(s, fs))
  {
    RunIsUnion(s, es);
    RunIsUnion(s, fs);
    AscendingUnique(Run(s, es), Run(s, fs));
  }

  /** Merging a batch a second time changes nothing. */
  lemma MergeIdempotent(s: seq<Msg>, batch: seq<Msg>)
    requires Coherent(Refs(s) + Refs(batch))
    ensures RefSeq(Merge(Merge(s, batch), batch)) == RefSeq(Merge(s, batch))
  {
    MergeIsUnion(s, batch);
    assert Refs(Merge(s, batch)) + Refs(batch) == Refs(s) + Refs(batch);
    MergeIsUnion(Merge(s, batch), batch);
    AscendingUnique(Merge(Merge(s, batch), batch), Merge(s, batch));
  }

  // ---------- Optimistic sends leave no trace ----------

  function Without(temps: set<string>, s: seq<Msg>): seq<Msg> {
    Filter((m: Msg) => m.id !in temps, s)
  }

  /** Temporary ids are not server ids, pushes and acknowledgements carry a sequence number. */
  ghost predicate Disciplined(temps: set<string>, e: Event) {
    match e
    case Load(history) => DistinctIds(history) && forall m :: m in history ==> m.id !in temps
    case Push(m) => m.id !in temps && HasSeq(m)
    case Backfill(batch) => forall m :: m in batch ==> m.id !in temps
    case Delete(id) => true
    case Send(m) => m.id in temps
    case Ack(t, acked) => t in temps && acked.id !in temps && acked.id != "" && HasSeq(acked)
  }

  /** The run in which nothing was ever shown before the server acknowledged it. */
  function Erase(es: seq<Event>): seq<Event> {
    if es == [] then []
    else
      match es[|es|-1]
      case Send(_) => Erase(es[..|es|-1])
      case Ack(_, acked) => Erase(es[..|es|-1]) + [Push(acked)]
      case e => Erase(es[..|es|-1]) + [e]
  }

  /** The temporary ids sent and neither acknowledged, deleted nor replaced by a load. */
  function Outstanding(es: seq<Event>): set<string> {
    if es == [] then {}
    else
      var before := Outstanding(es[..|es|-1]);
      match es[|es|-1]
      case Load(_) => {}
      case Send(m) => before + {m.id}
      case Ack(t, _) => before - {t}
      case Delete(id) => before - {id}
      case _ => before
  }

  lemma WithoutCons(temps: set<string>, a: Msg, s: seq<Msg>)
    ensures Without(temps, [a] + s) == if a.id in temps then Without(temps, s) else [a] + Without(temps, s)
  {
    FilterAppend((m: Msg) => m.id !in temps, [a], s);
    assert [] + Without(temps, s) == Without(temps, s);
  }

  lemma PutCons(a: Msg, s: seq<Msg>, m: Msg)
    ensures Put([a] + s, m) == if a.id == m.id then [m] + s else [a] + Put(s, m)
  {
    assert ([a] + s)[1..] == s;
  }

  lemma {:induction false} WithoutPut(temps: set<string>, s: seq<Msg>, m: Msg)
    ensures Without(temps, Put(s, m)) ==
            if m.id in temps then Without(temps, s) else Put(Without(temps, s), m)
  {
    if s == [] {
    } else {
      var a, rest := s[0], s[1..];
      assert s == [a] + rest;
      WithoutCons(temps, a, rest);
      PutCons(a, Without(temps, rest), m);
      if a.id == m.id {
        WithoutCons(temps, m, rest);
        WithoutPut(temps, rest, m);
      } else {
        WithoutPut(temps, rest, m);
        WithoutCons(temps, a, Put(rest, m));
      }
    }
  }

  lemma {:induction false} WithoutGet(temps: set<string>, s: seq<Msg>, id: string)
    requires id !in temps
    ensures Get(Without(temps, s), id) == Get(s, id)
  {
    if s != [] {
      assert s == [s[0]] + s[1..];
      WithoutCons(temps, s[0], s[1..]);
      WithoutGet(temps, s[1..], id);
      var rest := Without(temps, s[1..]);
      assert ([s[0]] + rest)[1..] == rest;
    }
  }

  lemma {:induction false} WithoutPutAll(temps: set<string>, s: seq<Msg>, t: seq<Msg>)
    ensures Without(temps, PutAll(s, t)) == PutAll(Without(temps, s), Without(temps, t))
  {
    if t != [] {
      var n := |t| - 1;
      WithoutPutAll(temps, s, t[..n]);
      WithoutPut(temps, PutAll(s, t[..n]), t[n]);
      var kept := Without(temps, t[..n]);
      if t[n].id in temps {
        assert Without(temps, t) == kept + [] == kept;
      } else {
        assert Without(temps, t) == kept + [t[n]];
        assert (kept + [t[n]])[..|kept|] == kept;
      }
    }
  }

  lemma {:induction false} WithoutAbsorbAll(temps: set<string>, s: seq<Msg>, t: seq<Msg>)
    requires forall m :: m in t ==> m.id !in temps
    ensures Without(temps, AbsorbAll(s, t)) == AbsorbAll(Without(temps, s), t)
  {
    if t != [] {
      var n := |t| - 1;
      assert t[n] in t;
      WithoutAbsorbAll(temps, s, t[..n]);
      WithoutPut(temps, AbsorbAll(s, t[..n]), t[n]);
      WithoutGet(temps, AbsorbAll(s, t[..n]), t[n].id);
    }
  }

  lemma WithoutMerge(temps: set<string>, s: seq<Msg>, t: seq<Msg>)
    requires forall m :: m in t ==> m.id !in temps
    ensures Without(temps, Merge(s, t)) == Merge(Without(temps, s), t)
  {
    SortFilter((m: Msg) => m.id !in temps, AbsorbAll(PutAll([], s), t));
    WithoutAbsorbAll(temps, PutAll([], s), t);
    WithoutPutAll(temps, [], s);
  }

  /** A list as the store keeps it: in order, one entry per id. */
  ghost predicate Settled(s: seq<Msg>) { Sorted(s) && DistinctIds(s) }

  lemma {:induction false} PutNew(s: seq<Msg>, m: Msg)
    requires m.id !in Ids(s)
    ensures Put(s, m) == s + [m]
  {
    if s != [] {
      assert s[0].id in Ids(s);
      assert s == [s[0]] + s[1..];
      assert forall x :: x in s[1..] ==> x in s;
      PutNew(s[1..], m);
    }
  }

  /** A known id keeps its place. */
  lemma {:induction false} PutKnown(s: seq<Msg>, m: Msg, i: nat)
    requires DistinctIds(s) && i < |s| && s[i].id == m.id
    ensures Put(s, m) == s[i := m]
  {
    if i > 0 { PutKnown(s[1..], m, i - 1); }
  }

  lemma {:induction false} SettledIsFixed(s: seq<Msg>)
    requires Settled(s)
    ensures PutAll([], s) == s && StableSort(s) == s
  {
    if s != [] {
      var t, m := s[..|s|-1], s[|s|-1];
      SettledIsFixed(t);
      PutNew(t, m);
      assert s == t + [m];
    }
  }

  lemma {:induction false} FilterSettled(keep: Msg -> bool, s: seq<Msg>)
    requires Settled(s)
    ensures Settled(Filter(keep, s))
  {
    FilterSorted(keep, s);
    if s != [] {
      var t, e := s[..|s|-1], s[|s|-1];
      FilterSettled(keep, t);
      FilterSorted(keep, t);
      forall i | 0 <= i < |Filter(keep, t)| ensures Filter(keep, t)[i].id != e.id {
        assert Filter(keep, t)[i] in t;
      }
    }
  }

  lemma StepSettled(temps: set<string>, s: seq<Msg>, e: Event)
    requires Settled(s) && Disciplined(temps, e)
    ensures Settled(Step(s, e))
  {
    match e
    case Load(history) => SortKeepsDistinct(history); StableSortElements(history);
    case Push(m) => MergeShape(s, [Local(s, m)]);
    case Backfill(batch) => MergeShape(s, batch);
    case Delete(id) => FilterSettled((m: Msg) => m.id != id, s);
    case Send(m) => MergeShape(s, [Local(s, m)]);
    case Ack(t, acked) =>
      var rest := Remove(s, t);
      MergeShape(rest, [Local(rest, acked)]);
  }

  lemma {:induction false} RunSettled(temps: set<string>, s: seq<Msg>, es: seq<Event>)
    requires Settled(s) && forall e :: e in es ==> Disciplined(temps, e)
    ensures Settled(Run(s, es))
  {
    if es != [] {
      RunSettled(temps, s, es[..|es|-1]);
      StepSettled(temps, Run(s, es[..|es|-1]), es[|es|-1]);
    }
  }

  lemma {:induction false} FilterSwap(temps: set<string>, id: string, s: seq<Msg>)
    ensures Without(temps, Remove(s, id)) == Remove(Without(temps, s), id)
    ensures id in temps ==> Without(temps, Remove(s, id)) == Without(temps, s)
  {
    if s != [] {
      var t, e := s[..|s|-1], s[|s|-1];
      FilterSwap(temps, id, t);
      FilterSnoc((m: Msg) => m.id !in temps, Remove(t, id), e);
      FilterSnoc((m: Msg) => m.id != id, Without(temps, t), e);
      assert Remove(t, id) + [] == Remove(t, id);
      assert Without(temps, t) + [] == Without(temps, t);
    }
  }

  /** An optimistic insert is invisible once temporary ids are filtered out. */
  lemma SendIsInvisible(temps: set<string>, s: seq<Msg>, m: Msg)
    requires Settled(s) && m.id in temps
    ensures Without(temps, Append(s, m)) == Without(temps, s)
  {
    var k := Local(s, m);
    SettledIsFixed(s);
    assert AbsorbAll(s, [k]) == Absorb(s, k) by { assert [k][..0] == []; }
    SortFilter((x: Msg) => x.id !in temps, AbsorbAll(s, [k]));
    WithoutPut(temps, s, k);
    FilterSettled((x: Msg) => x.id !in temps, s);
    SettledIsFixed(Without(temps, s));
  }

  /** Filtering temporary ids out of a run gives the run of the erased events. */
  lemma {:induction false} RunWithout(temps: set<string>, s: seq<Msg>, es: seq<Event>)
    requires Settled(s) && forall e :: e in es ==> Disciplined(temps, e)
    ensures Without(temps, Run(s, es)) == Run(Without(temps, s), Erase(es))
  {
    if es != [] {
      var n := |es| - 1;
      var e, before, erased := es[n], Run(s, es[..n]), Erase(es[..n]);
      assert e in es;
      RunWithout(temps, s, es[..n]);
      RunSettled(temps, s, es[..n]);
      match e
      case Load(history) =>
        SortFilter((m: Msg) => m.id !in temps, history);
        NothingToFilter(temps, history);
        RunSnoc(Without(temps, s), erased, e);
      case Push(m) =>
        WithoutMerge(temps, before, [m]);
        RunSnoc(Without(temps, s), erased, e);
      case Backfill(batch) =>
        WithoutMerge(temps, before, batch);
        RunSnoc(Without(temps, s), erased, e);
      case Delete(id) =>
        FilterSwap(temps, id, before);
        RunSnoc(Without(temps, s), erased, e);
      case Send(m) =>
        SendIsInvisible(temps, before, m);
      case Ack(t, acked) =>
        FilterSwap(temps, t, before);
        WithoutMerge(temps, Remove(before, t), [acked]);
        RunSnoc(Without(temps, s), erased, Push(acked));
    }
  }

  lemma RunSnoc(s: seq<Msg>, es: seq<Event>, e: Event)
    ensures Run(s, es + [e]) == Step(Run(s, es), e)
  {
    assert (es + [e])[..|es + [e]|-1] == es;
  }

  lemma {:induction false} NothingToFilter(temps: set<string>, s: seq<Msg>)
    requires forall m :: m in s ==> m.id !in temps
    ensures Without(temps, s) == s
  {
    if s != [] {
      assert s[|s|-1] in s;
      NothingToFilter(temps, s[..|s|-1]);
      assert s == s[..|s|-1] + [s[|s|-1]];
    }
  }

  lemma {:induction false} OnlyOutstanding(temps: set<string>, s: seq<Msg>, es: seq<Event>)
    requires forall m :: m in s ==> m.id !in temps
    requires forall e :: e in es ==> Disciplined(temps, e)
    ensures Ids(Run(s, es)) * temps <= Outstanding(es)
  {
    if es != [] {
      var n := |es| - 1;
      var e, before := es[n], Run(s, es[..n]);
      assert e in es;
      OnlyOutstanding(temps, s, es[..n]);
      match e
      case Load(history) => StableSortElements(history);
      case Push(m) => MergeShape(before, [m]);
      case Backfill(batch) => MergeShape(before, batch);
      case Delete(id) => FilterSorted((m: Msg) => m.id != id, before);
      case Send(m) => MergeShape(before, [Local(before, m)]);
      case Ack(t, acked) =>
        FilterSorted((m: Msg) => m.id != t, before);
        MergeShape(Remove(before, t), [acked]);
    }
  }

  /** Once every optimistic send is acknowledged the list is, message for message, the list
      of a client that only ever showed acknowledged messages. */
  lemma OptimisticSendsLeaveNoTrace(temps: set<string>, s: seq<Msg>, es: seq<Event>)
    requires Settled(s) && forall m :: m in s ==> m.id !in temps
    requires forall e :: e in es ==> Disciplined(temps, e)
    requires Outstanding(es) == {}
    ensures Run(s, es) == Run(s, Erase(es))
  {
    RunWithout(temps, s, es);
    OnlyOutstanding(temps, s, es);
    forall m | m in Run(s, es) ensures m.id !in temps {
      assert m.id in Ids(Run(s, es));
      assert m.id !in Ids(Run(s, es)) * temps;
    }
    NothingToFilter(temps, Run(s, es));
    NothingToFilter(temps, s);
  }

  // ---------- Where an optimistic message stands ----------

  lemma {:induction false} InsertBehind(a: seq<Msg>, b: seq<Msg>, m: Msg)
    requires forall x :: x in a ==> ByChrono(x, m) <= 0
    requires forall y :: y in b ==> ByChrono(y, m) > 0
    ensures Insert(m, a + b) == a + [m] + b
  {
    if b == [] {
      assert a + b == a && a + [m] + b == a + [m];
      InsertLast(m, a);
    } else {
      var init, e := b[..|b|-1], b[|b|-1];
      assert a + b == (a + init) + [e] && b == init + [e];
      InsertSnoc(m, a + init, e);
      InsertBehind(a, init, m);
    }
  }

  lemma AppendNew(s: seq<Msg>, m: Msg)
    requires Settled(s) && HasSeq(m) && m.id !in Ids(s)
    ensures Append(s, m) == Insert(m, s)
  {
    SettledIsFixed(s);
    GetIn(s, m.id);
    PutNew(s, m);
    assert [m][..0] == [];
    assert AbsorbAll(s, [m]) == s + [m];
    SortSnoc(s, m);
  }

  /** A new message with a seq above those of `a` goes directly behind `a`, and in front of
      the messages without a seq, if there are any. */
  lemma AppendStands(a: seq<Msg>, b: seq<Msg>, m: Msg)
    requires Settled(a + b) && m.id !in Ids(a + b) && 0 < m.seqNo < 9007199254740991
    requires forall x :: x in a ==> 0 < x.seqNo < m.seqNo
    requires forall y :: y in b ==> y.seqNo <= 0
    ensures Append(a + b, m) == a + [m] + b
  {
    AppendNew(a + b, m);
    InsertBehind(a, b, m);
  }

  /** An optimistic message takes the seq after the highest shown and stands directly behind
      all messages with a seq. */
  lemma OptimisticIsLast(a: seq<Msg>, b: seq<Msg>, m: Msg) returns (n: int)
    requires Settled(a + b) && m.id !in Ids(a + b) && m.seqNo <= 0
    requires forall x :: x in a ==> 0 < x.seqNo < 9007199254740990
    requires forall y :: y in b ==> y.seqNo <= 0
    ensures n >= 1 && (forall x :: x in a ==> x.seqNo < n) && (n == 1 || exists x :: x in a && x.seqNo == n - 1)
    ensures Append(a + b, m) == a + [m.(seqNo := n)] + b
  {
    n := MaxSeq(a + b) + 1;
    MaxSeqIsMax(a + b);
    MaxSeqIsAttained(a + b);
    assert forall x :: x in a ==> x in a + b;
    var k := m.(seqNo := n);
    assert Local(a + b, m) == k == Local(a + b, k);
    assert Append(a + b, m) == Append(a + b, k);
    AppendStands(a, b, k);
  }

  /** A later message with a higher seq then goes directly behind the optimistic one, which
      does not move. */
  lemma LaterPushGoesBehind(a: seq<Msg>, b: seq<Msg>, m: Msg, push: Msg) returns (n: int)
    requires Settled(a + b) && m.id !in Ids(a + b) && m.seqNo <= 0
    requires forall x :: x in a ==> 0 < x.seqNo < 9007199254740990
    requires forall y :: y in b ==> y.seqNo <= 0
    requires push.id !in Ids(a + b) && push.id != m.id && push.seqNo < 9007199254740991
    requires push.seqNo > 1 && forall x :: x in a ==> push.seqNo > x.seqNo + 1
    ensures Append(Append(a + b, m), push) == a + [m.(seqNo := n), push] + b
  {
    n := OptimisticIsLast(a, b, m);
    var k := m.(seqNo := n);
    MergeShape(a + b, [Local(a + b, m)]);
    IdsWith(a, b, k);
    assert a + [k] + b == (a + [k]) + b;
    PushBehind(a, b, k, push);
  }

  lemma PushBehind(a: seq<Msg>, b: seq<Msg>, k: Msg, push: Msg)
    requires Settled(a + [k] + b) && push.id !in Ids(a + [k] + b)
    requires 0 < k.seqNo < push.seqNo < 9007199254740991
    requires forall x :: x in a ==> 0 < x.seqNo < push.seqNo
    requires forall y :: y in b ==> y.seqNo <= 0
    ensures Append(a + [k] + b, push) == a + [k, push] + b
  {
    AppendStands(a + [k], b, push);
    assert a + [k] + [push] == a + [k, push];
  }

  lemma IdsWith(a: seq<Msg>, b: seq<Msg>, k: Msg)
    ensures Ids(a + [k] + b) == Ids(a + b) + {k.id}
  {
    assert forall x :: x in a + [k] + b <==> x in a + b || x == k;
  }
}
