/** The chat list's ordering: the `byChrono` comparator of the message store and the
    stable sort the store applies with it (clients/web/src/stores/messagesStore.ts). */
module MessageOrder {

  /** A chat message. `seqNo` is the server sequence number `seq`; 0 (or less) stands for the
      absent or zero `seq` of a message the server has not acknowledged. */
  datatype Msg = Msg(id: string, seqNo: int, createdAt: int, body: string)

  const MAX_SAFE_INTEGER: int := 9007199254740991

  predicate HasSeq(m: Msg) { m.seqNo > 0 }

  function SeqOr(m: Msg): int { if HasSeq(m) then m.seqNo else MAX_SAFE_INTEGER }

  /** The comparator: negative, zero or positive as in `Array.prototype.sort`. */
  function ByChrono(a: Msg, b: Msg): int {
    if SeqOr(a) - SeqOr(b) != 0 then SeqOr(a) - SeqOr(b) else a.createdAt - b.createdAt
  }

  predicate Sorted(s: seq<Msg>) {
    forall i, j :: 0 <= i < j < |s| ==> ByChrono(s[i], s[j]) <= 0
  }

  function Filter(keep: Msg -> bool, s: seq<Msg>): seq<Msg> {
    if s == [] then []
    else Filter(keep, s[..|s|-1]) + (if keep(s[|s|-1]) then [s[|s|-1]] else [])
  }

  /** The messages of `s` that compare equal to `m`, in their order of appearance. */
  function Tied(m: Msg, s: seq<Msg>): seq<Msg> {
    if s == [] then []
    else Tied(m, s[..|s|-1]) + (if ByChrono(s[|s|-1], m) == 0 then [s[|s|-1]] else [])
  }

  /** What the language promises of a stable sort: ordered, and ties keep their order. */
  ghost predicate IsStableSort(s: seq<Msg>, r: seq<Msg>) {
    Sorted(r) && forall m: Msg :: Tied(m, r) == Tied(m, s)
  }

  function Insert(m: Msg, s: seq<Msg>): seq<Msg> {
    if s == [] || ByChrono(s[|s|-1], m) <= 0 then s + [m]
    else Insert(m, s[..|s|-1]) + [s[|s|-1]]
  }

  function StableSort(s: seq<Msg>): seq<Msg> {
    if s == [] then [] else Insert(s[|s|-1], StableSort(s[..|s|-1]))
  }

  // ---------- Insertion and filtering ----------

  lemma {:induction false} FilterAppend(keep: Msg -> bool, s: seq<Msg>, t: seq<Msg>)
    ensures Filter(keep, s + t) == Filter(keep, s) + Filter(keep, t)
  {
    if t == [] {
      assert s + t == s;
    } else {
      var n := |t| - 1;
      assert (s + t)[..|s+t|-1] == s + t[..n];
      FilterAppend(keep, s, t[..n]);
    }
  }

  lemma {:induction false} InsertSorted(m: Msg, s: seq<Msg>)
    requires Sorted(s)
    ensures Sorted(Insert(m, s))
    ensures |Insert(m, s)| == |s| + 1
    ensures forall x :: x in Insert(m, s) <==> x == m || x in s
  {
    if s == [] || ByChrono(s[|s|-1], m) <= 0 {
    } else {
      var t, e := s[..|s|-1], s[|s|-1];
      InsertSorted(m, t);
      assert s == t + [e];
      var r := Insert(m, t);
      forall i | 0 <= i < |r| ensures ByChrono(r[i], e) <= 0 {
        assert r[i] in r;
        assert r[i] == m || r[i] in t;
      }
    }
  }

  lemma SomeMember(s: seq<Msg>)
    requires s != []
    ensures s[0] in s
  {
  }

  lemma FilterSnoc(keep: Msg -> bool, s: seq<Msg>, m: Msg)
    ensures keep(m) ==> Filter(keep, s + [m]) == Filter(keep, s) + [m]
    ensures !keep(m) ==> Filter(keep, s + [m]) == Filter(keep, s)
  {
    assert (s + [m])[..|s + [m]|-1] == s;
  }

  lemma InsertSnoc(m: Msg, s: seq<Msg>, e: Msg)
    ensures ByChrono(e, m) <= 0 ==> Insert(m, s + [e]) == s + [e, m]
    ensures ByChrono(e, m) > 0 ==> Insert(m, s + [e]) == Insert(m, s) + [e]
  {
    assert (s + [e])[..|s + [e]|-1] == s;
    assert s + [e] + [m] == s + [e, m];
  }

  lemma InsertLast(m: Msg, s: seq<Msg>)
    requires forall x :: x in s ==> ByChrono(x, m) <= 0
    ensures Insert(m, s) == s + [m]
  {
  }

  lemma InsertFilterLast(keep: Msg -> bool, m: Msg, s: seq<Msg>)
    requires Sorted(s) && (s == [] || ByChrono(s[|s|-1], m) <= 0)
    ensures Filter(keep, Insert(m, s)) ==
            if keep(m) then Insert(m, Filter(keep, s)) else Filter(keep, s)
  {
    FilterSnoc(keep, s, m);
    FilterSorted(keep, s);
    InsertLast(m, Filter(keep, s));
  }

  lemma {:induction false} InsertFilter(keep: Msg -> bool, m: Msg, s: seq<Msg>)
    requires Sorted(s)
    ensures Filter(keep, Insert(m, s)) ==
            if keep(m) then Insert(m, Filter(keep, s)) else Filter(keep, s)
  {
    if s == [] || ByChrono(s[|s|-1], m) <= 0 {
      InsertFilterLast(keep, m, s);
    } else {
      var t, e := s[..|s|-1], s[|s|-1];
      assert s == t + [e];
      InsertFilter(keep, m, t);
      InsertSnoc(m, t, e);
      FilterSnoc(keep, Insert(m, t), e);
      FilterSnoc(keep, t, e);
      InsertSnoc(m, Filter(keep, t), e);
    }
  }

  lemma {:induction false} FilterSorted(keep: Msg -> bool, s: seq<Msg>)
    ensures Sorted(s) ==> Sorted(Filter(keep, s))
    ensures forall x :: x in Filter(keep, s) <==> x in s && keep(x)
  {
    if s != [] {
      var t, e := s[..|s|-1], s[|s|-1];
      assert s == t + [e];
      FilterSorted(keep, t);
      if Sorted(s) {
        forall i | 0 <= i < |Filter(keep, t)| ensures ByChrono(Filter(keep, t)[i], e) <= 0 {
          assert Filter(keep, t)[i] in t;
        }
      }
    }
  }

  // ---------- The sort ----------

  lemma {:induction false} StableSortElements(s: seq<Msg>)
    ensures Sorted(StableSort(s)) && |StableSort(s)| == |s|
    ensures forall x :: x in StableSort(s) <==> x in s
  {
    if s != [] {
      StableSortElements(s[..|s|-1]);
      InsertSorted(s[|s|-1], StableSort(s[..|s|-1]));
      assert s == s[..|s|-1] + [s[|s|-1]];
    }
  }

  lemma SortSnoc(s: seq<Msg>, m: Msg)
    ensures StableSort(s + [m]) == Insert(m, StableSort(s))
  {
    assert (s + [m])[..|s + [m]|-1] == s;
  }

  /** Sorting and then dropping messages equals dropping them and then sorting. */
  lemma {:induction false} SortFilter(keep: Msg -> bool, s: seq<Msg>)
    ensures Filter(keep, StableSort(s)) == StableSort(Filter(keep, s))
  {
    if s != [] {
      var t, e := s[..|s|-1], s[|s|-1];
      SortFilter(keep, t);
      StableSortElements(t);
      InsertFilter(keep, e, StableSort(t));
      assert Filter(keep, s) == Filter(keep, t) + (if keep(e) then [e] else []);
      if keep(e) {
        SortSnoc(Filter(keep, t), e);
      } else {
        assert Filter(keep, s) == Filter(keep, t);
      }
    }
  }

  lemma {:induction false} TiedIsFilter(m: Msg, s: seq<Msg>)
    ensures Tied(m, s) == Filter(x => ByChrono(x, m) == 0, s)
  {
    if s != [] { TiedIsFilter(m, s[..|s|-1]); }
  }

  lemma {:induction false} SortOfTies(m: Msg, s: seq<Msg>)
    requires forall i :: 0 <= i < |s| ==> ByChrono(s[i], m) == 0
    ensures StableSort(s) == s
  {
    if s != [] {
      SortOfTies(m, s[..|s|-1]);
      assert s == s[..|s|-1] + [s[|s|-1]];
    }
  }

  lemma {:induction false} SortIsStable(s: seq<Msg>)
    ensures IsStableSort(s, StableSort(s))
  {
    StableSortElements(s);
    forall m: Msg ensures Tied(m, StableSort(s)) == Tied(m, s) {
      var keep := x => ByChrono(x, m) == 0;
      SortFilter(keep, s);
      FilterSorted(keep, s);
      TiedIsFilter(m, s);
      TiedIsFilter(m, StableSort(s));
      forall i | 0 <= i < |Filter(keep, s)| ensures ByChrono(Filter(keep, s)[i], m) == 0 {
        assert Filter(keep, s)[i] in Filter(keep, s);
      }
      SortOfTies(m, Filter(keep, s));
    }
  }

  lemma TiedLast(r: seq<Msg>)
    requires r != []
    ensures Tied(r[|r|-1], r) == Tied(r[|r|-1], r[..|r|-1]) + [r[|r|-1]]
  {
  }

  ghost predicate SameTies(r: seq<Msg>, q: seq<Msg>) { forall m: Msg :: Tied(m, r) == Tied(m, q) }

  lemma EmptyTogether(r: seq<Msg>, q: seq<Msg>)
    requires SameTies(r, q)
    ensures r == [] <==> q == []
  {
    if r == [] && q != [] { TiedLast(q); }
    if q == [] && r != [] { TiedLast(r); }
  }

  lemma SameLast(r: seq<Msg>, q: seq<Msg>)
    requires r != [] && q != [] && Sorted(r) && Sorted(q) && SameTies(r, q)
    ensures r[|r|-1] == q[|q|-1]
  {
    var a, b := r[|r|-1], q[|q|-1];
    LastDominates(r, q);
    LastDominates(q, r);
    TiedLast(r);
    TiedLast(q);
    TiedSame(a, b, r);
    assert Tied(a, r) == Tied(b, q);
    assert Tied(a, r)[|Tied(a, r)|-1] == a && Tied(b, q)[|Tied(b, q)|-1] == b;
  }

  lemma TiedSnoc(m: Msg, s: seq<Msg>, e: Msg)
    ensures Tied(m, s + [e]) == Tied(m, s) + (if ByChrono(e, m) == 0 then [e] else [])
  {
    assert (s + [e])[..|s + [e]|-1] == s;
  }

  lemma SameTiesWithoutLast(r: seq<Msg>, q: seq<Msg>, e: Msg)
    requires SameTies(r + [e], q + [e])
    ensures SameTies(r, q)
  {
    forall m: Msg ensures Tied(m, r) == Tied(m, q) {
      TiedSnoc(m, r, e);
      TiedSnoc(m, q, e);
      assert Tied(m, r + [e]) == Tied(m, q + [e]);
      var tail := if ByChrono(e, m) == 0 then [e] else [];
      SameFront(Tied(m, r), Tied(m, q), tail);
    }
  }

  lemma SameFront(a: seq<Msg>, b: seq<Msg>, tail: seq<Msg>)
    requires a + tail == b + tail
    ensures a == b
  {
    assert |a| == |b|;
    assert a == (a + tail)[..|a|] && b == (b + tail)[..|b|];
  }

  /** A stable sort has only one possible answer, so `StableSort` is the engine's. */
  lemma {:induction false} StableSortUnique(r: seq<Msg>, q: seq<Msg>)
    requires Sorted(r) && Sorted(q)
    requires forall m: Msg :: Tied(m, r) == Tied(m, q)
    ensures r == q
  {
    EmptyTogether(r, q);
    if r != [] {
      SameLast(r, q);
      var r', q', e := r[..|r|-1], q[..|q|-1], r[|r|-1];
      assert r == r' + [e] && q == q' + [e];
      SameTiesWithoutLast(r', q', e);
      StableSortUnique(r', q');
    }
  }

  lemma LastDominates(r: seq<Msg>, q: seq<Msg>)
    requires r != [] && q != [] && Sorted(q)
    requires Tied(r[|r|-1], r) == Tied(r[|r|-1], q)
    ensures ByChrono(r[|r|-1], q[|q|-1]) <= 0
  {
    var a := r[|r|-1];
    TiedLast(r);
    assert a in Tied(a, q);
    TiedIsFilter(a, q);
    FilterSorted(x => ByChrono(x, a) == 0, q);
  }

  lemma {:induction false} TiedSame(a: Msg, b: Msg, s: seq<Msg>)
    requires ByChrono(a, b) == 0
    ensures Tied(a, s) == Tied(b, s)
  {
    if s != [] { TiedSame(a, b, s[..|s|-1]); }
  }

  // ---------- What the order is ----------

  /** By seq, then by creation time; a message without a seq comes after all that have one. */
  ghost predicate Before(a: Msg, b: Msg) {
    || (a.seqNo > 0 && (b.seqNo <= 0 || a.seqNo < b.seqNo))
    || (a.seqNo > 0 && a.seqNo == b.seqNo && a.createdAt < b.createdAt)
    || (a.seqNo <= 0 && b.seqNo <= 0 && a.createdAt < b.createdAt)
  }

  /** The comparator says so for every seq that JavaScript counts exactly. */
  lemma ComparatorIsBefore(a: Msg, b: Msg)
    requires a.seqNo < 9007199254740991 && b.seqNo < 9007199254740991
    ensures ByChrono(a, b) < 0 <==> Before(a, b)
    ensures ByChrono(a, b) > 0 <==> Before(b, a)
  {
  }

  lemma SortFollowsOrder(s: seq<Msg>)
    requires forall m :: m in s ==> m.seqNo < 9007199254740991
    ensures var r := StableSort(s); forall i, j :: 0 <= i < j < |r| ==> !Before(r[j], r[i])
  {
    var r := StableSort(s);
    SortIsStable(s);
    StableSortElements(s);
    forall i, j | 0 <= i < j < |r| ensures !Before(r[j], r[i]) {
      assert r[i] in r && r[j] in r;
      ComparatorIsBefore(r[i], r[j]);
    }
  }
}
