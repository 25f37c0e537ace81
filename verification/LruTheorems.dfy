/** What the recency list promises over every sequence of calls. */
module LruTheorems {
  import opened Wrappers
  import opened Lru

  // ---------- Shape ----------

  lemma KeysOfFront<K, V>(s: seq<Pair<K, V>>, i: nat)
    requires i < |s|
    ensures Keys(RemoveAt(s, i)) == RemoveAt(Keys(s), i)
    ensures Keys(MovedToFront(s, i)) == MovedToFront(Keys(s), i)
  {
  }

  /** Touching or adding a key puts it in front of the others, which keep their order. */
  function Front<K(==)>(ks: seq<K>, k: K): seq<K> {
    [k] + (if k in ks then RemoveAt(ks, Position(ks, k)) else ks)
  }

  /** The keys after a call, in terms of the keys before it. */
  function KeysAfter<K(==), V>(ks: seq<K>, cap: nat, c: Call<K, V>): seq<K> {
    match c
    case Fetch(k, filled) => if k in ks || filled.Some? then Truncated(Front(ks, k), cap) else ks
    case Put(k, _) => Truncated(Front(ks, k), cap)
    case Drop(k) => if k in ks then RemoveAt(ks, Position(ks, k)) else ks
  }

  lemma EffectKeys<K, V>(s: seq<Pair<K, V>>, cap: nat, c: Call<K, V>)
    requires |s| <= cap
    ensures Keys(Effect(s, cap, c)) == KeysAfter(Keys(s), cap, c)
  {
    if c.key in Keys(s) {
      KeysOfFront(s, Where(s, c.key));
    } else {
      match c
      case Fetch(k, filled) => if filled.Some? { KeysOfAdded(s, cap, k, filled.value); }
      case Put(k, v) => KeysOfAdded(s, cap, k, v);
      case Drop(_) =>
    }
  }

  lemma KeysOfAdded<K, V>(s: seq<Pair<K, V>>, cap: nat, k: K, v: V)
    requires k !in Keys(s)
    ensures Keys(Added(s, cap, k, v)) == Truncated([k] + Keys(s), cap)
  {
    var grown := [Pair(k, v)] + s;
    assert Keys(grown) == [k] + Keys(s);
    KeysOfTruncated(grown, cap);
  }

  lemma KeysOfTruncated<K, V>(s: seq<Pair<K, V>>, cap: nat)
    ensures Keys(Truncated(s, cap)) == Truncated(Keys(s), cap)
  {
  }

  lemma FrontKeeps<K>(ks: seq<K>, k: K)
    requires Distinct(ks)
    ensures Distinct(Front(ks, k))
    ensures forall x :: x in Front(ks, k) <==> x in ks || x == k
  {
    if k in ks { RemoveAtKeeps(ks, Position(ks, k)); }
  }

  lemma KeysAfterKeeps<K, V>(ks: seq<K>, cap: nat, c: Call<K, V>)
    requires Distinct(ks) && |ks| <= cap
    ensures var r := KeysAfter(ks, cap, c); Distinct(r) && |r| <= cap
  {
    FrontKeeps(ks, c.key);
    if c.key in ks { RemoveAtKeeps(ks, Position(ks, c.key)); }
  }

  lemma EffectBounded<K, V>(s: seq<Pair<K, V>>, cap: nat, c: Call<K, V>)
    requires Bounded(s, cap)
    ensures Bounded(Effect(s, cap, c), cap)
  {
    EffectKeys(s, cap, c);
    KeysAfterKeeps(Keys(s), cap, c);
    assert |Keys(Effect(s, cap, c))| == |Effect(s, cap, c)|;
  }

  /** Over every sequence of calls: one key once, never more than the capacity. */
  lemma {:induction false} TraceBounded<K, V>(cs: seq<Call<K, V>>, cap: nat)
    ensures Bounded(Trace(cs, cap), cap)
  {
    if cs != [] {
      var s, c := Trace(cs[..|cs|-1], cap), cs[|cs|-1];
      TraceBounded(cs[..|cs|-1], cap);
      EffectBounded(s, cap, c);
    }
  }

  /** What a call leaves in the cache: the other keys' entries as they were, and for its own
      key nothing, the value put, or the entry that was there, or the one just filled. */
  lemma PairsAfter<K, V>(s: seq<Pair<K, V>>, cap: nat, c: Call<K, V>, p: Pair<K, V>)
    requires Bounded(s, cap) && p in Effect(s, cap, c)
    ensures p in s || p.key == c.key
    ensures p.key == c.key ==>
              match c
              case Drop(_) => false
              case Put(_, v) => p.value == v
              case Fetch(k, filled) => if k in Keys(s) then p in s else filled == Some(p.value)
  {
    var i := Where(s, c.key);
    if i < |s| {
      RemoveAtKeeps(Keys(s), i);
      KeysOfFront(s, i);
      assert forall q :: q in RemoveAt(s, i) ==> q in s;
      forall q | q in RemoveAt(s, i) ensures q.key != c.key {
        var j :| 0 <= j < |RemoveAt(s, i)| && RemoveAt(s, i)[j] == q;
        assert Keys(RemoveAt(s, i))[j] == q.key;
      }
    } else {
      forall q | q in s ensures q.key != c.key {
        var j :| 0 <= j < |s| && s[j] == q;
        assert Keys(s)[j] == q.key;
      }
    }
  }

  /** A look-up returns the entry's value. */
  lemma LookupIsPair<K, V>(s: seq<Pair<K, V>>, k: K)
    ensures Lookup(s, k).Some? ==> Pair(k, Lookup(s, k).value) in s
    ensures Lookup(s, k).Some? <==> k in Keys(s)
  {
    var i := Where(s, k);
    if i < |s| { assert s[i] in s; }
  }

  // ---------- How a key leaves ----------

  lemma PushedOut<K>(ks: seq<K>, cap: nat, k: K, x: K)
    requires Distinct(ks) && |ks| <= cap && 0 < cap && k !in ks && x in ks
    ensures x !in Truncated([k] + ks, cap) <==> |ks| == cap && x == ks[cap-1]
  {
    if |ks| == cap {
      RemoveAtKeeps(ks, cap - 1);
      assert Truncated([k] + ks, cap) == [k] + RemoveAt(ks, cap - 1);
    }
  }

  /** A key leaves only by being dropped, or as the least recently touched one when another
      key enters a full cache. */
  lemma LeavesOnlyAs<K, V>(s: seq<Pair<K, V>>, cap: nat, c: Call<K, V>, k: K)
    requires Bounded(s, cap) && cap > 0
    requires k in Keys(s)
    ensures k !in Keys(Effect(s, cap, c)) <==>
            || (c.Drop? && c.key == k)
            || (|s| == cap && k == s[cap-1].key && c.key !in Keys(s)
                && (c.Put? || (c.Fetch? && c.filled.Some?)))
  {
    var ks := Keys(s);
    EffectKeys(s, cap, c);
    if c.key in ks {
      FrontKeeps(ks, c.key);
      RemoveAtKeeps(ks, Position(ks, c.key));
    } else {
      PushedOut(ks, cap, c.key, k);
    }
  }

  /** What was just added, filled or hit is never what is evicted: it is in front. */
  lemma TouchedIsFirst<K, V>(s: seq<Pair<K, V>>, cap: nat, c: Call<K, V>)
    requires Bounded(s, cap) && cap > 0
    requires c.Put? || (c.Fetch? && (c.filled.Some? || c.key in Keys(s)))
    ensures var r := Effect(s, cap, c);
            && r != [] && r[0].key == c.key
            && Lookup(r, c.key) ==
               if c.Put? then Some(c.value) else if c.key in Keys(s) then Lookup(s, c.key) else c.filled
  {
    var r := Effect(s, cap, c);
    EffectKeys(s, cap, c);
    assert Keys(r)[0] == c.key;
  }

  // ---------- Recency ----------

  /** When a trace last touched a key: the number of the call, or 0. A failed fill touches
      nothing; a drop makes the key untouched. */
  function LastTouch<K(==), V>(cs: seq<Call<K, V>>, cap: nat, k: K): nat {
    if cs == [] then 0
    else
      var init, c := cs[..|cs|-1], cs[|cs|-1];
      if c.key != k || (c.Fetch? && c.filled.None? && k !in Keys(Trace(init, cap))) then LastTouch(init, cap, k)
      else if c.Drop? then 0
      else |cs|
  }

  lemma {:induction false} TouchBound<K, V>(cs: seq<Call<K, V>>, cap: nat, k: K)
    ensures LastTouch(cs, cap, k) <= |cs|
  {
    if cs != [] { TouchBound(cs[..|cs|-1], cap, k); }
  }

  ghost predicate ByRecency<K, V>(ks: seq<K>, cs: seq<Call<K, V>>, cap: nat) {
    && (forall i :: 0 <= i < |ks| ==> LastTouch(cs, cap, ks[i]) > 0)
    && forall i, j :: 0 <= i < j < |ks| ==> LastTouch(cs, cap, ks[i]) > LastTouch(cs, cap, ks[j])
  }

  lemma UntouchedKeepsTime<K, V>(init: seq<Call<K, V>>, c: Call<K, V>, cap: nat, k: K)
    requires c.key != k || (c.Fetch? && c.filled.None? && k !in Keys(Trace(init, cap)))
    ensures LastTouch(init + [c], cap, k) == LastTouch(init, cap, k)
  {
    assert (init + [c])[..|init + [c]|-1] == init;
  }

  lemma TouchTime<K, V>(init: seq<Call<K, V>>, c: Call<K, V>, cap: nat)
    requires !c.Drop? && (c.Put? || c.filled.Some? || c.key in Keys(Trace(init, cap)))
    ensures LastTouch(init + [c], cap, c.key) == |init| + 1
  {
    assert (init + [c])[..|init + [c]|-1] == init;
  }

  lemma RemoveAtByRecency<K, V>(ks: seq<K>, p: nat, init: seq<Call<K, V>>, c: Call<K, V>, cap: nat)
    requires ByRecency(ks, init, cap) && p < |ks| && ks[p] == c.key && Distinct(ks)
    ensures ByRecency(RemoveAt(ks, p), init + [c], cap)
  {
    RemoveAtKeeps(ks, p);
    forall k | k in RemoveAt(ks, p) ensures LastTouch(init + [c], cap, k) == LastTouch(init, cap, k) {
      UntouchedKeepsTime(init, c, cap, k);
    }
  }

  lemma FrontByRecency<K, V>(ks: seq<K>, init: seq<Call<K, V>>, c: Call<K, V>, cap: nat)
    requires ByRecency(ks, init, cap) && Distinct(ks)
    requires LastTouch(init + [c], cap, c.key) == |init| + 1
    ensures ByRecency(Front(ks, c.key), init + [c], cap)
  {
    var rest := Front(ks, c.key)[1..];
    if c.key in ks { RemoveAtByRecency(ks, Position(ks, c.key), init, c, cap); }
    forall k | k in rest && k != c.key
      ensures LastTouch(init + [c], cap, k) == LastTouch(init, cap, k) <= |init|
    {
      UntouchedKeepsTime(init, c, cap, k);
      TouchBound(init, cap, k);
    }
    if c.key in ks { RemoveAtKeeps(ks, Position(ks, c.key)); }
  }

  lemma TruncatedByRecency<K, V>(ks: seq<K>, cs: seq<Call<K, V>>, cap: nat)
    requires ByRecency(ks, cs, cap)
    ensures ByRecency(Truncated(ks, cap), cs, cap)
  {
  }

  lemma SameRecency<K, V>(ks: seq<K>, init: seq<Call<K, V>>, c: Call<K, V>, cap: nat)
    requires ks == Keys(Trace(init, cap)) && ByRecency(ks, init, cap) && c.key !in ks
    ensures ByRecency(ks, init + [c], cap)
  {
    forall k | k in ks ensures LastTouch(init + [c], cap, k) == LastTouch(init, cap, k) {
      UntouchedKeepsTime(init, c, cap, k);
    }
  }

  lemma RecencyStep<K, V>(ks: seq<K>, init: seq<Call<K, V>>, c: Call<K, V>, cap: nat)
    requires ks == Keys(Trace(init, cap)) && ByRecency(ks, init, cap) && Distinct(ks)
    ensures ByRecency(KeysAfter(ks, cap, c), init + [c], cap)
  {
    if c.Drop? && c.key in ks {
      RemoveAtByRecency(ks, Position(ks, c.key), init, c, cap);
    } else if c.Drop? || (c.Fetch? && c.filled.None? && c.key !in ks) {
      SameRecency(ks, init, c, cap);
    } else {
      TouchTime(init, c, cap);
      FrontByRecency(ks, init, c, cap);
      TruncatedByRecency(Front(ks, c.key), init + [c], cap);
    }
  }

  /** The list is always in the order in which its keys were last touched. */
  lemma {:induction false} TraceByRecency<K, V>(cs: seq<Call<K, V>>, cap: nat)
    ensures ByRecency(Keys(Trace(cs, cap)), cs, cap)
  {
    if cs != [] {
      var init, c := cs[..|cs|-1], cs[|cs|-1];
      var s := Trace(init, cap);
      TraceByRecency(init, cap);
      TraceBounded(init, cap);
      RecencyStep(Keys(s), init, c, cap);
      EffectKeys(s, cap, c);
      assert cs == init + [c];
      assert Trace(cs, cap) == Effect(s, cap, c);
    }
  }

  /** Nothing is evicted while fewer calls than the capacity were made: then the cache holds
      exactly what was touched since it was last dropped. */
  lemma {:induction false} SmallTraceHoldsAll<K, V>(cs: seq<Call<K, V>>, cap: nat, k: K)
    requires |cs| <= cap
    ensures |Trace(cs, cap)| <= |cs|
    ensures k in Keys(Trace(cs, cap)) <==> LastTouch(cs, cap, k) > 0
  {
    if cs != [] {
      var init, c := cs[..|cs|-1], cs[|cs|-1];
      var ks := Keys(Trace(init, cap));
      SmallTraceHoldsAll(init, cap, k);
      TraceBounded(init, cap);
      EffectKeys(Trace(init, cap), cap, c);
      FrontKeeps(ks, c.key);
      if c.key in ks { RemoveAtKeeps(ks, Position(ks, c.key)); }
      assert |KeysAfter(ks, cap, c)| == |Trace(cs, cap)|;
    }
  }

  // ---------- Inclusion ----------

  ghost predicate Prefix<T>(a: seq<T>, b: seq<T>) {
    |a| <= |b| && a == b[..|a|]
  }

  function Fills<K, V>(c: Call<K, V>): bool { c.Fetch? ==> c.filled.Some? }

  lemma SamePosition<K>(a: seq<K>, b: seq<K>, k: K)
    requires Prefix(a, b) && Distinct(b)
    ensures Position(b, k) < |a| ==> Position(a, k) == Position(b, k)
    ensures Position(b, k) >= |a| ==> k !in a
  {
    if k in a { assert b[Position(a, k)] == k; }
  }

  lemma RemovePrefix<K>(a: seq<K>, b: seq<K>, k: K)
    requires Prefix(a, b) && Distinct(b) && k in b
    ensures Prefix(if k in a then RemoveAt(a, Position(a, k)) else a, RemoveAt(b, Position(b, k)))
  {
    SamePosition(a, b, k);
    var q := Position(b, k);
    if k !in a { assert RemoveAt(b, q)[..|a|] == b[..|a|]; }
    else { assert RemoveAt(b, q)[..|a|-1] == RemoveAt(b[..|a|], q); }
  }

  lemma TruncatedPrefix<K>(a: seq<K>, b: seq<K>, n: nat, m: nat)
    requires n <= m && Prefix(a, b)
    ensures Prefix(Truncated(a, n), Truncated(b, m))
  {
  }

  lemma FrontPrefix<K>(a: seq<K>, b: seq<K>, n: nat, m: nat, k: K)
    requires n <= m && |a| <= n && |b| <= m && Distinct(b) && Prefix(a, b)
    ensures Prefix(Truncated(Front(a, k), n), Truncated(Front(b, k), m))
  {
    if k in b { RemovePrefix(a, b, k); }
    var x, y := Front(a, k)[1..], Front(b, k)[1..];
    assert k !in b ==> k !in a;
    assert Prefix(x, y);
    assert Front(a, k) == [k] + x && Front(b, k) == [k] + y;
    assert ([k] + y)[..|[k] + x|] == [k] + y[..|x|];
    TruncatedPrefix(Front(a, k), Front(b, k), n, m);
  }

  /** One call keeps the smaller cache a prefix of the larger one unless its fill fails for a
      key that only the larger one holds: then the larger cache moves that key in front. */
  lemma InclusionStep<K, V>(a: seq<K>, b: seq<K>, n: nat, m: nat, c: Call<K, V>)
    requires n <= m && |a| <= n && |b| <= m && Distinct(b) && Prefix(a, b)
    ensures Prefix(KeysAfter(a, n, c), KeysAfter(b, m, c)) <==>
            Fills(c) || c.key !in b || c.key in a || a == []
  {
    if c.Drop? {
      if c.key in b { RemovePrefix(a, b, c.key); }
    } else if c.Put? || c.filled.Some? || c.key in a {
      FrontPrefix(a, b, n, m, c.key);
    } else if c.key in b && a != [] {
      assert KeysAfter(b, m, c)[0] == c.key && a[0] in a;
    }
  }

  /** On the same calls, with a filler that never fails, the smaller cache's keys are always
      the most recent keys of the larger one. */
  lemma {:induction false} Inclusion<K, V>(cs: seq<Call<K, V>>, n: nat, m: nat)
    requires n <= m && forall c :: c in cs ==> Fills(c)
    ensures Prefix(Keys(Trace(cs, n)), Keys(Trace(cs, m)))
  {
    if cs != [] {
      var init, c := cs[..|cs|-1], cs[|cs|-1];
      var a, b := Trace(init, n), Trace(init, m);
      Inclusion(init, n, m);
      TraceBounded(init, n);
      TraceBounded(init, m);
      EffectKeys(a, n, c);
      EffectKeys(b, m, c);
      InclusionStep(Keys(a), Keys(b), n, m, c);
    }
  }

  /** So whatever hits in the smaller cache hits in the larger one. */
  lemma HitsAreIncluded<K, V>(cs: seq<Call<K, V>>, n: nat, m: nat, k: K)
    requires n <= m && forall c :: c in cs ==> Fills(c)
    ensures Lookup(Trace(cs, n), k).Some? ==> Lookup(Trace(cs, m), k).Some?
  {
    Inclusion(cs, n, m);
  }
}
