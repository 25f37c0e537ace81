/** The least-recently-used cache and the read-through cache around it
    (backend/pkg/groupcache/groupcache.go). */
module Lru {
  import opened Wrappers

  const DEFAULT_CAPACITY: int := 10000

  // ---------- The recency list ----------

  /** A cache as a value: its entries, most recently touched first. */
  datatype Pair<K, V> = Pair(key: K, value: V)

  function Keys<K, V>(s: seq<Pair<K, V>>): seq<K> {
    seq(|s|, i requires 0 <= i < |s| => s[i].key)
  }

  /** The first position of `x`, or the length when it is absent. */
  function Position<T(==)>(s: seq<T>, x: T): (i: nat)
    ensures i <= |s|
    ensures i < |s| ==> s[i] == x
    ensures i < |s| <==> x in s
  {
    if s == [] || s[0] == x then 0 else 1 + Position(s[1..], x)
  }

  function RemoveAt<T>(s: seq<T>, i: nat): seq<T>
    requires i < |s|
  {
    s[..i] + s[i+1..]
  }

  function MovedToFront<T>(s: seq<T>, i: nat): seq<T>
    requires i < |s|
  {
    [s[i]] + RemoveAt(s, i)
  }

  lemma RemoveAtKeeps<T>(s: seq<T>, i: nat)
    requires i < |s| && Distinct(s)
    ensures Distinct(RemoveAt(s, i))
    ensures forall x :: x in RemoveAt(s, i) <==> x in s && x != s[i]
  {
    var r := RemoveAt(s, i);
    forall x | x in s && x != s[i] ensures x in r {
      var j :| 0 <= j < |s| && s[j] == x;
      assert r[if j < i then j else j - 1] == x;
    }
  }

  lemma MovedToFrontKeeps<T>(s: seq<T>, i: nat)
    requires i < |s| && Distinct(s)
    ensures Distinct(MovedToFront(s, i))
    ensures forall x :: x in MovedToFront(s, i) <==> x in s
  {
    RemoveAtKeeps(s, i);
  }

  function Where<K(==), V>(s: seq<Pair<K, V>>, k: K): (i: nat)
    ensures i <= |s|
    ensures i < |s| ==> s[i].key == k
    ensures i < |s| <==> k in Keys(s)
  {
    Position(Keys(s), k)
  }

  function Without<K(==), V>(s: seq<Pair<K, V>>, k: K): seq<Pair<K, V>> {
    var i := Where(s, k);
    if i < |s| then RemoveAt(s, i) else s
  }

  function Lookup<K(==), V>(s: seq<Pair<K, V>>, k: K): Option<V> {
    var i := Where(s, k);
    if i < |s| then Some(s[i].value) else None
  }

  function Touched<K(==), V>(s: seq<Pair<K, V>>, k: K): seq<Pair<K, V>> {
    var i := Where(s, k);
    if i < |s| then MovedToFront(s, i) else s
  }

  function Truncated<T>(s: seq<T>, cap: nat): seq<T> {
    if |s| > cap then s[..cap] else s
  }

  function Added<K(==), V>(s: seq<Pair<K, V>>, cap: nat, k: K, v: V): seq<Pair<K, V>> {
    if k in Keys(s) then [Pair(k, v)] + Without(s, k) else Truncated([Pair(k, v)] + s, cap)
  }

  /** One key once, and no more entries than the capacity. */
  ghost predicate Bounded<K, V>(s: seq<Pair<K, V>>, cap: nat) {
    |s| <= cap && Distinct(Keys(s))
  }

  ghost predicate Distinct<T>(s: seq<T>) {
    forall i, j :: 0 <= i < j < |s| ==> s[i] != s[j]
  }

  /** A call on the read-through cache. `filled` is what the filler returns on a miss. */
  datatype Call<K, V> = Fetch(key: K, filled: Option<V>) | Put(key: K, value: V) | Drop(key: K)

  function Effect<K(==), V>(s: seq<Pair<K, V>>, cap: nat, c: Call<K, V>): seq<Pair<K, V>> {
    match c
    case Fetch(k, filled) =>
      if k in Keys(s) then Touched(s, k)
      else if filled.Some? then Added(s, cap, k, filled.value)
      else s
    case Put(k, v) => Added(s, cap, k, v)
    case Drop(k) => Without(s, k)
  }

  function Trace<K(==), V>(cs: seq<Call<K, V>>, cap: nat): seq<Pair<K, V>> {
    if cs == [] then [] else Effect(Trace(cs[..|cs|-1], cap), cap, cs[|cs|-1])
  }

  // ---------- The linked list and the map ----------

  class Element<K, V> {
    const key: K
    var value: V

    constructor (key: K, value: V)
      ensures this.key == key && this.value == value
    {
      this.key, this.value := key, value;
    }
  }

  /** The map and the list name the same elements, each key once. */
  ghost predicate Linked<K, V>(items: map<K, Element<K, V>>, order: seq<Element<K, V>>) {
    && Distinct(order)
    && (forall e :: e in order ==> e.key in items && items[e.key] == e)
    && (forall k :: k in items ==> items[k] in order && items[k].key == k)
  }

  ghost function Read<K, V>(order: seq<Element<K, V>>): seq<Pair<K, V>>
    reads order
  {
    seq(|order|, i requires 0 <= i < |order| reads order => Pair(order[i].key, order[i].value))
  }

  lemma Located<K, V>(items: map<K, Element<K, V>>, order: seq<Element<K, V>>, k: K)
    requires Linked(items, order)
    ensures k in items <==> k in Keys(Read(order))
    ensures k in items ==>
              var i := Position(order, items[k]);
              i < |order| && i == Where(Read(order), k)
  {
    if k in items {
      var i := Position(order, items[k]);
      assert Keys(Read(order))[i] == k;
      assert order[Where(Read(order), k)].key == k;
    }
  }

  lemma FrontLinked<K, V>(items: map<K, Element<K, V>>, order: seq<Element<K, V>>, i: nat)
    requires Linked(items, order) && i < |order|
    ensures Linked(items, MovedToFront(order, i))
    ensures Read(MovedToFront(order, i)) == MovedToFront(Read(order), i)
    ensures forall e :: e in MovedToFront(order, i) <==> e in order
  {
    MovedToFrontKeeps(order, i);
    ReadRemoved(order, i);
  }

  lemma ReadRemoved<K, V>(order: seq<Element<K, V>>, i: nat)
    requires i < |order|
    ensures Read(RemoveAt(order, i)) == RemoveAt(Read(order), i)
  {
  }

  lemma RemoveLinked<K, V>(items: map<K, Element<K, V>>, order: seq<Element<K, V>>, i: nat, key: K)
    requires Linked(items, order) && i < |order| && order[i].key == key
    ensures Linked(items - {key}, RemoveAt(order, i))
    ensures Read(RemoveAt(order, i)) == RemoveAt(Read(order), i)
    ensures forall e :: e in RemoveAt(order, i) ==> e in order
  {
    RemoveAtKeeps(order, i);
  }

  lemma PushLinked<K, V>(items: map<K, Element<K, V>>, order: seq<Element<K, V>>, e: Element<K, V>)
    requires Linked(items, order) && e.key !in items
    ensures Linked(items[e.key := e], [e] + order)
    ensures Read([e] + order) == [Pair(e.key, e.value)] + Read(order)
  {
  }

  class LruCache<K(==), V> {
    const maxSize: int
    var items: map<K, Element<K, V>>
    var order: seq<Element<K, V>>  // front first

    ghost predicate Valid()
      reads this
    {
      maxSize > 0 && |order| <= maxSize && Linked(items, order)
    }

    ghost function Contents(): seq<Pair<K, V>>
      reads this, order
    {
      Read(order)
    }

    constructor (maxSize: int)
      requires maxSize > 0
      ensures Valid() && this.maxSize == maxSize && Contents() == []
    {
      this.maxSize, items, order := maxSize, map[], [];
    }

    method Get(key: K) returns (value: Option<V>)
      requires Valid()
      modifies this`order
      ensures Valid()
      ensures value == Lookup(old(Contents()), key)
      ensures Contents() == Touched(old(Contents()), key)
      ensures value.None? ==> order == old(order)
    {
      Located(items, order, key);
      value := None;
      if key in items {
        var i := Position(order, items[key]);
        FrontLinked(items, order, i);
        order := MovedToFront(order, i);
        value := Some(items[key].value);
      }
    }

    method Add(key: K, value: V)
      requires Valid()
      modifies this, order
      ensures Valid()
      ensures Contents() == Added(old(Contents()), maxSize, key, value)
    {
      Located(items, order, key);
      if key in items {
        MoveAndSet(key, value);
      } else {
        PushAndEvict(key, value);
      }
    }

    method MoveAndSet(key: K, value: V)
      requires Valid() && key in items
      modifies this`order, order
      ensures Valid()
      ensures Contents() == [Pair(key, value)] + Without(old(Contents()), key)
    {
      Located(items, order, key);
      var i := Position(order, items[key]);
      FrontLinked(items, order, i);
      order := MovedToFront(order, i);
      ghost var moved := Contents();
      assert moved == MovedToFront(old(Contents()), i);
      SetFront(value);
      assert moved[1..] == RemoveAt(old(Contents()), i);
    }

    method SetFront(value: V)
      requires Valid() && order != []
      modifies order[0]
      ensures Contents() == [Pair(old(Contents())[0].key, value)] + old(Contents())[1..]
    {
      order[0].value := value;
      assert forall j :: 0 < j < |order| ==> order[j] != order[0];
    }

    method PushAndEvict(key: K, value: V)
      requires Valid() && key !in items
      modifies this
      ensures Valid()
      ensures Contents() == Truncated([Pair(key, value)] + old(Contents()), maxSize)
    {
      var entry := new Element(key, value);
      PushLinked(items, order, entry);
      order := [entry] + order;
      items := items[key := entry];
      ghost var grown := [Pair(key, value)] + old(Contents());
      while |order| > maxSize
        invariant |order| == |grown| || maxSize <= |order| <= |grown|
        invariant Linked(items, order)
        invariant Contents() == grown[..|order|]
        invariant forall e :: e in order ==> e in old(order) || e == entry
      {
        var last := |order| - 1;
        RemoveLinked(items, order, last, order[last].key);
        assert RemoveAt(order, last) == order[..last];
        items := items - {order[last].key};
        order := order[..last];
      }
    }

    method Remove(key: K)
      requires Valid()
      modifies this
      ensures Valid()
      ensures Contents() == Without(old(Contents()), key)
    {
      Located(items, order, key);
      if key in items {
        var i := Position(order, items[key]);
        RemoveLinked(items, order, i, key);
        ghost var was := Contents();
        order, items := RemoveAt(order, i), items - {key};
        assert Contents() == RemoveAt(was, i);
      }
    }
  }

  datatype CacheError = NoFiller | FillFailed(reason: string)

  /** Capacity as configured, where zero and negative numbers mean the default. */
  function CapacityOf(configured: Option<int>): int {
    match configured
    case Some(n) => if n <= 0 then DEFAULT_CAPACITY else n
    case None => DEFAULT_CAPACITY
  }

  class Cache<K(==), V> {
    const lru: LruCache<K, V>

    ghost predicate Valid()
      reads this, lru
    {
      lru.Valid()
    }

    constructor (configured: Option<int>)
      ensures Valid() && fresh(lru) && lru.Contents() == []
      ensures lru.maxSize == if configured.Some? && configured.value > 0 then configured.value else 10000
    {
      lru := new LruCache(CapacityOf(configured));
    }

    /** `filler` is absent when none is configured, and otherwise what a call of it for this
        key would return. A failed fill leaves the cache alone. */
    method Get(key: K, filler: Option<Result<V, string>>) returns (r: Result<V, CacheError>)
      requires Valid()
      modifies lru, lru.order
      ensures Valid()
      ensures var filled := if filler.Some? && filler.value.Ok? then Some(filler.value.value) else None;
              && lru.Contents() == Effect(old(lru.Contents()), lru.maxSize, Fetch(key, filled))
              && (r.Ok? <==> Lookup(old(lru.Contents()), key).Some? || filled.Some?)
              && (r.Ok? ==> Lookup(lru.Contents(), key) == Some(r.value))
              && (r.Err? ==> r.error == if filler.None? then NoFiller else FillFailed(filler.value.error))
    {
      var hit := lru.Get(key);
      if hit.Some? { return Ok(hit.value); }
      hit := lru.Get(key);  // looked up again inside the flight
      assert hit.None?;
      if filler.None? { return Err(NoFiller); }
      if filler.value.Err? { return Err(FillFailed(filler.value.error)); }
      lru.Add(key, filler.value.value);
      return Ok(filler.value.value);
    }

    method Set(key: K, value: V)
      requires Valid()
      modifies lru, lru.order
      ensures Valid()
      ensures lru.Contents() == Effect(old(lru.Contents()), lru.maxSize, Put(key, value))
    {
      lru.Add(key, value);
    }

    method Remove(key: K)
      requires Valid()
      modifies lru
      ensures Valid()
      ensures lru.Contents() == Effect(old(lru.Contents()), lru.maxSize, Drop(key))
    {
      lru.Remove(key);
    }
  }
}
