/** Read cursors and unread counts (backend/services/notify-service/store.go and the cursor
    part of backend/services/notify-service/subscriber.go). */
module Unread {
  import opened Paging

  type User = string

  // ---------- Queries ----------

  /** `count(*) ... WHERE seq > cursor`, as the messages it counts. */
  function Over(live: seq<int>, cursor: int): seq<int> {
    if live == [] then []
    else
      var rest := Over(live[..|live|-1], cursor);
      if live[|live|-1] > cursor then rest + [live[|live|-1]] else rest
  }

  /** `COALESCE(max(seq), 0)` over a channel's messages in seq order. */
  function MaxOrZero(live: seq<int>): int { if live == [] then 0 else live[|live|-1] }

  function CursorAt<K(==)>(cursors: map<K, int>, key: K): int {
    if key in cursors then cursors[key] else 0
  }

  /** The upsert shared by mark-read and advance: a cursor never goes down. */
  function Raised<K(==)>(cursors: map<K, int>, key: K, n: int): map<K, int> {
    cursors[key := if key in cursors && cursors[key] > n then cursors[key] else n]
  }

  function Int32(n: int): int { (n + 0x8000_0000) % 0x1_0000_0000 - 0x8000_0000 }

  datatype UnreadChannel = UnreadChannel(channel: string, count: int)

  /** A channel of the user's communities, with the sequence numbers of its live messages. */
  datatype Joined = Joined(channel: string, live: seq<int>)

  function UnreadOf(cursors: map<(User, string), int>, user: User, joined: seq<Joined>): seq<UnreadChannel> {
    if joined == [] then []
    else
      var rest, j := UnreadOf(cursors, user, joined[..|joined|-1]), joined[|joined|-1];
      var n := |Over(j.live, CursorAt(cursors, (user, j.channel)))|;
      if n > 0 then rest + [UnreadChannel(j.channel, Int32(n))] else rest
  }

  class Store {
    var cursors: map<(User, string), int>

    constructor ()
      ensures cursors == map[]
    {
      cursors := map[];
    }

    method Upsert(user: User, channel: string, n: int)
      modifies this
      ensures cursors == Raised(old(cursors), (user, channel), n)
    {
      if (user, channel) in cursors && cursors[(user, channel)] > n { return; }
      cursors := cursors[(user, channel) := n];
    }

    method MarkChannelRead(user: User, channel: string, live: seq<int>)
      modifies this
      ensures cursors == Raised(old(cursors), (user, channel), MaxOrZero(live))
    {
      Upsert(user, channel, MaxOrZero(live));
    }

    method AdvanceChannelRead(user: User, channel: string, n: int)
      modifies this
      ensures cursors == Raised(old(cursors), (user, channel), n)
    {
      Upsert(user, channel, n);
    }

    method GetUnreadChannels(user: User, joined: seq<Joined>) returns (result: seq<UnreadChannel>)
      ensures result == UnreadOf(cursors, user, joined)
    {
      result := [];
      for i := 0 to |joined|
        invariant result == UnreadOf(cursors, user, joined[..i])
      {
        assert joined[..i+1][..i] == joined[..i];
        var unread := |Over(joined[i].live, CursorAt(cursors, (user, joined[i].channel)))|;
        if unread > 0 {
          result := result + [UnreadChannel(joined[i].channel, Int32(unread))];
        }
      }
      assert joined[..|joined|] == joined;
    }
  }

  // ---------- One channel over time ----------

  /** A message event on the bus. `seen` is what its sender had in front of them when sending,
      their own message included; nothing in the program reads it. */
  datatype Created = Created(sender: User, seqNo: int, seen: set<int>)

  /** `read` is the explicit read set each user would have. */
  datatype State = State(
    live: seq<int>,
    issued: int,
    bus: set<Created>,
    cursors: map<User, int>,
    read: map<User, set<int>>)

  datatype Event =
    | Post(sender: User, seqNo: int)
    | Delete(seqNo: int)
    | MarkRead(user: User)
    | Deliver(event: Created)    // any event on the bus, any number of times, in any order

  function Cursor(s: State, user: User): int { CursorAt(s.cursors, user) }

  function Read(s: State, user: User): set<int> { if user in s.read then s.read[user] else {} }

  function Elements(live: seq<int>): set<int> { set n | n in live }

  function Removed(live: seq<int>, n: int): seq<int> {
    if live == [] then []
    else
      var rest := Removed(live[..|live|-1], n);
      if live[|live|-1] == n then rest else rest + [live[|live|-1]]
  }

  function Moved(s: State, user: User, n: int, seen: set<int>): State {
    s.(cursors := Raised(s.cursors, user, n),
       read := s.read[user := Read(s, user) + seen])
  }

  function Step(s: State, e: Event): State {
    match e
    case Post(sender, n) =>
      s.(live := s.live + [n], issued := n, bus := s.bus + {Created(sender, n, Elements(s.live) + {n})})
    case Delete(n) => s.(live := Removed(s.live, n))
    case MarkRead(user) => Moved(s, user, MaxOrZero(s.live), Elements(s.live))
    case Deliver(c) => if c.sender == "" then s else Moved(s, c.sender, c.seqNo, c.seen)
  }

  /** Messages become visible in seq order, each above all issued before. */
  ghost predicate Possible(s: State, e: Event) {
    match e
    case Post(_, n) => n > s.issued
    case Deliver(c) => c in s.bus
    case _ => true
  }

  /** The cursor and the read set agree on every live message. */
  ghost predicate Agree(s: State, user: User) {
    forall n :: n in s.live ==> (n in Read(s, user) <==> n <= Cursor(s, user))
  }

  ghost predicate Inv(s: State) {
    && Rising(s.live) && s.issued >= 0
    && (forall n :: n in s.live ==> 0 < n <= s.issued)
    && (forall c :: c in s.bus ==> 0 < c.seqNo <= s.issued)
    && (forall c, n :: c in s.bus && n in c.seen ==> n <= s.issued)
    && (forall c, n :: c in s.bus && n in s.live ==> (n in c.seen <==> n <= c.seqNo))
    && (forall u :: u in s.cursors ==> 0 <= s.cursors[u] <= s.issued)
    && (forall u, n :: u in s.read && n in s.read[u] ==> n <= s.issued)
    && (forall u :: Agree(s, u))
  }

  lemma {:induction false} RemovedIs(live: seq<int>, n: int)
    requires Rising(live)
    ensures Rising(Removed(live, n))
    ensures forall x :: x in Removed(live, n) <==> x in live && x != n
  {
    if live != [] {
      var t, e := live[..|live|-1], live[|live|-1];
      assert live == t + [e];
      RemovedIs(t, n);
      forall i | 0 <= i < |Removed(t, n)| ensures Removed(t, n)[i] < e {
        assert Removed(t, n)[i] in Removed(t, n);
      }
    }
  }

  lemma PostKeeps(s: State, sender: User, n: int)
    requires Inv(s) && n > s.issued
    ensures Inv(Step(s, Post(sender, n)))
  {
    var r := Step(s, Post(sender, n));
    forall i | 0 <= i < |s.live| ensures s.live[i] < n { assert s.live[i] in s.live; }
    forall u ensures Agree(r, u) {
      assert Agree(s, u);
      assert u in s.read ==> n !in s.read[u];
    }
  }

  lemma MaxIsLast(live: seq<int>)
    requires Rising(live) && forall n :: n in live ==> n > 0
    ensures forall n :: n in live ==> n <= MaxOrZero(live)
    ensures MaxOrZero(live) == 0 || MaxOrZero(live) in live
  {
  }

  lemma MovedKeeps(s: State, user: User, n: int, seen: set<int>)
    requires Inv(s) && 0 <= n <= s.issued && forall x :: x in seen ==> x <= s.issued
    requires forall x :: x in s.live ==> (x in seen <==> x <= n)
    ensures Inv(Moved(s, user, n, seen))
  {
    forall u ensures Agree(Moved(s, user, n, seen), u) { assert Agree(s, u); }
  }

  lemma StepKeeps(s: State, e: Event)
    requires Inv(s) && Possible(s, e)
    ensures Inv(Step(s, e))
  {
    match e
    case Post(sender, n) => PostKeeps(s, sender, n);
    case Delete(n) =>
      RemovedIs(s.live, n);
      forall u ensures Agree(Step(s, e), u) { assert Agree(s, u); }
    case MarkRead(user) =>
      MaxIsLast(s.live);
      MovedKeeps(s, user, MaxOrZero(s.live), Elements(s.live));
    case Deliver(c) => if c.sender != "" { MovedKeeps(s, c.sender, c.seqNo, c.seen); }
  }

  ghost predicate Run(ss: seq<State>, es: seq<Event>) {
    && |ss| == |es| + 1
    && forall i :: 0 <= i < |es| ==> Possible(ss[i], es[i]) && ss[i+1] == Step(ss[i], es[i])
  }

  /** The live messages outside a read set, in order. */
  function Unseen(live: seq<int>, read: set<int>): seq<int> {
    if live == [] then []
    else
      var rest := Unseen(live[..|live|-1], read);
      if live[|live|-1] in read then rest else rest + [live[|live|-1]]
  }

  lemma {:induction false} SameUnread(live: seq<int>, cursor: int, read: set<int>)
    requires forall n :: n in live ==> (n in read <==> n <= cursor)
    ensures Over(live, cursor) == Unseen(live, read)
  {
    if live != [] { SameUnread(live[..|live|-1], cursor, read); }
  }

  /** Over every run with inserts, deletions, mark-reads and deliveries in any order and any
      number, what a user's cursor counts as unread is exactly what is not in the explicit set
      of messages that user has seen. */
  lemma {:induction false} CursorRefinesReadSet(ss: seq<State>, es: seq<Event>, n: nat, user: User)
    requires Run(ss, es) && Inv(ss[0]) && n <= |es|
    ensures Inv(ss[n])
    ensures Over(ss[n].live, Cursor(ss[n], user)) == Unseen(ss[n].live, Read(ss[n], user))
  {
    if n > 0 {
      CursorRefinesReadSet(ss, es, n - 1, user);
      StepKeeps(ss[n-1], es[n-1]);
    }
    assert Agree(ss[n], user);
    SameUnread(ss[n].live, Cursor(ss[n], user), Read(ss[n], user));
  }

  /** Seq order matters: a message that becomes visible late keeps a user's count right if and
      only if it is above that user's cursor. */
  lemma LateMessage(s: State, sender: User, n: int, user: User)
    requires Inv(s) && n !in Read(s, user)
    ensures Agree(Step(s, Post(sender, n)), user) <==> n > Cursor(s, user)
  {
    var r := Step(s, Post(sender, n));
    assert Agree(s, user);
    assert n in r.live && forall x :: x in r.live ==> x == n || x in s.live;
  }

  // ---------- Redelivery ----------

  ghost predicate Processed(s: State, c: Created) {
    c.sender == "" ||
    (c.sender in s.cursors && c.seqNo <= s.cursors[c.sender] && c.sender in s.read && c.seen <= s.read[c.sender])
  }

  /** Once delivered an event stays processed whatever follows, and delivering a processed
      event again changes nothing. */
  lemma RedeliveryChangesNothing(s: State, c: Created, e: Event)
    ensures Processed(Step(s, Deliver(c)), c)
    ensures Processed(s, c) ==> Processed(Step(s, e), c)
    ensures Processed(s, c) ==> Step(s, Deliver(c)) == s
  {
    if Processed(s, c) && c.sender != "" {
      assert s.read[c.sender] + c.seen == s.read[c.sender];
    }
  }

  // ---------- Delivery order ----------

  function AllDelivered(s: State, cs: seq<Created>): State {
    if cs == [] then s else Step(AllDelivered(s, cs[..|cs|-1]), Deliver(cs[|cs|-1]))
  }

  /** A user's cursor after some deliveries: the greatest of where it was and the seqs of the
      events that user sent. */
  lemma {:induction false} DeliveredCursor(s: State, cs: seq<Created>, user: User)
    requires user != ""
    ensures var r := AllDelivered(s, cs);
            && (user in r.cursors <==> user in s.cursors || exists c :: c in cs && c.sender == user)
            && (user in s.cursors ==> s.cursors[user] <= Cursor(r, user))
            && (forall c :: c in cs && c.sender == user ==> c.seqNo <= Cursor(r, user))
            && (user in r.cursors ==>
                  || (user in s.cursors && Cursor(r, user) == s.cursors[user])
                  || exists c :: c in cs && c.sender == user && c.seqNo == Cursor(r, user))
  {
    if cs != [] {
      var init, last := cs[..|cs|-1], cs[|cs|-1];
      DeliveredCursor(s, init, user);
      assert cs == init + [last];
    }
  }

  lemma {:induction false} NobodyUntouched(s: State, cs: seq<Created>)
    ensures "" in AllDelivered(s, cs).cursors <==> "" in s.cursors
    ensures "" in s.cursors ==> AllDelivered(s, cs).cursors[""] == s.cursors[""]
  {
    if cs != [] { NobodyUntouched(s, cs[..|cs|-1]); }
  }

  lemma AnyOrderInARow(s: State, cs: seq<Created>, ds: seq<Created>)
    requires forall c :: c in cs <==> c in ds
    ensures AllDelivered(s, cs).cursors == AllDelivered(s, ds).cursors
  {
    var a, b := AllDelivered(s, cs).cursors, AllDelivered(s, ds).cursors;
    NobodyUntouched(s, cs);
    NobodyUntouched(s, ds);
    forall user | user != "" ensures (user in a <==> user in b) && (user in a ==> a[user] == b[user]) {
      DeliveredCursor(s, cs, user);
      DeliveredCursor(s, ds, user);
    }
  }

  function After(s: State, es: seq<Event>): State {
    if es == [] then s else Step(After(s, es[..|es|-1]), es[|es|-1])
  }

  /** The events of a run other than deliveries, and the events it delivers. */
  function Undelivered(es: seq<Event>): seq<Event> {
    if es == [] then []
    else
      var rest := Undelivered(es[..|es|-1]);
      if es[|es|-1].Deliver? then rest else rest + [es[|es|-1]]
  }

  function Delivered(es: seq<Event>): seq<Created> {
    if es == [] then []
    else
      var rest := Delivered(es[..|es|-1]);
      if es[|es|-1].Deliver? then rest + [es[|es|-1].event] else rest
  }

  ghost predicate SameTable(s: State, r: State) { s.live == r.live && s.issued == r.issued && s.bus == r.bus }

  ghost predicate Alike(s: State, r: State) { SameTable(s, r) && s.cursors == r.cursors }

  lemma AlikeStep(s: State, r: State, e: Event)
    requires Alike(s, r)
    ensures Alike(Step(s, e), Step(r, e))
  {
  }

  /** A delivery and any other event may change places. */
  lemma Swap(s: State, c: Created, e: Event)
    requires !e.Deliver?
    ensures Alike(Step(Step(s, Deliver(c)), e), Step(Step(s, e), Deliver(c)))
  {
    if e.MarkRead? { RaisedCommutes(s.cursors, c.sender, c.seqNo, e.user, MaxOrZero(s.live)); }
  }

  lemma RaisedCommutes<K>(cursors: map<K, int>, k: K, n: int, l: K, m: int)
    ensures Raised(Raised(cursors, k, n), l, m) == Raised(Raised(cursors, l, m), k, n)
  {
    var a, b := Raised(Raised(cursors, k, n), l, m), Raised(Raised(cursors, l, m), k, n);
    assert a.Keys == b.Keys;
    assert forall x :: x in a ==> a[x] == b[x];
  }

  lemma {:induction false} DeliveriesLast(s: State, cs: seq<Created>, e: Event)
    requires !e.Deliver?
    ensures Alike(Step(AllDelivered(s, cs), e), AllDelivered(Step(s, e), cs))
  {
    if cs != [] {
      var init, c := cs[..|cs|-1], cs[|cs|-1];
      DeliveriesLast(s, init, e);
      Swap(AllDelivered(s, init), c, e);
      AlikeStep(Step(AllDelivered(s, init), e), AllDelivered(Step(s, e), init), Deliver(c));
    }
  }

  lemma AfterSnoc(s: State, es: seq<Event>, e: Event)
    ensures After(s, es + [e]) == Step(After(s, es), e)
  {
    assert (es + [e])[..|es + [e]|-1] == es;
  }

  lemma DeliveredSnoc(s: State, cs: seq<Created>, c: Created)
    ensures AllDelivered(s, cs + [c]) == Step(AllDelivered(s, cs), Deliver(c))
  {
    assert (cs + [c])[..|cs + [c]|-1] == cs;
  }

  /** A run leaves the tables and cursors of the run in which all deliveries come last. */
  lemma {:induction false} DeliveriesMoveBack(s: State, es: seq<Event>)
    ensures Alike(After(s, es), AllDelivered(After(s, Undelivered(es)), Delivered(es)))
  {
    if es != [] {
      var init, e := es[..|es|-1], es[|es|-1];
      var base, cs := After(s, Undelivered(init)), Delivered(init);
      DeliveriesMoveBack(s, init);
      AlikeStep(After(s, init), AllDelivered(base, cs), e);
      if e.Deliver? {
        DeliveredSnoc(base, cs, e.event);
      } else {
        AfterSnoc(s, Undelivered(init), e);
        DeliveriesLast(base, cs, e);
      }
    }
  }

  lemma {:induction false} SameTables(s: State, cs: seq<Created>)
    ensures SameTable(AllDelivered(s, cs), s)
  {
    if cs != [] { SameTables(s, cs[..|cs|-1]); }
  }

  /** Two runs with the same posts, deletions and mark-reads in the same order, and the same
      events delivered, at whatever places, in whatever order and however often, leave the
      same messages and the same cursors. */
  lemma DeliveryOrderIsIrrelevant(s: State, es: seq<Event>, fs: seq<Event>)
    requires Undelivered(es) == Undelivered(fs)
    requires forall c :: c in Delivered(es) <==> c in Delivered(fs)
    ensures After(s, es).live == After(s, fs).live && After(s, es).cursors == After(s, fs).cursors
  {
    DeliveriesMoveBack(s, es);
    DeliveriesMoveBack(s, fs);
    var base := After(s, Undelivered(es));
    AnyOrderInARow(base, Delivered(es), Delivered(fs));
    SameTables(base, Delivered(es));
    SameTables(base, Delivered(fs));
  }

  // ---------- The reported counts ----------

  /** A channel is reported exactly when something above the cursor is live, with how much. */
  lemma {:induction false} ReportedExactly(cursors: map<(User, string), int>, user: User,
                                           joined: seq<Joined>, r: UnreadChannel)
    ensures r in UnreadOf(cursors, user, joined) <==>
            exists j :: j in joined && j.channel == r.channel
              && Over(j.live, CursorAt(cursors, (user, j.channel))) != []
              && r.count == Int32(|Over(j.live, CursorAt(cursors, (user, j.channel)))|)
  {
    if joined != [] {
      var init, last := joined[..|joined|-1], joined[|joined|-1];
      ReportedExactly(cursors, user, init, r);
      assert joined == init + [last];
    }
  }

  /** The 32-bit count is the true one below 2^31 unread messages, and never from there on. */
  lemma CountIsExact(n: nat)
    ensures Int32(n) == n <==> n < 0x8000_0000
  {
  }

  /** And it stays the true one modulo 2^32, within the range of 32 bits. */
  lemma CountWraps(n: nat)
    ensures -0x8000_0000 <= Int32(n) < 0x8000_0000 && (n - Int32(n)) % 0x1_0000_0000 == 0
  {
  }

  /** The report lists each channel as often as it is joined, in order. */
  lemma {:induction false} ReportKeepsOrder(cursors: map<(User, string), int>, user: User,
                                            a: seq<Joined>, b: seq<Joined>, j: Joined)
    ensures UnreadOf(cursors, user, a + b) == UnreadOf(cursors, user, a) + UnreadOf(cursors, user, b)
    ensures var unread := Over(j.live, CursorAt(cursors, (user, j.channel)));
            UnreadOf(cursors, user, [j]) == if unread == [] then [] else [UnreadChannel(j.channel, Int32(|unread|))]
  {
    assert [j][..0] == [];
    if b == [] {
      assert a + b == a;
    } else {
      ReportKeepsOrder(cursors, user, a, b[..|b|-1], j);
      assert (a + b)[..|a + b|-1] == a + b[..|b|-1];
    }
  }

  /** An upsert raises its own cursor to the seq, if that is higher, and touches no other. */
  lemma UpsertRaisesOne(cursors: map<(User, string), int>, key: (User, string), n: int)
    ensures var r := Raised(cursors, key, n);
            && key in r && r[key] >= n && (r[key] == n || (key in cursors && r[key] == cursors[key]))
            && (key in cursors ==> r[key] >= cursors[key])
            && forall k :: k != key ==> (k in r <==> k in cursors) && (k in r ==> r[k] == cursors[k])
  {
  }
}
