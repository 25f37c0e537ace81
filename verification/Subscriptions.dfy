/** Channel subscriptions: what the client tracks and what the gateway keeps for its
    connection (sdk/sdk-js/src/client.ts, sdk/sdk-js/src/ws-manager.ts,
    backend/services/ws-gateway/router.go, backend/services/ws-gateway/connmgr.go). */
module Subscriptions {
  import opened Wrappers

  datatype Frame = Sub(channel: string) | Unsub(channel: string)

  // ---------- The gateway ----------

  datatype Entry = Entry(conn: int, channels: set<string>)

  type Table = map<string, Entry>

  function Applied(channels: set<string>, f: Frame): set<string> {
    if f.channel == "" then channels
    else if f.Sub? then channels + {f.channel}
    else channels - {f.channel}
  }

  function AllApplied(channels: set<string>, frames: seq<Frame>): set<string> {
    if frames == [] then channels
    else Applied(AllApplied(channels, frames[..|frames|-1]), frames[|frames|-1])
  }

  /** What one frame of a user does to the table: frames of unknown users are ignored. */
  function Routed(t: Table, user: string, f: Frame): Table {
    if user in t then t[user := t[user].(channels := Applied(t[user].channels, f))] else t
  }

  class ConnEntry {
    const userId: string
    const conn: int
    var subscribed: set<string>

    constructor (userId: string, conn: int)
      ensures this.userId == userId && this.conn == conn && subscribed == {}
    {
      this.userId, this.conn, subscribed := userId, conn, {};
    }
  }

  class ConnManager {
    var conns: map<string, ConnEntry>

    ghost predicate Valid()
      reads this
    {
      forall u :: u in conns ==> conns[u].userId == u
    }

    ghost function View(): Table
      reads this, conns.Values
    {
      map u | u in conns :: Entry(conns[u].conn, conns[u].subscribed)
    }

    constructor ()
      ensures Valid() && View() == map[]
    {
      conns := map[];
    }

    method Register(userId: string, conn: int)
      requires Valid()
      modifies this
      ensures Valid() && View() == old(View())[userId := Entry(conn, {})]
    {
      var entry := new ConnEntry(userId, conn);
      conns := conns[userId := entry];
    }

    /** Returns the connection that was closed. */
    method Unregister(userId: string) returns (closed: Option<int>)
      requires Valid()
      modifies this
      ensures Valid() && View() == old(View()) - {userId}
      ensures closed == if userId in old(View()) then Some(old(View())[userId].conn) else None
    {
      closed := None;
      if userId in conns {
        closed := Some(conns[userId].conn);
        conns := conns - {userId};
      }
    }

    method AddSubscribedChannel(userId: string, channelId: string)
      requires Valid() && channelId != ""
      modifies conns.Values
      ensures Valid() && View() == Routed(old(View()), userId, Sub(channelId))
    {
      if userId in conns {
        conns[userId].subscribed := conns[userId].subscribed + {channelId};
      }
    }

    method RemoveSubscribedChannel(userId: string, channelId: string)
      requires Valid() && channelId != ""
      modifies conns.Values
      ensures Valid() && View() == Routed(old(View()), userId, Unsub(channelId))
    {
      if userId in conns {
        conns[userId].subscribed := conns[userId].subscribed - {channelId};
      }
    }

    /** The router's two handlers: an empty channel id is an error and changes nothing. */
    method Handle(userId: string, f: Frame) returns (acknowledged: bool)
      requires Valid()
      modifies conns.Values
      ensures Valid() && View() == Routed(old(View()), userId, f)
      ensures acknowledged <==> f.channel != ""
    {
      if f.channel == "" { return false; }
      match f {
        case Sub(c) => AddSubscribedChannel(userId, c);
        case Unsub(c) => RemoveSubscribedChannel(userId, c);
      }
      return true;
    }
  }

  // ---------- The client ----------

  function Track(tracked: seq<string>, f: Frame): seq<string> {
    match f
    case Sub(c) => if c in tracked then tracked else tracked + [c]
    case Unsub(c) => Untracked(tracked, c)
  }

  function Untracked(tracked: seq<string>, c: string): seq<string> {
    if tracked == [] then []
    else
      var rest := Untracked(tracked[..|tracked|-1], c);
      if tracked[|tracked|-1] == c then rest else rest + [tracked[|tracked|-1]]
  }

  function Resubscribe(tracked: seq<string>): seq<Frame> {
    seq(|tracked|, i requires 0 <= i < |tracked| => Sub(tracked[i]))
  }

  class Client {
    var tracked: seq<string>
    var open: bool
    var wire: seq<Frame>  // sent and not yet read by the gateway

    constructor ()
      ensures tracked == [] && !open && wire == []
    {
      tracked, open, wire := [], false, [];
    }

    method Send(f: Frame)
      modifies this`wire
      ensures wire == if open then old(wire) + [f] else old(wire)
    {
      if open { wire := wire + [f]; }
    }

    method SubscribeChannel(channelId: string)
      modifies this`wire, this`tracked
      ensures tracked == Track(old(tracked), Sub(channelId))
      ensures wire == if open then old(wire) + [Sub(channelId)] else old(wire)
    {
      Send(Sub(channelId));
      if channelId !in tracked { tracked := tracked + [channelId]; }
    }

    method UnsubscribeChannel(channelId: string)
      modifies this`wire, this`tracked
      ensures tracked == Track(old(tracked), Unsub(channelId))
      ensures wire == if open then old(wire) + [Unsub(channelId)] else old(wire)
    {
      Send(Unsub(channelId));
      tracked := Untracked(tracked, channelId);
    }

    method OnOpen()
      modifies this`wire, this`open
      ensures open && wire == old(wire) + Resubscribe(tracked)
    {
      open := true;
      for i := 0 to |tracked|
        invariant open && wire == old(wire) + Resubscribe(tracked)[..i]
      {
        Send(Sub(tracked[i]));
      }
    }
  }

  // ---------- Both together ----------

  /** `Accepted` is after the gateway registered the connection and before the client's
      `onopen`. */
  datatype Link = Down | Accepted | Open

  /** One client, its user id, and a gateway. `stale` holds what the gateway has not read of
      the client's previous connection while that connection is not cleaned up. */
  datatype State = State(tracked: seq<string>, link: Link, wire: seq<Frame>,
                         stale: Option<seq<Frame>>, table: Table)

  datatype Event =
    | Call(f: Frame)                        // subscribeChannel or unsubscribeChannel
    | Accept(conn: int)
    | OpenUp
    | Read                                  // the gateway handles the next frame
    | Break                                 // the client's socket leaves the open state
    | ReadStale
    | CleanUp                               // the gateway unregisters the user
    | Others(user: string, entry: Option<Entry>)

  ghost predicate Possible(me: string, s: State, e: Event) {
    match e
    case Accept(_) => s.link.Down?
    case OpenUp => s.link.Accepted?
    case Read => !s.link.Down? && s.wire != []
    case Break => !s.link.Down? && s.stale.None?
    case ReadStale => s.stale.Some? && s.stale.value != []
    case CleanUp => s.stale.Some?
    case Others(user, _) => user != me
    case _ => true
  }

  function Step(me: string, s: State, e: Event): State
    requires Possible(me, s, e)
  {
    match e
    case Call(f) => s.(tracked := Track(s.tracked, f), wire := if s.link.Open? then s.wire + [f] else s.wire)
    case Accept(conn) => s.(link := Accepted, wire := [], table := s.table[me := Entry(conn, {})])
    case OpenUp => s.(link := Open, wire := s.wire + Resubscribe(s.tracked))
    case Read => s.(wire := s.wire[1..], table := Routed(s.table, me, s.wire[0]))
    case Break => s.(link := Down, wire := [], stale := Some(s.wire))
    case ReadStale => s.(stale := Some(s.stale.value[1..]), table := Routed(s.table, me, s.stale.value[0]))
    case CleanUp => s.(stale := None, table := s.table - {me})
    case Others(user, entry) =>
      s.(table := if entry.Some? then s.table[user := entry.value] else s.table - {user})
  }

  /** The one thing asked of the environment: the previous connection is cleaned up before
      the next one registers. */
  ghost predicate Guarded(me: string, s: State, e: Event) {
    Possible(me, s, e) && (e.Accept? ==> s.stale.None?)
  }

  /** The channels the gateway will have for the user once it has read the wire. */
  function Settled(me: string, s: State): set<string> {
    if me in s.table then AllApplied(s.table[me].channels, s.wire) else {}
  }

  function Wanted(s: State): set<string> { (set c | c in s.tracked) - {""} }

  ghost predicate Agree(me: string, s: State) { Settled(me, s) == Wanted(s) }

  ghost predicate Inv(me: string, s: State) {
    && (s.link.Open? ==> Agree(me, s))
    && (!s.link.Down? ==> me in s.table && s.stale.None?)
    && (s.link.Accepted? ==> s.table[me].channels == {} && s.wire == [])
    && NoRepeats(s.tracked)
  }

  ghost predicate NoRepeats(s: seq<string>) { forall i, j :: 0 <= i < j < |s| ==> s[i] != s[j] }

  lemma {:induction false} UntrackedIs(tracked: seq<string>, c: string)
    ensures forall x :: x in Untracked(tracked, c) <==> x in tracked && x != c
    ensures NoRepeats(tracked) ==> NoRepeats(Untracked(tracked, c))
  {
    if tracked != [] {
      var t, e := tracked[..|tracked|-1], tracked[|tracked|-1];
      assert tracked == t + [e];
      UntrackedIs(t, c);
      if NoRepeats(tracked) {
        forall i | 0 <= i < |Untracked(t, c)| ensures Untracked(t, c)[i] != e {
          assert Untracked(t, c)[i] in t;
        }
      }
    }
  }

  lemma TrackIs(tracked: seq<string>, f: Frame)
    ensures NoRepeats(tracked) ==> NoRepeats(Track(tracked, f))
    ensures (set c | c in Track(tracked, f)) - {""} == Applied((set c | c in tracked) - {""}, f)
  {
    if f.Unsub? { UntrackedIs(tracked, f.channel); }
  }

  // ---------- What a call and a frame do ----------

  /** After a subscribe the channel is tracked, after an unsubscribe it is not; the others
      stay as they were. */
  lemma TrackChangesOne(tracked: seq<string>, c: string)
    ensures forall x :: x in Track(tracked, Sub(c)) <==> x in tracked || x == c
    ensures forall x :: x in Track(tracked, Unsub(c)) <==> x in tracked && x != c
    ensures NoRepeats(tracked) ==> NoRepeats(Track(tracked, Sub(c))) && NoRepeats(Track(tracked, Unsub(c)))
  {
    UntrackedIs(tracked, c);
  }

  /** A frame adds or removes its channel for its user, on the connection there is; an empty
      channel and an unknown user change nothing. */
  lemma FrameChangesOne(t: Table, user: string, f: Frame)
    ensures var r := Routed(t, user, f);
            && r.Keys == t.Keys
            && (forall u :: u in t && u != user ==> r[u] == t[u])
            && (user in t ==>
                  && r[user].conn == t[user].conn
                  && forall c :: c in r[user].channels <==>
                       if c != f.channel || c == "" then c in t[user].channels else f.Sub?)
  {
  }

  /** Opening sends one subscribe frame for each tracked channel, in order. */
  lemma OpeningSendsAll(tracked: seq<string>)
    ensures |Resubscribe(tracked)| == |tracked|
    ensures forall i :: 0 <= i < |tracked| ==> Resubscribe(tracked)[i] == Sub(tracked[i])
  {
  }

  lemma AppliedSnoc(channels: set<string>, frames: seq<Frame>, f: Frame)
    ensures AllApplied(channels, frames + [f]) == Applied(AllApplied(channels, frames), f)
  {
    assert (frames + [f])[..|frames + [f]|-1] == frames;
  }

  /** Reading the first frame now or later comes to the same. */
  lemma {:induction false} AppliedCons(channels: set<string>, frames: seq<Frame>)
    requires frames != []
    ensures AllApplied(channels, frames) == AllApplied(Applied(channels, frames[0]), frames[1..])
  {
    if |frames| > 1 {
      var init := frames[..|frames|-1];
      AppliedCons(channels, init);
      assert init[1..] == frames[1..][..|frames[1..]|-1];
      assert init[0] == frames[0];
    }
  }

  lemma {:induction false} ResubscribeAll(tracked: seq<string>)
    ensures AllApplied({}, Resubscribe(tracked)) == (set c | c in tracked) - {""}
  {
    if tracked != [] {
      var t, e := tracked[..|tracked|-1], tracked[|tracked|-1];
      ResubscribeAll(t);
      assert tracked == t + [e];
      assert Resubscribe(tracked)[..|tracked|-1] == Resubscribe(t);
    }
  }

  lemma CallAgrees(me: string, s: State, f: Frame)
    requires me in s.table && s.link.Open? && Agree(me, s)
    ensures Agree(me, Step(me, s, Call(f)))
  {
    AppliedSnoc(s.table[me].channels, s.wire, f);
    TrackIs(s.tracked, f);
  }

  lemma StepKeeps(me: string, s: State, e: Event)
    requires Inv(me, s) && Guarded(me, s, e)
    ensures Inv(me, Step(me, s, e))
  {
    match e
    case Call(f) =>
      TrackIs(s.tracked, f);
      if s.link.Open? { CallAgrees(me, s, f); }
    case OpenUp =>
      assert s.wire + Resubscribe(s.tracked) == Resubscribe(s.tracked);
      ResubscribeAll(s.tracked);
    case Read => AppliedCons(s.table[me].channels, s.wire);
    case _ =>
  }

  ghost predicate Run(me: string, ss: seq<State>, es: seq<Event>) {
    && |ss| == |es| + 1
    && forall i :: 0 <= i < |es| ==> Guarded(me, ss[i], es[i]) && ss[i+1] == Step(me, ss[i], es[i])
  }

  /** Whenever the socket is open, reading the frames in transit leaves the gateway with
      exactly the tracked channels that have a non-empty id. */
  lemma {:induction false} OpenMeansAgreement(me: string, ss: seq<State>, es: seq<Event>, n: nat)
    requires Run(me, ss, es) && Inv(me, ss[0]) && n <= |es|
    ensures Inv(me, ss[n])
    ensures ss[n].link.Open? ==> Settled(me, ss[n]) == Wanted(ss[n])
  {
    if n > 0 {
      OpenMeansAgreement(me, ss, es, n - 1);
      StepKeeps(me, ss[n-1], es[n-1]);
    }
  }

  /** No event of one client touches another user's entry. */
  lemma OthersUntouched(me: string, s: State, e: Event, user: string)
    requires Possible(me, s, e) && user != me && !e.Others?
    ensures var t := Step(me, s, e).table;
            (user in t <==> user in s.table) && (user in t ==> t[user] == s.table[user])
  {
  }

  /** An id that is tracked and empty is the only difference to the plain tracked set. */
  lemma EmptyIdIsNeverSubscribed(me: string, s: State)
    requires Inv(me, s) && s.link.Open?
    ensures Settled(me, s) == (set c | c in s.tracked) <==> "" !in s.tracked
  {
  }

  /** Without the guard: when the previous connection is cleaned up after the new one has
      registered, the user's entry is gone, and the gateway agrees with the client if and only
      if nothing with a non-empty id is tracked. Only another registration repairs it. */
  lemma LateCleanUp(me: string, s: State, e: Event)
    requires s.link.Open? && s.stale.Some?
    requires Possible(me, Step(me, s, CleanUp), e) && !e.Accept?
    ensures var r := Step(me, s, CleanUp);
            && (Agree(me, r) <==> forall c :: c in s.tracked ==> c == "")
            && me !in Step(me, r, e).table
  {
    var r := Step(me, s, CleanUp);
    if !(forall c :: c in s.tracked ==> c == "") {
      var c :| c in s.tracked && c != "";
      assert c in Wanted(r);
    }
  }

  /** Such a state is reached when a client reconnects faster than the gateway notices. */
  lemma LateCleanUpIsReachable(me: string)
    ensures var s0 := State(["general"], Down, [], None, map[]);
            var s1 := Step(me, s0, Accept(1));
            var s2 := Step(me, s1, OpenUp);
            var s3 := Step(me, s2, Break);
            var s4 := Step(me, s3, Accept(2));
            var s5 := Step(me, s4, OpenUp);
            Inv(me, s3) && s5.link.Open? && s5.stale.Some? && !Agree(me, Step(me, s5, CleanUp))
  {
    var s0 := State(["general"], Down, [], None, map[]);
    var s1 := Step(me, s0, Accept(1));
    var s2 := Step(me, s1, OpenUp);
    var s3 := Step(me, s2, Break);
    var s5 := Step(me, Step(me, s3, Accept(2)), OpenUp);
    assert "general" in Wanted(Step(me, s5, CleanUp));
  }
}
