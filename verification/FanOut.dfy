/** Push notifications: grouping targets by gateway and delivering them there
    (backend/services/notify-service/subscriber.go, backend/services/ws-gateway/push.go). */
module FanOut {
  type User = string
  type Gateway = string

  /** Which gateway each online user is connected to. */
  type Registry = map<User, Gateway>

  /** One publication on a gateway's topic. */
  datatype Push = Push(gateway: Gateway, targets: seq<User>, body: string)

  /** The users of a list that are online at one gateway, in order. */
  function TargetsAt(users: seq<User>, reg: Registry, g: Gateway): seq<User> {
    if users == [] then []
    else
      var rest, u := TargetsAt(users[..|users|-1], reg, g), users[|users|-1];
      if u in reg && reg[u] == g then rest + [u] else rest
  }

  function Gateways(pushes: seq<Push>): set<Gateway> { set p | p in pushes :: p.gateway }

  /** One push for each gateway that has a target, carrying exactly its targets. */
  ghost predicate Grouped(pushes: seq<Push>, users: seq<User>, reg: Registry, body: string) {
    && OneEach(pushes)
    && (forall p :: p in pushes ==>
          p.body == body && p.targets != [] && p.targets == TargetsAt(users, reg, p.gateway))
    && (forall u :: u in users && u in reg ==> reg[u] in Gateways(pushes))
  }

  lemma {:induction false} TargetsAtIs(users: seq<User>, reg: Registry, g: Gateway, u: User)
    ensures multiset(TargetsAt(users, reg, g))[u] ==
            if u in reg && reg[u] == g then multiset(users)[u] else 0
  {
    if users != [] {
      var init, last := users[..|users|-1], users[|users|-1];
      TargetsAtIs(init, reg, g, u);
      assert users == init + [last];
    }
  }

  ghost predicate GroupsOf(groups: map<Gateway, seq<User>>, users: seq<User>, reg: Registry) {
    && (forall g :: g in groups ==> groups[g] != [] && groups[g] == TargetsAt(users, reg, g))
    && (forall u :: u in users && u in reg ==> reg[u] in groups)
    && (forall g :: g !in groups ==> TargetsAt(users, reg, g) == [])
  }

  lemma TargetsSnoc(users: seq<User>, reg: Registry, g: Gateway, u: User)
    ensures u in reg && reg[u] == g ==> TargetsAt(users + [u], reg, g) == TargetsAt(users, reg, g) + [u]
    ensures !(u in reg && reg[u] == g) ==> TargetsAt(users + [u], reg, g) == TargetsAt(users, reg, g)
  {
    assert (users + [u])[..|users + [u]|-1] == users;
  }

  lemma GroupsSkip(groups: map<Gateway, seq<User>>, users: seq<User>, reg: Registry, u: User)
    requires GroupsOf(groups, users, reg) && u !in reg
    ensures GroupsOf(groups, users + [u], reg)
  {
    forall g ensures TargetsAt(users + [u], reg, g) == TargetsAt(users, reg, g) { TargetsSnoc(users, reg, g, u); }
  }

  lemma GroupsAdd(groups: map<Gateway, seq<User>>, users: seq<User>, reg: Registry, u: User)
    requires GroupsOf(groups, users, reg) && u in reg
    ensures var had := if reg[u] in groups then groups[reg[u]] else [];
            GroupsOf(groups[reg[u] := had + [u]], users + [u], reg)
  {
    TargetsSnoc(users, reg, reg[u], u);
    forall g | g != reg[u] ensures TargetsAt(users + [u], reg, g) == TargetsAt(users, reg, g) {
      TargetsSnoc(users, reg, g, u);
    }
  }

  /** Groups the users by gateway and publishes one message to each; the order of the
      gateways is whatever the map's iteration gives. */
  method PushToUsers(users: seq<User>, reg: Registry, body: string) returns (pushes: seq<Push>)
    ensures Grouped(pushes, users, reg, body)
  {
    var groups: map<Gateway, seq<User>> := map[];
    for i := 0 to |users|
      invariant GroupsOf(groups, users[..i], reg)
    {
      assert users[..i+1] == users[..i] + [users[i]];
      if users[i] !in reg {
        GroupsSkip(groups, users[..i], reg, users[i]);
      } else {
        GroupsAdd(groups, users[..i], reg, users[i]);
        var g := reg[users[i]];
        groups := groups[g := (if g in groups then groups[g] else []) + [users[i]]];
      }
    }
    assert users[..|users|] == users;
    pushes := [];
    var left := groups.Keys;
    while left != {}
      invariant left <= groups.Keys
      invariant forall p :: p in pushes ==>
                  p.gateway in groups.Keys - left && p.targets == groups[p.gateway] && p.body == body
      invariant Gateways(pushes) == groups.Keys - left
      invariant OneEach(pushes)
      decreases left
    {
      var g :| g in left;
      var p := Push(g, groups[g], body);
      assert Gateways(pushes + [p]) == Gateways(pushes) + {g};
      pushes := pushes + [p];
      left := left - {g};
    }
  }

  /** Looks one user up and publishes the payload, whatever targets it lists, to their
      gateway. */
  function PushToUser(user: User, targets: seq<User>, reg: Registry, body: string): seq<Push> {
    if user in reg then [Push(reg[user], targets, body)] else []
  }

  function PushEach(users: seq<User>, targets: seq<User>, reg: Registry, body: string): seq<Push> {
    if users == [] then []
    else PushEach(users[..|users|-1], targets, reg, body) + PushToUser(users[|users|-1], targets, reg, body)
  }

  function Others(members: seq<User>, sender: User): seq<User> {
    if members == [] then []
    else
      var rest := Others(members[..|members|-1], sender);
      if members[|members|-1] != sender then rest + [members[|members|-1]] else rest
  }

  lemma {:induction false} OthersIs(members: seq<User>, sender: User, u: User)
    ensures multiset(Others(members, sender))[u] == if u == sender then 0 else multiset(members)[u]
  {
    if members != [] {
      OthersIs(members[..|members|-1], sender, u);
      assert members == members[..|members|-1] + [members[|members|-1]];
    }
  }

  /** Every push carries the payload it was given, to the gateway of an online user. */
  lemma {:induction false} EachCarries(users: seq<User>, targets: seq<User>, reg: Registry, body: string)
    ensures forall p :: p in PushEach(users, targets, reg, body) ==> p.targets == targets && p.body == body
    ensures forall p :: p in PushEach(users, targets, reg, body) ==> exists u :: u in users && u in reg && reg[u] == p.gateway
  {
    if users != [] {
      EachCarries(users[..|users|-1], targets, reg, body);
      assert users == users[..|users|-1] + [users[|users|-1]];
    }
  }

  /** Grouping and leaving out the sender keep the order of the list. */
  lemma {:induction false} OrderIsKept(a: seq<User>, b: seq<User>, reg: Registry, g: Gateway, sender: User)
    ensures TargetsAt(a + b, reg, g) == TargetsAt(a, reg, g) + TargetsAt(b, reg, g)
    ensures Others(a + b, sender) == Others(a, sender) + Others(b, sender)
  {
    if b == [] {
      assert a + b == a;
    } else {
      OrderIsKept(a, b[..|b|-1], reg, g, sender);
      assert (a + b)[..|a + b|-1] == a + b[..|b|-1];
    }
  }

  /** The push part of the message handler: one publication per online target, each listing
      every target. */
  method HandleMessageCreated(sender: User, members: seq<User>, reg: Registry, body: string)
    returns (pushes: seq<Push>)
    ensures pushes == PushEach(Others(members, sender), Others(members, sender), reg, body)
    ensures forall p, u :: p in pushes ==>
              p.body == body && multiset(p.targets)[u] == if u == sender then 0 else multiset(members)[u]
  {
    forall u ensures multiset(Others(members, sender))[u] == if u == sender then 0 else multiset(members)[u] {
      OthersIs(members, sender, u);
    }
    EachCarries(Others(members, sender), Others(members, sender), reg, body);
    var targets := [];
    for i := 0 to |members|
      invariant targets == Others(members[..i], sender)
    {
      assert members[..i+1][..i] == members[..i];
      if members[i] != sender { targets := targets + [members[i]]; }
    }
    assert members[..|members|] == members;
    pushes := [];
    for i := 0 to |targets|
      invariant pushes == PushEach(targets[..i], targets, reg, body)
    {
      assert targets[..i+1][..i] == targets[..i];
      pushes := pushes + PushToUser(targets[i], targets, reg, body);
    }
    assert targets[..|targets|] == targets;
  }

  /** The push part of the direct message handler. */
  method HandleDMCreated(receiver: User, reg: Registry, body: string) returns (pushes: seq<Push>)
    ensures pushes == PushEach([receiver], [receiver], reg, body)
  {
    assert PushEach([], [receiver], reg, body) == [];
    pushes := PushToUser(receiver, [receiver], reg, body);
  }

  // ---------- Delivery ----------

  /** The users a gateway has a connection for. */
  type Connections = map<Gateway, set<User>>

  function Written(targets: seq<User>, here: set<User>, writable: set<User>): seq<User> {
    if targets == [] then []
    else
      var rest, u := Written(targets[..|targets|-1], here, writable), targets[|targets|-1];
      if u in here && u in writable then rest + [u] else rest
  }

  /** Writes the event to every target connected here; a failed write is skipped, and nothing
      is written when no event can be built from the payload. */
  method DeliverToLocal(buildable: bool, targets: seq<User>, here: set<User>, writable: set<User>)
    returns (delivered: nat, events: seq<User>)
    ensures events == (if buildable then Written(targets, here, writable) else [])
    ensures delivered == |events|
  {
    delivered, events := 0, [];
    if !buildable { return; }
    for i := 0 to |targets|
      invariant events == Written(targets[..i], here, writable) && delivered == |events|
    {
      assert targets[..i+1][..i] == targets[..i];
      if targets[i] in here && targets[i] in writable {
        events := events + [targets[i]];
        delivered := delivered + 1;
      }
    }
    assert targets[..|targets|] == targets;
  }

  lemma {:induction false} WrittenIs(targets: seq<User>, here: set<User>, writable: set<User>, u: User)
    ensures multiset(Written(targets, here, writable))[u] ==
            if u in here && u in writable then multiset(targets)[u] else 0
  {
    if targets != [] {
      var init, last := targets[..|targets|-1], targets[|targets|-1];
      WrittenIs(init, here, writable, u);
      assert targets == init + [last];
    }
  }

  /** How many events a user gets when every push reaches its gateway and writes succeed. */
  function EventsFor(pushes: seq<Push>, tables: Connections, u: User): nat {
    if pushes == [] then 0
    else
      var p := pushes[|pushes|-1];
      EventsFor(pushes[..|pushes|-1], tables, u) +
      (if p.gateway in tables then multiset(Written(p.targets, tables[p.gateway], tables[p.gateway]))[u] else 0)
  }

  /** The gateways' connections are those the registry records. */
  ghost predicate TablesMatch(tables: Connections, reg: Registry) {
    forall g, u :: (g in tables && u in tables[g]) <==> (u in reg && reg[u] == g)
  }

  lemma PushReaches(p: Push, tables: Connections, reg: Registry, u: User)
    requires TablesMatch(tables, reg)
    ensures (if p.gateway in tables
             then multiset(Written(p.targets, tables[p.gateway], tables[p.gateway]))[u] else 0) ==
            if u in reg && reg[u] == p.gateway then multiset(p.targets)[u] else 0
  {
    assert (p.gateway in tables && u in tables[p.gateway]) <==> (u in reg && reg[u] == p.gateway);
    if p.gateway in tables { WrittenIs(p.targets, tables[p.gateway], tables[p.gateway], u); }
  }

  ghost predicate OneEach(pushes: seq<Push>) {
    forall i, j :: 0 <= i < j < |pushes| ==> pushes[i].gateway != pushes[j].gateway
  }

  lemma LastGatewayIsNew(init: seq<Push>, last: Push)
    requires OneEach(init + [last])
    ensures last.gateway !in Gateways(init)
    ensures Gateways(init + [last]) == Gateways(init) + {last.gateway}
  {
    forall p | p in init ensures p.gateway != last.gateway {
      var i :| 0 <= i < |init| && init[i] == p;
      assert (init + [last])[i] == p && (init + [last])[|init|] == last;
    }
  }

  lemma {:induction false} GroupedEvents(pushes: seq<Push>, users: seq<User>, reg: Registry, tables: Connections, u: User)
    requires TablesMatch(tables, reg) && OneEach(pushes)
    requires forall p :: p in pushes ==> p.targets == TargetsAt(users, reg, p.gateway)
    ensures EventsFor(pushes, tables, u) ==
            if u in reg && reg[u] in Gateways(pushes) then multiset(users)[u] else 0
  {
    if pushes != [] {
      var init, last := pushes[..|pushes|-1], pushes[|pushes|-1];
      assert pushes == init + [last];
      GroupedEvents(init, users, reg, tables, u);
      LastGatewayIsNew(init, last);
      PushReaches(last, tables, reg, u);
      TargetsAtIs(users, reg, last.gateway, u);
    }
  }

  /** Grouping is a partition: every online user on the list gets one event for each time it
      is listed, so exactly one when the list has no repetition; nobody else gets any. */
  lemma FanOutIsAPartition(pushes: seq<Push>, users: seq<User>, reg: Registry, tables: Connections, body: string, u: User)
    requires Grouped(pushes, users, reg, body) && TablesMatch(tables, reg)
    ensures EventsFor(pushes, tables, u) == if u in reg then multiset(users)[u] else 0
  {
    GroupedEvents(pushes, users, reg, tables, u);
    if u in reg && u !in users { assert multiset(users)[u] == 0; }
  }

  lemma {:induction false} EachEvents(users: seq<User>, targets: seq<User>, reg: Registry, tables: Connections,
                                      body: string, u: User)
    requires TablesMatch(tables, reg) && u in reg && multiset(targets)[u] == 1
    ensures EventsFor(PushEach(users, targets, reg, body), tables, u) == |TargetsAt(users, reg, reg[u])|
  {
    if users != [] {
      var init, last := users[..|users|-1], users[|users|-1];
      EachEvents(init, targets, reg, tables, body, u);
      var pushes := PushEach(init, targets, reg, body);
      if last in reg {
        var p := Push(reg[last], targets, body);
        PushReaches(p, tables, reg, u);
        assert (pushes + [p])[..|pushes + [p]|-1] == pushes;
      } else {
        assert pushes + [] == pushes;
      }
    }
  }

  /** A channel message is published once per online target with all targets listed, so a
      target gets as many copies as its gateway has online targets: exactly one if and only if
      it is alone there. Offline users get none. */
  lemma CopiesPerTarget(targets: seq<User>, reg: Registry, tables: Connections, body: string, u: User)
    requires TablesMatch(tables, reg) && multiset(targets)[u] == 1 && u in reg
    ensures var copies := EventsFor(PushEach(targets, targets, reg, body), tables, u);
            && copies == |TargetsAt(targets, reg, reg[u])| >= 1
            && (copies == 1 <==> forall t :: t in targets && t in reg && reg[t] == reg[u] ==> t == u)
  {
    var here := TargetsAt(targets, reg, reg[u]);
    EachEvents(targets, targets, reg, tables, body, u);
    TargetsAtIs(targets, reg, reg[u], u);
    assert multiset(here)[u] == 1;
    AloneIffOne(here, u);
    forall t ensures t in here <==> t in targets && t in reg && reg[t] == reg[u] {
      TargetsAtIs(targets, reg, reg[u], t);
      assert t in here <==> multiset(here)[t] > 0;
      assert t in targets <==> multiset(targets)[t] > 0;
    }
  }

  lemma AloneIffOne(s: seq<User>, u: User)
    requires multiset(s)[u] == 1
    ensures |s| >= 1 && (|s| == 1 <==> forall t :: t in s ==> t == u)
  {
    assert u in multiset(s);
    if |s| > 1 {
      assert s == [s[0], s[1]] + s[2..];
      assert s[0] in s && s[1] in s;
    }
  }

  /** A direct message reaches an online receiver once. */
  lemma DMIsDeliveredOnce(receiver: User, reg: Registry, tables: Connections, body: string)
    requires TablesMatch(tables, reg)
    ensures EventsFor(PushEach([receiver], [receiver], reg, body), tables, receiver) ==
            if receiver in reg then 1 else 0
  {
    if receiver in reg {
      EachEvents([receiver], [receiver], reg, tables, body, receiver);
      TargetsAtIs([receiver], reg, reg[receiver], receiver);
      assert |TargetsAt([receiver], reg, reg[receiver])| == 1;
    } else {
      assert PushEach([receiver], [receiver], reg, body) == [];
    }
  }

  /** The sender of a channel message gets no event. */
  lemma {:induction false} SenderGetsNone(users: seq<User>, targets: seq<User>, reg: Registry, tables: Connections,
                                          body: string, sender: User)
    requires TablesMatch(tables, reg) && multiset(targets)[sender] == 0
    ensures EventsFor(PushEach(users, targets, reg, body), tables, sender) == 0
  {
    if users != [] {
      var init, last := users[..|users|-1], users[|users|-1];
      SenderGetsNone(init, targets, reg, tables, body, sender);
      var pushes := PushEach(init, targets, reg, body);
      if last in reg {
        var p := Push(reg[last], targets, body);
        PushReaches(p, tables, reg, sender);
        assert (pushes + [p])[..|pushes + [p]|-1] == pushes;
      } else {
        assert pushes + [] == pushes;
      }
    }
  }
}
