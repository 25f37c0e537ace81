/** The community service's handlers, whose membership and ownership checks read caches
    (backend/services/community-service/service.go, cache.go). */
module Authorization {
  import opened Wrappers
  import opened Lru
  import opened LruTheorems
  import opened IdPaging
  import opened Permissions

  type User = int

  const CACHED_MEMBERS: int := 1000
  const CACHE_CAPACITY: nat := 10000

  datatype Code = Unauthenticated | InvalidArgument | NotFound | PermissionDenied | FailedPrecondition | Internal

  type Outcome = Result<(), Code>

  datatype CommunityRow = CommunityRow(name: string, description: string, iconUrl: string, ownerId: User)

  datatype Role = Role(id: string, permissions: Mask)

  /** The tables. Members are kept as queries list them; `everyone` is each community's
      default role; `channels` maps a channel to its community. */
  datatype Database = Database(
    communities: map<string, CommunityRow>,
    open: set<string>,
    members: map<string, seq<Row>>,
    roles: map<(string, User), seq<Role>>,
    everyone: map<string, Role>,
    channels: map<string, string>)

  // ---------- What the database says ----------

  function MembersOf(db: Database, id: string): seq<Row> {
    if id in db.members then db.members[id] else []
  }

  function RolesOf(db: Database, id: string, user: User): seq<Role> {
    if (id, user) in db.roles then db.roles[(id, user)] else []
  }

  function Masks(roles: seq<Role>): seq<Mask> {
    seq(|roles|, i requires 0 <= i < |roles| => roles[i].permissions)
  }

  function CachedQuery(db: Database, id: string): seq<Row> {
    PageAfter(MembersOf(db, id), CACHED_MEMBERS, None).rows
  }

  ghost predicate Listed(db: Database, id: string, user: User) { user in IdSet(CachedQuery(db, id)) }

  ghost predicate Member(db: Database, id: string, user: User) { user in IdSet(MembersOf(db, id)) }

  ghost predicate Permitted(db: Database, id: string, user: User, required: Mask) {
    id in db.communities && Holds(user, Masks(RolesOf(db, id, user)), db.communities[id].ownerId, required)
  }

  ghost function PermissionVerdict(db: Database, id: string, user: User, required: Mask): Outcome {
    if id !in db.communities then Err(NotFound)
    else if Permitted(db, id, user, required) then Ok(())
    else Err(PermissionDenied)
  }

  ghost function ChannelVerdict(db: Database, caller: Option<User>, channelId: string, required: Mask,
                                complete: bool): Outcome
  {
    if caller.None? then Err(Unauthenticated)
    else if channelId == "" || !complete then Err(InvalidArgument)
    else if channelId !in db.channels then Err(NotFound)
    else if !Listed(db, db.channels[channelId], caller.value) then Err(PermissionDenied)
    else PermissionVerdict(db, db.channels[channelId], caller.value, required)
  }

  ghost function LeaveVerdict(db: Database, caller: Option<User>, id: string): Outcome {
    if caller.None? then Err(Unauthenticated)
    else if id == "" then Err(InvalidArgument)
    else if id !in db.communities then Err(NotFound)
    else if db.communities[id].ownerId == caller.value then Err(FailedPrecondition)
    else Ok(())
  }

  ghost function KickVerdict(db: Database, caller: Option<User>, id: string, target: Option<User>): Outcome {
    if caller.None? then Err(Unauthenticated)
    else if id == "" || target.None? then Err(InvalidArgument)
    else if id !in db.communities then Err(NotFound)
    else if target == caller then LeaveVerdict(db, caller, id)
    else if !Permitted(db, id, caller.value, Permissions.KickMembers) then Err(PermissionDenied)
    else if target.value == db.communities[id].ownerId then Err(FailedPrecondition)
    else Ok(())
  }

  ghost function DeleteVerdict(db: Database, caller: Option<User>, id: string): Outcome {
    if caller.None? then Err(Unauthenticated)
    else if id == "" then Err(InvalidArgument)
    else if id !in db.communities then Err(NotFound)
    else if db.communities[id].ownerId != caller.value then Err(PermissionDenied)
    else Ok(())
  }

  ghost function UpdateVerdict(db: Database, caller: Option<User>, id: string): Outcome {
    if caller.None? then Err(Unauthenticated)
    else if id == "" then Err(InvalidArgument)
    else PermissionVerdict(db, id, caller.value, ManageCommunity)
  }

  ghost function JoinVerdict(db: Database, caller: Option<User>, id: string): Outcome {
    if caller.None? then Err(Unauthenticated)
    else if id == "" then Err(InvalidArgument)
    else if id !in db.communities || id !in db.open then Err(NotFound)
    else Ok(())
  }

  // ---------- What the statements do ----------

  /** Inserts a member in id order; someone already listed stays as they are. */
  function WithMember(rows: seq<Row>, r: Row): seq<Row> {
    if rows == [] || rows[|rows|-1].id < r.id then rows + [r]
    else if rows[|rows|-1].id == r.id then rows
    else WithMember(rows[..|rows|-1], r) + [rows[|rows|-1]]
  }

  function WithoutMember(rows: seq<Row>, user: User): seq<Row> {
    if rows == [] then []
    else if rows[|rows|-1].id == user then WithoutMember(rows[..|rows|-1], user)
    else WithoutMember(rows[..|rows|-1], user) + [rows[|rows|-1]]
  }

  function AddMember(db: Database, id: string, r: Row): (added: Database)
    ensures added == db.(members := added.members)
  {
    db.(members := db.members[id := WithMember(MembersOf(db, id), r)])
  }

  /** Assigning a role twice is the same as once. */
  function Assigned(roles: map<(string, User), seq<Role>>, key: (string, User), role: Role): map<(string, User), seq<Role>> {
    var had := if key in roles then roles[key] else [];
    if exists r :: r in had && r.id == role.id then roles else roles[key := had + [role]]
  }

  function AssignRole(db: Database, id: string, user: User, role: Role): Database {
    db.(roles := Assigned(db.roles, (id, user), role))
  }

  /** Only the one member gains the role, and keeps the roles they had. */
  lemma AssignedOnly(roles: map<(string, User), seq<Role>>, key: (string, User), role: Role)
    ensures var r := Assigned(roles, key, role);
            && r == roles[key := if key in r then r[key] else []]
            && (exists m :: m in r[key] && m.id == role.id)
            && (key in roles ==> roles[key] <= r[key])
            && forall m :: m in r[key] ==> m == role || (key in roles && m in roles[key])
  {
    var r := Assigned(roles, key, role);
    if r != roles {
      var had := if key in roles then roles[key] else [];
      assert r[key][|had|] == role;
    }
  }

  /** Removing a member also removes the roles assigned to them. */
  function RemoveMember(db: Database, id: string, user: User): Database {
    db.(members := if id in db.members then db.members[id := WithoutMember(db.members[id], user)] else db.members,
        roles := db.roles - {(id, user)})
  }

  /** Deleting a community deletes everything that refers to it. */
  function DeleteCommunityRow(db: Database, id: string): Database {
    Database(db.communities - {id}, db.open - {id}, db.members - {id},
             map k | k in db.roles && k.0 != id :: db.roles[k],
             db.everyone - {id},
             map c | c in db.channels && db.channels[c] != id :: db.channels[c])
  }

  function CreateCommunityRow(db: Database, id: string, row: CommunityRow): Database {
    db.(communities := db.communities[id := row], open := db.open + {id})
  }

  // ---------- Cache coherence ----------

  ghost predicate DatabaseOk(db: Database) {
    && (forall id :: id in db.members ==> Ordered(db.members[id]))
    && (forall id :: id in db.members ==> id in db.communities)
    && (forall c :: c in db.channels ==> db.channels[c] in db.communities)
  }

  type RowCache = seq<Pair<string, CommunityRow>>
  type MemberCache = seq<Pair<string, seq<Row>>>

  ghost predicate RowsFresh(db: Database, cache: RowCache) {
    && Bounded(cache, CACHE_CAPACITY)
    && forall p :: p in cache ==> p.key in db.communities && p.value == db.communities[p.key]
  }

  ghost predicate MembersFresh(db: Database, cache: MemberCache) {
    && Bounded(cache, CACHE_CAPACITY)
    && forall p :: p in cache ==> p.key in db.communities && IdSet(p.value) == IdSet(CachedQuery(db, p.key))
  }

  lemma FetchKeepsRows(db: Database, cache: RowCache, id: string, filled: Option<CommunityRow>)
    requires RowsFresh(db, cache)
    requires filled.Some? ==> id in db.communities && filled.value == db.communities[id]
    ensures RowsFresh(db, Effect(cache, CACHE_CAPACITY, Fetch(id, filled)))
  {
    var c: Call<string, CommunityRow> := Fetch(id, filled);
    EffectBounded(cache, CACHE_CAPACITY, c);
    forall p | p in Effect(cache, CACHE_CAPACITY, c) ensures p.key in db.communities && p.value == db.communities[p.key] {
      PairsAfter(cache, CACHE_CAPACITY, c, p);
    }
  }

  lemma FetchKeepsMembers(db: Database, cache: MemberCache, id: string, filled: Option<seq<Row>>)
    requires MembersFresh(db, cache)
    requires filled.Some? ==> id in db.communities && filled.value == CachedQuery(db, id)
    ensures MembersFresh(db, Effect(cache, CACHE_CAPACITY, Fetch(id, filled)))
  {
    var c: Call<string, seq<Row>> := Fetch(id, filled);
    EffectBounded(cache, CACHE_CAPACITY, c);
    forall p | p in Effect(cache, CACHE_CAPACITY, c)
      ensures p.key in db.communities && IdSet(p.value) == IdSet(CachedQuery(db, p.key))
    {
      PairsAfter(cache, CACHE_CAPACITY, c, p);
    }
  }

  /** Setting a community's row just written keeps the row cache fresh. */
  lemma SetKeepsRows(db: Database, db': Database, cache: RowCache, id: string)
    requires RowsFresh(db, cache) && id in db'.communities
    requires forall k :: k in db.communities && k != id ==> k in db'.communities && db'.communities[k] == db.communities[k]
    ensures RowsFresh(db', Effect(cache, CACHE_CAPACITY, Put(id, db'.communities[id])))
  {
    var c := Put(id, db'.communities[id]);
    EffectBounded(cache, CACHE_CAPACITY, c);
    forall p | p in Effect(cache, CACHE_CAPACITY, c)
      ensures p.key in db'.communities && p.value == db'.communities[p.key]
    {
      PairsAfter(cache, CACHE_CAPACITY, c, p);
    }
  }

  /** Invalidating one community's row makes up for any change to that row alone. */
  lemma DropKeepsRows(db: Database, db': Database, cache: RowCache, id: string)
    requires RowsFresh(db, cache)
    requires forall k :: k in db.communities && k != id ==> k in db'.communities && db'.communities[k] == db.communities[k]
    ensures RowsFresh(db', Effect(cache, CACHE_CAPACITY, Drop(id)))
  {
    var c: Call<string, CommunityRow> := Drop(id);
    EffectBounded(cache, CACHE_CAPACITY, c);
    forall p | p in Effect(cache, CACHE_CAPACITY, c)
      ensures p.key in db'.communities && p.value == db'.communities[p.key]
    {
      PairsAfter(cache, CACHE_CAPACITY, c, p);
    }
  }

  /** The same for the cached member list of one community. */
  lemma DropKeepsMembers(db: Database, db': Database, cache: MemberCache, id: string)
    requires MembersFresh(db, cache)
    requires forall k :: k in db.communities && k != id ==> k in db'.communities && MembersOf(db', k) == MembersOf(db, k)
    ensures MembersFresh(db', Effect(cache, CACHE_CAPACITY, Drop(id)))
  {
    var c: Call<string, seq<Row>> := Drop(id);
    EffectBounded(cache, CACHE_CAPACITY, c);
    forall p | p in Effect(cache, CACHE_CAPACITY, c)
      ensures p.key in db'.communities && IdSet(p.value) == IdSet(CachedQuery(db', p.key))
    {
      PairsAfter(cache, CACHE_CAPACITY, c, p);
    }
  }

  lemma {:induction false} WithMemberRows(rows: seq<Row>, r: Row)
    requires Ordered(rows)
    ensures Ordered(WithMember(rows, r))
    ensures forall x :: x in WithMember(rows, r) ==> x == r || x in rows
    ensures forall x :: x in rows ==> x in WithMember(rows, r)
    ensures r in WithMember(rows, r) || r.id in IdSet(rows)
  {
    if rows != [] {
      var t, e := rows[..|rows|-1], rows[|rows|-1];
      assert rows == t + [e];
      if e.id > r.id {
        WithMemberRows(t, r);
        forall i | 0 <= i < |WithMember(t, r)| ensures WithMember(t, r)[i].id < e.id {
          assert WithMember(t, r)[i] in WithMember(t, r);
        }
      }
    }
  }

  lemma WithMemberIds(rows: seq<Row>, r: Row)
    requires Ordered(rows)
    ensures Ordered(WithMember(rows, r))
    ensures IdSet(WithMember(rows, r)) == IdSet(rows) + {r.id}
  {
    WithMemberRows(rows, r);
  }

  lemma WithoutMemberIds(rows: seq<Row>, user: User)
    requires Ordered(rows)
    ensures Ordered(WithoutMember(rows, user))
    ensures IdSet(WithoutMember(rows, user)) == IdSet(rows) - {user}
  {
    WithoutMemberRows(rows, user);
  }

  lemma {:induction false} WithoutMemberRows(rows: seq<Row>, user: User)
    requires Ordered(rows)
    ensures Ordered(WithoutMember(rows, user))
    ensures forall x :: x in WithoutMember(rows, user) <==> x in rows && x.id != user
  {
    if rows != [] {
      var t, e := rows[..|rows|-1], rows[|rows|-1];
      assert rows == t + [e];
      WithoutMemberRows(t, user);
      forall i | 0 <= i < |WithoutMember(t, user)| ensures WithoutMember(t, user)[i].id < e.id {
        assert WithoutMember(t, user)[i] in t;
      }
    }
  }

  method CachedMembersSet(members: seq<Row>) returns (m: map<User, bool>)
    ensures forall user :: (user in m && m[user]) <==> user in IdSet(members)
  {
    m := map[];
    for i := 0 to |members|
      invariant forall user :: (user in m && m[user]) <==> user in IdSet(members[..i])
    {
      assert members[..i+1] == members[..i] + [members[i]];
      m := m[members[i].id := true];
    }
    assert members[..|members|] == members;
  }

  // ---------- What the tables hold afterwards ----------

  ghost predicate SameRoles(was: Database, now: Database, key: (string, User)) {
    (key in now.roles <==> key in was.roles) && (key in now.roles ==> now.roles[key] == was.roles[key])
  }

  /** The user is out of the community, without roles there, and nothing else has changed. */
  ghost predicate Gone(was: Database, now: Database, id: string, user: User) {
    && (id, user) !in now.roles
    && (forall c, u :: Member(now, c, u) <==> Member(was, c, u) && !(c == id && u == user))
    && (forall c, u :: (c, u) != (id, user) ==> SameRoles(was, now, (c, u)))
    && now.communities == was.communities && now.open == was.open
    && now.everyone == was.everyone && now.channels == was.channels
  }

  lemma RemovedIsGone(db: Database, id: string, user: User)
    requires DatabaseOk(db)
    ensures Gone(db, RemoveMember(db, id, user), id, user)
  {
    var now := RemoveMember(db, id, user);
    if id in db.members { WithoutMemberIds(db.members[id], user); }
    forall c, u ensures Member(now, c, u) <==> Member(db, c, u) && !(c == id && u == user) {
      if c != id { assert MembersOf(now, c) == MembersOf(db, c); }
    }
  }

  /** The user is in the community, under the nickname if they were not in it before; nobody
      else's membership has changed. */
  ghost predicate Joined(was: Database, now: Database, id: string, user: User, nickname: string) {
    && (forall c, u :: Member(now, c, u) <==> (c == id && u == user) || Member(was, c, u))
    && (if Member(was, id, user) then MembersOf(now, id) == MembersOf(was, id) else Row(user, nickname) in MembersOf(now, id))
    && (forall c, u :: (c, u) != (id, user) ==> SameRoles(was, now, (c, u)))
    && now.communities == was.communities && now.open == was.open
    && now.everyone == was.everyone && now.channels == was.channels
  }

  lemma WithMemberIs(rows: seq<Row>, r: Row)
    requires Ordered(rows)
    ensures var with := WithMember(rows, r);
            && (forall u :: u in IdSet(with) <==> u == r.id || u in IdSet(rows))
            && (if r.id in IdSet(rows) then with == rows else r in with)
  {
    WithMemberIds(rows, r);
    WithMemberRows(rows, r);
    if r.id in IdSet(rows) { KnownMemberStays(rows, r); }
  }

  lemma AddedIsJoined(db: Database, id: string, user: User, nickname: string)
    requires DatabaseOk(db)
    ensures Joined(db, AddMember(db, id, Row(user, nickname)), id, user, nickname)
  {
    var r := Row(user, nickname);
    var now := AddMember(db, id, r);
    WithMemberIs(MembersOf(db, id), r);
    forall c, u ensures Member(now, c, u) <==> (c == id && u == user) || Member(db, c, u) {
      assert MembersOf(now, c) == if c == id then WithMember(MembersOf(db, id), r) else MembersOf(db, c);
    }
  }

  lemma RoleKeepsJoined(was: Database, now: Database, id: string, user: User, nickname: string, role: Role)
    requires Joined(was, now, id, user, nickname)
    ensures Joined(was, AssignRole(now, id, user, role), id, user, nickname)
  {
    var then_ := AssignRole(now, id, user, role);
    AssignedOnly(now.roles, (id, user), role);
    forall c, u | (c, u) != (id, user) ensures SameRoles(was, then_, (c, u)) {
      assert SameRoles(was, now, (c, u));
    }
    forall c, u ensures Member(then_, c, u) <==> Member(now, c, u) {}
  }

  lemma {:induction false} KnownMemberStays(rows: seq<Row>, r: Row)
    requires Ordered(rows) && r.id in IdSet(rows)
    ensures WithMember(rows, r) == rows
  {
    var t, e := rows[..|rows|-1], rows[|rows|-1];
    assert rows == t + [e];
    var i :| 0 <= i < |rows| && rows[i].id == r.id;
    if e.id > r.id {
      assert t[i] in t;
      KnownMemberStays(t, r);
    }
  }

  /** Nothing is left of the community, and nothing else has changed. */
  ghost predicate Deleted(was: Database, now: Database, id: string) {
    && id !in now.communities && id !in now.open && id !in now.members && id !in now.everyone
    && (forall u :: (id, u) !in now.roles) && (forall c :: c in now.channels ==> now.channels[c] != id)
    && (forall k :: k != id ==>
          && (k in now.communities <==> k in was.communities)
          && (k in now.communities ==> now.communities[k] == was.communities[k])
          && (k in now.open <==> k in was.open) && MembersOf(now, k) == MembersOf(was, k)
          && (k in now.everyone <==> k in was.everyone) && (k in now.everyone ==> now.everyone[k] == was.everyone[k]))
    && (forall c, u :: c != id ==> SameRoles(was, now, (c, u)))
    && (forall c :: c in was.channels && was.channels[c] != id ==> c in now.channels)
    && (forall c :: c in now.channels ==> c in was.channels && now.channels[c] == was.channels[c])
  }

  lemma DeletedRowIsDeleted(db: Database, id: string)
    ensures Deleted(db, DeleteCommunityRow(db, id), id)
  {
  }

  // ---------- Who may ----------

  /** The owner, or someone with a role that is administrator (bit 0) or has the bit. */
  ghost predicate OwnerOrBit(db: Database, id: string, user: User, bit: nat) {
    && id in db.communities
    && (db.communities[id].ownerId == user ||
        exists role :: role in RolesOf(db, id, user) && (0 in role.permissions || bit in role.permissions))
  }

  lemma PermittedIff(db: Database, id: string, user: User, bit: nat)
    ensures Permitted(db, id, user, {bit}) <==> OwnerOrBit(db, id, user, bit)
  {
    var roles := RolesOf(db, id, user);
    forall m: Mask ensures HasPermission(m, {bit}) <==> 0 in m || bit in m {
      if 0 in m { assert 0 in m * Administrator; }
      if bit in m { assert bit in m * {bit}; }
    }
    forall role | role in roles ensures role.permissions in Masks(roles) {
      var i :| 0 <= i < |roles| && roles[i] == role;
      assert Masks(roles)[i] == role.permissions;
    }
    forall m | m in Masks(roles) ensures exists role :: role in roles && role.permissions == m {
      var i :| 0 <= i < |roles| && Masks(roles)[i] == m;
      assert roles[i] in roles;
    }
  }

  /** Who may send (bit 7) or read (bit 8), and what the others are told. */
  lemma WhoMayUseAChannel(db: Database, caller: Option<User>, channelId: string, bit: nat, complete: bool)
    requires DatabaseOk(db)
    ensures var v := ChannelVerdict(db, caller, channelId, {bit}, complete);
            && (v.Ok? <==>
                  && caller.Some? && channelId != "" && complete && channelId in db.channels
                  && Member(db, db.channels[channelId], caller.value)
                  && Rank(MembersOf(db, db.channels[channelId]), caller.value) < 1000
                  && OwnerOrBit(db, db.channels[channelId], caller.value, bit))
            && (v == Err(Unauthenticated) <==> caller.None?)
            && (v == Err(InvalidArgument) <==> caller.Some? && (channelId == "" || !complete))
            && (v == Err(NotFound) <==> caller.Some? && channelId != "" && complete && channelId !in db.channels)
            && (v.Err? ==> v.error in {Unauthenticated, InvalidArgument, NotFound, PermissionDenied})
  {
    if caller.Some? && channelId in db.channels {
      ListedIffRanked(db, db.channels[channelId], caller.value);
      PermittedIff(db, db.channels[channelId], caller.value, bit);
    }
  }

  ghost predicate Known(db: Database, caller: Option<User>, id: string) {
    caller.Some? && id != "" && id in db.communities
  }

  /** Who may update (bit 1), delete, join and leave, and what the others are told. */
  lemma WhoMay(db: Database, caller: Option<User>, id: string)
    ensures UpdateVerdict(db, caller, id).Ok? <==> Known(db, caller, id) && OwnerOrBit(db, id, caller.value, 1)
    ensures DeleteVerdict(db, caller, id).Ok? <==> Known(db, caller, id) && db.communities[id].ownerId == caller.value
    ensures JoinVerdict(db, caller, id).Ok? <==> Known(db, caller, id) && id in db.open
    ensures LeaveVerdict(db, caller, id).Ok? <==> Known(db, caller, id) && db.communities[id].ownerId != caller.value
    ensures Known(db, caller, id) ==>
              && (UpdateVerdict(db, caller, id).Err? ==> UpdateVerdict(db, caller, id).error == PermissionDenied)
              && (DeleteVerdict(db, caller, id).Err? ==> DeleteVerdict(db, caller, id).error == PermissionDenied)
              && (JoinVerdict(db, caller, id).Err? ==> JoinVerdict(db, caller, id).error == NotFound)
              && (LeaveVerdict(db, caller, id).Err? ==> LeaveVerdict(db, caller, id).error == FailedPrecondition)
    ensures !Known(db, caller, id) ==>
              var e := if caller.None? then Unauthenticated else if id == "" then InvalidArgument else NotFound;
              && UpdateVerdict(db, caller, id) == Err(e) && DeleteVerdict(db, caller, id) == Err(e)
              && JoinVerdict(db, caller, id) == Err(e) && LeaveVerdict(db, caller, id) == Err(e)
  {
    if caller.Some? { PermittedIff(db, id, caller.value, 1); }
  }

  /** Anyone may take themselves out and the owner or a holder of bit 4 may take others out,
      but nobody the owner. */
  lemma WhoMayKick(db: Database, caller: Option<User>, id: string, target: Option<User>)
    ensures var v := KickVerdict(db, caller, id, target);
            && (v.Ok? <==>
                  && Known(db, caller, id) && target.Some? && target.value != db.communities[id].ownerId
                  && (target == caller || OwnerOrBit(db, id, caller.value, 4)))
            && (v == Err(Unauthenticated) <==> caller.None?)
            && (v == Err(InvalidArgument) <==> caller.Some? && (id == "" || target.None?))
            && (v == Err(NotFound) <==> caller.Some? && id != "" && target.Some? && id !in db.communities)
            && (v == Err(PermissionDenied) <==>
                  Known(db, caller, id) && target.Some? && target != caller && !OwnerOrBit(db, id, caller.value, 4))
            && (v.Err? ==> v.error != Internal)
  {
    if caller.Some? { PermittedIff(db, id, caller.value, 4); }
  }

  /** Someone who is out of a community is refused in all its channels, cached or not. */
  lemma GoneIsRefused(was: Database, now: Database, id: string, user: User, channelId: string, required: Mask)
    requires DatabaseOk(now) && Gone(was, now, id, user)
    requires channelId != "" && channelId in now.channels && now.channels[channelId] == id
    ensures TrueVerdict(now, Some(user), channelId, required, true) == Err(PermissionDenied)
    ensures ChannelVerdict(now, Some(user), channelId, required, true) == Err(PermissionDenied)
  {
    ListedIffRanked(now, id, user);
  }

  lemma UntouchedStaysFresh(db: Database, db': Database, rows: RowCache, lists: MemberCache)
    requires RowsFresh(db, rows) && MembersFresh(db, lists)
    requires forall k :: k in db.communities ==>
               k in db'.communities && db'.communities[k] == db.communities[k] && MembersOf(db', k) == MembersOf(db, k)
    ensures RowsFresh(db', rows) && MembersFresh(db', lists)
  {
  }

  /** However far the statements that create a community get, the caches stay fresh. */
  lemma CreateStays(db: Database, db': Database, id: string, row: CommunityRow, founder: Row,
                    rows: RowCache, lists: MemberCache)
    requires DatabaseOk(db) && RowsFresh(db, rows) && MembersFresh(db, lists)
    requires id !in db.communities && db'.communities == db.communities[id := row]
    requires db'.members == db.members || db'.members == db.members[id := [founder]]
    requires db'.channels == db.channels
    ensures DatabaseOk(db') && RowsFresh(db', rows) && MembersFresh(db', lists)
  {
    UntouchedStaysFresh(db, db', rows, lists);
  }

  // ---------- The handlers ----------

  ghost predicate AllUp(up: nat -> bool) { forall i: nat :: up(i) }

  /** One instance. The two caches are recency lists; a handler's database calls are numbered
      in order, and `up` says which of them succeed. A call that fails has no effect. */
  class CommunityService {
    var db: Database
    var communityCache: RowCache
    var membersCache: MemberCache

    ghost predicate Valid()
      reads this
    {
      DatabaseOk(db) && RowsFresh(db, communityCache) && MembersFresh(db, membersCache)
    }

    constructor (db: Database)
      requires DatabaseOk(db)
      ensures Valid() && this.db == db
    {
      this.db, communityCache, membersCache := db, [], [];
    }

    method CachedCommunity(id: string, up: bool) returns (row: Option<CommunityRow>)
      requires Valid()
      modifies this`communityCache
      ensures Valid()
      ensures row.Some? ==> id in db.communities && row.value == db.communities[id]
      ensures row.Some? ==> Lookup(communityCache, id) == row
      ensures up && id in db.communities ==> row.Some?
    {
      var filled := if up && id in db.communities then Some(db.communities[id]) else None;
      LookupIsPair(communityCache, id);
      FetchKeepsRows(db, communityCache, id, filled);
      row := Lookup(communityCache, id);
      if row.None? { row := filled; }
      if row.Some? { TouchedIsFirst(communityCache, CACHE_CAPACITY, Fetch(id, filled)); }
      communityCache := Effect(communityCache, CACHE_CAPACITY, Fetch(id, filled));
    }

    method CachedMembers(id: string, up: bool) returns (rows: Option<seq<Row>>)
      requires Valid() && id in db.communities
      modifies this`membersCache
      ensures Valid()
      ensures rows.Some? ==> IdSet(rows.value) == IdSet(CachedQuery(db, id))
      ensures rows.Some? ==> Lookup(membersCache, id) == rows
      ensures up ==> rows.Some?
    {
      var page := ListMembersByCommunity(MembersOf(db, id), CACHED_MEMBERS, None);
      var filled := if up then Some(page.rows) else None;
      LookupIsPair(membersCache, id);
      FetchKeepsMembers(db, membersCache, id, filled);
      rows := Lookup(membersCache, id);
      if rows.None? { rows := filled; }
      if rows.Some? { TouchedIsFirst(membersCache, CACHE_CAPACITY, Fetch(id, filled)); }
      membersCache := Effect(membersCache, CACHE_CAPACITY, Fetch(id, filled));
    }

    method CheckPermission(id: string, user: User, required: Mask, rowUp: bool, rolesUp: bool)
      returns (r: Outcome)
      requires Valid()
      modifies this`communityCache
      ensures Valid()
      ensures r.Ok? ==> Permitted(db, id, user, required)
      ensures rowUp && rolesUp ==> r == PermissionVerdict(db, id, user, required)
    {
      var community := CachedCommunity(id, rowUp);
      if community.None? { return Err(NotFound); }
      var owner := community.value.ownerId;
      if owner == user { return Ok(()); }
      if !rolesUp { return Err(Internal); }
      var masks := Masks(RolesOf(db, id, user));
      var perms := ComputePermissions(user, masks, owner);
      EffectiveHolds(user, masks, owner, required);
      if !HasPermission(perms, required) { return Err(PermissionDenied); }
      return Ok(());
    }

    method CheckChannel(caller: User, channelId: string, required: Mask, up: nat -> bool) returns (r: Outcome)
      requires Valid() && channelId != ""
      modifies this`communityCache, this`membersCache
      ensures Valid()
      ensures r.Ok? ==> ChannelVerdict(db, Some(caller), channelId, required, true).Ok?
      ensures AllUp(up) ==> r == ChannelVerdict(db, Some(caller), channelId, required, true)
    {
      if !up(0) || channelId !in db.channels { return Err(NotFound); }
      var id := db.channels[channelId];
      var members := CachedMembers(id, up(1));
      if members.None? { return Err(Internal); }
      var byId := CachedMembersSet(members.value);
      if caller !in byId || !byId[caller] { return Err(PermissionDenied); }
      r := CheckPermission(id, caller, required, up(2), up(3));
    }

    /** Messages are not part of this state; `up(4)` is the insert. */
    method SendMessage(caller: Option<User>, channelId: string, content: string, up: nat -> bool)
      returns (r: Outcome)
      requires Valid()
      modifies this`communityCache, this`membersCache
      ensures Valid()
      ensures r.Ok? ==> ChannelVerdict(db, caller, channelId, Permissions.SendMessages, content != "").Ok?
      ensures AllUp(up) ==> r == ChannelVerdict(db, caller, channelId, Permissions.SendMessages, content != "")
    {
      if caller.None? { return Err(Unauthenticated); }
      if channelId == "" || content == "" { return Err(InvalidArgument); }
      r := CheckChannel(caller.value, channelId, Permissions.SendMessages, up);
      if r.Ok? && !up(4) { return Err(Internal); }
    }

    method GetMessages(caller: Option<User>, channelId: string, up: nat -> bool) returns (r: Outcome)
      requires Valid()
      modifies this`communityCache, this`membersCache
      ensures Valid()
      ensures r.Ok? ==> ChannelVerdict(db, caller, channelId, ReadMessages, true).Ok?
      ensures AllUp(up) ==> r == ChannelVerdict(db, caller, channelId, ReadMessages, true)
    {
      if caller.None? { return Err(Unauthenticated); }
      if channelId == "" { return Err(InvalidArgument); }
      r := CheckChannel(caller.value, channelId, ReadMessages, up);
      if r.Ok? && !up(4) { return Err(Internal); }
    }

    method GetCommunity(id: string, up: bool) returns (r: Result<CommunityRow, Code>)
      requires Valid()
      modifies this`communityCache
      ensures Valid()
      ensures r.Ok? ==> id in db.communities && r.value == db.communities[id]
      ensures up && id != "" && id in db.communities ==> r.Ok?
      ensures r.Err? ==> r.error == if id == "" then InvalidArgument else NotFound
    {
      if id == "" { return Err(InvalidArgument); }
      var row := CachedCommunity(id, up);
      return match row case Some(c) => Ok(c) case None => Err(NotFound);
    }

    /** The ids are the ones the database generates. A failure half-way leaves the statements
        before it in place. */
    method CreateCommunity(caller: Option<User>, row: CommunityRow, id: string, channelId: string,
                           everyone: Role, nickname: string, up: nat -> bool)
      returns (r: Outcome)
      requires Valid() && id !in db.communities && channelId !in db.channels
      requires caller.Some? ==> row.ownerId == caller.value
      modifies this
      ensures Valid()
      ensures r.Ok? <==> caller.Some? && row.name != "" && up(0) && up(1) && up(2) && up(4)
      ensures r.Err? ==>
                r.error == if caller.None? then Unauthenticated else if row.name == "" then InvalidArgument else Internal
      ensures var made := caller.Some? && row.name != "" && up(0);
              && db.communities == (if made then old(db).communities[id := row] else old(db).communities)
              && db.open == (if made then old(db).open + {id} else old(db).open)
              && db.members == (if made && up(1) then old(db).members[id := [Row(caller.value, nickname)]]
                                else old(db).members)
              && db.everyone == (if made && up(1) && up(2) then old(db).everyone[id := everyone]
                                 else old(db).everyone)
              && db.channels == (if r.Ok? then old(db).channels[channelId := id] else old(db).channels)
              && db.roles == (if made && up(1) && up(2) && up(3)
                              then Assigned(old(db).roles, (id, caller.value), everyone) else old(db).roles)
    {
      if caller.None? { return Err(Unauthenticated); }
      if row.name == "" { return Err(InvalidArgument); }
      var founder := Row(caller.value, nickname);
      var founded := InsertCommunity(id, row, founder, up);
      if !founded { return Err(Internal); }
      var seeded := AddDefaults(id, founder.id, channelId, everyone, up);
      if !seeded { return Err(Internal); }
      SetKeepsRows(db, db, communityCache, id);
      communityCache := Effect(communityCache, CACHE_CAPACITY, Put(id, row));
      return Ok(());
    }

    /** The community's row, then its founder as first member. */
    method InsertCommunity(id: string, row: CommunityRow, founder: Row, up: nat -> bool) returns (ok: bool)
      requires Valid() && id !in db.communities
      modifies this`db
      ensures Valid() && (ok <==> up(0) && up(1))
      ensures db == old(db).(communities := db.communities, open := db.open, members := db.members)
      ensures db.communities == if up(0) then old(db).communities[id := row] else old(db).communities
      ensures db.open == if up(0) then old(db).open + {id} else old(db).open
      ensures db.members == if ok then old(db).members[id := [founder]] else old(db).members
    {
      if !up(0) { return false; }
      ghost var was := db;
      db := CreateCommunityRow(db, id, row);
      CreateStays(was, db, id, row, founder, communityCache, membersCache);
      if !up(1) { return false; }
      assert WithMember([], founder) == [founder];
      db := AddMember(db, id, founder);
      assert db.members == was.members[id := [founder]];
      CreateStays(was, db, id, row, founder, communityCache, membersCache);
      return true;
    }

    /** The default role, its assignment to the founder, and the first channel. */
    method AddDefaults(id: string, founder: User, channelId: string, everyone: Role, up: nat -> bool)
      returns (ok: bool)
      requires Valid() && id in db.communities && channelId !in db.channels
      modifies this`db
      ensures Valid() && (ok <==> up(2) && up(4))
      ensures db == old(db).(roles := db.roles, everyone := db.everyone, channels := db.channels)
      ensures db.everyone == if up(2) then old(db).everyone[id := everyone] else old(db).everyone
      ensures db.channels == if ok then old(db).channels[channelId := id] else old(db).channels
      ensures db.roles == if up(2) && up(3) then Assigned(old(db).roles, (id, founder), everyone) else old(db).roles
    {
      if !up(2) { return false; }
      db := db.(everyone := db.everyone[id := everyone]);
      if up(3) { db := AssignRole(db, id, founder, everyone); }
      if !up(4) { return false; }
      db := db.(channels := db.channels[channelId := id]);
      return true;
    }

    method UpdateCommunity(caller: Option<User>, id: string, name: string, description: string,
                           iconUrl: string, up: nat -> bool)
      returns (r: Outcome)
      requires Valid()
      modifies this
      ensures Valid()
      ensures r.Ok? ==> UpdateVerdict(old(db), caller, id).Ok?
      ensures AllUp(up) ==> r == UpdateVerdict(old(db), caller, id)
      ensures db == if r.Err? then old(db) else
                      old(db).(communities := old(db).communities[
                        id := CommunityRow(name, description, iconUrl, old(db).communities[id].ownerId)])
    {
      if caller.None? { return Err(Unauthenticated); }
      if id == "" { return Err(InvalidArgument); }
      r := CheckPermission(id, caller.value, ManageCommunity, up(0), up(1));
      if r.Err? { return; }
      if !up(2) { return Err(Internal); }
      ghost var was := db;
      db := db.(communities := db.communities[
        id := CommunityRow(name, description, iconUrl, db.communities[id].ownerId)]);
      DropKeepsRows(was, db, communityCache, id);
      communityCache := Effect(communityCache, CACHE_CAPACITY, Drop(id));
    }

    method DeleteCommunity(caller: Option<User>, id: string, up: nat -> bool) returns (r: Outcome)
      requires Valid()
      modifies this
      ensures Valid()
      ensures r.Ok? ==> DeleteVerdict(old(db), caller, id).Ok?
      ensures AllUp(up) ==> r == DeleteVerdict(old(db), caller, id)
      ensures db == if r.Err? then old(db) else DeleteCommunityRow(old(db), id)
      ensures r.Ok? ==> Deleted(old(db), db, id)
    {
      if caller.None? { return Err(Unauthenticated); }
      if id == "" { return Err(InvalidArgument); }
      var community := CachedCommunity(id, up(0));
      if community.None? { return Err(NotFound); }
      if community.value.ownerId != caller.value { return Err(PermissionDenied); }
      if !up(1) { return Err(Internal); }
      ghost var was := db;
      DeletedRowIsDeleted(db, id);
      db := DeleteCommunityRow(db, id);
      DropKeepsRows(was, db, communityCache, id);
      DropKeepsMembers(was, db, membersCache, id);
      communityCache := Effect(communityCache, CACHE_CAPACITY, Drop(id));
      membersCache := Effect(membersCache, CACHE_CAPACITY, Drop(id));
      return Ok(());
    }

    method JoinCommunity(caller: Option<User>, id: string, nickname: string, up: nat -> bool) returns (r: Outcome)
      requires Valid()
      modifies this
      ensures Valid()
      ensures r.Ok? ==> JoinVerdict(old(db), caller, id).Ok?
      ensures AllUp(up) ==> r == JoinVerdict(old(db), caller, id)
      ensures r.Err? ==> db == old(db)
      ensures r.Ok? ==>
                var added := AddMember(old(db), id, Row(caller.value, nickname));
                db == if up(3) && id in added.everyone && up(4)
                      then AssignRole(added, id, caller.value, added.everyone[id])
                      else added
      ensures r.Ok? ==> Joined(old(db), db, id, caller.value, nickname)
      ensures r.Ok? && up(3) && id in old(db).everyone && up(4) ==>
                exists role :: role in RolesOf(db, id, caller.value) && role.id == old(db).everyone[id].id
    {
      if caller.None? { return Err(Unauthenticated); }
      if id == "" { return Err(InvalidArgument); }
      var community := CachedCommunity(id, up(0));
      if community.None? { return Err(NotFound); }
      if !up(1) || id !in db.open { return Err(NotFound); }
      if !up(2) { return Err(Internal); }
      ghost var was := db;
      WithMemberIds(MembersOf(db, id), Row(caller.value, nickname));
      AddedIsJoined(db, id, caller.value, nickname);
      db := AddMember(db, id, Row(caller.value, nickname));
      DropKeepsMembers(was, db, membersCache, id);
      membersCache := Effect(membersCache, CACHE_CAPACITY, Drop(id));
      if up(3) && id in db.everyone && up(4) { AssignDefault(id, caller.value, was, nickname); }
      return Ok(());
    }

    method AssignDefault(id: string, user: User, ghost was: Database, ghost nickname: string)
      requires Valid() && id in db.everyone && Joined(was, db, id, user, nickname)
      modifies this`db
      ensures Valid() && db == AssignRole(old(db), id, user, old(db).everyone[id])
      ensures Joined(was, db, id, user, nickname)
      ensures exists role :: role in RolesOf(db, id, user) && role.id == old(db).everyone[id].id
    {
      ghost var added := db;
      AssignedOnly(db.roles, (id, user), db.everyone[id]);
      RoleKeepsJoined(was, db, id, user, nickname, db.everyone[id]);
      db := AssignRole(db, id, user, db.everyone[id]);
      UntouchedStaysFresh(added, db, communityCache, membersCache);
    }

    method RemoveAndInvalidate(id: string, user: User, up: bool) returns (r: Outcome)
      requires Valid()
      modifies this`db, this`membersCache
      ensures Valid()
      ensures r == if up then Ok(()) else Err(Internal)
      ensures db == if up then RemoveMember(old(db), id, user) else old(db)
      ensures up ==> Gone(old(db), db, id, user)
    {
      if !up { return Err(Internal); }
      ghost var was := db;
      if id in db.members { WithoutMemberIds(db.members[id], user); }
      RemovedIsGone(db, id, user);
      db := RemoveMember(db, id, user);
      DropKeepsMembers(was, db, membersCache, id);
      membersCache := Effect(membersCache, CACHE_CAPACITY, Drop(id));
      return Ok(());
    }

    method LeaveCommunity(caller: Option<User>, id: string, up: nat -> bool) returns (r: Outcome)
      requires Valid()
      modifies this
      ensures Valid()
      ensures r.Ok? ==> LeaveVerdict(old(db), caller, id).Ok?
      ensures AllUp(up) ==> r == LeaveVerdict(old(db), caller, id)
      ensures db == if r.Ok? then RemoveMember(old(db), id, caller.value) else old(db)
      ensures r.Ok? ==> Gone(old(db), db, id, caller.value)
    {
      if caller.None? { return Err(Unauthenticated); }
      if id == "" { return Err(InvalidArgument); }
      var community := CachedCommunity(id, up(0));
      if community.None? { return Err(NotFound); }
      if community.value.ownerId == caller.value { return Err(FailedPrecondition); }
      r := RemoveAndInvalidate(id, caller.value, up(1));
    }

    method KickMember(caller: Option<User>, id: string, target: Option<User>, up: nat -> bool) returns (r: Outcome)
      requires Valid()
      modifies this
      ensures Valid()
      ensures r.Ok? ==> KickVerdict(old(db), caller, id, target).Ok?
      ensures AllUp(up) ==> r == KickVerdict(old(db), caller, id, target)
      ensures db == if r.Ok? then RemoveMember(old(db), id, target.value) else old(db)
      ensures r.Ok? ==> Gone(old(db), db, id, target.value)
    {
      if caller.None? { return Err(Unauthenticated); }
      if id == "" || target.None? { return Err(InvalidArgument); }
      var community := CachedCommunity(id, up(0));
      if community.None? { return Err(NotFound); }
      var owner := community.value.ownerId;
      if target == caller {
        if owner == caller.value { return Err(FailedPrecondition); }
      } else {
        if owner != caller.value {
          r := CheckPermission(id, caller.value, Permissions.KickMembers, up(1), up(2));
          if r.Err? { return; }
        }
        if target.value == owner { return Err(FailedPrecondition); }
      }
      r := RemoveAndInvalidate(id, target.value, up(3));
    }
  }

  // ---------- Cached verdicts against true ones ----------

  /** `ChannelVerdict` with the whole member table instead of the cached query. */
  ghost function TrueVerdict(db: Database, caller: Option<User>, channelId: string, required: Mask,
                             complete: bool): Outcome
  {
    if caller.None? then Err(Unauthenticated)
    else if channelId == "" || !complete then Err(InvalidArgument)
    else if channelId !in db.channels then Err(NotFound)
    else if !Member(db, db.channels[channelId], caller.value) then Err(PermissionDenied)
    else PermissionVerdict(db, db.channels[channelId], caller.value, required)
  }

  /** How many listed members come before a user. */
  function Rank(rows: seq<Row>, user: User): nat {
    if rows == [] then 0 else Rank(rows[..|rows|-1], user) + (if rows[|rows|-1].id < user then 1 else 0)
  }

  lemma {:induction false} RankIsIndex(rows: seq<Row>, i: nat)
    requires Ordered(rows) && i < |rows|
    ensures Rank(rows, rows[i].id) == i
  {
    var init := rows[..|rows|-1];
    if i < |init| {
      RankIsIndex(init, i);
    } else {
      RankOfAll(init, rows[i].id);
    }
  }

  lemma {:induction false} RankOfAll(rows: seq<Row>, user: User)
    requires forall r :: r in rows ==> r.id < user
    ensures Rank(rows, user) == |rows|
  {
    if rows != [] { RankOfAll(rows[..|rows|-1], user); }
  }

  lemma {:induction false} NoCursorKeepsAll(rows: seq<Row>)
    ensures AfterCursor(rows, None) == rows
  {
    if rows != [] {
      NoCursorKeepsAll(rows[..|rows|-1]);
      assert rows == rows[..|rows|-1] + [rows[|rows|-1]];
    }
  }

  /** The cached member set is the real one, cut off after the first thousand by id. */
  lemma ListedIffRanked(db: Database, id: string, user: User)
    requires DatabaseOk(db)
    ensures Listed(db, id, user) <==> Member(db, id, user) && Rank(MembersOf(db, id), user) < CACHED_MEMBERS
  {
    var rows, query := MembersOf(db, id), CachedQuery(db, id);
    NoCursorKeepsAll(rows);
    if Member(db, id, user) {
      var i :| 0 <= i < |rows| && rows[i].id == user;
      RankIsIndex(rows, i);
      if i < CACHED_MEMBERS { assert query[i] == rows[i]; }
    }
    if Listed(db, id, user) {
      var i :| 0 <= i < |query| && query[i].id == user;
      assert rows[i] == query[i];
      RankIsIndex(rows, i);
    }
  }

  /** The cached verdict is the database's own, with one exception: a member who is allowed
      but is not among the first thousand members of the community. */
  lemma VerdictsAgree(db: Database, caller: Option<User>, channelId: string, required: Mask, complete: bool)
    requires DatabaseOk(db)
    ensures ChannelVerdict(db, caller, channelId, required, complete) ==
            TrueVerdict(db, caller, channelId, required, complete) <==>
            !(TrueVerdict(db, caller, channelId, required, complete).Ok? &&
              Rank(MembersOf(db, db.channels[channelId]), caller.value) >= CACHED_MEMBERS)
  {
    if caller.Some? && channelId in db.channels {
      ListedIffRanked(db, db.channels[channelId], caller.value);
    }
  }

  /** One community of 1001 members; the last of them, user 1000, may send messages. */
  function BigCommunity(): Database {
    var everyone := Role("everyone", Permissions.SendMessages);
    Database(map["big" := CommunityRow("big", "", "", 0)], {"big"},
             map["big" := seq(1001, i => Row(i, ""))], map[("big", 1000) := [everyone]],
             map["big" := everyone], map["general" := "big"])
  }

  lemma LateMemberIsRefused()
    ensures var db := BigCommunity();
            && DatabaseOk(db)
            && TrueVerdict(db, Some(1000), "general", Permissions.SendMessages, true) == Ok(())
            && ChannelVerdict(db, Some(1000), "general", Permissions.SendMessages, true) == Err(PermissionDenied)
  {
    var db := BigCommunity();
    var rows := MembersOf(db, "big");
    assert rows[1000].id == 1000;
    RankIsIndex(rows, 1000);
    ListedIffRanked(db, "big", 1000);
    var masks := Masks(RolesOf(db, "big", 1000));
    assert masks == [Permissions.SendMessages];
    assert 7 in masks[0] * Permissions.SendMessages;
    assert masks[0] in masks;
  }
}
