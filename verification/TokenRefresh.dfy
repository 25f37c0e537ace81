/** The client's shared token refresh against the server's token rotation
    (sdk/sdk-js/src/auth.ts, backend/services/auth-service/service.go,
    backend/pkg/jwt/jwt.go). */
module TokenRefresh {
  import opened Wrappers

  const ACCESS_TTL: int := 900
  const REFRESH_TTL: int := 604800

  /** A JWT is determined by its claims: subject, issue time in whole seconds, lifetime. */
  datatype Token = Jwt(subject: string, issuedAt: int, ttl: int)

  datatype Tokens = Tokens(access: Token, refresh: Token)

  function Generate(user: string, now: int): Tokens {
    Tokens(Jwt(user, now, ACCESS_TTL), Jwt(user, now, REFRESH_TTL))
  }

  // ---------- The server ----------

  /** The stored refresh tokens, each with its user. */
  type Sessions = map<Token, string>

  datatype Answer = Issued(tokens: Tokens) | Refused

  /** `now` is the time of a successful generation, none when generating or storing fails;
      `deleted` says whether the unchecked deletion of the old token took effect. */
  function Rotated(sessions: Sessions, old_: Token, deleted: bool, now: Option<int>): (Sessions, Answer) {
    if old_ !in sessions then (sessions, Refused)
    else
      var user := sessions[old_];
      var rest := if deleted then sessions - {old_} else sessions;
      if now.None? then (rest, Refused)
      else
        var t := Generate(user, now.value);
        (rest[t.refresh := user], Issued(t))
  }

  class AuthServer {
    var sessions: Sessions

    constructor ()
      ensures sessions == map[]
    {
      sessions := map[];
    }

    method GenerateTokenPair(user: string, now: Option<int>) returns (tokens: Option<Tokens>)
      modifies this
      ensures tokens == if now.None? then None else Some(Generate(user, now.value))
      ensures sessions == if now.None? then old(sessions) else old(sessions)[Generate(user, now.value).refresh := user]
    {
      if now.None? { return None; }
      var t := Generate(user, now.value);
      sessions := sessions[t.refresh := user];
      return Some(t);
    }

    method RefreshToken(presented: Token, deleted: bool, now: Option<int>) returns (answer: Answer)
      modifies this
      ensures (sessions, answer) == Rotated(old(sessions), presented, deleted, now)
    {
      if presented !in sessions { return Refused; }
      var user := sessions[presented];
      if deleted { sessions := sessions - {presented}; }
      var tokens := GenerateTokenPair(user, now);
      answer := match tokens case Some(t) => Issued(t) case None => Refused;
    }
  }

  // ---------- The client ----------

  /** `Stuck` is a promise that was already rejected when it was stored: it is never cleared. */
  datatype Promise = NoPromise | Pending | Stuck

  datatype Call = Sent(token: Option<Token>) | Answered(answer: Answer)

  /** Storage and promise, then the requests in flight: at most one kind of id each. A login
      request carries no token. */
  datatype Client = Client(
    access: Option<Token>,
    refresh: Option<Token>,
    promise: Promise,
    refreshes: map<nat, Call>,
    logins: map<nat, Call>,
    nextId: nat)

  function Stored(c: Client, t: Tokens): Client { c.(access := Some(t.access), refresh := Some(t.refresh)) }

  function LoggedOut(c: Client): Client { c.(access := None, refresh := None) }

  function GetToken(c: Client, expired: bool): Client {
    if c.access.None? || !expired || !c.promise.NoPromise? then c
    else if c.refresh.None? then LoggedOut(c).(promise := Stuck)
    else c.(promise := Pending, refreshes := c.refreshes[c.nextId := Sent(c.refresh)], nextId := c.nextId + 1)
  }

  function BeginLogin(c: Client): Client {
    c.(logins := c.logins[c.nextId := Sent(None)], nextId := c.nextId + 1)
  }

  function LoginDone(c: Client, id: nat, a: Answer): Client {
    var d := c.(logins := c.logins - {id});
    if a.Issued? then Stored(d, a.tokens) else d
  }

  /** Any answer that is not a success is an AuthError and logs out. */
  function RefreshDone(c: Client, id: nat, a: Answer): Client {
    var d := c.(refreshes := c.refreshes - {id}, promise := NoPromise);
    if a.Issued? then Stored(d, a.tokens) else LoggedOut(d)
  }

  datatype Verdict = Valid(token: Token) | NotLoggedIn | AwaitRefresh | Rejected

  class AuthManager {
    var access: Option<Token>
    var refreshToken: Option<Token>
    var promise: Promise
    var refreshes: map<nat, Call>
    var logins: map<nat, Call>
    var nextId: nat

    ghost function Now(): Client
      reads this
    {
      Client(access, refreshToken, promise, refreshes, logins, nextId)
    }

    constructor ()
      ensures Now() == Client(None, None, NoPromise, map[], map[], 0)
    {
      access, refreshToken, promise := None, None, NoPromise;
      refreshes, logins, nextId := map[], map[], 0;
    }

    method StoreTokens(t: Tokens)
      modifies this
      ensures Now() == Stored(old(Now()), t)
    {
      access := Some(t.access);
      refreshToken := Some(t.refresh);
    }

    method Logout()
      modifies this
      ensures Now() == LoggedOut(old(Now()))
    {
      access := None;
      refreshToken := None;
    }

    /** `expired` also covers a token that cannot be decoded. */
    method GetValidToken(expired: bool) returns (v: Verdict)
      modifies this
      ensures Now() == GetToken(old(Now()), expired)
      ensures v.Valid? <==> old(access).Some? && !expired && v == Valid(old(access).value)
      ensures v.NotLoggedIn? <==> old(access).None?
    {
      if access.None? { return NotLoggedIn; }
      if !expired { return Valid(access.value); }
      v := Refresh();
    }

    method Refresh() returns (v: Verdict)
      requires access.Some?
      modifies this
      ensures Now() == GetToken(old(Now()), true)
      ensures v == if promise == Pending then AwaitRefresh else Rejected
    {
      if promise == Pending { return AwaitRefresh; }
      if promise == Stuck { return Rejected; }
      if refreshToken.None? {
        Logout();
        promise := Stuck;
        return Rejected;
      }
      refreshes, nextId := refreshes[nextId := Sent(refreshToken)], nextId + 1;
      promise := Pending;
      return AwaitRefresh;
    }

    method Login()
      modifies this
      ensures Now() == BeginLogin(old(Now()))
    {
      logins, nextId := logins[nextId := Sent(None)], nextId + 1;
    }

    method OnLoginAnswer(id: nat, answer: Answer)
      requires id in logins
      modifies this
      ensures Now() == LoginDone(old(Now()), id, answer)
    {
      logins := logins - {id};
      if answer.Issued? { StoreTokens(answer.tokens); }
    }

    method OnRefreshAnswer(id: nat, answer: Answer)
      requires id in refreshes
      modifies this
      ensures Now() == RefreshDone(old(Now()), id, answer)
    {
      refreshes := refreshes - {id};
      if answer.Issued? { StoreTokens(answer.tokens); } else { Logout(); }
      promise := NoPromise;
    }

    /** A NetworkError keeps the stored tokens. */
    method OnRefreshNetworkError(id: nat)
      requires id in refreshes
      modifies this
      ensures Now() == old(Now()).(refreshes := old(refreshes) - {id}, promise := NoPromise)
    {
      refreshes := refreshes - {id};
      promise := NoPromise;
    }
  }

  // ---------- Both together ----------

  datatype State = State(client: Client, sessions: Sessions)

  datatype Event =
    | Ask(expired: bool)
    | Login
    | Logout
    | ServeLogin(id: nat, user: string, now: Option<int>)  // none: refused
    | ServeRefresh(id: nat, deleted: bool, now: Option<int>)
    | LoginAnswer(id: nat)
    | RefreshAnswer(id: nat)
    | LoginLost(id: nat)
    | RefreshLost(id: nat)

  ghost predicate Possible(s: State, e: Event) {
    var c := s.client;
    match e
    case ServeLogin(id, _, _) => id in c.logins && c.logins[id].Sent?
    case ServeRefresh(id, _, _) => id in c.refreshes && c.refreshes[id].Sent? && c.refreshes[id].token.Some?
    case LoginAnswer(id) => id in c.logins && c.logins[id].Answered?
    case RefreshAnswer(id) => id in c.refreshes && c.refreshes[id].Answered?
    case LoginLost(id) => id in c.logins
    case RefreshLost(id) => id in c.refreshes
    case _ => true
  }

  function Step(s: State, e: Event): State
    requires Possible(s, e)
  {
    var c := s.client;
    match e
    case Ask(expired) => s.(client := GetToken(c, expired))
    case Login => s.(client := BeginLogin(c))
    case Logout => s.(client := LoggedOut(c))
    case ServeLogin(id, user, now) =>
      if now.None? then s.(client := c.(logins := c.logins[id := Answered(Refused)]))
      else
        var t := Generate(user, now.value);
        State(c.(logins := c.logins[id := Answered(Issued(t))]), s.sessions[t.refresh := user])
    case ServeRefresh(id, deleted, now) =>
      var (sessions, answer) := Rotated(s.sessions, c.refreshes[id].token.value, deleted, now);
      State(c.(refreshes := c.refreshes[id := Answered(answer)]), sessions)
    case LoginAnswer(id) => s.(client := LoginDone(c, id, c.logins[id].answer))
    case RefreshAnswer(id) => s.(client := RefreshDone(c, id, c.refreshes[id].answer))
    case LoginLost(id) => s.(client := c.(logins := c.logins - {id}))
    case RefreshLost(id) => s.(client := c.(refreshes := c.refreshes - {id}, promise := NoPromise))
  }

  function Carried(call: Call): set<Token> {
    if call.Answered? && call.answer.Issued? then {call.answer.tokens.refresh} else {}
  }

  /** The refresh tokens in login answers on their way to the client. */
  function InLogins(c: Client): set<Token> { set id, t | id in c.logins && t in Carried(c.logins[id]) :: t }

  ghost predicate AnswerPending(c: Client) { exists id :: id in c.refreshes && c.refreshes[id].Answered? }

  /** The refresh tokens the client has presented, is about to get from a refresh, or holds;
      what it holds does not matter once the answer that will replace or remove it is there. */
  ghost function InUse(c: Client): set<Token> {
    (if c.refresh.Some? && !AnswerPending(c) then {c.refresh.value} else {}) +
    (set id, t | id in c.refreshes && t in Carried(c.refreshes[id]) :: t) +
    (set id | id in c.refreshes && c.refreshes[id].Sent? && c.refreshes[id].token.Some? :: c.refreshes[id].token.value)
  }

  /** The client would be well off if its refresh were forgotten. */
  ghost predicate HoldsGood(s: State) {
    s.client.refresh.Some? ==> s.client.refresh.value in s.sessions && s.client.refresh.value !in InLogins(s.client)
  }

  /** What is asked of the environment. A token issued by a login is not one already on its
      way in a login answer or in use, and one issued by a refresh is not on its way in a
      login answer: within one second a user would get the same token twice. And a refresh
      that was answered is only lost when the client holds another good token by then. */
  ghost predicate Guarded(s: State, e: Event) {
    && Possible(s, e)
    && match e
       case ServeLogin(_, user, now) =>
         now.Some? ==> Generate(user, now.value).refresh !in InLogins(s.client) + InUse(s.client)
       case ServeRefresh(id, _, now) =>
         now.Some? && s.client.refreshes[id].token.value in s.sessions ==>
           Generate(s.sessions[s.client.refreshes[id].token.value], now.value).refresh !in InLogins(s.client)
       case RefreshLost(id) => s.client.refreshes[id].Answered? ==> HoldsGood(s)
       case _ => true
  }

  ghost predicate StorageOk(c: Client) { c.access.Some? <==> c.refresh.Some? }

  ghost predicate PromiseOk(c: Client) {
    && (c.promise.Pending? <==> c.refreshes != map[]) && !c.promise.Stuck?
    && (forall i, j :: i in c.refreshes && j in c.refreshes ==> i == j)
  }

  ghost predicate StoredValid(s: State) { s.client.refresh.Some? ==> s.client.refresh.value in s.sessions }

  /** What holds whatever the tokens are. */
  ghost predicate Shaped(c: Client) {
    && StorageOk(c) && PromiseOk(c)
    && (forall id :: id in c.refreshes || id in c.logins ==> id < c.nextId)
    && (forall id :: id in c.refreshes && c.refreshes[id].Sent? ==> c.refreshes[id].token.Some?)
  }

  ghost predicate Inv(s: State) {
    var c := s.client;
    && Shaped(c)
    && InLogins(c) !! InUse(c) && InLogins(c) <= s.sessions.Keys
    && (forall i, j :: i in c.logins && j in c.logins && i != j ==> Carried(c.logins[i]) !! Carried(c.logins[j]))
    && (forall id :: id in c.refreshes ==> Carried(c.refreshes[id]) <= s.sessions.Keys)
    && (!AnswerPending(c) ==> StoredValid(s))
  }

  lemma ShapeKeeps(s: State, e: Event)
    requires Shaped(s.client) && Possible(s, e)
    ensures Shaped(Step(s, e).client)
  {
    var c, r := s.client, Step(s, e).client;
    match e
    case Ask(_) => assert c.nextId in c.refreshes[c.nextId := Sent(c.refresh)];
    case ServeRefresh(id, _, _) => assert id in r.refreshes;
    case RefreshAnswer(id) => assert r.refreshes == map[];
    case RefreshLost(id) => assert r.refreshes == map[];
    case _ =>
  }

  lemma RefreshKeeps(s: State, e: Event)
    requires Inv(s) && Guarded(s, e) && (e.RefreshAnswer? || e.RefreshLost?)
    ensures Inv(Step(s, e))
  {
    var c, r := s.client, Step(s, e);
    assert r.client.refreshes == map[];
    if e.RefreshAnswer? && c.refreshes[e.id].answer.Issued? {
      assert c.refreshes[e.id].answer.tokens.refresh in Carried(c.refreshes[e.id]);
    }
  }

  lemma ServeLoginKeeps(s: State, e: Event)
    requires Inv(s) && Guarded(s, e) && e.ServeLogin?
    ensures Inv(Step(s, e))
  {
    ShapeKeeps(s, e);
    ServeLoginCarries(s, e);
  }

  lemma ServeLoginCarries(s: State, e: Event)
    requires Possible(s, e) && e.ServeLogin?
    ensures var c, r := s.client, Step(s, e).client;
            && Carried(r.logins[e.id]) == (if e.now.Some? then {Generate(e.user, e.now.value).refresh} else {})
            && InLogins(r) == InLogins(c) + Carried(r.logins[e.id])
            && InUse(r) == InUse(c)
  {
    var c, r := s.client, Step(s, e).client;
    forall t | t in InLogins(c) ensures t in InLogins(r) {
      var id :| id in c.logins && t in Carried(c.logins[id]);
      assert r.logins[id] == c.logins[id];
    }
    forall t | t in InLogins(r) && t !in Carried(r.logins[e.id]) ensures t in InLogins(c) {
      var id :| id in r.logins && t in Carried(r.logins[id]);
      assert r.logins[id] == c.logins[id];
    }
  }

  lemma ServeRefreshKeeps(s: State, e: Event)
    requires Inv(s) && Guarded(s, e) && e.ServeRefresh?
    ensures Inv(Step(s, e))
  {
    ShapeKeeps(s, e);
    assert Step(s, e).client.refreshes[e.id].Answered?;
  }

  lemma LoginKeeps(s: State, e: Event)
    requires Inv(s) && Guarded(s, e) && (e.LoginLost? || e.Login?)
    ensures Inv(Step(s, e))
  {
    ShapeKeeps(s, e);
  }

  lemma LoginAnswerKeeps(s: State, e: Event)
    requires Inv(s) && Guarded(s, e) && e.LoginAnswer?
    ensures Inv(Step(s, e))
  {
    ShapeKeeps(s, e);
    if s.client.logins[e.id].answer.Issued? {
      var t := s.client.logins[e.id].answer.tokens.refresh;
      assert t in Carried(s.client.logins[e.id]) && t in InLogins(s.client);
    }
  }

  lemma StepKeeps(s: State, e: Event)
    requires Inv(s) && Guarded(s, e)
    ensures Inv(Step(s, e))
  {
    match e
    case Ask(_) => assert s.client.nextId in s.client.refreshes[s.client.nextId := Sent(s.client.refresh)];
    case Logout =>
    case ServeLogin(_, _, _) => ServeLoginKeeps(s, e);
    case ServeRefresh(_, _, _) => ServeRefreshKeeps(s, e);
    case RefreshAnswer(_) => RefreshKeeps(s, e);
    case RefreshLost(_) => RefreshKeeps(s, e);
    case LoginAnswer(_) => LoginAnswerKeeps(s, e);
    case _ => LoginKeeps(s, e);
  }

  ghost predicate Run(ss: seq<State>, es: seq<Event>) {
    && |ss| == |es| + 1
    && forall i :: 0 <= i < |es| ==> Guarded(ss[i], es[i]) && ss[i+1] == Step(ss[i], es[i])
  }

  const Start: State := State(Client(None, None, NoPromise, map[], map[], 0), map[])

  /** Over every run: both tokens are stored or neither is, no rejected promise is ever kept,
      a promise is set exactly while one request is in flight, and whenever none is, the
      stored refresh token is one the server accepts. */
  lemma {:induction false} RefreshStaysConsistent(ss: seq<State>, es: seq<Event>, n: nat)
    requires Run(ss, es) && ss[0] == Start && n <= |es|
    ensures Inv(ss[n])
    ensures var c := ss[n].client;
            && (c.access.Some? <==> c.refresh.Some?)
            && !c.promise.Stuck? && (c.promise.Pending? <==> |c.refreshes| == 1) && |c.refreshes| <= 1
            && (c.refreshes == map[] && c.refresh.Some? ==> c.refresh.value in ss[n].sessions)
  {
    if n > 0 {
      RefreshStaysConsistent(ss, es, n - 1);
      StepKeeps(ss[n-1], es[n-1]);
    }
    AtMostOne(ss[n].client.refreshes);
  }

  lemma AtMostOne(m: map<nat, Call>)
    requires forall i, j :: i in m && j in m ==> i == j
    ensures |m| == if m == map[] then 0 else 1
  {
    if m != map[] {
      var i :| i in m;
      assert m == map[i := m[i]];
    }
  }

  /** Half a stored pair is exactly what would leave a rejected promise behind. */
  lemma StuckNeedsHalfAPair(c: Client, expired: bool)
    requires c.promise.NoPromise?
    ensures GetToken(c, expired).promise.Stuck? <==> expired && c.access.Some? && c.refresh.None?
  {
  }

  // ---------- What each exchange does ----------

  /** A rotation refuses unknown tokens and leaves the store alone; a known token goes, unless
      its deletion failed, and its user gets an access token for 15 minutes and a refresh token
      for 7 days, the latter stored for that user. */
  lemma RotationIs(sessions: Sessions, token: Token, deleted: bool, now: Option<int>)
    ensures var r := Rotated(sessions, token, deleted, now);
            && (token !in sessions ==> r == (sessions, Refused))
            && (token in sessions && now.None? ==>
                  r.1 == Refused && r.0 == if deleted then sessions - {token} else sessions)
            && (token in sessions && now.Some? ==>
                  var user := sessions[token];
                  var fresh_ := Jwt(user, now.value, 604800);
                  && r.1 == Issued(Tokens(Jwt(user, now.value, 900), fresh_))
                  && (forall t :: t in r.0 <==> t == fresh_ || (t in sessions && (t != token || !deleted)))
                  && (forall t :: t in r.0 ==> r.0[t] == if t == fresh_ then user else sessions[t]))
  {
  }

  /** What the client keeps: a good token is returned without any request, a login that fails
      leaves the stored tokens alone, one that succeeds replaces both, and a refresh answer
      replaces both or removes both. */
  lemma ClientKeeps(c: Client, id: nat, a: Answer, expired: bool)
    ensures !expired || c.access.None? ==> GetToken(c, expired) == c
    ensures expired && c.access.Some? && c.promise.NoPromise? && c.refresh.Some? ==>
              GetToken(c, expired) ==
                c.(promise := Pending, refreshes := c.refreshes[c.nextId := Sent(c.refresh)], nextId := c.nextId + 1)
    ensures expired && c.promise.Pending? ==> GetToken(c, expired) == c
    ensures var r := LoginDone(c, id, a);
            && r.access == (if a.Issued? then Some(a.tokens.access) else c.access)
            && r.refresh == (if a.Issued? then Some(a.tokens.refresh) else c.refresh)
            && r.promise == c.promise && r.refreshes == c.refreshes && r.logins == c.logins - {id}
    ensures var r := RefreshDone(c, id, a);
            && r.access == (if a.Issued? then Some(a.tokens.access) else None)
            && r.refresh == (if a.Issued? then Some(a.tokens.refresh) else None)
            && r.promise.NoPromise? && r.refreshes == c.refreshes - {id} && r.logins == c.logins
    ensures LoggedOut(c) == c.(access := None, refresh := None)
    ensures BeginLogin(c) == c.(logins := c.logins[c.nextId := Sent(None)], nextId := c.nextId + 1)
  {
  }

  // ---------- Where the stored tokens come from ----------

  /** The tokens an event issues, for 15 minutes and for 7 days: to the user who logs in, or to
      the subject of the refresh token presented. */
  ghost function IssuedBy(s: State, e: Event): set<Tokens>
    requires Possible(s, e)
  {
    match e
    case ServeLogin(_, user, now) =>
      if now.Some? then {Tokens(Jwt(user, now.value, 900), Jwt(user, now.value, 604800))} else {}
    case ServeRefresh(id, _, now) =>
      var token := s.client.refreshes[id].token.value;
      if now.Some? && token in s.sessions
      then {Tokens(Jwt(token.subject, now.value, 900), Jwt(token.subject, now.value, 604800))}
      else {}
    case _ => {}
  }

  ghost predicate Genuine(issued: set<Tokens>, call: Call) {
    call.Answered? && call.answer.Issued? ==> call.answer.tokens in issued
  }

  /** The stored pair and every pair on its way is one of those issued, and every refresh token
      is stored for its subject. */
  ghost predicate Origins(issued: set<Tokens>, s: State) {
    && (s.client.access.Some? <==> s.client.refresh.Some?)
    && (s.client.access.Some? ==> Tokens(s.client.access.value, s.client.refresh.value) in issued)
    && (forall id :: id in s.client.logins ==> Genuine(issued, s.client.logins[id]))
    && (forall id :: id in s.client.refreshes ==> Genuine(issued, s.client.refreshes[id]))
    && (forall t :: t in s.sessions ==> s.sessions[t] == t.subject)
  }

  lemma OriginsStep(issued: set<Tokens>, s: State, e: Event)
    requires Origins(issued, s) && Shaped(s.client) && Possible(s, e)
    ensures Origins(issued + IssuedBy(s, e), Step(s, e))
  {
    if e.LoginAnswer? {
      assert Genuine(issued, s.client.logins[e.id]);
    } else if e.RefreshAnswer? {
      assert Genuine(issued, s.client.refreshes[e.id]);
    }
  }

  /** The tokens issued in the first `n` events of a run. */
  ghost function IssuedIn(ss: seq<State>, es: seq<Event>, n: nat): set<Tokens>
    requires Run(ss, es) && n <= |es|
  {
    if n == 0 then {} else IssuedIn(ss, es, n - 1) + IssuedBy(ss[n-1], es[n-1])
  }

  lemma {:induction false} ShapeRuns(ss: seq<State>, es: seq<Event>, n: nat)
    requires Run(ss, es) && ss[0] == Start && n <= |es|
    ensures Shaped(ss[n].client)
  {
    if n > 0 {
      ShapeRuns(ss, es, n - 1);
      ShapeKeeps(ss[n-1], es[n-1]);
    }
  }

  /** Over every run, the two stored tokens are those of one answer: issued together by a
      login, or by a refresh to the subject of the token it presented. */
  lemma {:induction false} StoredTokensWereIssued(ss: seq<State>, es: seq<Event>, n: nat)
    requires Run(ss, es) && ss[0] == Start && n <= |es|
    ensures Origins(IssuedIn(ss, es, n), ss[n])
  {
    if n > 0 {
      StoredTokensWereIssued(ss, es, n - 1);
      ShapeRuns(ss, es, n - 1);
      OriginsStep(IssuedIn(ss, es, n - 1), ss[n-1], es[n-1]);
      assert ss[n] == Step(ss[n-1], es[n-1]);
    }
  }

  // ---------- The guard is exact ----------

  /** Nothing is in flight and the server rejects the token stored. */
  ghost predicate Stale(s: State) { s.client.refreshes == map[] && !StoredValid(s) }

  /** Some guarded run leads from here to a stale state. */
  ghost predicate CanGoStale(s: State) {
    exists ss, es :: Run(ss, es) && ss[0] == s && Stale(ss[|es|])
  }

  lemma {:induction false} InvRuns(ss: seq<State>, es: seq<Event>, n: nat)
    requires Run(ss, es) && Inv(ss[0]) && n <= |es|
    ensures Inv(ss[n])
  {
    if n > 0 {
      InvRuns(ss, es, n - 1);
      StepKeeps(ss[n-1], es[n-1]);
    }
  }

  lemma InvNeverStale(s: State)
    requires Inv(s)
    ensures !CanGoStale(s)
  {
    forall ss, es | Run(ss, es) && ss[0] == s ensures !Stale(ss[|es|]) {
      InvRuns(ss, es, |es|);
    }
  }

  lemma StaleAlready(s: State)
    requires Stale(s)
    ensures CanGoStale(s)
  {
    var ss: seq<State>, es: seq<Event> := [s], [];
    assert Run(ss, es) && ss[0] == s && Stale(ss[|es|]);
  }

  lemma GoesStale(s: State, e: Event)
    requires Guarded(s, e) && CanGoStale(Step(s, e))
    ensures CanGoStale(s)
  {
    var ss, es :| Run(ss, es) && ss[0] == Step(s, e) && Stale(ss[|es|]);
    RunCons(s, e, ss, es);
    assert ([s] + ss)[|[e] + es|] == ss[|es|];
  }

  lemma RunCons(s: State, e: Event, ss: seq<State>, es: seq<Event>)
    requires Guarded(s, e) && Run(ss, es) && ss[0] == Step(s, e)
    ensures Run([s] + ss, [e] + es)
  {
    var ss', es' := [s] + ss, [e] + es;
    forall i | 0 <= i < |es'| ensures Guarded(ss'[i], es'[i]) && ss'[i+1] == Step(ss'[i], es'[i]) {
      if i > 0 {
        assert ss'[i] == ss[i-1] && es'[i] == es[i-1] && ss'[i+1] == ss[i];
        assert Guarded(ss[i-1], es[i-1]);
      }
    }
  }

  /** The refresh in flight, if any, lost or answered. */
  ghost function Quiet(s: State): State
    requires Shaped(s.client)
  {
    if s.client.refreshes == map[] then s
    else
      var id :| id in s.client.refreshes;
      if s.client.refreshes[id].Sent? then Step(s, RefreshLost(id)) else Step(s, RefreshAnswer(id))
  }

  lemma QuietIsReached(s: State)
    requires Shaped(s.client)
    ensures var q := Quiet(s);
            && Shaped(q.client) && q.client.refreshes == map[]
            && q.client.logins == s.client.logins && q.sessions == s.sessions
            && (!AnswerPending(s.client) ==> q.client.refresh == s.client.refresh)
            && (CanGoStale(q) ==> CanGoStale(s))
  {
    if s.client.refreshes != map[] {
      var id :| id in s.client.refreshes && Quiet(s) ==
        if s.client.refreshes[id].Sent? then Step(s, RefreshLost(id)) else Step(s, RefreshAnswer(id));
      var e := if s.client.refreshes[id].Sent? then RefreshLost(id) else RefreshAnswer(id);
      ShapeKeeps(s, e);
      assert Quiet(s).client.refreshes == map[];
      if CanGoStale(Quiet(s)) { GoesStale(s, e); }
    }
  }

  ghost predicate Carries(c: Client, id: nat, t: Token) { id in c.logins && t in Carried(c.logins[id]) }

  lemma Carrier(c: Client, t: Token) returns (id: nat)
    requires t in InLogins(c)
    ensures Carries(c, id, t)
  {
    id :| id in c.logins && t in Carried(c.logins[id]);
  }

  /** A login answer with a token that the server rejects. */
  lemma RejectedLoginGoesStale(s: State, id: nat, t: Token)
    requires Shaped(s.client) && Carries(s.client, id, t) && t !in s.sessions
    ensures CanGoStale(s)
  {
    var q := Quiet(s);
    QuietIsReached(s);
    StaleAlready(Step(q, LoginAnswer(id)));
    GoesStale(q, LoginAnswer(id));
  }

  lemma {:induction false} SomeLaterSecond(ts: set<Token>) returns (now: int)
    ensures forall t :: t in ts ==> t.issuedAt < now
  {
    now := 0;
    var rest := ts;
    while rest != {}
      invariant rest <= ts && forall t :: t in ts - rest ==> t.issuedAt < now
      decreases rest
    {
      var t :| t in rest;
      if t.issuedAt >= now { now := t.issuedAt + 1; }
      rest := rest - {t};
    }
  }

  /** A refresh in flight with a token that a login answer also carries. */
  lemma RepeatedInRefreshGoesStale(s: State, call: nat, id: nat, t: Token)
    requires Shaped(s.client) && Carries(s.client, id, t)
    requires call in s.client.refreshes && s.client.refreshes[call] == Sent(Some(t))
    ensures CanGoStale(s)
  {
    if t !in s.sessions {
      RejectedLoginGoesStale(s, id, t);
    } else {
      var now := SomeLaterSecond(InLogins(s.client));
      var e := ServeRefresh(call, true, Some(now));
      assert t in InLogins(s.client);
      ShapeKeeps(s, e);
      RejectedLoginGoesStale(Step(s, e), id, t);
      GoesStale(s, e);
    }
  }

  /** A stored token that a login answer also carries, with nothing in flight. */
  lemma RepeatedInStorageGoesStale(s: State, id: nat, t: Token)
    requires Shaped(s.client) && s.client.refreshes == map[]
    requires Carries(s.client, id, t) && s.client.refresh == Some(t)
    ensures CanGoStale(s)
  {
    var e := Ask(true);
    ShapeKeeps(s, e);
    RepeatedInRefreshGoesStale(Step(s, e), s.client.nextId, id, t);
    GoesStale(s, e);
  }

  /** The same token in two login answers. */
  lemma RepeatedInLoginsGoesStale(s: State, i: nat, j: nat, t: Token)
    requires Shaped(s.client) && Carries(s.client, i, t) && Carries(s.client, j, t) && i != j
    ensures CanGoStale(s)
  {
    var q := Quiet(s);
    QuietIsReached(s);
    var e := LoginAnswer(i);
    ShapeKeeps(q, e);
    RepeatedInStorageGoesStale(Step(q, e), j, t);
    GoesStale(q, e);
  }

  /** The token of a refresh answer on its way, rejected or also in a login answer. */
  lemma AnswerGoesStale(s: State, call: nat, t: Token)
    requires Shaped(s.client) && call in s.client.refreshes && t in Carried(s.client.refreshes[call])
    requires t in InLogins(s.client) || t !in s.sessions
    ensures CanGoStale(s)
  {
    var e := RefreshAnswer(call);
    ShapeKeeps(s, e);
    assert Step(s, e).client.refreshes == map[];
    if t in InLogins(s.client) {
      var id := Carrier(s.client, t);
      RepeatedInStorageGoesStale(Step(s, e), id, t);
    } else {
      StaleAlready(Step(s, e));
    }
    GoesStale(s, e);
  }

  lemma HeldGoesStale(s: State)
    requires Shaped(s.client) && !AnswerPending(s.client) && !HoldsGood(s)
    ensures CanGoStale(s)
  {
    var q, t := Quiet(s), s.client.refresh.value;
    QuietIsReached(s);
    if t in s.sessions {
      var id := Carrier(s.client, t);
      RepeatedInStorageGoesStale(q, id, t);
    } else {
      StaleAlready(q);
    }
  }

  lemma BrokenInvGoesStale(s: State)
    requires Shaped(s.client) && !Inv(s)
    ensures CanGoStale(s)
  {
    var c := s.client;
    if t :| t in InLogins(c) && t !in s.sessions {
      var id := Carrier(c, t);
      RejectedLoginGoesStale(s, id, t);
    } else if i, j :| i in c.logins && j in c.logins && i != j && !(Carried(c.logins[i]) !! Carried(c.logins[j])) {
      var t :| t in Carried(c.logins[i]) && t in Carried(c.logins[j]);
      RepeatedInLoginsGoesStale(s, i, j, t);
    } else if call, t :| call in c.refreshes && t in Carried(c.refreshes[call]) && (t !in s.sessions || t in InLogins(c)) {
      AnswerGoesStale(s, call, t);
    } else if !AnswerPending(c) && !HoldsGood(s) {
      HeldGoesStale(s);
    } else {
      var t :| t in InLogins(c) && t in InUse(c);
      var id := Carrier(c, t);
      var call :| call in c.refreshes && c.refreshes[call] == Sent(Some(t));
      RepeatedInRefreshGoesStale(s, call, id, t);
    }
  }

  /** The invariant is the weakest possible: it fails exactly where some guarded run goes
      stale. */
  lemma InvIffNeverStale(s: State)
    requires Shaped(s.client)
    ensures Inv(s) <==> !CanGoStale(s)
  {
    if Inv(s) { InvNeverStale(s); } else { BrokenInvGoesStale(s); }
  }

  lemma UnguardedBreaksInv(s: State, e: Event)
    requires Inv(s) && Possible(s, e) && !Guarded(s, e)
    ensures !Inv(Step(s, e))
  {
    var c, r := s.client, Step(s, e);
    match e
    case ServeLogin(id, user, now) =>
      var t := Generate(user, now.value).refresh;
      assert Carries(r.client, id, t);
      assert t in InLogins(r.client);
      if t in InLogins(c) {
        var other := Carrier(c, t);
        assert Carries(r.client, other, t);
      } else {
        assert t in InUse(r.client);
      }
    case ServeRefresh(id, _, now) =>
      var t := Generate(s.sessions[c.refreshes[id].token.value], now.value).refresh;
      assert t in Carried(r.client.refreshes[id]);
      assert t in InUse(r.client);
    case RefreshLost(id) =>
      assert r.client.refreshes == map[];
    case _ =>
  }

  /** Clause by clause the guard forbids exactly what can go wrong: an event is guarded if and
      only if no guarded run after it ends with a stored token that the server rejects. */
  lemma GuardIsExact(s: State, e: Event)
    requires Inv(s) && Possible(s, e)
    ensures Guarded(s, e) <==> !CanGoStale(Step(s, e))
  {
    ShapeKeeps(s, e);
    InvIffNeverStale(Step(s, e));
    if Guarded(s, e) { StepKeeps(s, e); } else { UnguardedBreaksInv(s, e); }
  }

  // ---------- Two ways to go stale ----------

  /** A login answer that carries the token already stored, as two logins within one second
      produce, ends with a stored token the server rejects and nothing in flight. */
  lemma RepeatedTokenIsStale(s: State, id: nat, now: int)
    requires s.client.promise.NoPromise? && s.client.refreshes == map[] && StorageOk(s.client)
    requires id in s.client.logins && s.client.logins[id].Answered? && s.client.logins[id].answer.Issued?
    requires s.client.refresh == Some(s.client.logins[id].answer.tokens.refresh)
    requires s.client.refresh.value in s.sessions && s.client.nextId != id
    requires Generate(s.sessions[s.client.refresh.value], now).refresh != s.client.refresh.value
    ensures var call := s.client.nextId;
            var s1 := Step(s, Ask(true));
            && Possible(s1, ServeRefresh(call, true, Some(now)))
            && var s2 := Step(s1, ServeRefresh(call, true, Some(now)));
            && Possible(s2, RefreshAnswer(call))
            && var s3 := Step(s2, RefreshAnswer(call));
            && Possible(s3, LoginAnswer(id))
            && var s4 := Step(s3, LoginAnswer(id));
            && s4.client.refreshes == map[] && !StoredValid(s4)
  {
    var call := s.client.nextId;
    var s2 := Step(Step(s, Ask(true)), ServeRefresh(call, true, Some(now)));
    assert s2.client.refreshes.Keys == {call};
    assert Step(s2, RefreshAnswer(call)).client.refreshes == map[];
  }

  /** Two logins in the same second lead there. */
  lemma RepeatedTokenIsReachable(user: string, now: int)
    ensures var s1 := Step(Step(Start, Login), Login);
            var s2 := Step(s1, ServeLogin(0, user, Some(now)));
            var s3 := Step(s2, ServeLogin(1, user, Some(now)));
            var s := Step(s3, LoginAnswer(0));
            && Guarded(s1, ServeLogin(0, user, Some(now))) && !Guarded(s2, ServeLogin(1, user, Some(now)))
            && s.client.refresh == Some(s.client.logins[1].answer.tokens.refresh)
            && s.client.promise.NoPromise? && s.client.refreshes == map[] && s.client.refresh.value in s.sessions
  {
    var s1 := Step(Step(Start, Login), Login);
    var s2 := Step(s1, ServeLogin(0, user, Some(now)));
    var t := Generate(user, now).refresh;
    assert t in Carried(s2.client.logins[0]) && t in InLogins(s2.client);
  }

  /** When the answer to a rotation that found its token is lost, the token the client still
      holds is good exactly if the deletion failed or the very same token was issued again;
      otherwise the session can no longer be trusted. */
  lemma LostAnswer(s: State, id: nat, deleted: bool, now: Option<int>)
    requires Inv(s) && id in s.client.refreshes && s.client.refreshes[id] == Sent(s.client.refresh)
    requires s.client.refresh.Some?
    ensures var token, serve := s.client.refresh.value, ServeRefresh(id, deleted, now);
            var end := Step(Step(s, serve), RefreshLost(id));
            var kept := !deleted || (now.Some? && Generate(s.sessions[token], now.value).refresh == token);
            && (StoredValid(end) <==> kept)
            && (Guarded(s, serve) ==> (CanGoStale(end) <==> !kept))
  {
    var serve := ServeRefresh(id, deleted, now);
    var mid := Step(s, serve);
    assert s.client.refresh.value in InUse(s.client);
    assert InLogins(mid.client) == InLogins(s.client);
    if Guarded(s, serve) {
      ServeRefreshKeeps(s, serve);
      GuardIsExact(mid, RefreshLost(id));
    }
  }
}
