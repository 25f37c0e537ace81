/** The WebSocket connection manager (sdk/sdk-js/src/ws-manager.ts) together with what it
    waits for: token requests, sockets and timers. */
module WsManager {
  import opened Wrappers

  datatype Status = Disconnected | Connecting | Connected | Reconnecting

  type Id = nat

  /** The manager's fields, then what is outstanding around it: token requests, sockets still
      in their handshake, open ones, ones told to close whose close event has not fired yet,
      and timers. `timer` is the one timer the manager remembers. */
  datatype State = State(
    status: Status,
    ws: Option<Id>,
    heartbeat: bool,
    timer: Option<Id>,
    attempt: nat,
    intentionalClose: bool,
    pendingReconnect: bool,
    tokens: nat,
    shaking: set<Id>,
    open: set<Id>,
    closing: set<Id>,
    timers: set<Id>,
    nextId: Id)

  const Start: State :=
    State(Disconnected, None, false, None, 0, false, false, 0, {}, {}, {}, {}, 0)

  datatype Event =
    | Connect
    | Disconnect
    | TokenOk
    | TokenFailed        // a NetworkError: rethrown as it is
    | TokenRefused       // an AuthError: the client's wrapper disconnects and rethrows
    | Opened(w: Id)
    | Closed(w: Id)
    | TimerFired(t: Id)

  // ---------- The transitions ----------

  function DoConnect(s: State): State { s.(status := Connecting, tokens := s.tokens + 1) }

  function ScheduleReconnect(s: State): State {
    if s.intentionalClose then s
    else s.(status := Reconnecting, timer := Some(s.nextId), timers := s.timers + {s.nextId},
            attempt := s.attempt + 1, nextId := s.nextId + 1)
  }

  function RetryNow(s: State): State { DoConnect(s.(pendingReconnect := false, attempt := 0)) }

  function ClearTimer(s: State): State {
    match s.timer
    case Some(t) => s.(timer := None, timers := s.timers - {t})
    case None => s
  }

  function Shut(s: State): State {
    var c := ClearTimer(s.(intentionalClose := true, pendingReconnect := false, heartbeat := false));
    var d := match c.ws
             case Some(w) => c.(ws := None, open := c.open - {w}, closing := c.closing + {w})
             case None => c;
    d.(status := Disconnected)
  }

  function Step(s: State, e: Event): State
    requires Possible(s, e)
  {
    match e
    case Connect =>
      var c := s.(intentionalClose := false);
      if s.status.Connected? then c
      else if s.status.Connecting? then c.(pendingReconnect := true)
      else if s.status.Reconnecting? then DoConnect(ClearTimer(c).(attempt := 0))
      else DoConnect(c)
    case Disconnect => Shut(s)
    case TokenOk => s.(tokens := s.tokens - 1, shaking := s.shaking + {s.nextId}, nextId := s.nextId + 1)
    case TokenFailed =>
      var c := s.(tokens := s.tokens - 1);
      if s.pendingReconnect && !s.intentionalClose then RetryNow(c) else ScheduleReconnect(c)
    case TokenRefused => ScheduleReconnect(Shut(s.(tokens := s.tokens - 1)))
    case Opened(w) =>
      s.(shaking := s.shaking - {w}, open := s.open + {w}, ws := Some(w), status := Connected,
         attempt := 0, pendingReconnect := false, heartbeat := true)
    case Closed(w) =>
      var c := s.(heartbeat := false, ws := if s.ws == Some(w) then None else s.ws,
                  shaking := s.shaking - {w}, open := s.open - {w}, closing := s.closing - {w});
      if s.intentionalClose then c
      else if s.pendingReconnect then RetryNow(c)
      else ScheduleReconnect(c)
    case TimerFired(t) => DoConnect(s.(timer := None, timers := s.timers - {t}))
  }

  /** Only what is outstanding can happen. A close event fires once per socket. */
  ghost predicate Possible(s: State, e: Event) {
    match e
    case TokenOk => s.tokens > 0
    case TokenFailed => s.tokens > 0
    case TokenRefused => s.tokens > 0
    case Opened(w) => w in s.shaking
    case Closed(w) => w in s.shaking || w in s.open || w in s.closing
    case TimerFired(t) => t in s.timers
    case _ => true
  }

  // ---------- The manager as an object ----------

  class Manager {
    var status: Status
    var ws: Option<Id>
    var heartbeat: bool
    var timer: Option<Id>
    var reconnectAttempt: nat
    var intentionalClose: bool
    var pendingReconnect: bool
    // what the runtime keeps for it
    var tokens: nat
    var shaking: set<Id>
    var open: set<Id>
    var closing: set<Id>
    var timers: set<Id>
    var nextId: Id

    ghost function Now(): State
      reads this
    {
      State(status, ws, heartbeat, timer, reconnectAttempt, intentionalClose, pendingReconnect,
            tokens, shaking, open, closing, timers, nextId)
    }

    constructor ()
      ensures Now() == Start
    {
      status, ws, heartbeat, timer := Disconnected, None, false, None;
      reconnectAttempt, intentionalClose, pendingReconnect := 0, false, false;
      tokens, shaking, open, closing, timers, nextId := 0, {}, {}, {}, {}, 0;
    }

    method Connect()
      modifies this
      ensures Now() == Step(old(Now()), Event.Connect)
    {
      intentionalClose := false;
      if status == Connected { return; }
      if status == Connecting {
        pendingReconnect := true;
        return;
      }
      if status == Reconnecting {
        ClearReconnectTimer();
        reconnectAttempt := 0;
      }
      BeginConnect();
    }

    method Disconnect()
      modifies this
      ensures Now() == Step(old(Now()), Event.Disconnect)
    {
      intentionalClose := true;
      pendingReconnect := false;
      heartbeat := false;
      ClearReconnectTimer();
      if ws.Some? {
        open, closing := open - {ws.value}, closing + {ws.value};
        ws := None;
      }
      status := Disconnected;
    }

    method BeginConnect()
      modifies this
      ensures Now() == DoConnect(old(Now()))
    {
      status := Connecting;
      tokens := tokens + 1;
    }

    method ClearReconnectTimer()
      modifies this
      ensures Now() == ClearTimer(old(Now()))
    {
      if timer.Some? {
        timers := timers - {timer.value};
        timer := None;
      }
    }

    method ArmReconnect()
      modifies this
      ensures Now() == ScheduleReconnect(old(Now()))
    {
      if intentionalClose { return; }
      status := Reconnecting;
      reconnectAttempt := reconnectAttempt + 1;
      timer, timers, nextId := Some(nextId), timers + {nextId}, nextId + 1;
    }

    method OnToken()
      requires tokens > 0
      modifies this
      ensures Now() == Step(old(Now()), TokenOk)
    {
      tokens := tokens - 1;
      shaking, nextId := shaking + {nextId}, nextId + 1;
    }

    /** `refused` says whether the failure was an AuthError. */
    method OnTokenFailure(refused: bool)
      requires tokens > 0
      modifies this
      ensures Now() == Step(old(Now()), if refused then TokenRefused else TokenFailed)
    {
      tokens := tokens - 1;
      if refused { Disconnect(); }
      if pendingReconnect && !intentionalClose {
        pendingReconnect := false;
        reconnectAttempt := 0;
        BeginConnect();
      } else {
        ArmReconnect();
      }
    }

    method OnOpen(w: Id)
      requires w in shaking
      modifies this
      ensures Now() == Step(old(Now()), Opened(w))
    {
      shaking, open := shaking - {w}, open + {w};
      ws := Some(w);
      status := Connected;
      reconnectAttempt := 0;
      pendingReconnect := false;
      heartbeat := true;
    }

    method OnClose(w: Id)
      requires w in shaking || w in open || w in closing
      modifies this
      ensures Now() == Step(old(Now()), Closed(w))
    {
      shaking, open, closing := shaking - {w}, open - {w}, closing - {w};
      heartbeat := false;
      if ws == Some(w) { ws := None; }
      if !intentionalClose {
        if pendingReconnect {
          pendingReconnect := false;
          reconnectAttempt := 0;
          BeginConnect();
        } else {
          ArmReconnect();
        }
      }
    }

    method OnTimer(t: Id)
      requires t in timers
      modifies this
      ensures Now() == Step(old(Now()), TimerFired(t))
    {
      timers := timers - {t};
      timer := None;
      BeginConnect();
    }
  }

  // ---------- One driver ----------

  /** Idle with nothing outstanding, or exactly one thing that will move the session on: an
      attempt in flight, a pending timer, or one open socket with its heartbeat. */
  ghost predicate OneDriver(s: State) {
    match s.status
    case Disconnected => s.tokens == 0 && s.shaking == {} && s.timers == {} && s.open == {} && !s.heartbeat
    case Connecting =>
      && ((s.tokens == 1 && s.shaking == {}) || (s.tokens == 0 && exists w :: s.shaking == {w}))
      && s.timers == {} && s.open == {} && !s.heartbeat
    case Reconnecting =>
      && s.tokens == 0 && s.shaking == {} && s.open == {} && !s.heartbeat
      && s.timer.Some? && s.timers == {s.timer.value}
    case Connected =>
      && s.tokens == 0 && s.shaking == {} && s.timers == {} && s.heartbeat
      && s.ws.Some? && s.open == {s.ws.value}
  }

  ghost predicate Inv(s: State) {
    && OneDriver(s)
    && (s.ws.Some? ==> s.status.Connected?)
    && (s.timer.Some? ==> s.status.Reconnecting?)
    && (s.intentionalClose ==> s.status.Disconnected?)
    && (s.pendingReconnect ==> s.status.Connecting?)
    && (s.closing != {} ==> s.intentionalClose)
    && (forall w :: w in s.shaking || w in s.open || w in s.closing ==> w < s.nextId)
    && s.shaking !! s.closing && s.open !! s.closing
  }

  /** What the caller has to respect: no `disconnect` while an attempt is in flight (the
      wrapper around the token request aside), and no `connect` between a `disconnect` and the
      close event of the socket it closed. */
  ghost predicate Guarded(s: State, e: Event) {
    && Possible(s, e)
    && (e.Connect? ==> s.closing == {})
    && (e.Disconnect? ==> !s.status.Connecting?)
  }

  lemma StepKeeps(s: State, e: Event)
    requires Inv(s) && Guarded(s, e)
    ensures Inv(Step(s, e))
  {
    var r := Step(s, e);
    match e
    case TokenOk => assert r.shaking == {s.nextId};
    case Opened(w) => assert s.shaking == {w} && r.open == {w};
    case Closed(w) => assert w in s.closing || s.shaking == {w} || s.open == {w};
    case TimerFired(t) => assert s.timers == {t};
    case _ =>
  }

  /** The states of a run in which every event was possible and every call was guarded. */
  ghost predicate Run(ss: seq<State>, es: seq<Event>) {
    && |ss| == |es| + 1
    && forall i :: 0 <= i < |es| ==> Guarded(ss[i], es[i]) && ss[i+1] == Step(ss[i], es[i])
  }

  /** Every reachable state has one driver, or is idle and has none. */
  lemma {:induction false} AlwaysOneDriver(ss: seq<State>, es: seq<Event>, n: nat)
    requires Run(ss, es) && ss[0] == Start && n <= |es|
    ensures Inv(ss[n])
  {
    if n > 0 {
      AlwaysOneDriver(ss, es, n - 1);
      StepKeeps(ss[n-1], es[n-1]);
    }
  }

  /** After a connect the session is never idle again until it is closed on purpose. */
  lemma {:induction false} NeverIdle(ss: seq<State>, es: seq<Event>, i: nat, n: nat)
    requires Run(ss, es) && ss[0] == Start && i < n <= |es| && es[i] == Connect
    requires Disconnect !in es[i..n] && TokenRefused !in es[i..n]
    ensures !ss[n].status.Disconnected?
  {
    AlwaysOneDriver(ss, es, n - 1);
    if n - 1 > i {
      assert es[i..n] == es[i..n-1] + [es[n-1]];
      NeverIdle(ss, es, i, n - 1);
    }
  }

  // ---------- What each event achieves ----------

  /** A connect starts an attempt at once unless the session is open or has one in flight; a
      pending backoff is cancelled and its count forgotten. */
  lemma ConnectActs(s: State)
    requires Inv(s) && Guarded(s, Connect)
    ensures var r := Step(s, Connect);
            && r.status == (if s.status.Connected? then Connected else Connecting)
            && !r.intentionalClose
            && (s.status.Connected? ==> r == s)
            && (s.status.Connecting? ==> r == s.(pendingReconnect := true))
            && (s.status.Reconnecting? || s.status.Disconnected? ==>
                  r.tokens == 1 && r.shaking == {} && r.timers == {} && r.open == {} && !r.pendingReconnect)
            && (s.status.Reconnecting? ==> r.attempt == 0)
            && (s.status.Disconnected? ==> r.attempt == s.attempt)
  {
  }

  /** A connect during an attempt is remembered while the attempt goes on; if the attempt
      fails the next one starts at once, without a backoff. */
  lemma RememberedConnectRetries(s: State, e: Event)
    requires Inv(s) && Possible(s, e) && s.pendingReconnect
    ensures e.TokenOk? || e.Connect? ==> Step(s, e).pendingReconnect && Step(s, e).status.Connecting?
    ensures e.TokenFailed? || e.Closed? ==>
              var r := Step(s, e);
              && r.status.Connecting? && r.tokens == 1 && r.shaking == {} && r.timers == {} && r.open == {}
              && r.attempt == 0 && !r.pendingReconnect
  {
    if e.Closed? { assert e.w in s.shaking; }
  }

  /** Any other failure, and the loss of an open socket, arms one timer and counts it. */
  lemma FailureBacksOff(s: State, e: Event)
    requires Inv(s) && Possible(s, e) && !s.status.Disconnected? && !s.pendingReconnect
    requires e.TokenFailed? || e.Closed?
    ensures var r := Step(s, e);
            && r.status.Reconnecting? && r.timer.Some? && r.timers == {r.timer.value}
            && r.tokens == 0 && r.shaking == {} && r.open == {} && !r.heartbeat && r.ws.None?
            && r.attempt == s.attempt + 1
  {
    StepKeeps(s, e);
  }

  /** The rest of an attempt's life, and its end. */
  lemma AttemptGoesOn(s: State, e: Event)
    requires Inv(s) && Guarded(s, e)
    ensures var r := Step(s, e);
            && (e.TimerFired? ==> r.status.Connecting? && r.tokens == 1 && r.timers == {} && r.attempt == s.attempt)
            && (e.TokenOk? ==> r.status.Connecting? && r.tokens == 0 && |r.shaking| == 1 && r.attempt == s.attempt)
            && (e.Opened? ==> r.status.Connected? && r.ws == Some(e.w) && r.open == {e.w} && r.heartbeat
                              && r.attempt == 0 && !r.pendingReconnect)
            && (e.Disconnect? || e.TokenRefused? ==>
                  && r.status.Disconnected? && r.intentionalClose && r.ws.None?
                  && r.closing == s.closing + s.open && r.attempt == s.attempt)
  {
    StepKeeps(s, e);
    if e.TokenOk? { assert Step(s, e).shaking == {s.nextId}; }
  }

  /** What sets the attempt count back: a socket opening, a connect that cancels a backoff,
      and a retry for a remembered connect. */
  ghost predicate Resets(s: State, e: Event) {
    || e.Opened?
    || (e.Connect? && s.status.Reconnecting?)
    || ((e.TokenFailed? || e.Closed?) && s.pendingReconnect)
  }

  ghost function Backoffs(ss: seq<State>, es: seq<Event>, n: nat): nat
    requires n <= |es| < |ss|
  {
    if n == 0 then 0
    else if Resets(ss[n-1], es[n-1]) then 0
    else Backoffs(ss, es, n - 1) +
         (if !ss[n-1].status.Reconnecting? && ss[n].status.Reconnecting? then 1 else 0)
  }

  /** The attempt count is the number of backoffs since it was last set back. */
  lemma {:induction false} AttemptCounts(ss: seq<State>, es: seq<Event>, n: nat)
    requires Run(ss, es) && ss[0] == Start && n <= |es|
    ensures ss[n].attempt == Backoffs(ss, es, n)
  {
    if n > 0 {
      AttemptCounts(ss, es, n - 1);
      AlwaysOneDriver(ss, es, n - 1);
      var s, e := ss[n-1], es[n-1];
      if e.Connect? { ConnectActs(s); }
      else if e.TokenFailed? || e.Closed? {
        if s.pendingReconnect { RememberedConnectRetries(s, e); }
        else if !s.status.Disconnected? { FailureBacksOff(s, e); }
      } else {
        AttemptGoesOn(s, e);
      }
    }
  }

  // ---------- The guard is needed ----------

  /** Disconnecting leaves no driver behind exactly when no attempt was in flight: the socket
      of an attempt is not remembered before it opens, so it is not closed. */
  lemma DisconnectNeedsNoAttempt(s: State)
    requires Inv(s)
    ensures OneDriver(Step(s, Disconnect)) <==> !s.status.Connecting?
  {
    if s.status.Connecting? && s.tokens == 0 {
      var w :| s.shaking == {w};
      assert w in Step(s, Disconnect).shaking;
    }
  }

  /** Connecting before the old socket's close event always ends with two drivers: the close
      event then arms a timer beside the attempt. */
  lemma ConnectNeedsClosed(s: State, w: Id)
    requires Inv(s) && w in s.closing
    ensures var r := Step(Step(s, Connect), Closed(w));
            !OneDriver(r) && r.tokens == 1 && |r.timers| == 1
  {
    var r := Step(Step(s, Connect), Closed(w));
    assert r.timers == {s.nextId};
  }

  /** Such a state is reached from the start. */
  lemma ClosingIsReachable()
    ensures var s0 := Step(Start, Connect);
            var s1 := Step(s0, TokenOk);
            var s2 := Step(s1, Opened(0));
            var s3 := Step(s2, Disconnect);
            Possible(s0, TokenOk) && Possible(s1, Opened(0)) && Inv(s3) && 0 in s3.closing
  {
  }

  // ---------- The backoff ----------

  function Power(n: nat): real { if n == 0 then 1.0 else 2.0 * Power(n - 1) }

  function Base(attempt: nat): real {
    if 1000.0 * Power(attempt) < 30000.0 then 1000.0 * Power(attempt) else 30000.0
  }

  /** The delay in milliseconds; `random` is in [0, 1). */
  function ComputeDelay(attempt: nat, random: real): real {
    var base := Base(attempt);
    var jitter := base * 0.2;
    base - jitter + random * jitter * 2.0
  }

  lemma {:induction false} PowerGrows(n: nat, m: nat)
    requires n <= m
    ensures 1.0 <= Power(n) <= Power(m)
    decreases m
  {
    if n < m { PowerGrows(n, m - 1); }
    else if n > 0 { PowerGrows(n - 1, n - 1); }
  }

  /** The middle of the delays starts at a second and doubles up to 30 seconds; every delay is
      within a fifth of it, the smallest and the largest included. */
  lemma DelayDoubles(attempt: nat, random: real)
    requires 0.0 <= random < 1.0
    ensures ComputeDelay(0, 0.5) == 1000.0
    ensures var base := ComputeDelay(attempt, 0.5);
            && ComputeDelay(attempt + 1, 0.5) == (if 2.0 * base < 30000.0 then 2.0 * base else 30000.0)
            && ComputeDelay(attempt, random) == 0.8 * base + 0.4 * base * random
            && 0.8 * base <= ComputeDelay(attempt, random) < 1.2 * base
  {
    PowerGrows(0, attempt);
    Jittered(Base(attempt), random);
    Jittered(Base(attempt), 0.5);
    Jittered(Base(attempt + 1), 0.5);
    Jittered(Base(0), 0.5);
  }

  lemma Jittered(base: real, random: real)
    requires base > 0.0 && 0.0 <= random < 1.0
    ensures base - base * 0.2 + random * (base * 0.2) * 2.0 == 0.8 * base + 0.4 * base * random
    ensures 0.8 * base <= 0.8 * base + 0.4 * base * random < 1.2 * base
    ensures random == 0.5 ==> 0.8 * base + 0.4 * base * random == base
  {
    Scaled(base * 0.4, random);
    assert random * (base * 0.2) == 0.2 * (base * random);
    assert 0.4 * base * random == 0.4 * (base * random);
  }

  /** Every delay is within a fifth of its base, between 0.8 and 36 seconds, and once five
      attempts have failed it no longer grows. */
  lemma DelayBounds(attempt: nat, random: real)
    requires 0.0 <= random < 1.0
    ensures 800.0 <= ComputeDelay(attempt, random) < 36000.0
    ensures attempt >= 5 ==> ComputeDelay(attempt, random) >= 24000.0
  {
    PowerGrows(0, attempt);
    if attempt >= 5 {
      PowerGrows(5, attempt);
      assert Power(5) == 32.0;
    }
    Jittered(Base(attempt), random);
  }

  lemma Scaled(width: real, random: real)
    requires 0.0 < width && 0.0 <= random < 1.0
    ensures 0.0 <= random * width < width
  {
  }
}
