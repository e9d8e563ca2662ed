/**
 Who may reach a handler (internal/hooks/hooks.go, internal/login/handler.go, internal/session/session.go): the two
 before-hooks as the kernel runs them, and authentication over whole runs of many connections.
 */
module Auth {
  import opened Common
  import opened Pipeline
  import opened Kernel
  import Frame
  import Login
  import Players

  const ERR_TOO_FREQUENT := 10003
  const ERR_UNAUTHORIZED := 10004
  const ERR_LOGIN_TOKEN_EXPIRED := 20003

  /** What GetSession says of a uid. */
  datatype SessionAnswer = Found | Missing | StoreBroken

  // ---------------------------------------------------------------------------------------------------------------
  // The hooks
  // ---------------------------------------------------------------------------------------------------------------

  /** Auth's decision; a broken session store lets the request through. */
  function AuthVerdict(authFree: bool, uid: int, answer: SessionAnswer): Option<Error> {
    if authFree then None
    else if uid <= 0 then Some(Biz(ERR_UNAUTHORIZED, "请先登录"))
    else if answer == Missing then Some(Biz(ERR_LOGIN_TOKEN_EXPIRED, "会话已过期，请重新登录"))
    else None
  }

  /** RateLimit's decision: None for a request it does not count, or when Redis fails; else whether it was admitted. */
  function RateVerdict(counted: Option<bool>): Option<Error> {
    if counted == Some(false) then Some(Biz(ERR_TOO_FREQUENT, "请求过于频繁，请稍后再试")) else None
  }

  /** How the hooks see the shared state: the session's uid, the session store and the limiter. */
  datatype Lens<!W> = Lens(
    authFree: uint16 -> bool,
    uid: W -> int,
    session: (W, int) -> SessionAnswer,
    count: (W, int) -> (W, Option<bool>))

  function AuthHook<W>(lens: Lens<W>): BeforeHook<W> {
    (state: W, ctx: Context, input: Bytes) =>
      BeforeResult(state, ctx, input,
                   AuthVerdict(lens.authFree(ctx.msgId), lens.uid(state), lens.session(state, lens.uid(state))))
  }

  function RateLimitHook<W>(lens: Lens<W>): BeforeHook<W> {
    (state: W, ctx: Context, input: Bytes) =>
      if lens.authFree(ctx.msgId) || lens.uid(state) <= 0 then BeforeResult(state, ctx, input, None)
      else
        var (counted, verdict) := lens.count(state, lens.uid(state));
        BeforeResult(counted, ctx, input, RateVerdict(verdict))
  }

  /** The chain of the server: authentication first, then the limiter. */
  method ServerHooks<W>(lens: Lens<W>) returns (hooks: Hooks<W>)
    ensures fresh(hooks) && hooks.before == [AuthHook(lens), RateLimitHook(lens)] && hooks.after == []
  {
    hooks := new Hooks();
    hooks.AddBefore(AuthHook(lens));
    hooks.AddBefore(RateLimitHook(lens));
  }

  /**
   In front of any handler and any other hooks, an unauthenticated or expired request on a route that is not auth-free
   changes nothing, runs nothing, is not even counted by the limiter, and gets the one error reply.
   */
  lemma AuthGuardsDispatch<W>(
      lens: Lens<W>, handlers: map<uint16, HandlerEntry<W>>, later: seq<BeforeHook<W>>, after: seq<AfterHook<W>>,
      state: W, data: Bytes)
    requires !FatalFrame(data) && Frame.Decode(data).value.msgId in handlers
    requires handlers[Frame.Decode(data).value.msgId].accepts(Frame.Decode(data).value.body)
    requires !lens.authFree(Frame.Decode(data).value.msgId)
    requires lens.uid(state) <= 0 || lens.session(state, lens.uid(state)) == Missing
    ensures Dispatch(handlers, Chain([AuthHook(lens), RateLimitHook(lens)] + later, after), state, data)
            == Outcome(state, Some(Reply(Frame.Decode(data).value.seqNo, 9999,
                 if lens.uid(state) <= 0 then Failure(10004, "请先登录")
                 else Failure(20003, "会话已过期，请重新登录"))), false)
  {
    var msg := Frame.Decode(data).value;
    var hooks := [AuthHook(lens)];
    assert RunBefore(hooks, state, Context(msg.msgId), msg.body) == AuthHook(lens)(state, Context(msg.msgId), msg.body);
    FailedHookCutsChain(handlers, hooks, [RateLimitHook(lens)] + later, after, state, data);
    assert hooks + ([RateLimitHook(lens)] + later) == [AuthHook(lens), RateLimitHook(lens)] + later;
  }

  /**
   An authenticated request that the limiter does not admit is counted under its session's uid, runs nothing else, and
   gets the one error reply.
   */
  lemma LimitGuardsDispatch<W>(
      lens: Lens<W>, handlers: map<uint16, HandlerEntry<W>>, later: seq<BeforeHook<W>>, after: seq<AfterHook<W>>,
      state: W, data: Bytes)
    requires !FatalFrame(data) && Frame.Decode(data).value.msgId in handlers
    requires handlers[Frame.Decode(data).value.msgId].accepts(Frame.Decode(data).value.body)
    requires !lens.authFree(Frame.Decode(data).value.msgId)
    requires lens.uid(state) > 0 && lens.session(state, lens.uid(state)) != Missing
    requires lens.count(state, lens.uid(state)).1 == Some(false)
    ensures Dispatch(handlers, Chain([AuthHook(lens), RateLimitHook(lens)] + later, after), state, data)
            == Outcome(lens.count(state, lens.uid(state)).0,
                       Some(Reply(Frame.Decode(data).value.seqNo, 9999, Failure(10003, "请求过于频繁，请稍后再试"))), false)
  {
    var msg := Frame.Decode(data).value;
    var ctx := Context(msg.msgId);
    var auth, limit := [AuthHook(lens)], [RateLimitHook(lens)];
    OneBeforeHook(AuthHook(lens), state, ctx, msg.body);
    OneBeforeHook(RateLimitHook(lens), state, ctx, msg.body);
    RunBeforeAppends(auth, limit, state, ctx, msg.body);
    FailedHookCutsChain(handlers, auth + limit, later, after, state, data);
    assert auth + limit == [AuthHook(lens), RateLimitHook(lens)];
  }

  // ---------------------------------------------------------------------------------------------------------------
  // Whole runs
  // ---------------------------------------------------------------------------------------------------------------

  type ConnId = nat

  /** `Executed` records the uid of the session when a handler started; `Bound` a login handler binding it. */
  datatype Event = Executed(conn: ConnId, msgId: uint16, uid: int) | Bound(conn: ConnId, login: Login.LoginId, uid: int)

  /**
   `uids` are the sessions' uids, absent while 0; a connection in `busy` is inside its login handler; `counted` are the
   uids the limiter was asked to count, in order.
   */
  datatype System = System(
    logins: Login.System,
    uids: map<ConnId, int>,
    busy: map<ConnId, Login.LoginId>,
    counted: seq<int>,
    trace: seq<Event>)

  datatype Action =
    | LoginRequest(conn: ConnId, openId: string)
    | LoginStep(step: Login.Action)
    | LoginReturns(conn: ConnId)
    | FrameArrives(conn: ConnId, data: Bytes, store: int -> SessionAnswer, limiter: int -> Option<bool>)

  const START := System(Login.START, map[], map[], [], [])

  function Uid(s: System, conn: ConnId): int {
    if conn in s.uids then s.uids[conn] else 0
  }

  /** The registered routes; what is behind them matters here only in that it runs. */
  type Routes = map<uint16, HandlerEntry<System>>

  /** The kernel's IsAuthFree. */
  predicate AuthFree(routes: Routes, msgId: uint16) {
    msgId in routes && routes[msgId].authFree
  }

  /** Every route with a handler that records that it ran on this connection, and under which uid. */
  function Wired(routes: Routes, conn: ConnId): Routes {
    map msgId | msgId in routes :: Rewired(routes[msgId], (s: System, ctx: Context, body: Bytes) =>
      AfterResult(s.(trace := s.trace + [Executed(conn, ctx.msgId, Uid(s, conn))]), Nil, None))
  }

  /** What the hooks of this connection see: what store and limiter answer when asked about a uid. */
  function LensOf(routes: Routes, conn: ConnId, store: int -> SessionAnswer, limiter: int -> Option<bool>): Lens<System> {
    Lens((msgId: uint16) => AuthFree(routes, msgId), (s: System) => Uid(s, conn), (s: System, uid: int) => store(uid),
         (s: System, uid: int) => (s.(counted := s.counted + [uid]), limiter(uid)))
  }

  function ServerChain(lens: Lens<System>): Chain<System> {
    Chain([AuthHook(lens), RateLimitHook(lens)], [])
  }

  /** A connection's reader handles one frame at a time; outside its login handler every frame goes through Dispatch. */
  function Step(routes: Routes, s: System, action: Action): System {
    match action
    case LoginRequest(conn, openId) =>
      if conn in s.busy then s
      else s.(logins := Login.Step(s.logins, Login.Begin(openId)), busy := s.busy[conn := s.logins.nextAttempt])
    case LoginStep(step) =>
      if step.Begin? then s else s.(logins := Login.Step(s.logins, step))
    case LoginReturns(conn) =>
      if conn !in s.busy || s.busy[conn] !in s.logins.attempts then s
      else
        var attempt := s.logins.attempts[s.busy[conn]];
        if !attempt.pc.Done? then s
        else if attempt.pc.result.Err? then s.(busy := s.busy - {conn})
        else
          var uid := attempt.pc.result.value.uid;
          s.(busy := s.busy - {conn}, uids := s.uids[conn := uid], trace := s.trace + [Bound(conn, s.busy[conn], uid)])
    case FrameArrives(conn, data, store, limiter) =>
      if conn in s.busy then s
      else Dispatch(Wired(routes, conn), ServerChain(LensOf(routes, conn, store, limiter)), s, data).state
  }

  function Run(routes: Routes, actions: seq<Action>): System {
    if actions == [] then START else Step(routes, Run(routes, actions[..|actions| - 1]), actions[|actions| - 1])
  }

  /** The uid of the connection's last successful login, 0 if there was none. */
  function LastUid(trace: seq<Event>, conn: ConnId): int {
    if trace == [] then 0
    else
      var n := |trace| - 1;
      if trace[n].Bound? && trace[n].conn == conn then trace[n].uid else LastUid(trace[..n], conn)
  }

  lemma {:induction false} LastBound(trace: seq<Event>, conn: ConnId) returns (j: nat)
    requires LastUid(trace, conn) > 0
    ensures j < |trace| && trace[j].Bound? && trace[j].conn == conn && trace[j].uid == LastUid(trace, conn)
    ensures forall k :: j < k < |trace| ==> !(trace[k].Bound? && trace[k].conn == conn)
  {
    j := |trace| - 1;
    if !(trace[j].Bound? && trace[j].conn == conn) {
      j := LastBound(trace[..|trace| - 1], conn);
    }
  }

  /** This event was allowed to happen after the events before it. */
  ghost predicate Authorised(routes: Routes, logins: Login.System, trace: seq<Event>, i: nat)
    requires i < |trace|
  {
    match trace[i]
    case Bound(conn, login, uid) =>
      Login.Succeeded(logins, login) && logins.attempts[login].pc.result.value.uid == uid && uid >= 1
    case Executed(conn, msgId, uid) =>
      uid == LastUid(trace[..i], conn) && (!AuthFree(routes, msgId) ==> uid > 0)
  }

  ghost predicate AuthInv(routes: Routes, s: System) {
    && Login.LoginInv(s.logins)
    && (forall i :: 0 <= i < |s.trace| ==> Authorised(routes, s.logins, s.trace, i))
    && (forall conn :: Uid(s, conn) == LastUid(s.trace, conn))
  }

  lemma SuccessStays(logins: Login.System, step: Login.Action, login: Login.LoginId)
    requires Login.LoginInv(logins) && Login.Succeeded(logins, login)
    ensures Login.Succeeded(Login.Step(logins, step), login)
    ensures Login.Step(logins, step).attempts[login] == logins.attempts[login]
  {
  }

  lemma LoginStepKeeps(routes: Routes, s: System, step: Login.Action)
    requires AuthInv(routes, s)
    ensures AuthInv(routes, s.(logins := Login.Step(s.logins, step)))
  {
    Login.StepKeeps(s.logins, step);
    var after := s.(logins := Login.Step(s.logins, step));
    forall i | 0 <= i < |s.trace| ensures Authorised(routes, after.logins, s.trace, i) {
      assert Authorised(routes, s.logins, s.trace, i);
      if s.trace[i].Bound? {
        SuccessStays(s.logins, step, s.trace[i].login);
      }
    }
  }

  lemma EventKeeps(routes: Routes, s: System, event: Event, uids: map<ConnId, int>, counted: seq<int>)
    requires AuthInv(routes, s)
    requires Authorised(routes, s.logins, s.trace + [event], |s.trace|)
    requires uids == if event.Bound? then s.uids[event.conn := event.uid] else s.uids
    ensures AuthInv(routes, s.(uids := uids, counted := counted, trace := s.trace + [event]))
  {
    var trace := s.trace + [event];
    assert trace[..|s.trace|] == s.trace;
    forall i | 0 <= i < |trace| ensures Authorised(routes, s.logins, trace, i) {
      if i < |s.trace| {
        assert Authorised(routes, s.logins, s.trace, i);
        assert trace[..i] == s.trace[..i];
      }
    }
  }

  /** What the limiter has been asked to count after this request: its own uid, unless it never got that far. */
  function CountedAfter(free: bool, s: System, conn: ConnId, store: int -> SessionAnswer): seq<int> {
    if free || Uid(s, conn) <= 0 || store(Uid(s, conn)) == Missing then s.counted
    else s.counted + [Uid(s, conn)]
  }

  /** Both hooks let the request through, asked about the uid of its own session. */
  predicate Admitted(free: bool, s: System, conn: ConnId, store: int -> SessionAnswer, limiter: int -> Option<bool>) {
    || free
    || (Uid(s, conn) > 0 && store(Uid(s, conn)) != Missing && limiter(Uid(s, conn)) != Some(false))
  }

  /** The two hooks of the server let a request through, and count it, as their verdicts say. */
  lemma ServerHooksDecide(routes: Routes, s: System, conn: ConnId, msgId: uint16, body: Bytes,
                          store: int -> SessionAnswer, limiter: int -> Option<bool>)
    ensures var checked := RunBefore(ServerChain(LensOf(routes, conn, store, limiter)).before, s, Context(msgId), body);
            && checked.state == s.(counted := CountedAfter(AuthFree(routes, msgId), s, conn, store))
            && checked.ctx == Context(msgId)
            && (checked.error == None <==> Admitted(AuthFree(routes, msgId), s, conn, store, limiter))
  {
    var lens := LensOf(routes, conn, store, limiter);
    var hooks := [AuthHook(lens), RateLimitHook(lens)];
    assert hooks[1..] == [RateLimitHook(lens)] && hooks[1..][1..] == [];
    var ctx := Context(msgId);
    var free, uid := AuthFree(routes, msgId), Uid(s, conn);
    assert AuthHook(lens)(s, ctx, body) == BeforeResult(s, ctx, body, AuthVerdict(free, uid, store(uid)));
    var limited := RateLimitHook(lens)(s, ctx, body);
    assert limited
        == if free || uid <= 0 then BeforeResult(s, ctx, body, None)
           else BeforeResult(s.(counted := s.counted + [uid]), ctx, body, RateVerdict(limiter(uid)));
    OneBeforeHook(RateLimitHook(lens), s, ctx, body);
  }

  /** The frame is sound, its route registered and its body acceptable: it gets to the hooks. */
  predicate ReachesHooks(routes: Routes, data: Bytes) {
    && !FatalFrame(data)
    && var msg := Frame.Decode(data).value;
    && msg.msgId in routes && routes[msg.msgId].accepts(msg.body)
  }

  /**
   Dispatch of a frame counts it under the uid of its own session, unless it is auth-free or authentication stopped it,
   runs a handler exactly when both hooks let it through, and does nothing else.
   */
  lemma FrameStep(routes: Routes, s: System, conn: ConnId, data: Bytes,
                  store: int -> SessionAnswer, limiter: int -> Option<bool>)
    requires conn !in s.busy
    ensures var after := Step(routes, s, FrameArrives(conn, data, store, limiter));
            if !ReachesHooks(routes, data) then after == s
            else
              var msgId := Frame.Decode(data).value.msgId;
              var free := routes[msgId].authFree;
              var counted := s.(counted := CountedAfter(free, s, conn, store));
              after == if Admitted(free, s, conn, store, limiter)
                       then counted.(trace := s.trace + [Executed(conn, msgId, Uid(s, conn))]) else counted
  {
    if !FatalFrame(data) {
      var msg := Frame.Decode(data).value;
      ServerHooksDecide(routes, s, conn, msg.msgId, msg.body, store, limiter);
    }
  }

  /** What a login handler comes to: a success binds its own connection to the uid and no other, a failure binds nothing. */
  lemma LoginBinds(routes: Routes, s: System, conn: ConnId)
    requires conn in s.busy && s.busy[conn] in s.logins.attempts && s.logins.attempts[s.busy[conn]].pc.Done?
    ensures var result := s.logins.attempts[s.busy[conn]].pc.result;
            var after := Step(routes, s, LoginReturns(conn));
            && conn !in after.busy
            && Uid(after, conn) == (if result.Ok? then result.value.uid else Uid(s, conn))
            && (forall other :: other != conn ==> Uid(after, other) == Uid(s, other))
            && after.trace == s.trace + (if result.Ok? then [Bound(conn, s.busy[conn], result.value.uid)] else [])
  {
  }

  /** While a connection's reader is in its login handler it takes no other frame. */
  lemma BusyReaderWaits(routes: Routes, s: System, conn: ConnId, openId: string, data: Bytes,
                        store: int -> SessionAnswer, limiter: int -> Option<bool>)
    requires conn in s.busy
    ensures Step(routes, s, LoginRequest(conn, openId)) == s
    ensures Step(routes, s, FrameArrives(conn, data, store, limiter)) == s
  {
  }

  lemma KeepsCounting(routes: Routes, s: System, counted: seq<int>)
    requires AuthInv(routes, s)
    ensures AuthInv(routes, s.(counted := counted))
  {
  }

  lemma StepKeeps(routes: Routes, s: System, action: Action)
    requires AuthInv(routes, s)
    ensures AuthInv(routes, Step(routes, s, action))
  {
    var after := Step(routes, s, action);
    if after != s {
      match action
      case LoginRequest(conn, openId) => LoginStepKeeps(routes, s, Login.Begin(openId));
      case LoginStep(step) => LoginStepKeeps(routes, s, step);
      case LoginReturns(conn) =>
        if after.trace != s.trace {
          var login := s.busy[conn];
          assert Login.AttemptRight(s.logins.accounts, s.logins.attempts[login]);
          EventKeeps(routes, s, Bound(conn, login, after.uids[conn]), after.uids, s.counted);
        }
      case FrameArrives(conn, data, store, limiter) => FrameKeeps(routes, s, conn, data, store, limiter);
    }
  }

  lemma FrameKeeps(routes: Routes, s: System, conn: ConnId, data: Bytes,
                   store: int -> SessionAnswer, limiter: int -> Option<bool>)
    requires AuthInv(routes, s) && conn !in s.busy
    ensures AuthInv(routes, Step(routes, s, FrameArrives(conn, data, store, limiter)))
  {
    FrameStep(routes, s, conn, data, store, limiter);
    if ReachesHooks(routes, data) {
      var msgId := Frame.Decode(data).value.msgId;
      var executed := Executed(conn, msgId, Uid(s, conn));
      var counted := CountedAfter(routes[msgId].authFree, s, conn, store);
      if Admitted(routes[msgId].authFree, s, conn, store, limiter) {
        assert (s.trace + [executed])[..|s.trace|] == s.trace;
        EventKeeps(routes, s, executed, s.uids, counted);
      } else {
        KeepsCounting(routes, s, counted);
      }
    }
  }

  lemma {:induction false} AuthInvAlways(routes: Routes, actions: seq<Action>)
    ensures AuthInv(routes, Run(routes, actions))
  {
    if actions != [] {
      AuthInvAlways(routes, actions[..|actions| - 1]);
      StepKeeps(routes, Run(routes, actions[..|actions| - 1]), actions[|actions| - 1]);
    }
  }

  lemma ExecutedAuthenticated(routes: Routes, s: System, i: nat) returns (j: nat)
    requires AuthInv(routes, s) && i < |s.trace| && s.trace[i].Executed? && !AuthFree(routes, s.trace[i].msgId)
    ensures && j < i && s.trace[j].Bound? && s.trace[j].conn == s.trace[i].conn && s.trace[j].uid == s.trace[i].uid
            && (forall k :: j < k < i ==> !(s.trace[k].Bound? && s.trace[k].conn == s.trace[i].conn))
            && Login.Succeeded(s.logins, s.trace[j].login)
            && s.logins.attempts[s.trace[j].login].pc.result.value.uid == s.trace[i].uid
            && s.trace[i].uid in s.logins.accounts.players && s.trace[i].uid > 0
  {
    assert Authorised(routes, s.logins, s.trace, i);
    var conn := s.trace[i].conn;
    j := LastBound(s.trace[..i], conn);
    assert Authorised(routes, s.logins, s.trace, j);
    assert Login.AttemptRight(s.logins.accounts, s.logins.attempts[s.trace[j].login]);
  }

  /**
   Over every run, each frame going through Dispatch with the server's hooks: a handler on a route that is not auth-free
   executed only on a connection on which a login had succeeded before; it ran under the uid of the latest such login,
   which is a player in the store.
   */
  lemma HandlersRunAuthenticated(routes: Routes, actions: seq<Action>, i: nat) returns (j: nat)
    requires i < |Run(routes, actions).trace|
    requires var event := Run(routes, actions).trace[i];
             event.Executed? && !(event.msgId in routes && routes[event.msgId].authFree)
    ensures var s := Run(routes, actions);
            && j < i && s.trace[j].Bound? && s.trace[j].conn == s.trace[i].conn && s.trace[j].uid == s.trace[i].uid
            && (forall k :: j < k < i ==> !(s.trace[k].Bound? && s.trace[k].conn == s.trace[i].conn))
            && Login.Succeeded(s.logins, s.trace[j].login)
            && s.logins.attempts[s.trace[j].login].pc.result.value.uid == s.trace[i].uid
            && s.trace[i].uid in s.logins.accounts.players && s.trace[i].uid > 0
  {
    AuthInvAlways(routes, actions);
    j := ExecutedAuthenticated(routes, Run(routes, actions), i);
  }

  // ---------------------------------------------------------------------------------------------------------------
  // What a login opens
  // ---------------------------------------------------------------------------------------------------------------

  /** The critical sections of the login that this connection is waiting for, nobody else coming in between. */
  function LoginSteps(routes: Routes, s: System, id: Login.LoginId, token: string, n: nat): System {
    if n == 0 then s else Step(routes, LoginSteps(routes, s, id, token, n - 1), LoginStep(Login.Advance(id, token)))
  }

  lemma {:induction false} LoginStepsAdvance(routes: Routes, s: System, id: Login.LoginId, token: string, n: nat)
    ensures LoginSteps(routes, s, id, token, n) == s.(logins := Login.Advances(s.logins, id, token, n))
  {
    if n > 0 {
      LoginStepsAdvance(routes, s, id, token, n - 1);
    }
  }

  /**
   A login that nobody interrupts opens the door: afterwards the connection is bound to the uid of its player, and any
   sound request to a registered route is let through and runs under that uid, if the store has the session and the
   limiter has not had enough of that uid.
   */
  lemma LoginOpensTheDoor(routes: Routes, s: System, conn: ConnId, openId: string, token: string, data: Bytes,
                          store: int -> SessionAnswer, limiter: int -> Option<bool>)
    returns (player: Players.Player)
    requires AuthInv(routes, s) && conn !in s.busy && ReachesHooks(routes, data)
    ensures var asked := Step(routes, s, LoginRequest(conn, openId));
            var bound := Step(routes, LoginSteps(routes, asked, s.logins.nextAttempt, token, 5), LoginReturns(conn));
            && player.openId == openId && player.token == token && player.id >= 1
            && conn !in bound.busy && Uid(bound, conn) == player.id
            && player.id in bound.logins.accounts.players && bound.logins.accounts.players[player.id] == player
            && (store(player.id) != Missing && limiter(player.id) != Some(false) ==>
                  Step(routes, bound, FrameArrives(conn, data, store, limiter)).trace
                  == bound.trace + [Executed(conn, Frame.Decode(data).value.msgId, player.id)])
  {
    var id := s.logins.nextAttempt;
    var asked := Step(routes, s, LoginRequest(conn, openId));
    player := Login.UninterruptedLogin(s.logins, openId, token);
    LoginStepsAdvance(routes, asked, id, token, 5);
    var waiting := LoginSteps(routes, asked, id, token, 5);
    assert waiting.logins.attempts[id].pc.Done?;
    assert waiting.busy[conn] == id;
    LoginBinds(routes, waiting, conn);
    var bound := Step(routes, waiting, LoginReturns(conn));
    LoginPlayerId(s.logins, openId, token, player);
    FrameStep(routes, bound, conn, data, store, limiter);
  }

  lemma LoginPlayerId(logins: Login.System, openId: string, token: string, player: Players.Player)
    requires Login.LoginInv(logins)
    requires match Players.GetByOpenId(logins.accounts, openId)
             case Ok(known) => player.id == known.id
             case Err(_) => player.id == logins.accounts.nextId
    ensures player.id >= 1
  {
    Players.LookupFinds(logins.accounts, openId);
  }
}
