/**
 The server together with its hub (internal/transport/server.go over hub.go and connection.go): Start, Shutdown, connection
 attempts, the goroutines they spawn and the wait group, in every interleaving with every step of the hub machine and
 its callers.
 */
module ServerLifecycle {
  import opened Common
  import H = HubMachine
  import P = HubProgress

  type HandlerId = nat

  datatype Life = New | Running | Stopping | Stopped

  /** One handleWebSocket call that reserved a place, and then the goroutine it spawns, with its pending hub call. */
  datatype Phase =
    | Upgrading                                               // reserved, the HTTP upgrade is under way
    | Registering(conn: H.ConnId, caller: H.CallerId)         // in hub.Register
    | Serving(conn: H.ConnId)                                 // spawned: the read loop
    | Unregistering(conn: H.ConnId, caller: H.CallerId)       // the read loop ended, in hub.Unregister
    | AwaitingWriter(conn: H.ConnId)                          // stopped, waiting for the write loop
    | Finished(last: Option<H.ConnId>)                        // the wait group was told

  /** How far the one execution of Shutdown's body is. */
  datatype ShutdownPc = NotBegun | StoppingHttp | StoppingHub | AwaitingHub(caller: H.CallerId) | AwaitingGroup | Over

  datatype StartAnswer = Started | ServerClosed | AlreadyStarted

  /** `owners` remembers which handler made each connection. */
  datatype Server = Server(
    life: Life,
    shutdown: ShutdownPc,
    hub: H.System,
    waitGroup: int,
    handlers: map<HandlerId, Phase>,
    nextHandler: HandlerId,
    owners: map<H.ConnId, HandlerId>,
    starts: seq<StartAnswer>)

  /** `HubMoves` is any step of the hub, its callers and connections that no handler makes itself. */
  datatype Action =
    | Start
    | Attempt
    | UpgradeFails(id: HandlerId)
    | UpgradeSucceeds(id: HandlerId)
    | RegisterReturns(id: HandlerId)
    | ReadEnds(id: HandlerId)
    | UnregisterReturns(id: HandlerId)
    | WriterEnds(id: HandlerId)
    | BeginShutdown
    | HttpStopped
    | CloseHub
    | HubWaited
    | GroupWaited
    | HubMoves(action: H.Action)

  const NEW_SERVER := Server(New, NotBegun, H.START, 0, map[], 0, map[], [])

  // ---------------------------------------------------------------------------------------------------------------
  // Steps
  // ---------------------------------------------------------------------------------------------------------------

  predicate CallReturned(hub: H.System, caller: H.CallerId) {
    caller in hub.callers && hub.callers[caller].Returned?
  }

  /** Connections are made, registered and unregistered by handlers, and the hub is shut down by the server. */
  predicate FromOutside(action: H.Action) {
    && !action.Connect?
    && (action.Call? ==> action.request.Broadcast? || action.request.PushToUid? || action.request.OnlineCount?)
  }

  predicate Enabled(s: Server, action: Action) {
    match action
    case Start => true
    case Attempt => true
    case UpgradeFails(id) => id in s.handlers && s.handlers[id].Upgrading?
    case UpgradeSucceeds(id) => id in s.handlers && s.handlers[id].Upgrading?
    case RegisterReturns(id) => id in s.handlers && s.handlers[id].Registering? && CallReturned(s.hub, s.handlers[id].caller)
    case ReadEnds(id) => id in s.handlers && s.handlers[id].Serving?
    case UnregisterReturns(id) =>
      id in s.handlers && s.handlers[id].Unregistering? && CallReturned(s.hub, s.handlers[id].caller)
    case WriterEnds(id) => id in s.handlers && s.handlers[id].AwaitingWriter?
    case BeginShutdown => s.shutdown.NotBegun?
    case HttpStopped => s.shutdown.StoppingHttp?
    case CloseHub => s.shutdown.StoppingHub?
    case HubWaited => s.shutdown.AwaitingHub? && CallReturned(s.hub, s.shutdown.caller)
    case GroupWaited => s.shutdown.AwaitingGroup? && s.waitGroup == 0
    case HubMoves(action) => FromOutside(action)
  }

  /** Register returned true to this handler. */
  predicate Taken(s: Server, id: HandlerId)
    requires Enabled(s, RegisterReturns(id))
  {
    s.hub.callers[s.handlers[id].caller].answer.Accepted?
  }

  /** What a step does to the hub: a call, or a stop of the handler's own connection. */
  function HubEffect(s: Server, action: Action): Option<H.Action>
    requires Enabled(s, action)
  {
    match action
    case UpgradeSucceeds(_) => Some(H.Connect)
    case RegisterReturns(id) => if Taken(s, id) then None else Some(H.StopElsewhere(s.handlers[id].conn))
    case ReadEnds(id) => Some(H.Call(H.Unregister(s.handlers[id].conn)))
    case UnregisterReturns(id) => Some(H.StopElsewhere(s.handlers[id].conn))
    case CloseHub => Some(H.Call(H.Shutdown))
    case HubMoves(action) => Some(action)
    case _ => None
  }

  function HubAfter(s: Server, action: Action): H.System
    requires Enabled(s, action)
  {
    match HubEffect(s, action)
    case None => s.hub
    case Some(hubAction) => H.Step(s.hub, hubAction)
  }

  /** The phase a handler's own step leads to. */
  function Next(s: Server, action: Action): Option<(HandlerId, Phase)>
    requires Enabled(s, action)
  {
    match action
    case UpgradeFails(id) => Some((id, Finished(None)))
    case UpgradeSucceeds(id) => Some((id, Registering(s.hub.nextConn, s.hub.nextCaller)))
    case RegisterReturns(id) =>
      var conn := s.handlers[id].conn;
      Some((id, if Taken(s, id) then Serving(conn) else Finished(Some(conn))))
    case ReadEnds(id) => Some((id, Unregistering(s.handlers[id].conn, s.hub.nextCaller)))
    case UnregisterReturns(id) => Some((id, AwaitingWriter(s.handlers[id].conn)))
    case WriterEnds(id) => Some((id, Finished(Some(s.handlers[id].conn))))
    case _ => None
  }

  /** A handler moves on; at its end the deferred Done tells the wait group. */
  function HandlerMoved(s: Server, action: Action): Server
    requires Enabled(s, action) && Next(s, action).Some?
  {
    var (id, phase) := Next(s, action).value;
    s.(hub := HubAfter(s, action),
       handlers := s.handlers[id := phase],
       waitGroup := if phase.Finished? then s.waitGroup - 1 else s.waitGroup,
       owners := if action.UpgradeSucceeds? then s.owners[s.hub.nextConn := id] else s.owners)
  }

  function Effect(s: Server, action: Action): Server
    requires Enabled(s, action)
  {
    match action
    case Start =>
      if s.life.New? then s.(life := Running, starts := s.starts + [Started])
      else if s.life.Running? then s.(starts := s.starts + [AlreadyStarted])
      else s.(starts := s.starts + [ServerClosed])
    case Attempt =>
      if s.life.Running? then
        s.(handlers := s.handlers[s.nextHandler := Upgrading], waitGroup := s.waitGroup + 1, nextHandler := s.nextHandler + 1)
      else s
    case BeginShutdown => s.(shutdown := StoppingHttp, life := Stopping)
    case HttpStopped => s.(shutdown := StoppingHub)
    case CloseHub => s.(shutdown := AwaitingHub(s.hub.nextCaller), hub := HubAfter(s, action))
    case HubWaited => s.(shutdown := AwaitingGroup)
    case GroupWaited => s.(shutdown := Over, life := Stopped)
    case HubMoves(_) => s.(hub := HubAfter(s, action))
    case _ => HandlerMoved(s, action)
  }

  /** An action that is not enabled changes nothing. */
  function Step(s: Server, action: Action): Server {
    if Enabled(s, action) then Effect(s, action) else s
  }

  function Run(actions: seq<Action>): Server {
    if actions == [] then NEW_SERVER else Step(Run(actions[..|actions| - 1]), actions[|actions| - 1])
  }

  // ---------------------------------------------------------------------------------------------------------------
  // What every run keeps
  // ---------------------------------------------------------------------------------------------------------------

  function Rank(phase: Phase): nat {
    match phase
    case Upgrading => 5
    case Registering(_, _) => 4
    case Serving(_) => 3
    case Unregistering(_, _) => 2
    case AwaitingWriter(_) => 1
    case Finished(_) => 0
  }

  /** The handlers that have at least this many steps before them. */
  function AtLeast(handlers: map<HandlerId, Phase>, rank: nat): set<HandlerId> {
    set id | id in handlers && Rank(handlers[id]) >= rank
  }

  /** Reserved but unfinished handlers together with running connections. */
  function Outstanding(s: Server): set<HandlerId> {
    AtLeast(s.handlers, 1)
  }

  function LifeOrder(life: Life): nat {
    match life
    case New => 0
    case Running => 1
    case Stopping => 2
    case Stopped => 3
  }

  ghost predicate HubRight(hub: H.System) {
    H.HubInv(hub) && H.AcceptedRight(hub) && P.AnswersRight(hub)
  }

  predicate Closed(hub: H.System, conn: H.ConnId) {
    conn in hub.links && hub.links[conn].closed
  }

  /** The hub knows the pending call of a handler; a serving connection is registered, one whose reader ended closed. */
  predicate PhaseRight(hub: H.System, phase: Phase) {
    match phase
    case Upgrading => true
    case Registering(conn, caller) =>
      conn in hub.links && caller in hub.callers && hub.callers[caller].request == H.Register(conn)
    case Serving(conn) => conn in hub.links && conn in hub.registered
    case Unregistering(conn, caller) =>
      conn in hub.links && caller in hub.callers && hub.callers[caller].request == H.Unregister(conn)
    case AwaitingWriter(conn) => Closed(hub, conn)
    case Finished(last) => last.Some? ==> Closed(hub, last.value)
  }

  function ConnOf(phase: Phase): Option<H.ConnId> {
    match phase
    case Upgrading => None
    case Registering(conn, _) => Some(conn)
    case Serving(conn) => Some(conn)
    case Unregistering(conn, _) => Some(conn)
    case AwaitingWriter(conn) => Some(conn)
    case Finished(last) => last
  }

  ghost predicate PhasesRight(s: Server) {
    forall id :: id in s.handlers ==> id < s.nextHandler && PhaseRight(s.hub, s.handlers[id])
  }

  /** Every connection there is was made by a handler that still has it. */
  ghost predicate OwnersRight(s: Server) {
    && s.owners.Keys == s.hub.links.Keys
    && forall conn :: conn in s.owners ==> s.owners[conn] in s.handlers && ConnOf(s.handlers[s.owners[conn]]) == Some(conn)
  }

  ghost predicate ShutdownRight(s: Server) {
    && (s.shutdown.AwaitingHub? ==>
          s.shutdown.caller in s.hub.callers && s.hub.callers[s.shutdown.caller].request == H.Shutdown)
    && (s.shutdown.AwaitingGroup? || s.shutdown.Over? ==> H.Done(s.hub))
    && (s.shutdown.NotBegun? <==> s.life.New? || s.life.Running?)
    && (s.shutdown.Over? <==> s.life.Stopped?)
  }

  ghost predicate GroupRight(s: Server) {
    s.waitGroup == |Outstanding(s)| && (s.life.Stopped? ==> s.waitGroup == 0)
  }

  ghost predicate ServerInv(s: Server) {
    HubRight(s.hub) && PhasesRight(s) && OwnersRight(s) && ShutdownRight(s) && GroupRight(s)
  }

  /** One step of the hub: its own invariants hold, it forgets nothing, and only Connect makes connections. */
  lemma HubMovesOn(hub: H.System, action: H.Action)
    requires HubRight(hub)
    ensures HubRight(H.Step(hub, action)) && P.Remembers(hub, H.Step(hub, action))
    ensures !action.Connect? ==> H.Step(hub, action).links.Keys == hub.links.Keys
  {
    H.StepKeeps(hub, action);
    H.StepKeepsAccepted(hub, action);
    P.StepRemembers(hub, action);
    LinksStay(hub, action);
  }

  lemma LinksStay(hub: H.System, action: H.Action)
    ensures !action.Connect? ==> H.Step(hub, action).links.Keys == hub.links.Keys
  {
  }

  lemma HubAfterRight(s: Server, action: Action)
    requires HubRight(s.hub) && Enabled(s, action)
    ensures HubRight(HubAfter(s, action)) && P.Remembers(s.hub, HubAfter(s, action))
    ensures !action.UpgradeSucceeds? ==> HubAfter(s, action).links.Keys == s.hub.links.Keys
  {
    if HubEffect(s, action).Some? {
      HubMovesOn(s.hub, HubEffect(s, action).value);
    }
  }

  lemma PhaseStaysRight(hub: H.System, after: H.System, phase: Phase)
    requires PhaseRight(hub, phase) && P.Remembers(hub, after)
    ensures PhaseRight(after, phase)
  {
  }

  /** Where a handler's step leads is right for the hub as the step leaves it. */
  lemma NextIsRight(s: Server, action: Action)
    requires HubRight(s.hub) && Enabled(s, action) && Next(s, action).Some?
    requires PhaseRight(s.hub, s.handlers[action.id])
    ensures Next(s, action).value.0 == action.id && PhaseRight(HubAfter(s, action), Next(s, action).value.1)
    ensures !action.UpgradeSucceeds? ==> ConnOf(Next(s, action).value.1) == ConnOf(s.handlers[action.id])
  {
    if action.RegisterReturns? && Taken(s, action.id) {
      assert H.ToldAccepted(s.hub, s.handlers[action.id].caller, s.handlers[action.id].conn) by {
        AcceptedAnswer(s.hub, s.handlers[action.id].caller);
      }
    }
  }

  lemma AcceptedAnswer(hub: H.System, caller: H.CallerId)
    requires CallReturned(hub, caller) && hub.callers[caller].answer.Accepted?
    ensures hub.callers[caller] == H.Returned(hub.callers[caller].request, H.Accepted)
  {
  }

  lemma HandlerStepKeepsPhases(s: Server, action: Action)
    requires HubRight(s.hub) && PhasesRight(s) && OwnersRight(s) && Enabled(s, action) && Next(s, action).Some?
    ensures PhasesRight(HandlerMoved(s, action)) && OwnersRight(HandlerMoved(s, action))
  {
    var after := HandlerMoved(s, action);
    NextIsRight(s, action);
    HubAfterRight(s, action);
    forall id | id in after.handlers ensures id < after.nextHandler && PhaseRight(after.hub, after.handlers[id]) {
      if id != action.id {
        PhaseStaysRight(s.hub, after.hub, s.handlers[id]);
      }
    }
  }

  /** One handler moves down: exactly the sets between its old and its new rank lose it. */
  lemma MoveShrinks(handlers: map<HandlerId, Phase>, id: HandlerId, phase: Phase, rank: nat)
    requires id in handlers && Rank(phase) < Rank(handlers[id])
    ensures var after := handlers[id := phase];
            |AtLeast(after, rank)|
            == |AtLeast(handlers, rank)| - if Rank(phase) < rank <= Rank(handlers[id]) then 1 else 0
  {
    var after := handlers[id := phase];
    if Rank(phase) < rank <= Rank(handlers[id]) {
      assert AtLeast(handlers, rank) == AtLeast(after, rank) + {id};
    } else {
      assert AtLeast(handlers, rank) == AtLeast(after, rank);
    }
  }

  lemma HandlerStepKeepsGroup(s: Server, action: Action)
    requires GroupRight(s) && Enabled(s, action) && Next(s, action).Some?
    requires s.life.Stopped? ==> s.waitGroup == 0
    ensures GroupRight(HandlerMoved(s, action))
  {
    var (id, phase) := Next(s, action).value;
    MoveShrinks(s.handlers, id, phase, 1);
    assert AtLeast(s.handlers[id := phase], 1) == Outstanding(HandlerMoved(s, action));
    assert id in Outstanding(s);
  }

  lemma HandlerStepKeepsShutdown(s: Server, action: Action)
    requires ShutdownRight(s) && Enabled(s, action) && Next(s, action).Some?
    requires P.Remembers(s.hub, HubAfter(s, action))
    ensures ShutdownRight(HandlerMoved(s, action))
  {
  }

  lemma HandlerStepKeeps(s: Server, action: Action)
    requires ServerInv(s) && Enabled(s, action) && Next(s, action).Some?
    ensures ServerInv(HandlerMoved(s, action))
  {
    HandlerStepKeepsPhases(s, action);
    HubAfterRight(s, action);
    HandlerStepKeepsShutdown(s, action);
    HandlerStepKeepsGroup(s, action);
  }

  lemma AttemptKeeps(s: Server)
    requires ServerInv(s) && s.life.Running?
    ensures ServerInv(Effect(s, Attempt))
  {
    var after := Effect(s, Attempt);
    assert Outstanding(after) == Outstanding(s) + {s.nextHandler};
    assert s.nextHandler !in s.handlers;
  }

  /** Steps that leave the handlers alone. */
  lemma OtherStepKeeps(s: Server, action: Action)
    requires ServerInv(s) && Enabled(s, action) && Next(s, action).None? && !action.Attempt?
    ensures ServerInv(Effect(s, action))
  {
    var after := Effect(s, action);
    HubAfterRight(s, action);
    forall id | id in after.handlers ensures id < after.nextHandler && PhaseRight(after.hub, after.handlers[id]) {
      PhaseStaysRight(s.hub, after.hub, s.handlers[id]);
    }
    ShutdownStepKeeps(s, action);
  }

  lemma ShutdownStepKeeps(s: Server, action: Action)
    requires HubRight(s.hub) && ShutdownRight(s) && Enabled(s, action) && Next(s, action).None? && !action.Attempt?
    requires P.Remembers(s.hub, HubAfter(s, action))
    ensures ShutdownRight(Effect(s, action))
  {
  }

  lemma StepKeeps(s: Server, action: Action)
    requires ServerInv(s)
    ensures ServerInv(Step(s, action))
  {
    if Enabled(s, action) {
      if Next(s, action).Some? {
        HandlerStepKeeps(s, action);
      } else if !action.Attempt? {
        OtherStepKeeps(s, action);
      } else if s.life.Running? {
        AttemptKeeps(s);
      }
    }
  }

  lemma UntouchedIsRight(s: Server)
    requires s.handlers == map[] && s.waitGroup == 0 && s.owners == map[] && H.Untouched(s.hub)
    requires s.life.New? && s.shutdown.NotBegun?
    ensures ServerInv(s)
  {
    H.UntouchedIsRight(s.hub);
    P.UntouchedAnswersRight(s.hub);
    assert Outstanding(s) == {};
  }

  lemma {:induction false} ServerInvAlways(actions: seq<Action>)
    ensures ServerInv(Run(actions))
  {
    if actions == [] {
      UntouchedIsRight(Run(actions));
    } else {
      ServerInvAlways(actions[..|actions| - 1]);
      StepKeeps(Run(actions[..|actions| - 1]), actions[|actions| - 1]);
    }
  }

  // ---------------------------------------------------------------------------------------------------------------
  // Results
  // ---------------------------------------------------------------------------------------------------------------

  lemma RunExtends(actions: seq<Action>, action: Action)
    ensures Run(actions + [action]) == Step(Run(actions), action)
  {
    assert (actions + [action])[..|actions|] == actions;
  }

  /** From the first state to the second the server moved forward. */
  predicate Forward(s: Server, t: Server) {
    LifeOrder(s.life) <= LifeOrder(t.life) && (LifeOrder(s.life) >= 2 ==> t.waitGroup <= s.waitGroup)
  }

  lemma StepMovesForward(s: Server, action: Action)
    requires ShutdownRight(s)
    ensures Forward(s, Step(s, action))
    ensures !action.Start? ==> Step(s, action).starts == s.starts
  {
  }

  lemma RunMovesForward(actions: seq<Action>, action: Action)
    ensures Forward(Run(actions), Run(actions + [action]))
  {
    ServerInvAlways(actions);
    RunExtends(actions, action);
    StepMovesForward(Run(actions), action);
  }

  /** The state never moves back, and from Stopping on the wait group never grows. */
  lemma {:induction false} LifeMovesForward(actions: seq<Action>, more: seq<Action>)
    ensures LifeOrder(Run(actions).life) <= LifeOrder(Run(actions + more).life)
    ensures LifeOrder(Run(actions).life) >= 2 ==> Run(actions + more).waitGroup <= Run(actions).waitGroup
  {
    if more == [] {
      assert actions + more == actions;
    } else {
      var n := |more| - 1;
      LifeMovesForward(actions, more[..n]);
      assert actions + more[..n] + [more[n]] == actions + more;
      RunMovesForward(actions + more[..n], more[n]);
    }
  }

  /**
   For every interleaving of server, handlers, hub, hub callers and connections: the wait group counts exactly the
   reserved handlers and running connections, and once the server is Stopped every handler has ended, the hub is done
   with an empty map, every connection ever made is stopped, its done channel closed once, and every Start and connection
   attempt is refused.
   */
  lemma StoppedMeansStopped(actions: seq<Action>)
    ensures var s := Run(actions);
            && s.waitGroup == |Outstanding(s)|
            && (s.life.Stopped? ==>
                  && (forall id :: id in s.handlers ==> s.handlers[id].Finished?)
                  && H.Done(s.hub) && s.hub.connections == {}
                  && (forall conn :: conn in s.hub.links ==> s.hub.links[conn].closed && s.hub.links[conn].doneCloses == 1)
                  && Step(s, Start).starts == s.starts + [ServerClosed] && Step(s, Attempt) == s)
  {
    ServerInvAlways(actions);
    var s := Run(actions);
    if s.life.Stopped? {
      StoppedIsOver(s);
    }
  }

  lemma StoppedIsOver(s: Server)
    requires ServerInv(s) && s.life.Stopped?
    ensures forall id :: id in s.handlers ==> s.handlers[id].Finished?
    ensures H.Done(s.hub) && s.hub.connections == {}
    ensures forall conn :: conn in s.hub.links ==> s.hub.links[conn].closed && s.hub.links[conn].doneCloses == 1
  {
    forall id | id in s.handlers ensures s.handlers[id].Finished? {
      assert id !in Outstanding(s);
    }
    forall conn | conn in s.hub.links ensures s.hub.links[conn].closed {
      assert PhaseRight(s.hub, s.handlers[s.owners[conn]]);
    }
  }

  ghost predicate StartedOnce(s: Server) {
    && (s.life.New? ==> s.starts == [])
    && forall i :: 0 <= i < |s.starts| && s.starts[i].Started? ==> i == 0
  }

  lemma StepStartsOnce(s: Server, action: Action)
    requires ShutdownRight(s) && StartedOnce(s)
    ensures StartedOnce(Step(s, action))
  {
    if !action.Start? {
      StepMovesForward(s, action);
    }
  }

  /** Only the first Start before any Shutdown is let through. */
  lemma {:induction false} StartsOnce(actions: seq<Action>)
    ensures StartedOnce(Run(actions))
  {
    if actions != [] {
      StartsOnce(actions[..|actions| - 1]);
      ServerInvAlways(actions[..|actions| - 1]);
      StepStartsOnce(Run(actions[..|actions| - 1]), actions[|actions| - 1]);
    }
  }
}
