/**
 What the server does for its clients while it runs: starts and attempts are answered as its state says, an attempt gets
 its connection served, and a connection that is being served stays open and mapped until there is a cause to close it.
 */
module ServerServing {
  import opened Common
  import opened ServerLifecycle
  import H = HubMachine
  import P = HubProgress

  /** The answers to Start, and whether a connection attempt gets a place. */
  lemma StartsAndAttempts(s: Server)
    ensures var after := Step(s, Start);
            match s.life
            case New => after == s.(life := Running, starts := s.starts + [Started])
            case Running => after == s.(starts := s.starts + [AlreadyStarted])
            case _ => after == s.(starts := s.starts + [ServerClosed])
    ensures if s.life.Running?
            then Step(s, Attempt) == s.(handlers := s.handlers[s.nextHandler := Upgrading], waitGroup := s.waitGroup + 1,
                                        nextHandler := s.nextHandler + 1)
            else Step(s, Attempt) == s
  {
  }

  /**
   Shutdown runs once and in order: no more attempts, then the HTTP server, then the hub, then the handlers; each stage
   ends only when what it waits for has happened.
   */
  lemma ShutdownInOrder(s: Server, action: Action)
    requires HubRight(s.hub)
    ensures var after := Step(s, action);
            match s.shutdown
            case NotBegun =>
              if action.BeginShutdown? then after.shutdown.StoppingHttp? && after.life.Stopping? && after.hub == s.hub
              else after.shutdown == s.shutdown
            case StoppingHttp => if action.HttpStopped? then after.shutdown.StoppingHub? else after.shutdown == s.shutdown
            case StoppingHub =>
              if action.CloseHub? then
                && after.shutdown == AwaitingHub(s.hub.nextCaller)
                && after.hub.callers == s.hub.callers[s.hub.nextCaller := H.Waiting(H.Shutdown)]
              else after.shutdown == s.shutdown
            case AwaitingHub(caller) =>
              if action.HubWaited? && CallReturned(s.hub, caller) then after.shutdown.AwaitingGroup?
              else after.shutdown == s.shutdown
            case AwaitingGroup =>
              if action.GroupWaited? && s.waitGroup == 0 then after.shutdown.Over? && after.life.Stopped?
              else after.shutdown == s.shutdown
            case Over => after.shutdown == s.shutdown
  {
  }

  /**
   What a handler makes of the hub's answer: if Register said yes it serves the connection as it is, otherwise it stops it
   and gives its place back.
   */
  lemma RegisterDecides(s: Server, id: HandlerId)
    requires id in s.handlers && s.handlers[id].Registering? && CallReturned(s.hub, s.handlers[id].caller)
    requires PhaseRight(s.hub, s.handlers[id])
    ensures var (conn, caller) := (s.handlers[id].conn, s.handlers[id].caller);
            var after := Step(s, RegisterReturns(id));
            && (H.ToldAccepted(s.hub, caller, conn) ==> after == s.(handlers := s.handlers[id := Serving(conn)]))
            && (!H.ToldAccepted(s.hub, caller, conn) ==>
                  && id in after.handlers && after.handlers[id] == Finished(Some(conn)) && Closed(after.hub, conn)
                  && after.waitGroup == s.waitGroup - 1)
  {
    var (conn, caller) := (s.handlers[id].conn, s.handlers[id].caller);
    assert Taken(s, id) <==> H.ToldAccepted(s.hub, caller, conn);
  }

  /** When the read loop ends the handler unregisters its own connection. */
  lemma ReaderUnregisters(s: Server, id: HandlerId)
    requires HubRight(s.hub) && id in s.handlers && s.handlers[id].Serving? && PhaseRight(s.hub, s.handlers[id])
    ensures var (conn, caller) := (s.handlers[id].conn, s.hub.nextCaller);
            var after := Step(s, ReadEnds(id));
            && after.handlers == s.handlers[id := Unregistering(conn, caller)]
            && after.hub.callers == s.hub.callers[caller := H.Waiting(H.Unregister(conn))]
            && after.waitGroup == s.waitGroup
  {
  }

  /** Whatever the hub answers, the connection is then stopped, and at the end the place given back. */
  lemma UnregisteredIsStopped(s: Server, id: HandlerId)
    requires id in s.handlers && s.handlers[id].Unregistering? && CallReturned(s.hub, s.handlers[id].caller)
    requires PhaseRight(s.hub, s.handlers[id])
    ensures var conn := s.handlers[id].conn;
            var stopped := Step(s, UnregisterReturns(id));
            var ended := Step(stopped, WriterEnds(id));
            && stopped.handlers == s.handlers[id := AwaitingWriter(conn)] && Closed(stopped.hub, conn)
            && stopped.waitGroup == s.waitGroup
            && id in ended.handlers && ended.handlers[id] == Finished(Some(conn)) && ended.hub == stopped.hub
            && ended.waitGroup == s.waitGroup - 1
  {
  }

  /** The hub takes a connection it has just been offered. */
  lemma HubTakesNew(hub: H.System)
    requires HubRight(hub) && hub.pc.Selecting?
    ensures var (conn, caller) := (hub.nextConn, hub.nextCaller);
            var offered := H.Step(hub, H.Connect);
            var taken := H.Step(offered, H.Serve(caller));
            && conn !in hub.links && offered.nextCaller == caller + 1
            && H.ToldAccepted(taken, caller, conn) && taken.connections == hub.connections + {conn}
            && conn in taken.links && !taken.links[conn].closed
  {
    var offered := H.Step(hub, H.Connect);
    assert H.CanServe(offered, hub.nextCaller);
  }

  /** The steps of an attempt whose upgrade succeeds and whose Register call the hub takes. */
  function Admitting(s: Server): (Server, Server) {
    var reserved := Step(s, Attempt);
    var upgraded := Step(reserved, UpgradeSucceeds(s.nextHandler));
    var registered := Step(upgraded, HubMoves(H.Serve(s.hub.nextCaller)));
    (registered, Step(registered, RegisterReturns(s.nextHandler)))
  }

  lemma AdmittingRegisters(s: Server)
    requires s.life.Running?
    ensures var (id, conn, caller) := (s.nextHandler, s.hub.nextConn, s.hub.nextCaller);
            var registered := Admitting(s).0;
            && registered.hub == H.Step(H.Step(s.hub, H.Connect), H.Serve(caller))
            && registered.handlers == s.handlers[id := Upgrading][id := Registering(conn, caller)]
            && registered.waitGroup == s.waitGroup + 1
  {
    var reserved := Step(s, Attempt);
    assert reserved.handlers == s.handlers[s.nextHandler := Upgrading] && reserved.hub == s.hub;
  }

  /** A running server with an idle hub gets an attempt served: the connection is new, open, mapped and counted. */
  lemma AttemptIsServed(s: Server)
    requires HubRight(s.hub) && s.life.Running? && s.hub.pc.Selecting?
    ensures var (id, conn) := (s.nextHandler, s.hub.nextConn);
            var served := Admitting(s).1;
            && conn !in s.hub.links
            && id in served.handlers && served.handlers[id] == Serving(conn)
            && conn in served.hub.links && !served.hub.links[conn].closed
            && served.hub.connections == s.hub.connections + {conn}
            && served.waitGroup == s.waitGroup + 1
  {
    AdmittingRegisters(s);
    HubTakesNew(s.hub);
    RegisterDecides(Admitting(s).0, s.nextHandler);
  }

  // ---------------------------------------------------------------------------------------------------------------
  // A served connection stays open
  // ---------------------------------------------------------------------------------------------------------------

  /** The handler has its connection and has not left its read loop. */
  predicate Holding(s: Server, conn: H.ConnId) {
    conn in s.owners && s.owners[conn] in s.handlers && Rank(s.handlers[s.owners[conn]]) >= 3
  }

  /** Nobody but the owner of a connection has it, and only owners that left their read loop unregister. */
  ghost predicate OwnersOnly(s: Server) {
    && (forall id :: id in s.handlers && ConnOf(s.handlers[id]).Some? ==>
          ConnOf(s.handlers[id]).value in s.owners && s.owners[ConnOf(s.handlers[id]).value] == id)
    && (forall c :: c in s.hub.callers && s.hub.callers[c].request.Unregister? ==>
          s.hub.callers[c].request.conn in s.owners && !Holding(s, s.hub.callers[c].request.conn))
  }

  /** The hub has no business with stopping this connection. */
  predicate LeftAlone(hub: H.System, conn: H.ConnId) {
    && conn in hub.links && !hub.links[conn].closed && hub.pc != H.Stopping(conn)
    && (conn in hub.registered ==> conn in hub.connections)
  }

  ghost predicate OpenWhileHeld(s: Server) {
    !s.hub.closeAll ==> forall conn :: Holding(s, conn) ==> LeftAlone(s.hub, conn)
  }

  /** No write failure, expired deadline or the like stops a connection from elsewhere. */
  predicate NoFailure(action: Action) {
    !(action.HubMoves? && action.action.StopElsewhere?)
  }

  /** What a step of the hub may do to a connection it has not been asked to unregister. */
  lemma HubLeavesAlone(hub: H.System, action: H.Action, conn: H.ConnId)
    requires HubRight(hub) && LeftAlone(hub, conn) && !H.Step(hub, action).closeAll
    requires forall c :: c in hub.callers ==> hub.callers[c].request != H.Unregister(conn)
    requires action != H.StopElsewhere(conn)
    ensures LeftAlone(H.Step(hub, action), conn)
  {
    match action
    case Serve(caller) => if H.CanServe(hub, caller) { ServeLeavesAlone(hub, caller, conn); }
    case Visit(_) => LoopLeavesAlone(hub, action, conn);
    case Proceed => LoopLeavesAlone(hub, action, conn);
    case _ =>
  }

  lemma ServeLeavesAlone(hub: H.System, caller: H.CallerId, conn: H.ConnId)
    requires HubRight(hub) && LeftAlone(hub, conn) && H.CanServe(hub, caller)
    requires hub.callers[caller].request != H.Unregister(conn)
    ensures LeftAlone(H.Served(hub, caller), conn)
  {
  }

  lemma LoopLeavesAlone(hub: H.System, action: H.Action, conn: H.ConnId)
    requires HubRight(hub) && LeftAlone(hub, conn) && !hub.closeAll && (action.Visit? || action.Proceed?)
    ensures LeftAlone(H.Step(hub, action), conn)
  {
  }

  lemma StepKeepsOwnersOnly(s: Server, action: Action)
    requires ServerInv(s) && OwnersOnly(s)
    ensures OwnersOnly(Step(s, action))
  {
    if Enabled(s, action) {
      HubAfterRight(s, action);
      if Next(s, action).Some? {
        HandlerKeepsOwnersOnly(s, action);
      } else {
        OthersKeepOwnersOnly(s, action);
      }
    }
  }

  /** The Unregister calls of the hub after a step are the earlier ones and that of a handler whose read loop ends. */
  lemma UnregistersAfter(s: Server, action: Action)
    requires HubRight(s.hub) && Enabled(s, action)
    ensures var hub := HubAfter(s, action);
            forall c :: c in hub.callers && hub.callers[c].request.Unregister? ==>
              || (c in s.hub.callers && s.hub.callers[c].request == hub.callers[c].request)
              || (action.ReadEnds? && hub.callers[c].request == H.Unregister(s.handlers[action.id].conn))
  {
    if HubEffect(s, action).Some? {
      CallersAfter(s.hub, HubEffect(s, action).value);
    }
  }

  lemma CallersAfter(hub: H.System, action: H.Action)
    requires HubRight(hub)
    ensures var after := H.Step(hub, action);
            forall c :: c in after.callers ==>
              || (c in hub.callers && hub.callers[c].request == after.callers[c].request)
              || (action.Connect? && after.callers[c].request.Register?)
              || (action.Call? && after.callers[c].request == action.request)
  {
    P.StepRemembers(hub, action);
    NewCallersOnly(hub, action);
  }

  lemma NewCallersOnly(hub: H.System, action: H.Action)
    ensures forall c :: c in H.Step(hub, action).callers && c !in hub.callers ==>
              || (action.Connect? && H.Step(hub, action).callers[c].request.Register?)
              || (action.Call? && H.Step(hub, action).callers[c].request == action.request)
  {
  }

  lemma HandlerKeepsOwnersOnly(s: Server, action: Action)
    requires ServerInv(s) && OwnersOnly(s) && Enabled(s, action) && Next(s, action).Some?
    ensures OwnersOnly(HandlerMoved(s, action))
  {
    var after := HandlerMoved(s, action);
    NextIsRight(s, action);
    UnregistersAfter(s, action);
    assert s.hub.nextConn !in s.owners;
    forall c | c in after.hub.callers && after.hub.callers[c].request.Unregister?
      ensures after.hub.callers[c].request.conn in after.owners && !Holding(after, after.hub.callers[c].request.conn)
    {
      var conn := after.hub.callers[c].request.conn;
      HoldingShrinks(s, action, conn);
    }
  }

  /** Only a successful upgrade makes a handler hold a connection, and a new one at that. */
  lemma HoldingShrinks(s: Server, action: Action, conn: H.ConnId)
    requires ServerInv(s) && OwnersOnly(s) && Enabled(s, action) && Next(s, action).Some?
    requires conn in s.owners
    ensures conn in HandlerMoved(s, action).owners
    ensures Holding(HandlerMoved(s, action), conn) ==> Holding(s, conn)
    ensures action.ReadEnds? && s.handlers[action.id].conn == conn ==> !Holding(HandlerMoved(s, action), conn)
  {
    NextIsRight(s, action);
  }

  lemma OthersKeepOwnersOnly(s: Server, action: Action)
    requires ServerInv(s) && OwnersOnly(s) && Enabled(s, action) && Next(s, action).None?
    ensures OwnersOnly(Effect(s, action))
  {
    UnregistersAfter(s, action);
    var after := Effect(s, action);
    assert after.owners == s.owners;
    forall conn | conn in s.owners ensures Holding(after, conn) <==> Holding(s, conn) {
      assert s.owners[conn] in s.handlers;
    }
  }

  /** Who holds a connection after a step held it before, or has just made it. */
  lemma HeldBefore(s: Server, action: Action, conn: H.ConnId)
    requires ServerInv(s) && OwnersOnly(s) && Holding(Step(s, action), conn)
    ensures Holding(s, conn) || (Enabled(s, action) && action.UpgradeSucceeds? && conn == s.hub.nextConn)
  {
    if Enabled(s, action) && Next(s, action).Some? {
      if conn in s.owners {
        HoldingShrinks(s, action, conn);
      }
    }
  }

  lemma StepKeepsOpen(s: Server, action: Action)
    requires ServerInv(s) && OwnersOnly(s) && OpenWhileHeld(s) && NoFailure(action)
    ensures OpenWhileHeld(Step(s, action))
  {
    var after := Step(s, action);
    if Enabled(s, action) && !after.hub.closeAll {
      forall conn | Holding(after, conn) ensures LeftAlone(after.hub, conn) {
        HeldBefore(s, action, conn);
        if Holding(s, conn) {
          HeldStaysAlone(s, action, conn);
        }
      }
    }
  }

  lemma HeldStaysAlone(s: Server, action: Action, conn: H.ConnId)
    requires ServerInv(s) && OwnersOnly(s) && OpenWhileHeld(s) && NoFailure(action) && Enabled(s, action)
    requires Holding(s, conn) && Holding(Step(s, action), conn) && !Step(s, action).hub.closeAll
    ensures LeftAlone(Step(s, action).hub, conn)
  {
    HubAfterRight(s, action);
    if HubEffect(s, action).Some? {
      OwnStopOnly(s, action, conn);
      HubLeavesAlone(s.hub, HubEffect(s, action).value, conn);
    }
  }

  /** The only stop a handler makes is of its own connection, which it then holds no longer. */
  lemma OwnStopOnly(s: Server, action: Action, conn: H.ConnId)
    requires OwnersOnly(s) && NoFailure(action) && Enabled(s, action) && HubEffect(s, action).Some?
    requires Holding(s, conn) && Holding(Step(s, action), conn)
    ensures HubEffect(s, action).value != H.StopElsewhere(conn)
    ensures forall c :: c in s.hub.callers ==> s.hub.callers[c].request != H.Unregister(conn)
  {
    if action.RegisterReturns? || action.UnregisterReturns? {
      assert ConnOf(s.handlers[action.id]) == Some(s.handlers[action.id].conn);
    }
  }

  lemma {:induction false} HeldStaysOpen(actions: seq<Action>)
    requires forall action :: action in actions ==> NoFailure(action)
    ensures OwnersOnly(Run(actions)) && OpenWhileHeld(Run(actions))
  {
    if actions != [] {
      var n := |actions| - 1;
      assert actions[n] in actions;
      HeldStaysOpen(actions[..n]);
      ServerInvAlways(actions[..n]);
      StepKeepsOwnersOnly(Run(actions[..n]), actions[n]);
      StepKeepsOpen(Run(actions[..n]), actions[n]);
    }
  }

  /**
   Nobody is disconnected without cause: as long as nothing fails and the hub has not been told to close, every
   connection being served is open, in the hub's map, and about to be neither stopped nor unregistered.
   */
  lemma ServedStaysOpen(actions: seq<Action>, id: HandlerId)
    requires forall action :: action in actions ==> NoFailure(action)
    requires id in Run(actions).handlers && Run(actions).handlers[id].Serving? && !Run(actions).hub.closeAll
    ensures var s := Run(actions);
            var conn := s.handlers[id].conn;
            && conn in s.hub.links && !s.hub.links[conn].closed && conn in s.hub.connections && s.hub.pc != H.Stopping(conn)
            && forall c :: c in s.hub.callers ==> s.hub.callers[c].request != H.Unregister(conn)
  {
    HeldStaysOpen(actions);
    ServerInvAlways(actions);
    var s := Run(actions);
    var conn := s.handlers[id].conn;
    assert ConnOf(s.handlers[id]) == Some(conn) && Holding(s, conn);
    assert PhaseRight(s.hub, s.handlers[id]);
  }
}
