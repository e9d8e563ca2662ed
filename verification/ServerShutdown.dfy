/** Shutdown of server and hub together comes to an end, on every schedule. */
module ServerShutdown {
  import opened Common
  import opened ServerLifecycle
  import H = HubMachine
  import P = HubProgress

  /** A Shutdown call of the hub is about to close closeAll for the first time. */
  predicate Closes(hub: H.System, action: H.Action) {
    action.CloseAll? && !hub.closeAll && H.IsWaiting(hub, action.caller) && hub.callers[action.caller].request.Shutdown?
  }

  /** Steps that happen without help from outside: a read loop ends by itself only once its connection is closed. */
  predicate Assured(s: Server, action: Action) {
    && Enabled(s, action)
    && match action
       case Start => false
       case Attempt => false
       case BeginShutdown => false
       case ReadEnds(id) => Closed(s.hub, s.handlers[id].conn)
       case HubMoves(hubAction) => P.Progress(s.hub, hubAction) || Closes(s.hub, hubAction)
       case _ => true
  }

  function ShutdownWork(pc: ShutdownPc): nat {
    match pc
    case NotBegun => 5
    case StoppingHttp => 4
    case StoppingHub => 3
    case AwaitingHub(_) => 2
    case AwaitingGroup => 1
    case Over => 0
  }

  /** The steps still to be made by handlers. */
  function HandlerWork(handlers: map<HandlerId, Phase>): nat {
    |AtLeast(handlers, 1)| + |AtLeast(handlers, 2)| + |AtLeast(handlers, 3)| + |AtLeast(handlers, 4)| + |AtLeast(handlers, 5)|
  }

  /** The hub calls still to be made: two by a handler before its connection exists, one until its read loop ends. */
  function CallsToCome(s: Server): nat {
    |AtLeast(s.handlers, 3)| + |AtLeast(s.handlers, 5)|
    + if s.shutdown.NotBegun? || s.shutdown.StoppingHttp? || s.shutdown.StoppingHub? then 1 else 0
  }

  /** All assured steps still to be made by server, handlers, hub and callers together. */
  function Work(s: Server): nat {
    ShutdownWork(s.shutdown) + (if s.hub.closeAll then 0 else 1) + HandlerWork(s.handlers) + P.Load(s.hub, CallsToCome(s))
  }

  lemma LoadGrows(hub: H.System, less: nat, more: nat)
    requires less <= more
    ensures P.Load(hub, less) <= P.Load(hub, more)
  {
    RoundsGrow(|hub.connections|, |P.Pending(hub)| + less, |P.Pending(hub)| + more);
  }

  lemma RoundsGrow(conns: nat, few: nat, many: nat)
    requires few <= many
    ensures few * (conns + few + 3) <= many * (conns + many + 3)
  {
    MulMonotone(conns + few + 3, conns + many + 3, few);
    MulMonotone(few, many, conns + many + 3);
  }

  lemma MoveShrinksWork(handlers: map<HandlerId, Phase>, id: HandlerId, phase: Phase)
    requires id in handlers && Rank(phase) < Rank(handlers[id])
    ensures HandlerWork(handlers[id := phase]) < HandlerWork(handlers)
  {
    MoveShrinks(handlers, id, phase, 1);
    MoveShrinks(handlers, id, phase, 2);
    MoveShrinks(handlers, id, phase, 3);
    MoveShrinks(handlers, id, phase, 4);
    MoveShrinks(handlers, id, phase, 5);
  }

  /** A handler that calls the hub had that call to come; one that does not has no more to come than before. */
  lemma HandlerCallsWereToCome(s: Server, action: Action)
    requires Enabled(s, action) && Next(s, action).Some?
    ensures var after := HandlerMoved(s, action);
            CallsToCome(after) + (if action.UpgradeSucceeds? || action.ReadEnds? then 1 else 0) <= CallsToCome(s)
  {
    var (id, phase) := Next(s, action).value;
    MoveShrinks(s.handlers, id, phase, 3);
    MoveShrinks(s.handlers, id, phase, 5);
  }

  /** A handler's call was expected by the load. */
  lemma CallingLoad(s: Server, action: Action)
    requires HubRight(s.hub) && Enabled(s, action) && (action.UpgradeSucceeds? || action.ReadEnds?)
    requires PhaseRight(s.hub, s.handlers[action.id])
    ensures P.Load(HubAfter(s, action), CallsToCome(HandlerMoved(s, action))) <= P.Load(s.hub, CallsToCome(s))
  {
    HandlerCallsWereToCome(s, action);
    var later := CallsToCome(HandlerMoved(s, action));
    HandlerCalls(s, action, later);
    LoadGrows(s.hub, later + 1, CallsToCome(s));
  }

  lemma HandlerCalls(s: Server, action: Action, later: nat)
    requires HubRight(s.hub) && Enabled(s, action) && (action.UpgradeSucceeds? || action.ReadEnds?)
    requires PhaseRight(s.hub, s.handlers[action.id])
    ensures P.Load(HubAfter(s, action), later) == P.Load(s.hub, later + 1)
  {
    var call := HubEffect(s, action).value;
    assert H.Step(s.hub, call).nextCaller == s.hub.nextCaller + 1;
    P.CallIsExpected(s.hub, call, later);
  }

  /** Any other step of a handler at most stops its connection. */
  lemma QuietLoad(s: Server, action: Action)
    requires Enabled(s, action) && Next(s, action).Some? && !action.UpgradeSucceeds? && !action.ReadEnds?
    ensures P.Load(HubAfter(s, action), CallsToCome(HandlerMoved(s, action))) <= P.Load(s.hub, CallsToCome(s))
  {
    HandlerCallsWereToCome(s, action);
    var later := CallsToCome(HandlerMoved(s, action));
    if HubEffect(s, action).Some? {
      P.OthersKeepLoad(s.hub, HubEffect(s, action).value, later);
    }
    LoadGrows(s.hub, later, CallsToCome(s));
  }

  lemma HandlerLeavesClosing(s: Server, action: Action)
    requires Enabled(s, action) && Next(s, action).Some?
    ensures HubAfter(s, action).closeAll == s.hub.closeAll
  {
  }

  lemma HandlerStepsDecrease(s: Server, action: Action)
    requires HubRight(s.hub) && Enabled(s, action) && Next(s, action).Some? && PhaseRight(s.hub, s.handlers[action.id])
    ensures Work(HandlerMoved(s, action)) < Work(s)
  {
    if action.UpgradeSucceeds? || action.ReadEnds? {
      CallingLoad(s, action);
    } else {
      QuietLoad(s, action);
    }
    HandlerLeavesClosing(s, action);
    HandlerRankFalls(s, action);
    MoveShrinksWork(s.handlers, action.id, Next(s, action).value.1);
  }

  lemma HandlerRankFalls(s: Server, action: Action)
    requires Enabled(s, action) && Next(s, action).Some?
    ensures var (id, phase) := Next(s, action).value;
            id == action.id && id in s.handlers && Rank(phase) < Rank(s.handlers[id])
  {
  }

  /** The server's own steps of Shutdown. */
  lemma ShutdownStepsDecrease(s: Server, action: Action)
    requires HubRight(s.hub) && Enabled(s, action)
    requires action.HttpStopped? || action.CloseHub? || action.HubWaited? || action.GroupWaited?
    ensures Work(Effect(s, action)) < Work(s)
  {
    if action.CloseHub? {
      CloseHubDecreases(s);
    } else {
      assert CallsToCome(Effect(s, action)) == CallsToCome(s);
    }
  }

  lemma CloseHubDecreases(s: Server)
    requires HubRight(s.hub) && Enabled(s, CloseHub)
    ensures Work(Effect(s, CloseHub)) < Work(s)
  {
    var call := H.Call(H.Shutdown);
    var after := Effect(s, CloseHub);
    assert H.Step(s.hub, call).nextCaller == s.hub.nextCaller + 1;
    assert CallsToCome(s) == CallsToCome(after) + 1;
    P.CallIsExpected(s.hub, call, CallsToCome(after));
  }

  /** A step of hub, caller or connection that is progress or closes closeAll; any other but a call weighs nothing. */
  lemma HubStepsWeigh(s: Server, action: H.Action)
    requires HubRight(s.hub) && FromOutside(action) && !action.Call?
    ensures Work(Effect(s, HubMoves(action))) <= Work(s)
    ensures Assured(s, HubMoves(action)) ==> Work(Effect(s, HubMoves(action))) < Work(s)
  {
    var after := Effect(s, HubMoves(action));
    assert CallsToCome(after) == CallsToCome(s);
    if P.Progress(s.hub, action) {
      P.ProgressLightens(s.hub, action, CallsToCome(s));
      ClosingStays(s.hub, action);
    } else {
      P.OthersKeepLoad(s.hub, action, CallsToCome(s));
      ClosingStays(s.hub, action);
    }
  }

  lemma ClosingStays(hub: H.System, action: H.Action)
    ensures hub.closeAll ==> H.Step(hub, action).closeAll
    ensures Closes(hub, action) ==> H.Step(hub, action).closeAll
  {
  }

  /** Every assured step leaves less to do. */
  lemma AssuredStepsDecrease(s: Server, action: Action)
    requires ServerInv(s) && Assured(s, action)
    ensures Work(Step(s, action)) < Work(s)
  {
    if Next(s, action).Some? {
      HandlerRankFalls(s, action);
      HandlerStepsDecrease(s, action);
    } else if action.HubMoves? {
      CallsAreNoProgress(s.hub, action.action);
      HubStepsWeigh(s, action.action);
    } else {
      ShutdownStepsDecrease(s, action);
    }
  }

  lemma CallsAreNoProgress(hub: H.System, action: H.Action)
    ensures action.Call? ==> !P.Progress(hub, action) && !Closes(hub, action)
  {
  }

  /** No new broadcast, push or count is called from outside. */
  predicate NoOutsideCall(action: Action) {
    !(action.HubMoves? && action.action.Call?)
  }

  /** Once Shutdown has begun no other step adds work, except a call from outside. */
  lemma WorkNeverGrows(s: Server, action: Action)
    requires ServerInv(s) && LifeOrder(s.life) >= 2 && NoOutsideCall(action)
    ensures Work(Step(s, action)) <= Work(s)
  {
    if Enabled(s, action) {
      if Next(s, action).Some? {
        HandlerRankFalls(s, action);
        HandlerStepsDecrease(s, action);
      } else if action.HubMoves? {
        HubStepsWeigh(s, action.action);
      } else if !action.Start? && !action.Attempt? && !action.BeginShutdown? {
        ShutdownStepsDecrease(s, action);
      }
    }
  }

  // ---------------------------------------------------------------------------------------------------------------
  // Every schedule
  // ---------------------------------------------------------------------------------------------------------------

  /** The next assured step of a handler that has not finished, once the hub is done. */
  lemma HandlerNotStuck(s: Server, id: HandlerId) returns (action: Action)
    requires ServerInv(s) && H.Done(s.hub) && id in s.handlers && !s.handlers[id].Finished?
    ensures Assured(s, action)
  {
    var phase := s.handlers[id];
    assert PhaseRight(s.hub, phase);
    match phase
    case Upgrading => action := UpgradeFails(id);
    case Registering(_, caller) =>
      action := if CallReturned(s.hub, caller) then RegisterReturns(id) else HubMoves(H.TurnAway(caller));
    case Serving(conn) =>
      assert H.Kept(s.hub, conn);
      action := ReadEnds(id);
    case Unregistering(_, caller) =>
      action := if CallReturned(s.hub, caller) then UnregisterReturns(id) else HubMoves(H.TurnAway(caller));
    case AwaitingWriter(_) => action := WriterEnds(id);
  }

  /** The next assured step while Shutdown waits for the hub. */
  lemma HubNotStuck(s: Server) returns (action: Action)
    requires ServerInv(s) && s.shutdown.AwaitingHub?
    ensures Assured(s, action)
  {
    var caller := s.shutdown.caller;
    if CallReturned(s.hub, caller) {
      action := HubWaited;
    } else if !s.hub.closeAll {
      action := HubMoves(H.CloseAll(caller));
    } else if H.Done(s.hub) {
      action := HubMoves(H.ReturnShutdown(caller));
    } else {
      var own := H.HubCanMove(s.hub);
      action := HubMoves(own);
    }
  }

  /** Between the beginning of Shutdown and its end something assured can always happen. */
  lemma ShutdownNotStuck(s: Server) returns (action: Action)
    requires ServerInv(s) && !s.shutdown.NotBegun? && !s.shutdown.Over?
    ensures Assured(s, action)
  {
    match s.shutdown
    case StoppingHttp => action := HttpStopped;
    case StoppingHub => action := CloseHub;
    case AwaitingHub(_) => action := HubNotStuck(s);
    case AwaitingGroup =>
      if s.waitGroup == 0 {
        action := GroupWaited;
      } else {
        assert Outstanding(s) != {};
        var id :| id in Outstanding(s);
        action := HandlerNotStuck(s, id);
      }
  }

  /** Once begun, Shutdown can complete: by assured steps alone, in at most Work of them, the server is Stopped. */
  lemma {:induction false} ShutdownCompletes(actions: seq<Action>) returns (more: seq<Action>)
    requires !Run(actions).shutdown.NotBegun?
    ensures Run(actions + more).life.Stopped? && |more| <= Work(Run(actions))
    decreases Work(Run(actions))
  {
    ServerInvAlways(actions);
    if Run(actions).shutdown.Over? {
      more := [];
      assert actions + [] == actions;
    } else {
      var action := ShutdownNotStuck(Run(actions));
      AssuredStepsDecrease(Run(actions), action);
      RunExtends(actions, action);
      StepStaysBegun(Run(actions), action);
      var rest := ShutdownCompletes(actions + [action]);
      more := [action] + rest;
      assert actions + more == actions + [action] + rest;
    }
  }

  lemma StepStaysBegun(s: Server, action: Action)
    requires !s.shutdown.NotBegun?
    ensures !Step(s, action).shutdown.NotBegun?
  {
  }

  /** How many of these actions are assured steps where they are taken. */
  function AssuredIn(actions: seq<Action>, more: seq<Action>): nat {
    if more == [] then 0
    else
      var n := |more| - 1;
      AssuredIn(actions, more[..n]) + if Assured(Run(actions + more[..n]), more[n]) then 1 else 0
  }

  lemma {:induction false} WorkIsSpent(actions: seq<Action>, more: seq<Action>)
    requires !Run(actions).shutdown.NotBegun? && forall action :: action in more ==> NoOutsideCall(action)
    ensures AssuredIn(actions, more) + Work(Run(actions + more)) <= Work(Run(actions))
    ensures !Run(actions + more).shutdown.NotBegun?
  {
    if more == [] {
      assert actions + more == actions;
    } else {
      var n := |more| - 1;
      assert more[n] in more;
      WorkIsSpent(actions, more[..n]);
      assert actions + more[..n] + [more[n]] == actions + more;
      RunExtends(actions + more[..n], more[n]);
      ServerInvAlways(actions + more[..n]);
      StepSpends(Run(actions + more[..n]), more[n]);
    }
  }

  lemma StepSpends(s: Server, action: Action)
    requires ServerInv(s) && !s.shutdown.NotBegun? && NoOutsideCall(action)
    ensures (if Assured(s, action) then 1 else 0) + Work(Step(s, action)) <= Work(s)
    ensures !Step(s, action).shutdown.NotBegun?
  {
    WorkNeverGrows(s, action);
    if Assured(s, action) {
      AssuredStepsDecrease(s, action);
    }
    StepStaysBegun(s, action);
  }

  /**
   Shutdown ends on every schedule, not just on a chosen one. From its beginning on, as long as nobody calls the hub from
   outside, server, handlers, hub and callers make at most Work assured steps together, whatever else happens in between;
   and when none is left to make, or that many have been made, the server is Stopped.
   */
  lemma EveryScheduleStops(actions: seq<Action>, more: seq<Action>)
    requires !Run(actions).shutdown.NotBegun? && forall action :: action in more ==> NoOutsideCall(action)
    ensures AssuredIn(actions, more) <= Work(Run(actions))
    ensures AssuredIn(actions, more) == Work(Run(actions)) ==> Run(actions + more).life.Stopped?
    ensures (forall action :: !Assured(Run(actions + more), action)) ==> Run(actions + more).life.Stopped?
  {
    WorkIsSpent(actions, more);
    ServerInvAlways(actions + more);
    StuckOrOver(Run(actions + more));
  }

  lemma StuckOrOver(s: Server)
    requires ServerInv(s) && !s.shutdown.NotBegun?
    ensures Work(s) == 0 ==> s.life.Stopped?
    ensures (forall action :: !Assured(s, action)) ==> s.life.Stopped?
  {
    if !s.shutdown.Over? {
      var action := ShutdownNotStuck(s);
      assert Assured(s, action);
    }
  }
}
