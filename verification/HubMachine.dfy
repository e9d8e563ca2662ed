/**
 The hub under any number of concurrent callers (internal/transport/hub.go): rendezvous channels, the event loop and its
 inner loops, closeAll and done.
 */
module HubMachine {
  import opened Common
  import opened Connection

  type ConnId = nat
  type CallerId = nat

  datatype Request =
    | Register(conn: ConnId)
    | Unregister(conn: ConnId)
    | Broadcast(data: Bytes)
    | PushToUid(uid: int, data: Bytes)
    | OnlineCount
    | Shutdown

  /** What a call returned; a call turned away by closeAll or done returns as if nothing were there. */
  datatype Answer = Accepted | Unit | Delivered(delivered: bool) | Online(count: int) | TurnedAway

  /** A call waits in its select, is being worked on by the hub, or has returned. */
  datatype Caller = Waiting(request: Request) | InService(request: Request) | Returned(request: Request, answer: Answer)

  /** Where the hub goroutine is: in its select, in one of its loops with the connections still to visit, or returned. */
  datatype Pc =
    | Selecting
    | Stopping(conn: ConnId)
    | Broadcasting(data: Bytes, todo: set<ConnId>)
    | Pushing(caller: CallerId, uid: int, data: Bytes, todo: set<ConnId>)
    | ClosingAll
    | Finished

  /** `registrations` and `removals` count the effective ones; `registered` is every connection ever accepted. */
  datatype System = System(
    pc: Pc,
    closeAll: bool,
    connections: set<ConnId>,
    links: map<ConnId, Link>,
    uids: map<ConnId, int>,
    callers: map<CallerId, Caller>,
    nextConn: ConnId,
    nextCaller: CallerId,
    registered: set<ConnId>,
    registrations: nat,
    removals: nat)

  datatype Action =
    | Connect                                   // newConnection followed by a call of Register
    | Call(request: Request)                    // any other call
    | Serve(caller: CallerId)                   // the hub's select receives this caller's request
    | Visit(conn: ConnId)                       // one round of an inner loop, range picking this connection
    | Proceed                                   // the hub leaves an exhausted loop, or its select takes closeAll
    | TurnAway(caller: CallerId)                // a caller's select takes closeAll or done
    | CloseAll(caller: CallerId)                // a Shutdown call closes closeAll, the first time
    | ReturnShutdown(caller: CallerId)          // a Shutdown call sees done
    | StopElsewhere(conn: ConnId)               // the connection's own goroutines stop it
    | Drain(conn: ConnId)                       // its writer takes a frame
    | Bind(conn: ConnId, uid: int)              // a login on it

  const START := System(Selecting, false, {}, map[], map[], map[], 0, 0, {}, 0, 0)

  // ---------------------------------------------------------------------------------------------------------------
  // Steps
  // ---------------------------------------------------------------------------------------------------------------

  predicate Done(s: System) {
    s.pc.Finished?
  }

  predicate IsWaiting(s: System, caller: CallerId) {
    caller in s.callers && s.callers[caller].Waiting?
  }

  function Return(s: System, caller: CallerId, answer: Answer): System
    requires caller in s.callers
  {
    s.(callers := s.callers[caller := Returned(s.callers[caller].request, answer)])
  }

  predicate CanServe(s: System, caller: CallerId) {
    s.pc.Selecting? && IsWaiting(s, caller) && !s.callers[caller].request.Shutdown?
  }

  function Served(s: System, caller: CallerId): System
    requires CanServe(s, caller)
  {
    match s.callers[caller].request
    case Register(conn) =>
      Return(s.(connections := s.connections + {conn},
                registered := s.registered + {conn},
                registrations := s.registrations + 1), caller, Accepted)
    case Unregister(conn) =>
      if conn in s.connections then
        Return(s.(connections := s.connections - {conn}, removals := s.removals + 1, pc := Stopping(conn)), caller, Unit)
      else Return(s, caller, Unit)
    case Broadcast(data) => Return(s.(pc := Broadcasting(data, s.connections)), caller, Unit)
    case PushToUid(uid, data) =>
      s.(pc := Pushing(caller, uid, data, s.connections), callers := s.callers[caller := InService(PushToUid(uid, data))])
    case OnlineCount => Return(s, caller, Online(|s.connections|))
  }

  predicate CanVisit(s: System, conn: ConnId) {
    && conn in s.links
    && match s.pc
       case Broadcasting(_, todo) => conn in todo
       case Pushing(_, _, _, todo) => conn in todo
       case ClosingAll => conn in s.connections
       case _ => false
  }

  function UidOf(s: System, conn: ConnId): int {
    if conn in s.uids then s.uids[conn] else 0
  }

  function Visited(s: System, conn: ConnId): System
    requires CanVisit(s, conn)
  {
    match s.pc
    case Broadcasting(data, todo) =>
      s.(pc := Broadcasting(data, todo - {conn}), links := s.links[conn := Enqueued(s.links[conn], data).0])
    case Pushing(caller, uid, data, todo) =>
      var (link, error) := Enqueued(s.links[conn], data);
      if UidOf(s, conn) == uid && error == None && caller in s.callers then
        Return(s.(pc := Selecting, links := s.links[conn := link]), caller, Delivered(true))
      else s.(pc := Pushing(caller, uid, data, todo - {conn}))
    case ClosingAll =>
      s.(links := s.links[conn := Stopped(s.links[conn])], connections := s.connections - {conn})
    case _ => s
  }

  predicate CanProceed(s: System) {
    match s.pc
    case Selecting => s.closeAll
    case Stopping(conn) => conn in s.links
    case Broadcasting(_, todo) => todo == {}
    case Pushing(caller, _, _, todo) => todo == {} && caller in s.callers
    case ClosingAll => s.connections == {}
    case Finished => false
  }

  function Proceeded(s: System): System
    requires CanProceed(s)
  {
    match s.pc
    case Selecting => s.(pc := ClosingAll)
    case Stopping(conn) => s.(pc := Selecting, links := s.links[conn := Stopped(s.links[conn])])
    case Broadcasting(_, _) => s.(pc := Selecting)
    case Pushing(caller, _, _, _) => Return(s.(pc := Selecting), caller, Delivered(false))
    case ClosingAll => s.(pc := Finished)
    case Finished => s
  }

  predicate CanTurnAway(s: System, caller: CallerId) {
    IsWaiting(s, caller) && !s.callers[caller].request.Shutdown? && (s.closeAll || Done(s))
  }

  /** Every action is possible in every state; one that does not apply changes nothing. */
  function Step(s: System, action: Action): System {
    match action
    case Connect =>
      s.(links := s.links[s.nextConn := NEW_LINK],
         nextConn := s.nextConn + 1,
         callers := s.callers[s.nextCaller := Waiting(Register(s.nextConn))],
         nextCaller := s.nextCaller + 1)
    case Call(request) =>
      if request.Register? || (request.Unregister? && request.conn !in s.links) then s
      else s.(callers := s.callers[s.nextCaller := Waiting(request)], nextCaller := s.nextCaller + 1)
    case Serve(caller) => if CanServe(s, caller) then Served(s, caller) else s
    case Visit(conn) => if CanVisit(s, conn) then Visited(s, conn) else s
    case Proceed => if CanProceed(s) then Proceeded(s) else s
    case TurnAway(caller) => if CanTurnAway(s, caller) then Return(s, caller, TurnedAway) else s
    case CloseAll(caller) =>
      if IsWaiting(s, caller) && s.callers[caller].request.Shutdown? then s.(closeAll := true) else s
    case ReturnShutdown(caller) =>
      if IsWaiting(s, caller) && s.callers[caller].request.Shutdown? && Done(s) then Return(s, caller, Unit) else s
    case StopElsewhere(conn) => if conn in s.links then s.(links := s.links[conn := Stopped(s.links[conn])]) else s
    case Drain(conn) =>
      if conn in s.links && s.links[conn].buffer != []
      then s.(links := s.links[conn := s.links[conn].(buffer := s.links[conn].buffer[1..])]) else s
    case Bind(conn, uid) => s.(uids := s.uids[conn := uid])
  }

  function Run(actions: seq<Action>): System {
    if actions == [] then START else Step(Run(actions[..|actions| - 1]), actions[|actions| - 1])
  }

  // ---------------------------------------------------------------------------------------------------------------
  // Safety
  // ---------------------------------------------------------------------------------------------------------------

  /** No connection the hub accepted is lost: it is in the map, or stopped, or the hub is just stopping it. */
  ghost predicate Kept(s: System, conn: ConnId)
    requires conn in s.links
  {
    conn in s.connections || s.links[conn].closed || s.pc == Stopping(conn)
  }

  ghost predicate ConnectionsRight(s: System) {
    && (forall conn :: conn in s.links ==> conn < s.nextConn && Sound(s.links[conn]))
    && s.connections <= s.registered <= s.links.Keys
    && (forall conn :: conn in s.registered ==> Kept(s, conn))
    && (s.pc.Stopping? ==> s.pc.conn in s.links)
    && (Done(s) ==> s.connections == {})
  }

  /** Before closing, the map counts registrations minus removals. */
  ghost predicate CountRight(s: System) {
    !s.pc.ClosingAll? && !Done(s) ==> |s.connections| == s.registrations - s.removals
  }

  /** Callers: each registers a connection nobody else registers, and a push in service is the one the hub works on. */
  ghost predicate CallersRight(s: System) {
    && (forall c :: c in s.callers ==> c < s.nextCaller)
    && (forall c :: IsWaiting(s, c) && s.callers[c].request.Register? ==>
          s.callers[c].request.conn in s.links && s.callers[c].request.conn !in s.registered)
    && (forall c, d :: (IsWaiting(s, c) && IsWaiting(s, d) && s.callers[c].request.Register?
                        && s.callers[c].request == s.callers[d].request) ==> c == d)
    && (forall c :: c in s.callers && s.callers[c].InService? ==> s.pc.Pushing? && s.pc.caller == c)
    && (s.pc.Pushing? ==> s.pc.caller in s.callers && s.callers[s.pc.caller].InService?)
    && (s.pc.ClosingAll? || Done(s) ==> s.closeAll)
  }

  ghost predicate TodoRight(s: System) {
    && (s.pc.Broadcasting? ==> s.pc.todo <= s.links.Keys)
    && (s.pc.Pushing? ==> s.pc.todo <= s.links.Keys)
  }

  ghost predicate HubInv(s: System) {
    ConnectionsRight(s) && CountRight(s) && CallersRight(s) && TodoRight(s)
  }

  lemma ServeKeepsConnections(s: System, caller: CallerId)
    requires ConnectionsRight(s) && CallersRight(s) && CanServe(s, caller)
    ensures ConnectionsRight(Served(s, caller)) && TodoRight(Served(s, caller))
  {
    var after := Served(s, caller);
    forall conn | conn in after.registered ensures Kept(after, conn) {
      if conn in s.registered {
        assert Kept(s, conn);
      }
    }
  }

  lemma ServeKeepsCount(s: System, caller: CallerId)
    requires CountRight(s) && CanServe(s, caller)
    requires s.callers[caller].request.Register? ==> s.callers[caller].request.conn !in s.connections
    ensures CountRight(Served(s, caller))
  {
  }

  lemma RegisterKeepsCallers(s: System, caller: CallerId)
    requires CallersRight(s) && CanServe(s, caller) && s.callers[caller].request.Register?
    ensures CallersRight(Served(s, caller))
  {
    assert IsWaiting(s, caller);
  }

  lemma PushKeepsCallers(s: System, caller: CallerId)
    requires CallersRight(s) && CanServe(s, caller) && s.callers[caller].request.PushToUid?
    ensures CallersRight(Served(s, caller))
  {
  }

  lemma ServeKeepsCallers(s: System, caller: CallerId)
    requires CallersRight(s) && CanServe(s, caller)
    ensures CallersRight(Served(s, caller))
  {
    if s.callers[caller].request.Register? {
      RegisterKeepsCallers(s, caller);
    } else if s.callers[caller].request.PushToUid? {
      PushKeepsCallers(s, caller);
    }
  }

  lemma ServeKeeps(s: System, caller: CallerId)
    requires HubInv(s) && CanServe(s, caller)
    ensures HubInv(Served(s, caller))
  {
    if s.callers[caller].request.Register? {
      assert IsWaiting(s, caller);
    }
    ServeKeepsConnections(s, caller);
    ServeKeepsCount(s, caller);
    ServeKeepsCallers(s, caller);
  }

  lemma VisitKeepsConnections(s: System, conn: ConnId)
    requires ConnectionsRight(s) && TodoRight(s) && CanVisit(s, conn)
    ensures ConnectionsRight(Visited(s, conn)) && TodoRight(Visited(s, conn))
  {
    var after := Visited(s, conn);
    forall other | other in after.registered ensures Kept(after, other) {
      assert Kept(s, other);
    }
  }

  lemma VisitKeepsCallers(s: System, conn: ConnId)
    requires CallersRight(s) && CanVisit(s, conn)
    ensures CallersRight(Visited(s, conn))
  {
  }

  lemma VisitKeeps(s: System, conn: ConnId)
    requires HubInv(s) && CanVisit(s, conn)
    ensures HubInv(Visited(s, conn))
  {
    VisitKeepsConnections(s, conn);
    VisitKeepsCallers(s, conn);
    assert CountRight(Visited(s, conn));
  }

  lemma ProceedKeepsConnections(s: System)
    requires ConnectionsRight(s) && TodoRight(s) && CanProceed(s)
    ensures ConnectionsRight(Proceeded(s)) && TodoRight(Proceeded(s))
  {
    var after := Proceeded(s);
    forall conn | conn in after.registered ensures Kept(after, conn) {
      assert Kept(s, conn);
    }
  }

  lemma ProceedKeepsCallers(s: System)
    requires CallersRight(s) && CanProceed(s)
    ensures CallersRight(Proceeded(s))
  {
  }

  lemma ProceedKeeps(s: System)
    requires HubInv(s) && CanProceed(s)
    ensures HubInv(Proceeded(s))
  {
    ProceedKeepsConnections(s);
    ProceedKeepsCallers(s);
    assert CountRight(Proceeded(s));
  }

  lemma StepKeeps(s: System, action: Action)
    requires HubInv(s)
    ensures HubInv(Step(s, action))
  {
    match action
    case Serve(caller) => if CanServe(s, caller) { ServeKeeps(s, caller); }
    case Visit(conn) => if CanVisit(s, conn) { VisitKeeps(s, conn); }
    case Proceed => if CanProceed(s) { ProceedKeeps(s); }
    case Connect => ConnectKeeps(s);
    case Call(_) => CallKeeps(s, action);
    case TurnAway(_) => CallKeeps(s, action);
    case CloseAll(_) => CallKeeps(s, action);
    case ReturnShutdown(_) => CallKeeps(s, action);
    case StopElsewhere(_) => ElsewhereKeeps(s, action);
    case Drain(_) => ElsewhereKeeps(s, action);
    case Bind(_, _) => ElsewhereKeeps(s, action);
  }

  lemma ConnectKeeps(s: System)
    requires HubInv(s)
    ensures HubInv(Step(s, Connect))
  {
    assert forall conn :: conn in s.registered ==> Kept(s, conn);
  }

  lemma ReturnKeepsCallers(s: System, caller: CallerId, answer: Answer)
    requires CallersRight(s) && IsWaiting(s, caller)
    ensures CallersRight(Return(s, caller, answer))
  {
  }

  lemma CallKeepsCallers(s: System, request: Request)
    requires CallersRight(s)
    ensures CallersRight(Step(s, Call(request)))
  {
  }

  /** Calls made and returned change neither the map nor any connection. */
  lemma CallKeeps(s: System, action: Action)
    requires HubInv(s) && (action.Call? || action.TurnAway? || action.CloseAll? || action.ReturnShutdown?)
    ensures HubInv(Step(s, action))
  {
    var after := Step(s, action);
    if after != s {
      match action
      case Call(request) => CallKeepsCallers(s, request);
      case TurnAway(caller) => ReturnKeepsCallers(s, caller, TurnedAway);
      case ReturnShutdown(caller) => ReturnKeepsCallers(s, caller, Unit);
      case CloseAll(_) => assert CallersRight(after);
    }
    CallKeepsConnections(s, after);
  }

  lemma CallKeepsConnections(s: System, after: System)
    requires ConnectionsRight(s) && CountRight(s) && TodoRight(s)
    requires after == s.(callers := after.callers, nextCaller := after.nextCaller, closeAll := after.closeAll)
    ensures ConnectionsRight(after) && CountRight(after) && TodoRight(after)
  {
    forall conn | conn in after.registered ensures Kept(after, conn) {
      assert Kept(s, conn);
    }
  }

  lemma ElsewhereKeeps(s: System, action: Action)
    requires HubInv(s) && (action.StopElsewhere? || action.Drain? || action.Bind?)
    ensures HubInv(Step(s, action))
  {
    assert forall conn :: conn in s.registered ==> Kept(s, conn);
  }

  lemma {:induction false} HubInvAlways(actions: seq<Action>)
    ensures HubInv(Run(actions))
  {
    if actions != [] {
      HubInvAlways(actions[..|actions| - 1]);
      StepKeeps(Run(actions[..|actions| - 1]), actions[|actions| - 1]);
    }
  }

  /** This call of Register was told that the hub took the connection. */
  predicate ToldAccepted(s: System, caller: CallerId, conn: ConnId) {
    caller in s.callers && s.callers[caller] == Returned(Register(conn), Accepted)
  }

  /** The registered connections are exactly those whose callers were told so, each counted once. */
  ghost predicate AcceptedRight(s: System) {
    && (forall caller, conn :: ToldAccepted(s, caller, conn) ==> conn in s.registered)
    && (forall conn :: conn in s.registered ==> exists caller :: ToldAccepted(s, caller, conn))
    && s.registrations == |s.registered|
  }

  lemma RegisterKeepsAccepted(s: System, caller: CallerId)
    requires AcceptedRight(s) && CanServe(s, caller) && s.callers[caller].request.Register?
    requires s.callers[caller].request.conn !in s.registered
    ensures AcceptedRight(Served(s, caller))
  {
    var after := Served(s, caller);
    forall conn | conn in after.registered ensures exists c :: ToldAccepted(after, c, conn) {
      if conn in s.registered {
        var c :| ToldAccepted(s, c, conn);
        assert ToldAccepted(after, c, conn);
      } else {
        assert ToldAccepted(after, caller, conn);
      }
    }
    forall c, conn | ToldAccepted(after, c, conn) ensures conn in after.registered {
      assert c == caller || ToldAccepted(s, c, conn);
    }
  }

  /** No other step answers a Register call with yes or forgets an answer. */
  lemma OthersKeepAccepted(s: System, after: System)
    requires AcceptedRight(s) && after.registered == s.registered && after.registrations == s.registrations
    requires forall caller, conn :: ToldAccepted(after, caller, conn) <==> ToldAccepted(s, caller, conn)
    ensures AcceptedRight(after)
  {
    forall conn | conn in after.registered ensures exists caller :: ToldAccepted(after, caller, conn) {
      var caller :| ToldAccepted(s, caller, conn);
      assert ToldAccepted(after, caller, conn);
    }
  }

  lemma ServeKeepsAccepted(s: System, caller: CallerId)
    requires CallersRight(s) && AcceptedRight(s) && CanServe(s, caller)
    ensures AcceptedRight(Served(s, caller))
  {
    if s.callers[caller].request.Register? {
      assert IsWaiting(s, caller);
      RegisterKeepsAccepted(s, caller);
    } else {
      OthersKeepAccepted(s, Served(s, caller));
    }
  }

  lemma VisitKeepsAccepted(s: System, conn: ConnId)
    requires CallersRight(s) && AcceptedRight(s) && CanVisit(s, conn)
    ensures AcceptedRight(Visited(s, conn))
  {
    OthersKeepAccepted(s, Visited(s, conn));
  }

  lemma ProceedKeepsAccepted(s: System)
    requires CallersRight(s) && AcceptedRight(s) && CanProceed(s)
    ensures AcceptedRight(Proceeded(s))
  {
    OthersKeepAccepted(s, Proceeded(s));
  }

  lemma StepKeepsAccepted(s: System, action: Action)
    requires CallersRight(s) && AcceptedRight(s)
    ensures AcceptedRight(Step(s, action))
  {
    if action.Serve? {
      if CanServe(s, action.caller) {
        ServeKeepsAccepted(s, action.caller);
      }
    } else if action.Visit? {
      if CanVisit(s, action.conn) {
        VisitKeepsAccepted(s, action.conn);
      }
    } else if action.Proceed? {
      if CanProceed(s) {
        ProceedKeepsAccepted(s);
      }
    } else {
      OthersKeepAccepted(s, Step(s, action));
    }
  }

  /** A hub nobody has called. */
  predicate Untouched(s: System) {
    && s.pc.Selecting? && !s.closeAll && s.connections == {} && s.registered == {} && s.links == map[] && s.callers == map[]
    && s.registrations == 0 && s.removals == 0
  }

  lemma UntouchedIsRight(s: System)
    requires Untouched(s)
    ensures HubInv(s) && AcceptedRight(s)
  {
  }

  lemma {:induction false} AcceptedAlways(actions: seq<Action>)
    ensures AcceptedRight(Run(actions))
  {
    if actions != [] {
      HubInvAlways(actions[..|actions| - 1]);
      AcceptedAlways(actions[..|actions| - 1]);
      StepKeepsAccepted(Run(actions[..|actions| - 1]), actions[|actions| - 1]);
    }
  }

  /**
   After every run: each connection whose Register call returned yes is in the map, stopped, or being stopped; no done
   channel was closed twice; a finished hub has an empty map and every such connection is closed; and until closing
   starts the number the hub would answer is those connections minus the effective removals.
   */
  lemma HubSafety(actions: seq<Action>, caller: CallerId, conn: ConnId)
    requires ToldAccepted(Run(actions), caller, conn)
    ensures var s := Run(actions);
            && conn in s.registered
            && conn in s.links && Kept(s, conn) && s.links[conn].doneCloses <= 1
            && (Done(s) ==> s.connections == {} && s.links[conn].closed && s.links[conn].doneCloses == 1)
            && (forall other :: other in s.registered ==> exists c :: ToldAccepted(s, c, other))
            && (!s.pc.ClosingAll? && !Done(s) ==> |s.connections| == |s.registered| - s.removals)
  {
    HubInvAlways(actions);
    AcceptedAlways(actions);
    assert Kept(Run(actions), conn);
  }

  // ---------------------------------------------------------------------------------------------------------------
  // Nobody is stranded
  // ---------------------------------------------------------------------------------------------------------------

  /** What the hub still has to do by itself. */
  function HubWork(s: System): nat {
    match s.pc
    case Finished => 0
    case ClosingAll => 1 + |s.connections|
    case Selecting => 2 + |s.connections|
    case Stopping(_) => 3 + |s.connections|
    case Broadcasting(_, todo) => 3 + |s.connections| + |todo|
    case Pushing(_, _, _, todo) => 3 + |s.connections| + |todo|
  }

  predicate HubOwn(s: System, action: Action) {
    (action.Visit? && CanVisit(s, action.conn)) || (action.Proceed? && CanProceed(s))
  }

  lemma VisitDecreases(s: System, conn: ConnId)
    requires CanVisit(s, conn)
    ensures HubWork(Visited(s, conn)) < HubWork(s)
  {
    if s.pc.ClosingAll? {
      assert |s.connections - {conn}| == |s.connections| - 1;
    } else {
      assert |s.pc.todo - {conn}| == |s.pc.todo| - 1;
    }
  }

  lemma ProceedDecreases(s: System)
    requires CanProceed(s)
    ensures HubWork(Proceeded(s)) < HubWork(s)
  {
  }

  /** Each step of its own loops, and taking closeAll, leaves the hub less to do. */
  lemma HubStepsDecrease(s: System, action: Action)
    requires HubOwn(s, action)
    ensures HubWork(Step(s, action)) < HubWork(s)
  {
    if action.Visit? {
      VisitDecreases(s, action.conn);
    } else {
      ProceedDecreases(s);
    }
  }

  /** A hub inside a loop, or called to close, is never stuck. */
  lemma HubCanMove(s: System) returns (action: Action)
    requires HubInv(s) && !Done(s) && (s.closeAll || !s.pc.Selecting?)
    ensures HubOwn(s, action)
  {
    var todo := match s.pc
      case Broadcasting(_, todo) => todo
      case Pushing(_, _, _, todo) => todo
      case ClosingAll => s.connections
      case _ => {};
    if todo == {} {
      action := Proceed;
    } else {
      var conn :| conn in todo;
      action := Visit(conn);
    }
  }

  lemma HubStepRemembers(s: System, action: Action)
    requires HubOwn(s, action)
    ensures s.callers.Keys <= Step(s, action).callers.Keys && s.closeAll == Step(s, action).closeAll
  {
  }

  /** Once closeAll is closed an unfinished hub takes a step of its own that leaves it less to do and forgets no caller. */
  lemma HubMoves(actions: seq<Action>) returns (action: Action)
    requires Run(actions).closeAll && !Done(Run(actions))
    ensures Run(actions + [action]).closeAll && HubWork(Run(actions + [action])) < HubWork(Run(actions))
    ensures Run(actions).callers.Keys <= Run(actions + [action]).callers.Keys
  {
    var s := Run(actions);
    HubInvAlways(actions);
    action := HubCanMove(s);
    HubStepsDecrease(s, action);
    HubStepRemembers(s, action);
    assert (actions + [action])[..|actions|] == actions;
  }

  /** Once closeAll is closed the hub finishes, through its own steps alone, in at most HubWork of them. */
  lemma {:induction false} HubFinishes(actions: seq<Action>) returns (more: seq<Action>)
    requires Run(actions).closeAll
    ensures Done(Run(actions + more)) && |more| <= HubWork(Run(actions))
    ensures Run(actions).callers.Keys <= Run(actions + more).callers.Keys
    decreases HubWork(Run(actions))
  {
    if Done(Run(actions)) {
      more := [];
      assert actions + more == actions;
    } else {
      var action := HubMoves(actions);
      var rest := HubFinishes(actions + [action]);
      more := [action] + rest;
      AppendsInTurn(actions, action, rest);
    }
  }

  lemma AppendsInTurn<T>(front: seq<T>, x: T, back: seq<T>)
    ensures front + ([x] + back) == front + [x] + back
  {
  }

  /** Every call that is pending once closeAll is closed can still return. */
  lemma EveryCallReturns(actions: seq<Action>, caller: CallerId) returns (more: seq<Action>)
    requires Run(actions).closeAll && caller in Run(actions).callers
    ensures caller in Run(actions + more).callers && Run(actions + more).callers[caller].Returned?
  {
    more := HubFinishes(actions);
    var s := Run(actions + more);
    HubInvAlways(actions + more);
    if IsWaiting(s, caller) {
      var last := if s.callers[caller].request.Shutdown? then ReturnShutdown(caller) else TurnAway(caller);
      assert (actions + (more + [last]))[..|actions + more|] == actions + more;
      more := more + [last];
    }
  }

  /** The step that brings a pending call forward in any state: its own, the hub serving it, or the hub's current loop. */
  lemma PendingCallHasStep(actions: seq<Action>, caller: CallerId) returns (action: Action)
    requires caller in Run(actions).callers && !Run(actions).callers[caller].Returned?
    ensures var s := Run(actions);
            || HubOwn(s, action)
            || (action == Serve(caller) && CanServe(s, caller))
            || (action == TurnAway(caller) && CanTurnAway(s, caller))
            || (action == CloseAll(caller) && !s.closeAll && Step(s, action).closeAll)
            || (action == ReturnShutdown(caller) && Step(s, action).callers[caller] == Returned(Shutdown, Unit))
  {
    var s := Run(actions);
    HubInvAlways(actions);
    if IsWaiting(s, caller) && s.callers[caller].request.Shutdown? && !s.closeAll {
      action := CloseAll(caller);
    } else if IsWaiting(s, caller) && s.callers[caller].request.Shutdown? && Done(s) {
      action := ReturnShutdown(caller);
    } else if CanTurnAway(s, caller) {
      action := TurnAway(caller);
    } else if CanServe(s, caller) {
      action := Serve(caller);
    } else {
      action := HubCanMove(s);
    }
  }
}
