/**
 What the hub does for its callers, told from the calls alone: which connections are mapped and counted, what a served
 Unregister, Broadcast or PushToUid comes to, whatever happens in between.
 */
module HubServes {
  import opened Common
  import opened Connection
  import opened HubMachine
  import opened HubProgress
  import opened HubStages

  // ---------------------------------------------------------------------------------------------------------------
  // The calls the hub took, in order
  // ---------------------------------------------------------------------------------------------------------------

  datatype Service = Service(caller: CallerId, request: Request)

  /** The calls that the hub's select received, in the order it received them. */
  function Services(actions: seq<Action>): seq<Service> {
    if actions == [] then []
    else
      var n := |actions| - 1;
      var s := Run(actions[..n]);
      Services(actions[..n]) + if actions[n].Serve? && CanServe(s, actions[n].caller)
                               then [Service(actions[n].caller, s.callers[actions[n].caller].request)] else []
  }

  /** What one call means for a set of connections. */
  function Including(connections: set<ConnId>, request: Request): set<ConnId> {
    match request
    case Register(conn) => connections + {conn}
    case Unregister(conn) => connections - {conn}
    case _ => connections
  }

  /** The connections registered and not unregistered afterwards. */
  function Mapped(services: seq<Service>): set<ConnId> {
    if services == [] then {} else Including(Mapped(services[..|services| - 1]), services[|services| - 1].request)
  }

  lemma MappedExtends(services: seq<Service>, service: Service)
    ensures Mapped(services + [service]) == Including(Mapped(services), service.request)
    ensures Mapped(services + []) == Mapped(services)
  {
    assert (services + [service])[..|services|] == services;
    assert services + [] == services;
  }

  /** Until closing starts, only served calls change the map. */
  lemma MapChanges(s: System, action: Action)
    ensures var after := Step(s, action);
            && (s.pc.ClosingAll? || Done(s) ==> after.pc.ClosingAll? || Done(after))
            && (!(after.pc.ClosingAll? || Done(after)) ==>
                  if action.Serve? && CanServe(s, action.caller) then
                    after.connections == Including(s.connections, s.callers[action.caller].request)
                  else after.connections == s.connections)
  {
  }

  /** Until closing starts the map holds exactly the connections whose Register was served and no Unregister since. */
  lemma {:induction false} MapIsFoldOfCalls(actions: seq<Action>)
    ensures !Run(actions).pc.ClosingAll? && !Done(Run(actions)) ==> Run(actions).connections == Mapped(Services(actions))
  {
    if actions != [] {
      var n := |actions| - 1;
      var s := Run(actions[..n]);
      MapIsFoldOfCalls(actions[..n]);
      MapChanges(s, actions[n]);
      if actions[n].Serve? && CanServe(s, actions[n].caller) {
        MappedExtends(Services(actions[..n]), Service(actions[n].caller, s.callers[actions[n].caller].request));
      } else {
        assert Services(actions) == Services(actions[..n]);
      }
    }
  }

  /** An OnlineCount call the hub answers gets exactly the number of connections registered and not unregistered since. */
  lemma OnlineCountIsExact(actions: seq<Action>, caller: CallerId)
    requires var s := Run(actions); CanServe(s, caller) && s.callers[caller].request.OnlineCount?
    ensures Run(actions + [Serve(caller)]).callers[caller] == Returned(OnlineCount, Online(|Mapped(Services(actions))|))
  {
    MapIsFoldOfCalls(actions);
    assert (actions + [Serve(caller)])[..|actions|] == actions;
  }

  /** The call has been taken by the hub, as its caller can tell: it was not turned away. */
  predicate Taken(s: System, caller: CallerId) {
    && caller in s.callers && !s.callers[caller].request.Shutdown?
    && (s.callers[caller].InService? || (s.callers[caller].Returned? && s.callers[caller].answer != TurnedAway))
  }

  lemma TakenChanges(s: System, action: Action, caller: CallerId)
    requires CallersRight(s)
    ensures Taken(Step(s, action), caller) <==>
              Taken(s, caller) || (action == Serve(caller) && CanServe(s, caller))
    ensures caller in s.callers ==>
              caller in Step(s, action).callers && Step(s, action).callers[caller].request == s.callers[caller].request
  {
    match action
    case Serve(_) => ServeTakes(s, action, caller);
    case Visit(_) => LoopTakes(s, action, caller);
    case Proceed => LoopTakes(s, action, caller);
    case _ =>
  }

  lemma ServeTakes(s: System, action: Action, caller: CallerId)
    requires CallersRight(s) && action.Serve?
    ensures Taken(Step(s, action), caller) <==> Taken(s, caller) || (action == Serve(caller) && CanServe(s, caller))
    ensures caller in s.callers ==>
              caller in Step(s, action).callers && Step(s, action).callers[caller].request == s.callers[caller].request
  {
  }

  lemma LoopTakes(s: System, action: Action, caller: CallerId)
    requires CallersRight(s) && (action.Visit? || action.Proceed?)
    ensures Taken(Step(s, action), caller) <==> Taken(s, caller)
    ensures caller in s.callers ==>
              caller in Step(s, action).callers && Step(s, action).callers[caller].request == s.callers[caller].request
  {
  }

  /** The calls taken are exactly those not turned away, so the fold above is one over what callers were told. */
  lemma {:induction false} ServicesAreTaken(actions: seq<Action>, caller: CallerId)
    ensures Taken(Run(actions), caller) <==>
              exists request :: Service(caller, request) in Services(actions)
    ensures forall request :: Service(caller, request) in Services(actions) ==>
              caller in Run(actions).callers && Run(actions).callers[caller].request == request
  {
    if actions != [] {
      var n := |actions| - 1;
      var s := Run(actions[..n]);
      ServicesAreTaken(actions[..n], caller);
      HubInvAlways(actions[..n]);
      TakenChanges(s, actions[n], caller);
      if actions[n] == Serve(caller) && CanServe(s, caller) {
        assert Service(caller, s.callers[caller].request) in Services(actions);
      } else {
        assert forall request :: Service(caller, request) in Services(actions) <==>
                 Service(caller, request) in Services(actions[..n]);
      }
    }
  }

  /** Every call was made from outside, each Register by a new connection. */
  lemma {:induction false} CallsAsMade(actions: seq<Action>)
    ensures forall c :: c in Run(actions).callers ==>
              var request := Run(actions).callers[c].request;
              if request.Register? then Connect in actions else Call(request) in actions
  {
    if actions != [] {
      var n := |actions| - 1;
      var s := Run(actions[..n]);
      CallsAsMade(actions[..n]);
      HubInvAlways(actions[..n]);
      StepRemembers(s, actions[n]);
      NewCallers(s, actions[n]);
      assert actions == actions[..n] + [actions[n]];
    }
  }

  lemma NewCallers(s: System, action: Action)
    ensures forall c :: c in Step(s, action).callers && c !in s.callers ==>
              var request := Step(s, action).callers[c].request;
              (request.Register? && action.Connect?) || (!request.Register? && action == Call(request))
  {
  }

  // ---------------------------------------------------------------------------------------------------------------
  // Unregister
  // ---------------------------------------------------------------------------------------------------------------

  /**
   A served Unregister returns and takes the connection out of the map. If it was there, the hub can do nothing else before
   it has stopped it, wherever in the meantime it may have been drained or stopped; if not, nothing else changes.
   */
  lemma UnregisterTakesOut(s: System, caller: CallerId, conn: ConnId)
    requires HubInv(s) && CanServe(s, caller) && s.callers[caller].request == Unregister(conn)
    ensures var after := Step(s, Serve(caller));
            && after.connections == s.connections - {conn} && after.links == s.links
            && after.callers[caller] == Returned(Unregister(conn), Unit)
            && after.pc == (if conn in s.connections then Stopping(conn) else Selecting)
  {
  }

  /** A hub that is stopping a connection does that next: it serves nobody, visits nothing, and then is back in its select. */
  lemma StoppingStops(s: System, action: Action)
    requires HubInv(s) && s.pc.Stopping?
    ensures var conn, after := s.pc.conn, Step(s, action);
            if action.Proceed? then after == s.(pc := Selecting, links := s.links[conn := Stopped(s.links[conn])])
            else after.pc == s.pc && after.connections == s.connections && !HubOwn(s, action)
                 && (action.Serve? ==> after == s)
  {
  }

  // ---------------------------------------------------------------------------------------------------------------
  // Broadcast
  // ---------------------------------------------------------------------------------------------------------------

  /** A served broadcast returns at once, and each connection mapped at that moment is offered the frame exactly once. */
  lemma BroadcastReachesAll(s: System, caller: CallerId, data: Bytes, actions: seq<Action>, conn: ConnId)
    requires HubInv(s) && CanServe(s, caller) && s.callers[caller].request == Broadcast(data)
    requires var after := Step(s, Serve(caller));
             StaysInLoop(after, actions) && CanProceed(RunFrom(after, actions))
    ensures var after := Step(s, Serve(caller));
            && after.callers[caller] == Returned(Broadcast(data), Unit) && after.pc.Broadcasting? && after.pc.data == data
            && VisitsIn(after, actions, conn) == if conn in s.connections then 1 else 0
  {
    LoopVisitsEachOnce(Step(s, Serve(caller)), actions, conn);
  }

  // ---------------------------------------------------------------------------------------------------------------
  // PushToUid
  // ---------------------------------------------------------------------------------------------------------------

  /** This connection would take the push now: it belongs to the player and its buffer accepts the frame. */
  predicate WouldTake(s: System, conn: ConnId, uid: int) {
    conn in s.links && (if conn in s.uids then s.uids[conn] else 0) == uid && !s.links[conn].closed && |s.links[conn].buffer| < 256
  }

  /** What happens to a connection elsewhere: a login binds it, its writer takes the oldest frame, a failure stops it. */
  lemma Elsewhere(s: System, conn: ConnId, uid: int)
    requires conn in s.links
    ensures UidOf(Step(s, Bind(conn, uid)), conn) == uid
    ensures forall other :: other != conn ==> UidOf(Step(s, Bind(conn, uid)), other) == UidOf(s, other)
    ensures s.links[conn].buffer != [] ==>
              Step(s, Drain(conn)).links == s.links[conn := s.links[conn].(buffer := s.links[conn].buffer[1..])]
    ensures Step(s, StopElsewhere(conn)).links == s.links[conn := Stopped(s.links[conn])]
  {
  }

  /** A served push looks at every connection mapped at that moment. */
  lemma PushLooksAtAll(s: System, caller: CallerId, uid: int, data: Bytes)
    requires CanServe(s, caller) && s.callers[caller].request == PushToUid(uid, data)
    ensures Step(s, Serve(caller)).pc == Pushing(caller, uid, data, s.connections)
  {
  }

  /** The push under way is the one its caller asked for. */
  ghost predicate PushRight(s: System) {
    s.pc.Pushing? ==>
      s.pc.caller in s.callers && s.callers[s.pc.caller] == InService(PushToUid(s.pc.uid, s.pc.data))
      && s.pc.todo <= s.links.Keys
  }

  lemma StepKeepsPush(s: System, action: Action)
    requires HubInv(s) && PushRight(s)
    ensures PushRight(Step(s, action))
  {
    StepKeeps(s, action);
  }

  lemma {:induction false} PushAlways(actions: seq<Action>)
    ensures PushRight(Run(actions))
  {
    if actions != [] {
      PushAlways(actions[..|actions| - 1]);
      HubInvAlways(actions[..|actions| - 1]);
      StepKeepsPush(Run(actions[..|actions| - 1]), actions[|actions| - 1]);
    }
  }

  /**
   One step while the hub is pushing: a visit to a connection that would take the frame gives it to that one alone and
   answers true; a visit to another takes it off the list; with the list empty the answer is false; and nothing else
   moves the push.
   */
  lemma PushStep(s: System, action: Action)
    requires PushRight(s) && s.pc.Pushing?
    ensures var after := Step(s, action);
            var (uid, data, caller) := (s.pc.uid, s.pc.data, s.pc.caller);
            if action.Visit? && action.conn in s.pc.todo then
              if WouldTake(s, action.conn, uid) then
                && after.links == s.links[action.conn :=
                     s.links[action.conn].(buffer := s.links[action.conn].buffer + [data])]
                && after.pc.Selecting? && after.callers[caller] == Returned(PushToUid(uid, data), Delivered(true))
              else after == s.(pc := Pushing(caller, uid, data, s.pc.todo - {action.conn}))
            else if action.Proceed? && s.pc.todo == {} then
              && after.links == s.links && after.pc.Selecting?
              && after.callers[caller] == Returned(PushToUid(uid, data), Delivered(false))
            else after.pc == s.pc
  {
  }

  /** The hub is working on the same push during all these actions. */
  predicate StaysPushing(s: System, actions: seq<Action>)
    decreases |actions|
  {
    s.pc.Pushing? && (actions == [] || StaysPushing(Step(s, actions[0]), actions[1..]))
  }

  /** How many of these actions are visits at which this connection would not take the frame. */
  function RefusalsIn(s: System, actions: seq<Action>, conn: ConnId): nat
    requires StaysPushing(s, actions)
    decreases |actions|
  {
    if actions == [] then 0
    else (if actions[0] == Visit(conn) && conn in s.pc.todo && !WouldTake(s, conn, s.pc.uid) then 1 else 0)
         + RefusalsIn(Step(s, actions[0]), actions[1..], conn)
  }

  lemma {:induction false} PushRefused(s: System, actions: seq<Action>, conn: ConnId)
    requires HubInv(s) && PushRight(s) && StaysPushing(s, actions)
    ensures var after := RunFrom(s, actions);
            && after.pc.Pushing? && after.pc.caller == s.pc.caller && PushRight(after)
            && RefusalsIn(s, actions, conn) + (if conn in after.pc.todo then 1 else 0) == if conn in s.pc.todo then 1 else 0
    decreases |actions|
  {
    if actions != [] {
      PushStep(s, actions[0]);
      StepKeeps(s, actions[0]);
      StepKeepsPush(s, actions[0]);
      PushRefused(Step(s, actions[0]), actions[1..], conn);
    }
  }

  /**
   A push answers false only if nobody would take it: whatever happened in between, each connection mapped when the push
   was served was looked at exactly once, and at that moment was another player's, closed or full.
   */
  lemma FalseOnlyIfNobodyTakes(s: System, caller: CallerId, uid: int, data: Bytes, actions: seq<Action>, conn: ConnId)
    requires HubInv(s) && CanServe(s, caller) && s.callers[caller].request == PushToUid(uid, data)
    requires StaysPushing(Step(s, Serve(caller)), actions)
    requires CanProceed(RunFrom(Step(s, Serve(caller)), actions))
    ensures var served := Step(s, Serve(caller));
            var answered := Step(RunFrom(served, actions), Proceed).callers;
            && caller in answered && answered[caller] == Returned(PushToUid(uid, data), Delivered(false))
            && RefusalsIn(served, actions, conn) == if conn in s.connections then 1 else 0
  {
    var served := Step(s, Serve(caller));
    StepKeeps(s, Serve(caller));
    PushLooksAtAll(s, caller, uid, data);
    assert PushRight(served);
    PushRefused(served, actions, conn);
    PushKeepsRequest(served, actions);
    PushStep(RunFrom(served, actions), Proceed);
  }

  lemma {:induction false} PushKeepsRequest(s: System, actions: seq<Action>)
    requires HubInv(s) && PushRight(s) && StaysPushing(s, actions)
    ensures var after := RunFrom(s, actions);
            after.pc.Pushing? && after.pc.uid == s.pc.uid && after.pc.data == s.pc.data
    decreases |actions|
  {
    if actions != [] {
      PushStep(s, actions[0]);
      StepKeeps(s, actions[0]);
      StepKeepsPush(s, actions[0]);
      PushKeepsRequest(Step(s, actions[0]), actions[1..]);
    }
  }
}
