/**
 The hub's stages as its callers see them, and its inner loops: each connection gets its visit once whatever happens in
 between, and loops left undisturbed do what the methods of the Hub class say.
 */
module HubStages {
  import opened Connection
  import opened HubMachine
  import opened HubProgress

  // ---------------------------------------------------------------------------------------------------------------
  // Open, closing, done
  // ---------------------------------------------------------------------------------------------------------------

  datatype Stage = Open | Closing | Over

  function View(s: System): Stage {
    if Done(s) then Over else if s.closeAll then Closing else Open
  }

  /** The call that this step made return, with its request. */
  predicate Returns(s: System, after: System, caller: CallerId, request: Request) {
    && IsWaiting(s, caller) && s.callers[caller].request == request
    && caller in after.callers && after.callers[caller].Returned?
  }

  /** The hub is closed from outside, finishes by itself, and never reopens. */
  ghost predicate ViewMoves(s: System, action: Action, after: System) {
    || View(after) == View(s)
    || (View(s).Open? && View(after).Closing? && action.CloseAll?)
    || (View(s).Closing? && View(after).Over? && action == Proceed)
  }

  /** Register says yes only before done, and then the connection is in the map; it says no only after closeAll. */
  ghost predicate RegisterMoves(s: System, action: Action, after: System) {
    forall caller, conn :: Returns(s, after, caller, Register(conn)) ==>
      if ToldAccepted(after, caller, conn) then !View(s).Over? && after.connections == s.connections + {conn}
      else !View(s).Open? && after.connections == s.connections
  }

  /** While the hub is open a connection leaves the map only through a served Unregister. */
  ghost predicate MapMoves(s: System, action: Action, after: System) {
    View(s).Open? ==> forall conn :: conn in s.connections && conn !in after.connections ==>
      action.Serve? && Returns(s, after, action.caller, Unregister(conn))
  }

  lemma ServeMoves(s: System, caller: CallerId)
    requires CanServe(s, caller)
    ensures var after := Step(s, Serve(caller));
            ViewMoves(s, Serve(caller), after) && RegisterMoves(s, Serve(caller), after) && MapMoves(s, Serve(caller), after)
  {
    var after := Served(s, caller);
    forall c, conn | Returns(s, after, c, Register(conn)) ensures c == caller {
    }
  }

  lemma LoopMoves(s: System, action: Action)
    requires CallersRight(s) && HubOwn(s, action)
    ensures var after := Step(s, action);
            ViewMoves(s, action, after) && RegisterMoves(s, action, after) && MapMoves(s, action, after)
  {
  }

  lemma OutsideMoves(s: System, action: Action)
    requires CallersRight(s) && !action.Serve? && !action.Visit? && !action.Proceed?
    ensures var after := Step(s, action);
            ViewMoves(s, action, after) && RegisterMoves(s, action, after) && MapMoves(s, action, after)
  {
  }

  /**
   In every run the hub goes from open through closing to done and never back; Register says yes only until done and no
   only from closing on; while it is open nothing leaves the map unasked; a caller waiting from closing on need not wait
   any longer; and when it is done the map is empty and every connection ever accepted is stopped.
   */
  lemma HubKeepsItsPart(actions: seq<Action>, action: Action)
    ensures var s := Run(actions);
            var after := Run(actions + [action]);
            && ViewMoves(s, action, after) && RegisterMoves(s, action, after) && MapMoves(s, action, after)
            && (forall caller :: IsWaiting(s, caller) && !s.callers[caller].request.Shutdown? && !View(s).Open? ==>
                  CanTurnAway(s, caller))
            && (View(s).Over? ==> s.connections == {} && forall conn :: conn in s.registered ==>
                  conn in s.links && s.links[conn].closed)
  {
    HubInvAlways(actions);
    assert (actions + [action])[..|actions|] == actions;
    var s := Run(actions);
    if action.Serve? && CanServe(s, action.caller) {
      ServeMoves(s, action.caller);
    } else if HubOwn(s, action) {
      LoopMoves(s, action);
    } else if !action.Serve? && !action.Visit? && !action.Proceed? {
      OutsideMoves(s, action);
    }
    if Done(s) {
      assert forall conn :: conn in s.registered ==> Kept(s, conn);
    }
  }

  // ---------------------------------------------------------------------------------------------------------------
  // Loops under interference
  // ---------------------------------------------------------------------------------------------------------------

  /** The hub is in a loop over all its connections. */
  predicate InLoop(s: System) {
    s.pc.Broadcasting? || s.pc.ClosingAll?
  }

  function Unvisited(s: System): set<ConnId>
    requires InLoop(s)
  {
    if s.pc.Broadcasting? then s.pc.todo else s.connections
  }

  /** The hub does not leave the loop during these actions. */
  predicate StaysInLoop(s: System, actions: seq<Action>)
    decreases |actions|
  {
    InLoop(s) && (actions == [] || StaysInLoop(Step(s, actions[0]), actions[1..]))
  }

  /** How many of these actions are visits of this connection that take place. */
  function VisitsIn(s: System, actions: seq<Action>, conn: ConnId): nat
    decreases |actions|
  {
    if actions == [] then 0
    else (if actions[0] == Visit(conn) && CanVisit(s, conn) then 1 else 0) + VisitsIn(Step(s, actions[0]), actions[1..], conn)
  }

  /** A step inside a loop visits at most one connection, which it takes off the list, and leaves the loop as it is. */
  lemma LoopStep(s: System, action: Action, conn: ConnId)
    requires InLoop(s) && InLoop(Step(s, action))
    ensures var after := Step(s, action);
            && (after.pc.Broadcasting? <==> s.pc.Broadcasting?)
            && (s.pc.Broadcasting? ==> after.pc.data == s.pc.data)
            && (conn in Unvisited(after) <==> conn in Unvisited(s) && !(action == Visit(conn) && CanVisit(s, conn)))
            && (action == Visit(conn) && CanVisit(s, conn) ==>
                  && conn in Unvisited(s)
                  && after.links == s.links[conn := if s.pc.Broadcasting? then Enqueued(s.links[conn], s.pc.data).0
                                                    else Stopped(s.links[conn])])
  {
  }

  /** Whatever happens in between, a connection is visited once if it was on the list and has been taken off. */
  lemma {:induction false} VisitedAtMostOnce(s: System, actions: seq<Action>, conn: ConnId)
    requires StaysInLoop(s, actions)
    ensures InLoop(RunFrom(s, actions))
    ensures VisitsIn(s, actions, conn) + (if conn in Unvisited(RunFrom(s, actions)) then 1 else 0)
            == if conn in Unvisited(s) then 1 else 0
    decreases |actions|
  {
    if actions != [] {
      LoopStep(s, actions[0], conn);
      VisitedAtMostOnce(Step(s, actions[0]), actions[1..], conn);
    }
  }

  /**
   A loop that the hub gets to the end of, with any calls, drains, stops and logins in between, has visited each
   connection that was in the map exactly once and no other: a broadcast offers its frame once to each, closing stops
   each once (LoopStep says what a visit does).
   */
  lemma LoopVisitsEachOnce(s: System, actions: seq<Action>, conn: ConnId)
    requires StaysInLoop(s, actions) && CanProceed(RunFrom(s, actions))
    ensures VisitsIn(s, actions, conn) == if conn in Unvisited(s) then 1 else 0
  {
    VisitedAtMostOnce(s, actions, conn);
  }

  // ---------------------------------------------------------------------------------------------------------------
  // Undisturbed loops
  // ---------------------------------------------------------------------------------------------------------------

  /** The hub visits these connections one after another. */
  function AfterVisits(s: System, order: seq<ConnId>): System
    decreases |order|
  {
    if order == [] then s else AfterVisits(Step(s, Visit(order[0])), order[1..])
  }

  /** An order in which the loop can go over these connections. */
  ghost predicate Enumerates(order: seq<ConnId>, todo: set<ConnId>) {
    && (forall i, j :: 0 <= i < j < |order| ==> order[i] != order[j])
    && (forall conn :: conn in order <==> conn in todo)
  }

  lemma EnumeratesRest(order: seq<ConnId>, todo: set<ConnId>)
    requires Enumerates(order, todo) && order != []
    ensures order[0] in todo && Enumerates(order[1..], todo - {order[0]})
  {
    assert forall conn :: conn in order[1..] ==> exists i :: 1 <= i < |order| && order[i] == conn;
  }

  function Offered(links: map<ConnId, Link>, todo: set<ConnId>, data: Bytes): map<ConnId, Link> {
    map conn | conn in links :: if conn in todo then Enqueued(links[conn], data).0 else links[conn]
  }

  function AllStopped(links: map<ConnId, Link>, todo: set<ConnId>): map<ConnId, Link> {
    map conn | conn in links :: if conn in todo then Stopped(links[conn]) else links[conn]
  }

  /** A broadcast offers the frame once to each connection in the map, in whatever order: what Hub.OnBroadcast does. */
  lemma {:induction false} BroadcastOffersToAll(s: System, order: seq<ConnId>)
    requires s.pc.Broadcasting? && s.pc.todo <= s.links.Keys && Enumerates(order, s.pc.todo)
    ensures Step(AfterVisits(s, order), Proceed)
            == s.(pc := Selecting, links := Offered(s.links, s.pc.todo, s.pc.data))
    decreases |order|
  {
    if order == [] {
      assert s.pc.todo == {};
      assert Offered(s.links, {}, s.pc.data) == s.links;
    } else {
      EnumeratesRest(order, s.pc.todo);
      var next := Step(s, Visit(order[0]));
      BroadcastOffersToAll(next, order[1..]);
      assert Offered(next.links, next.pc.todo, s.pc.data) == Offered(s.links, s.pc.todo, s.pc.data);
    }
  }

  /** Closing stops each connection in the map once, in whatever order: what Hub.OnCloseAll does. */
  lemma {:induction false} ClosingStopsAll(s: System, order: seq<ConnId>)
    requires s.pc.ClosingAll? && s.connections <= s.links.Keys && Enumerates(order, s.connections)
    ensures Step(AfterVisits(s, order), Proceed)
            == s.(pc := Finished, connections := {}, links := AllStopped(s.links, s.connections))
    decreases |order|
  {
    if order == [] {
      assert s.connections == {};
      assert AllStopped(s.links, {}) == s.links;
    } else {
      EnumeratesRest(order, s.connections);
      var next := Step(s, Visit(order[0]));
      ClosingStopsAll(next, order[1..]);
      assert AllStopped(next.links, next.connections) == AllStopped(s.links, s.connections);
    }
  }
}
