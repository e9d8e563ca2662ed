/**
 The hub on every schedule: how much it and its callers can still do without new calls, and what no step ever forgets.
 */
module HubProgress {
  import opened Common
  import opened HubMachine

  // ---------------------------------------------------------------------------------------------------------------
  // Every schedule
  // ---------------------------------------------------------------------------------------------------------------

  /** Steps that bring the hub or one of its callers forward; nothing outside has to happen first. */
  predicate Progress(s: System, action: Action) {
    || HubOwn(s, action)
    || (action.Serve? && CanServe(s, action.caller))
    || (action.TurnAway? && CanTurnAway(s, action.caller))
    || (action.ReturnShutdown? && IsWaiting(s, action.caller) && s.callers[action.caller].request.Shutdown? && Done(s))
  }

  function Pending(s: System): set<CallerId> {
    set c | c in s.callers && s.callers[c].Waiting?
  }

  /**
   How many such steps are left at most, if no more than `later` calls are still made: each pending call may be served,
   and give the hub a round over all connections there can be by then.
   */
  function Load(s: System, later: nat): nat {
    var calls := |Pending(s)| + later;
    calls * (|s.connections| + calls + 3) + HubWork(s)
  }

  lemma LoadShrinks(calls: nat, conns: nat, work: nat, callsLeft: nat, connsLeft: nat, workLeft: nat)
    requires callsLeft <= calls && connsLeft + callsLeft <= conns + calls
    requires if callsLeft < calls then workLeft <= work + conns + 1 else workLeft < work
    ensures callsLeft * (connsLeft + callsLeft + 3) + workLeft < calls * (conns + calls + 3) + work
  {
    var round := conns + calls + 3;
    MulMonotone(connsLeft + callsLeft + 3, round, callsLeft);
    if callsLeft < calls {
      MulMonotone(callsLeft + 1, calls, round);
    }
  }

  /** A served call waits no more, and gives the hub at most one round over its connections. */
  lemma ServeAddsOneRound(s: System, caller: CallerId)
    requires CanServe(s, caller)
    ensures var after := Served(s, caller);
            && Pending(s) == Pending(after) + {caller} && caller !in Pending(after)
            && |after.connections| <= |s.connections| + 1
            && HubWork(after) <= HubWork(s) + |s.connections| + 1
  {
  }

  lemma ServeLightens(s: System, caller: CallerId, later: nat)
    requires CanServe(s, caller)
    ensures Load(Served(s, caller), later) < Load(s, later)
  {
    ServeAddsOneRound(s, caller);
    OneCallLessLightens(s, Served(s, caller), caller, later);
  }

  lemma OneCallLessLightens(s: System, after: System, caller: CallerId, later: nat)
    requires Pending(s) == Pending(after) + {caller} && caller !in Pending(after)
    requires |after.connections| <= |s.connections| + 1 && HubWork(after) <= HubWork(s) + |s.connections| + 1
    ensures Load(after, later) < Load(s, later)
  {
    LoadShrinks(|Pending(s)| + later, |s.connections|, HubWork(s),
                |Pending(after)| + later, |after.connections|, HubWork(after));
  }

  /** The hub's own steps end no wait and add no connection. */
  lemma VisitKeepsPending(s: System, conn: ConnId)
    requires CallersRight(s) && CanVisit(s, conn)
    ensures Pending(Visited(s, conn)) == Pending(s) && Visited(s, conn).connections <= s.connections
  {
  }

  lemma ProceedKeepsPending(s: System)
    requires CallersRight(s) && CanProceed(s)
    ensures Pending(Proceeded(s)) == Pending(s) && Proceeded(s).connections <= s.connections
  {
  }

  lemma HubOwnLightens(s: System, action: Action, later: nat)
    requires CallersRight(s) && HubOwn(s, action)
    ensures Load(Step(s, action), later) < Load(s, later)
  {
    HubStepsDecrease(s, action);
    if action.Visit? {
      VisitKeepsPending(s, action.conn);
    } else {
      ProceedKeepsPending(s);
    }
    LessWorkLightens(s, Step(s, action), later);
  }

  lemma LessWorkLightens(s: System, after: System, later: nat)
    requires Pending(after) == Pending(s) && after.connections <= s.connections && HubWork(after) < HubWork(s)
    ensures Load(after, later) < Load(s, later)
  {
    SubsetIsSmaller(after.connections, s.connections);
    LoadShrinks(|Pending(s)| + later, |s.connections|, HubWork(s),
                |Pending(after)| + later, |after.connections|, HubWork(after));
  }

  lemma SubsetIsSmaller<T>(a: set<T>, b: set<T>)
    requires a <= b
    ensures |a| <= |b|
  {
    assert b == a + (b - a);
  }

  lemma ReturnLightens(s: System, caller: CallerId, answer: Answer, later: nat)
    requires IsWaiting(s, caller)
    ensures Load(Return(s, caller, answer), later) < Load(s, later)
  {
    var after := Return(s, caller, answer);
    assert Pending(s) == Pending(after) + {caller};
    OneCallLessLightens(s, after, caller, later);
  }

  lemma ProgressLightens(s: System, action: Action, later: nat)
    requires CallersRight(s) && Progress(s, action)
    ensures Load(Step(s, action), later) < Load(s, later)
  {
    match action
    case Serve(caller) => ServeLightens(s, caller, later);
    case TurnAway(caller) => ReturnLightens(s, caller, TurnedAway, later);
    case ReturnShutdown(caller) => ReturnLightens(s, caller, Unit, later);
    case _ => HubOwnLightens(s, action, later);
  }

  /** Everything that is neither progress nor a new call leaves the load as it is. */
  lemma OthersKeepLoad(s: System, action: Action, later: nat)
    requires !Progress(s, action) && !action.Connect? && !action.Call?
    ensures Load(Step(s, action), later) == Load(s, later)
  {
    assert Pending(Step(s, action)) == Pending(s);
  }

  /** A new call waits, and changes nothing about the hub. */
  lemma CallWaits(s: System, action: Action)
    requires CallersRight(s) && (action.Connect? || action.Call?) && Step(s, action) != s
    ensures var after := Step(s, action);
            && Pending(after) == Pending(s) + {s.nextCaller} && s.nextCaller !in Pending(s)
            && after.connections == s.connections && after.pc == s.pc
  {
  }

  /** A call made is one call fewer to come. */
  lemma CallIsExpected(s: System, action: Action, later: nat)
    requires CallersRight(s) && (action.Connect? || action.Call?) && Step(s, action) != s
    ensures Load(Step(s, action), later) == Load(s, later + 1)
  {
    CallWaits(s, action);
    SameHubSameLoad(s, Step(s, action), later);
  }

  lemma SameHubSameLoad(s: System, after: System, later: nat)
    requires |Pending(after)| == |Pending(s)| + 1 && after.connections == s.connections && after.pc == s.pc
    ensures Load(after, later) == Load(s, later + 1)
  {
  }

  /** The system after more actions. */
  function RunFrom(s: System, actions: seq<Action>): System
    decreases |actions|
  {
    if actions == [] then s else RunFrom(Step(s, actions[0]), actions[1..])
  }

  /** How many of these actions are progress where they are taken. */
  function ProgressIn(s: System, actions: seq<Action>): nat
    decreases |actions|
  {
    if actions == [] then 0
    else (if Progress(s, actions[0]) then 1 else 0) + ProgressIn(Step(s, actions[0]), actions[1..])
  }

  ghost predicate NoNewCalls(actions: seq<Action>) {
    forall action :: action in actions ==> !action.Connect? && !action.Call?
  }

  lemma {:induction false} ProgressIsSpent(s: System, actions: seq<Action>)
    requires HubInv(s) && NoNewCalls(actions)
    ensures ProgressIn(s, actions) + Load(RunFrom(s, actions), 0) <= Load(s, 0)
    decreases |actions|
  {
    if actions != [] {
      assert actions[0] in actions;
      if Progress(s, actions[0]) {
        ProgressLightens(s, actions[0], 0);
      } else {
        OthersKeepLoad(s, actions[0], 0);
      }
      StepKeeps(s, actions[0]);
      ProgressIsSpent(Step(s, actions[0]), actions[1..]);
    }
  }

  /**
   Termination on every schedule, not just on a chosen one: from any point on without new calls, however the scheduler
   picks, the hub and its callers make at most `Load` steps of progress. And once closeAll is closed a state in which none
   is possible any more is one in which the hub is done and every call has returned.
   */
  lemma EveryScheduleEnds(actions: seq<Action>, more: seq<Action>)
    requires NoNewCalls(more)
    ensures ProgressIn(Run(actions), more) <= Load(Run(actions), 0)
    ensures var s := Run(actions + more);
            s.closeAll && (forall action :: !Progress(s, action)) ==>
              Done(s) && forall caller :: caller in s.callers ==> s.callers[caller].Returned?
  {
    HubInvAlways(actions);
    ProgressIsSpent(Run(actions), more);
    HubInvAlways(actions + more);
    if Run(actions + more).closeAll && forall action :: !Progress(Run(actions + more), action) {
      StuckMeansOver(Run(actions + more));
    }
  }

  lemma StuckMeansOver(s: System)
    requires HubInv(s) && s.closeAll && forall action :: !Progress(s, action)
    ensures Done(s) && forall caller :: caller in s.callers ==> s.callers[caller].Returned?
  {
    if !Done(s) {
      var action := HubCanMove(s);
      assert Progress(s, action);
    }
    forall caller | caller in s.callers ensures s.callers[caller].Returned? {
      assert !Progress(s, TurnAway(caller)) && !Progress(s, ReturnShutdown(caller));
    }
  }

  // ---------------------------------------------------------------------------------------------------------------
  // What is never forgotten
  // ---------------------------------------------------------------------------------------------------------------

  /** Connections stay stopped and registrations made. */
  ghost predicate KeepsConnections(s: System, t: System) {
    && (forall conn :: conn in s.links ==> conn in t.links && (s.links[conn].closed ==> t.links[conn].closed))
    && s.registered <= t.registered
  }

  /** Calls keep their request and their answer. */
  ghost predicate KeepsCalls(s: System, t: System) {
    forall c :: c in s.callers ==>
      && c in t.callers && t.callers[c].request == s.callers[c].request
      && (s.callers[c].Returned? ==> t.callers[c] == s.callers[c])
  }

  ghost predicate Remembers(s: System, t: System) {
    && KeepsConnections(s, t) && KeepsCalls(s, t)
    && (s.closeAll ==> t.closeAll)
    && (Done(s) ==> Done(t))
  }

  /** Only a push is ever in service, and no Shutdown call returns before the hub is done. */
  ghost predicate AnswersRight(s: System) {
    && (forall c :: c in s.callers && s.callers[c].InService? ==> s.callers[c].request.PushToUid?)
    && (forall c :: c in s.callers && s.callers[c].Returned? && s.callers[c].request.Shutdown? ==> Done(s))
  }

  lemma UntouchedAnswersRight(s: System)
    requires Untouched(s)
    ensures AnswersRight(s)
  {
  }

  /** One call moves on with its request unchanged. */
  lemma CallMoves(s: System, after: System, caller: CallerId, moved: Caller)
    requires caller in s.callers && !s.callers[caller].Returned? && moved.request == s.callers[caller].request
    requires after.callers == s.callers[caller := moved] && (Done(s) ==> Done(after))
    ensures KeepsCalls(s, after)
    ensures (&& AnswersRight(s)
             && (moved.InService? ==> moved.request.PushToUid?)
             && (moved.Returned? && moved.request.Shutdown? ==> Done(after))) ==> AnswersRight(after)
  {
  }

  lemma ServeRemembers(s: System, caller: CallerId)
    requires CanServe(s, caller)
    ensures Remembers(s, Served(s, caller)) && (AnswersRight(s) ==> AnswersRight(Served(s, caller)))
  {
    CallMoves(s, Served(s, caller), caller, Served(s, caller).callers[caller]);
  }

  /** The hub's own steps move at most the push it is working on. */
  lemma VisitRemembers(s: System, conn: ConnId)
    requires CallersRight(s) && CanVisit(s, conn)
    ensures Remembers(s, Visited(s, conn)) && (AnswersRight(s) ==> AnswersRight(Visited(s, conn)))
  {
    var after := Visited(s, conn);
    if after.callers != s.callers {
      CallMoves(s, after, s.pc.caller, after.callers[s.pc.caller]);
    }
  }

  lemma ProceedRemembers(s: System)
    requires CallersRight(s) && CanProceed(s)
    ensures Remembers(s, Proceeded(s)) && (AnswersRight(s) ==> AnswersRight(Proceeded(s)))
  {
    var after := Proceeded(s);
    if after.callers != s.callers {
      CallMoves(s, after, s.pc.caller, after.callers[s.pc.caller]);
    }
  }

  lemma ConnectRemembers(s: System)
    requires CallersRight(s) && ConnectionsRight(s)
    ensures Remembers(s, Step(s, Connect)) && (AnswersRight(s) ==> AnswersRight(Step(s, Connect)))
  {
  }

  lemma CallRemembers(s: System, request: Request)
    requires CallersRight(s)
    ensures Remembers(s, Step(s, Call(request))) && (AnswersRight(s) ==> AnswersRight(Step(s, Call(request))))
  {
  }

  /** Calls that return by themselves, and what happens to connections elsewhere. */
  lemma OutsideRemembers(s: System, action: Action)
    requires !action.Serve? && !action.Visit? && !action.Proceed? && !action.Connect? && !action.Call?
    ensures Remembers(s, Step(s, action)) && (AnswersRight(s) ==> AnswersRight(Step(s, action)))
  {
    var after := Step(s, action);
    if after.callers != s.callers {
      CallMoves(s, after, action.caller, after.callers[action.caller]);
    }
  }

  lemma StepRemembers(s: System, action: Action)
    requires CallersRight(s) && ConnectionsRight(s)
    ensures Remembers(s, Step(s, action)) && (AnswersRight(s) ==> AnswersRight(Step(s, action)))
  {
    match action
    case Serve(caller) => if CanServe(s, caller) { ServeRemembers(s, caller); }
    case Visit(conn) => if CanVisit(s, conn) { VisitRemembers(s, conn); }
    case Proceed => if CanProceed(s) { ProceedRemembers(s); }
    case Connect => ConnectRemembers(s);
    case Call(request) => CallRemembers(s, request);
    case _ => OutsideRemembers(s, action);
  }
}
