/**
 Any number of concurrent style unlocks and settlements, interleaved statement by statement: UnlockStyle in
 internal/combat/handler.go looks the style up, deducts gold and records the style in three separate statements, each of
 which may fail. A settlement is one step, because it keeps its row locks to the end.
 */
module UnlockMachine {
  import opened Common
  import opened Settlement
  import opened Storage
  import opened SqlSettlement
  import opened MemoryHistory
  import opened Economy

  type CallId = nat

  /** The next statement of an unlock, or how it ended. */
  datatype Pc =
    | LookingUp
    | Deducting
    | Recording(cost: int)
    | Returned(answer: UnlockAnswer)
    | Failed

  datatype Call = Call(row: PlayerStyle, pc: Pc)

  /** One movement of gold. */
  datatype Posting = Reward(player: int64, amount: int) | Charge(call: CallId, row: PlayerStyle)

  datatype System = System(e: Economy, calls: map<CallId, Call>, nextId: CallId, ledger: seq<Posting>)

  /** `Fail` is a statement that fails without effect, `FailUnacknowledged` one whose effect is not reported. */
  datatype Action =
    | Begin(player: int64, style: int32)
    | Advance(id: CallId)
    | LookupFails(id: CallId)
    | Fail(id: CallId)
    | FailUnacknowledged(id: CallId)
    | Settle(player: int64, req: Request)

  function Goto(s: System, id: CallId, pc: Pc): System
    requires id in s.calls
  {
    s.(calls := s.calls[id := s.calls[id].(pc := pc)])
  }

  /** Where a call goes that did not find its style. */
  function AfterLookup(row: PlayerStyle): Pc {
    if Price(row.style) == 0 then Recording(0) else Deducting
  }

  /** The conditional update of DeductPlayerGold matches a row. */
  predicate CanPay(e: Economy, row: PlayerStyle) {
    row.player in e.db.stats && e.db.stats[row.player].gold >= 100
  }

  function Pay(s: System, id: CallId): System
    requires id in s.calls && CanPay(s.e, s.calls[id].row)
  {
    var row := s.calls[id].row;
    s.(e := s.e.(db := Charged(s.e.db, row.player, 100)), ledger := s.ledger + [Charge(id, row)])
  }

  function Record(s: System, id: CallId): System
    requires id in s.calls
  {
    s.(e := s.e.(styles := s.e.styles + {s.calls[id].row}))
  }

  function Advanced(s: System, id: CallId): System
    requires id in s.calls
  {
    var row := s.calls[id].row;
    match s.calls[id].pc
    case LookingUp => Goto(s, id, if row in s.e.styles then Returned(Unlocked(0)) else AfterLookup(row))
    case Deducting =>
      if CanPay(s.e, row) then Goto(Pay(s, id), id, Recording(100)) else Goto(s, id, Returned(InsufficientGold))
    case Recording(cost) => Goto(Record(s, id), id, Returned(Unlocked(cost)))
    case _ => s
  }

  function WithSettlement(m: Marshaller, policy: Policy, s: System, player: int64, req: Request): System {
    var (db, answer) := SettleDb(s.e.db, m, policy, player, req);
    var after := s.(e := s.e.(db := db));
    if answer.Ok? && !answer.value.duplicate
    then after.(ledger := s.ledger + [Reward(player, answer.value.rewardGold)])
    else after
  }

  /** Every action is possible in every state; one that does not apply changes nothing. */
  function Step(m: Marshaller, policy: Policy, s: System, action: Action): System {
    match action
    case Begin(player, style) =>
      s.(calls := s.calls[s.nextId := Call(PlayerStyle(player, style),
                                           if KnownStyle(style) then LookingUp else Returned(NoSuchStyle))],
         nextId := s.nextId + 1)
    case Advance(id) => if id in s.calls then Advanced(s, id) else s
    case LookupFails(id) =>
      if id in s.calls && s.calls[id].pc.LookingUp? then Goto(s, id, AfterLookup(s.calls[id].row)) else s
    case Fail(id) =>
      if id in s.calls && (s.calls[id].pc.Deducting? || s.calls[id].pc.Recording?) then Goto(s, id, Failed) else s
    case FailUnacknowledged(id) =>
      if id !in s.calls then s
      else if s.calls[id].pc.Deducting? && CanPay(s.e, s.calls[id].row) then Goto(Pay(s, id), id, Failed)
      else if s.calls[id].pc.Recording? then Goto(Record(s, id), id, Failed)
      else s
    case Settle(player, req) => WithSettlement(m, policy, s, player, req)
  }

  function Run(m: Marshaller, policy: Policy, start: Economy, actions: seq<Action>): System {
    if actions == [] then System(start, map[], 0, [])
    else Step(m, policy, Run(m, policy, start, actions[..|actions| - 1]), actions[|actions| - 1])
  }

  // ---------------------------------------------------------------------------------------------------------------
  // Conservation
  // ---------------------------------------------------------------------------------------------------------------

  /** What one posting is worth to a player. */
  function Worth(posting: Posting, player: int64): int {
    match posting
    case Reward(to, amount) => if to == player then amount else 0
    case Charge(_, row) => if row.player == player then -100 else 0
  }

  function Net(ledger: seq<Posting>, player: int64): int {
    if ledger == [] then 0 else Net(ledger[..|ledger| - 1], player) + Worth(ledger[|ledger| - 1], player)
  }

  ghost predicate GoldRight(start: Economy, s: System, player: int64) {
    GoldOf(s.e.db, player) == Wrap64(GoldOf(start.db, player) + Net(s.ledger, player))
  }

  lemma PostingKeepsGold(start: Economy, s: System, after: System, posting: Posting, player: int64)
    requires GoldRight(start, s, player) && after.ledger == s.ledger + [posting]
    requires GoldOf(after.e.db, player) == Wrap64(GoldOf(s.e.db, player) + Worth(posting, player))
    ensures GoldRight(start, after, player)
  {
    assert after.ledger[..|s.ledger|] == s.ledger;
    Wrap64Adds(GoldOf(start.db, player) + Net(s.ledger, player), Worth(posting, player));
  }

  lemma SettleKeepsGold(
      m: Marshaller, policy: Policy, start: Economy, s: System, caller: int64, req: Request, player: int64)
    requires Lawful(m) && ModestPolicy(policy) && req.kills >= 0 && GoldRight(start, s, player)
    ensures GoldRight(start, WithSettlement(m, policy, s, caller, req), player)
  {
    var after := WithSettlement(m, policy, s, caller, req);
    var answer := SettleDb(s.e.db, m, policy, caller, req).1;
    if caller == player && answer.Ok? && !answer.value.duplicate {
      SettlingEarns(m, policy, s.e.db, player, req);
    } else {
      OthersEarnNothing(m, policy, s.e.db, caller, req, player);
    }
    if after.ledger != s.ledger {
      PostingKeepsGold(start, s, after, after.ledger[|s.ledger|], player);
    }
  }

  lemma PayKeepsGold(start: Economy, s: System, id: CallId, player: int64)
    requires GoldRight(start, s, player) && id in s.calls && CanPay(s.e, s.calls[id].row)
    ensures GoldRight(start, Pay(s, id), player)
  {
    PostingKeepsGold(start, s, Pay(s, id), Charge(id, s.calls[id].row), player);
  }

  lemma StepKeepsGold(m: Marshaller, policy: Policy, start: Economy, s: System, action: Action, player: int64)
    requires Lawful(m) && ModestPolicy(policy) && (action.Settle? ==> action.req.kills >= 0)
    requires GoldRight(start, s, player)
    ensures GoldRight(start, Step(m, policy, s, action), player)
  {
    if action.Settle? {
      SettleKeepsGold(m, policy, start, s, action.player, action.req, player);
    } else if action.Advance? || action.FailUnacknowledged? {
      if action.id in s.calls && s.calls[action.id].pc.Deducting? && CanPay(s.e, s.calls[action.id].row) {
        PayKeepsGold(start, s, action.id, player);
      }
    }
  }

  ghost predicate NaturalRuns(actions: seq<Action>) {
    forall action :: action in actions && action.Settle? ==> action.req.kills >= 0
  }

  /**
   Whatever the interleaving and whatever fails: a player's gold is what it was plus every reported reward minus 100 for
   every time the conditional update took effect, modulo 2^64.
   */
  lemma {:induction false} GoldIsConserved(
      m: Marshaller, policy: Policy, start: Economy, actions: seq<Action>, player: int64)
    requires Lawful(m) && ModestPolicy(policy) && NaturalRuns(actions)
    ensures GoldRight(start, Run(m, policy, start, actions), player)
  {
    if actions != [] {
      var n := |actions| - 1;
      assert actions[n] in actions;
      GoldIsConserved(m, policy, start, actions[..n], player);
      StepKeepsGold(m, policy, start, Run(m, policy, start, actions[..n]), actions[n], player);
    }
  }

  // ---------------------------------------------------------------------------------------------------------------
  // Who is charged twice
  // ---------------------------------------------------------------------------------------------------------------

  function Charges(ledger: seq<Posting>, row: PlayerStyle): nat {
    if ledger == [] then 0
    else
      var last := ledger[|ledger| - 1];
      Charges(ledger[..|ledger| - 1], row) + if last.Charge? && last.row == row then 1 else 0
  }

  lemma ChargesAdd(ledger: seq<Posting>, posting: Posting, row: PlayerStyle)
    ensures Charges(ledger + [posting], row)
            == Charges(ledger, row) + if posting.Charge? && posting.row == row then 1 else 0
  {
    assert (ledger + [posting])[..|ledger|] == ledger;
  }

  /** The call has looked for this row, not found it, and not yet recorded it. */
  predicate PastLookup(s: System, id: CallId, row: PlayerStyle) {
    id in s.calls && s.calls[id].row == row && (s.calls[id].pc.Deducting? || s.calls[id].pc.Recording?)
  }

  /** No two unlocks of this row are past their lookup at the same time. */
  ghost predicate NoOverlap(s: System, row: PlayerStyle) {
    forall a, b :: PastLookup(s, a, row) && PastLookup(s, b, row) ==> a == b
  }

  /**
   The step is a failure that lets the row be charged again: a lookup that fails though the row is there, a record that
   fails after the charge, or a deduction whose effect is not reported.
   */
  predicate Harmful(s: System, action: Action, row: PlayerStyle) {
    match action
    case LookupFails(id) => id in s.calls && s.calls[id] == Call(row, LookingUp) && row in s.e.styles
    case Fail(id) => PastLookup(s, id, row) && s.calls[id].pc.Recording?
    case FailUnacknowledged(id) => PastLookup(s, id, row) && s.calls[id].pc.Deducting? && CanPay(s.e, row)
    case _ => false
  }

  ghost predicate ChargedRight(start: Economy, s: System, row: PlayerStyle) {
    && (forall id :: id in s.calls ==> id < s.nextId)
    && Charges(s.ledger, row) <= (if row in start.styles then 0 else 1)
    && (row in start.styles ==> row in s.e.styles)
    && (Charges(s.ledger, row) == 1 ==>
          row in s.e.styles || exists id :: PastLookup(s, id, row) && s.calls[id].pc.Recording?)
    && (forall id :: PastLookup(s, id, row) ==> row !in s.e.styles)
    && (forall id :: PastLookup(s, id, row) && s.calls[id].pc.Deducting? ==> Charges(s.ledger, row) == 0)
  }

  /** The one call past its lookup moves on: it pays, records, or gives up. */
  lemma OwnStepChargesRight(start: Economy, s: System, after: System, id: CallId, row: PlayerStyle)
    requires ChargedRight(start, s, row) && NoOverlap(s, row) && PastLookup(s, id, row)
    requires after.nextId == s.nextId && id in after.calls && after.calls[id].row == row
    requires after.calls == s.calls[id := after.calls[id]]
    requires
      || (&& s.calls[id].pc.Deducting? && CanPay(s.e, row) && after.calls[id].pc.Recording?
          && after.ledger == s.ledger + [Charge(id, row)] && after.e.styles == s.e.styles)
      || (&& s.calls[id].pc.Recording? && !PastLookup(after, id, row)
          && after.ledger == s.ledger && after.e.styles == s.e.styles + {row})
      || (&& s.calls[id].pc.Deducting? && !PastLookup(after, id, row)
          && after.ledger == s.ledger && after.e.styles == s.e.styles)
    ensures ChargedRight(start, after, row)
  {
    if after.ledger != s.ledger {
      ChargesAdd(s.ledger, Charge(id, row), row);
      assert PastLookup(after, id, row) && after.calls[id].pc.Recording?;
    }
    forall other | PastLookup(after, other, row) ensures other == id {
      assert other != id ==> PastLookup(s, other, row);
    }
  }

  /** A call that was not past its lookup of this row does not find it and now is, or it is none of the row's business. */
  lemma OtherStepChargesRight(start: Economy, s: System, after: System, id: CallId, row: PlayerStyle)
    requires ChargedRight(start, s, row) && id in s.calls && !PastLookup(s, id, row)
    requires after.nextId == s.nextId && after.calls.Keys == s.calls.Keys && NoOverlap(after, row)
    requires forall other :: other in s.calls && other != id ==> after.calls[other] == s.calls[other]
    requires PastLookup(after, id, row) ==> row !in s.e.styles && after.calls[id].pc == AfterLookup(row)
    requires row in after.e.styles <==> row in s.e.styles
    requires Charges(after.ledger, row) == Charges(s.ledger, row)
    ensures ChargedRight(start, after, row)
  {
    assert forall other :: other != id ==> (PastLookup(after, other, row) <==> PastLookup(s, other, row));
    if Charges(s.ledger, row) == 1 && row !in s.e.styles {
      var recording :| PastLookup(s, recording, row) && s.calls[recording].pc.Recording?;
      assert PastLookup(after, recording, row) && after.calls[recording].pc.Recording?;
    }
  }

  lemma QuietStepChargesRight(start: Economy, s: System, after: System, row: PlayerStyle)
    requires ChargedRight(start, s, row) && after.e.styles == s.e.styles && s.nextId <= after.nextId
    requires Charges(after.ledger, row) == Charges(s.ledger, row)
    requires forall id :: id in s.calls ==> id in after.calls && after.calls[id] == s.calls[id]
    requires forall id :: id in after.calls && id !in s.calls ==> id < after.nextId && !PastLookup(after, id, row)
    ensures ChargedRight(start, after, row)
  {
    if Charges(s.ledger, row) == 1 && row !in s.e.styles {
      var id :| PastLookup(s, id, row) && s.calls[id].pc.Recording?;
      assert PastLookup(after, id, row) && after.calls[id].pc.Recording?;
    }
    assert forall id :: PastLookup(after, id, row) ==> PastLookup(s, id, row);
  }

  lemma OwnCallChargesRight(m: Marshaller, policy: Policy, start: Economy, s: System, action: Action, row: PlayerStyle)
    requires !action.Begin? && !action.Settle? && PastLookup(s, action.id, row) && Step(m, policy, s, action) != s
    requires ChargedRight(start, s, row) && !Harmful(s, action, row) && NoOverlap(s, row)
    ensures ChargedRight(start, Step(m, policy, s, action), row)
  {
    OwnStepChargesRight(start, s, Step(m, policy, s, action), action.id, row);
  }

  lemma OtherCallChargesRight(m: Marshaller, policy: Policy, start: Economy, s: System, action: Action, row: PlayerStyle)
    requires !action.Begin? && !action.Settle? && action.id in s.calls && !PastLookup(s, action.id, row)
    requires ChargedRight(start, s, row) && !Harmful(s, action, row) && NoOverlap(Step(m, policy, s, action), row)
    ensures ChargedRight(start, Step(m, policy, s, action), row)
  {
    var after := Step(m, policy, s, action);
    if after.ledger != s.ledger {
      ChargesAdd(s.ledger, Charge(action.id, s.calls[action.id].row), row);
    }
    OtherStepChargesRight(start, s, after, action.id, row);
  }

  lemma StepChargesRight(m: Marshaller, policy: Policy, start: Economy, s: System, action: Action, row: PlayerStyle)
    requires ChargedRight(start, s, row) && !Harmful(s, action, row)
    requires NoOverlap(s, row) && NoOverlap(Step(m, policy, s, action), row)
    ensures ChargedRight(start, Step(m, policy, s, action), row)
  {
    var after := Step(m, policy, s, action);
    if action.Begin? || action.Settle? {
      if after.ledger != s.ledger {
        assert after.ledger[..|s.ledger|] == s.ledger;
      }
      QuietStepChargesRight(start, s, after, row);
    } else if after != s {
      if PastLookup(s, action.id, row) {
        OwnCallChargesRight(m, policy, start, s, action, row);
      } else {
        OtherCallChargesRight(m, policy, start, s, action, row);
      }
    }
  }

  /** At no point of the run are two unlocks of the row past their lookups. */
  ghost predicate NeverOverlaps(m: Marshaller, policy: Policy, start: Economy, actions: seq<Action>, row: PlayerStyle) {
    forall k :: 0 <= k <= |actions| ==> NoOverlap(Run(m, policy, start, actions[..k]), row)
  }

  /** No step of the run is a harmful failure. */
  ghost predicate Harmless(m: Marshaller, policy: Policy, start: Economy, actions: seq<Action>, row: PlayerStyle) {
    forall k :: 0 <= k < |actions| ==> !Harmful(Run(m, policy, start, actions[..k]), actions[k], row)
  }

  /**
   A style is charged at most once, and not at all when the player had it, in every run in which no two unlocks of it are
   past their lookups at the same time and no harmful failure happens to it. Unlocks of anything else may interleave and
   fail freely, and so may those of this style in any other way. The four witnesses below show that nothing of this can
   be spared.
   */
  lemma {:induction false} ChargedOnce(m: Marshaller, policy: Policy, start: Economy, actions: seq<Action>, row: PlayerStyle)
    requires NeverOverlaps(m, policy, start, actions, row) && Harmless(m, policy, start, actions, row)
    ensures ChargedRight(start, Run(m, policy, start, actions), row)
  {
    if actions != [] {
      var n := |actions| - 1;
      assert forall k :: 0 <= k <= n ==> actions[..n][..k] == actions[..k];
      assert actions[..n + 1] == actions;
      ChargedOnce(m, policy, start, actions[..n], row);
      StepChargesRight(m, policy, start, Run(m, policy, start, actions[..n]), actions[n], row);
    }
  }

  /** One more action at the end of a run. */
  lemma Then(m: Marshaller, policy: Policy, start: Economy, actions: seq<Action>, action: Action)
    ensures Run(m, policy, start, actions + [action]) == Step(m, policy, Run(m, policy, start, actions), action)
  {
    assert (actions + [action])[..|actions|] == actions;
  }

  /** Two calls that both found the row missing both pay. */
  lemma BothPay(m: Marshaller, policy: Policy, start: Economy, looked: seq<Action>, row: PlayerStyle)
    requires CanPay(start, row) && start.db.stats[row.player].gold >= 200
    requires Run(m, policy, start, looked)
             == System(start, map[0 := Call(row, Deducting), 1 := Call(row, Deducting)], 2, [])
    ensures var s := Run(m, policy, start, looked + [Advance(0)] + [Advance(1)]);
            && s.ledger == [Charge(0, row)] + [Charge(1, row)]
            && s.calls == map[0 := Call(row, Recording(100)), 1 := Call(row, Recording(100))]
            && GoldOf(s.e.db, row.player) == GoldOf(start.db, row.player) - 200
  {
    Then(m, policy, start, looked, Advance(0));
    Then(m, policy, start, looked + [Advance(0)], Advance(1));
  }

  /** And then both record it. */
  lemma BothRecord(m: Marshaller, policy: Policy, start: Economy, paid: seq<Action>, row: PlayerStyle)
    requires Run(m, policy, start, paid).calls == map[0 := Call(row, Recording(100)), 1 := Call(row, Recording(100))]
    ensures var s := Run(m, policy, start, paid + [Advance(0)] + [Advance(1)]);
            && s.ledger == Run(m, policy, start, paid).ledger && s.e.db == Run(m, policy, start, paid).e.db
            && s.calls == map[0 := Call(row, Returned(Unlocked(100))), 1 := Call(row, Returned(Unlocked(100)))]
  {
    Then(m, policy, start, paid, Advance(0));
    Then(m, policy, start, paid + [Advance(0)], Advance(1));
  }

  lemma BothLook(m: Marshaller, policy: Policy, start: Economy, row: PlayerStyle)
    requires KnownStyle(row.style) && row.style != 1 && row !in start.styles
    ensures var begin := Begin(row.player, row.style);
            Run(m, policy, start, [begin] + [begin] + [Advance(0)] + [Advance(1)])
            == System(start, map[0 := Call(row, Deducting), 1 := Call(row, Deducting)], 2, [])
  {
    var begin := Begin(row.player, row.style);
    Then(m, policy, start, [], begin);
    assert [] + [begin] == [begin];
    Then(m, policy, start, [begin], begin);
    Then(m, policy, start, [begin] + [begin], Advance(0));
    Then(m, policy, start, [begin] + [begin] + [Advance(0)], Advance(1));
  }

  /** The overlap matters: two unlocks of one style by a player with 200 gold can both be charged, and both succeed. */
  lemma OverlappingUnlocksPayTwice(m: Marshaller, policy: Policy, start: Economy, row: PlayerStyle) returns (actions: seq<Action>)
    requires KnownStyle(row.style) && row.style != 1 && row !in start.styles
    requires row.player in start.db.stats && start.db.stats[row.player].gold >= 200
    ensures forall action :: action in actions ==> action.Begin? || action.Advance?
    ensures var s := Run(m, policy, start, actions);
            && Charges(s.ledger, row) == 2
            && s.calls == map[0 := Call(row, Returned(Unlocked(100))), 1 := Call(row, Returned(Unlocked(100)))]
            && GoldOf(s.e.db, row.player) == GoldOf(start.db, row.player) - 200
  {
    var begin := Begin(row.player, row.style);
    var looked := [begin] + [begin] + [Advance(0)] + [Advance(1)];
    actions := looked + [Advance(0)] + [Advance(1)] + [Advance(0)] + [Advance(1)];
    BothLook(m, policy, start, row);
    BothPay(m, policy, start, looked, row);
    BothRecord(m, policy, start, looked + [Advance(0)] + [Advance(1)], row);
    ChargesAdd([], Charge(0, row), row);
    assert [] + [Charge(0, row)] == [Charge(0, row)];
    ChargesAdd([Charge(0, row)], Charge(1, row), row);
  }

  lemma NeverOverlapsThen(m: Marshaller, policy: Policy, start: Economy, actions: seq<Action>, action: Action, row: PlayerStyle)
    requires NeverOverlaps(m, policy, start, actions, row) && NoOverlap(Run(m, policy, start, actions + [action]), row)
    ensures NeverOverlaps(m, policy, start, actions + [action], row)
  {
    var longer := actions + [action];
    forall k | 0 <= k <= |longer| ensures NoOverlap(Run(m, policy, start, longer[..k]), row) {
      assert longer[..k] == if k <= |actions| then actions[..k] else longer;
    }
  }

  /** A lookup that fails charges a player for a style it has. */
  lemma FailedLookupPays(m: Marshaller, policy: Policy, start: Economy, row: PlayerStyle) returns (actions: seq<Action>)
    requires KnownStyle(row.style) && row.style != 1 && row in start.styles && CanPay(start, row)
    ensures NeverOverlaps(m, policy, start, actions, row)
    ensures Charges(Run(m, policy, start, actions).ledger, row) == 1
  {
    var begin := [Begin(row.player, row.style)];
    var looked := begin + [LookupFails(0)];
    actions := looked + [Advance(0)];
    NeverOverlapsThen(m, policy, start, [], Begin(row.player, row.style), row);
    assert [] + begin == begin;
    Then(m, policy, start, [], Begin(row.player, row.style));
    Then(m, policy, start, begin, LookupFails(0));
    NeverOverlapsThen(m, policy, start, begin, LookupFails(0), row);
    Then(m, policy, start, looked, Advance(0));
    NeverOverlapsThen(m, policy, start, looked, Advance(0), row);
    ChargesAdd([], Charge(0, row), row);
  }

  /** The whole system after one unlock has been charged and failed without recording the style. */
  ghost predicate PaidForNothing(start: Economy, s: System, row: PlayerStyle) {
    && s.calls == map[0 := Call(row, Failed)] && s.nextId == 1 && s.ledger == [Charge(0, row)]
    && CanPay(start, row) && s.e == start.(db := Charged(start.db, row.player, 100))
  }

  /** No call is under way on this row, and the next id is new. */
  ghost predicate Idle(s: System, row: PlayerStyle) {
    s.nextId !in s.calls && forall id :: !PastLookup(s, id, row)
  }

  /** A single call on an otherwise idle row overlaps with none. */
  lemma AloneNeverOverlaps(s: System, after: System, row: PlayerStyle)
    requires Idle(s, row) && forall id :: id in after.calls && id != s.nextId ==> id in s.calls && after.calls[id] == s.calls[id]
    ensures NoOverlap(after, row)
  {
    forall id | PastLookup(after, id, row) ensures id == s.nextId {
      assert id != s.nextId ==> PastLookup(s, id, row);
    }
  }

  /** What one unlock alone does up to its deduction. */
  function Looking(s: System, row: PlayerStyle, pc: Pc): System {
    s.(calls := s.calls[s.nextId := Call(row, pc)], nextId := s.nextId + 1)
  }

  /** The next call looks the row up and does not find it, nothing else being under way. */
  lemma LooksAlone(m: Marshaller, policy: Policy, start: Economy, actions: seq<Action>, row: PlayerStyle)
    requires KnownStyle(row.style) && row.style != 1 && NeverOverlaps(m, policy, start, actions, row)
    requires var s := Run(m, policy, start, actions); Idle(s, row) && row !in s.e.styles
    ensures var s := Run(m, policy, start, actions);
            var looked := actions + [Begin(row.player, row.style)] + [Advance(s.nextId)];
            NeverOverlaps(m, policy, start, looked, row) && Run(m, policy, start, looked) == Looking(s, row, Deducting)
  {
    var s := Run(m, policy, start, actions);
    var begin := actions + [Begin(row.player, row.style)];
    Then(m, policy, start, actions, Begin(row.player, row.style));
    assert Run(m, policy, start, begin) == Looking(s, row, LookingUp);
    AloneNeverOverlaps(s, Looking(s, row, LookingUp), row);
    NeverOverlapsThen(m, policy, start, actions, Begin(row.player, row.style), row);
    Then(m, policy, start, begin, Advance(s.nextId));
    assert Run(m, policy, start, begin + [Advance(s.nextId)]) == Looking(s, row, Deducting);
    AloneNeverOverlaps(s, Looking(s, row, Deducting), row);
    NeverOverlapsThen(m, policy, start, begin, Advance(s.nextId), row);
  }

  lemma AdvancePays(s: System, row: PlayerStyle)
    requires CanPay(s.e, row)
    ensures Advanced(Looking(s, row, Deducting), s.nextId)
            == Looking(s, row, Recording(100)).(e := s.e.(db := Charged(s.e.db, row.player, 100)),
                                                ledger := s.ledger + [Charge(s.nextId, row)])
  {
  }

  /** And then pays for it. */
  lemma PaysAlone(m: Marshaller, policy: Policy, start: Economy, actions: seq<Action>, row: PlayerStyle)
    requires KnownStyle(row.style) && row.style != 1 && NeverOverlaps(m, policy, start, actions, row)
    requires var s := Run(m, policy, start, actions); Idle(s, row) && row !in s.e.styles && CanPay(s.e, row)
    ensures var s := Run(m, policy, start, actions);
            var paid := actions + [Begin(row.player, row.style)] + [Advance(s.nextId)] + [Advance(s.nextId)];
            && NeverOverlaps(m, policy, start, paid, row)
            && Run(m, policy, start, paid)
               == Looking(s, row, Recording(100)).(e := s.e.(db := Charged(s.e.db, row.player, 100)),
                                                   ledger := s.ledger + [Charge(s.nextId, row)])
  {
    var s := Run(m, policy, start, actions);
    var looked := actions + [Begin(row.player, row.style)] + [Advance(s.nextId)];
    LooksAlone(m, policy, start, actions, row);
    Then(m, policy, start, looked, Advance(s.nextId));
    AdvancePays(s, row);
    AloneNeverOverlaps(s, Advanced(Looking(s, row, Deducting), s.nextId), row);
    NeverOverlapsThen(m, policy, start, looked, Advance(s.nextId), row);
  }

  /** A player charged in vain who tries again is charged again, though the two unlocks never overlap. */
  lemma RetryPaysAgain(m: Marshaller, policy: Policy, start: Economy, failed: seq<Action>, row: PlayerStyle)
    requires KnownStyle(row.style) && row.style != 1 && row !in start.styles
    requires row.player in start.db.stats && start.db.stats[row.player].gold >= 200
    requires NeverOverlaps(m, policy, start, failed, row) && PaidForNothing(start, Run(m, policy, start, failed), row)
    ensures var actions := failed + [Begin(row.player, row.style)] + [Advance(1)] + [Advance(1)];
            && NeverOverlaps(m, policy, start, actions, row)
            && Charges(Run(m, policy, start, actions).ledger, row) == 2
  {
    PaysAlone(m, policy, start, failed, row);
    ChargesAdd([], Charge(0, row), row);
    assert [] + [Charge(0, row)] == [Charge(0, row)];
    ChargesAdd([Charge(0, row)], Charge(1, row), row);
  }

  /** Recording fails after the charge, and the player tries again. */
  lemma FailedRecordPaysTwice(m: Marshaller, policy: Policy, start: Economy, row: PlayerStyle) returns (actions: seq<Action>)
    requires KnownStyle(row.style) && row.style != 1 && row !in start.styles
    requires row.player in start.db.stats && start.db.stats[row.player].gold >= 200
    ensures NeverOverlaps(m, policy, start, actions, row)
    ensures Charges(Run(m, policy, start, actions).ledger, row) == 2
  {
    PaysAlone(m, policy, start, [], row);
    var paid := [] + [Begin(row.player, row.style)] + [Advance(0)] + [Advance(0)];
    Then(m, policy, start, paid, Fail(0));
    NeverOverlapsThen(m, policy, start, paid, Fail(0), row);
    RetryPaysAgain(m, policy, start, paid + [Fail(0)], row);
    actions := paid + [Fail(0)] + [Begin(row.player, row.style)] + [Advance(1)] + [Advance(1)];
  }

  /** The deduction takes effect but is reported as failed, and the player tries again. */
  lemma LostDeductionPaysTwice(m: Marshaller, policy: Policy, start: Economy, row: PlayerStyle) returns (actions: seq<Action>)
    requires KnownStyle(row.style) && row.style != 1 && row !in start.styles
    requires row.player in start.db.stats && start.db.stats[row.player].gold >= 200
    ensures NeverOverlaps(m, policy, start, actions, row)
    ensures Charges(Run(m, policy, start, actions).ledger, row) == 2
  {
    var looked := [] + [Begin(row.player, row.style)] + [Advance(0)];
    LooksAlone(m, policy, start, [], row);
    Then(m, policy, start, looked, FailUnacknowledged(0));
    NeverOverlapsThen(m, policy, start, looked, FailUnacknowledged(0), row);
    RetryPaysAgain(m, policy, start, looked + [FailUnacknowledged(0)], row);
    actions := looked + [FailUnacknowledged(0)] + [Begin(row.player, row.style)] + [Advance(1)] + [Advance(1)];
  }

  /** Left alone and without a failure an unlock is the sequential one: same tables, same answer. */
  lemma AloneIsUnlock(m: Marshaller, policy: Policy, s: System, player: int64, style: int32)
    ensures var one := Step(m, policy, s, Begin(player, style));
            var two := Step(m, policy, one, Advance(s.nextId));
            var three := Step(m, policy, two, Advance(s.nextId));
            var four := Step(m, policy, three, Advance(s.nextId));
            var (e, answer) := Unlock(s.e, player, style);
            four.e == e && s.nextId in four.calls && four.calls[s.nextId] == Call(PlayerStyle(player, style), Returned(answer))
  {
    var one := Step(m, policy, s, Begin(player, style));
    var two := Step(m, policy, one, Advance(s.nextId));
    if two.calls[s.nextId].pc.Deducting? {
      assert Price(style) == 100;
    }
  }

  // ---------------------------------------------------------------------------------------------------------------
  // How often a player can be charged
  // ---------------------------------------------------------------------------------------------------------------

  /** Unlocks alone, with no statement failing. */
  ghost predicate OnlyUnlocks(actions: seq<Action>) {
    forall action :: action in actions ==> action.Begin? || action.Advance?
  }

  /** Unlocks alone, whatever fails. */
  ghost predicate NoIncome(actions: seq<Action>) {
    forall action :: action in actions ==> !action.Settle?
  }

  /** Without income every charge comes out of the gold the player started with. */
  ghost predicate PaidFromStart(start: Economy, s: System, row: PlayerStyle) {
    && 100 * Charges(s.ledger, row) <= GoldOf(start.db, row.player) - GoldOf(s.e.db, row.player)
    && (Charges(s.ledger, row) > 0 ==> GoldOf(s.e.db, row.player) >= 0)
  }

  /** What one deduction takes, and from whom. */
  lemma PayTakes(s: System, id: CallId, player: int64)
    requires id in s.calls && CanPay(s.e, s.calls[id].row)
    ensures var paying := s.calls[id].row.player == player;
            && GoldOf(Pay(s, id).e.db, player) == GoldOf(s.e.db, player) - (if paying then 100 else 0)
            && (paying ==> GoldOf(Pay(s, id).e.db, player) >= 0)
  {
  }

  lemma PayingKeepsPaidFromStart(start: Economy, s: System, id: CallId, row: PlayerStyle)
    requires PaidFromStart(start, s, row) && id in s.calls && CanPay(s.e, s.calls[id].row)
    ensures PaidFromStart(start, Pay(s, id), row)
  {
    PayTakes(s, id, row.player);
    ChargesAdd(s.ledger, Charge(id, s.calls[id].row), row);
    assert Pay(s, id).ledger == s.ledger + [Charge(id, s.calls[id].row)];
  }

  lemma StepKeepsPaidFromStart(m: Marshaller, policy: Policy, start: Economy, s: System, action: Action, row: PlayerStyle)
    requires PaidFromStart(start, s, row) && !action.Settle?
    ensures PaidFromStart(start, Step(m, policy, s, action), row)
  {
    var after := Step(m, policy, s, action);
    if after.ledger != s.ledger {
      PayingKeepsPaidFromStart(start, s, action.id, row);
      assert after.ledger == Pay(s, action.id).ledger && after.e == Pay(s, action.id).e;
    }
  }

  lemma {:induction false} UnlocksPayFromStart(
      m: Marshaller, policy: Policy, start: Economy, actions: seq<Action>, row: PlayerStyle)
    requires NoIncome(actions)
    ensures PaidFromStart(start, Run(m, policy, start, actions), row)
  {
    if actions != [] {
      var n := |actions| - 1;
      assert actions[n] in actions;
      UnlocksPayFromStart(m, policy, start, actions[..n], row);
      StepKeepsPaidFromStart(m, policy, start, Run(m, policy, start, actions[..n]), actions[n], row);
    }
  }

  /** With no statement failing, overlaps can charge a player twice for a style it lacks if and only if it has 200 gold. */
  lemma ChargedTwiceIff(m: Marshaller, policy: Policy, start: Economy, row: PlayerStyle)
    requires KnownStyle(row.style) && row.style != 1 && row !in start.styles
    ensures (exists actions :: OnlyUnlocks(actions) && Charges(Run(m, policy, start, actions).ledger, row) >= 2)
            <==> GoldOf(start.db, row.player) >= 200
  {
    if GoldOf(start.db, row.player) >= 200 {
      var actions := OverlappingUnlocksPayTwice(m, policy, start, row);
      assert OnlyUnlocks(actions);
    }
    forall actions | OnlyUnlocks(actions) && Charges(Run(m, policy, start, actions).ledger, row) >= 2
      ensures GoldOf(start.db, row.player) >= 200
    {
      assert NoIncome(actions);
      UnlocksPayFromStart(m, policy, start, actions, row);
    }
  }

  /** Lookups that fail one after another charge as often as the gold lasts, even for a style the player has. */
  lemma {:induction false} FailedLookupsPay(m: Marshaller, policy: Policy, start: Economy, row: PlayerStyle, n: nat)
    returns (actions: seq<Action>)
    requires KnownStyle(row.style) && row.style != 1
    requires row.player in start.db.stats && start.db.stats[row.player].gold >= 100 * n
    ensures NoIncome(actions)
    ensures var s := Run(m, policy, start, actions);
            && Charges(s.ledger, row) == n
            && row.player in s.e.db.stats && s.e.db.stats[row.player].gold == start.db.stats[row.player].gold - 100 * n
  {
    actions := [];
    if n > 0 {
      var earlier := FailedLookupsPay(m, policy, start, row, n - 1);
      var s := Run(m, policy, start, earlier);
      var begun := earlier + [Begin(row.player, row.style)];
      var looked := begun + [LookupFails(s.nextId)];
      actions := looked + [Advance(s.nextId)];
      Then(m, policy, start, earlier, Begin(row.player, row.style));
      Then(m, policy, start, begun, LookupFails(s.nextId));
      Then(m, policy, start, looked, Advance(s.nextId));
      ChargesAdd(s.ledger, Charge(s.nextId, row), row);
    }
  }

  /** Over all runs without income, failures included, a paid style can be charged n times if and only if gold allows. */
  lemma ChargedTimesIff(m: Marshaller, policy: Policy, start: Economy, row: PlayerStyle, n: nat)
    requires KnownStyle(row.style) && row.style != 1 && n >= 1
    ensures (exists actions :: NoIncome(actions) && Charges(Run(m, policy, start, actions).ledger, row) >= n)
            <==> GoldOf(start.db, row.player) >= 100 * n
  {
    if GoldOf(start.db, row.player) >= 100 * n {
      var actions := FailedLookupsPay(m, policy, start, row, n);
      assert NoIncome(actions);
    }
    forall actions | NoIncome(actions) && Charges(Run(m, policy, start, actions).ledger, row) >= n
      ensures GoldOf(start.db, row.player) >= 100 * n
    {
      UnlocksPayFromStart(m, policy, start, actions, row);
    }
  }
}
