/**
 Gold earned by settlements and spent on combat styles (UnlockStyle in internal/combat/handler.go, the conditional
 updates of internal/store/mysql.go), one after another: gold is conserved modulo 2^64 and no style is paid for twice.
 */
module Economy {
  import opened Common
  import opened Settlement
  import opened Storage
  import opened SqlSettlement
  import opened MemoryHistory

  /** A row of player_styles, whose (player, style) pair is unique. */
  datatype PlayerStyle = PlayerStyle(player: int64, style: int32)

  datatype Economy = Economy(db: Db, styles: set<PlayerStyle>)

  datatype UnlockAnswer = Unlocked(goldCost: int) | NoSuchStyle | InsufficientGold

  /** The ids of the style table. */
  predicate KnownStyle(style: int32) {
    1 <= style <= 5
  }

  function Price(style: int32): int {
    if style == 1 then 0 else 100
  }

  function GoldOf(db: Db, player: int64): int {
    if player in db.stats then db.stats[player].gold else 0
  }

  function Charged(db: Db, player: int64, amount: nat): Db
    requires player in db.stats && db.stats[player].gold >= amount
  {
    db.(stats := db.stats[player := db.stats[player].(gold := db.stats[player].gold - amount)])
  }

  function Unlock(e: Economy, player: int64, style: int32): (Economy, UnlockAnswer) {
    var row := PlayerStyle(player, style);
    if !KnownStyle(style) then (e, NoSuchStyle)
    else if row in e.styles then (e, Unlocked(0))
    else if Price(style) == 0 then (e.(styles := e.styles + {row}), Unlocked(0))
    else if player !in e.db.stats || e.db.stats[player].gold < Price(style) then (e, InsufficientGold)
    else (Economy(Charged(e.db, player, Price(style)), e.styles + {row}), Unlocked(Price(style)))
  }

  class MySQLStore {
    var db: Db
    var styles: set<PlayerStyle>

    function Value(): Economy
      reads this
    {
      Economy(db, styles)
    }

    /** UPDATE ... SET gold = gold - amount WHERE player_id = player AND gold >= amount; tells whether a row matched. */
    method DeductPlayerGold(player: int64, amount: nat) returns (deducted: bool)
      modifies this`db
      ensures deducted <==> player in old(db).stats && old(db).stats[player].gold >= amount
      ensures db == if deducted then Charged(old(db), player, amount) else old(db)
    {
      deducted := player in db.stats && db.stats[player].gold >= amount;
      if deducted {
        db := Charged(db, player, amount);
      }
    }

    /** FirstOrCreate on the unique pair. */
    method UnlockPlayerStyle(player: int64, style: int32)
      modifies this`styles
      ensures styles == old(styles) + {PlayerStyle(player, style)}
    {
      if PlayerStyle(player, style) !in styles {
        styles := styles + {PlayerStyle(player, style)};
      }
    }

    method UnlockStyle(player: int64, style: int32) returns (answer: UnlockAnswer)
      modifies this
      ensures (Value(), answer) == Unlock(old(Value()), player, style)
    {
      if !KnownStyle(style) {
        return NoSuchStyle;
      }
      if PlayerStyle(player, style) in styles {
        return Unlocked(0);
      }
      var goldCost := 100;
      if style == 1 {
        goldCost := 0;
      }
      if goldCost > 0 {
        var deducted := DeductPlayerGold(player, goldCost);
        if !deducted {
          return InsufficientGold;
        }
      }
      UnlockPlayerStyle(player, style);
      return Unlocked(goldCost);
    }
  }

  /** The player's stats row has at least this much gold. */
  predicate CanAfford(db: Db, player: int64, amount: int) {
    player in db.stats && db.stats[player].gold >= amount
  }

  /**
   What an unlock of a known style answers and does: it succeeds exactly when the style is owned, is the free one, or can
   be paid, at no cost in the first two cases and 100 gold in the third; it is then owned; in the remaining case it
   answers that gold is short and changes nothing. An unknown style is refused and changes nothing either.
   */
  lemma UnlockAnswers(e: Economy, player: int64, style: int32)
    ensures var (after, answer) := Unlock(e, player, style);
            var owned := PlayerStyle(player, style) in e.styles;
            && (!(1 <= style <= 5) ==> answer == NoSuchStyle && after == e)
            && (1 <= style <= 5 ==>
                  && (answer.Unlocked? <==> owned || style == 1 || CanAfford(e.db, player, 100))
                  && (answer.Unlocked? ==> answer.goldCost == if owned || style == 1 then 0 else 100)
                  && (answer.Unlocked? ==> after.styles == e.styles + {PlayerStyle(player, style)})
                  && (answer.Unlocked? ==> GoldOf(after.db, player) == GoldOf(e.db, player) - answer.goldCost)
                  && (!answer.Unlocked? ==> answer == InsufficientGold && after == e)
                  && (forall other :: other != player ==> Lookup(after.db.stats, other) == Lookup(e.db.stats, other))
                  && after.db == e.db.(stats := after.db.stats))
            && (player in e.db.stats ==>
                  player in after.db.stats && after.db.stats[player].(gold := 0) == e.db.stats[player].(gold := 0))
  {
  }

  // ---------------------------------------------------------------------------------------------------------------
  // Histories
  // ---------------------------------------------------------------------------------------------------------------

  datatype Event = Settling(player: int64, req: Request) | Unlocking(player: int64, style: int32)

  function ApplyEvent(m: Marshaller, policy: Policy, e: Economy, event: Event): Economy {
    match event
    case Settling(player, req) => e.(db := SettleDb(e.db, m, policy, player, req).0)
    case Unlocking(player, style) => Unlock(e, player, style).0
  }

  /** The gold a single event reports to the player as newly earned. */
  function Earned(m: Marshaller, policy: Policy, e: Economy, event: Event, player: int64): int {
    if event.Settling? && event.player == player then
      var answer := SettleDb(e.db, m, policy, player, event.req).1;
      if answer.Ok? && !answer.value.duplicate then answer.value.rewardGold else 0
    else 0
  }

  /** The gold a single event reports to the player as spent. */
  function Spent(e: Economy, event: Event, player: int64): int {
    if event.Unlocking? && event.player == player && Unlock(e, player, event.style).1.Unlocked?
    then Unlock(e, player, event.style).1.goldCost
    else 0
  }

  /** Where a history has led, with the totals of what it reported to one player as earned and spent. */
  datatype Tally = Tally(now: Economy, earned: int, spent: int)

  function Tallied(m: Marshaller, policy: Policy, t: Tally, event: Event, player: int64): Tally {
    Tally(ApplyEvent(m, policy, t.now, event),
          t.earned + Earned(m, policy, t.now, event, player),
          t.spent + Spent(t.now, event, player))
  }

  function After(m: Marshaller, policy: Policy, start: Economy, events: seq<Event>, player: int64): Tally {
    if events == [] then Tally(start, 0, 0)
    else Tallied(m, policy, After(m, policy, start, events[..|events| - 1], player), events[|events| - 1], player)
  }

  /** The paid styles a player has gained. */
  function PaidSince(start: Economy, now: Economy, player: int64): set<PlayerStyle> {
    set row | row in now.styles && row !in start.styles && row.player == player && row.style != 1
  }

  /** The gold in the player's stored archive. */
  function ArchiveGold(m: Marshaller, db: Db, player: int64): int {
    if player !in db.archives then 0
    else match m.getArchive(db.archives[player])
      case None => 0
      case Some(archive) => archive.gold
  }

  ghost predicate NonNegativeKills(events: seq<Event>) {
    forall event :: event in events && event.Settling? ==> event.req.kills >= 0
  }

  /** A settlement that rewarded nobody, or somebody else, leaves the player's gold alone. */
  lemma OthersEarnNothing(m: Marshaller, policy: Policy, db: Db, caller: int64, req: Request, player: int64)
    requires var answer := SettleDb(db, m, policy, caller, req).1;
             caller != player || answer.Err? || answer.value.duplicate
    ensures var after := SettleDb(db, m, policy, caller, req).0;
            GoldOf(after, player) == GoldOf(db, player) && ArchiveGold(m, after, player) == ArchiveGold(m, db, player)
  {
  }

  /** A rewarding settlement adds what it reports, to the archive exactly and to the stats row modulo 2^64. */
  lemma SettlingEarns(m: Marshaller, policy: Policy, db: Db, player: int64, req: Request)
    requires Lawful(m) && ModestPolicy(policy) && req.kills >= 0
    requires var answer := SettleDb(db, m, policy, player, req).1; answer.Ok? && !answer.value.duplicate
    ensures var (after, answer) := SettleDb(db, m, policy, player, req);
            && answer.value.rewardGold >= 0
            && GoldOf(after, player) == Wrap64(GoldOf(db, player) + answer.value.rewardGold)
            && ArchiveGold(m, after, player) == ArchiveGold(m, db, player) + answer.value.rewardGold
  {
    var archive := if player in db.archives then m.getArchive(db.archives[player]).value else FRESH_ARCHIVE;
    AcceptedReward(archive, req, policy);
    RewardsAreNatural(req, policy);
  }

  /** One unlock takes its price for a style that was not there, or takes nothing and adds no paid style. */
  lemma UnlockingSpends(start: Economy, e: Economy, caller: int64, style: int32, player: int64)
    requires start.styles <= e.styles
    ensures var (after, answer) := Unlock(e, caller, style);
            var spent := if caller == player && answer.Unlocked? then answer.goldCost else 0;
            && start.styles <= after.styles && after.db.archives == e.db.archives
            && (answer.Unlocked? <==> KnownStyle(style) && PlayerStyle(caller, style) in after.styles)
            && GoldOf(after.db, player) == GoldOf(e.db, player) - spent
            && (spent > 0 ==> GoldOf(after.db, player) >= 0)
            && |PaidSince(start, after, player)| * 100 == |PaidSince(start, e, player)| * 100 + spent
  {
    var after := Unlock(e, caller, style).0;
    if after.styles != e.styles {
      var row := PlayerStyle(caller, style);
      if caller == player && style != 1 {
        assert PaidSince(start, after, player) == PaidSince(start, e, player) + {row};
      } else {
        assert PaidSince(start, after, player) == PaidSince(start, e, player);
      }
    }
  }

  lemma EventEarns(m: Marshaller, policy: Policy, e: Economy, event: Event, player: int64)
    requires Lawful(m) && ModestPolicy(policy) && event.Settling? && event.req.kills >= 0
    ensures var after := ApplyEvent(m, policy, e, event);
            var earned := Earned(m, policy, e, event, player);
            && earned >= 0 && after.styles == e.styles
            && GoldOf(after.db, player) == Wrap64(GoldOf(e.db, player) + earned)
            && ArchiveGold(m, after.db, player) == ArchiveGold(m, e.db, player) + earned
  {
    var answer := SettleDb(e.db, m, policy, event.player, event.req).1;
    if event.player == player && answer.Ok? && !answer.value.duplicate {
      SettlingEarns(m, policy, e.db, player, event.req);
    } else {
      OthersEarnNothing(m, policy, e.db, event.player, event.req, player);
    }
  }

  /** An archive's gold is an int32. */
  lemma ArchiveGoldRange(m: Marshaller, db: Db, player: int64)
    ensures MIN_INT32 <= ArchiveGold(m, db, player) <= MAX_INT32
  {
  }

  /** What a player should have: the gold at the start, plus the rewards since, minus 100 per paid style gained. */
  function Books(start: Economy, t: Tally, player: int64): int {
    GoldOf(start.db, player) + t.earned - 100 * |PaidSince(start, t.now, player)|
  }

  /** The player has that much, modulo 2^64; what was spent is the price of the styles gained; the archive earned it too. */
  ghost predicate Balanced(m: Marshaller, start: Economy, t: Tally, player: int64) {
    && start.styles <= t.now.styles
    && GoldOf(t.now.db, player) == Wrap64(Books(start, t, player))
    && MIN_INT64 <= Books(start, t, player) && (GoldOf(start.db, player) >= 0 ==> Books(start, t, player) >= 0)
    && t.spent == 100 * |PaidSince(start, t.now, player)|
    && 0 <= t.earned == ArchiveGold(m, t.now.db, player) - ArchiveGold(m, start.db, player)
  }

  lemma EarningBalances(m: Marshaller, start: Economy, t: Tally, after: Economy, player: int64, more: nat)
    requires Balanced(m, start, t, player) && after.styles == t.now.styles
    requires GoldOf(after.db, player) == Wrap64(GoldOf(t.now.db, player) + more)
    requires ArchiveGold(m, after.db, player) == ArchiveGold(m, t.now.db, player) + more
    ensures Balanced(m, start, Tally(after, t.earned + more, t.spent), player)
  {
    assert PaidSince(start, after, player) == PaidSince(start, t.now, player);
    Wrap64Adds(Books(start, t, player), more);
  }

  /** Taking what a wrapped sum has leaves the wrapped difference. */
  lemma SpendingWraps(books: int, spent: int)
    requires books >= MIN_INT64 && 0 <= spent && (spent > 0 ==> Wrap64(books) >= spent)
    ensures Wrap64(books) - spent == Wrap64(books - spent)
    ensures books - spent >= MIN_INT64 && (books >= 0 ==> books - spent >= 0 || spent == 0)
  {
    Wrap64Adds(books, -spent);
  }

  lemma UnlockingBalances(m: Marshaller, start: Economy, t: Tally, caller: int64, style: int32, player: int64)
    requires Balanced(m, start, t, player)
    ensures var (after, answer) := Unlock(t.now, caller, style);
            var cost := if caller == player && answer.Unlocked? then answer.goldCost else 0;
            Balanced(m, start, Tally(after, t.earned, t.spent + cost), player)
  {
    UnlockingSpends(start, t.now, caller, style, player);
    var answer := Unlock(t.now, caller, style).1;
    SpendingWraps(Books(start, t, player), if caller == player && answer.Unlocked? then answer.goldCost else 0);
  }

  /** What a settlement adds to a tally. */
  lemma SettlingReports(m: Marshaller, policy: Policy, t: Tally, event: Event, player: int64)
    returns (after: Economy, earned: nat)
    requires Lawful(m) && ModestPolicy(policy) && event.Settling? && event.req.kills >= 0
    ensures Tallied(m, policy, t, event, player) == Tally(after, t.earned + earned, t.spent)
    ensures after.styles == t.now.styles
    ensures GoldOf(after.db, player) == Wrap64(GoldOf(t.now.db, player) + earned)
    ensures ArchiveGold(m, after.db, player) == ArchiveGold(m, t.now.db, player) + earned
  {
    EventEarns(m, policy, t.now, event, player);
    after, earned := ApplyEvent(m, policy, t.now, event), Earned(m, policy, t.now, event, player);
  }

  /** One more event keeps the books, with what it reports as earned or spent. */
  lemma EventBalances(m: Marshaller, policy: Policy, start: Economy, t: Tally, event: Event, player: int64)
    requires Lawful(m) && ModestPolicy(policy) && (event.Settling? ==> event.req.kills >= 0)
    requires Balanced(m, start, t, player)
    ensures Balanced(m, start, Tallied(m, policy, t, event, player), player)
  {
    if event.Settling? {
      var after, earned := SettlingReports(m, policy, t, event, player);
      EarningBalances(m, start, t, after, player, earned);
    } else {
      UnlockingBalances(m, start, t, event.player, event.style, player);
    }
  }

  /**
   Gold conservation over every sequential history of settlements and unlocks: what a player has is what it started
   with plus all reported rewards minus 100 for each paid style gained, modulo 2^64, and what was spent is exactly the
   price of the styles gained, so none was charged twice. The archive earns the same rewards.
   */
  lemma {:induction false} GoldIsConserved(
      m: Marshaller, policy: Policy, start: Economy, events: seq<Event>, player: int64)
    requires Lawful(m) && ModestPolicy(policy) && NonNegativeKills(events)
    ensures Balanced(m, start, After(m, policy, start, events, player), player)
  {
    if events == [] {
      assert PaidSince(start, start, player) == {};
    } else {
      var n := |events| - 1;
      assert events[n] in events;
      GoldIsConserved(m, policy, start, events[..n], player);
      EventBalances(m, policy, start, After(m, policy, start, events[..n], player), events[n], player);
    }
  }

  /**
   Nothing wraps, and a player who did not start in debt has none, if and only if the books fit int64; they always do
   when the player starts at least 2^32 - 1 below the largest int64, since the archive's int32 gold bounds all rewards.
   */
  lemma GoldIsExactIff(m: Marshaller, policy: Policy, start: Economy, events: seq<Event>, player: int64)
    requires Lawful(m) && ModestPolicy(policy) && NonNegativeKills(events)
    ensures var t := After(m, policy, start, events, player);
            var gold, books := GoldOf(t.now.db, player), Books(start, t, player);
            && (gold == books <==> books <= MAX_INT64)
            && (GoldOf(start.db, player) >= 0 ==> (gold >= 0 <==> books <= MAX_INT64))
            && (GoldOf(start.db, player) <= MAX_INT64 - 0xffff_ffff ==> books <= MAX_INT64)
  {
    GoldIsConserved(m, policy, start, events, player);
    ArchiveGoldRange(m, After(m, policy, start, events, player).now.db, player);
    ArchiveGoldRange(m, start.db, player);
  }

  /** A second purchase of the same style, any time later, is free. */
  lemma {:induction false} StylesStay(m: Marshaller, policy: Policy, start: Economy, events: seq<Event>, row: PlayerStyle)
    requires row in start.styles
    ensures row in After(m, policy, start, events, row.player).now.styles
    ensures Unlock(After(m, policy, start, events, row.player).now, row.player, row.style).1 in {Unlocked(0), NoSuchStyle}
  {
    if events != [] {
      StylesStay(m, policy, start, events[..|events| - 1], row);
    }
  }
}
