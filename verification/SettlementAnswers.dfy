/**
 What each of the two repositories answers to one call, in the order the code decides it: the exact condition, over
 unbounded integers, of every failure, of a replay and of a reward, and what the rewarded caller is told.
 */
module SettlementAnswers {
  import opened Common
  import opened Settlement
  import opened Storage
  import opened MemoryStore
  import opened MemoryHistory
  import opened SqlSettlement

  /** The archive the run is added to, if what is stored for the player decodes. */
  function Before(m: Marshaller, archives: map<int64, Blob>, player: int64): Option<Archive> {
    if player in archives then m.getArchive(archives[player]) else Some(Archive(1, 0, 0, 0, 0, 0, 0, 0, [], 0))
  }

  /** A row exists: the call is a repeat of its run. */
  predicate Replays(m: Marshaller, row: Blob, req: Request, answer: Result<Response, Failure>) {
    if m.getResponse(row).None? then answer == Err(MalformedResponse)
    else
      var first := m.getResponse(row).value;
      answer == Ok(Response(first.success, true, first.rewardGold, first.rewardExp, first.bestScore, first.archive, req.runId))
  }

  /** The archive refuses the run, in the order of the three guards. */
  predicate ArchiveRefuses(a: Archive, req: Request, policy: Policy, error: SettleError) {
    if !RewardFits(req, policy) then error == RewardOverflow
    else if !ArchiveFits(a, req, policy) then error == ArchiveOverflow
    else error == TotalsOverflow && (a.totalKills < 0 || !TotalsFit(a, req))
  }

  predicate ArchiveTakes(a: Archive, req: Request, policy: Policy) {
    RewardFits(req, policy) && ArchiveFits(a, req, policy) && a.totalKills >= 0 && TotalsFit(a, req)
  }

  /** What the first caller of a run is told. */
  function Reported(a: Archive, req: Request, policy: Policy): Response
    requires req.kills >= 0 && AcceptedPolicy(policy) && ArchiveTakes(a, req, policy)
  {
    RewardsAreNatural(req, policy);
    Response(true, false, req.kills * policy.goldPerKill, req.kills * policy.expPerKill, Max(a.bestScore, req.score),
             Some(Merged(a, req, policy)), req.runId)
  }

  /** Both messages of an accepted run can be marshalled. */
  predicate Encodes(m: Marshaller, a: Archive, req: Request, policy: Policy)
    requires req.kills >= 0 && AcceptedPolicy(policy) && ArchiveTakes(a, req, policy)
  {
    m.putArchive(Merged(a, req, policy)).Some? && m.putResponse(Reported(a, req, policy)).Some?
  }

  /** The stats row has no room for the run's kills or for one more game. */
  predicate StatsTotalsFull(db: Db, player: int64, req: Request) {
    player in db.stats &&
    var row := db.stats[player];
    row.totalKills < 0 || row.totalKills + req.kills > MAX_INT64 || row.totalGames == MAX_INT64
  }

  /** Under a modest policy the archive's part of a settlement is decided by the sums alone. */
  lemma ArchiveDecides(a: Archive, req: Request, policy: Policy)
    requires ModestPolicy(policy) && req.kills >= 0
    ensures Settled(a, req, policy).Err? <==> !ArchiveTakes(a, req, policy)
    ensures Settled(a, req, policy).Err? ==> ArchiveRefuses(a, req, policy, Settled(a, req, policy).error)
    ensures ArchiveTakes(a, req, policy) ==> Settled(a, req, policy) == Ok(Reported(a, req, policy))
  {
    RewardsAreNatural(req, policy);
    ProductFits(req.kills, policy.goldPerKill);
    ProductFits(req.kills, policy.expPerKill);
    SettledIsExactIff(a, req, policy);
    if a.totalKills < 0 && RewardFits(req, policy) && ArchiveFits(a, req, policy) {
      NegativeTotalsRefuse(a, req, policy);
    }
  }

  lemma NegativeTotalsRefuse(a: Archive, req: Request, policy: Policy)
    requires ModestPolicy(policy) && req.kills >= 0 && a.totalKills < 0
    requires RewardFits(req, policy) && ArchiveFits(a, req, policy)
    ensures Settled(a, req, policy) == Err(TotalsOverflow)
  {
    RewardsAreNatural(req, policy);
    ProductFits(req.kills, policy.goldPerKill);
    ProductFits(req.kills, policy.expPerKill);
    assert Wrap64(MAX_INT64 - a.totalKills) == MIN_INT64 - a.totalKills - 1 < 0;
  }

  /** The in-memory store's answer. */
  lemma MemoryAnswers(l: Ledger, m: Marshaller, policy: Policy, player: int64, req: Request)
    requires ModestPolicy(policy) && req.kills >= 0
    ensures var answer := SettleLedger(l, m, policy, player, req).1;
            var key := Key(player, req.runId);
            var before := Before(m, l.archives, player);
            if key in l.settlements then Replays(m, l.settlements[key], req, answer)
            else if before.None? then answer == Err(MalformedArchive)
            else if !ArchiveTakes(before.value, req, policy)
            then answer.Err? && answer.error.Overflow? && ArchiveRefuses(before.value, req, policy, answer.error.error)
            else if !Encodes(m, before.value, req, policy) then answer == Err(EncodeFailed)
            else answer == Ok(Reported(before.value, req, policy))
  {
    var before := Before(m, l.archives, player);
    if before.Some? {
      ArchiveDecides(before.value, req, policy);
    }
  }

  /** The MySQL repository's answer. */
  lemma MySQLAnswers(db: Db, m: Marshaller, policy: Policy, player: int64, req: Request)
    requires ModestPolicy(policy) && req.kills >= 0
    ensures var answer := SettleDb(db, m, policy, player, req).1;
            var key := Key(player, req.runId);
            var before := Before(m, db.archives, player);
            if player !in db.players then answer == Err(PlayerNotFound)
            else if key in db.settlements then Replays(m, db.settlements[key], req, answer)
            else if before.None? then answer == Err(MalformedArchive)
            else if !ArchiveTakes(before.value, req, policy)
            then answer.Err? && answer.error.Overflow? && ArchiveRefuses(before.value, req, policy, answer.error.error)
            else if StatsTotalsFull(db, player, req) then answer == Err(StatsTotalsOverflow)
            else if !req.survivalTime.Finite? then answer == Err(InvalidMetadata)
            else if !Encodes(m, before.value, req, policy) then answer == Err(EncodeFailed)
            else answer == Ok(Reported(before.value, req, policy))
  {
    var before := Before(m, db.archives, player);
    if before.Some? {
      ArchiveDecides(before.value, req, policy);
    }
    StatsDecide(Lookup(db.stats, player), req);
  }

  /** The stats row's part, whatever the rewards: its guard on gold and exp never fires. */
  lemma StatsDecide(stored: Option<Stats>, req: Request)
    requires req.kills >= 0
    ensures forall gold: int32, exp: int32 :: StatsAfter(stored, req, gold, exp).Err? <==>
              stored.Some? && (|| stored.value.totalKills < 0 || stored.value.totalKills + req.kills > MAX_INT64
                               || stored.value.totalGames == MAX_INT64)
    ensures forall gold: int32, exp: int32 :: StatsAfter(stored, req, gold, exp).Err? ==>
              StatsAfter(stored, req, gold, exp) == Err(StatsTotalsOverflow)
  {
    if stored.Some? && stored.value.totalKills < 0 {
      assert Wrap64(MAX_INT64 - stored.value.totalKills) == MIN_INT64 - stored.value.totalKills - 1 < 0;
    }
  }
}
