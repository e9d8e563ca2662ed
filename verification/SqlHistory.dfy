/**
 What the MySQL tables say after a serial run, and so after any interleaving of locked transactions: every rewarded run
 is in the player's archive, stats row and score rows exactly once, in order, and nothing else is.
 */
module SqlHistory {
  import opened Common
  import opened Settlement
  import opened Storage
  import opened SqlSettlement
  import opened SqlMachine
  import opened SqlSerial
  import opened MemoryHistory

  /** The runs of one player that were answered as newly settled. */
  function RewardedIn(log: seq<Entry>, player: int64): seq<Request> {
    if log == [] then []
    else
      var last := log[|log| - 1];
      var earlier := RewardedIn(log[..|log| - 1], player);
      if last.player == player && last.answer.Ok? && !last.answer.value.duplicate then earlier + [last.req] else earlier
  }

  function MaxLevel(start: int, runs: seq<Request>): int {
    if runs == [] then start else Max(MaxLevel(start, runs[..|runs| - 1]), runs[|runs| - 1].playerLevel)
  }

  /** The level column: raised to the highest level of the runs where that is above the stored one as an int32. */
  function RaisedLevel(start: int64, runs: seq<Request>): int {
    if MaxLevel(Wrap32(start), runs) > Wrap32(start) then MaxLevel(Wrap32(start), runs) else start
  }

  /**
   A stats row with a sequence of runs added: sums and maxima over the runs, everything else as it was. Gold and exp are
   sums modulo 2^64, because nothing keeps them from wrapping.
   */
  predicate IsStatsSum(row: Stats, start: Stats, runs: seq<Request>, policy: Policy) {
    && row.gold == Wrap64(start.gold + TotalKills(runs) * policy.goldPerKill)
    && row.exp == Wrap64(start.exp + TotalKills(runs) * policy.expPerKill)
    && row.totalKills == start.totalKills + TotalKills(runs)
    && row.totalGames == start.totalGames + |runs|
    && row.bestScore == BestScore(start.bestScore, runs)
    && row.level == RaisedLevel(start.level, runs)
    && row.maxHp == start.maxHp && row.maxStamina == start.maxStamina && row.attackPower == start.attackPower
  }

  /** The row holds this run's score, and its kills, survival time, dungeon level and style as metadata. */
  predicate IsScoreOf(row: ScoreRow, run: Request) {
    && row.score == run.score
    && run.survivalTime == Finite(row.metadata.survivalTime)
    && row.metadata.kills == run.kills
    && row.metadata.dungeonLevel == run.dungeonLevel
    && row.metadata.styleId == run.styleId
  }

  /** One score row per run, in order. */
  predicate AreScoresOf(rows: seq<ScoreRow>, runs: seq<Request>) {
    |rows| == |runs| && forall i :: 0 <= i < |runs| ==> IsScoreOf(rows[i], runs[i])
  }

  /** The row the player's sums start from: the stored one, or the one its first run creates. */
  function StartRow(db: Db, player: int64, first: Request): Stats {
    if player in db.stats then db.stats[player] else NewStats(first)
  }

  function StartArchive(m: Marshaller, db: Db, player: int64): Archive {
    if player in db.archives && m.getArchive(db.archives[player]).Some? then m.getArchive(db.archives[player]).value
    else FRESH_ARCHIVE
  }

  /** The player's stats row is the initial one with these runs added. */
  predicate StatsTold(setup: Setup, db: Db, runs: seq<Request>, player: int64) {
    if runs == [] then Lookup(db.stats, player) == Lookup(setup.initial.stats, player)
    else
      && player in db.stats
      && IsStatsSum(db.stats[player], StartRow(setup.initial, player, runs[0]), runs, setup.policy)
  }

  /** The player's archive is the initial one with these runs added. */
  predicate ArchiveTold(setup: Setup, db: Db, runs: seq<Request>, player: int64) {
    if runs == [] then Lookup(db.archives, player) == Lookup(setup.initial.archives, player)
    else
      && player in db.archives && setup.marshaller.getArchive(db.archives[player]).Some?
      && IsSumOf(setup.marshaller.getArchive(db.archives[player]).value,
                 StartArchive(setup.marshaller, setup.initial, player), runs, setup.policy)
  }

  ghost predicate SumsTold(setup: Setup, db: Db, runs: seq<Request>, player: int64) {
    StatsTold(setup, db, runs, player) && ArchiveTold(setup, db, runs, player)
  }

  /** The player's score rows are the initial ones followed by one for each of these runs. */
  ghost predicate ScoresTold(setup: Setup, db: Db, runs: seq<Request>, player: int64) {
    var before, now := ScoresOf(setup.initial, player), ScoresOf(db, player);
    && |before| <= |now|
    && now[..|before|] == before
    && AreScoresOf(now[|before|..], runs)
  }

  /** These runs are distinct, and the player's settlement rows are the initial ones and one for each of them. */
  ghost predicate SettlementsTold(setup: Setup, db: Db, runs: seq<Request>, player: int64) {
    && (forall i, j :: 0 <= i < j < |runs| ==> runs[i].runId != runs[j].runId)
    && (forall i :: 0 <= i < |runs| ==> Key(player, runs[i].runId) !in setup.initial.settlements)
    && forall runId :: Key(player, runId) in db.settlements <==>
         Key(player, runId) in setup.initial.settlements || exists i :: 0 <= i < |runs| && runs[i].runId == runId
  }

  /** The player's rows, told from the log alone. */
  ghost predicate RowsTold(setup: Setup, log: seq<Entry>, player: int64) {
    && SumsTold(setup, SerialDb(setup, log), RewardedIn(log, player), player)
    && ScoresTold(setup, SerialDb(setup, log), RewardedIn(log, player), player)
    && SettlementsTold(setup, SerialDb(setup, log), RewardedIn(log, player), player)
  }

  ghost predicate NaturalKills(log: seq<Entry>) {
    forall entry :: entry in log ==> entry.req.kills >= 0
  }

  /** What a rewarding settlement starts from and what it leaves, for the player it rewards. */
  lemma RewardWrites(m: Marshaller, policy: Policy, db: Db, player: int64, req: Request)
    requires Lawful(m)
    requires var answer := SettleDb(db, m, policy, player, req).1; answer.Ok? && !answer.value.duplicate
    ensures var (after, answer) := SettleDb(db, m, policy, player, req);
            var archive := StartArchive(m, db, player);
            && (player in db.archives ==> m.getArchive(db.archives[player]) == Some(archive))
            && Settled(archive, req, policy) == Ok(answer.value)
            && player in after.archives && m.getArchive(after.archives[player]) == answer.value.archive
            && StatsAfter(Lookup(db.stats, player), req, answer.value.rewardGold, answer.value.rewardExp)
               == Ok(after.stats[player])
            && ScoreOf(req).Some? && ScoresOf(after, player) == ScoresOf(db, player) + [ScoreOf(req).value]
  {
  }

  /** A settlement that rewarded nobody, or somebody else, leaves the player's rows alone. */
  lemma OthersWriteNothing(m: Marshaller, policy: Policy, db: Db, caller: int64, req: Request, player: int64)
    requires var answer := SettleDb(db, m, policy, caller, req).1;
             caller != player || answer.Err? || answer.value.duplicate
    ensures var after := SettleDb(db, m, policy, caller, req).0;
            && Lookup(after.stats, player) == Lookup(db.stats, player)
            && Lookup(after.archives, player) == Lookup(db.archives, player)
            && ScoresOf(after, player) == ScoresOf(db, player)
  {
    if caller != player {
      SettleDbFrame(db, m, policy, caller, req, player);
    }
  }

  lemma {:induction false} LevelFits(start: int, runs: seq<Request>)
    requires MIN_INT32 <= start <= MAX_INT32
    ensures start <= MaxLevel(start, runs) <= MAX_INT32
  {
    if runs != [] {
      LevelFits(start, runs[..|runs| - 1]);
    }
  }

  /** One more run raises the level column as updateSettlementStats does. */
  lemma LevelTakesRun(start: int64, runs: seq<Request>, run: Request)
    ensures MIN_INT64 <= RaisedLevel(start, runs) <= MAX_INT64
    ensures RaisedLevel(start, runs + [run])
            == if run.playerLevel > Wrap32(RaisedLevel(start, runs)) then run.playerLevel else RaisedLevel(start, runs)
  {
    assert (runs + [run])[..|runs|] == runs;
    LevelFits(Wrap32(start), runs);
  }

  /** A column that holds a sum of rewards modulo 2^64 takes in one more. */
  lemma WrappedSumTakesRun(start: int, runs: seq<Request>, run: Request, rate: int)
    ensures Wrap64(Wrap64(start + TotalKills(runs) * rate) + run.kills * rate)
            == Wrap64(start + TotalKills(runs + [run]) * rate)
  {
    assert (runs + [run])[..|runs|] == runs;
    Wrap64AddsMultiple(start, TotalKills(runs), run.kills, rate);
  }

  /** A stats row takes in exactly one run, gold and exp modulo 2^64. */
  lemma StatsTakeRun(row: Stats, start: Stats, runs: seq<Request>, run: Request, policy: Policy, gold: int32, exp: int32)
    requires IsStatsSum(row, start, runs, policy) && run.kills >= 0
    requires gold == run.kills * policy.goldPerKill && exp == run.kills * policy.expPerKill
    requires StatsAfter(Some(row), run, gold, exp).Ok?
    ensures IsStatsSum(StatsAfter(Some(row), run, gold, exp).value, start, runs + [run], policy)
  {
    assert (runs + [run])[..|runs|] == runs;
    WrappedSumTakesRun(start.gold, runs, run, policy.goldPerKill);
    WrappedSumTakesRun(start.exp, runs, run, policy.expPerKill);
    assert row.totalKills >= 0;
    LevelTakesRun(start.level, runs, run);
  }

  lemma {:induction false} RewardedKillsNatural(log: seq<Entry>, player: int64)
    requires NaturalKills(log)
    ensures TotalKills(RewardedIn(log, player)) >= 0
  {
    if log != [] {
      var n := |log| - 1;
      RewardedKillsNatural(log[..n], player);
      assert log[n] in log;
      var earlier := RewardedIn(log[..n], player);
      assert (earlier + [log[n].req])[..|earlier|] == earlier;
    }
  }

  /** The row the next rewarded run is added to. */
  lemma StatsExtend(setup: Setup, db: Db, after: Db, runs: seq<Request>, player: int64, req: Request, response: Response)
    requires req.kills >= 0 && StatsTold(setup, db, runs, player) && player in after.stats
    requires response.rewardGold == req.kills * setup.policy.goldPerKill
    requires response.rewardExp == req.kills * setup.policy.expPerKill
    requires StatsAfter(Lookup(db.stats, player), req, response.rewardGold, response.rewardExp) == Ok(after.stats[player])
    ensures StatsTold(setup, after, runs + [req], player)
  {
    var first := if runs == [] then req else runs[0];
    var row := if player in db.stats then db.stats[player] else NewStats(req);
    StatsTakeRun(row, StartRow(setup.initial, player, first), runs, req, setup.policy,
                 response.rewardGold, response.rewardExp);
    assert (runs + [req])[0] == first;
  }

  lemma ArchiveExtends(setup: Setup, db: Db, after: Db, runs: seq<Request>, player: int64, req: Request)
    requires ModestPolicy(setup.policy) && req.kills >= 0 && ArchiveTold(setup, db, runs, player)
    requires var archive := StartArchive(setup.marshaller, db, player);
             && ArchiveFits(archive, req, setup.policy) && TotalsFit(archive, req)
             && player in after.archives
             && setup.marshaller.getArchive(after.archives[player]) == Some(Merged(archive, req, setup.policy))
    ensures ArchiveTold(setup, after, runs + [req], player)
  {
    SumExtends(StartArchive(setup.marshaller, db, player), StartArchive(setup.marshaller, setup.initial, player),
               runs, req, setup.policy);
  }

  lemma RewardAddsToSums(setup: Setup, db: Db, runs: seq<Request>, player: int64, req: Request)
    requires Lawful(setup.marshaller) && ModestPolicy(setup.policy) && req.kills >= 0
    requires SumsTold(setup, db, runs, player)
    requires var answer := SettleDb(db, setup.marshaller, setup.policy, player, req).1;
             answer.Ok? && !answer.value.duplicate
    ensures SumsTold(setup, SettleDb(db, setup.marshaller, setup.policy, player, req).0, runs + [req], player)
  {
    RewardWrites(setup.marshaller, setup.policy, db, player, req);
    var (after, answer) := SettleDb(db, setup.marshaller, setup.policy, player, req);
    AcceptedReward(StartArchive(setup.marshaller, db, player), req, setup.policy);
    StatsExtend(setup, db, after, runs, player, req, answer.value);
    ArchiveExtends(setup, db, after, runs, player, req);
  }

  lemma RewardAddsScore(setup: Setup, db: Db, runs: seq<Request>, player: int64, req: Request)
    requires Lawful(setup.marshaller) && ScoresTold(setup, db, runs, player)
    requires var answer := SettleDb(db, setup.marshaller, setup.policy, player, req).1;
             answer.Ok? && !answer.value.duplicate
    ensures ScoresTold(setup, SettleDb(db, setup.marshaller, setup.policy, player, req).0, runs + [req], player)
  {
    RewardWrites(setup.marshaller, setup.policy, db, player, req);
    var before, now := ScoresOf(setup.initial, player), ScoresOf(db, player);
    assert (now + [ScoreOf(req).value])[|before|..] == now[|before|..] + [ScoreOf(req).value];
  }

  /** A rewarded run gets a row under a run id that had none. */
  lemma RewardAddsRow(setup: Setup, db: Db, after: Db, runs: seq<Request>, player: int64, req: Request)
    requires SettlementsTold(setup, db, runs, player) && KeyOf(player, req) !in db.settlements
    requires after.settlements.Keys == db.settlements.Keys + {KeyOf(player, req)}
    ensures SettlementsTold(setup, after, runs + [req], player)
  {
    var longer := runs + [req];
    forall runId
      ensures Key(player, runId) in after.settlements <==>
                Key(player, runId) in setup.initial.settlements || exists i :: 0 <= i < |longer| && longer[i].runId == runId
    {
      assert longer[|runs|] == req;
      assert forall i :: 0 <= i < |runs| ==> longer[i] == runs[i];
      assert Key(player, runId) in after.settlements <==> Key(player, runId) in db.settlements || runId == req.runId;
    }
  }

  lemma OthersAddNoRow(setup: Setup, db: Db, after: Db, runs: seq<Request>, player: int64)
    requires SettlementsTold(setup, db, runs, player)
    requires forall runId :: Key(player, runId) in after.settlements <==> Key(player, runId) in db.settlements
    ensures SettlementsTold(setup, after, runs, player)
  {
  }

  lemma EntryKeepsRows(setup: Setup, log: seq<Entry>, entry: Entry, player: int64)
    requires Lawful(setup.marshaller) && ModestPolicy(setup.policy) && entry.req.kills >= 0
    requires RowsTold(setup, log, player)
    requires entry.answer == SettleEntry(setup, SerialDb(setup, log), entry).1
    ensures RowsTold(setup, log + [entry], player)
  {
    assert (log + [entry])[..|log|] == log;
    var db := SerialDb(setup, log);
    var after := SettleEntry(setup, db, entry).0;
    var runs := RewardedIn(log, player);
    RewardingIffNewRow(setup, db, entry);
    if entry.player == player && Rewarding(entry) {
      RewardAddsToSums(setup, db, runs, player, entry.req);
      RewardAddsScore(setup, db, runs, player, entry.req);
      RewardAddsRow(setup, db, after, runs, player, entry.req);
    } else {
      OthersWriteNothing(setup.marshaller, setup.policy, db, entry.player, entry.req, player);
      OthersAddNoRow(setup, db, after, runs, player);
    }
  }

  lemma {:induction false} RowsAreFoldOfLog(setup: Setup, log: seq<Entry>, player: int64)
    requires Lawful(setup.marshaller) && ModestPolicy(setup.policy) && NaturalKills(log) && SerialAnswers(setup, log)
    ensures RowsTold(setup, log, player)
  {
    if log != [] {
      var n := |log| - 1;
      assert log[..n] + [log[n]] == log;
      assert log[n] in log;
      RowsAreFoldOfLog(setup, log[..n], player);
      EntryKeepsRows(setup, log[..n], log[n], player);
    }
  }

  /** The runs of a player rewarded in a log are those of its rewarding entries. */
  lemma {:induction false} RewardedAreLogged(log: seq<Entry>, player: int64)
    ensures forall entry :: entry in log && entry.player == player && Rewarding(entry) ==>
              entry.req in RewardedIn(log, player)
    ensures forall run :: run in RewardedIn(log, player) ==>
              exists entry :: entry in log && entry.player == player && Rewarding(entry) && entry.req == run
  {
    if log != [] {
      var n := |log| - 1;
      assert log == log[..n] + [log[n]];
      RewardedAreLogged(log[..n], player);
      forall run | run in RewardedIn(log, player)
        ensures exists entry :: entry in log && entry.player == player && Rewarding(entry) && entry.req == run
      {
        if run in RewardedIn(log[..n], player) {
          var entry :| entry in log[..n] && entry.player == player && Rewarding(entry) && entry.req == run;
          assert entry in log;
        } else {
          assert log[n] in log;
        }
      }
    }
  }

  /** The call with this id settled this run for this player and has ended. */
  predicate Settling(s: System, id: TxId, player: int64, run: Request) {
    id in s.txs && s.txs[id].player == player && s.txs[id].req == run && s.txs[id].pc.Done?
  }

  /**
   No reward is lost or doubled by interleaving: after any sequence of actions of any number of locked transactions, a
   player's archive, stats row, score rows and settlement rows are the initial ones plus each rewarded run, in commit
   order. The rewarded runs are distinct, each was asked for by a call that has finished, and every run a caller was told
   is newly settled is among them.
   */
  lemma NoRewardLost(setup: Setup, actions: seq<Action>, player: int64)
    requires setup.locking && Lawful(setup.marshaller) && ModestPolicy(setup.policy)
    requires NaturalKills(Run(setup, actions).log)
    ensures var s := Run(setup, actions);
            var runs := RewardedIn(s.log, player);
            && s.db == SerialDb(setup, s.log)
            && RowsTold(setup, s.log, player)
            && (forall run :: run in runs ==> Begin(player, run) in actions && exists id :: Settling(s, id, player, run))
            && (forall id :: ToldFirst(s, id) && s.txs[id].player == player ==> s.txs[id].req in runs)
  {
    var s := Run(setup, actions);
    Serialisable(setup, actions);
    RowsAreFoldOfLog(setup, s.log, player);
    RewardedAreLogged(s.log, player);
    CallsAsMade(setup, actions);
    forall run | run in RewardedIn(s.log, player)
      ensures Begin(player, run) in actions && exists id :: Settling(s, id, player, run)
    {
      var entry :| entry in s.log && entry.player == player && Rewarding(entry) && entry.req == run;
      assert Settling(s, entry.id, player, run);
    }
    forall id | ToldFirst(s, id) && s.txs[id].player == player ensures s.txs[id].req in RewardedIn(s.log, player) {
      assert Logged(s, id);
    }
  }

  /** Two int32 values are less than 2^32 apart. */
  lemma SumLeavesRoom(now: int32, first: int32, total: nat, rate: nat)
    requires now == first + total * rate
    ensures 0 <= total * rate <= 0xffff_ffff
  {
  }

  /** The archive's int32 counters bound what the stats row can have taken in. */
  lemma SumsLeaveRoom(archive: Archive, first: Archive, runs: seq<Request>, policy: Policy)
    requires IsSumOf(archive, first, runs, policy) && ModestPolicy(policy) && TotalKills(runs) >= 0
    ensures 0 <= TotalKills(runs) * policy.goldPerKill <= 0xffff_ffff
    ensures 0 <= TotalKills(runs) * policy.expPerKill <= 0xffff_ffff
  {
    SumLeavesRoom(archive.gold, first.gold, TotalKills(runs), policy.goldPerKill);
    SumLeavesRoom(archive.exp, first.exp, TotalKills(runs), policy.expPerKill);
  }

  /**
   The stats row got the rewards exactly, and not modulo 2^64, if and only if they fit on top of the row they started
   from. They do whenever that row is at least 2^32 - 1 below the largest int64, and its level is then the plain maximum
   where it fits int32, as every level a client can write does.
   */
  lemma StatsExactIff(setup: Setup, actions: seq<Action>, player: int64)
    requires setup.locking && Lawful(setup.marshaller) && ModestPolicy(setup.policy)
    requires NaturalKills(Run(setup, actions).log) && RewardedIn(Run(setup, actions).log, player) != []
    ensures var s := Run(setup, actions);
            var runs := RewardedIn(s.log, player);
            var start := StartRow(setup.initial, player, runs[0]);
            var gold, exp := TotalKills(runs) * setup.policy.goldPerKill, TotalKills(runs) * setup.policy.expPerKill;
            && player in s.db.stats
            && (s.db.stats[player].gold == start.gold + gold <==> start.gold + gold <= MAX_INT64)
            && (s.db.stats[player].exp == start.exp + exp <==> start.exp + exp <= MAX_INT64)
            && (start.gold <= MAX_INT64 - 0xffff_ffff ==> s.db.stats[player].gold == start.gold + gold)
            && (start.exp <= MAX_INT64 - 0xffff_ffff ==> s.db.stats[player].exp == start.exp + exp)
            && (MIN_INT32 <= start.level <= MAX_INT32 ==> s.db.stats[player].level == MaxLevel(start.level, runs))
  {
    NoRewardLost(setup, actions, player);
    var s := Run(setup, actions);
    var runs := RewardedIn(s.log, player);
    RewardedKillsNatural(s.log, player);
    SumsLeaveRoom(setup.marshaller.getArchive(s.db.archives[player]).value,
                  StartArchive(setup.marshaller, setup.initial, player), runs, setup.policy);
    var start := StartRow(setup.initial, player, runs[0]);
    if MIN_INT32 <= start.level <= MAX_INT32 {
      LevelFits(start.level, runs);
    }
  }

  /** A stats row that holds these runs on top of a new player's health, stamina and attack power. */
  predicate CountsOnly(row: Stats, runs: seq<Request>, policy: Policy)
    requires runs != []
  {
    && row.level == MaxLevel(runs[0].playerLevel, runs)
    && row.gold == TotalKills(runs) * policy.goldPerKill && row.exp == TotalKills(runs) * policy.expPerKill
    && row.totalKills == TotalKills(runs) && row.totalGames == |runs| && row.bestScore == BestScore(0, runs)
    && row.maxHp == 100 && row.maxStamina == 100 && row.attackPower == 10
  }

  lemma NewRowCountsOnly(row: Stats, runs: seq<Request>, policy: Policy)
    requires runs != [] && IsStatsSum(row, NewStats(runs[0]), runs, policy)
    requires 0 <= TotalKills(runs) * policy.goldPerKill <= MAX_INT32 && 0 <= TotalKills(runs) * policy.expPerKill <= MAX_INT32
    ensures CountsOnly(row, runs, policy)
  {
    LevelFits(runs[0].playerLevel, runs);
  }

  /**
   A player without stats row and archive, after its rewarded runs: both hold these runs and nothing else. Gold and exp of
   the stats row fit, because the archive's int32 counters took in the same rewards.
   */
  lemma NewPlayerRows(setup: Setup, actions: seq<Action>, player: int64)
    requires setup.locking && Lawful(setup.marshaller) && ModestPolicy(setup.policy)
    requires NaturalKills(Run(setup, actions).log) && RewardedIn(Run(setup, actions).log, player) != []
    requires player !in setup.initial.stats && player !in setup.initial.archives
    ensures var db := Run(setup, actions).db;
            var runs := RewardedIn(Run(setup, actions).log, player);
            && player in db.stats && CountsOnly(db.stats[player], runs, setup.policy)
            && player in db.archives && setup.marshaller.getArchive(db.archives[player]).Some?
            && HoldsOnly(setup.marshaller.getArchive(db.archives[player]).value, runs, setup.policy)
  {
    NoRewardLost(setup, actions, player);
    var s := Run(setup, actions);
    RewardedKillsNatural(s.log, player);
    NewRowsHoldOnly(setup, s.db, RewardedIn(s.log, player), player);
  }

  lemma NewRowsHoldOnly(setup: Setup, db: Db, runs: seq<Request>, player: int64)
    requires ModestPolicy(setup.policy) && runs != [] && TotalKills(runs) >= 0 && SumsTold(setup, db, runs, player)
    requires player !in setup.initial.stats && player !in setup.initial.archives
    ensures player in db.stats && CountsOnly(db.stats[player], runs, setup.policy)
    ensures player in db.archives && setup.marshaller.getArchive(db.archives[player]).Some?
    ensures HoldsOnly(setup.marshaller.getArchive(db.archives[player]).value, runs, setup.policy)
  {
    var archive := setup.marshaller.getArchive(db.archives[player]).value;
    FreshHoldsOnly(archive, runs, setup.policy);
    SumsLeaveRoom(archive, FRESH_ARCHIVE, runs, setup.policy);
    NewRowCountsOnly(db.stats[player], runs, setup.policy);
  }
}
