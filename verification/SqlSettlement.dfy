/**
 One MySQL settlement on its own (internal/store/mysql_settlement.go): the tables, the statements of the transaction and
 their combined effect `SettleDb`, which is all or nothing.

 The guard on stats gold and exp (line 151) compares an int64 with the largest int64 and so never fires; the sums wrap.
 `StatsAddExactlyIff` says for which rows they are exact, `StatsRewardWraps` gives one for which they are not.
 */
module SqlSettlement {
  import opened Common
  import opened Settlement
  import opened Storage

  /** A player_stats row; Go's int is 64 bits wide. */
  datatype Stats = Stats(
    level: int64,
    exp: int64,
    gold: int64,
    maxHp: int64,
    maxStamina: int64,
    attackPower: int64,
    bestScore: int64,
    totalKills: int64,
    totalGames: int64)

  datatype Metadata = Metadata(kills: int32, survivalTime: real, dungeonLevel: int32, styleId: int32)

  datatype ScoreRow = ScoreRow(score: int64, metadata: Metadata)

  /** The committed tables. */
  datatype Db = Db(
    players: set<int64>,
    archives: map<int64, Blob>,
    stats: map<int64, Stats>,
    scores: map<int64, seq<ScoreRow>>,
    settlements: map<Key, Blob>)

  /** The rows one settlement writes. */
  datatype Writes = Writes(stats: Stats, score: ScoreRow, archive: Blob, response: Blob)

  function NewStats(req: Request): Stats {
    Stats(req.playerLevel, 0, 0, 100, 100, 10, 0, 0, 0)
  }

  /** updateSettlementStats: the row to save for the player, created from the request when there is none. */
  function StatsAfter(stored: Option<Stats>, req: Request, rewardGold: int32, rewardExp: int32): Result<Stats, Failure> {
    var row := if stored.Some? then stored.value else NewStats(req);
    if req.kills > Wrap64(MAX_INT64 - row.totalKills) || row.totalGames == MAX_INT64 then Err(StatsTotalsOverflow)
    else Ok(row.(
      gold := Wrap64(row.gold + rewardGold),
      exp := Wrap64(row.exp + rewardExp),
      totalKills := Wrap64(row.totalKills + req.kills),
      totalGames := Wrap64(row.totalGames + 1),
      bestScore := if req.score > row.bestScore then req.score else row.bestScore,
      level := if req.playerLevel > Wrap32(row.level) then req.playerLevel else row.level))
  }

  method UpdateSettlementStats(stored: Option<Stats>, req: Request, response: Response)
    returns (result: Result<Stats, Failure>)
    ensures result == StatsAfter(stored, req, response.rewardGold, response.rewardExp)
  {
    var stats := if stored.Some? then stored.value else NewStats(req);
    stats := stats.(gold := Wrap64(stats.gold + response.rewardGold));
    stats := stats.(exp := Wrap64(stats.exp + response.rewardExp));
    if req.kills > Wrap64(MAX_INT64 - stats.totalKills) || stats.totalGames == MAX_INT64 {
      return Err(StatsTotalsOverflow);
    }
    stats := stats.(totalKills := Wrap64(stats.totalKills + req.kills));
    stats := stats.(totalGames := Wrap64(stats.totalGames + 1));
    if req.score > stats.bestScore {
      stats := stats.(bestScore := req.score);
    }
    if req.playerLevel > Wrap32(stats.level) {
      stats := stats.(level := req.playerLevel);
    }
    return Ok(stats);
  }

  /** The reward of an accepted run reaches the stats row exactly if and only if the sum fits; otherwise it wraps. */
  lemma StatsAddExactlyIff(stored: Option<Stats>, req: Request, rewardGold: int32, rewardExp: int32)
    requires rewardGold >= 0 && rewardExp >= 0 && StatsAfter(stored, req, rewardGold, rewardExp).Ok?
    ensures var row := if stored.Some? then stored.value else NewStats(req);
            var saved := StatsAfter(stored, req, rewardGold, rewardExp).value;
            && (saved.gold == row.gold + rewardGold <==> row.gold + rewardGold <= MAX_INT64)
            && (saved.exp == row.exp + rewardExp <==> row.exp + rewardExp <= MAX_INT64)
            && (row.gold + rewardGold > MAX_INT64 ==> saved.gold == row.gold + rewardGold - 0x1_0000_0000_0000_0000 < 0)
            && (row.exp + rewardExp > MAX_INT64 ==> saved.exp == row.exp + rewardExp - 0x1_0000_0000_0000_0000 < 0)
  {
  }

  /** A row at the largest int64 is not refused: five more gold and ten more exp leave it negative. */
  lemma StatsRewardWraps(row: Stats, req: Request)
    requires row == Stats(1, MAX_INT64, MAX_INT64, 100, 100, 10, 0, 0, 0) && req.kills == 1
    ensures StatsAfter(Some(row), req, 5, 10).Ok?
    ensures StatsAfter(Some(row), req, 5, 10).value.gold == MIN_INT64 + 4
    ensures StatsAfter(Some(row), req, 5, 10).value.exp == MIN_INT64 + 9
  {
  }

  /** CombatScoreMetadataJSON: a survival time JSON cannot express is an error. */
  function ScoreOf(req: Request): Option<ScoreRow> {
    match req.survivalTime
    case Finite(seconds) => Some(ScoreRow(req.score, Metadata(req.kills, seconds, req.dungeonLevel, req.styleId)))
    case _ => None
  }

  function ScoresOf(db: Db, player: int64): seq<ScoreRow> {
    if player in db.scores then db.scores[player] else []
  }

  function Committed(db: Db, player: int64, req: Request, w: Writes): Db {
    db.(stats := db.stats[player := w.stats],
        scores := db.scores[player := ScoresOf(db, player) + [w.score]],
        archives := db.archives[player := w.archive],
        settlements := db.settlements[KeyOf(player, req) := w.response])
  }

  /** The rows to write once settleArchive has accepted the run. */
  function WritesFor(db: Db, m: Marshaller, player: int64, req: Request, response: Response): Result<Writes, Failure>
    requires response.archive.Some?
  {
    match StatsAfter(Lookup(db.stats, player), req, response.rewardGold, response.rewardExp)
    case Err(failure) => Err(failure)
    case Ok(stats) =>
      if ScoreOf(req).None? then Err(InvalidMetadata)
      else if m.putArchive(response.archive.value).None? || m.putResponse(response).None? then Err(EncodeFailed)
      else Ok(Writes(stats, ScoreOf(req).value, m.putArchive(response.archive.value).value,
                     m.putResponse(response).value))
  }

  /** One settlement run alone: the tables afterwards and the answer. */
  function SettleDb(db: Db, m: Marshaller, policy: Policy, player: int64, req: Request)
    : (Db, Result<Response, Failure>)
  {
    var key := KeyOf(player, req);
    if player !in db.players then (db, Err(PlayerNotFound))
    else if key in db.settlements then (db, ReplayStored(m, db.settlements[key], req))
    else match SettleStored(m, policy, Lookup(db.archives, player), req)
      case Err(failure) => (db, Err(failure))
      case Ok(response) =>
        match WritesFor(db, m, player, req, response)
        case Err(failure) => (db, Err(failure))
        case Ok(writes) => (Committed(db, player, req, writes), Ok(response))
  }

  /** The repository as the Go code runs it when no other transaction interferes. */
  class MySQLCombatSettlementRepository {
    const policy: Policy
    const marshaller: Marshaller
    var db: Db

    constructor (db: Db, policy: Policy, marshaller: Marshaller)
      requires AcceptedPolicy(policy)
      ensures this.db == db && this.policy == policy && this.marshaller == marshaller
    {
      this.db, this.policy, this.marshaller := db, policy, marshaller;
    }

    method ArchiveFromTransaction(tx: Db, player: int64) returns (archive: Option<PlayerArchive>)
      ensures var start := if player in tx.archives then marshaller.getArchive(tx.archives[player]) else Some(FRESH_ARCHIVE);
              && (archive.Some? <==> start.Some?)
              && (archive.Some? ==> fresh(archive.value) && archive.value.Value() == start.value)
    {
      var value := FRESH_ARCHIVE;
      if player in tx.archives {
        match marshaller.getArchive(tx.archives[player])
        case None => return None;
        case Some(decoded) => value := decoded;
      }
      var a := new PlayerArchive(value);
      return Some(a);
    }

    /** Statement by statement on a private copy of the tables; returning early leaves the committed ones alone. */
    method Settle(player: int64, req: Request) returns (result: Result<Response, Failure>)
      modifies this`db
      ensures (db, result) == SettleDb(old(db), marshaller, policy, player, req)
    {
      var tx := db;
      var key := KeyOf(player, req);
      if player !in tx.players {
        return Err(PlayerNotFound);
      }
      if key in tx.settlements {
        match marshaller.getResponse(tx.settlements[key])
        case None => return Err(MalformedResponse);
        case Some(stored) => return Ok(stored.(duplicate := true, runId := req.runId));
      }
      var archive := ArchiveFromTransaction(tx, player);
      if archive.None? {
        return Err(MalformedArchive);
      }
      var settled, changed := SettleArchive(archive.value, req, policy);
      if settled.Err? {
        return Err(Overflow(settled.error));
      }
      var response := settled.value;
      var stats := UpdateSettlementStats(Lookup(tx.stats, player), req, response);
      if stats.Err? {
        return Err(stats.error);
      }
      tx := tx.(stats := tx.stats[player := stats.value]);
      if ScoreOf(req).None? {
        return Err(InvalidMetadata);
      }
      tx := tx.(scores := tx.scores[player := ScoresOf(tx, player) + [ScoreOf(req).value]]);
      var archiveBytes := marshaller.putArchive(changed.Value());
      if archiveBytes.None? {
        return Err(EncodeFailed);
      }
      tx := tx.(archives := tx.archives[player := archiveBytes.value]);
      var responseBytes := marshaller.putResponse(response);
      if responseBytes.None? {
        return Err(EncodeFailed);
      }
      tx := tx.(settlements := tx.settlements[key := responseBytes.value]);
      db := tx;
      return Ok(response);
    }
  }

  /** A settlement touches no other player's rows and no other settlement. */
  lemma SettleDbFrame(db: Db, m: Marshaller, policy: Policy, player: int64, req: Request, other: int64)
    requires other != player
    ensures var after := SettleDb(db, m, policy, player, req).0;
            && Lookup(after.archives, other) == Lookup(db.archives, other)
            && Lookup(after.stats, other) == Lookup(db.stats, other)
            && ScoresOf(after, other) == ScoresOf(db, other)
            && after.players == db.players
            && forall key :: key != KeyOf(player, req) ==> Lookup(after.settlements, key) == Lookup(db.settlements, key)
  {
  }
}
