/**
 The in-memory store and the MySQL repository answer alike: a history of answered calls is possible for one exactly when
 it is possible for the other, and they keep the same archives and settlement rows.
 */
module Agreement {
  import opened Common
  import opened Settlement
  import opened Storage
  import opened MemoryStore
  import opened SqlSettlement
  import opened SqlMachine
  import opened SqlSerial

  /** The two repositories hold the same archives and the same stored responses. */
  ghost predicate Agree(l: Ledger, db: Db) {
    l.archives == db.archives && l.settlements == db.settlements
  }

  /** updateSettlementStats refuses a run that settleArchive accepted. */
  predicate StatsRefuse(db: Db, player: int64, req: Request) {
    var row := if player in db.stats then db.stats[player] else NewStats(req);
    req.kills > Wrap64(MAX_INT64 - row.totalKills) || row.totalGames == MAX_INT64
  }

  /** The call comes to a fresh run that the archive can take. */
  predicate Accepted(m: Marshaller, policy: Policy, db: Db, player: int64, req: Request) {
    KeyOf(player, req) !in db.settlements && SettleStored(m, policy, Lookup(db.archives, player), req).Ok?
  }

  /** One call on agreeing repositories: they answer alike exactly unless only the stats row refuses the run. */
  lemma AgreeOnCall(m: Marshaller, policy: Policy, l: Ledger, db: Db, player: int64, req: Request)
    requires Agree(l, db) && player in db.players && req.survivalTime.Finite?
    ensures SettleLedger(l, m, policy, player, req).1 == SettleDb(db, m, policy, player, req).1
            <==> !(Accepted(m, policy, db, player, req) && StatsRefuse(db, player, req))
    ensures SettleLedger(l, m, policy, player, req).1 == SettleDb(db, m, policy, player, req).1 ==>
              Agree(SettleLedger(l, m, policy, player, req).0, SettleDb(db, m, policy, player, req).0)
  {
  }

  /** They can disagree: at the largest game count only MySQL refuses a run without kills, as the player's first run. */
  lemma TotalsGuardDisagrees(m: Marshaller, policy: Policy, player: int64, req: Request)
    requires AcceptedPolicy(policy) && req.kills == 0 && req.survivalTime.Finite?
    ensures var row := Stats(1, 0, 0, 100, 100, 10, 0, 0, MAX_INT64);
            var db := Db({player}, map[], map[player := row], map[], map[]);
            && Agree(EMPTY_LEDGER, db) && Accepted(m, policy, db, player, req) && StatsRefuse(db, player, req)
            && SettleDb(db, m, policy, player, req) == (db, Err(StatsTotalsOverflow))
            && SettleLedger(EMPTY_LEDGER, m, policy, player, req).1 != Err(StatsTotalsOverflow)
            && (m.putArchive(Settled(FRESH_ARCHIVE, req, policy).value.archive.value).Some?
                && m.putResponse(Settled(FRESH_ARCHIVE, req, policy).value).Some? ==>
                  SettleLedger(EMPTY_LEDGER, m, policy, player, req).1.Ok?)
  {
  }

  // ---------------------------------------------------------------------------------------------------------------
  // Histories
  // ---------------------------------------------------------------------------------------------------------------

  function MemoryAfter(setup: Setup, start: Ledger, log: seq<Entry>): Ledger {
    if log == [] then start
    else
      var last := log[|log| - 1];
      SettleLedger(MemoryAfter(setup, start, log[..|log| - 1]), setup.marshaller, setup.policy, last.player, last.req).0
  }

  /** Every answer in the log is the one the in-memory store gives at that point. */
  predicate MemoryAnswers(setup: Setup, start: Ledger, log: seq<Entry>) {
    log == [] ||
    var earlier := log[..|log| - 1];
    var last := log[|log| - 1];
    && MemoryAnswers(setup, start, earlier)
    && last.answer ==
       SettleLedger(MemoryAfter(setup, start, earlier), setup.marshaller, setup.policy, last.player, last.req).1
  }

  /** Calls by existing players whose survival time JSON can express. */
  ghost predicate Expressible(setup: Setup, log: seq<Entry>) {
    forall entry :: entry in log ==> entry.player in setup.initial.players && entry.req.survivalTime.Finite?
  }

  /** The MySQL repository, asked at this point, refuses a run only for its totals. */
  predicate OnlyStatsRefuse(setup: Setup, db: Db, entry: Entry) {
    Accepted(setup.marshaller, setup.policy, db, entry.player, entry.req) && StatsRefuse(db, entry.player, entry.req)
  }

  /** No call of the log meets such a refusal where it comes in the serial run. */
  predicate NeverRefused(setup: Setup, log: seq<Entry>) {
    log == [] ||
    var earlier := log[..|log| - 1];
    NeverRefused(setup, earlier) && !OnlyStatsRefuse(setup, SerialDb(setup, earlier), log[|log| - 1])
  }

  lemma {:induction false} PlayersStay(setup: Setup, log: seq<Entry>)
    ensures SerialDb(setup, log).players == setup.initial.players
  {
    if log != [] {
      PlayersStay(setup, log[..|log| - 1]);
    }
  }

  /** One more call on repositories that agree so far. */
  lemma AgreeOnNext(setup: Setup, l: Ledger, db: Db, entry: Entry)
    requires Agree(l, db) && entry.player in db.players && entry.req.survivalTime.Finite?
    ensures var (ledger, told) := SettleLedger(l, setup.marshaller, setup.policy, entry.player, entry.req);
            && (told == SettleEntry(setup, db, entry).1 <==> !OnlyStatsRefuse(setup, db, entry))
            && (!OnlyStatsRefuse(setup, db, entry) ==> Agree(ledger, SettleEntry(setup, db, entry).0))
  {
    AgreeOnCall(setup.marshaller, setup.policy, l, db, entry.player, entry.req);
  }

  /**
   Observational equality, exactly: from agreeing repositories, a history of answered calls of the one is a history of
   the other if and only if no accepted run is refused for the stats totals at its point; then they still agree after it.
   */
  lemma {:induction false} SameHistoriesIff(setup: Setup, start: Ledger, log: seq<Entry>)
    requires Agree(start, setup.initial) && Expressible(setup, log)
    ensures SerialAnswers(setup, log) ==> (MemoryAnswers(setup, start, log) <==> NeverRefused(setup, log))
    ensures MemoryAnswers(setup, start, log) ==> (SerialAnswers(setup, log) <==> NeverRefused(setup, log))
    ensures NeverRefused(setup, log) ==> Agree(MemoryAfter(setup, start, log), SerialDb(setup, log))
  {
    if log != [] {
      var n := |log| - 1;
      assert log[n] in log;
      SameHistoriesIff(setup, start, log[..n]);
      PlayersStay(setup, log[..n]);
      if NeverRefused(setup, log[..n]) {
        AgreeOnNext(setup, MemoryAfter(setup, start, log[..n]), SerialDb(setup, log[..n]), log[n]);
      }
    }
  }

  /**
   Even under concurrency: after any interleaving of locked transactions every logged answer is the one the in-memory
   store gives to the logged calls if and only if none of them was refused for the stats totals alone, and then the
   tables hold the archives and rows of that store.
   */
  lemma InterleavingsMatchMemory(setup: Setup, actions: seq<Action>, start: Ledger)
    requires setup.locking && Agree(start, setup.initial) && Expressible(setup, Run(setup, actions).log)
    ensures var s := Run(setup, actions);
            && (MemoryAnswers(setup, start, s.log) <==> NeverRefused(setup, s.log))
            && (NeverRefused(setup, s.log) ==> Agree(MemoryAfter(setup, start, s.log), s.db))
  {
    Serialisable(setup, actions);
    SameHistoriesIff(setup, start, Run(setup, actions).log);
  }

  // ---------------------------------------------------------------------------------------------------------------
  // Room in the stats rows
  // ---------------------------------------------------------------------------------------------------------------

  function LoggedKills(log: seq<Entry>): int {
    if log == [] then 0 else LoggedKills(log[..|log| - 1]) + log[|log| - 1].req.kills
  }

  /** No stats row can reach the largest int64 through this many more kills and games. */
  ghost predicate StatsRoom(db: Db, kills: int, games: int) {
    && kills <= MAX_INT64 && games <= MAX_INT64
    && forall player :: player in db.stats ==>
         && 0 <= db.stats[player].totalKills <= MAX_INT64 - kills
         && db.stats[player].totalGames <= MAX_INT64 - games
  }

  /** Runs that passed the validator have no negative kills. */
  ghost predicate NaturalRuns(log: seq<Entry>) {
    forall entry :: entry in log ==> entry.req.kills >= 0
  }

  lemma SettleUsesRoom(m: Marshaller, policy: Policy, db: Db, player: int64, req: Request, kills: nat, games: nat)
    requires req.kills >= 0 && StatsRoom(db, kills + req.kills, games + 1)
    ensures StatsRoom(SettleDb(db, m, policy, player, req).0, kills, games)
    ensures !StatsRefuse(db, player, req)
  {
  }

  lemma {:induction false} KillsAreNatural(log: seq<Entry>)
    requires NaturalRuns(log)
    ensures LoggedKills(log) >= 0
  {
    if log != [] {
      KillsAreNatural(log[..|log| - 1]);
    }
  }

  /** With room for all kills and games of a history its totals never refuse a run, and room for the rest is left. */
  lemma {:induction false} RoomNeverRefuses(setup: Setup, log: seq<Entry>, kills: nat, games: nat)
    requires NaturalRuns(log) && StatsRoom(setup.initial, LoggedKills(log) + kills, |log| + games)
    ensures StatsRoom(SerialDb(setup, log), kills, games) && NeverRefused(setup, log)
  {
    if log != [] {
      var n := |log| - 1;
      KillsAreNatural(log[..n]);
      assert log[n] in log;
      RoomNeverRefuses(setup, log[..n], log[n].req.kills + kills, 1 + games);
      SettleUsesRoom(setup.marshaller, setup.policy, SerialDb(setup, log[..n]), log[n].player, log[n].req, kills, games);
    }
  }

  /** So with that much room the two repositories have the same histories and keep agreeing. */
  lemma SameHistories(setup: Setup, start: Ledger, log: seq<Entry>)
    requires Agree(start, setup.initial) && Expressible(setup, log) && NaturalRuns(log)
    requires StatsRoom(setup.initial, LoggedKills(log), |log|)
    ensures SerialAnswers(setup, log) <==> MemoryAnswers(setup, start, log)
    ensures Agree(MemoryAfter(setup, start, log), SerialDb(setup, log))
  {
    RoomNeverRefuses(setup, log, 0, 0);
    SameHistoriesIff(setup, start, log);
  }
}
