/**
 Every history of saves and settlements on the in-memory store: each (player, run) is rewarded once, the first response
 is replayed forever, and archives and levels are folds over the rewarded runs.
 */
module MemoryHistory {
  import opened Common
  import opened Settlement
  import opened Storage
  import opened MemoryStore

  datatype Call = Save(player: int64, data: Blob) | Settle(player: int64, req: Request)

  function ApplyCall(l: Ledger, m: Marshaller, policy: Policy, call: Call): Ledger {
    match call
    case Save(player, data) => l.(archives := l.archives[player := data])
    case Settle(player, req) => SettleLedger(l, m, policy, player, req).0
  }

  /** The ledger after a history that started with an empty store. */
  function After(m: Marshaller, policy: Policy, calls: seq<Call>): Ledger {
    if calls == [] then EMPTY_LEDGER
    else ApplyCall(After(m, policy, calls[..|calls| - 1]), m, policy, calls[|calls| - 1])
  }

  /** What the Settle call at position i of the history returned. */
  function Answer(m: Marshaller, policy: Policy, calls: seq<Call>, i: nat): Result<Response, Failure>
    requires i < |calls| && calls[i].Settle?
  {
    SettleLedger(After(m, policy, calls[..i]), m, policy, calls[i].player, calls[i].req).1
  }

  /** The call at position i rewarded its run: it succeeded and was no duplicate. */
  predicate Rewarded(m: Marshaller, policy: Policy, calls: seq<Call>, i: nat)
    requires i < |calls|
  {
    calls[i].Settle? && Answer(m, policy, calls, i).Ok? && !Answer(m, policy, calls, i).value.duplicate
  }

  // ---------------------------------------------------------------------------------------------------------------
  // Exactly once
  // ---------------------------------------------------------------------------------------------------------------

  /** A settlement either rewards a key that had no row yet, or leaves the whole ledger as it was. */
  lemma RewardedIffChanged(l: Ledger, m: Marshaller, policy: Policy, player: int64, req: Request)
    ensures var (after, answer) := SettleLedger(l, m, policy, player, req);
            && (answer.Ok? && !answer.value.duplicate <==> KeyOf(player, req) in after.settlements - l.settlements.Keys)
            && (!(answer.Ok? && !answer.value.duplicate) ==> after == l)
  {
  }

  lemma CallKeepsRow(l: Ledger, m: Marshaller, policy: Policy, call: Call, key: Key)
    requires key in l.settlements
    ensures key in ApplyCall(l, m, policy, call).settlements
    ensures ApplyCall(l, m, policy, call).settlements[key] == l.settlements[key]
  {
  }

  /** A row, once written, is never rewritten. */
  lemma {:induction false} RowsPersist(m: Marshaller, policy: Policy, calls: seq<Call>, i: nat, key: Key)
    requires i <= |calls| && key in After(m, policy, calls[..i]).settlements
    ensures key in After(m, policy, calls).settlements
    ensures After(m, policy, calls).settlements[key] == After(m, policy, calls[..i]).settlements[key]
  {
    if i == |calls| {
      assert calls[..i] == calls;
    } else {
      var n := |calls| - 1;
      assert calls[..n][..i] == calls[..i];
      RowsPersist(m, policy, calls[..n], i, key);
      CallKeepsRow(After(m, policy, calls[..n]), m, policy, calls[n], key);
    }
  }

  /** A rewarding call leaves its own response as the row. */
  lemma RewardedRow(m: Marshaller, policy: Policy, calls: seq<Call>, i: nat)
    requires Lawful(m) && i < |calls| && Rewarded(m, policy, calls, i)
    ensures var key := KeyOf(calls[i].player, calls[i].req);
            && key in After(m, policy, calls[..i + 1]).settlements
            && m.getResponse(After(m, policy, calls[..i + 1]).settlements[key]) == Some(Answer(m, policy, calls, i).value)
  {
    assert calls[..i + 1][..i] == calls[..i];
    assert calls[..i + 1][i] == calls[i];
  }

  /**
   Once a run was rewarded, every later request for it in every history is answered with the first response, only its
   duplicate mark and run id set, and none is rewarded again.
   */
  lemma RewardedOnceAndReplayed(m: Marshaller, policy: Policy, calls: seq<Call>, i: nat, j: nat)
    requires Lawful(m) && i < j < |calls| && Rewarded(m, policy, calls, i)
    requires calls[j].Settle? && KeyOf(calls[j].player, calls[j].req) == KeyOf(calls[i].player, calls[i].req)
    ensures Answer(m, policy, calls, j) == Ok(Answer(m, policy, calls, i).value.(duplicate := true))
    ensures !Rewarded(m, policy, calls, j)
    ensures After(m, policy, calls[..j + 1]) == After(m, policy, calls[..j])
  {
    RewardedRow(m, policy, calls, i);
    assert calls[..j][..i + 1] == calls[..i + 1];
    RowsPersist(m, policy, calls[..j], i + 1, KeyOf(calls[i].player, calls[i].req));
    assert calls[..j + 1][..j] == calls[..j];
  }

  // ---------------------------------------------------------------------------------------------------------------
  // Archives and levels as folds
  // ---------------------------------------------------------------------------------------------------------------

  /** The runs of one player that were rewarded after its last save, in order. */
  function RunsSinceSave(m: Marshaller, policy: Policy, calls: seq<Call>, player: int64): seq<Request> {
    if calls == [] then []
    else
      var n := |calls| - 1;
      var earlier := RunsSinceSave(m, policy, calls[..n], player);
      if calls[n].player != player then earlier
      else if calls[n].Save? then []
      else if Rewarded(m, policy, calls, n) then earlier + [calls[n].req]
      else earlier
  }

  /** The bytes of the player's last save. */
  function LastSave(calls: seq<Call>, player: int64): Option<Blob> {
    if calls == [] then None
    else
      var n := |calls| - 1;
      if calls[n].Save? && calls[n].player == player then Some(calls[n].data) else LastSave(calls[..n], player)
  }

  /** All runs of one player that were ever rewarded. */
  function RewardedRuns(m: Marshaller, policy: Policy, calls: seq<Call>, player: int64): seq<Request> {
    if calls == [] then []
    else
      var n := |calls| - 1;
      var earlier := RewardedRuns(m, policy, calls[..n], player);
      if calls[n].player == player && Rewarded(m, policy, calls, n) then earlier + [calls[n].req] else earlier
  }

  function TotalKills(runs: seq<Request>): int {
    if runs == [] then 0 else TotalKills(runs[..|runs| - 1]) + runs[|runs| - 1].kills
  }

  function BestScore(start: int, runs: seq<Request>): int {
    if runs == [] then start else Max(BestScore(start, runs[..|runs| - 1]), runs[|runs| - 1].score)
  }

  function HighestCleared(start: int, runs: seq<Request>): int {
    if runs == [] then start
    else
      var earlier := HighestCleared(start, runs[..|runs| - 1]);
      var run := runs[|runs| - 1];
      if run.outcome == Victory then Max(earlier, run.dungeonLevel) else earlier
  }

  function HighestLevel(runs: seq<Request>): int {
    if runs == [] then 1 else Max(HighestLevel(runs[..|runs| - 1]), runs[|runs| - 1].playerLevel)
  }

  /** An archive with a sequence of runs added: sums and maxima over the runs, everything else as it was. */
  predicate IsSumOf(a: Archive, start: Archive, runs: seq<Request>, policy: Policy) {
    && a.gold == start.gold + TotalKills(runs) * policy.goldPerKill
    && a.exp == start.exp + TotalKills(runs) * policy.expPerKill
    && a.totalKills == start.totalKills + TotalKills(runs)
    && a.totalGames == start.totalGames + |runs|
    && a.bestScore == BestScore(start.bestScore, runs)
    && a.highestClearedDungeon == HighestCleared(start.highestClearedDungeon, runs)
    && a.lastStyleId == (if runs == [] then start.lastStyleId else runs[|runs| - 1].styleId)
    && a.schemaVersion == start.schemaVersion
    && a.talentPoints == start.talentPoints
    && a.unlockedStyles == start.unlockedStyles
  }

  /** Rates that fit int32, as every configured policy has. */
  predicate ModestPolicy(policy: Policy) {
    0 <= policy.goldPerKill <= MAX_INT32 && 0 <= policy.expPerKill <= MAX_INT32
  }

  /** Under a modest policy an accepted run is added without any wrap-around. */
  lemma AcceptedAddsExactly(a: Archive, req: Request, policy: Policy)
    requires ModestPolicy(policy) && req.kills >= 0
    requires Settled(a, req, policy).Ok?
    ensures ArchiveFits(a, req, policy) && TotalsFit(a, req)
    ensures Settled(a, req, policy).value.archive == Some(Merged(a, req, policy))
  {
    ProductFits(req.kills, policy.goldPerKill);
    ProductFits(req.kills, policy.expPerKill);
    assert a.totalKills >= 0;
    SettledIsExact(a, req, policy);
  }

  /** What an accepted run reports and what it makes of the archive, without any wrap-around. */
  lemma AcceptedReward(archive: Archive, req: Request, policy: Policy)
    requires ModestPolicy(policy) && req.kills >= 0 && Settled(archive, req, policy).Ok?
    ensures var response := Settled(archive, req, policy).value;
            && response.rewardGold == req.kills * policy.goldPerKill
            && response.rewardExp == req.kills * policy.expPerKill
    ensures ArchiveFits(archive, req, policy) && TotalsFit(archive, req)
    ensures Settled(archive, req, policy).value.archive == Some(Merged(archive, req, policy))
  {
    AcceptedAddsExactly(archive, req, policy);
    SettledIsExact(archive, req, policy);
    RewardsAreNatural(req, policy);
  }

  lemma SumExtends(a: Archive, start: Archive, runs: seq<Request>, run: Request, policy: Policy)
    requires IsSumOf(a, start, runs, policy)
    requires AcceptedPolicy(policy) && run.kills >= 0 && ArchiveFits(a, run, policy) && TotalsFit(a, run)
    ensures IsSumOf(Merged(a, run, policy), start, runs + [run], policy)
  {
    assert (runs + [run])[..|runs|] == runs;
    var before := TotalKills(runs);
    assert (before + run.kills) * policy.goldPerKill == before * policy.goldPerKill + run.kills * policy.goldPerKill;
    assert (before + run.kills) * policy.expPerKill == before * policy.expPerKill + run.kills * policy.expPerKill;
  }

  ghost predicate NoNegativeKills(calls: seq<Call>) {
    forall i :: 0 <= i < |calls| && calls[i].Settle? ==> calls[i].req.kills >= 0
  }

  /** What the ledger holds for one player, told from the history alone. */
  ghost predicate ArchiveTold(m: Marshaller, policy: Policy, calls: seq<Call>, player: int64) {
    var archives := After(m, policy, calls).archives;
    var runs := RunsSinceSave(m, policy, calls, player);
    var save := LastSave(calls, player);
    if runs == [] then Lookup(archives, player) == save
    else
      && player in archives
      && (save.Some? ==> m.getArchive(save.value).Some?)
      && var start := if save.Some? then m.getArchive(save.value).value else FRESH_ARCHIVE;
      && m.getArchive(archives[player]).Some?
      && IsSumOf(m.getArchive(archives[player]).value, start, runs, policy)
  }

  /** In every history, a player's archive is the last save with each rewarded run since then added, in order. */
  lemma {:induction false} ArchiveIsFoldOfHistory(m: Marshaller, policy: Policy, calls: seq<Call>, player: int64)
    requires Lawful(m) && ModestPolicy(policy) && NoNegativeKills(calls)
    ensures ArchiveTold(m, policy, calls, player)
  {
    if calls != [] {
      var n := |calls| - 1;
      var prefix := calls[..n];
      ArchiveIsFoldOfHistory(m, policy, prefix, player);
      var call := calls[n];
      if call.Settle? {
        RewardedIffChanged(After(m, policy, prefix), m, policy, call.player, call.req);
        if call.player == player && Rewarded(m, policy, calls, n) {
          RewardExtendsFold(m, policy, calls, player);
        }
      }
    }
  }

  lemma RewardExtendsFold(m: Marshaller, policy: Policy, calls: seq<Call>, player: int64)
    requires Lawful(m) && ModestPolicy(policy) && NoNegativeKills(calls)
    requires calls != [] && calls[|calls| - 1].player == player && Rewarded(m, policy, calls, |calls| - 1)
    requires ArchiveTold(m, policy, calls[..|calls| - 1], player)
    ensures ArchiveTold(m, policy, calls, player)
  {
    var n := |calls| - 1;
    var prefix := calls[..n];
    var before := After(m, policy, prefix).archives;
    var req := calls[n].req;
    var runs := RunsSinceSave(m, policy, prefix, player);
    var save := LastSave(prefix, player);
    assert SettleStored(m, policy, Lookup(before, player), req).Ok?;
    var a := if player in before then m.getArchive(before[player]).value else FRESH_ARCHIVE;
    var start := if save.Some? then m.getArchive(save.value).value else FRESH_ARCHIVE;
    assert IsSumOf(a, start, runs, policy);
    AcceptedAddsExactly(a, req, policy);
    SumExtends(a, start, runs, req, policy);
  }

  /** One call's effect on a reported level. */
  lemma LevelRises(l: Ledger, m: Marshaller, policy: Policy, caller: int64, req: Request, player: int64)
    requires StoredLevel(l.levels, player) >= 0
    ensures var (after, answer) := SettleLedger(l, m, policy, caller, req);
            && StoredLevel(after.levels, player) >= 0
            && DevelopmentLevel(after, player) ==
               if caller == player && answer.Ok? && !answer.value.duplicate
               then Max(DevelopmentLevel(l, player), req.playerLevel)
               else DevelopmentLevel(l, player)
  {
  }

  /** In every history, the reported level is the highest of 1 and all rewarded runs' levels, saves notwithstanding. */
  lemma {:induction false} LevelIsFoldOfHistory(m: Marshaller, policy: Policy, calls: seq<Call>, player: int64)
    ensures StoredLevel(After(m, policy, calls).levels, player) >= 0
    ensures DevelopmentLevel(After(m, policy, calls), player) == HighestLevel(RewardedRuns(m, policy, calls, player))
  {
    if calls != [] {
      var n := |calls| - 1;
      LevelIsFoldOfHistory(m, policy, calls[..n], player);
      var earlier := RewardedRuns(m, policy, calls[..n], player);
      if calls[n].Settle? {
        LevelRises(After(m, policy, calls[..n]), m, policy, calls[n].player, calls[n].req, player);
        assert (earlier + [calls[n].req])[..|earlier|] == earlier;
      }
    }
  }

  /** An archive that holds these runs and nothing else. */
  predicate HoldsOnly(a: Archive, runs: seq<Request>, policy: Policy) {
    && a.schemaVersion == 1 && a.talentPoints == 0 && a.unlockedStyles == []
    && a.gold == TotalKills(runs) * policy.goldPerKill && a.exp == TotalKills(runs) * policy.expPerKill
    && a.totalKills == TotalKills(runs) && a.totalGames == |runs|
    && a.bestScore == BestScore(0, runs) && a.highestClearedDungeon == HighestCleared(0, runs)
    && a.lastStyleId == if runs == [] then 0 else runs[|runs| - 1].styleId
  }

  lemma FreshHoldsOnly(a: Archive, runs: seq<Request>, policy: Policy)
    requires IsSumOf(a, FRESH_ARCHIVE, runs, policy)
    ensures HoldsOnly(a, runs, policy)
  {
  }

  /** The archive of a player that never saved one holds its rewarded runs and nothing else. */
  lemma NewPlayerArchive(m: Marshaller, policy: Policy, calls: seq<Call>, player: int64)
    requires Lawful(m) && ModestPolicy(policy) && NoNegativeKills(calls)
    requires LastSave(calls, player) == None && RunsSinceSave(m, policy, calls, player) != []
    ensures player in After(m, policy, calls).archives
    ensures var stored := m.getArchive(After(m, policy, calls).archives[player]);
            stored.Some? && HoldsOnly(stored.value, RunsSinceSave(m, policy, calls, player), policy)
  {
    ArchiveIsFoldOfHistory(m, policy, calls, player);
    FreshHoldsOnly(m.getArchive(After(m, policy, calls).archives[player]).value,
                   RunsSinceSave(m, policy, calls, player), policy);
  }
}
