/**
 How long the default rewards fit an archive: from a fresh archive and without saves in between, 1,193,046 rewarded runs
 never overflow, and one more can.
 */
module OverflowBound {
  import opened Common
  import opened Settlement
  import opened Combat
  import opened Storage
  import opened MemoryStore
  import opened MemoryHistory
  import opened RankMember

  const DEFAULT_POLICY := RewardPolicy(DEFAULT_CONFIG)
  const SAFE_RUNS := 1_193_046

  ghost predicate PassesValidator(req: Request) {
    exists density :: Validated(req, density)
  }

  /** A history of validated settlements only. */
  ghost predicate SettlementsOnly(calls: seq<Call>) {
    forall i :: 0 <= i < |calls| ==> calls[i].Settle? && PassesValidator(calls[i].req)
  }

  lemma PassedKills(req: Request)
    requires PassesValidator(req)
    ensures 0 <= req.kills <= 180
  {
    var density :| Validated(req, density);
    ValidatedBounds(req, density);
  }

  lemma {:induction false} NothingSaved(m: Marshaller, calls: seq<Call>, player: int64)
    requires SettlementsOnly(calls)
    ensures LastSave(calls, player) == None && NoNegativeKills(calls)
    ensures RunsSinceSave(m, DEFAULT_POLICY, calls, player) == RewardedRuns(m, DEFAULT_POLICY, calls, player)
    ensures 0 <= TotalKills(RewardedRuns(m, DEFAULT_POLICY, calls, player))
              <= 180 * |RewardedRuns(m, DEFAULT_POLICY, calls, player)|
  {
    if calls != [] {
      var n := |calls| - 1;
      NothingSaved(m, calls[..n], player);
      PassedKills(calls[n].req);
      var earlier := RewardedRuns(m, DEFAULT_POLICY, calls[..n], player);
      assert (earlier + [calls[n].req])[..|earlier|] == earlier;
    }
  }

  /** The archive a player has after a history without saves. */
  lemma ArchiveWithoutSaves(m: Marshaller, calls: seq<Call>, player: int64) returns (archive: Archive)
    requires Lawful(m) && SettlementsOnly(calls)
    ensures var stored := Lookup(After(m, DEFAULT_POLICY, calls).archives, player);
            if stored.None? then archive == FRESH_ARCHIVE else m.getArchive(stored.value) == Some(archive)
    ensures IsSumOf(archive, FRESH_ARCHIVE, RewardedRuns(m, DEFAULT_POLICY, calls, player), DEFAULT_POLICY)
  {
    NothingSaved(m, calls, player);
    ArchiveIsFoldOfHistory(m, DEFAULT_POLICY, calls, player);
    var stored := Lookup(After(m, DEFAULT_POLICY, calls).archives, player);
    archive := if stored.None? then FRESH_ARCHIVE else m.getArchive(stored.value).value;
  }

  lemma SumLeavesRoom(archive: Archive, runs: seq<Request>, req: Request)
    requires IsSumOf(archive, FRESH_ARCHIVE, runs, DEFAULT_POLICY)
    requires 0 <= TotalKills(runs) <= 180 * |runs| && |runs| < SAFE_RUNS && 0 <= req.kills <= 180
    ensures Settled(archive, req, DEFAULT_POLICY).Ok?
  {
    assert archive.exp == 10 * TotalKills(runs) <= 1800 * (SAFE_RUNS - 1);
    assert archive.gold == 5 * TotalKills(runs);
    SettledIsExact(archive, req, DEFAULT_POLICY);
  }

  lemma DecodedRunFits(m: Marshaller, stored: Option<Blob>, archive: Archive, req: Request)
    requires if stored.None? then archive == FRESH_ARCHIVE else m.getArchive(stored.value) == Some(archive)
    requires Settled(archive, req, DEFAULT_POLICY).Ok?
    ensures SettleStored(m, DEFAULT_POLICY, stored, req).Ok?
  {
  }

  lemma HistoryLeavesRoom(m: Marshaller, calls: seq<Call>, player: int64, req: Request) returns (archive: Archive)
    requires Lawful(m) && SettlementsOnly(calls) && 0 <= req.kills <= 180
    requires |RewardedRuns(m, DEFAULT_POLICY, calls, player)| < SAFE_RUNS
    ensures var stored := Lookup(After(m, DEFAULT_POLICY, calls).archives, player);
            if stored.None? then archive == FRESH_ARCHIVE else m.getArchive(stored.value) == Some(archive)
    ensures Settled(archive, req, DEFAULT_POLICY).Ok?
  {
    archive := ArchiveWithoutSaves(m, calls, player);
    NothingSaved(m, calls, player);
    SumLeavesRoom(archive, RewardedRuns(m, DEFAULT_POLICY, calls, player), req);
  }

  lemma StoredRunFits(m: Marshaller, calls: seq<Call>, player: int64, req: Request)
    requires Lawful(m) && SettlementsOnly(calls) && 0 <= req.kills <= 180
    requires |RewardedRuns(m, DEFAULT_POLICY, calls, player)| < SAFE_RUNS
    ensures SettleStored(m, DEFAULT_POLICY, Lookup(After(m, DEFAULT_POLICY, calls).archives, player), req).Ok?
  {
    var archive := HistoryLeavesRoom(m, calls, player, req);
    DecodedRunFits(m, Lookup(After(m, DEFAULT_POLICY, calls).archives, player), archive, req);
  }

  lemma AcceptedIsRewarded(l: Ledger, m: Marshaller, policy: Policy, player: int64, req: Request)
    requires KeyOf(player, req) !in l.settlements && SettleStored(m, policy, Lookup(l.archives, player), req).Ok?
    ensures var answer := SettleLedger(l, m, policy, player, req).1;
            answer == Err(EncodeFailed) || (answer.Ok? && !answer.value.duplicate)
  {
  }

  /** After fewer than SAFE_RUNS rewarded runs no validated run can overflow or meet a malformed archive. */
  lemma NoOverflowBefore(m: Marshaller, calls: seq<Call>, player: int64, req: Request)
    requires Lawful(m) && SettlementsOnly(calls) && PassesValidator(req)
    requires |RewardedRuns(m, DEFAULT_POLICY, calls, player)| < SAFE_RUNS
    requires KeyOf(player, req) !in After(m, DEFAULT_POLICY, calls).settlements
    ensures var answer := SettleLedger(After(m, DEFAULT_POLICY, calls), m, DEFAULT_POLICY, player, req).1;
            answer == Err(EncodeFailed) || (answer.Ok? && !answer.value.duplicate)
  {
    PassedKills(req);
    StoredRunFits(m, calls, player, req);
    AcceptedIsRewarded(After(m, DEFAULT_POLICY, calls), m, DEFAULT_POLICY, player, req);
  }

  /** The bound is tight: after SAFE_RUNS runs of 180 kills the next such run is refused. */
  lemma OverflowAfter(m: Marshaller, calls: seq<Call>, player: int64, req: Request)
    requires Lawful(m) && SettlementsOnly(calls)
    requires |RewardedRuns(m, DEFAULT_POLICY, calls, player)| == SAFE_RUNS
    requires TotalKills(RewardedRuns(m, DEFAULT_POLICY, calls, player)) == 180 * SAFE_RUNS && req.kills == 180
    requires KeyOf(player, req) !in After(m, DEFAULT_POLICY, calls).settlements
    ensures SettleLedger(After(m, DEFAULT_POLICY, calls), m, DEFAULT_POLICY, player, req)
            == (After(m, DEFAULT_POLICY, calls), Err(Overflow(ArchiveOverflow)))
  {
    var archive := ArchiveWithoutSaves(m, calls, player);
    assert archive.exp == 1800 * SAFE_RUNS;
    SettledIsExact(archive, req, DEFAULT_POLICY);
  }

  // ---------------------------------------------------------------------------------------------------------------
  // Such histories exist
  // ---------------------------------------------------------------------------------------------------------------

  /** The n-th of a series of distinct validated runs of 180 kills. */
  function FullRun(n: int64): Request {
    Request(FormatInt(n), 15, 0, 180, Finite(0.0), 1, Victory, 1)
  }

  lemma {:induction false} ShortNames(n: nat, digits: nat)
    requires n < Power10(digits) && digits >= 1
    ensures |FormatNat(n)| <= digits && ByteLength(FormatNat(n)) == |FormatNat(n)|
  {
    if n < 10 {
      assert ByteLength([Digit(n)]) == 1 + ByteLength([Digit(n)][1..]);
    } else {
      ShortNames(n / 10, digits - 1);
      ByteLengthAppends(FormatNat(n / 10), [Digit(n % 10)]);
      assert ByteLength([Digit(n % 10)]) == 1 + ByteLength([Digit(n % 10)][1..]);
    }
  }

  function Power10(digits: nat): nat {
    if digits == 0 then 1 else 10 * Power10(digits - 1)
  }

  lemma {:induction false} ByteLengthAppends(s: string, t: string)
    ensures ByteLength(s + t) == ByteLength(s) + ByteLength(t)
  {
    if s == "" {
      assert s + t == t;
    } else {
      ByteLengthAppends(s[1..], t);
      assert (s + t)[1..] == s[1..] + t;
    }
  }

  lemma NumbersAreRunIds(n: nat)
    requires n < 10_000_000
    ensures ValidRunId(FormatNat(n))
  {
    assert Power10(7) == 10_000_000 by {
      assert Power10(3) == 1000;
      assert Power10(5) == 100_000;
    }
    ShortNames(n, 7);
    ParseFormatNat(n);
    TrimmedIff(FormatNat(n));
  }

  lemma FullRunPasses(n: int64)
    requires 0 <= n < 10_000_000
    ensures PassesValidator(FullRun(n))
  {
    NumbersAreRunIds(n);
    KillLimit(15, 3.0);
    assert ExactDensity(15) == 3.0;
    assert ValidateCombatResult(FullRun(n), DEFAULT_CONFIG, 3.0) == None;
    assert Validated(FullRun(n), 3.0);
  }

  /** The first n full runs, one after another. */
  function FullRuns(player: int64, n: nat): seq<Call>
    requires n <= SAFE_RUNS
  {
    if n == 0 then [] else FullRuns(player, n - 1) + [Settle(player, FullRun(n - 1))]
  }

  ghost predicate NeverFails(m: Marshaller) {
    (forall a :: m.putArchive(a).Some?) && forall r :: m.putResponse(r).Some?
  }

  /** One more full run on a history that has not seen it. */
  lemma FullRunIsRewarded(m: Marshaller, player: int64, calls: seq<Call>, req: Request)
    requires Lawful(m) && NeverFails(m) && SettlementsOnly(calls) && PassesValidator(req) && req.kills == 180
    requires |RewardedRuns(m, DEFAULT_POLICY, calls, player)| < SAFE_RUNS
    requires KeyOf(player, req) !in After(m, DEFAULT_POLICY, calls).settlements
    ensures var longer := calls + [Settle(player, req)];
            && RewardedRuns(m, DEFAULT_POLICY, longer, player) == RewardedRuns(m, DEFAULT_POLICY, calls, player) + [req]
            && After(m, DEFAULT_POLICY, longer).settlements.Keys
               == After(m, DEFAULT_POLICY, calls).settlements.Keys + {KeyOf(player, req)}
  {
    NoOverflowBefore(m, calls, player, req);
    var longer := calls + [Settle(player, req)];
    assert longer[..|calls|] == calls;
  }

  lemma FullRunKeysDiffer(player: int64, n: int64)
    ensures forall k: int64 :: k != n ==> KeyOf(player, FullRun(k)) != KeyOf(player, FullRun(n))
  {
    forall k: int64 | k != n ensures FullRun(k).runId != FullRun(n).runId {
      ParseFormatInt(k);
      ParseFormatInt(n);
    }
  }

  /** All of them are rewarded, each being a new run of 180 kills. */
  lemma {:induction false} FullRunsAreRewarded(m: Marshaller, player: int64, n: nat)
    requires Lawful(m) && NeverFails(m) && n <= SAFE_RUNS
    ensures var calls := FullRuns(player, n);
            && SettlementsOnly(calls)
            && |RewardedRuns(m, DEFAULT_POLICY, calls, player)| == n
            && TotalKills(RewardedRuns(m, DEFAULT_POLICY, calls, player)) == 180 * n
            && forall k: int64 :: k >= n ==>
                 KeyOf(player, FullRun(k)) !in After(m, DEFAULT_POLICY, calls).settlements
  {
    if n > 0 {
      FullRunsAreRewarded(m, player, n - 1);
      var earlier := FullRuns(player, n - 1);
      FullRunPasses(n - 1);
      FullRunIsRewarded(m, player, earlier, FullRun(n - 1));
      var runs := RewardedRuns(m, DEFAULT_POLICY, earlier, player);
      assert (runs + [FullRun(n - 1)])[..|runs|] == runs;
      FullRunKeysDiffer(player, n - 1);
    }
  }

  /** So the bound is reached: SAFE_RUNS runs can all be rewarded, and then a validated new run is refused. */
  lemma BoundIsReached(m: Marshaller, player: int64)
    requires Lawful(m) && NeverFails(m)
    ensures var calls := FullRuns(player, SAFE_RUNS);
            && |RewardedRuns(m, DEFAULT_POLICY, calls, player)| == SAFE_RUNS
            && PassesValidator(FullRun(SAFE_RUNS))
            && SettleLedger(After(m, DEFAULT_POLICY, calls), m, DEFAULT_POLICY, player, FullRun(SAFE_RUNS)).1
               == Err(Overflow(ArchiveOverflow))
  {
    FullRunsAreRewarded(m, player, SAFE_RUNS);
    FullRunPasses(SAFE_RUNS);
    OverflowAfter(m, FullRuns(player, SAFE_RUNS), player, FullRun(SAFE_RUNS));
  }
}
