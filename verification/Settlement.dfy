/**
 The arithmetic of one combat settlement (internal/store/settlement.go).

 `Settled` is the code with Go's wrapping arithmetic written out, `ExactSettlement` the same decision over the
 unbounded integers. `SettledIsExactIff` says for which inputs the two agree.
 */
module Settlement {
  import opened Common

  datatype BattleOutcome = Unspecified | Victory | Defeat | Unknown(code: int32)

  /** A Go float64 as far as the settlement code looks at it. */
  datatype Seconds = Finite(seconds: real) | NaN | Infinite

  datatype Request = Request(
    runId: string,
    dungeonLevel: int32,
    score: int64,
    kills: int32,
    survivalTime: Seconds,
    styleId: int32,
    outcome: BattleOutcome,
    playerLevel: int32)

  /** The protobuf message PlayerArchive as a value. */
  datatype Archive = Archive(
    schemaVersion: int32,
    gold: int32,
    exp: int32,
    bestScore: int64,
    totalKills: int64,
    totalGames: int64,
    highestClearedDungeon: int32,
    talentPoints: int32,
    unlockedStyles: seq<int32>,
    lastStyleId: int32)

  datatype Response = Response(
    success: bool,
    duplicate: bool,
    rewardGold: int32,
    rewardExp: int32,
    bestScore: int64,
    archive: Option<Archive>,
    runId: string)

  datatype Policy = Policy(goldPerKill: int64, expPerKill: int64)

  datatype SettleError = RewardOverflow | ArchiveOverflow | TotalsOverflow

  /** validateCombatRewardPolicy: both constructors refuse any other policy. */
  predicate AcceptedPolicy(policy: Policy) {
    policy.goldPerKill >= 0 && policy.expPerKill >= 0
  }

  /** The archive of a player who has none yet. */
  const FRESH_ARCHIVE: Archive := Archive(1, 0, 0, 0, 0, 0, 0, 0, [], 0)

  // ---------------------------------------------------------------------------------------------------------------
  // The code, with its wrap-around
  // ---------------------------------------------------------------------------------------------------------------

  /** Go's `int64(req.Kills) * int64(rate)`. */
  function Reward(kills: int32, rate: int64): int64 {
    Wrap64(kills * rate)
  }

  /** The three overflow guards, in the order the code tries them. */
  function Refusal(a: Archive, kills: int32, gold: int64, exp: int64): Option<SettleError> {
    if gold > MAX_INT32 || exp > MAX_INT32 then Some(RewardOverflow)
    else if Wrap64(a.gold + gold) > MAX_INT32 || Wrap64(a.exp + exp) > MAX_INT32 then Some(ArchiveOverflow)
    else if kills > Wrap64(MAX_INT64 - a.totalKills) || a.totalGames == MAX_INT64 then Some(TotalsOverflow)
    else None
  }

  /** The archive after the in-place updates that follow the guards. */
  function Updated(a: Archive, req: Request, gold: int64, exp: int64): Archive {
    a.(gold := Wrap32(a.gold + Wrap32(gold)),
       exp := Wrap32(a.exp + Wrap32(exp)),
       totalKills := Wrap64(a.totalKills + req.kills),
       totalGames := Wrap64(a.totalGames + 1),
       bestScore := if req.score > a.bestScore then req.score else a.bestScore,
       highestClearedDungeon :=
         if req.outcome == Victory && req.dungeonLevel > a.highestClearedDungeon
         then req.dungeonLevel else a.highestClearedDungeon,
       lastStyleId := req.styleId)
  }

  function Settled(a: Archive, req: Request, policy: Policy): Result<Response, SettleError> {
    var gold := Reward(req.kills, policy.goldPerKill);
    var exp := Reward(req.kills, policy.expPerKill);
    match Refusal(a, req.kills, gold, exp)
    case Some(error) => Err(error)
    case None =>
      var after := Updated(a, req, gold, exp);
      Ok(Response(true, false, Wrap32(gold), Wrap32(exp), after.bestScore, Some(after), req.runId))
  }

  /** What a repeated request is answered: the stored response, marked as a duplicate of this request. */
  function Replayed(stored: Response, req: Request): Response {
    stored.(duplicate := true, runId := req.runId)
  }

  /** The protobuf message as the Go code holds it: an object updated through a pointer. */
  class PlayerArchive {
    var schemaVersion: int32
    var gold: int32
    var exp: int32
    var bestScore: int64
    var totalKills: int64
    var totalGames: int64
    var highestClearedDungeon: int32
    var talentPoints: int32
    var unlockedStyles: seq<int32>
    var lastStyleId: int32

    function Value(): Archive
      reads this
    {
      Archive(schemaVersion, gold, exp, bestScore, totalKills, totalGames, highestClearedDungeon,
              talentPoints, unlockedStyles, lastStyleId)
    }

    constructor (value: Archive)
      ensures Value() == value
    {
      schemaVersion, gold, exp := value.schemaVersion, value.gold, value.exp;
      bestScore, totalKills, totalGames := value.bestScore, value.totalKills, value.totalGames;
      highestClearedDungeon, talentPoints := value.highestClearedDungeon, value.talentPoints;
      unlockedStyles, lastStyleId := value.unlockedStyles, value.lastStyleId;
    }

    method Add(req: Request, gold: int64, exp: int64)
      modifies this
      ensures Value() == Updated(old(Value()), req, gold, exp)
    {
      this.gold := Wrap32(this.gold + Wrap32(gold));
      this.exp := Wrap32(this.exp + Wrap32(exp));
      totalKills := Wrap64(totalKills + req.kills);
      totalGames := Wrap64(totalGames + 1);
      if req.score > bestScore {
        bestScore := req.score;
      }
      if req.outcome == Victory && req.dungeonLevel > highestClearedDungeon {
        highestClearedDungeon := req.dungeonLevel;
      }
      lastStyleId := req.styleId;
    }
  }

  /** settleArchive: guards first, then every update in place; a refused run leaves the archive as it was. */
  method SettleArchive(given: PlayerArchive?, req: Request, policy: Policy)
    returns (result: Result<Response, SettleError>, archive: PlayerArchive)
    modifies given
    ensures given != null ==> archive == given
    ensures given == null ==> fresh(archive)
    ensures var before := if given == null then FRESH_ARCHIVE else old(given.Value());
            && result == Settled(before, req, policy)
            && archive.Value() == if result.Ok? then result.value.archive.value else before
  {
    if given == null {
      archive := new PlayerArchive(FRESH_ARCHIVE);
    } else {
      archive := given;
    }
    var gold := Reward(req.kills, policy.goldPerKill);
    var exp := Reward(req.kills, policy.expPerKill);
    if gold > MAX_INT32 || exp > MAX_INT32 {
      return Err(RewardOverflow), archive;
    }
    if Wrap64(archive.gold + gold) > MAX_INT32 || Wrap64(archive.exp + exp) > MAX_INT32 {
      return Err(ArchiveOverflow), archive;
    }
    if req.kills > Wrap64(MAX_INT64 - archive.totalKills) || archive.totalGames == MAX_INT64 {
      return Err(TotalsOverflow), archive;
    }
    archive.Add(req, gold, exp);
    result := Ok(Response(true, false, Wrap32(gold), Wrap32(exp), archive.bestScore, Some(archive.Value()), req.runId));
  }

  // ---------------------------------------------------------------------------------------------------------------
  // The same settlement over unbounded integers
  // ---------------------------------------------------------------------------------------------------------------

  predicate RewardFits(req: Request, policy: Policy) {
    req.kills * policy.goldPerKill <= MAX_INT32 && req.kills * policy.expPerKill <= MAX_INT32
  }

  predicate ArchiveFits(a: Archive, req: Request, policy: Policy) {
    a.gold + req.kills * policy.goldPerKill <= MAX_INT32 && a.exp + req.kills * policy.expPerKill <= MAX_INT32
  }

  predicate TotalsFit(a: Archive, req: Request) {
    a.totalKills + req.kills <= MAX_INT64 && a.totalGames < MAX_INT64
  }

  /** One run added to an archive, no arithmetic ever wrapping. */
  function Merged(a: Archive, req: Request, policy: Policy): Archive
    requires req.kills >= 0 && AcceptedPolicy(policy)
    requires ArchiveFits(a, req, policy) && TotalsFit(a, req)
  {
    RewardsAreNatural(req, policy);
    a.(gold := a.gold + req.kills * policy.goldPerKill,
       exp := a.exp + req.kills * policy.expPerKill,
       totalKills := a.totalKills + req.kills,
       totalGames := a.totalGames + 1,
       bestScore := Max(a.bestScore, req.score),
       highestClearedDungeon :=
         if req.outcome == Victory then Max(a.highestClearedDungeon, req.dungeonLevel) else a.highestClearedDungeon,
       lastStyleId := req.styleId)
  }

  /** The settlement the guards are written for: refuse exactly what does not fit, otherwise add exactly. */
  function ExactSettlement(a: Archive, req: Request, policy: Policy): Result<Response, SettleError>
    requires req.kills >= 0 && AcceptedPolicy(policy)
  {
    RewardsAreNatural(req, policy);
    if !RewardFits(req, policy) then Err(RewardOverflow)
    else if !ArchiveFits(a, req, policy) then Err(ArchiveOverflow)
    else if !TotalsFit(a, req) then Err(TotalsOverflow)
    else
      var after := Merged(a, req, policy);
      Ok(Response(true, false, req.kills * policy.goldPerKill, req.kills * policy.expPerKill,
                  after.bestScore, Some(after), req.runId))
  }

  lemma RewardsAreNatural(req: Request, policy: Policy)
    requires req.kills >= 0 && AcceptedPolicy(policy)
    ensures 0 <= req.kills * policy.goldPerKill && 0 <= req.kills * policy.expPerKill
  {
  }

  /** A reward too large for int32 whose 64-bit products both wrapped back under the first guard. */
  predicate RewardWrapsUnseen(req: Request, policy: Policy) {
    !RewardFits(req, policy) && Reward(req.kills, policy.goldPerKill) <= MAX_INT32 && Reward(req.kills, policy.expPerKill) <= MAX_INT32
  }

  /** A stored kill total below zero: `MaxInt64 - TotalKills` wraps and the third guard refuses a run that fits. */
  predicate NegativeTotalRefused(a: Archive, req: Request, policy: Policy) {
    a.totalKills < 0 && RewardFits(req, policy) && ArchiveFits(a, req, policy) && a.totalGames < MAX_INT64
  }

  /** The code settles exactly if and only if neither of its two unguarded wrap-arounds happens. */
  lemma SettledIsExactIff(a: Archive, req: Request, policy: Policy)
    requires req.kills >= 0 && AcceptedPolicy(policy)
    ensures Settled(a, req, policy) == ExactSettlement(a, req, policy)
            <==> !RewardWrapsUnseen(req, policy) && !NegativeTotalRefused(a, req, policy)
  {
    RewardsAreNatural(req, policy);
    var gold, exp := req.kills * policy.goldPerKill, req.kills * policy.expPerKill;
    assert gold <= MAX_INT64 ==> Reward(req.kills, policy.goldPerKill) == gold;
    assert exp <= MAX_INT64 ==> Reward(req.kills, policy.expPerKill) == exp;
    if RewardFits(req, policy) {
      assert a.totalKills >= 0 ==> Wrap64(MAX_INT64 - a.totalKills) == MAX_INT64 - a.totalKills;
      assert a.totalKills < 0 ==> Wrap64(MAX_INT64 - a.totalKills) == MIN_INT64 - a.totalKills - 1 < 0;
    }
  }

  /** The caller-side condition under which every settlement is exact: rates that fit int32 and a natural total. */
  lemma SettledIsExact(a: Archive, req: Request, policy: Policy)
    requires req.kills >= 0 && AcceptedPolicy(policy)
    requires policy.goldPerKill <= MAX_INT32 && policy.expPerKill <= MAX_INT32
    requires a.totalKills >= 0
    ensures Settled(a, req, policy) == ExactSettlement(a, req, policy)
  {
    ProductFits(req.kills, policy.goldPerKill);
    ProductFits(req.kills, policy.expPerKill);
    SettledIsExactIff(a, req, policy);
  }

  lemma ProductFits(kills: int, rate: int)
    requires 0 <= kills <= MAX_INT32 && 0 <= rate <= MAX_INT32
    ensures 0 <= kills * rate <= MAX_INT64
  {
    MulMonotone(kills, 0x7fff_ffff, rate);
  }

  /** Both excluded cases occur: each of these inputs makes the code depart from the exact settlement. */
  lemma WrapAroundsOccur(req: Request)
    requires req.kills == 4
    ensures var policy := Policy(0x4000_0000_0000_0000, 0);
            Settled(FRESH_ARCHIVE, req, policy).Ok? && ExactSettlement(FRESH_ARCHIVE, req, policy).Err?
    ensures var saved := FRESH_ARCHIVE.(totalKills := -1);
            Settled(saved, req, Policy(5, 10)).Err? && ExactSettlement(saved, req, Policy(5, 10)).Ok?
  {
    var policy := Policy(0x4000_0000_0000_0000, 0);
    assert Reward(req.kills, policy.goldPerKill) == 0;
  }
}
