/**
 The checks in front of every settlement (internal/combat/validator.go, config.go, service.go).

 The dungeon's enemy density reaches the validator as a float32; its rounding is a parameter here, constrained only by
 `DensityOf`.
 */
module Combat {
  import opened Common
  import opened Settlement

  const MAX_RUN_ID_BYTES := 128
  const MAX_PLAYER_LEVEL := 100
  const MAX_DUNGEON_LEVEL := 100

  datatype Config = Config(goldPerKill: int64, expPerKill: int64, maxScorePerLevel: int64, maxKillsMultiplier: real)

  /** The settlement-related part of DefaultCombatConfig. */
  const DEFAULT_CONFIG := Config(5, 10, 10000, 3.0)

  function RewardPolicy(cfg: Config): Policy {
    Policy(cfg.goldPerKill, cfg.expPerKill)
  }

  // ---------------------------------------------------------------------------------------------------------------
  // Dungeons
  // ---------------------------------------------------------------------------------------------------------------

  function RoomCount(level: int): int {
    if 8 + level * 2 > 20 then 20 else 8 + level * 2
  }

  /** The density before it is stored as a float32. */
  function ExactDensity(level: int): real {
    var d := 1.0 + (level - 1) as real * 0.15;
    if d > 3.0 then 3.0 else d
  }

  /** Any value the float32 field may hold: rounding stays within [1, 3] and leaves 3 alone, which is representable. */
  predicate DensityOf(level: int, density: real) {
    1.0 <= density <= 3.0 && (ExactDensity(level) == 3.0 ==> density == 3.0)
  }

  function Enemies(level: int, density: real): real {
    RoomCount(level) as real * density
  }

  function MaxKills(level: int, density: real, cfg: Config): int {
    (Enemies(level, density) * cfg.maxKillsMultiplier).Floor
  }

  // ---------------------------------------------------------------------------------------------------------------
  // Run identifiers
  // ---------------------------------------------------------------------------------------------------------------

  /** unicode.IsSpace, which strings.TrimSpace strips. */
  predicate IsSpace(c: char) {
    || '\t' <= c <= '\r' || c == ' '
    || c == '\U{0085}' || c == '\U{00A0}' || c == '\U{1680}'
    || '\U{2000}' <= c <= '\U{200A}' || c == '\U{2028}' || c == '\U{2029}'
    || c == '\U{202F}' || c == '\U{205F}' || c == '\U{3000}'
  }

  function TrimLeft(s: string): string {
    if s != "" && IsSpace(s[0]) then TrimLeft(s[1..]) else s
  }

  function TrimRight(s: string): string {
    if s != "" && IsSpace(s[|s| - 1]) then TrimRight(s[..|s| - 1]) else s
  }

  function TrimSpace(s: string): string {
    TrimRight(TrimLeft(s))
  }

  function Utf8Size(c: char): nat {
    if c < '\U{0080}' then 1 else if c < '\U{0800}' then 2 else if c < '\U{10000}' then 3 else 4
  }

  /** Go's len of a string: bytes, not characters. */
  function ByteLength(s: string): nat {
    if s == "" then 0 else Utf8Size(s[0]) + ByteLength(s[1..])
  }

  predicate ValidRunId(runId: string) {
    TrimSpace(runId) == runId && runId != "" && ByteLength(runId) <= MAX_RUN_ID_BYTES
  }

  /** A run id survives trimming exactly when it neither starts nor ends with white space. */
  lemma TrimmedIff(s: string)
    ensures TrimSpace(s) == s <==> s == "" || (!IsSpace(s[0]) && !IsSpace(s[|s| - 1]))
  {
    TrimLeftShortens(s);
    TrimRightShortens(TrimLeft(s));
  }

  lemma {:induction false} TrimLeftShortens(s: string)
    ensures |TrimLeft(s)| <= |s|
    ensures s != "" && IsSpace(s[0]) ==> |TrimLeft(s)| < |s|
  {
    if s != "" && IsSpace(s[0]) {
      TrimLeftShortens(s[1..]);
    }
  }

  lemma {:induction false} TrimRightShortens(s: string)
    ensures |TrimRight(s)| <= |s|
    ensures s != "" && IsSpace(s[|s| - 1]) ==> |TrimRight(s)| < |s|
  {
    if s != "" && IsSpace(s[|s| - 1]) {
      TrimRightShortens(s[..|s| - 1]);
    }
  }

  // ---------------------------------------------------------------------------------------------------------------
  // validateCombatResult
  // ---------------------------------------------------------------------------------------------------------------

  datatype Invalid = InvalidRunId | InvalidOutcome | InvalidPlayerLevel | InvalidDungeon | InvalidScore
                   | InvalidKills | InvalidSurvivalTime | InvalidStyle

  function ValidateCombatResult(req: Request, cfg: Config, density: real): Option<Invalid> {
    if !ValidRunId(req.runId) then Some(InvalidRunId)
    else if req.outcome != Victory && req.outcome != Defeat then Some(InvalidOutcome)
    else if req.playerLevel < 1 || req.playerLevel > MAX_PLAYER_LEVEL then Some(InvalidPlayerLevel)
    else if req.dungeonLevel <= 0 || req.dungeonLevel > MAX_DUNGEON_LEVEL then Some(InvalidDungeon)
    else if req.score < 0 || req.score > Wrap64(cfg.maxScorePerLevel * req.dungeonLevel) then Some(InvalidScore)
    else if req.kills < 0 || req.kills > Wrap32(MaxKills(req.dungeonLevel, density, cfg)) then Some(InvalidKills)
    else if !req.survivalTime.Finite? || req.survivalTime.seconds < 0.0 || req.survivalTime.seconds > 7200.0
      then Some(InvalidSurvivalTime)
    else if req.styleId < 1 || req.styleId > 5 then Some(InvalidStyle)
    else None
  }

  /** A request the default configuration lets through, whatever the rounding of its dungeon's density. */
  predicate Validated(req: Request, density: real) {
    DensityOf(req.dungeonLevel, density) && ValidateCombatResult(req, DEFAULT_CONFIG, density) == None
  }

  lemma EnemyLimit(level: int, density: real)
    requires 1 <= level && 1.0 <= density <= 3.0
    ensures 10.0 <= Enemies(level, density) <= 60.0
    ensures level >= 15 && density == 3.0 ==> Enemies(level, density) == 60.0
  {
    var rooms := RoomCount(level) as real;
    assert 10.0 <= rooms <= 20.0;
    RealMulMonotone(rooms, 20.0, density);
    RealMulMonotone(10.0, rooms, density);
  }

  /** No dungeon admits more than 180 kills, and dungeons from level 15 on admit exactly 180. */
  lemma KillLimit(level: int, density: real)
    requires 1 <= level <= MAX_DUNGEON_LEVEL && DensityOf(level, density)
    ensures 30 <= MaxKills(level, density, DEFAULT_CONFIG) <= 180
    ensures level >= 15 ==> MaxKills(level, density, DEFAULT_CONFIG) == 180
  {
    EnemyLimit(level, density);
    if level >= 15 {
      assert ExactDensity(level) == 3.0;
    }
  }

  lemma RealMulMonotone(a: real, b: real, c: real)
    requires a <= b && 0.0 <= c
    ensures a * c <= b * c
  {
    assert b * c == a * c + (b - a) * c;
  }

  /** What settlement may rely on behind the validator: in particular kills in [0, 180]. */
  lemma ValidatedBounds(req: Request, density: real)
    requires Validated(req, density)
    ensures 0 <= req.kills <= 180
    ensures 0 <= req.score <= 1_000_000
    ensures 1 <= req.playerLevel <= 100 && 1 <= req.dungeonLevel <= 100
    ensures req.survivalTime.Finite?
    ensures req.runId != "" && !IsSpace(req.runId[0]) && !IsSpace(req.runId[|req.runId| - 1])
  {
    KillLimit(req.dungeonLevel, density);
    TrimmedIff(req.runId);
  }

  /**
   Exactly these requests pass: a run id without outer white space of 1 to 128 bytes, a decided battle, and every number
   within its bound, where kills may not exceed three times the dungeon's enemies.
   */
  lemma ValidatedIff(req: Request, density: real)
    requires DensityOf(req.dungeonLevel, density)
    ensures ValidateCombatResult(req, DEFAULT_CONFIG, density) == None <==>
            && req.runId != "" && !IsSpace(req.runId[0]) && !IsSpace(req.runId[|req.runId| - 1])
            && ByteLength(req.runId) <= 128
            && (req.outcome == Victory || req.outcome == Defeat)
            && 1 <= req.playerLevel <= 100 && 1 <= req.dungeonLevel <= 100
            && 0 <= req.score <= 10000 * req.dungeonLevel
            && 0 <= req.kills
            && req.kills as real <= 3.0 * density * (if req.dungeonLevel >= 6 then 20 else 8 + 2 * req.dungeonLevel) as real
            && req.survivalTime.Finite? && 0.0 <= req.survivalTime.seconds <= 7200.0
            && 1 <= req.styleId <= 5
  {
    TrimmedIff(req.runId);
    if 1 <= req.dungeonLevel <= 100 {
      KillLimit(req.dungeonLevel, density);
      assert Wrap32(MaxKills(req.dungeonLevel, density, DEFAULT_CONFIG)) == MaxKills(req.dungeonLevel, density, DEFAULT_CONFIG);
    }
  }

  /** The checks in the order they are made, with the reason each gives. */
  function Checks(req: Request, density: real): seq<(bool, Invalid)> {
    [ (ValidRunId(req.runId), InvalidRunId),
      (req.outcome in {Victory, Defeat}, InvalidOutcome),
      (1 <= req.playerLevel <= 100, InvalidPlayerLevel),
      (1 <= req.dungeonLevel <= 100, InvalidDungeon),
      (0 <= req.score <= 10000 * req.dungeonLevel, InvalidScore),
      (0 <= req.kills
       && req.kills as real <= 3.0 * density * (if req.dungeonLevel >= 6 then 20 else 8 + 2 * req.dungeonLevel) as real,
       InvalidKills),
      (req.survivalTime.Finite? && 0.0 <= req.survivalTime.seconds <= 7200.0, InvalidSurvivalTime),
      (1 <= req.styleId <= 5, InvalidStyle) ]
  }

  /** Check i fails, and all before it hold. */
  predicate FirstToFail(checks: seq<(bool, Invalid)>, i: nat) {
    i < |checks| && !checks[i].0 && forall j :: 0 <= j < i ==> checks[j].0
  }

  /** A request is let through if every check holds; the reason given otherwise is that of the first check that fails. */
  lemma RefusedForFirst(req: Request, density: real)
    requires DensityOf(req.dungeonLevel, density)
    ensures var checks := Checks(req, density);
            match ValidateCombatResult(req, DEFAULT_CONFIG, density)
            case None => forall i :: 0 <= i < |checks| ==> checks[i].0
            case Some(why) => exists i: nat :: FirstToFail(checks, i) && checks[i].1 == why
  {
    var checks := Checks(req, density);
    if 1 <= req.dungeonLevel <= 100 {
      KillLimit(req.dungeonLevel, density);
      assert Wrap32(MaxKills(req.dungeonLevel, density, DEFAULT_CONFIG)) == MaxKills(req.dungeonLevel, density, DEFAULT_CONFIG);
    }
    var answer := ValidateCombatResult(req, DEFAULT_CONFIG, density);
    if answer.Some? {
      var i := match answer.value
        case InvalidRunId => 0
        case InvalidOutcome => 1
        case InvalidPlayerLevel => 2
        case InvalidDungeon => 3
        case InvalidScore => 4
        case InvalidKills => 5
        case InvalidSurvivalTime => 6
        case InvalidStyle => 7;
      assert FirstToFail(checks, i);
    }
  }

  /** What counts as white space, and how many bytes characters take. */
  lemma Characters()
    ensures forall c :: IsSpace(c) <==>
              c in "\t\n\U{000B}\U{000C}\r \U{0085}\U{00A0}\U{1680}\U{2000}\U{2001}\U{2002}\U{2003}\U{2004}"
              || c in "\U{2005}\U{2006}\U{2007}\U{2008}\U{2009}\U{200A}\U{2028}\U{2029}\U{202F}\U{205F}\U{3000}"
    ensures ByteLength("az09-") == 5 && ByteLength("é") == 2 && ByteLength("玩家") == 6 && ByteLength("\U{1F600}!") == 5
  {
    assert "az09-"[1..] == "z09-" && "z09-"[1..] == "09-" && "09-"[1..] == "9-" && "9-"[1..] == "-";
    assert "玩家"[1..] == "家" && "\U{1F600}!"[1..] == "!";
  }
}
