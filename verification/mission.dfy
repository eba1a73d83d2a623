/** The mission record of a running game: the encounter phase, the clocks,
    objective progress, the spawn budget and the difficulty accumulators. */
module MissionState {
  import opened Entities

  const MissionDuration: real := 600.0

  /** The encounter phases, in the order a game moves through them. */
  datatype Phase = Cinematic | Intro | Objective1 | Objective2 | Objective3 | BossFight | Final

  /** Position of a phase in that order. */
  function Rank(p: Phase): (n: nat)
    ensures n <= 6
  {
    match p
    case Cinematic => 0
    case Intro => 1
    case Objective1 => 2
    case Objective2 => 3
    case Objective3 => 4
    case BossFight => 5
    case Final => 6
  }

  /** The phase after `p`; the last phase has none. */
  function Next(p: Phase): (q: Phase)
    requires p != Final
    ensures Rank(q) == Rank(p) + 1
  {
    match p
    case Cinematic => Intro
    case Intro => Objective1
    case Objective1 => Objective2
    case Objective2 => Objective3
    case Objective3 => BossFight
    case BossFight => Final
  }

  datatype Mission = Mission(
    phase: Phase,
    /** Seconds of mission time left. */
    timer: real,
    /** Seconds spent in the current phase. */
    phaseTimer: real,
    /** Repair progress of the current objective, 1 meaning done. */
    objectiveProgress: real,
    /** Enemies spawned by waves since the phase began. */
    phaseEnemiesSpawned: nat,
    phaseWarningSent: bool,
    doorUnlocked: bool,
    spawnTimer: real,
    bossPhaseThreshold: int,
    objectivesCompleted: nat,
    enemyHpScale: real,
    enemyDmgBase: int,
    enemySpeedBase: real,
    finalCountdown: bool,
    gameOver: bool)

  datatype GameState = GameState(mission: Mission, world: World)
}
