/** Enemy creation and the wave budget of `handleSpawning`: which phases
    spawn, the per-phase quotas of 15 and 45, the cap of 20 live enemies
    checked before a wave, and the scaling of spawned hit points. */
module Spawning {
  import opened Common
  import opened Geometry
  import opened Entities
  import opened MissionState

  const GruntHp: real := 70.0
  const EliteHp: real := 120.0
  const EliteDamage: int := 18
  const EliteSpeed: real := 80.0
  /** Wave spawning pauses while more than this many enemies are alive. */
  const EnemyCap: int := 20
  /** The largest wave any phase sends. */
  const MaxWave: int := 5
  const Objective1Quota: nat := 15
  const Objective2Quota: nat := 45
  /** Seconds into objective 1 before the warning, and before the first wave. */
  const WarningTime: real := 10.0
  const Objective1Delay: real := 15.0
  /** Spread of the random offset around a spawn point. */
  const Jitter: real := 40.0

  datatype SpawnZone = Corridor | Left3 | Right3 | EngineRoom | BossAdds

  /** The four spawn points of a zone: the source's map coordinates times
      the map scale of 3. */
  function SpawnPoints(z: SpawnZone): (pts: seq<(real, real)>)
    ensures |pts| == 4
  {
    match z
    case Corridor => [(1536.0, 1200.0), (1536.0, 1500.0), (1536.0, 1800.0), (1536.0, 2100.0)]
    case Left3 => [(750.0, 1440.0), (900.0, 1440.0), (1050.0, 1440.0), (600.0, 1440.0)]
    case Right3 => [(2322.0, 1440.0), (2100.0, 1440.0), (1950.0, 1440.0), (2472.0, 1440.0)]
    case EngineRoom => [(1200.0, 2430.0), (1800.0, 2430.0), (1536.0, 2550.0), (1536.0, 2370.0)]
    case BossAdds => [(600.0, 2400.0), (2472.0, 2400.0), (1536.0, 2340.0), (1050.0, 2550.0)]
  }

  /** `points[Math.floor(Math.random() * points.length)]`. */
  function PickPoint(z: SpawnZone, r: Unit): (p: (real, real))
    ensures p in SpawnPoints(z)
  {
    var i := (r * 4.0).Floor;
    assert 0 <= i < 4 by { assert i as real <= r * 4.0 < 4.0; }
    SpawnPoints(z)[i]
  }

  function BaseHp(elite: bool): real
  {
    if elite then EliteHp else GruntHp
  }

  /** The mission's current enemy bases: the hit-point scale and the grunt
      damage and speed. */
  datatype Difficulty = Difficulty(hpScale: real, dmgBase: int, speedBase: real)

  function DifficultyOf(m: Mission): Difficulty
  {
    Difficulty(m.enemyHpScale, m.enemyDmgBase, m.enemySpeedBase)
  }

  /** The enemy `spawnEnemy` creates: full hit points of `(70 or 120) *
      enemyHpScale`, the elite's fixed damage and speed or the mission's
      current bases, and no cooldown. */
  function NewEnemy(id: nat, x: real, y: real, elite: bool, d: Difficulty): (e: Enemy)
    ensures e.id == id && e.x == x && e.y == y && e.attackCd == 0.0
    ensures e.kind == Elite <==> elite
    ensures e.hp == e.maxHp && e.maxHp == (if elite then 120.0 else 70.0) * d.hpScale
    ensures e.damage == (if elite then EliteDamage else d.dmgBase)
    ensures e.speed == (if elite then EliteSpeed else d.speedBase)
  {
    var hp := BaseHp(elite) * d.hpScale;
    Enemy(id, x, y, if elite then Elite else Grunt, hp, hp,
          if elite then EliteDamage else d.dmgBase,
          if elite then EliteSpeed else d.speedBase, 0.0)
  }

  /** `spawnEnemy`: the new enemy goes to the end of the enemy list with
      the next id, and nothing else in the world changes. */
  function SpawnEnemy(w: World, m: Mission, x: real, y: real, elite: bool): (w': World)
    ensures |w'.enemies| == |w.enemies| + 1 && w'.enemies[..|w.enemies|] == w.enemies
    ensures w'.enemies[|w.enemies|] == NewEnemy(w.nextEnemyId, x, y, elite, DifficultyOf(m))
    ensures w' == w.(enemies := w'.enemies, nextEnemyId := w.nextEnemyId + 1)
  {
    w.(enemies := w.enemies + [NewEnemy(w.nextEnemyId, x, y, elite, DifficultyOf(m))],
       nextEnemyId := w.nextEnemyId + 1)
  }

  /** Where, how many, how often, and whether elites may appear. */
  datatype WavePlan = WavePlan(zone: SpawnZone, baseCount: nat, interval: real, elites: bool)

  /** The wave of each phase; cinematic, intro and the boss fight have none. */
  function Plan(p: Phase): (plan: Option<WavePlan>)
    ensures plan.Some? <==> p in {Objective1, Objective2, Objective3, Final}
    ensures plan.Some? ==> plan.value.baseCount + 1 <= MaxWave && (plan.value.elites <==> p == Objective3)
  {
    match p
    case Objective1 => Some(WavePlan(Corridor, 2, 5.0, false))
    case Objective2 => Some(WavePlan(Left3, 3, 4.0, false))
    case Objective3 => Some(WavePlan(Right3, 4, 3.0, true))
    case Final => Some(WavePlan(EngineRoom, 1, 8.0, false))
    case _ => None
  }

  /** The random choices behind one spawned enemy. */
  datatype EnemyDraw = EnemyDraw(point: Unit, elite: Unit, jitterX: Unit, jitterY: Unit)

  /** The random choices behind one wave: its size and each enemy's draws. */
  datatype SpawnDraws = SpawnDraws(count: Unit, enemy: nat -> EnemyDraw)

  /** `base + Math.floor(Math.random() * 2)`. */
  function WaveSize(plan: WavePlan, r: Unit): (n: nat)
    ensures plan.baseCount <= n <= plan.baseCount + 1
  {
    var extra := (r * 2.0).Floor;
    assert 0 <= extra <= 1 by { assert extra as real <= r * 2.0 < 2.0; }
    plan.baseCount + extra
  }

  /** The phase's quota is used up once `spawned` enemies have come (only
      objectives 1 and 2 have one). */
  predicate QuotaReached(phase: Phase, spawned: nat)
  {
    (phase == Objective1 && spawned >= Objective1Quota)
    || (phase == Objective2 && spawned >= Objective2Quota)
  }

  /** How many enemies `n` iterations of the wave loop add with `spawned`
      already out: all n, except that objectives 1 and 2 stop at 15 and 45. */
  function Allowance(phase: Phase, spawned: nat, n: nat): nat
  {
    var quota := if phase == Objective1 then Objective1Quota
                 else if phase == Objective2 then Objective2Quota
                 else spawned + n;
    var left := if spawned < quota then quota - spawned else 0;
    if n < left then n else left
  }

  /** A freshly spawned enemy: full hit points of its kind's base times the
      given scale, and an elite only when the wave allows elites. */
  predicate SpawnedAsScaled(e: Enemy, scale: real, elites: bool)
  {
    (e.kind == Elite ==> elites) && e.hp == e.maxHp == BaseHp(e.kind == Elite) * scale
  }

  predicate AllSpawnedAsScaled(added: seq<Enemy>, scale: real, elites: bool)
  {
    forall j :: 0 <= j < |added| ==> SpawnedAsScaled(added[j], scale, elites)
  }

  /** One enemy of a wave, at a jittered spawn point of the plan's zone; an
      elite when the plan allows elites and the draw falls below 0.3. */
  function SpawnOne(id: nat, plan: WavePlan, d: Difficulty, r: EnemyDraw): (e: Enemy)
    ensures e.id == id
    ensures SpawnedAsScaled(e, d.hpScale, plan.elites)
  {
    var sp := PickPoint(plan.zone, r.point);
    NewEnemy(id, sp.0 + (r.jitterX - 0.5) * Jitter, sp.1 + (r.jitterY - 0.5) * Jitter,
             plan.elites && r.elite < 0.3, d)
  }

  /** The enemies the wave loop adds from its i-th of `count` iterations on,
      with `spawned` enemies of the phase already out and `id` the next
      enemy id: the loop stops early once the phase's quota is reached. */
  function WaveFrom(phase: Phase, spawned: nat, id: nat, plan: WavePlan, d: Difficulty,
                    i: nat, count: nat, draws: SpawnDraws): (added: seq<Enemy>)
    ensures i <= count ==> |added| == Allowance(phase, spawned, count - i)
    ensures forall j :: 0 <= j < |added| ==> added[j].id == id + j
    decreases count - i
  {
    if i >= count || QuotaReached(phase, spawned) then []
    else [SpawnOne(id, plan, d, draws.enemy(i))]
         + WaveFrom(phase, spawned + 1, id + 1, plan, d, i + 1, count, draws)
  }

  /** A wave stops at the quotas of objectives 1 and 2: starting within the
      quota, it ends within it. */
  lemma {:induction false} WaveKeepsQuota(phase: Phase, spawned: nat, id: nat, plan: WavePlan, d: Difficulty,
                                          i: nat, count: nat, draws: SpawnDraws)
    ensures var n := spawned + |WaveFrom(phase, spawned, id, plan, d, i, count, draws)|;
      && (phase == Objective1 && spawned <= Objective1Quota ==> n <= Objective1Quota)
      && (phase == Objective2 && spawned <= Objective2Quota ==> n <= Objective2Quota)
    decreases count - i
  {
    if !(i >= count || QuotaReached(phase, spawned)) {
      WaveKeepsQuota(phase, spawned + 1, id + 1, plan, d, i + 1, count, draws);
    }
  }

  /** Every enemy a wave adds has the full, scaled hit points of its kind,
      and elites come only from waves that allow them. */
  lemma {:induction false} WaveScalesHp(phase: Phase, spawned: nat, id: nat, plan: WavePlan, d: Difficulty,
                                        i: nat, count: nat, draws: SpawnDraws)
    ensures AllSpawnedAsScaled(WaveFrom(phase, spawned, id, plan, d, i, count, draws), d.hpScale, plan.elites)
    decreases count - i
  {
    if !(i >= count || QuotaReached(phase, spawned)) {
      WaveScalesHp(phase, spawned + 1, id + 1, plan, d, i + 1, count, draws);
    }
  }

  /** The wave loop of `handleSpawning` applied to the game: the new enemies
      are appended and counted towards the phase's quota, and the id counter
      moves past them. */
  function Wave(m: Mission, w: World, plan: WavePlan, count: nat, draws: SpawnDraws): (r: (Mission, World))
    ensures r.0 == m.(phaseEnemiesSpawned := r.0.phaseEnemiesSpawned)
    ensures r.1 == w.(enemies := r.1.enemies, nextEnemyId := r.1.nextEnemyId)
    ensures |w.enemies| <= |r.1.enemies| <= |w.enemies| + count && r.1.enemies[..|w.enemies|] == w.enemies
    ensures |r.1.enemies| == |w.enemies| + Allowance(m.phase, m.phaseEnemiesSpawned, count)
    ensures |r.1.enemies| - |w.enemies| == r.0.phaseEnemiesSpawned - m.phaseEnemiesSpawned
    ensures r.1.nextEnemyId - w.nextEnemyId == r.0.phaseEnemiesSpawned - m.phaseEnemiesSpawned
  {
    var added := WaveFrom(m.phase, m.phaseEnemiesSpawned, w.nextEnemyId, plan, DifficultyOf(m), 0, count, draws);
    assert (w.enemies + added)[..|w.enemies|] == w.enemies;
    (m.(phaseEnemiesSpawned := m.phaseEnemiesSpawned + |added|),
     w.(enemies := w.enemies + added, nextEnemyId := w.nextEnemyId + |added|))
  }

  /** The early exits of `handleSpawning` that come before the spawn timer:
      no waves in cinematic or intro, none in objective 1 before 15 seconds,
      none once objective 1 or 2 has met its quota. */
  predicate Holding(m: Mission)
  {
    || m.phase == Cinematic || m.phase == Intro
    || (m.phase == Objective1 && m.phaseTimer < Objective1Delay)
    || QuotaReached(m.phase, m.phaseEnemiesSpawned)
  }

  /** The part of `handleSpawning` once the spawn timer has run out: the
      phase's wave, unless more than 20 enemies are alive, then the timer is
      reset to the phase's interval. */
  function StartWave(m: Mission, w: World, draws: SpawnDraws): (r: (Mission, World))
    ensures r.0 == m.(spawnTimer := r.0.spawnTimer, phaseEnemiesSpawned := r.0.phaseEnemiesSpawned)
    ensures r.1 == w.(enemies := r.1.enemies, nextEnemyId := r.1.nextEnemyId)
    ensures |w.enemies| <= |r.1.enemies| && r.1.enemies[..|w.enemies|] == w.enemies
    ensures |r.1.enemies| - |w.enemies| == r.0.phaseEnemiesSpawned - m.phaseEnemiesSpawned
    ensures Plan(m.phase).None? || |w.enemies| > EnemyCap ==> r == (m, w)
    ensures Plan(m.phase).Some? && |w.enemies| <= EnemyCap ==>
      && r.0.spawnTimer == Plan(m.phase).value.interval
      && |r.1.enemies| == |w.enemies| + Allowance(m.phase, m.phaseEnemiesSpawned, WaveSize(Plan(m.phase).value, draws.count))
    ensures |r.1.enemies| <= |w.enemies| + MaxWave
  {
    match Plan(m.phase)
    case None => (m, w)
    case Some(plan) =>
      if |w.enemies| > EnemyCap then (m, w)
      else
        var r := Wave(m, w, plan, WaveSize(plan, draws.count), draws);
        (r.0.(spawnTimer := plan.interval), r.1)
  }

  /** The objective-1 warning: once 10 seconds into the phase the flag is
      set (the source also announces it, once). */
  function Warned(m: Mission): (m': Mission)
    ensures m' == m.(phaseWarningSent := m'.phaseWarningSent)
    ensures m'.phaseWarningSent <==> m.phaseWarningSent || (m.phase == Objective1 && m.phaseTimer >= WarningTime)
  {
    if m.phase == Objective1 && m.phaseTimer >= WarningTime && !m.phaseWarningSent
    then m.(phaseWarningSent := true) else m
  }

  /** `handleSpawning`: the objective-1 warning flag, the spawn timer, and
      at most one wave of the phase's plan, unless more than 20 enemies are
      alive. */
  function HandleSpawning(m: Mission, w: World, draws: SpawnDraws): (r: (Mission, World))
    ensures r.0 == m.(phaseWarningSent := r.0.phaseWarningSent, spawnTimer := r.0.spawnTimer,
                      phaseEnemiesSpawned := r.0.phaseEnemiesSpawned)
    ensures r.1 == w.(enemies := r.1.enemies, nextEnemyId := r.1.nextEnemyId)
    ensures |w.enemies| <= |r.1.enemies| && r.1.enemies[..|w.enemies|] == w.enemies
    ensures |r.1.enemies| - |w.enemies| == r.0.phaseEnemiesSpawned - m.phaseEnemiesSpawned
    ensures Holding(m) || Plan(m.phase).None? || |w.enemies| > EnemyCap ==> r.1.enemies == w.enemies
    ensures |r.1.enemies| <= |w.enemies| + MaxWave
    ensures |w.enemies| <= EnemyCap + MaxWave ==> |r.1.enemies| <= EnemyCap + MaxWave
    ensures r.0.phaseWarningSent <==>
      m.phaseWarningSent || (m.phase == Objective1 && m.phaseTimer >= WarningTime)
    ensures Holding(m) ==> r.0.spawnTimer == m.spawnTimer && r.1 == w
    ensures !Holding(m) && m.spawnTimer - DT > 0.0 ==> r.0.spawnTimer == m.spawnTimer - DT && r.1 == w
    ensures !Holding(m) && m.spawnTimer - DT <= 0.0 && (Plan(m.phase).None? || |w.enemies| > EnemyCap) ==>
      r.0.spawnTimer == m.spawnTimer - DT && r.1 == w
    ensures !Holding(m) && m.spawnTimer - DT <= 0.0 && Plan(m.phase).Some? && |w.enemies| <= EnemyCap ==>
      && r.0.spawnTimer == Plan(m.phase).value.interval
      && |r.1.enemies| == |w.enemies| + Allowance(m.phase, m.phaseEnemiesSpawned, WaveSize(Plan(m.phase).value, draws.count))
  {
    var m1 := Warned(m);
    if Holding(m) then (m1, w)
    else
      var m2 := m1.(spawnTimer := m.spawnTimer - DT);
      if m2.spawnTimer > 0.0 then (m2, w)
      else StartWave(m2, w, draws)
  }

  /** `handleSpawning` keeps the quotas of objectives 1 and 2, and spawns
      enemies at full hit points of `(70 or 120) * enemyHpScale`, elites only
      in objective 3. */
  lemma SpawningKeepsBudget(m: Mission, w: World, draws: SpawnDraws)
    ensures var r := HandleSpawning(m, w, draws);
      && (m.phase == Objective1 && m.phaseEnemiesSpawned <= Objective1Quota ==>
            r.0.phaseEnemiesSpawned <= Objective1Quota)
      && (m.phase == Objective2 && m.phaseEnemiesSpawned <= Objective2Quota ==>
            r.0.phaseEnemiesSpawned <= Objective2Quota)
      && AllSpawnedAsScaled(r.1.enemies[|w.enemies|..], m.enemyHpScale, m.phase == Objective3)
  {
    var r := HandleSpawning(m, w, draws);
    if !Holding(m) && m.spawnTimer - DT <= 0.0 && Plan(m.phase).Some? && |w.enemies| <= EnemyCap {
      var plan := Plan(m.phase).value;
      var n := WaveSize(plan, draws.count);
      var d := DifficultyOf(m);
      WaveKeepsQuota(m.phase, m.phaseEnemiesSpawned, w.nextEnemyId, plan, d, 0, n, draws);
      WaveScalesHp(m.phase, m.phaseEnemiesSpawned, w.nextEnemyId, plan, d, 0, n, draws);
      assert r.1.enemies[|w.enemies|..] == WaveFrom(m.phase, m.phaseEnemiesSpawned, w.nextEnemyId, plan, d, 0, n, draws);
    } else {
      assert r.1.enemies[|w.enemies|..] == [];
    }
  }

  /** A tick spawns enemies exactly when the phase is not holding, the
      spawn timer runs out, the phase has a wave and at most 20 enemies are
      alive. A due wave in objective 3 or the final phase brings its full
      random size, the plan's base or one more. */
  lemma WaveComesIffDue(m: Mission, w: World, draws: SpawnDraws)
    ensures var r := HandleSpawning(m, w, draws);
      |r.1.enemies| > |w.enemies| <==>
        !Holding(m) && m.spawnTimer - DT <= 0.0 && Plan(m.phase).Some? && |w.enemies| <= EnemyCap
    ensures var r := HandleSpawning(m, w, draws);
      !Holding(m) && m.spawnTimer - DT <= 0.0 && m.phase in {Objective3, Final} && |w.enemies| <= EnemyCap ==>
        Plan(m.phase).value.baseCount <= |r.1.enemies| - |w.enemies| <= Plan(m.phase).value.baseCount + 1
  {
    var r := HandleSpawning(m, w, draws);
    if !Holding(m) && m.spawnTimer - DT <= 0.0 && Plan(m.phase).Some? && |w.enemies| <= EnemyCap {
      var plan := Plan(m.phase).value;
      var n := WaveSize(plan, draws.count);
      assert !QuotaReached(m.phase, m.phaseEnemiesSpawned) && n >= 1;
    }
  }
}
