/** The encounter: a new game's state, the phase machine driven by the
    server tick (cinematic, intro, three repair objectives, the boss fight,
    the final repair), the mission clock, objective repair, the boss's phase
    and death, and the guarded end of the game.

    The parts of a tick that move players, enemies, the boss and shots are
    stage functions handed in from outside (`Stages`); the rules here fix
    everything the tick decides itself. */
module Encounter {
  import opened Common
  import opened Roles
  import opened Entities
  import opened MissionState
  import opened Combat
  import opened Spawning

  const MaxPlayers: nat := 4
  const CinematicLength: real := 6.0
  const IntroLength: real := 15.0
  /** Seconds left on the clock once the boss falls, at most. */
  const FinalTimeCap: real := 60.0
  const BossMaxHp: real := 2000.0
  const AggroTime: real := 5.0
  const InteractRange: real := 80.0
  /** Repair score every player receives when an objective completes. */
  const RepairBonus: real := 50.0
  const HpScaleStep: real := 0.1
  const EnemyLimit: nat := 25

  // ----- A new game -----

  /** A lobby member entering the game with the role they picked. */
  datatype Recruit = Recruit(id: nat, name: string, role: Role)

  /** The i-th player's starting spot: four spots in the central corridor,
      reused from the fifth player on. */
  function SpawnPosition(i: nat): (real, real)
  {
    [(1500.0, 2100.0), (1572.0, 2100.0), (1500.0, 2190.0), (1572.0, 2190.0)][i % 4]
  }

  /** Up to four players never share a starting spot. */
  lemma SpawnPositionsDistinct(i: nat, j: nat)
    requires i < j < i + 4
    ensures SpawnPosition(i) != SpawnPosition(j)
  {
    var q := i / 4;
    assert i == 4 * q + i % 4;
    if j % 4 > i % 4 {
    } else {
      assert j >= 4 * q + 4;
    }
  }

  /** The i-th recruit as a fresh player: alive at full hit points of the
      role, at its starting spot, at the role's speed, with nothing on
      cooldown and an empty score. */
  function Enlist(r: Recruit, i: nat): (p: Player)
    ensures p.id == r.id && p.name == r.name && p.role == r.role
    ensures p.alive && p.hp == p.maxHp == Stats(r.role).hp as real && p.hp > 0.0
    ensures (p.x, p.y) == SpawnPosition(i) && p.speed == Stats(r.role).speed
    ensures p.respawnTimer == Timer(0.0) && p.score == NoScore && !p.abilityActive && !p.interact
  {
    var sp := SpawnPosition(i);
    var hp := Stats(r.role).hp as real;
    Player(r.id, r.name, r.role, sp.0, sp.1, hp, hp, true, Timer(0.0),
           0.0, 0.0, false, 0.0, false, NoScore, 0.0, Stats(r.role).speed)
  }

  /** The mission at the start of a game: the cinematic, ten minutes on the
      clock, nothing repaired, base difficulty. */
  function StartingMission(): (m: Mission)
    ensures m.phase == Cinematic && m.timer == MissionDuration && !m.gameOver
    ensures m.objectivesCompleted == 0 && m.enemyHpScale == 1.0
    ensures m.enemyDmgBase == 12 && m.enemySpeedBase == 100.0
  {
    Mission(Cinematic, MissionDuration, 0.0, 0.0, 0, false, false, 0.0, 3, 0, 1.0, 12, 100.0, false, false)
  }

  /** `createGameState`: one fresh player per recruit, in roster order, no
      enemies and no boss. The enemy id counter is shared by every room of
      the server, so it comes in as a parameter. */
  function CreateGameState(roster: seq<Recruit>, nextEnemyId: nat): (g: GameState)
    ensures |g.world.players| == |roster|
    ensures forall i :: 0 <= i < |roster| ==> g.world.players[i] == Enlist(roster[i], i)
    ensures g.world.enemies == [] && g.world.boss.None? && !g.world.weakpointActive
    ensures g.mission == StartingMission()
  {
    var players := seq(|roster|, i requires 0 <= i < |roster| => Enlist(roster[i], i));
    GameState(StartingMission(), World(players, [], None, false, 0.0, nextEnemyId))
  }

  // ----- The end of the game -----

  /** `endGame`: the first call ends the game with the given outcome; once
      the game is over, later calls change nothing and report nothing. */
  function EndGame(m: Mission, victory: bool): (r: (Mission, Option<bool>))
    ensures r.0 == m.(gameOver := true)
    ensures r.1.Some? <==> !m.gameOver
    ensures r.1.Some? ==> r.1.value == victory
  {
    if m.gameOver then (m, None) else (m.(gameOver := true), Some(victory))
  }

  /** `endGame` takes effect at most once: whatever the second call asks
      for, it reports nothing and leaves the mission as the first left it. */
  lemma EndGameTakesEffectOnce(m: Mission, first: bool, second: bool)
    ensures var once := EndGame(m, first).0;
      EndGame(once, second) == (once, None)
  {
  }

  // ----- Objectives -----

  /** Where the current phase's repair happens: the source's objective
      positions times the map scale of 3. Phases without a repair have none. */
  function ObjectivePoint(p: Phase): (o: Option<(real, real)>)
    ensures o.Some? <==> p in {Objective1, Objective2, Objective3, Final}
  {
    match p
    case Objective1 => Some((1536.0, 600.0))
    case Objective2 => Some((750.0, 1470.0))
    case Objective3 => Some((2322.0, 1470.0))
    case Final => Some((1536.0, 2610.0))
    case _ => None
  }

  /** Objectives completed by the time a game reaches phase p. */
  function Completed(p: Phase): (n: nat)
    ensures n <= 3
    ensures Rank(p) <= Rank(Objective1) <==> n == 0
  {
    match p
    case Cinematic => 0
    case Intro => 0
    case Objective1 => 0
    case Objective2 => 1
    case Objective3 => 2
    case BossFight => 3
    case Final => 3
  }

  /** A live player holding the interact key within 80 units of the
      objective (the source compares the distance; its square is compared
      here, which agrees for the non-negative values involved). */
  predicate Repairing(p: Player, pt: (real, real))
  {
    p.alive && p.interact
    && (p.x - pt.0) * (p.x - pt.0) + (p.y - pt.1) * (p.y - pt.1) <= InteractRange * InteractRange
  }

  /** Objective progress per second one repairing player adds: an engineer
      finishes alone in 45 seconds on objective 2 and 30 elsewhere, anyone
      else in 75 and 45. */
  function RepairRate(phase: Phase, role: Role): (r: real)
    ensures 0.0 < r <= 1.0 / 30.0
  {
    if phase == Objective2 then (if role == Engineer then 1.0 / 45.0 else 1.0 / 75.0)
    else (if role == Engineer then 1.0 / 30.0 else 1.0 / 45.0)
  }

  /** The repair score one tick of repairing earns. */
  function RepairCredit(phase: Phase, role: Role): (c: real)
  {
    if role == Engineer then DT
    else if phase == Objective2 then DT * (45.0 / 75.0)
    else DT * (30.0 / 45.0)
  }

  /** A tick's repair credit is a tick's length scaled by the player's
      repair rate relative to an engineer's, so an engineer earns exactly
      DT and everyone else less. */
  lemma RepairCreditIsRelativeRate(phase: Phase, role: Role)
    ensures RepairCredit(phase, role) == DT * RepairRate(phase, role) / RepairRate(phase, Engineer)
    ensures 0.0 < RepairCredit(phase, role) <= DT
  {
  }

  /** The summed repair rate of everyone repairing. */
  function RepairSpeed(ps: seq<Player>, phase: Phase, pt: (real, real)): (s: real)
    ensures 0.0 <= s <= |ps| as real / 30.0
    ensures s > 0.0 <==> exists j :: 0 <= j < |ps| && Repairing(ps[j], pt)
  {
    if |ps| == 0 then 0.0
    else
      var rest := RepairSpeed(ps[..|ps| - 1], phase, pt);
      assert forall j :: 0 <= j < |ps| - 1 ==> ps[..|ps| - 1][j] == ps[j];
      rest + (if Repairing(ps[|ps| - 1], pt) then RepairRate(phase, ps[|ps| - 1].role) else 0.0)
  }

  /** Each repairing player's repair score grows by their credit; everyone
      else is untouched. */
  function CreditRepairs(ps: seq<Player>, phase: Phase, pt: (real, real)): (r: seq<Player>)
    ensures |r| == |ps|
    ensures forall j :: 0 <= j < |ps| && !Repairing(ps[j], pt) ==> r[j] == ps[j]
    ensures forall j :: 0 <= j < |ps| && Repairing(ps[j], pt) ==>
      r[j] == ps[j].(score := ps[j].score.(repairsDone := r[j].score.repairsDone))
      && ps[j].score.repairsDone < r[j].score.repairsDone <= ps[j].score.repairsDone + DT
  {
    seq(|ps|, j requires 0 <= j < |ps| =>
      if Repairing(ps[j], pt)
      then ps[j].(score := ps[j].score.(repairsDone := ps[j].score.repairsDone + RepairCredit(phase, ps[j].role)))
      else ps[j])
  }

  /** Every player's repair score grows by `bonus`, nothing else changes. */
  function AwardRepairs(ps: seq<Player>, bonus: real): (r: seq<Player>)
    ensures |r| == |ps|
    ensures forall j :: 0 <= j < |ps| ==>
      r[j] == ps[j].(score := ps[j].score.(repairsDone := r[j].score.repairsDone))
      && r[j].score.repairsDone - ps[j].score.repairsDone == bonus
  {
    seq(|ps|, j requires 0 <= j < |ps| =>
      ps[j].(score := ps[j].score.(repairsDone := ps[j].score.repairsDone + bonus)))
  }

  /** The boss as it appears when objective 3 is done. */
  const FreshBoss := Boss(1100.0, 250.0, BossMaxHp, BossMaxHp, 0, 2.0, false, 0.0, 0.0)

  /** `completeObjective`: the repair resets, one more objective counts, the
      enemies grow 10% tougher, the phase's clock and spawn budget restart
      and every player earns 50 repair points. Then objective 1 unlocks the
      door, objective 2 hardens and speeds up the grunts, objective 3 brings
      the boss and clears every enemy, and the final repair wins the game. */
  function CompleteObjective(m: Mission, w: World): (r: (Mission, World, Option<bool>))
    ensures r.0.objectiveProgress == 0.0 && r.0.phaseTimer == 0.0
    ensures r.0.phaseEnemiesSpawned == 0 && !r.0.phaseWarningSent
    ensures r.0.objectivesCompleted == m.objectivesCompleted + 1
    ensures r.0.enemyHpScale == m.enemyHpScale + HpScaleStep
    ensures m.phase in {Objective1, Objective2, Objective3} ==> r.0.phase == Next(m.phase) && r.2.None?
    ensures m.phase == Objective1 ==> r.0.doorUnlocked && r.0.enemyDmgBase == 12
    ensures m.phase == Objective2 ==> r.0.enemyDmgBase == 15 && r.0.enemySpeedBase == 110.0
    ensures m.phase == Objective3 ==> r.1.boss == Some(FreshBoss) && r.1.enemies == []
    ensures m.phase != Objective3 ==> r.1.boss == w.boss && r.1.enemies == w.enemies
    ensures m.phase == Final ==> r.0.phase == Final && r.0.gameOver && (r.2.Some? <==> !m.gameOver)
    ensures m.phase == Final && r.2.Some? ==> r.2.value
    ensures m.phase != Final ==> r.0.gameOver == m.gameOver && r.2.None?
    ensures r.1.players == AwardRepairs(w.players, RepairBonus)
    ensures r.1 == w.(players := r.1.players, boss := r.1.boss, enemies := r.1.enemies)
  {
    var m1 := m.(objectiveProgress := 0.0, objectivesCompleted := m.objectivesCompleted + 1,
                 enemyHpScale := m.enemyHpScale + HpScaleStep, phaseTimer := 0.0,
                 phaseEnemiesSpawned := 0, phaseWarningSent := false);
    var w1 := w.(players := AwardRepairs(w.players, RepairBonus));
    match m.phase
    case Objective1 => (m1.(doorUnlocked := true, phase := Objective2, enemyDmgBase := 12), w1, None)
    case Objective2 => (m1.(phase := Objective3, enemyDmgBase := 15, enemySpeedBase := 110.0), w1, None)
    case Objective3 => (m1.(phase := BossFight, bossPhaseThreshold := 3), w1.(boss := Some(FreshBoss), enemies := []), None)
    case Final =>
      var e := EndGame(m1, true);
      (e.0, w1, e.1)
    case _ => (m1, w1, None)
  }

  /** `handleObjective`: in a phase with a repair, everyone repairing adds
      their rate for one tick to the progress and earns their credit; at
      progress 1 the objective completes. */
  function HandleObjective(m: Mission, w: World): (r: (Mission, World, Option<bool>))
    ensures ObjectivePoint(m.phase).None? ==> r == (m, w, None)
    ensures r.2.Some? ==> m.phase == Final && r.2.value
    ensures |r.1.players| == |w.players|
  {
    match ObjectivePoint(m.phase)
    case None => (m, w, None)
    case Some(pt) =>
      var speed := RepairSpeed(w.players, m.phase, pt);
      var w1 := w.(players := CreditRepairs(w.players, m.phase, pt));
      if speed > 0.0 then
        var m1 := m.(objectiveProgress := m.objectiveProgress + speed * DT);
        if m1.objectiveProgress >= 1.0 then CompleteObjective(m1, w1) else (m1, w1, None)
      else (m, w1, None)
  }

  /** An objective completes exactly when this tick's repairing brings the
      progress to 1; otherwise the progress has grown by the summed rates of
      the players repairing, and stays below 1. */
  lemma ObjectiveCompletesAtOne(m: Mission, w: World)
    requires ObjectivePoint(m.phase).Some? && 0.0 <= m.objectiveProgress < 1.0
    ensures var r := HandleObjective(m, w);
      var reached := m.objectiveProgress + RepairSpeed(w.players, m.phase, ObjectivePoint(m.phase).value) * DT;
      && (r.0.objectivesCompleted == m.objectivesCompleted + 1 <==> reached >= 1.0)
      && (reached < 1.0 ==> r.0 == m.(objectiveProgress := reached) && r.0.objectiveProgress < 1.0)
  {
  }

  /** However many players crowd the objective, one tick moves the progress
      by at most a thirtieth of a second's worth per player. */
  lemma RepairIsBounded(m: Mission, w: World)
    requires ObjectivePoint(m.phase).Some?
    ensures RepairSpeed(w.players, m.phase, ObjectivePoint(m.phase).value) * DT
            <= |w.players| as real * DT / 30.0
  {
  }

  // ----- The boss -----

  /** `Math.floor((1 - hp / maxHp) * 4)`: 0 at full health, one more for
      every quarter of the hit points lost. */
  function BossPhaseOf(b: Boss): (n: int)
    requires b.maxHp > 0.0
    ensures b.hp > 0.0 ==> n <= 3
    ensures b.hp <= b.maxHp ==> n >= 0
  {
    var n := ((1.0 - b.hp / b.maxHp) * 4.0).Floor;
    assert n as real <= (1.0 - b.hp / b.maxHp) * 4.0;
    n
  }

  /** Losing hit points never lowers the boss's phase. */
  lemma BossPhaseMonotone(b: Boss, hp: real)
    requires b.maxHp > 0.0 && hp <= b.hp
    ensures BossPhaseOf(b.(hp := hp)) >= BossPhaseOf(b)
  {
    var x := (1.0 - b.hp / b.maxHp) * 4.0;
    var y := (1.0 - hp / b.maxHp) * 4.0;
    assert hp / b.maxHp <= b.hp / b.maxHp by {
      MulRightMonoDiv(hp, b.hp, b.maxHp);
    }
    assert x <= y;
    assert BossPhaseOf(b) as real <= x;
  }

  lemma MulRightMonoDiv(a: real, b: real, c: real)
    requires a <= b && c > 0.0
    ensures a / c <= b / c
  {
  }

  /** The number of adds an enraged boss calls: `3 + Math.floor(r * 2)`. */
  function AddCount(r: Unit): (n: nat)
    ensures 3 <= n <= 4
  {
    var extra := (r * 2.0).Floor;
    assert 0 <= extra <= 1 by { assert extra as real <= r * 2.0 < 2.0; }
    3 + extra
  }

  /** One add: a grunt exactly on a spawn point of the boss area. */
  function BossAdd(id: nat, r: EnemyDraw, d: Difficulty): (e: Enemy)
    ensures e.id == id && e.kind == Grunt && (e.x, e.y) in SpawnPoints(BossAdds)
    ensures SpawnedAsScaled(e, d.hpScale, false)
  {
    var sp := PickPoint(BossAdds, r.point);
    NewEnemy(id, sp.0, sp.1, false, d)
  }

  /** The adds of an enraged boss, appended with consecutive ids. */
  function SpawnAdds(w: World, d: Difficulty, draws: SpawnDraws): (w': World)
    ensures |w.enemies| + 3 <= |w'.enemies| <= |w.enemies| + 4
    ensures w'.enemies[..|w.enemies|] == w.enemies
    ensures AllSpawnedAsScaled(w'.enemies[|w.enemies|..], d.hpScale, false)
    ensures w' == w.(enemies := w'.enemies, nextEnemyId := w.nextEnemyId + (|w'.enemies| - |w.enemies|))
  {
    var n := AddCount(draws.count);
    var added := seq(n, j requires 0 <= j < n => BossAdd(w.nextEnemyId + j, draws.enemy(j), d));
    assert AllSpawnedAsScaled(added, d.hpScale, false) by {
      forall j | 0 <= j < n
        ensures SpawnedAsScaled(added[j], d.hpScale, false)
      {
        var e := BossAdd(w.nextEnemyId + j, draws.enemy(j), d);
        assert added[j] == e;
      }
    }
    assert (w.enemies + added)[|w.enemies|..] == added;
    assert (w.enemies + added)[..|w.enemies|] == w.enemies;
    w.(enemies := w.enemies + added, nextEnemyId := w.nextEnemyId + n)
  }

  /** The mission once the boss falls: the final phase with a fresh repair,
      the final countdown on, and at most a minute left. */
  function BossDefeated(m: Mission): (m': Mission)
    ensures m'.phase == Final && m'.finalCountdown && m'.phaseTimer == 0.0 && m'.objectiveProgress == 0.0
    ensures m'.timer <= FinalTimeCap && m'.timer <= m.timer
    ensures m'.timer == m.timer || m'.timer == FinalTimeCap
    ensures m' == m.(phase := Final, phaseTimer := 0.0, objectiveProgress := 0.0, finalCountdown := true, timer := m'.timer)
  {
    m.(phase := Final, phaseTimer := 0.0, objectiveProgress := 0.0, finalCountdown := true,
       timer := Min(m.timer, FinalTimeCap))
  }

  /** The enraged boss's countdown: it calms down once five seconds pass. */
  function Calm(b: Boss): (b': Boss)
    ensures !b.aggro ==> b' == b
    ensures b.aggro ==> b' == b.(aggroTimer := b.aggroTimer - DT, aggro := b.aggroTimer - DT > 0.0)
  {
    if b.aggro then b.(aggroTimer := b.aggroTimer - DT, aggro := !(b.aggroTimer - DT <= 0.0)) else b
  }

  /** The first part of `updateBoss`: a dead boss is removed and the final
      phase begins; a living one that has crossed into a new quarter of lost
      hit points takes the new phase, becomes enraged for five seconds and
      calls three or four adds. */
  function BossStatus(m: Mission, w: World, adds: SpawnDraws): (r: (Mission, World))
    requires w.boss.Some? && w.boss.value.maxHp > 0.0
    ensures w.boss.value.hp <= 0.0 ==> r == (BossDefeated(m), w.(boss := None))
    ensures w.boss.value.hp > 0.0 ==> r.0 == m && r.1.boss.Some?
    ensures r.1.boss.Some? ==>
      && r.1.boss.value.phase == Max(w.boss.value.phase as real, BossPhaseOf(w.boss.value) as real) as int
      && r.1.boss.value.maxHp == w.boss.value.maxHp && r.1.boss.value.hp == w.boss.value.hp
    ensures r.1.boss.Some? && r.1.boss.value.phase == w.boss.value.phase ==> r.1.enemies == w.enemies
    ensures r.1.boss.Some? && r.1.boss.value.phase > w.boss.value.phase ==>
      |w.enemies| + 3 <= |r.1.enemies| <= |w.enemies| + 4
    ensures r.1.boss.None? ==> r.1.enemies == w.enemies
    ensures r.1 == w.(boss := r.1.boss, enemies := r.1.enemies, nextEnemyId := r.1.nextEnemyId)
  {
    var b := w.boss.value;
    if b.hp <= 0.0 then (BossDefeated(m), w.(boss := None))
    else
      var current := BossPhaseOf(b);
      if current > b.phase then
        var w1 := SpawnAdds(w, DifficultyOf(m), adds);
        (m, w1.(boss := Some(Calm(b.(phase := current, aggro := true, aggroTimer := AggroTime)))))
      else (m, w.(boss := Some(Calm(b))))
  }

  // ----- The tick -----

  /** The parts of a tick this model leaves abstract: `updatePlayer` for
      the i-th live player, `updateEnemies`, the rest of `updateBoss`
      (targeting, attacks, movement), `updateProjectiles` and
      `updateTurrets`. */
  datatype Stages = Stages(
    player: (World, nat) -> World,
    enemies: World -> World,
    bossAi: World -> World,
    projectiles: World -> World,
    turrets: World -> World)

  /** What every stage of the source respects: players are neither added
      nor removed, enemies are only ever removed, and the boss is neither
      created, removed nor moved to another phase. */
  predicate Keeps(w: World, w': World)
  {
    && |w'.players| == |w.players|
    && |w'.enemies| <= |w.enemies|
    && (w'.boss.Some? <==> w.boss.Some?)
    && (w.boss.Some? && w'.boss.Some? ==>
          w'.boss.value.phase == w.boss.value.phase && w'.boss.value.maxHp == w.boss.value.maxHp)
  }

  ghost predicate StagesKeep(s: Stages)
  {
    && (forall w, i :: Keeps(w, s.player(w, i)))
    && (forall w :: Keeps(w, s.enemies(w)))
    && (forall w :: Keeps(w, s.bossAi(w)))
    && (forall w :: Keeps(w, s.projectiles(w)))
    && (forall w :: Keeps(w, s.turrets(w)))
  }

  /** The random draws of one tick: each player's respawn spot, the wave,
      and the boss's adds. */
  datatype TickDraws = TickDraws(respawn: nat -> (Unit, Unit), wave: SpawnDraws, adds: SpawnDraws)

  /** The player loop of `gameTick` from the i-th player on: a dead player's
      respawn timer runs, a live one is updated. */
  function PlayersFrom(w: World, s: Stages, respawn: nat -> (Unit, Unit), i: nat): (r: World)
    requires StagesKeep(s)
    ensures Keeps(w, r)
    decreases |w.players| - i
  {
    if i >= |w.players| then w
    else
      var p := w.players[i];
      var w1 := if p.alive then s.player(w, i)
                else w.(players := w.players[i := RespawnTick(p, respawn(i).0, respawn(i).1)]);
      PlayersFrom(w1, s, respawn, i + 1)
  }

  /** The boss part of the tick: the boss's status and, while it lives,
      the rest of its behaviour. */
  function BossStep(m: Mission, w: World, s: Stages, adds: SpawnDraws): (r: (Mission, World))
    requires StagesKeep(s)
    requires w.boss.Some? ==> w.boss.value.maxHp > 0.0
    ensures w.boss.None? ==> r == (m, w)
    ensures w.boss.Some? && w.boss.value.hp <= 0.0 ==>
      r.0 == BossDefeated(m) && r.1.boss.None? && r.1.enemies == w.enemies
    ensures w.boss.Some? && w.boss.value.hp > 0.0 ==>
      && r.0 == m && r.1.boss.Some?
      && w.boss.value.phase <= r.1.boss.value.phase <= Max(w.boss.value.phase as real, 3.0) as int
      && r.1.boss.value.maxHp == w.boss.value.maxHp
      && (r.1.boss.value.phase == w.boss.value.phase ==> |r.1.enemies| <= |w.enemies|)
      && |r.1.enemies| <= |w.enemies| + 4
    ensures |r.1.players| == |w.players|
  {
    if w.boss.None? then (m, w)
    else
      var st := BossStatus(m, w, adds);
      if st.1.boss.Some? then (st.0, s.bossAi(st.1)) else st
  }

  /** The weakpoint window closes once its timer runs out. */
  function WeakpointTick(w: World): (w': World)
    ensures w' == w.(weakpointActive := w'.weakpointActive, weakpointTimer := w'.weakpointTimer)
    ensures !w.weakpointActive ==> w' == w
    ensures w.weakpointActive ==> w'.weakpointTimer == w.weakpointTimer - DT
    ensures w'.weakpointActive <==> w.weakpointActive && w.weakpointTimer - DT > 0.0
  {
    if w.weakpointActive then
      var t := w.weakpointTimer - DT;
      w.(weakpointTimer := t, weakpointActive := !(t <= 0.0))
    else w
  }

  /** A player who will play on: alive, or dead with a running respawn
      timer (a boss kill's `Infinity` timer is not running). */
  predicate StillIn(p: Player)
  {
    p.alive || (p.respawnTimer.Timer? && p.respawnTimer.left > 0.0)
  }

  /** The all-dead check at the end of a tick: nobody alive and nobody
      respawning loses the game. */
  function AllDownCheck(m: Mission, w: World): (r: (Mission, Option<bool>))
    ensures (exists j :: 0 <= j < |w.players| && StillIn(w.players[j])) ==> r == (m, None)
    ensures (forall j :: 0 <= j < |w.players| ==> !StillIn(w.players[j])) ==> r == EndGame(m, false)
  {
    if forall j :: 0 <= j < |w.players| ==> !StillIn(w.players[j]) then EndGame(m, false) else (m, None)
  }

  /** The cinematic tick: only the phase clock runs, and after six seconds
      the intro begins. */
  function CinematicTick(m: Mission): (m': Mission)
    requires m.phase == Cinematic
    ensures m' == m.(phase := m'.phase, phaseTimer := m'.phaseTimer)
    ensures m'.phase == (if m.phaseTimer + DT >= CinematicLength then Intro else Cinematic)
    ensures m'.phase == Intro ==> m'.phaseTimer == 0.0
    ensures m'.phase == Cinematic ==> m'.phaseTimer == m.phaseTimer + DT
  {
    var t := m.phaseTimer + DT;
    if t >= CinematicLength then m.(phase := Intro, phaseTimer := 0.0) else m.(phaseTimer := t)
  }

  /** The clock after a tick's countdown: one tick off the mission timer and
      one on the phase timer. */
  function RunClock(m: Mission): (m': Mission)
    ensures m' == m.(timer := m.timer - DT, phaseTimer := m.phaseTimer + DT)
  {
    m.(timer := m.timer - DT, phaseTimer := m.phaseTimer + DT)
  }

  /** The rest of the clock for a game still running: the phase timer runs
      a second time, and the intro ends after fifteen seconds. */
  function Resume(m: Mission): (m': Mission)
    ensures m' == m.(phase := m'.phase, phaseTimer := m'.phaseTimer)
    ensures m'.phase == (if m.phase == Intro && m.phaseTimer + DT >= IntroLength then Objective1 else m.phase)
    ensures m'.phaseTimer == (if m'.phase != m.phase then 0.0 else m.phaseTimer + DT)
  {
    var t := m.phaseTimer + DT;
    if m.phase == Intro && t >= IntroLength then m.(phase := Objective1, phaseTimer := 0.0)
    else m.(phaseTimer := t)
  }

  /** The outcome of a tick, if the game ended in it, and the state after. */
  datatype Tick = Tick(game: GameState, outcome: Option<bool>)

  /** The rule steps that close a running tick, in the source's order:
      spawning, the objective, the weakpoint and the all-dead check. A
      victory won at the objective stands even though the check runs too. */
  function Settle(m: Mission, w: World, d: TickDraws): (t: Tick)
    ensures t.outcome.Some? ==> t.game.mission.gameOver && !m.gameOver
    ensures !m.gameOver && t.outcome.None? ==>
      exists j :: 0 <= j < |t.game.world.players| && StillIn(t.game.world.players[j])
    ensures |t.game.world.players| == |w.players|
  {
    var sp := HandleSpawning(m, w, d.wave);
    var ob := HandleObjective(sp.0, sp.1);
    var w1 := WeakpointTick(ob.1);
    var down := AllDownCheck(ob.0, w1);
    Tick(GameState(down.0, w1), if ob.2.Some? then ob.2 else down.1)
  }

  /** A running tick: the players, the enemies, the boss, the projectiles
      and the turrets in turn, then the closing rule steps. */
  function Play(m: Mission, w: World, s: Stages, d: TickDraws): (t: Tick)
    requires StagesKeep(s)
    requires w.boss.Some? ==> w.boss.value.maxHp > 0.0
    ensures t.outcome.Some? ==> t.game.mission.gameOver && !m.gameOver
    ensures !m.gameOver && t.outcome.None? ==>
      exists j :: 0 <= j < |t.game.world.players| && StillIn(t.game.world.players[j])
    ensures |t.game.world.players| == |w.players|
  {
    var w1 := s.enemies(PlayersFrom(w, s, d.respawn, 0));
    var b := BossStep(m, w1, s, d.adds);
    Settle(b.0, s.turrets(s.projectiles(b.1)), d)
  }

  /** `gameTick`. The cinematic only runs the phase clock. Otherwise the
      mission timer runs down and the phase timer up, the game is lost the
      moment the timer reaches zero, and the phase timer runs up a second
      time before the rest of the tick. */
  function GameTick(g: GameState, s: Stages, d: TickDraws): (t: Tick)
    requires StagesKeep(s)
    requires g.world.boss.Some? ==> g.world.boss.value.maxHp > 0.0
    ensures g.mission.phase == Cinematic ==>
      t == Tick(GameState(CinematicTick(g.mission), g.world), None)
    ensures g.mission.phase != Cinematic && g.mission.timer - DT <= 0.0 ==>
      t.game.mission.timer == 0.0 && t.game.world == g.world
      && t.outcome == (if g.mission.gameOver then None else Some(false))
    ensures t.outcome.Some? ==> t.game.mission.gameOver && !g.mission.gameOver
    ensures g.mission.phase != Cinematic && !g.mission.gameOver && t.outcome.None? ==>
      exists j :: 0 <= j < |t.game.world.players| && StillIn(t.game.world.players[j])
  {
    var m := g.mission;
    if m.phase == Cinematic then Tick(GameState(CinematicTick(m), g.world), None)
    else
      var c := RunClock(m);
      if c.timer <= 0.0 then
        var e := EndGame(c.(timer := 0.0), false);
        Tick(GameState(e.0, g.world), e.1)
      else Play(Resume(c), g.world, s, d)
  }
}
