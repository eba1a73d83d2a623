/** What the encounter keeps true from tick to tick while a game runs: the
    bookkeeping that ties the phase to the objectives done, the difficulty,
    the door, the repair progress, the spawn budget and the boss; and how
    far a single tick can move the phase machine. */
module EncounterRules {
  import opened Common
  import opened Entities
  import opened MissionState
  import opened Spawning
  import opened Encounter

  /** The mission's own bookkeeping in a running game. */
  predicate MissionValid(m: Mission)
  {
    && !m.gameOver
    && 0.0 < m.timer <= MissionDuration
    && m.objectivesCompleted == Completed(m.phase)
    && m.enemyHpScale == 1.0 + HpScaleStep * m.objectivesCompleted as real
    && (m.doorUnlocked <==> Rank(m.phase) >= Rank(Objective2))
    && m.enemyDmgBase == (if Rank(m.phase) >= Rank(Objective3) then 15 else 12)
    && m.enemySpeedBase == (if Rank(m.phase) >= Rank(Objective3) then 110.0 else 100.0)
    && 0.0 <= m.objectiveProgress < 1.0
    && (ObjectivePoint(m.phase).None? ==> m.objectiveProgress == 0.0)
    && (Rank(m.phase) <= Rank(Objective1) ==> m.phaseEnemiesSpawned <= Objective1Quota)
    && (m.phase == Objective2 ==> m.phaseEnemiesSpawned <= Objective2Quota)
    && (m.finalCountdown <==> m.phase == Final)
  }

  /** The world as the phase allows it: at most four players and 25
      enemies; a boss exactly during the boss fight, with 2000 maximum hit
      points, a phase between 0 and 3 and at most four adds per phase. */
  predicate WorldFits(m: Mission, w: World)
  {
    && |w.players| <= MaxPlayers
    && |w.enemies| <= EnemyLimit
    && (w.boss.Some? <==> m.phase == BossFight)
    && (w.boss.Some? ==>
          && w.boss.value.maxHp == BossMaxHp
          && 0 <= w.boss.value.phase <= 3
          && |w.enemies| <= 4 * w.boss.value.phase)
  }

  predicate Valid(g: GameState)
  {
    MissionValid(g.mission) && WorldFits(g.mission, g.world)
  }

  /** A new game of at most four players starts valid. */
  lemma StartIsValid(roster: seq<Recruit>, nextEnemyId: nat)
    requires |roster| <= MaxPlayers
    ensures Valid(CreateGameState(roster, nextEnemyId))
  {
  }

  /** A stage that keeps what `Keeps` names keeps the world fitting. */
  lemma KeepsFits(m: Mission, w: World, w': World)
    requires WorldFits(m, w) && Keeps(w, w')
    ensures WorldFits(m, w')
  {
  }

  /** The clock of a running tick that does not expire keeps the mission
      valid; only the intro can end in it. */
  lemma ClockKeepsValid(m: Mission)
    requires MissionValid(m) && m.phase != Cinematic && RunClock(m).timer > 0.0
    ensures MissionValid(Resume(RunClock(m)))
    ensures Rank(Resume(RunClock(m)).phase) <= Rank(m.phase) + 1
  {
  }

  /** The boss part of a tick keeps the game valid: a falling boss opens the
      final phase with the clock capped, a living one can only climb in
      phase, and its adds stay within four per phase. */
  lemma BossStepKeepsValid(m: Mission, w: World, s: Stages, adds: SpawnDraws)
    requires StagesKeep(s) && MissionValid(m) && WorldFits(m, w)
    ensures var r := BossStep(m, w, s, adds);
      MissionValid(r.0) && WorldFits(r.0, r.1)
  {
    var r := BossStep(m, w, s, adds);
    if w.boss.Some? {
      var b := w.boss.value;
      if b.hp > 0.0 {
        assert r.1.boss.Some?;
        var b' := r.1.boss.value;
        if b'.phase > b.phase {
          assert 4 * b.phase + 4 <= 4 * b'.phase;
        }
      }
    }
  }

  /** Spawning keeps the game valid: the quotas hold and the enemy count
      stays within 25, and nothing spawns during the boss fight. */
  lemma SpawningKeepsValid(m: Mission, w: World, draws: SpawnDraws)
    requires MissionValid(m) && WorldFits(m, w)
    ensures var r := HandleSpawning(m, w, draws);
      MissionValid(r.0) && WorldFits(r.0, r.1)
  {
    SpawningKeepsBudget(m, w, draws);
    var r := HandleSpawning(m, w, draws);
    if Rank(m.phase) <= Rank(Intro) {
      assert Holding(m);
    }
  }

  /** Completing an objective moves a valid game on to the next phase,
      still valid, unless it was the final repair. */
  lemma CompletionKeepsValid(m: Mission, w: World)
    requires MissionValid(m.(objectiveProgress := 0.0)) && WorldFits(m, w)
    requires ObjectivePoint(m.phase).Some?
    ensures var r := CompleteObjective(m, w);
      r.2.None? ==> MissionValid(r.0) && WorldFits(r.0, r.1)
  {
  }

  /** The objective step keeps the game valid unless it wins it. */
  lemma ObjectiveKeepsValid(m: Mission, w: World)
    requires MissionValid(m) && WorldFits(m, w)
    ensures var r := HandleObjective(m, w);
      r.2.None? ==> MissionValid(r.0) && WorldFits(r.0, r.1)
  {
    if ObjectivePoint(m.phase).Some? {
      var pt := ObjectivePoint(m.phase).value;
      var speed := RepairSpeed(w.players, m.phase, pt);
      var w1 := w.(players := CreditRepairs(w.players, m.phase, pt));
      assert WorldFits(m, w1);
      if speed > 0.0 {
        var m1 := m.(objectiveProgress := m.objectiveProgress + speed * DT);
        if m1.objectiveProgress >= 1.0 {
          assert m1.(objectiveProgress := 0.0) == m.(objectiveProgress := 0.0);
          CompletionKeepsValid(m1, w1);
        }
      }
    }
  }

  /** The weakpoint timer and the all-dead check keep the game valid unless
      the check ends it. */
  lemma WrapUpKeepsValid(m: Mission, w: World)
    requires MissionValid(m) && WorldFits(m, w)
    ensures WorldFits(m, WeakpointTick(w))
    ensures AllDownCheck(m, w).1.None? ==> AllDownCheck(m, w).0 == m
  {
  }

  /** The running part of a tick keeps the game valid unless it ends it. */
  lemma PlayKeepsValid(m: Mission, w: World, s: Stages, d: TickDraws)
    requires StagesKeep(s) && MissionValid(m) && WorldFits(m, w)
    ensures var t := Play(m, w, s, d);
      t.outcome.None? ==> Valid(t.game)
  {
    var w0 := PlayersFrom(w, s, d.respawn, 0);
    KeepsFits(m, w, w0);
    var w1 := s.enemies(w0);
    KeepsFits(m, w0, w1);
    BossStepKeepsValid(m, w1, s, d.adds);
    var b := BossStep(m, w1, s, d.adds);
    var wp := s.projectiles(b.1);
    KeepsFits(b.0, b.1, wp);
    var w2 := s.turrets(wp);
    KeepsFits(b.0, wp, w2);
    SpawningKeepsValid(b.0, w2, d.wave);
    var sp := HandleSpawning(b.0, w2, d.wave);
    ObjectiveKeepsValid(sp.0, sp.1);
    var ob := HandleObjective(sp.0, sp.1);
    if ob.2.None? {
      WrapUpKeepsValid(ob.0, ob.1);
      var w3 := WeakpointTick(ob.1);
      assert WorldFits(ob.0, w3);
    }
  }

  /** Every tick that does not end the game leaves it valid. */
  lemma TickKeepsValid(g: GameState, s: Stages, d: TickDraws)
    requires Valid(g) && StagesKeep(s)
    ensures var t := GameTick(g, s, d);
      t.outcome.None? ==> Valid(t.game)
  {
    if g.mission.phase != Cinematic && RunClock(g.mission).timer > 0.0 {
      ClockKeepsValid(g.mission);
      PlayKeepsValid(Resume(RunClock(g.mission)), g.world, s, d);
    }
  }

  /** With the repair just reset, one tick of repairing cannot finish an
      objective: four players at the fastest rate add only 4 * 0.05 / 30. */
  lemma NoCompletionFromScratch(m: Mission, w: World)
    requires m.objectiveProgress == 0.0 && |w.players| <= MaxPlayers
    ensures var r := HandleObjective(m, w);
      r.0.phase == m.phase && r.0.phaseTimer == m.phaseTimer && r.2.None?
  {
    if ObjectivePoint(m.phase).Some? {
      var speed := RepairSpeed(w.players, m.phase, ObjectivePoint(m.phase).value);
      assert speed * DT < 1.0;
    }
  }

  /** The objective step leaves the phase or moves it one step forward with
      a fresh phase clock; it restarts the clock in place only when it ends
      the game, or when the game was already over. */
  lemma ObjectiveStepsOnce(m: Mission, w: World)
    ensures var r := HandleObjective(m, w);
      || (r.0.phase == m.phase && (r.0.phaseTimer == m.phaseTimer || r.2.Some? || m.gameOver))
      || (m.phase != Final && r.0.phase == Next(m.phase) && r.0.phaseTimer == 0.0)
  {
    var r := HandleObjective(m, w);
    if ObjectivePoint(m.phase).Some? {
      var pt := ObjectivePoint(m.phase).value;
      var speed := RepairSpeed(w.players, m.phase, pt);
      var w1 := w.(players := CreditRepairs(w.players, m.phase, pt));
      if speed > 0.0 {
        var m1 := m.(objectiveProgress := m.objectiveProgress + speed * DT);
        if m1.objectiveProgress >= 1.0 {
          assert r == CompleteObjective(m1, w1);
        }
      }
    }
  }

  /** The closing steps of a tick move the phase forward by at most one
      step, only by completing a repair, and not at all right after a reset;
      if the phase stays and the game goes on, so does the phase timer. */
  lemma SettleAdvancesAtMostOne(m: Mission, w: World, d: TickDraws)
    requires !m.gameOver && |w.players| <= MaxPlayers
    ensures var t := Settle(m, w, d);
      && Rank(m.phase) <= Rank(t.game.mission.phase) <= Rank(m.phase) + 1
      && (m.objectiveProgress == 0.0 ==> t.game.mission.phase == m.phase)
      && (t.outcome.None? && t.game.mission.phase == m.phase ==> t.game.mission.phaseTimer == m.phaseTimer)
  {
    var sp := HandleSpawning(m, w, d.wave);
    ObjectiveStepsOnce(sp.0, sp.1);
    if m.objectiveProgress == 0.0 {
      NoCompletionFromScratch(sp.0, sp.1);
    }
  }

  /** The running part of a tick moves the phase forward by at most one
      step: the boss's fall resets the repair, so no repair completes in the
      same tick. With the repair just reset and no boss, the phase does not
      move at all; whenever it stays and the game goes on, the phase timer
      stays too. */
  lemma PlayAdvancesAtMostOne(m: Mission, w: World, s: Stages, d: TickDraws)
    requires StagesKeep(s) && MissionValid(m) && WorldFits(m, w)
    ensures var t := Play(m, w, s, d);
      && Rank(m.phase) <= Rank(t.game.mission.phase) <= Rank(m.phase) + 1
      && (m.objectiveProgress == 0.0 && m.phase != BossFight ==> t.game.mission.phase == m.phase)
      && (t.outcome.None? && t.game.mission.phase == m.phase ==> t.game.mission.phaseTimer == m.phaseTimer)
  {
    var w0 := PlayersFrom(w, s, d.respawn, 0);
    var w1 := s.enemies(w0);
    KeepsFits(m, w, w0);
    KeepsFits(m, w0, w1);
    var b := BossStep(m, w1, s, d.adds);
    var w2 := s.turrets(s.projectiles(b.1));
    if w1.boss.Some? && w1.boss.value.hp <= 0.0 {
      assert m.phase == BossFight && b.0.phase == Final && b.0.objectiveProgress == 0.0;
    } else {
      assert b.0 == m;
    }
    SettleAdvancesAtMostOne(b.0, w2, d);
  }

  /** A tick moves the phase machine forward by at most one phase and never
      back. */
  lemma TickAdvancesAtMostOne(g: GameState, s: Stages, d: TickDraws)
    requires Valid(g) && StagesKeep(s)
    ensures var t := GameTick(g, s, d);
      Rank(g.mission.phase) <= Rank(t.game.mission.phase) <= Rank(g.mission.phase) + 1
  {
    var m := g.mission;
    if m.phase != Cinematic && RunClock(m).timer > 0.0 {
      var c := Resume(RunClock(m));
      ClockKeepsValid(m);
      PlayAdvancesAtMostOne(c, g.world, s, d);
    }
  }

  /** In every tick after the cinematic that neither ends the game nor
      changes the phase, the phase timer runs twice: it gains two ticks. */
  lemma PhaseTimerRunsTwice(g: GameState, s: Stages, d: TickDraws)
    requires Valid(g) && StagesKeep(s) && g.mission.phase != Cinematic
    ensures var t := GameTick(g, s, d);
      t.outcome.None? && t.game.mission.phase == g.mission.phase ==>
        t.game.mission.phaseTimer == g.mission.phaseTimer + 2.0 * DT
  {
    var m := g.mission;
    if RunClock(m).timer > 0.0 {
      var c := Resume(RunClock(m));
      ClockKeepsValid(m);
      PlayAdvancesAtMostOne(c, g.world, s, d);
    }
  }

  /** Outside the third repair, whose completion brings the boss in, the
      objective step leaves the boss and the enemies alone. */
  lemma ObjectiveKeepsBoss(m: Mission, w: World)
    requires m.phase != Objective3
    ensures var r := HandleObjective(m, w);
      r.1.boss == w.boss && r.1.enemies == w.enemies
  {
  }

  /** The boss's phase never goes down from one tick to the next. */
  lemma BossPhaseNeverDecreases(g: GameState, s: Stages, d: TickDraws)
    requires Valid(g) && StagesKeep(s)
    ensures var t := GameTick(g, s, d);
      g.world.boss.Some? && t.game.world.boss.Some? ==>
        t.game.world.boss.value.phase >= g.world.boss.value.phase
  {
    var m := g.mission;
    if g.world.boss.Some? && m.phase != Cinematic && RunClock(m).timer > 0.0 {
      var c := Resume(RunClock(m));
      var w := g.world;
      var w0 := PlayersFrom(w, s, d.respawn, 0);
      var w1 := s.enemies(w0);
      var b := BossStep(c, w1, s, d.adds);
      var wp := s.projectiles(b.1);
      var w2 := s.turrets(wp);
      var sp := HandleSpawning(b.0, w2, d.wave);
      assert sp.1.boss == w2.boss && sp.0.phase == b.0.phase;
      assert sp.0.phase == BossFight || sp.1.boss.None?;
      ObjectiveKeepsBoss(sp.0, sp.1);
    }
  }
}
