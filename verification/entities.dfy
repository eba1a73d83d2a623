/** The records of a running game: players, enemies, the boss, and the world
    that holds them. Positions, timers and hit points are reals; damage
    amounts are whole numbers, as every damage source in the game is. */
module Entities {
  import opened Common
  import opened Roles

  /** Seconds per server tick (`1000 / 20` milliseconds). */
  const DT: real := 0.05

  /** A player's respawn timer: seconds left, or the source's `Infinity`
      (`Infinity - DT` is still `Infinity`, so it never runs out). */
  datatype Countdown = Timer(left: real) | Never

  /** The end-of-game tallies. */
  datatype PlayerScore = PlayerScore(damageDealt: real, healingDone: real, enemiesKilled: nat, repairsDone: real)

  const NoScore := PlayerScore(0.0, 0.0, 0, 0.0)

  /** A player in a running game. Of the player's input only the interact
      key is part of the model (it drives objective repair). */
  datatype Player = Player(
    id: nat, name: string, role: Role,
    x: real, y: real,
    hp: real, maxHp: real, alive: bool, respawnTimer: Countdown,
    attackCd: real, abilityCd: real, abilityActive: bool, abilityTimer: real,
    interact: bool, score: PlayerScore, combatTimer: real, speed: real)

  datatype EnemyKind = Grunt | Elite

  datatype Enemy = Enemy(
    id: nat, x: real, y: real, kind: EnemyKind,
    hp: real, maxHp: real, damage: int, speed: real, attackCd: real)

  /** The boss's state as far as the encounter rules read and write it. */
  datatype Boss = Boss(
    x: real, y: real, hp: real, maxHp: real, phase: int,
    attackCd: real, aggro: bool, aggroTimer: real, stunTimer: real)

  /** Everything on the map. `nextEnemyId` is the enemy id counter. */
  datatype World = World(
    players: seq<Player>, enemies: seq<Enemy>, boss: Option<Boss>,
    weakpointActive: bool, weakpointTimer: real, nextEnemyId: nat)
}
