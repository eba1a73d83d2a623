/** Hit-point bookkeeping: damage reduction, hits and deaths, heals (the
    medic's beam and Field Surge), the respawn countdown and respawn, damage
    dealt to enemies and the boss, and the angle helper of the melee cone. */
module Combat {
  import opened Common
  import opened Roles
  import opened Geometry
  import opened Entities

  const RespawnTime: real := 5.0
  /** Seconds a player counts as "in combat" after being hit or attacking. */
  const CombatTime: real := 3.0
  const HealRange: real := 200.0
  /** The medic beam heals 20 HP per second, applied every tick. */
  const BeamHeal: real := 20.0 * DT
  const VanguardRegen: real := 5.0 * DT
  const SurgeRange: real := 300.0
  const SurgeHeal: real := 60.0
  const SurgeDuration: real := 4.0
  const AbilityCooldown: real := 30.0
  /** `Math.PI` as a double. */
  const Pi: real := 3.141592653589793

  /** A vanguard or medic whose ability is running takes 30% less damage. */
  predicate Shielded(p: Player)
  {
    HasDamageReduction(p.role) && p.abilityActive
  }

  /** Damage actually taken from a hit of `dmg`: `Math.floor(dmg * 0.7)`
      when shielded. */
  function DamageTaken(p: Player, dmg: int): (d: int)
    ensures !Shielded(p) ==> d == dmg
    ensures Shielded(p) ==> 10 * d <= 7 * dmg < 10 * d + 10
    ensures 0 <= dmg ==> 0 <= d <= dmg
  {
    if Shielded(p) then
      var d := (dmg as real * 0.7).Floor;
      assert d as real <= dmg as real * 0.7 < d as real + 1.0;
      d
    else dmg
  }

  /** Who dealt a hit to a player: an enemy's melee swing, the boss's
      charge, or a hostile (boss) projectile. */
  datatype HitSource = EnemyMelee | BossCharge | HostileProjectile

  /** The respawn timer a hit from `src` leaves on a player it kills: the
      normal five seconds for enemy melee, never for the boss's attacks. */
  function DeathTimer(src: HitSource): Countdown
  {
    if src == EnemyMelee then Timer(RespawnTime) else Never
  }

  /** A hit on a live player: hit points drop by the damage taken, the combat
      timer restarts, and a player brought to zero or below is set to 0 HP,
      marked dead and given the source's respawn timer. */
  function ApplyHit(p: Player, dmg: int, src: HitSource): (q: Player)
    requires p.alive
    ensures q.hp >= 0.0
    ensures q.alive <==> p.hp - DamageTaken(p, dmg) as real > 0.0
    ensures q.alive ==> q.hp == p.hp - DamageTaken(p, dmg) as real && q.respawnTimer == p.respawnTimer
    ensures !q.alive ==> q.hp == 0.0 && q.respawnTimer == DeathTimer(src)
    ensures q == p.(hp := q.hp, alive := q.alive, respawnTimer := q.respawnTimer, combatTimer := CombatTime)
  {
    var hp := p.hp - DamageTaken(p, dmg) as real;
    var hit := p.(hp := hp, combatTimer := CombatTime);
    if hp <= 0.0 then hit.(hp := 0.0, alive := false, respawnTimer := DeathTimer(src)) else hit
  }

  /** `hp = Math.min(maxHp, hp + amount)`. */
  function Heal(p: Player, amount: real): (q: Player)
    ensures q.hp <= p.maxHp
    ensures 0.0 <= amount && p.hp <= p.maxHp ==> p.hp <= q.hp
    ensures p.hp + amount <= p.maxHp ==> q.hp == p.hp + amount
    ensures q == p.(hp := q.hp)
  {
    p.(hp := Min(p.maxHp, p.hp + amount))
  }

  /** The vanguard's passive: 5 HP per second while in combat, never above
      the maximum. */
  function RegenTick(p: Player): (q: Player)
    ensures q.hp <= Max(p.hp, p.maxHp)
    ensures p.hp <= q.hp
    ensures p.hp < q.hp <==> p.role == Vanguard && p.combatTimer > 0.0 && p.hp < p.maxHp
    ensures q == p.(hp := q.hp)
  {
    if p.role == Vanguard && p.combatTimer > 0.0 && p.hp < p.maxHp then Heal(p, VanguardRegen) else p
  }

  /** A player the medic's beam may heal: someone else, alive, hurt, and
      strictly within heal range. */
  predicate BeamCandidate(healer: Player, p: Player)
  {
    p.id != healer.id && p.alive && p.hp < p.maxHp && WithinDistance(healer.x - p.x, healer.y - p.y, HealRange)
  }

  function BeamMask(players: seq<Player>, h: int): (m: seq<bool>)
    requires 0 <= h < |players|
    ensures |m| == |players|
    ensures forall j :: 0 <= j < |players| ==> m[j] == BeamCandidate(players[h], players[j])
  {
    seq(|players|, j requires 0 <= j < |players| => BeamCandidate(players[h], players[j]))
  }

  function DistancesFrom(players: seq<Player>, h: int): (d: seq<real>)
    requires 0 <= h < |players|
    ensures |d| == |players|
    ensures forall j :: 0 <= j < |players| ==>
      d[j] == SquaredDistance(players[h].x, players[h].y, players[j].x, players[j].y)
  {
    seq(|players|, j requires 0 <= j < |players| =>
      SquaredDistance(players[h].x, players[h].y, players[j].x, players[j].y))
  }

  /** Whom the beam of the medic at position h heals: the first candidate,
      in player order, at the least distance. */
  function BeamTarget(players: seq<Player>, h: int): (t: Option<int>)
    requires 0 <= h < |players|
    ensures t.Some? ==> 0 <= t.value < |players| && t.value != h && BeamCandidate(players[h], players[t.value])
    ensures t.None? <==> forall j :: 0 <= j < |players| ==> !BeamCandidate(players[h], players[j])
    ensures t.Some? ==> forall j :: 0 <= j < |players| && BeamCandidate(players[h], players[j]) ==>
      SquaredDistance(players[h].x, players[h].y, players[t.value].x, players[t.value].y)
        <= SquaredDistance(players[h].x, players[h].y, players[j].x, players[j].y)
  {
    FirstNearest(BeamMask(players, h), DistancesFrom(players, h))
  }

  /** No candidate earlier in player order is as near as the one healed. */
  lemma BeamTargetIsFirstNearest(players: seq<Player>, h: int)
    requires 0 <= h < |players|
    ensures var t := BeamTarget(players, h);
      t.Some? ==> forall j :: 0 <= j < t.value && BeamCandidate(players[h], players[j]) ==>
        SquaredDistance(players[h].x, players[h].y, players[t.value].x, players[t.value].y)
          < SquaredDistance(players[h].x, players[h].y, players[j].x, players[j].y)
  {
    FirstNearestIsFirstMinimum(BeamMask(players, h), DistancesFrom(players, h));
  }

  /** `healNearestAlly`: the beam target gains up to 1 HP (never beyond its
      maximum) and the medic is credited with the full amount; with no
      target nothing changes. */
  function HealNearestAlly(players: seq<Player>, h: int): (r: seq<Player>)
    requires 0 <= h < |players|
    ensures |r| == |players|
    ensures BeamTarget(players, h).None? ==> r == players
    ensures BeamTarget(players, h).Some? ==>
      var t := BeamTarget(players, h).value;
      && r[t] == Heal(players[t], BeamHeal)
      && r[h] == players[h].(score := players[h].score.(healingDone := players[h].score.healingDone + BeamHeal))
      && forall j :: 0 <= j < |players| && j != t && j != h ==> r[j] == players[j]
    ensures forall j :: 0 <= j < |players| && players[j].hp <= players[j].maxHp ==>
      players[j].hp <= r[j].hp <= r[j].maxHp == players[j].maxHp
  {
    match BeamTarget(players, h)
    case None => players
    case Some(t) =>
      var healed := players[t := Heal(players[t], BeamHeal)];
      var medic := healed[h];
      healed[h := medic.(score := medic.score.(healingDone := medic.score.healingDone + BeamHeal))]
  }

  /** A live player strictly within 300 of the medic is reached by the
      medic's Field Surge. */
  predicate InSurge(medic: Player, p: Player)
  {
    p.alive && WithinDistance(medic.x - p.x, medic.y - p.y, SurgeRange)
  }

  /** One player after the surge: healed by 60 (capped) and given the
      ability's damage reduction for 4 seconds when reached. */
  function SurgeOne(medic: Player, p: Player): (q: Player)
  {
    if InSurge(medic, p) then
      Heal(p, SurgeHeal).(abilityActive := true, abilityTimer := SurgeDuration)
    else p
  }

  /** The medic's ability (Field Surge) used by the player at position h:
      the ability cooldown starts, everyone alive in range (the medic too)
      is healed and shielded, and the medic is credited with 60 healing per
      player in the game, whether healed or not. */
  function FieldSurge(players: seq<Player>, h: int): (r: seq<Player>)
    requires 0 <= h < |players|
    ensures |r| == |players|
    ensures forall j :: 0 <= j < |players| && j != h && InSurge(players[h], players[j]) ==>
      && r[j].abilityActive && r[j].abilityTimer == SurgeDuration
      && r[j].hp == Min(players[j].maxHp, players[j].hp + SurgeHeal)
    ensures forall j :: 0 <= j < |players| && j != h && !InSurge(players[h], players[j]) ==> r[j] == players[j]
    ensures forall j :: 0 <= j < |players| ==> r[j].hp <= Max(players[j].hp, players[j].maxHp)
    ensures r[h].abilityCd == AbilityCooldown
    ensures players[h].alive ==> r[h].abilityActive
    ensures players[h].alive ==>
      r[h].hp == Min(players[h].maxHp, players[h].hp + SurgeHeal) && r[h].abilityTimer == SurgeDuration
    ensures !players[h].alive ==>
      && r[h].hp == players[h].hp && r[h].abilityActive == players[h].abilityActive
      && r[h].abilityTimer == players[h].abilityTimer
    ensures r[h].score.healingDone == players[h].score.healingDone + SurgeHeal * |players| as real
    ensures r[h] == players[h].(hp := r[h].hp, abilityActive := r[h].abilityActive, abilityTimer := r[h].abilityTimer,
                                abilityCd := AbilityCooldown, score := players[h].score.(healingDone := r[h].score.healingDone))
  {
    var medic := players[h];
    var cooled := players[h := medic.(abilityCd := AbilityCooldown)];
    var surged := seq(|cooled|, j requires 0 <= j < |cooled| => SurgeOne(medic, cooled[j]));
    var m := surged[h];
    surged[h := m.(score := m.score.(healingDone := m.score.healingDone + SurgeHeal * |players| as real))]
  }

  /** `respawnPlayer`: back alive at half the role's HP (rounded down) at a
      random point of the ship's start area, attack cooldown reset. */
  function Respawn(p: Player, rx: Unit, ry: Unit): (q: Player)
    ensures q.alive && q.hp == FloorScale(Stats(p.role).hp, 0.5) as real
    ensures 0.0 < q.hp < Stats(p.role).hp as real
    ensures 300.0 <= q.x < 500.0 && 200.0 <= q.y < 300.0
    ensures q == p.(alive := true, hp := q.hp, x := q.x, y := q.y, attackCd := 0.0)
  {
    p.(alive := true, hp := FloorScale(Stats(p.role).hp, 0.5) as real,
       x := 300.0 + rx * 200.0, y := 200.0 + ry * 100.0, attackCd := 0.0)
  }

  /** The tick of a dead player: the respawn timer runs down by one tick and
      the player respawns once it reaches zero; a `Never` timer never does. */
  function RespawnTick(p: Player, rx: Unit, ry: Unit): (q: Player)
    requires !p.alive
    ensures p.respawnTimer.Never? ==> q == p
    ensures q.alive <==> p.respawnTimer.Timer? && p.respawnTimer.left - DT <= 0.0
    ensures !q.alive ==> q == p.(respawnTimer := q.respawnTimer)
    ensures p.respawnTimer.Timer? ==> q.respawnTimer == Timer(p.respawnTimer.left - DT)
  {
    match p.respawnTimer
    case Never => p
    case Timer(t) =>
      var ticked := p.(respawnTimer := Timer(t - DT));
      if t - DT <= 0.0 then Respawn(ticked, rx, ry) else ticked
  }

  /** A dead player's state after n ticks (respawn draws fixed at 0), or the
      respawned player as soon as the respawn happens. */
  function AfterTicks(p: Player, n: nat): Player
    decreases n
  {
    if n == 0 || p.alive then p else AfterTicks(RespawnTick(p, 0.0, 0.0), n - 1)
  }

  /** A player whose respawn timer shows k ticks is still dead after k - 1
      ticks and alive after k. */
  lemma {:induction false} RespawnAfterExactlyKTicks(p: Player, k: nat)
    requires !p.alive && k >= 1 && p.respawnTimer == Timer(k as real * DT)
    ensures !AfterTicks(p, k - 1).alive
    ensures AfterTicks(p, k).alive
    decreases k
  {
    if k > 1 {
      var q := RespawnTick(p, 0.0, 0.0);
      assert q.respawnTimer == Timer((k - 1) as real * DT);
      RespawnAfterExactlyKTicks(q, k - 1);
    }
  }

  /** Killed by an enemy's melee, a player respawns on the hundredth tick
      (five seconds at 20 ticks per second, in exact arithmetic). */
  lemma MeleeDeathRespawnsAfterFiveSeconds(p: Player, dmg: int)
    requires p.alive && p.hp - DamageTaken(p, dmg) as real <= 0.0
    ensures var dead := ApplyHit(p, dmg, EnemyMelee);
      !AfterTicks(dead, 99).alive && AfterTicks(dead, 100).alive
  {
    RespawnAfterExactlyKTicks(ApplyHit(p, dmg, EnemyMelee), 100);
  }

  /** Killed by the boss, a player stays dead however many ticks pass. */
  lemma {:induction false} BossDeathIsPermanent(p: Player, dmg: int, src: HitSource, n: nat)
    requires p.alive && p.hp - DamageTaken(p, dmg) as real <= 0.0 && src != EnemyMelee
    ensures !AfterTicks(ApplyHit(p, dmg, src), n).alive
  {
    NeverTimerStaysDead(ApplyHit(p, dmg, src), n);
  }

  lemma {:induction false} NeverTimerStaysDead(p: Player, n: nat)
    requires !p.alive && p.respawnTimer.Never?
    ensures AfterTicks(p, n) == p
  {
    if n > 0 {
      NeverTimerStaysDead(p, n - 1);
    }
  }

  /** `damageEnemy`: the enemy loses `amount` HP; the attacking player, if
      any, is credited with the damage and, when the enemy is left at 0 HP
      or below, with a kill. */
  function DamageEnemy(e: Enemy, amount: int, attacker: Option<PlayerScore>): (r: (Enemy, Option<PlayerScore>))
    ensures r.0 == e.(hp := e.hp - amount as real)
    ensures r.1.Some? <==> attacker.Some?
    ensures attacker.Some? ==>
      var s := attacker.value;
      r.1.value == s.(damageDealt := s.damageDealt + amount as real,
                      enemiesKilled := s.enemiesKilled + if r.0.hp <= 0.0 then 1 else 0)
  {
    var hit := e.(hp := e.hp - amount as real);
    match attacker
    case None => (hit, None)
    case Some(s) =>
      var dealt := s.(damageDealt := s.damageDealt + amount as real);
      (hit, Some(if hit.hp <= 0.0 then dealt.(enemiesKilled := dealt.enemiesKilled + 1) else dealt))
  }

  /** Damage the boss actually takes: `Math.floor(amount * 1.35)` while the
      scout's weak-point scan is active. */
  function BossDamage(amount: int, weakpoint: bool): (d: int)
    ensures !weakpoint ==> d == amount
    ensures weakpoint ==> 100 * d <= 135 * amount < 100 * d + 100
    ensures 0 <= amount ==> amount <= d
  {
    if weakpoint then
      var d := (amount as real * 1.35).Floor;
      assert d as real <= amount as real * 1.35 < d as real + 1.0;
      d
    else amount
  }

  /** `damageBoss`: the boss loses the (possibly amplified) damage and the
      player is credited with it. */
  function DamageBoss(b: Boss, amount: int, weakpoint: bool, s: PlayerScore): (r: (Boss, PlayerScore))
    ensures r.0 == b.(hp := b.hp - BossDamage(amount, weakpoint) as real)
    ensures r.1 == s.(damageDealt := s.damageDealt + BossDamage(amount, weakpoint) as real)
    ensures 0 <= amount ==> r.0.hp <= b.hp - amount as real
  {
    var d := BossDamage(amount, weakpoint);
    (b.(hp := b.hp - d as real), s.(damageDealt := s.damageDealt + d as real))
  }

  /** `angleDiff`: the angle between two directions, folded into [0, pi]
      for any pair of `Math.atan2` results. */
  function AngleDiff(a: real, b: real): (r: real)
    ensures r <= Pi
    ensures Abs(a - b) <= 2.0 * Pi ==> 0.0 <= r && r == Min(Abs(a - b), 2.0 * Pi - Abs(a - b))
  {
    var d := Abs(a - b);
    if d > Pi then 2.0 * Pi - d else d
  }

  /** The angle between two directions does not depend on their order. */
  lemma AngleDiffSymmetric(a: real, b: real)
    ensures AngleDiff(a, b) == AngleDiff(b, a)
  {
    assert Abs(a - b) == Abs(b - a);
  }
}
