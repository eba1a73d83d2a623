/** The fixed table of the four player roles. */
module Roles {

  datatype Role = Vanguard | Engineer | Scout | Medic

  /** Base statistics of a role. Cooldowns and speeds are per second. */
  datatype RoleStats = RoleStats(
    hp: int, damage: int, range: real, speed: real, attackCd: real, projSpeed: real)

  /** Default projectile speed. */
  const ProjSpeed: real := 500.0

  function Stats(role: Role): (s: RoleStats)
    ensures s.hp > 0 && s.damage > 0 && s.range > 0.0
  {
    match role
    case Vanguard => RoleStats(220, 28, 55.0, 200.0, 0.6, 0.0)
    case Engineer => RoleStats(170, 18, 250.0, 200.0, 0.8, ProjSpeed)
    case Scout => RoleStats(140, 22, 200.0, 230.0, 0.4, ProjSpeed * 1.2)
    case Medic => RoleStats(160, 10, 200.0, 200.0, 0.7, ProjSpeed * 0.8)
  }

  /** The roles whose ability opens the 30% damage-reduction window. */
  predicate HasDamageReduction(role: Role)
  {
    role == Vanguard || role == Medic
  }
}
