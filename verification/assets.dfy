/** Sprite helpers of the client: which row of an orc sheet to draw, which of
    eight facings an aim angle selects, and the per-id animation records that
    are created on first use. */
module Assets {
  import opened Common

  /** Movement below this on both axes counts as standing still. */
  const IdleSpeed: real := 0.3

  predicate Idle(dx: real, dy: real)
  {
    Abs(dx) < IdleSpeed && Abs(dy) < IdleSpeed
  }

  /** `getOrcDirRow`: the sheet row for a movement step. Row 1 faces left,
      row 2 right, row 3 up, and row 0 down, which is also the idle pose. A
      step that is mainly sideways picks left or right; otherwise up or down. */
  function OrcDirRow(dx: real, dy: real): (row: nat)
    ensures row <= 3
    ensures row == 0 <==> Idle(dx, dy) || (Abs(dx) <= Abs(dy) && dy >= 0.0)
    ensures row == 1 <==> !Idle(dx, dy) && Abs(dx) > Abs(dy) && dx < 0.0
    ensures row == 2 <==> !Idle(dx, dy) && Abs(dx) > Abs(dy) && dx >= 0.0
    ensures row == 3 <==> !Idle(dx, dy) && Abs(dx) <= Abs(dy) && dy < 0.0
  {
    if Idle(dx, dy) then 0
    else if Abs(dx) > Abs(dy) then (if dx < 0.0 then 1 else 2)
    else if dy < 0.0 then 3 else 0
  }

  /** Mirroring a step left-to-right swaps the left and right rows and keeps
      the up, down and idle rows. */
  lemma OrcDirRowMirrors(dx: real, dy: real)
    ensures OrcDirRow(dx, dy) == 1 <==> OrcDirRow(-dx, dy) == 2
    ensures OrcDirRow(dx, dy) == 2 <==> OrcDirRow(-dx, dy) == 1
    ensures OrcDirRow(dx, dy) == 0 <==> OrcDirRow(-dx, dy) == 0
    ensures OrcDirRow(dx, dy) == 3 <==> OrcDirRow(-dx, dy) == 3
  {
    assert Abs(-dx) == Abs(dx);
  }

  /** The eight facings, clockwise from east on a screen whose y grows down. */
  datatype Dir = East | SouthEast | South | SouthWest | West | NorthWest | North | NorthEast

  /** The bearing each facing stands for, in degrees. */
  function Heading(d: Dir): (h: real)
    ensures 0.0 <= h < 360.0
  {
    match d
    case East => 0.0
    case SouthEast => 45.0
    case South => 90.0
    case SouthWest => 135.0
    case West => 180.0
    case NorthWest => 225.0
    case North => 270.0
    case NorthEast => 315.0
  }

  /** The signed turn from bearing `h` to bearing `deg`, as a value in
      [-180, 180); both bearings are in [0, 360). */
  function Turn(deg: real, h: real): (t: real)
    requires 0.0 <= deg < 360.0 && 0.0 <= h < 360.0
    ensures -180.0 <= t < 180.0
  {
    var diff := deg - h;
    if diff >= 180.0 then diff - 360.0 else if diff < -180.0 then diff + 360.0 else diff
  }

  /** `deg` lies in the 45-degree sector around the heading of `d`, lower
      edge included. */
  predicate InSector(deg: real, d: Dir)
    requires 0.0 <= deg < 360.0
  {
    -22.5 <= Turn(deg, Heading(d)) < 22.5
  }

  /** The chain of comparisons on a normalised angle; every value in [0, 360)
      falls into the sector of exactly one facing. */
  function SectorOf(deg: real): (d: Dir)
    ensures 0.0 <= deg < 360.0 ==> forall e :: InSector(deg, e) <==> e == d
  {
    if deg >= 337.5 || deg < 22.5 then East
    else if deg >= 22.5 && deg < 67.5 then SouthEast
    else if deg >= 67.5 && deg < 112.5 then South
    else if deg >= 112.5 && deg < 157.5 then SouthWest
    else if deg >= 157.5 && deg < 202.5 then West
    else if deg >= 202.5 && deg < 247.5 then NorthWest
    else if deg >= 247.5 && deg < 292.5 then North
    else NorthEast
  }

  /** JavaScript's truncating quotient of a real. */
  function Trunc(q: real): (n: int)
    ensures q >= 0.0 ==> n as real <= q < n as real + 1.0
    ensures q < 0.0 ==> n as real - 1.0 < q <= n as real
  {
    if q >= 0.0 then q.Floor else -((-q).Floor)
  }

  /** JavaScript's `x % 360` on numbers: the remainder takes the sign of the
      dividend, and differs from it by whole turns. */
  function Rem360(x: real): (r: real)
    ensures x >= 0.0 ==> 0.0 <= r < 360.0
    ensures x < 0.0 ==> -360.0 < r <= 0.0
    ensures 0.0 <= x < 360.0 ==> r == x
    ensures ((x - r) / 360.0).Floor as real == (x - r) / 360.0
  {
    x - 360.0 * Trunc(x / 360.0) as real
  }

  /** `angleToDir`, given the aim angle already converted to degrees: the
      angle is shifted by a full turn, reduced with `%`, and classified. Any
      angle from -360 degrees up lands in [0, 360) and gets the facing of its
      sector; anything lower leaves a non-positive remainder, which the
      comparisons read as east. */
  function AngleToDir(degrees: real): (d: Dir)
    ensures degrees >= -360.0 ==> 0.0 <= Rem360(degrees + 360.0) < 360.0
    ensures degrees >= -360.0 ==> InSector(Rem360(degrees + 360.0), d)
    ensures degrees < -360.0 ==> d == East
    ensures -360.0 <= degrees < 0.0 ==> InSector(degrees + 360.0, d)
    ensures 0.0 <= degrees < 360.0 ==> InSector(degrees, d)
  {
    SectorOf(Rem360(degrees + 360.0))
  }

  /** A further full turn does not change the facing. */
  lemma AngleToDirIsPeriodic(degrees: real)
    requires degrees >= -360.0
    ensures AngleToDir(degrees + 360.0) == AngleToDir(degrees)
  {
    var x := degrees + 360.0;
    assert (x + 360.0) / 360.0 == x / 360.0 + 1.0;
    assert Trunc((x + 360.0) / 360.0) == Trunc(x / 360.0) + 1;
    assert Rem360(x + 360.0) == Rem360(x);
  }

  /** The animation record of one enemy. */
  datatype EnemyAnim = EnemyAnim(frame: int, timer: real, prevX: real, prevY: real)

  /** The animation record of one player. */
  datatype PlayerAnim = PlayerAnim(
    walkFrame: int, walkTimer: real, deathFrame: int, deathTimer: real,
    deathDone: bool, prevX: real, prevY: real, spearThrown: int)

  const FreshEnemyAnim := EnemyAnim(0, 0.0, 0.0, 0.0)
  const FreshPlayerAnim := PlayerAnim(0, 0.0, 0, 0.0, false, 0.0, 0.0, 0)

  /** Look up the record kept for `id`, storing `blank` first when there is
      none. Records are objects in the source, so a stored one is never
      mistaken for a missing one. */
  function Recall<R>(store: map<int, R>, id: int, blank: R): (r: (map<int, R>, R))
    ensures id in r.0 && r.0[id] == r.1
    ensures id in store ==> r.0 == store && r.1 == store[id]
    ensures id !in store ==> r.1 == blank
    ensures r.0.Keys == store.Keys + {id}
    ensures forall k :: k in store ==> r.0[k] == store[k]
  {
    if id in store then (store, store[id]) else (store[id := blank], blank)
  }

  /** Once a record exists, asking again returns it and stores nothing new. */
  lemma RecallIsStable<R>(store: map<int, R>, id: int, blank: R, other: R)
    ensures var first := Recall(store, id, blank);
      Recall(first.0, id, other) == first
  {
  }

  /** `getEnemyAnim`. */
  function EnemyAnimOf(store: map<int, EnemyAnim>, id: int): (r: (map<int, EnemyAnim>, EnemyAnim))
    ensures id in r.0 && r.0[id] == r.1
    ensures id in store ==> r == (store, store[id])
    ensures id !in store ==> r == (store[id := FreshEnemyAnim], FreshEnemyAnim)
  {
    Recall(store, id, FreshEnemyAnim)
  }

  /** `getAnimState`. */
  function PlayerAnimOf(store: map<int, PlayerAnim>, id: int): (r: (map<int, PlayerAnim>, PlayerAnim))
    ensures id in r.0 && r.0[id] == r.1
    ensures id in store ==> r == (store, store[id])
    ensures id !in store ==> r == (store[id := FreshPlayerAnim], FreshPlayerAnim)
  {
    Recall(store, id, FreshPlayerAnim)
  }
}
