/** Static map geometry of the ship interior: walkable zone rectangles,
    obstacles, and the circle-against-zone / circle-against-obstacle tests
    that the navigation grid and movement constraint are built from.

    Distances are compared through their squares: `Math.hypot(dx, dy) < d`
    is `WithinDistance(dx, dy, d)`, which `HypotComparison` shows to be the
    same test for any non-negative square root. */
module Geometry {
  import opened Common

  /** Every coordinate of the map data is multiplied by this factor at startup. */
  const MapScale: real := 3.0
  const PlayerRadius: real := 18.0
  const EnemyRadius: real := 16.0
  const EliteRadius: real := 22.0

  /** An axis-aligned walkable rectangle. */
  datatype Zone = Zone(id: string, x: real, y: real, w: real, h: real)

  /** An obstacle: an axis-aligned box or a disc. */
  datatype Obstacle =
    | RectObstacle(x: real, y: real, w: real, h: real)
    | CircleObstacle(x: real, y: real, r: real)

  function ScaleZone(z: Zone): Zone
  {
    Zone(z.id, z.x * MapScale, z.y * MapScale, z.w * MapScale, z.h * MapScale)
  }

  /** The startup scaling of an obstacle loaded from the collision file. */
  function ScaleObstacle(o: Obstacle): Obstacle
  {
    match o
    case RectObstacle(x, y, w, h) => RectObstacle(x * MapScale, y * MapScale, w * MapScale, h * MapScale)
    case CircleObstacle(x, y, r) => CircleObstacle(x * MapScale, y * MapScale, r * MapScale)
  }

  /** The ship's walkable zones as written in the source, before scaling. */
  const RawShipZones: seq<Zone> := [
    Zone("cockpit", 420.0, 40.0, 184.0, 120.0),
    Zone("cockpit_room", 300.0, 160.0, 424.0, 130.0),
    Zone("corridor", 475.0, 160.0, 74.0, 800.0),
    Zone("left_1", 255.0, 290.0, 240.0, 80.0),
    Zone("left_2", 210.0, 370.0, 285.0, 80.0),
    Zone("left_3", 170.0, 450.0, 325.0, 80.0),
    Zone("left_4", 140.0, 530.0, 355.0, 80.0),
    Zone("left_5", 110.0, 610.0, 385.0, 80.0),
    Zone("left_6", 80.0, 690.0, 415.0, 70.0),
    Zone("right_1", 529.0, 290.0, 240.0, 80.0),
    Zone("right_2", 529.0, 370.0, 285.0, 80.0),
    Zone("right_3", 529.0, 450.0, 325.0, 80.0),
    Zone("right_4", 529.0, 530.0, 355.0, 80.0),
    Zone("right_5", 529.0, 610.0, 385.0, 80.0),
    Zone("right_6", 529.0, 690.0, 415.0, 70.0),
    Zone("engine", 60.0, 760.0, 904.0, 220.0),
    Zone("wing_left", 5.0, 430.0, 55.0, 100.0),
    Zone("wing_right", 964.0, 430.0, 55.0, 100.0)
  ]

  /** The zones the server works with, after scaling. */
  const ShipZones: seq<Zone> :=
    seq(|RawShipZones|, i requires 0 <= i < |RawShipZones| => ScaleZone(RawShipZones[i]))

  /** The point lies inside the zone, edges included (the grid builder's test). */
  predicate ContainsPoint(z: Zone, px: real, py: real)
  {
    z.x <= px <= z.x + z.w && z.y <= py <= z.y + z.h
  }

  /** `Math.hypot(dx, dy) < limit`, written without the square root. */
  predicate WithinDistance(dx: real, dy: real, limit: real)
  {
    0.0 < limit && dx * dx + dy * dy < limit * limit
  }

  /** For any non-negative root `h` of dx*dx + dy*dy (what `Math.hypot`
      returns), `h < limit` is exactly `WithinDistance(dx, dy, limit)`. */
  lemma HypotComparison(h: real, dx: real, dy: real, limit: real)
    requires h >= 0.0 && h * h == dx * dx + dy * dy
    ensures h < limit <==> WithinDistance(dx, dy, limit)
  {
    if h < limit {
      calc {
        dx * dx + dy * dy;
      ==
        h * h;
      <=  { MulLeftMono(h, h, limit); }
        h * limit;
      <  { MulRightStrict(h, limit, limit); }
        limit * limit;
      }
    } else if 0.0 < limit {
      assert limit * limit <= limit * h by { MulLeftMono(limit, limit, h); }
      assert limit * h <= h * h by { MulRightMono(limit, h, h); }
    }
  }

  lemma MulLeftMono(c: real, a: real, b: real)
    requires c >= 0.0 && a <= b
    ensures c * a <= c * b
  {
  }

  lemma MulRightMono(a: real, b: real, c: real)
    requires c >= 0.0 && a <= b
    ensures a * c <= b * c
  {
  }

  lemma MulRightStrict(a: real, b: real, c: real)
    requires c > 0.0 && a < b
    ensures a * c < b * c
  {
  }

  /** A circle of radius `r` centred on the point comes closer to the obstacle
      than it may: for a box, the distance to the nearest point of the box;
      for a disc, the distance between centres against the sum of radii. */
  predicate TooClose(o: Obstacle, px: real, py: real, r: real)
  {
    match o
    case RectObstacle(x, y, w, h) =>
      WithinDistance(px - Clamp(x, x + w, px), py - Clamp(y, y + h, py), r)
    case CircleObstacle(x, y, or) =>
      WithinDistance(px - x, py - y, r + or)
  }

  /** A circle of radius `r` at the point overlaps the zone (strict inequalities:
      the movement constraint's test). */
  predicate Overlaps(z: Zone, px: real, py: real, r: real)
  {
    px + r > z.x && px - r < z.x + z.w && py + r > z.y && py - r < z.y + z.h
  }

  predicate InsideAnyZone(zones: seq<Zone>, px: real, py: real, r: real)
  {
    exists i :: 0 <= i < |zones| && Overlaps(zones[i], px, py, r)
  }

  /** The point pulled `r` inside the zone's edges, axis by axis. */
  function ClampInto(z: Zone, px: real, py: real, r: real): (p: (real, real))
    ensures 0.0 < r && 0.0 < z.w && 0.0 < z.h ==> Overlaps(z, p.0, p.1, r)
  {
    (Clamp(z.x + r, z.x + z.w - r, px), Clamp(z.y + r, z.y + z.h - r, py))
  }

  function SquaredDistance(ax: real, ay: real, qx: real, qy: real): real
  {
    (ax - qx) * (ax - qx) + (ay - qy) * (ay - qy)
  }

  /** How far the point moves when clamped into zone z (squared). */
  function ClampCost(z: Zone, px: real, py: real, r: real): real
  {
    var c := ClampInto(z, px, py, r);
    SquaredDistance(px, py, c.0, c.1)
  }

  /** The scan for the zone whose clamped point is nearest: zones[k..] are
      still to be visited, `best` is the first strict minimum so far. The
      source starts from an infinite best distance, so zone 0 is always the
      first candidate; the scan therefore starts at k = 1 with best = 0. */
  function NearestZoneFrom(zones: seq<Zone>, px: real, py: real, r: real, k: nat, best: nat): (n: nat)
    requires best < k <= |zones|
    ensures n < |zones|
    ensures ClampCost(zones[n], px, py, r) <= ClampCost(zones[best], px, py, r)
    ensures forall j :: k <= j < |zones| ==> ClampCost(zones[n], px, py, r) <= ClampCost(zones[j], px, py, r)
    ensures n == best || k <= n
    decreases |zones| - k
  {
    if k == |zones| then best
    else if ClampCost(zones[k], px, py, r) < ClampCost(zones[best], px, py, r) then
      NearestZoneFrom(zones, px, py, r, k + 1, k)
    else
      NearestZoneFrom(zones, px, py, r, k + 1, best)
  }

  /** The zone `constrainToMap` clamps into: the first one whose clamped point
      is strictly nearest. */
  function NearestZone(zones: seq<Zone>, px: real, py: real, r: real): (n: nat)
    requires |zones| > 0
    ensures n < |zones|
  {
    NearestZoneFrom(zones, px, py, r, 1, 0)
  }

  lemma {:induction false} NearestZoneFromIsFirstMinimum(zones: seq<Zone>, px: real, py: real, r: real, k: nat, best: nat)
    requires best < k <= |zones|
    requires forall j :: 0 <= j < k ==> ClampCost(zones[best], px, py, r) <= ClampCost(zones[j], px, py, r)
    requires forall j :: 0 <= j < best ==> ClampCost(zones[best], px, py, r) < ClampCost(zones[j], px, py, r)
    ensures var n := NearestZoneFrom(zones, px, py, r, k, best);
      (forall j :: 0 <= j < |zones| ==> ClampCost(zones[n], px, py, r) <= ClampCost(zones[j], px, py, r))
      && (forall j :: 0 <= j < n ==> ClampCost(zones[n], px, py, r) < ClampCost(zones[j], px, py, r))
    decreases |zones| - k
  {
    if k < |zones| {
      if ClampCost(zones[k], px, py, r) < ClampCost(zones[best], px, py, r) {
        NearestZoneFromIsFirstMinimum(zones, px, py, r, k + 1, k);
      } else {
        NearestZoneFromIsFirstMinimum(zones, px, py, r, k + 1, best);
      }
    }
  }

  /** The nearest zone minimises the clamp distance, and no earlier zone ties it. */
  lemma NearestZoneIsFirstMinimum(zones: seq<Zone>, px: real, py: real, r: real)
    requires |zones| > 0
    ensures var n := NearestZone(zones, px, py, r);
      (forall j :: 0 <= j < |zones| ==> ClampCost(zones[n], px, py, r) <= ClampCost(zones[j], px, py, r))
      && (forall j :: 0 <= j < n ==> ClampCost(zones[n], px, py, r) < ClampCost(zones[j], px, py, r))
  {
    NearestZoneFromIsFirstMinimum(zones, px, py, r, 1, 0);
  }

  /** Step 1 of `constrainToMap`: an entity overlapping some zone stays put;
      otherwise it is clamped into the nearest zone (no zones: unchanged). */
  function ResolveIntoZones(zones: seq<Zone>, px: real, py: real, r: real): (p: (real, real))
    ensures InsideAnyZone(zones, px, py, r) ==> p == (px, py)
    ensures !InsideAnyZone(zones, px, py, r) && |zones| > 0 ==>
      p == ClampInto(zones[NearestZone(zones, px, py, r)], px, py, r)
  {
    if InsideAnyZone(zones, px, py, r) || |zones| == 0 then (px, py)
    else ClampInto(zones[NearestZone(zones, px, py, r)], px, py, r)
  }

  /** After the zone step an entity with a positive radius always overlaps a
      zone, provided there is one and every zone has positive size. */
  lemma ResolvedPointIsInsideAZone(zones: seq<Zone>, px: real, py: real, r: real)
    requires 0.0 < r && |zones| > 0
    requires forall i :: 0 <= i < |zones| ==> 0.0 < zones[i].w && 0.0 < zones[i].h
    ensures var p := ResolveIntoZones(zones, px, py, r); InsideAnyZone(zones, p.0, p.1, r)
  {
    if !InsideAnyZone(zones, px, py, r) {
      var n := NearestZone(zones, px, py, r);
      var p := ClampInto(zones[n], px, py, r);
      assert Overlaps(zones[n], p.0, p.1, r);
    }
  }
}
