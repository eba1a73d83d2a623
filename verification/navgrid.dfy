/** The navigation grid: the ship (3072 x 3072 world units once scaled) cut
    into 32-unit square cells, each marked walkable or not once at startup. */
module NavGrid {
  import opened Common
  import opened Geometry

  const CellSize: int := 32
  /** Side of the scaled ship map: 1024 * MapScale. */
  const WorldSize: int := 3072
  /** `Math.ceil(WorldSize / CellSize)` cells per row and per column. */
  const Width: int := 96
  const Height: int := 96
  const CellCount: int := 9216

  /** Column and row of a flat cell index (`idx % W`, `floor(idx / W)`). */
  function Col(i: int): int { i % Width }
  function Row(i: int): int { i / Width }
  function Index(x: int, y: int): int { y * Width + x }

  predicate InGrid(x: int, y: int)
  {
    0 <= x < Width && 0 <= y < Height
  }

  predicate ValidIndex(i: int)
  {
    0 <= i < CellCount
  }

  /** Cell coordinates and flat indices are interchangeable. */
  lemma IndexRoundTrip(x: int, y: int)
    requires InGrid(x, y)
    ensures ValidIndex(Index(x, y)) && Col(Index(x, y)) == x && Row(Index(x, y)) == y
  {
  }

  lemma IndexDecomposes(i: int)
    requires ValidIndex(i)
    ensures InGrid(Col(i), Row(i)) && Index(Col(i), Row(i)) == i
  {
  }

  /** World coordinate of the centre of cell column (or row) `c`. */
  function CentreCoord(c: int): real
  {
    (c * CellSize + CellSize / 2) as real
  }

  predicate CentreInSomeZone(zones: seq<Zone>, cx: real, cy: real)
  {
    exists k :: 0 <= k < |zones| && ContainsPoint(zones[k], cx, cy)
  }

  predicate CentreClearOfObstacles(obstacles: seq<Obstacle>, cx: real, cy: real)
  {
    forall k :: 0 <= k < |obstacles| ==> !TooClose(obstacles[k], cx, cy, EnemyRadius)
  }

  /** A cell is walkable when its centre lies in some zone (edges included)
      and no obstacle comes within an enemy radius of it. */
  predicate CellWalkable(zones: seq<Zone>, obstacles: seq<Obstacle>, x: int, y: int)
  {
    var cx := CentreCoord(x);
    var cy := CentreCoord(y);
    CentreInSomeZone(zones, cx, cy) && CentreClearOfObstacles(obstacles, cx, cy)
  }

  /** The zone loop of `buildNavGrid`, stopping at the first zone that holds the centre. */
  method FindContainingZone(zones: seq<Zone>, cx: real, cy: real) returns (inZone: bool)
    ensures inZone <==> CentreInSomeZone(zones, cx, cy)
  {
    inZone := false;
    var k := 0;
    while k < |zones|
      invariant 0 <= k <= |zones|
      invariant !inZone
      invariant forall j :: 0 <= j < k ==> !ContainsPoint(zones[j], cx, cy)
    {
      if ContainsPoint(zones[k], cx, cy) {
        inZone := true;
        break;
      }
      k := k + 1;
    }
  }

  /** The obstacle loop of `buildNavGrid`, stopping at the first obstacle hit. */
  method FindBlockingObstacle(obstacles: seq<Obstacle>, cx: real, cy: real) returns (hit: bool)
    ensures hit <==> !CentreClearOfObstacles(obstacles, cx, cy)
  {
    hit := false;
    var k := 0;
    while k < |obstacles|
      invariant 0 <= k <= |obstacles|
      invariant !hit
      invariant forall j :: 0 <= j < k ==> !TooClose(obstacles[j], cx, cy, EnemyRadius)
    {
      if TooClose(obstacles[k], cx, cy, EnemyRadius) {
        hit := true;
        break;
      }
      k := k + 1;
    }
  }

  /** `buildNavGrid`: a flat row-major grid, every cell marked exactly when
      `CellWalkable` holds of it. */
  method BuildNavGrid(zones: seq<Zone>, obstacles: seq<Obstacle>) returns (grid: seq<bool>)
    ensures |grid| == CellCount
    ensures forall i :: 0 <= i < CellCount ==> grid[i] == CellWalkable(zones, obstacles, Col(i), Row(i))
  {
    var cells := new bool[CellCount](_ => false);
    var y := 0;
    while y < Height
      invariant 0 <= y <= Height
      invariant forall i :: 0 <= i < y * Width ==> cells[i] == CellWalkable(zones, obstacles, Col(i), Row(i))
      invariant forall i :: y * Width <= i < CellCount ==> !cells[i]
    {
      var x := 0;
      while x < Width
        invariant 0 <= x <= Width
        invariant forall i :: 0 <= i < y * Width + x ==> cells[i] == CellWalkable(zones, obstacles, Col(i), Row(i))
        invariant forall i :: y * Width + x <= i < CellCount ==> !cells[i]
      {
        var cx := CentreCoord(x);
        var cy := CentreCoord(y);
        var idx := Index(x, y);
        IndexRoundTrip(x, y);
        var inZone := FindContainingZone(zones, cx, cy);
        if inZone {
          var hitObs := FindBlockingObstacle(obstacles, cx, cy);
          if !hitObs {
            cells[idx] := true;
          }
        }
        x := x + 1;
      }
      y := y + 1;
    }
    grid := cells[..];
  }
}
