/** `findPath`: 8-neighbour A* over the navigation grid, from the cell of a
    start point to the cell of a goal point, with a nearest-walkable-cell
    fallback for an unwalkable goal and a cap of 2000 expansions.

    Path costs are kept in fifths of a cell (a straight step costs 5, a
    diagonal step 7, i.e. the source's 1 and 1.4), which is exact. The
    source's `Math.hypot` heuristic only influences which open cell is
    expanded next; it is a parameter here, and every property below holds
    whatever heuristic is supplied. */
module Pathfinder {
  import opened Common
  import opened NavGrid

  /** Half-width of the square window searched for a walkable substitute goal. */
  const SearchRadius: int := 3
  /** Cells in that 7 x 7 window. */
  const WindowCells: int := 49
  const ExpansionLimit: nat := 2000

  /** The eight neighbours in the order the source lists them: column
      offset, row offset, step cost in fifths. */
  const Neighbours: seq<(int, int, nat)> := [
    (0, -1, 5), (0, 1, 5), (-1, 0, 5), (1, 0, 5),
    (-1, -1, 7), (1, -1, 7), (-1, 1, 7), (1, 1, 7)
  ]

  /** A point of a returned path: the centre of a grid cell. */
  datatype Waypoint = Waypoint(x: int, y: int)

  /** g-score of a cell: not yet reached (the source's `Infinity`) or the
      best known cost from the start, in fifths. */
  datatype Score = Unreached | Reached(fifths: nat)

  predicate Improves(cost: nat, s: Score)
  {
    s.Unreached? || cost < s.fifths
  }

  /** `Math.floor(v / PF_CELL)` clamped into the grid. */
  function CellCoord(v: real): (c: int)
    ensures 0 <= c < Width
  {
    ClampInt(0, Width - 1, (v / CellSize as real).Floor)
  }

  /** The (clamped) cell a world point falls in. */
  function CellOfPoint(px: real, py: real): (i: int)
    ensures ValidIndex(i)
  {
    IndexRoundTrip(CellCoord(px), CellCoord(py));
    Index(CellCoord(px), CellCoord(py))
  }

  /** Two distinct cells that touch, sides or corners. */
  predicate Adjacent(a: int, b: int)
  {
    a != b && -1 <= Col(a) - Col(b) <= 1 && -1 <= Row(a) - Row(b) <= 1
  }

  function Centre(c: int): Waypoint
  {
    Waypoint(Col(c) * CellSize + CellSize / 2, Row(c) * CellSize + CellSize / 2)
  }

  predicate IsCellCentre(w: Waypoint)
  {
    0 <= w.x < WorldSize && 0 <= w.y < WorldSize && w.x % CellSize == 16 && w.y % CellSize == 16
  }

  /** The cell a waypoint is the centre of. */
  function CellAt(w: Waypoint): int
  {
    Index(w.x / CellSize, w.y / CellSize)
  }

  lemma CentreRoundTrip(c: int)
    requires ValidIndex(c)
    ensures IsCellCentre(Centre(c)) && CellAt(Centre(c)) == c
  {
    IndexDecomposes(c);
    IndexRoundTrip(Col(c), Row(c));
  }

  // ----- the substitute-goal window -----

  /** Scan position k of the 7 x 7 window: rows outer, columns inner, as the
      source's nested `dy`/`dx` loops. */
  function WindowDx(k: int): int { k % 7 - SearchRadius }
  function WindowDy(k: int): int { k / 7 - SearchRadius }

  function WindowDistance(k: int): int
  {
    WindowDx(k) * WindowDx(k) + WindowDy(k) * WindowDy(k)
  }

  predicate WindowWalkable(grid: seq<bool>, ex: int, ey: int, k: int)
    requires |grid| == CellCount
  {
    var nx := ex + WindowDx(k);
    var ny := ey + WindowDy(k);
    InGrid(nx, ny) && grid[Index(nx, ny)]
  }

  /** Which window positions hold a walkable cell, in scan order. */
  function WindowMask(grid: seq<bool>, ex: int, ey: int): (m: seq<bool>)
    requires |grid| == CellCount
    ensures |m| == WindowCells
    ensures forall k :: 0 <= k < WindowCells ==> m[k] == WindowWalkable(grid, ex, ey, k)
  {
    seq(WindowCells, k requires 0 <= k < WindowCells => WindowWalkable(grid, ex, ey, k))
  }

  /** Squared offset of every window position, in scan order. */
  function WindowDistances(): (d: seq<real>)
    ensures |d| == WindowCells
    ensures forall k :: 0 <= k < WindowCells ==> d[k] == WindowDistance(k) as real
  {
    seq(WindowCells, k => WindowDistance(k) as real)
  }

  /** Scan position of the walkable window cell nearest to (ex, ey), if any:
      the source's nested `dy`/`dx` loops keep the first strictly nearest. */
  function NearestWalkable(grid: seq<bool>, ex: int, ey: int): (r: Option<int>)
    requires |grid| == CellCount
    ensures r.Some? ==> 0 <= r.value < WindowCells && WindowWalkable(grid, ex, ey, r.value)
  {
    FirstNearest(WindowMask(grid, ex, ey), WindowDistances())
  }

  /** The substitute goal is walkable, lies in the window, is at least as near
      as every walkable window cell, and strictly nearer than every walkable
      cell scanned before it; there is none exactly when no window cell is
      walkable. */
  lemma NearestWalkableIsFirstMinimum(grid: seq<bool>, ex: int, ey: int)
    requires |grid| == CellCount
    ensures var r := NearestWalkable(grid, ex, ey);
      && (r.None? <==> forall j :: 0 <= j < WindowCells ==> !WindowWalkable(grid, ex, ey, j))
      && (r.Some? ==>
            && 0 <= r.value < WindowCells && WindowWalkable(grid, ex, ey, r.value)
            && (forall j :: 0 <= j < WindowCells && WindowWalkable(grid, ex, ey, j) ==>
                  WindowDistance(r.value) <= WindowDistance(j))
            && (forall j :: 0 <= j < r.value && WindowWalkable(grid, ex, ey, j) ==>
                  WindowDistance(r.value) < WindowDistance(j)))
  {
    var m := WindowMask(grid, ex, ey);
    FirstNearestIsFirstMinimum(m, WindowDistances());
  }

  /** The cell the search heads for: the goal cell itself when walkable,
      otherwise the nearest walkable cell of its window, if there is one. */
  function ResolveGoal(grid: seq<bool>, e: int): (t: Option<int>)
    requires |grid| == CellCount && ValidIndex(e)
    ensures t.Some? ==> ValidIndex(t.value) && grid[t.value]
    ensures grid[e] ==> t == Some(e)
  {
    if grid[e] then Some(e)
    else
      match NearestWalkable(grid, Col(e), Row(e))
      case None => None
      case Some(k) =>
        var nx := Col(e) + WindowDx(k);
        var ny := Row(e) + WindowDy(k);
        IndexRoundTrip(nx, ny);
        Some(Index(nx, ny))
  }

  /** A path from `start` to `target`: cell centres of walkable cells other
      than the start, each touching the next, the first touching the start
      and the last being the target. */
  predicate ValidPath(grid: seq<bool>, start: int, target: int, path: seq<Waypoint>)
    requires |grid| == CellCount
  {
    && (forall j :: 0 <= j < |path| ==>
          IsCellCentre(path[j]) && grid[CellAt(path[j])] && CellAt(path[j]) != start)
    && (forall j :: 0 <= j < |path| - 1 ==> Adjacent(CellAt(path[j]), CellAt(path[j + 1])))
    && (|path| > 0 ==> Adjacent(start, CellAt(path[0])) && CellAt(path[|path| - 1]) == target)
  }

  /** What the search keeps true of its bookkeeping: every recorded parent is
      a touching cell reached strictly more cheaply, the start is reached at
      cost 0 and has no parent, every other reached cell has a parent, and
      only walkable cells get one. */
  predicate SearchInvariant(grid: seq<bool>, start: int, cameFrom: array<int>, g: array<Score>)
    reads cameFrom, g
  {
    && |grid| == CellCount && cameFrom.Length == CellCount && g.Length == CellCount
    && ValidIndex(start) && cameFrom[start] == -1 && g[start] == Reached(0)
    && (forall n :: 0 <= n < CellCount && cameFrom[n] != -1 ==>
          && ValidIndex(cameFrom[n]) && Adjacent(n, cameFrom[n]) && grid[n]
          && g[n].Reached? && g[cameFrom[n]].Reached? && g[cameFrom[n]].fifths < g[n].fifths)
    && (forall n :: 0 <= n < CellCount && g[n].Reached? ==> n == start || cameFrom[n] != -1)
  }

  /** Every cell on the open list is a reached grid cell. */
  predicate OpenReached(open: seq<int>, g: array<Score>)
    reads g
  {
    g.Length == CellCount && forall j :: 0 <= j < |open| ==> ValidIndex(open[j]) && g[open[j]].Reached?
  }

  /** Some walkable path leads from `start` to `target`. */
  ghost predicate Reachable(grid: seq<bool>, start: int, target: int)
    requires |grid| == CellCount
  {
    exists path :: |path| > 0 && ValidPath(grid, start, target, path)
  }

  /** Every reached cell is still waiting on the open list or already closed. */
  predicate Covered(open: seq<int>, closed: array<bool>, g: array<Score>)
    reads closed, g
  {
    && closed.Length == CellCount && g.Length == CellCount
    && forall x :: 0 <= x < CellCount && g[x].Reached? ==> x in open || closed[x]
  }

  /** Only reached cells are closed. */
  predicate ClosedReached(closed: array<bool>, g: array<Score>)
    reads closed, g
  {
    && closed.Length == CellCount && g.Length == CellCount
    && forall x :: 0 <= x < CellCount && closed[x] ==> g[x].Reached?
  }

  /** Every walkable cell touching a closed cell has been reached. */
  predicate ClosedExpanded(grid: seq<bool>, closed: array<bool>, g: array<Score>)
    reads closed, g
  {
    && |grid| == CellCount && closed.Length == CellCount && g.Length == CellCount
    && forall c, m :: 0 <= c < CellCount && closed[c] && 0 <= m < CellCount && Adjacent(c, m) && grid[m] ==> g[m].Reached?
  }

  /** The open list holds distinct grid cells, none of them closed. */
  predicate OpenFresh(open: seq<int>, closed: array<bool>)
    reads closed
  {
    && closed.Length == CellCount
    && (forall j :: 0 <= j < |open| ==> ValidIndex(open[j]) && !closed[open[j]])
    && (forall i, j :: 0 <= i < j < |open| ==> open[i] != open[j])
  }

  /** The cells the search can ever close: the start and every walkable cell. */
  function Closable(grid: seq<bool>, start: int): set<int>
    requires |grid| == CellCount
  {
    set c | 0 <= c < CellCount && (c == start || grid[c])
  }

  /** A subset is no larger than its superset. */
  lemma SubsetNoLarger(a: set<int>, b: set<int>)
    requires a <= b
    ensures |a| <= |b|
  {
    assert b == a + (b - a);
  }

  /** A waypoint on a cell centre names a cell of the grid. */
  lemma CentreCellIsValid(w: Waypoint)
    requires IsCellCentre(w)
    ensures ValidIndex(CellAt(w))
  {
    IndexRoundTrip(w.x / CellSize, w.y / CellSize);
  }

  /** A set of cells that holds the start but not the target, and that every
      walkable neighbour of a member belongs to, cuts every path: each cell of
      a path lies in the set, so the last one cannot be the target. */
  lemma EnclosedSetBlocks(grid: seq<bool>, inside: seq<bool>, start: int, target: int, path: seq<Waypoint>)
    requires |grid| == CellCount && |inside| == CellCount
    requires ValidIndex(start) && inside[start] && ValidIndex(target) && !inside[target]
    requires forall c, m :: 0 <= c < CellCount && inside[c] && 0 <= m < CellCount && Adjacent(c, m) && grid[m] ==> inside[m]
    ensures !(|path| > 0 && ValidPath(grid, start, target, path))
  {
    if |path| > 0 && ValidPath(grid, start, target, path) {
      var j := 0;
      CentreCellIsValid(path[0]);
      while j < |path| - 1
        invariant 0 <= j < |path|
        invariant ValidIndex(CellAt(path[j])) && inside[CellAt(path[j])]
      {
        CentreCellIsValid(path[j + 1]);
        j := j + 1;
      }
    }
  }

  /** The position in `Neighbours` of the offset from cell `c` to cell `m`;
      every touching cell has one of the eight. */
  function NeighbourSlot(c: int, m: int): (k: nat)
    ensures k < |Neighbours|
  {
    var dx, dy := Col(m) - Col(c), Row(m) - Row(c);
    if dx == 0 && dy == -1 then 0
    else if dx == 0 && dy == 1 then 1
    else if dx == -1 && dy == 0 then 2
    else if dx == 1 && dy == 0 then 3
    else if dx == -1 && dy == -1 then 4
    else if dx == 1 && dy == -1 then 5
    else if dx == -1 && dy == 1 then 6
    else 7
  }

  /** The open-list scan: the position of the first entry with the lowest
      f-score. */
  method SelectLowest(open: seq<int>, f: array<real>) returns (lowest: int)
    requires |open| > 0
    requires forall j :: 0 <= j < |open| ==> 0 <= open[j] < f.Length
    ensures 0 <= lowest < |open|
    ensures forall j :: 0 <= j < |open| ==> f[open[lowest]] <= f[open[j]]
    ensures forall j :: 0 <= j < lowest ==> f[open[lowest]] < f[open[j]]
  {
    lowest := 0;
    var i := 1;
    while i < |open|
      invariant 1 <= i <= |open|
      invariant 0 <= lowest < i
      invariant forall j :: 0 <= j < i ==> f[open[lowest]] <= f[open[j]]
      invariant forall j :: 0 <= j < lowest ==> f[open[lowest]] < f[open[j]]
    {
      if f[open[i]] < f[open[lowest]] {
        lowest := i;
      }
      i := i + 1;
    }
  }

  /** The cells walked back so far, from `curr` to the target: walkable
      cells other than the start, each touching the next, the first touching
      `curr`, the last being the target. */
  ghost predicate Chain(grid: seq<bool>, start: int, target: int, curr: int, cells: seq<int>)
    requires |grid| == CellCount
  {
    && (forall j :: 0 <= j < |cells| ==> ValidIndex(cells[j]) && grid[cells[j]] && cells[j] != start)
    && (forall j :: 0 <= j < |cells| - 1 ==> Adjacent(cells[j], cells[j + 1]))
    && (|cells| == 0 ==> curr == target)
    && (|cells| > 0 ==> Adjacent(curr, cells[0]) && cells[|cells| - 1] == target)
  }

  /** A cell with a recorded parent is a walkable cell other than the start,
      and its parent touches it and was reached more cheaply. */
  lemma ParentOf(grid: seq<bool>, start: int, cameFrom: array<int>, g: array<Score>, curr: int)
    requires SearchInvariant(grid, start, cameFrom, g)
    requires ValidIndex(curr) && cameFrom[curr] != -1
    ensures ValidIndex(cameFrom[curr]) && Adjacent(cameFrom[curr], curr) && grid[curr] && curr != start
    ensures g[curr].Reached? && g[cameFrom[curr]].Reached? && g[cameFrom[curr]].fifths < g[curr].fifths
  {
  }

  /** Stepping back to the parent extends the chain by the current cell. */
  lemma ChainExtend(grid: seq<bool>, start: int, target: int, curr: int, parent: int, cells: seq<int>)
    requires |grid| == CellCount && Chain(grid, start, target, curr, cells)
    requires ValidIndex(curr) && grid[curr] && curr != start && Adjacent(parent, curr)
    ensures Chain(grid, start, target, parent, [curr] + cells)
  {
  }

  /** A chain that has reached the start, laid out as cell centres, is a
      valid path. */
  lemma ChainIsPath(grid: seq<bool>, start: int, target: int, cells: seq<int>, waypoints: seq<Waypoint>)
    requires |grid| == CellCount && Chain(grid, start, target, start, cells)
    requires |waypoints| == |cells| && forall j :: 0 <= j < |cells| ==> waypoints[j] == Centre(cells[j])
    ensures ValidPath(grid, start, target, waypoints)
  {
    forall j | 0 <= j < |cells|
      ensures CellAt(waypoints[j]) == cells[j] && IsCellCentre(waypoints[j])
    {
      CentreRoundTrip(cells[j]);
    }
  }

  /** The cameFrom walk from the target back to the start. The source pushes
      the waypoints and reverses the list; prepending builds the same list.
      The result is empty exactly when the target is the start. */
  method Reconstruct(grid: seq<bool>, start: int, target: int, cameFrom: array<int>, g: array<Score>)
    returns (waypoints: seq<Waypoint>)
    requires SearchInvariant(grid, start, cameFrom, g)
    requires ValidIndex(target) && g[target].Reached?
    ensures ValidPath(grid, start, target, waypoints)
    ensures waypoints == [] <==> target == start
  {
    waypoints := [];
    ghost var cells: seq<int> := [];
    var curr := target;
    while cameFrom[curr] != -1
      invariant ValidIndex(curr) && g[curr].Reached?
      invariant |waypoints| == |cells| && forall j :: 0 <= j < |cells| ==> waypoints[j] == Centre(cells[j])
      invariant Chain(grid, start, target, curr, cells)
      invariant target == start ==> cells == []
      decreases g[curr].fifths
    {
      ParentOf(grid, start, cameFrom, g, curr);
      ChainExtend(grid, start, target, curr, cameFrom[curr], cells);
      waypoints := [Centre(curr)] + waypoints;
      cells := [curr] + cells;
      curr := cameFrom[curr];
    }
    ChainIsPath(grid, start, target, cells, waypoints);
  }

  /** The update of one neighbour `n` of `current` reached by a step of cost
      `w`: taken when the cost through `current` beats n's g-score. */
  method Relax(grid: seq<bool>, hypot: (int, int) -> real, start: int, current: int, n: int, w: nat, ex: int, ey: int,
               cameFrom: array<int>, g: array<Score>, f: array<real>, open: seq<int>, ghost closed: array<bool>)
    returns (open': seq<int>)
    requires SearchInvariant(grid, start, cameFrom, g) && OpenReached(open, g)
    requires f.Length == CellCount && Covered(open, closed, g) && OpenFresh(open, closed)
    requires ValidIndex(current) && g[current].Reached?
    requires ValidIndex(n) && Adjacent(n, current) && grid[n] && !closed[n] && w > 0
    modifies cameFrom, g, f
    ensures SearchInvariant(grid, start, cameFrom, g) && OpenReached(open', g)
    ensures Covered(open', closed, g) && OpenFresh(open', closed) && g[n].Reached?
    ensures g[current] == old(g[current])
    ensures forall x :: 0 <= x < CellCount && old(g[x]).Reached? ==> g[x].Reached?
  {
    open' := open;
    var tentative := g[current].fifths + w;
    if Improves(tentative, g[n]) {
      cameFrom[n] := current;
      g[n] := Reached(tentative);
      f[n] := tentative as real / 5.0 + hypot(Col(n) - ex, Row(n) - ey);
      if n !in open' {
        open' := open' + [n];
        assert open'[|open'| - 1] == n;
      }
    }
  }

  /** The `k`-th neighbour of `current`, or None when it is off the grid. */
  function NeighbourAt(current: int, k: nat): (n: Option<int>)
    requires ValidIndex(current) && k < |Neighbours|
    ensures n.Some? ==> ValidIndex(n.value) && Adjacent(n.value, current)
  {
    IndexDecomposes(current);
    var nx := Col(current) + Neighbours[k].0;
    var ny := Row(current) + Neighbours[k].1;
    if InGrid(nx, ny) then
      IndexRoundTrip(nx, ny);
      Some(Index(nx, ny))
    else None
  }

  /** Every touching cell is the neighbour of the slot it sits in. */
  lemma NeighbourAtSlot(current: int, m: int)
    requires ValidIndex(current) && ValidIndex(m) && Adjacent(current, m)
    ensures NeighbourAt(current, NeighbourSlot(current, m)) == Some(m)
  {
    IndexDecomposes(m);
  }

  /** The `k`-th neighbour of `current`: skipped when it is off the grid,
      unwalkable or closed, relaxed otherwise. Afterwards the touching cell in
      that slot, if walkable, is reached. */
  method ExpandOne(grid: seq<bool>, hypot: (int, int) -> real, start: int, current: int, k: nat, ex: int, ey: int,
                   cameFrom: array<int>, g: array<Score>, f: array<real>, closed: array<bool>, open: seq<int>)
    returns (open': seq<int>)
    requires SearchInvariant(grid, start, cameFrom, g) && OpenReached(open, g)
    requires f.Length == CellCount && Covered(open, closed, g) && ClosedReached(closed, g) && OpenFresh(open, closed)
    requires ValidIndex(current) && g[current].Reached? && k < |Neighbours|
    modifies cameFrom, g, f
    ensures SearchInvariant(grid, start, cameFrom, g) && OpenReached(open', g)
    ensures Covered(open', closed, g) && ClosedReached(closed, g) && OpenFresh(open', closed) && g[current].Reached?
    ensures forall m :: 0 <= m < CellCount && Adjacent(current, m) && grid[m] && NeighbourSlot(current, m) == k ==>
      g[m].Reached?
    ensures forall x :: 0 <= x < CellCount && old(g[x]).Reached? ==> g[x].Reached?
  {
    open' := open;
    match NeighbourAt(current, k)
    case None =>
    case Some(n) =>
      if grid[n] && !closed[n] {
        open' := Relax(grid, hypot, start, current, n, Neighbours[k].2, ex, ey, cameFrom, g, f, open', closed);
      }
    forall m | 0 <= m < CellCount && Adjacent(current, m) && grid[m] && NeighbourSlot(current, m) == k
      ensures g[m].Reached?
    {
      NeighbourAtSlot(current, m);
    }
  }

  /** One expansion: every in-grid, walkable, unclosed neighbour of `current`
      is relaxed, in the source's neighbour order. Afterwards every walkable
      cell touching `current` is reached. */
  method ExpandNeighbours(grid: seq<bool>, hypot: (int, int) -> real, start: int, current: int, ex: int, ey: int,
                          cameFrom: array<int>, g: array<Score>, f: array<real>, closed: array<bool>, open: seq<int>)
    returns (open': seq<int>)
    requires SearchInvariant(grid, start, cameFrom, g) && OpenReached(open, g)
    requires f.Length == CellCount && Covered(open, closed, g) && ClosedReached(closed, g) && OpenFresh(open, closed)
    requires ValidIndex(current) && g[current].Reached?
    modifies cameFrom, g, f
    ensures SearchInvariant(grid, start, cameFrom, g) && OpenReached(open', g)
    ensures Covered(open', closed, g) && ClosedReached(closed, g) && OpenFresh(open', closed)
    ensures forall m :: 0 <= m < CellCount && Adjacent(current, m) && grid[m] ==> g[m].Reached?
    ensures forall x :: 0 <= x < CellCount && old(g[x]).Reached? ==> g[x].Reached?
  {
    open' := open;
    var k := 0;
    while k < |Neighbours|
      invariant 0 <= k <= |Neighbours|
      invariant SearchInvariant(grid, start, cameFrom, g) && OpenReached(open', g)
      invariant Covered(open', closed, g) && ClosedReached(closed, g) && OpenFresh(open', closed) && g[current].Reached?
      invariant forall m :: 0 <= m < CellCount && Adjacent(current, m) && grid[m] && NeighbourSlot(current, m) < k ==>
        g[m].Reached?
      invariant forall x :: 0 <= x < CellCount && old(g[x]).Reached? ==> g[x].Reached?
    {
      open' := ExpandOne(grid, hypot, start, current, k, ex, ey, cameFrom, g, f, closed, open');
      k := k + 1;
    }
  }

  /** The search's fresh bookkeeping: no parents, only the start reached
      (cost 0), nothing closed, and the start's f-score its Manhattan
      distance to the target. */
  method InitSearch(grid: seq<bool>, start: int, target: int)
    returns (cameFrom: array<int>, g: array<Score>, f: array<real>, closed: array<bool>)
    requires |grid| == CellCount && ValidIndex(start) && ValidIndex(target)
    ensures fresh(cameFrom) && fresh(g) && fresh(f) && fresh(closed)
    ensures f.Length == CellCount && closed.Length == CellCount
    ensures SearchInvariant(grid, start, cameFrom, g) && OpenReached([start], g)
    ensures forall x :: 0 <= x < CellCount ==> !closed[x] && (g[x].Reached? <==> x == start)
    ensures Covered([start], closed, g) && ClosedReached(closed, g) && ClosedExpanded(grid, closed, g)
  {
    var sx, sy, ex, ey := Col(start), Row(start), Col(target), Row(target);
    cameFrom := new int[CellCount](_ => -1);
    g := new Score[CellCount](_ => Unreached);
    // Only read for cells on the open list, all of which have been assigned.
    f := new real[CellCount](_ => 0.0);
    closed := new bool[CellCount](_ => false);
    g[start] := Reached(0);
    f[start] := ((if sx < ex then ex - sx else sx - ex) + (if sy < ey then ey - sy else sy - ey)) as real;
  }

  /** The source's `splice`: the open list without its entry at `i`. */
  function RemoveAt(open: seq<int>, i: nat): (r: seq<int>)
    requires i < |open|
    ensures |r| == |open| - 1
    ensures forall x :: x in open && x != open[i] ==> x in r
    ensures forall x :: x in r ==> x in open
    ensures (forall a, b :: 0 <= a < b < |open| ==> open[a] != open[b]) ==>
      open[i] !in r && forall a, b :: 0 <= a < b < |r| ==> r[a] != r[b]
  {
    var r := open[..i] + open[i + 1..];
    assert forall x :: x in open && x != open[i] ==> x in r by {
      forall x | x in open && x != open[i]
        ensures x in r
      {
        var j :| 0 <= j < |open| && open[j] == x;
        if j < i { assert r[j] == x; } else { assert r[j - 1] == x; }
      }
    }
    r
  }

  /** Everything the A* loop keeps true between expansions: the bookkeeping
      invariant, a fresh open list of reached cells, every reached cell open
      or closed, only reached cells closed, every walkable cell touching a
      closed one reached, and the target not closed. */
  predicate Frontier(grid: seq<bool>, start: int, target: int, open: seq<int>,
                     cameFrom: array<int>, g: array<Score>, f: array<real>, closed: array<bool>)
    reads cameFrom, g, f, closed
  {
    && SearchInvariant(grid, start, cameFrom, g) && OpenReached(open, g) && f.Length == CellCount
    && Covered(open, closed, g) && ClosedReached(closed, g) && ClosedExpanded(grid, closed, g)
    && OpenFresh(open, closed) && ValidIndex(target) && !closed[target]
  }

  /** The body of the A* loop after the target check: the chosen cell leaves
      the open list, is closed and expanded. The target is never closed, and
      every walkable cell touching a closed cell stays reached. */
  method CloseAndExpand(grid: seq<bool>, hypot: (int, int) -> real, start: int, target: int, lowest: nat, ex: int, ey: int,
                        cameFrom: array<int>, g: array<Score>, f: array<real>, closed: array<bool>, open: seq<int>)
    returns (open': seq<int>)
    requires Frontier(grid, start, target, open, cameFrom, g, f, closed)
    requires lowest < |open| && open[lowest] != target
    modifies cameFrom, g, f, closed
    ensures Frontier(grid, start, target, open', cameFrom, g, f, closed)
    ensures closed[open[lowest]] && forall x :: 0 <= x < CellCount && old(closed[x]) ==> closed[x]
    ensures forall x :: 0 <= x < CellCount && x != open[lowest] ==> closed[x] == old(closed[x])
  {
    var current := open[lowest];
    open' := RemoveAt(open, lowest);
    closed[current] := true;
    label Closed:
    open' := ExpandNeighbours(grid, hypot, start, current, ex, ey, cameFrom, g, f, closed, open');
    forall c, m | 0 <= c < CellCount && closed[c] && 0 <= m < CellCount && Adjacent(c, m) && grid[m]
      ensures g[m].Reached?
    {
      if c != current {
        assert old@Closed(g[m]).Reached?;
      }
    }
  }

  /** The A* loop from `start` to `target` with at most 2000 expansions: a
      path found is valid, and it is empty exactly when target is start.
      `expanded` counts the expansions and `closedCells` is the set of cells
      closed, one per expansion that did not reach the target: the start or
      walkable cells, never the target. So the search gives up only when no
      walkable path reaches the target or when the grid has at least 2000
      closable cells besides the target. */
  method Search(grid: seq<bool>, hypot: (int, int) -> real, start: int, target: int)
    returns (path: Option<seq<Waypoint>>, ghost expanded: nat, ghost closedCells: set<int>)
    requires |grid| == CellCount && ValidIndex(start) && ValidIndex(target)
    ensures path == Some([]) <==> target == start
    ensures path.Some? ==> ValidPath(grid, start, target, path.value)
    ensures expanded <= ExpansionLimit
    ensures |closedCells| == (if path.Some? then expanded - 1 else expanded)
    ensures forall c :: c in closedCells ==> c in Closable(grid, start) && c != target
    ensures path.None? ==> expanded == ExpansionLimit || !Reachable(grid, start, target)
    ensures path.None? ==> |Closable(grid, start) - {target}| >= ExpansionLimit || !Reachable(grid, start, target)
  {
    var cameFrom, g, f, closed := InitSearch(grid, start, target);
    var ex, ey := Col(target), Row(target);
    var open := [start];
    var limit := ExpansionLimit;
    ghost var done: set<int> := {};

    while |open| > 0 && limit > 0
      invariant Frontier(grid, start, target, open, cameFrom, g, f, closed)
      invariant 0 <= limit <= ExpansionLimit
      invariant |done| == ExpansionLimit - limit
      invariant forall c :: c in done ==> 0 <= c < CellCount && closed[c]
      invariant target == start ==> open == [start] && limit == ExpansionLimit
      decreases limit
    {
      limit := limit - 1;
      var lowest := SelectLowest(open, f);
      var current := open[lowest];

      if current == target {
        var waypoints := Reconstruct(grid, start, target, cameFrom, g);
        ClosedWithin(grid, start, target, cameFrom, g, closed, done);
        return Some(waypoints), ExpansionLimit - limit, done;
      }

      assert current !in done && |done + {current}| == |done| + 1;
      open := CloseAndExpand(grid, hypot, start, target, lowest, ex, ey, cameFrom, g, f, closed, open);
      done := done + {current};
    }
    expanded := ExpansionLimit - limit;
    ClosedWithin(grid, start, target, cameFrom, g, closed, done);
    closedCells := done;
    if limit > 0 {
      OpenExhausted(grid, start, target, cameFrom, g, f, closed);
    } else {
      SubsetNoLarger(closedCells, Closable(grid, start) - {target});
    }
    return None, expanded, closedCells;
  }

  /** Once the open list runs dry, the closed cells hold the start, not the
      target, and every walkable cell touching them: no path gets out. */
  lemma OpenExhausted(grid: seq<bool>, start: int, target: int,
                      cameFrom: array<int>, g: array<Score>, f: array<real>, closed: array<bool>)
    requires Frontier(grid, start, target, [], cameFrom, g, f, closed)
    ensures !Reachable(grid, start, target)
  {
    forall p | |p| > 0
      ensures !ValidPath(grid, start, target, p)
    {
      EnclosedSetBlocks(grid, closed[..], start, target, p);
    }
  }

  /** Closed cells are closable and never the target. */
  lemma ClosedWithin(grid: seq<bool>, start: int, target: int, cameFrom: array<int>, g: array<Score>,
                     closed: array<bool>, done: set<int>)
    requires SearchInvariant(grid, start, cameFrom, g) && ClosedReached(closed, g)
    requires ValidIndex(target) && !closed[target]
    requires forall c :: c in done ==> 0 <= c < CellCount && closed[c]
    ensures forall c :: c in done ==> c in Closable(grid, start) && c != target
  {
  }

  /** `findPath(startX, startY, endX, endY)`. `None` is the source's `null`
      (goal unreachable within the window, open list exhausted, or 2000
      expansions spent); `Some([])` means start and (resolved) goal share a
      cell. */
  method FindPath(grid: seq<bool>, hypot: (int, int) -> real, startX: real, startY: real, endX: real, endY: real)
    returns (path: Option<seq<Waypoint>>, ghost expanded: nat)
    requires |grid| == CellCount
    ensures CellOfPoint(startX, startY) == CellOfPoint(endX, endY) ==> path == Some([])
    ensures path == Some([]) <==>
      CellOfPoint(startX, startY) == CellOfPoint(endX, endY)
      || ResolveGoal(grid, CellOfPoint(endX, endY)) == Some(CellOfPoint(startX, startY))
    ensures (CellOfPoint(startX, startY) != CellOfPoint(endX, endY)
             && ResolveGoal(grid, CellOfPoint(endX, endY)).None?) ==> path.None?
    ensures path.Some? && path.value != [] ==>
      && ResolveGoal(grid, CellOfPoint(endX, endY)).Some?
      && ValidPath(grid, CellOfPoint(startX, startY), ResolveGoal(grid, CellOfPoint(endX, endY)).value, path.value)
    ensures expanded <= ExpansionLimit
    ensures path.None? && ResolveGoal(grid, CellOfPoint(endX, endY)).Some? ==>
      expanded == ExpansionLimit
      || !Reachable(grid, CellOfPoint(startX, startY), ResolveGoal(grid, CellOfPoint(endX, endY)).value)
    ensures path.None? && ResolveGoal(grid, CellOfPoint(endX, endY)).Some? ==>
      |Closable(grid, CellOfPoint(startX, startY)) - {ResolveGoal(grid, CellOfPoint(endX, endY)).value}| >= ExpansionLimit
      || !Reachable(grid, CellOfPoint(startX, startY), ResolveGoal(grid, CellOfPoint(endX, endY)).value)
  {
    var startIdx := CellOfPoint(startX, startY);
    var endIdx := CellOfPoint(endX, endY);
    if startIdx == endIdx {
      return Some([]), 0;
    }
    match ResolveGoal(grid, endIdx)
    case None =>
      return None, 0;
    case Some(targetIdx) =>
      ghost var closedCells;
      path, expanded, closedCells := Search(grid, hypot, startIdx, targetIdx);
  }
}
