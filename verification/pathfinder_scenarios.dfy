/** The pathfinder's unit scenarios, each stated as a method whose contract
    is what the scenario checks of the returned paths. Every scenario binds
    a pathfinder to grid handle 0 first and stores the finished grid under
    that handle only when the search runs, as the pointer binding does. The
    grid's dimensions come in as a parameter because the two-dimensional
    array's own constructor is not modelled. */
module PathFinderScenarios {
  import opened NavGridData
  import opened NavigationTools
  import opened GridPaths
  import PathFinder

  const CLEAR := NavigationGridData(0, 0)
  const BLOCKED := NavigationGridData(BLOCKED_GRID_WEIGHT, 0)

  /** `g` is a `sizeX` by `sizeY` grid whose squares in `walls` hold BLOCKED
      and whose other squares hold CLEAR. */
  ghost predicate Laid(g: NavigationGrid, sizeX: int, sizeY: int, walls: set<Vector2i>)
  {
    && IsGrid(g) && SizeX(g) == sizeX && SizeY(g) == sizeY
    && forall x, y :: 0 <= x < sizeX && 0 <= y < sizeY ==>
         g[x][y] == (if Vector2i(x, y) in walls then BLOCKED else CLEAR)
  }

  /** A route of single moves through in-grid squares outside the walls
      shows that its last square can be reached. */
  lemma RouteReaches(g: NavigationGrid, sizeX: int, sizeY: int, walls: set<Vector2i>,
                     s: Vector2i, q: Path)
    requires Laid(g, sizeX, sizeY, walls)
    requires 0 <= s.x < sizeX && 0 <= s.y < sizeY && |q| > 0
    requires forall i :: 0 <= i < |q| ==> 0 <= q[i].x < sizeX && 0 <= q[i].y < sizeY && q[i] !in walls
    requires forall i :: 0 <= i < |q| ==> Adjacent(Prev(s, q, i), q[i])
    ensures Reachable(g, s, q[|q| - 1])
  {
    forall i | 0 <= i < |q|
      ensures Passable(g, q[i])
    {
      assert g[q[i].x][q[i].y] == CLEAR;
    }
    assert ValidPath(g, s, q[|q| - 1], q);
  }

  /** Start (1, 1) is the only open square of a blocked 3x3 grid: no path to (2, 2). */
  method OneSimplePathNoSolution(navGrid: NavigationGrid) returns (pathsReturn: seq<Path>)
    requires IsGrid(navGrid) && SizeX(navGrid) == 3 && SizeY(navGrid) == 3
    ensures |pathsReturn| == 1 && pathsReturn[0] == []
  {
    var pathfinder := PathFinder.NewPathfinderFor(0);
    var g := InitAllNavigationGridValues(navGrid, BLOCKED);
    var startPoint := Vector2i(1, 1);
    g := SetWeightAt(g, startPoint.x, startPoint.y, 0);
    var pathRequests := [PathRequest(startPoint, Vector2i(2, 2))];
    pathsReturn := PathFinder.PathFind(pathfinder, map[0 := g], pathRequests);
    BlockedGoalIsUnreachable(g, startPoint, Vector2i(2, 2));
  }

  /** On a clear 3x3 grid a path from (1, 1) to (2, 2) is found. */
  method OneSimplePathNoBlocker(navGrid: NavigationGrid) returns (pathsReturn: seq<Path>)
    requires IsGrid(navGrid) && SizeX(navGrid) == 3 && SizeY(navGrid) == 3
    ensures |pathsReturn| == 1 && |pathsReturn[0]| > 0
    ensures pathsReturn[0][|pathsReturn[0]| - 1] == Vector2i(2, 2)
  {
    var pathfinder := PathFinder.NewPathfinderFor(0);
    var g := InitAllNavigationGridValues(navGrid, CLEAR);
    var startPoint := Vector2i(1, 1);
    var pathRequests := [PathRequest(startPoint, Vector2i(2, 2))];
    pathsReturn := PathFinder.PathFind(pathfinder, map[0 := g], pathRequests);
    ghost var q := [Vector2i(2, 1), Vector2i(2, 2)];
    assert ValidPath(g, startPoint, Vector2i(2, 2), q);
  }

  /** From (0, 0) to (2, 0) with (1, 0) blocked: a path is found and it goes
      around the blocked square. */
  method OnePathSingleBlocker(navGrid: NavigationGrid) returns (pathsReturn: seq<Path>)
    requires IsGrid(navGrid) && SizeX(navGrid) == 3 && SizeY(navGrid) == 3
    ensures |pathsReturn| == 1 && |pathsReturn[0]| > 0
    ensures Vector2i(1, 0) !in pathsReturn[0]
  {
    var pathfinder := PathFinder.NewPathfinderFor(0);
    var g := InitAllNavigationGridValues(navGrid, CLEAR);
    var startPoint := Vector2i(0, 0);
    var pathRequests := [PathRequest(startPoint, Vector2i(2, 0))];
    var blockedSquareCoord := Vector2i(1, 0);
    g := SetAt(g, blockedSquareCoord.x, blockedSquareCoord.y, BLOCKED);
    pathsReturn := PathFinder.PathFind(pathfinder, map[0 := g], pathRequests);
    assert Laid(g, 3, 3, {blockedSquareCoord});
    RouteReaches(g, 3, 3, {blockedSquareCoord}, startPoint,
                 [Vector2i(0, 1), Vector2i(1, 1), Vector2i(2, 1), Vector2i(2, 0)]);
  }

  /** A request whose goal is its start returns the empty path. */
  method PathFindToStart(navGrid: NavigationGrid) returns (pathsReturn: seq<Path>)
    requires IsGrid(navGrid) && SizeX(navGrid) == 3 && SizeY(navGrid) == 3
    ensures |pathsReturn| == 1 && pathsReturn[0] == []
  {
    var pathfinder := PathFinder.NewPathfinderFor(0);
    var g := InitAllNavigationGridValues(navGrid, CLEAR);
    var startPoint := Vector2i(0, 0);
    var pathRequests := [PathRequest(startPoint, startPoint)];
    pathsReturn := PathFinder.PathFind(pathfinder, map[0 := g], pathRequests);
  }

  /** A blocked goal (1, 1) on an otherwise clear grid yields the empty path. */
  method OnePathEndBlocked(navGrid: NavigationGrid) returns (pathsReturn: seq<Path>)
    requires IsGrid(navGrid) && SizeX(navGrid) == 3 && SizeY(navGrid) == 3
    ensures |pathsReturn| == 1 && pathsReturn[0] == []
  {
    var pathfinder := PathFinder.NewPathfinderFor(0);
    var g := InitAllNavigationGridValues(navGrid, CLEAR);
    var endPoint := Vector2i(1, 1);
    g := SetWeightAt(g, endPoint.x, endPoint.y, BLOCKED_GRID_WEIGHT);
    var startPoint := Vector2i(0, 0);
    var pathRequests := [PathRequest(startPoint, endPoint)];
    pathsReturn := PathFinder.PathFind(pathfinder, map[0 := g], pathRequests);
    BlockedGoalIsUnreachable(g, startPoint, endPoint);
  }

  /** The 7x6 maze: column 2 blocked for y = 0..4 and squares (1, 2), (3, 3),
      (4, 3) blocked; a path from (1, 3) to (3, 0) is found. */
  method SingleRequestSimpleMaze(navGrid: NavigationGrid) returns (pathsReturn: seq<Path>)
    requires IsGrid(navGrid) && SizeX(navGrid) == 7 && SizeY(navGrid) == 6
    ensures |pathsReturn| == 1 && |pathsReturn[0]| > 0
    ensures pathsReturn[0][|pathsReturn[0]| - 1] == Vector2i(3, 0)
  {
    var g := InitAllNavigationGridValues(navGrid, CLEAR);
    g := SetAt(g, 2, 0, BLOCKED);
    g := SetAt(g, 2, 1, BLOCKED);
    g := SetAt(g, 2, 2, BLOCKED);
    g := SetAt(g, 2, 3, BLOCKED);
    g := SetAt(g, 2, 4, BLOCKED);
    g := SetAt(g, 1, 2, BLOCKED);
    g := SetAt(g, 3, 3, BLOCKED);
    g := SetAt(g, 4, 3, BLOCKED);
    var pathfinder := PathFinder.NewPathfinderFor(0);
    var startPoint := Vector2i(1, 3);
    var goalPoint := Vector2i(3, 0);
    var pathRequests := [PathRequest(startPoint, goalPoint)];
    pathsReturn := PathFinder.PathFind(pathfinder, map[0 := g], pathRequests);
    MazeIsSolvable(g);
  }

  /** The maze's blocked squares. */
  predicate MazeWall(x: int, y: int)
  {
    (x == 2 && y <= 4) || (x == 1 && y == 2) || (y == 3 && (x == 3 || x == 4))
  }

  /** The witness route through the maze from (1, 3): down to the open
      bottom row, across below the blocked column, and back up between the
      blockers to (3, 0). */
  function MazeRoute(): (q: Path)
    ensures |q| == 13
  {
    [Vector2i(1, 4), Vector2i(1, 5), Vector2i(2, 5), Vector2i(3, 5), Vector2i(3, 4),
     Vector2i(4, 4), Vector2i(5, 4), Vector2i(5, 3), Vector2i(5, 2), Vector2i(4, 2),
     Vector2i(3, 2), Vector2i(3, 1), Vector2i(3, 0)]
  }

  /** Every step of the route is one move. */
  lemma MazeRouteMoves()
    ensures forall i :: 0 <= i < |MazeRoute()| ==>
              Adjacent(Prev(Vector2i(1, 3), MazeRoute(), i), MazeRoute()[i])
  {
    var q := MazeRoute();
    forall i | 0 <= i < |q|
      ensures Adjacent(Prev(Vector2i(1, 3), q, i), q[i])
    {
    }
  }

  lemma MazeIsSolvable(g: NavigationGrid)
    requires IsGrid(g) && SizeX(g) == 7 && SizeY(g) == 6
    requires forall x, y :: 0 <= x < 7 && 0 <= y < 6 ==>
               g[x][y] == (if MazeWall(x, y) then BLOCKED else CLEAR)
    ensures Reachable(g, Vector2i(1, 3), Vector2i(3, 0))
  {
    var q := MazeRoute();
    forall i | 0 <= i < |q|
      ensures Passable(g, q[i])
    {
      assert 0 <= q[i].x < 7 && 0 <= q[i].y < 6 && !MazeWall(q[i].x, q[i].y);
    }
    MazeRouteMoves();
    assert ValidPath(g, Vector2i(1, 3), Vector2i(3, 0), q);
  }

  /** Two requests from (1, 1) on a clear 3x3 grid, to (2, 2) and to (0, 0):
      both paths are found. */
  method TwoPathBothClear(navGrid: NavigationGrid) returns (pathsReturn: seq<Path>)
    requires IsGrid(navGrid) && SizeX(navGrid) == 3 && SizeY(navGrid) == 3
    ensures |pathsReturn| == 2 && |pathsReturn[0]| > 0 && |pathsReturn[1]| > 0
  {
    var pathfinder := PathFinder.NewPathfinderFor(0);
    var g := InitAllNavigationGridValues(navGrid, CLEAR);
    var startPoint := Vector2i(1, 1);
    var pathRequests := [PathRequest(startPoint, Vector2i(2, 2)), PathRequest(startPoint, Vector2i(0, 0))];
    pathsReturn := PathFinder.PathFind(pathfinder, map[0 := g], pathRequests);
    assert Laid(g, 3, 3, {});
    RouteReaches(g, 3, 3, {}, startPoint, [Vector2i(2, 1), Vector2i(2, 2)]);
    RouteReaches(g, 3, 3, {}, startPoint, [Vector2i(0, 1), Vector2i(0, 0)]);
  }

  /** On a fully blocked grid both requests return the empty path. */
  method TwoPathBothBlocked(navGrid: NavigationGrid) returns (pathsReturn: seq<Path>)
    requires IsGrid(navGrid) && SizeX(navGrid) == 3 && SizeY(navGrid) == 3
    ensures |pathsReturn| == 2 && pathsReturn[0] == [] && pathsReturn[1] == []
  {
    var pathfinder := PathFinder.NewPathfinderFor(0);
    var g := InitAllNavigationGridValues(navGrid, BLOCKED);
    var pathRequests := [PathRequest(Vector2i(1, 1), Vector2i(2, 2)), PathRequest(Vector2i(2, 2), Vector2i(0, 0))];
    pathsReturn := PathFinder.PathFind(pathfinder, map[0 := g], pathRequests);
    BlockedGoalIsUnreachable(g, Vector2i(1, 1), Vector2i(2, 2));
    BlockedGoalIsUnreachable(g, Vector2i(2, 2), Vector2i(0, 0));
  }

  /** Only column 0 is cleared: (0, 0) to (0, 2) is found, (2, 0) to (2, 2) is not. */
  method TwoPathOneBlocked(navGrid: NavigationGrid) returns (pathsReturn: seq<Path>)
    requires IsGrid(navGrid) && SizeX(navGrid) == 3 && SizeY(navGrid) == 3
    ensures |pathsReturn| == 2 && |pathsReturn[0]| > 0 && pathsReturn[1] == []
  {
    var pathfinder := PathFinder.NewPathfinderFor(0);
    var g := InitAllNavigationGridValues(navGrid, BLOCKED);
    g := SetWeightAt(g, 0, 0, 0);
    g := SetWeightAt(g, 0, 1, 0);
    g := SetWeightAt(g, 0, 2, 0);
    var startPoint := Vector2i(0, 0);
    var startPoint2 := Vector2i(2, 0);
    var pathRequests := [PathRequest(startPoint, Vector2i(0, 2)), PathRequest(startPoint2, Vector2i(2, 2))];
    pathsReturn := PathFinder.PathFind(pathfinder, map[0 := g], pathRequests);
    ghost var q := [Vector2i(0, 1), Vector2i(0, 2)];
    assert ValidPath(g, startPoint, Vector2i(0, 2), q);
    BlockedGoalIsUnreachable(g, startPoint2, Vector2i(2, 2));
  }

  /** From (2, 0) to (0, 0) with (1, 0) blocked: a path is found and it goes
      around the blocked square. */
  method OnePathSingleLeftBlocker(navGrid: NavigationGrid) returns (pathsReturn: seq<Path>)
    requires IsGrid(navGrid) && SizeX(navGrid) == 3 && SizeY(navGrid) == 3
    ensures |pathsReturn| == 1 && |pathsReturn[0]| > 0
    ensures Vector2i(1, 0) !in pathsReturn[0]
  {
    var pathfinder := PathFinder.NewPathfinderFor(0);
    var g := InitAllNavigationGridValues(navGrid, CLEAR);
    var startPoint := Vector2i(2, 0);
    var pathRequests := [PathRequest(startPoint, Vector2i(0, 0))];
    var blockedSquareCoord := Vector2i(1, 0);
    g := SetAt(g, blockedSquareCoord.x, blockedSquareCoord.y, BLOCKED);
    pathsReturn := PathFinder.PathFind(pathfinder, map[0 := g], pathRequests);
    assert Laid(g, 3, 3, {blockedSquareCoord});
    RouteReaches(g, 3, 3, {blockedSquareCoord}, startPoint,
                 [Vector2i(2, 1), Vector2i(1, 1), Vector2i(0, 1), Vector2i(0, 0)]);
  }

  /** On a 2x2 grid with clear corners (0, 0) and (1, 1), one side square
      weighing 1 and the other 500, (0, 0) is reachable from (1, 1) and no
      cheapest path between them enters the heavy side. */
  lemma CheapSideWins(g: NavigationGrid, light: Vector2i, heavy: Vector2i)
    requires IsGrid(g) && SizeX(g) == 2 && SizeY(g) == 2 && NonNegativeWeights(g)
    requires || (light == Vector2i(0, 1) && heavy == Vector2i(1, 0))
             || (light == Vector2i(1, 0) && heavy == Vector2i(0, 1))
    requires g[0][0] == CLEAR && g[1][1] == CLEAR
    requires g[light.x][light.y].weight == 1 && g[heavy.x][heavy.y].weight == 500
    ensures Reachable(g, Vector2i(1, 1), Vector2i(0, 0))
    ensures forall p :: ShortestPath(g, Vector2i(1, 1), Vector2i(0, 0), p) ==> heavy !in p
  {
    var s, t := Vector2i(1, 1), Vector2i(0, 0);
    var q := [light, t];
    assert ValidPath(g, s, t, q);
    CostCons(g, t, []);
    CostCons(g, light, [t]);
    forall p | ShortestPath(g, s, t, p)
      ensures heavy !in p
    {
      HeavySquareAvoided(g, s, t, p, q, heavy);
    }
  }

  /** On a 2x2 grid from (1, 1) to (0, 0), with (0, 1) weighing 1 and (1, 0)
      weighing 500, the path avoids the heavy square (1, 0). */
  method TwoPathDifferentWeightPaths(navGrid: NavigationGrid) returns (pathsReturn: seq<Path>)
    requires IsGrid(navGrid) && SizeX(navGrid) == 2 && SizeY(navGrid) == 2
    ensures |pathsReturn| == 1 && |pathsReturn[0]| > 0
    ensures Vector2i(1, 0) !in pathsReturn[0]
  {
    var pathfinder := PathFinder.NewPathfinderFor(0);
    var g := InitAllNavigationGridValues(navGrid, CLEAR);
    var startPoint := Vector2i(1, 1);
    var goal := Vector2i(0, 0);
    var pathRequests := [PathRequest(startPoint, goal)];
    var leftSquareCoord := Vector2i(0, 1);
    g := SetAt(g, leftSquareCoord.x, leftSquareCoord.y, NavigationGridData(1, 0));
    var upSquareCoord := Vector2i(1, 0);
    g := SetAt(g, upSquareCoord.x, upSquareCoord.y, NavigationGridData(500, 0));
    pathsReturn := PathFinder.PathFind(pathfinder, map[0 := g], pathRequests);
    CheapSideWins(g, leftSquareCoord, upSquareCoord);
  }

  /** The same grid with the weights swapped: the path avoids (0, 1) instead. */
  method TwoPathDifferentWeightPathsFlipped(navGrid: NavigationGrid) returns (pathsReturn: seq<Path>)
    requires IsGrid(navGrid) && SizeX(navGrid) == 2 && SizeY(navGrid) == 2
    ensures |pathsReturn| == 1 && |pathsReturn[0]| > 0
    ensures Vector2i(0, 1) !in pathsReturn[0]
  {
    var pathfinder := PathFinder.NewPathfinderFor(0);
    var g := InitAllNavigationGridValues(navGrid, CLEAR);
    var startPoint := Vector2i(1, 1);
    var goal := Vector2i(0, 0);
    var pathRequests := [PathRequest(startPoint, goal)];
    var leftSquareCoord := Vector2i(0, 1);
    g := SetAt(g, leftSquareCoord.x, leftSquareCoord.y, NavigationGridData(500, 0));
    var upSquareCoord := Vector2i(1, 0);
    g := SetAt(g, upSquareCoord.x, upSquareCoord.y, NavigationGridData(1, 0));
    pathsReturn := PathFinder.PathFind(pathfinder, map[0 := g], pathRequests);
    CheapSideWins(g, upSquareCoord, leftSquareCoord);
  }
}
