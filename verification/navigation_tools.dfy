/** The navigation grid: a two-dimensional array of grid-square records,
    indexed `navGrid[x][y]`, and the operation that fills it. */
module NavigationTools {
  import opened NavGridData

  /** `navGrid[x]` is column `x`; `navGrid[x][y]` is the square at (x, y). */
  type NavigationGrid = seq<seq<NavigationGridData>>

  /** Every column has the same length, as in a two-dimensional array. */
  predicate IsGrid(g: NavigationGrid)
  {
    forall x :: 0 <= x < |g| ==> |g[x]| == |g[0]|
  }

  function SizeX(g: NavigationGrid): nat
  {
    |g|
  }

  function SizeY(g: NavigationGrid): nat
  {
    if |g| == 0 then 0 else |g[0]|
  }

  predicate InGrid(g: NavigationGrid, x: int, y: int)
  {
    0 <= x < |g| && 0 <= y < |g[x]|
  }

  /** Replaces the whole record at (x, y): both of its fields change, and
      every other square keeps its own record. */
  function SetAt(g: NavigationGrid, x: int, y: int, d: NavigationGridData): (r: NavigationGrid)
    requires InGrid(g, x, y)
    ensures |r| == |g| && forall i :: 0 <= i < |g| ==> |r[i]| == |g[i]|
    ensures IsGrid(g) ==> IsGrid(r)
    ensures r[x][y] == d
    ensures forall i, j :: InGrid(g, i, j) && (i != x || j != y) ==> r[i][j] == g[i][j]
  {
    g[x := g[x][y := d]]
  }

  /** Replaces only the weight at (x, y), as `navGrid[x][y]->weight = w` does. */
  function SetWeightAt(g: NavigationGrid, x: int, y: int, w: int): (r: NavigationGrid)
    requires InGrid(g, x, y)
    ensures |r| == |g| && forall i :: 0 <= i < |g| ==> |r[i]| == |g[i]|
    ensures IsGrid(g) ==> IsGrid(r)
    ensures r[x][y].weight == w && r[x][y].blockerDist == g[x][y].blockerDist
    ensures forall i, j :: InGrid(g, i, j) && (i != x || j != y) ==> r[i][j] == g[i][j]
  {
    SetAt(g, x, y, WithWeight(g[x][y], w))
  }

  /** `initAllNavigationGridValues`: every square of the grid receives its own
      copy of `gridData`, column by column. The dimensions do not change, and
      a grid with a zero dimension is left as it is. */
  method InitAllNavigationGridValues(navGrid: NavigationGrid, gridData: NavigationGridData)
    returns (r: NavigationGrid)
    requires IsGrid(navGrid)
    ensures IsGrid(r) && SizeX(r) == SizeX(navGrid) && SizeY(r) == SizeY(navGrid)
    ensures forall ii, jj :: 0 <= ii < SizeX(r) && 0 <= jj < SizeY(r) ==> r[ii][jj] == gridData
    ensures SizeX(navGrid) == 0 || SizeY(navGrid) == 0 ==> r == navGrid
  {
    r := navGrid;
    var ii := 0;
    while ii < SizeX(navGrid)
      invariant 0 <= ii <= SizeX(navGrid)
      invariant |r| == |navGrid| && forall i :: 0 <= i < |r| ==> |r[i]| == SizeY(navGrid)
      invariant forall i, j :: 0 <= i < ii && 0 <= j < SizeY(navGrid) ==> r[i][j] == gridData
      invariant forall i :: ii <= i < |r| ==> r[i] == navGrid[i]
    {
      var jj := 0;
      while jj < SizeY(navGrid)
        invariant 0 <= jj <= SizeY(navGrid)
        invariant |r| == |navGrid| && forall i :: 0 <= i < |r| ==> |r[i]| == SizeY(navGrid)
        invariant forall i, j :: 0 <= i < ii && 0 <= j < SizeY(navGrid) ==> r[i][j] == gridData
        invariant forall j :: 0 <= j < jj ==> r[ii][j] == gridData
        invariant forall i :: ii < i < |r| ==> r[i] == navGrid[i]
        invariant forall j :: jj <= j < SizeY(navGrid) ==> r[ii][j] == navGrid[ii][j]
      {
        r := r[ii := r[ii][jj := gridData]];
        jj := jj + 1;
      }
      ii := ii + 1;
    }
  }
}
