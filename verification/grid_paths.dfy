/** What a path over a navigation grid is, what it costs, and what the
    pathfinder promises to return for one request. */
module GridPaths {
  import opened NavGridData
  import opened NavigationTools

  /** Grid coordinates (`sf::Vector2i`). */
  datatype Vector2i = Vector2i(x: int, y: int)

  /** One search: from `start` to `goal`. */
  datatype PathRequest = PathRequest(start: Vector2i, goal: Vector2i)

  /** The squares entered one after the other; the start square is not part
      of it, so its first element is the first square to move to. */
  type Path = seq<Vector2i>

  predicate InBounds(g: NavigationGrid, c: Vector2i)
  {
    InGrid(g, c.x, c.y)
  }

  /** The cost charged for entering square `c`. */
  function Weight(g: NavigationGrid, c: Vector2i): int
    requires InBounds(g, c)
  {
    g[c.x][c.y].weight
  }

  /** A square the search may enter: inside the grid and not blocked. */
  predicate Passable(g: NavigationGrid, c: Vector2i)
  {
    InBounds(g, c) && !IsBlocked(g[c.x][c.y])
  }

  /** Weights are not range-checked by the grid; the search needs them to be
      non-negative. */
  predicate NonNegativeWeights(g: NavigationGrid)
  {
    forall x, y :: 0 <= x < |g| && 0 <= y < |g[x]| ==> g[x][y].weight >= 0
  }

  /** One move: a step to one of the four axis-aligned neighbours. */
  predicate Adjacent(a: Vector2i, b: Vector2i)
  {
    || (a.x == b.x && (a.y == b.y + 1 || b.y == a.y + 1))
    || (a.y == b.y && (a.x == b.x + 1 || b.x == a.x + 1))
  }

  /** The square occupied before entering `p[i]` (after `i` moves). */
  function Prev(from: Vector2i, p: Path, i: int): Vector2i
    requires 0 <= i <= |p|
  {
    if i == 0 then from else p[i - 1]
  }

  /** Every square of `p` is passable and is one move away from the square
      before it, starting from `from`. */
  ghost predicate IsWalk(g: NavigationGrid, from: Vector2i, p: Path)
  {
    forall i :: 0 <= i < |p| ==> Passable(g, p[i]) && Adjacent(Prev(from, p, i), p[i])
  }

  /** A path from `s` to `t`: a non-empty walk from an in-grid start that ends at `t`. */
  ghost predicate ValidPath(g: NavigationGrid, s: Vector2i, t: Vector2i, p: Path)
  {
    InBounds(g, s) && |p| > 0 && IsWalk(g, s, p) && p[|p| - 1] == t
  }

  ghost predicate Reachable(g: NavigationGrid, s: Vector2i, t: Vector2i)
  {
    exists p :: ValidPath(g, s, t, p)
  }

  predicate AllInBounds(g: NavigationGrid, p: Path)
  {
    forall i :: 0 <= i < |p| ==> InBounds(g, p[i])
  }

  /** The sum of the weights of the entered squares; the start is never charged. */
  function Cost(g: NavigationGrid, p: Path): int
    requires AllInBounds(g, p)
  {
    if |p| == 0 then 0 else Weight(g, p[0]) + Cost(g, p[1..])
  }

  /** A valid path no valid path undercuts. */
  ghost predicate ShortestPath(g: NavigationGrid, s: Vector2i, t: Vector2i, p: Path)
  {
    && ValidPath(g, s, t, p)
    && forall q :: ValidPath(g, s, t, q) ==> Cost(g, p) <= Cost(g, q)
  }

  /** A path that never comes back to its start and enters no square twice,
      as a path read back along `cameFrom` links is. */
  predicate Simple(s: Vector2i, p: Path)
  {
    && s !in p
    && forall i, j :: 0 <= i < j < |p| ==> p[i] != p[j]
  }

  /** What the pathfinder returns for one request: the empty path when the
      start is the goal or the goal cannot be reached, otherwise a cheapest
      path that visits no square twice. */
  ghost predicate IsPathResult(g: NavigationGrid, req: PathRequest, p: Path)
  {
    && (p == [] <==> (req.start == req.goal || !Reachable(g, req.start, req.goal)))
    && (p != [] ==> ShortestPath(g, req.start, req.goal, p) && Simple(req.start, p))
  }

  // ---------------------------------------------------------------------
  // Walks and costs

  /** Prepending one legal move to a walk gives a walk. */
  lemma WalkCons(g: NavigationGrid, from: Vector2i, c: Vector2i, p: Path)
    requires Passable(g, c) && Adjacent(from, c) && IsWalk(g, c, p)
    ensures IsWalk(g, from, [c] + p)
  {
    var q := [c] + p;
    forall i | 0 <= i < |q|
      ensures Passable(g, q[i]) && Adjacent(Prev(from, q, i), q[i])
    {
      if i > 0 {
        assert q[i] == p[i - 1] && Prev(from, q, i) == Prev(c, p, i - 1);
      }
    }
  }

  lemma CostCons(g: NavigationGrid, c: Vector2i, p: Path)
    requires InBounds(g, c) && AllInBounds(g, p)
    ensures AllInBounds(g, [c] + p)
    ensures Cost(g, [c] + p) == Weight(g, c) + Cost(g, p)
  {
    assert ([c] + p)[1..] == p;
  }

  /** Appending a square adds its weight. */
  lemma {:induction false} CostSnoc(g: NavigationGrid, p: Path, c: Vector2i)
    requires AllInBounds(g, p) && InBounds(g, c)
    ensures AllInBounds(g, p + [c])
    ensures Cost(g, p + [c]) == Cost(g, p) + Weight(g, c)
  {
    if |p| > 0 {
      assert (p + [c])[1..] == p[1..] + [c];
      CostSnoc(g, p[1..], c);
    }
  }

  /** With non-negative weights, no path costs less than nothing. */
  lemma {:induction false} CostNonNegative(g: NavigationGrid, p: Path)
    requires NonNegativeWeights(g) && AllInBounds(g, p)
    ensures Cost(g, p) >= 0
  {
    if |p| > 0 {
      CostNonNegative(g, p[1..]);
    }
  }

  /** With non-negative weights, a prefix of a path costs no more than the path. */
  lemma {:induction false} CostPrefixAtMost(g: NavigationGrid, p: Path, k: int)
    requires NonNegativeWeights(g) && AllInBounds(g, p) && 0 <= k <= |p|
    ensures AllInBounds(g, p[..k])
    ensures Cost(g, p[..k]) <= Cost(g, p)
  {
    if k == 0 {
      CostNonNegative(g, p);
    } else {
      assert p[..k][1..] == p[1..][..k - 1];
      CostPrefixAtMost(g, p[1..], k - 1);
    }
  }

  /** With non-negative weights, a path costs at least the weight of any
      square it enters. */
  lemma {:induction false} CostAtLeastMember(g: NavigationGrid, p: Path, i: int)
    requires NonNegativeWeights(g) && AllInBounds(g, p) && 0 <= i < |p|
    ensures Cost(g, p) >= Weight(g, p[i])
  {
    if i == 0 {
      CostNonNegative(g, p[1..]);
    } else {
      CostAtLeastMember(g, p[1..], i - 1);
    }
  }

  /** Two results for the same request agree on whether a path was found
      and on its cost: only the choice among equally cheap paths is open. */
  lemma ResultsAgreeUpToTies(g: NavigationGrid, req: PathRequest, p1: Path, p2: Path)
    requires IsPathResult(g, req, p1) && IsPathResult(g, req, p2)
    ensures p1 == [] <==> p2 == []
    ensures p1 != [] ==> AllInBounds(g, p1) && AllInBounds(g, p2) && Cost(g, p1) == Cost(g, p2)
  {
  }

  /** A goal that cannot be entered cannot be reached, however clear the
      rest of the grid is. */
  lemma BlockedGoalIsUnreachable(g: NavigationGrid, s: Vector2i, t: Vector2i)
    requires !Passable(g, t)
    ensures !Reachable(g, s, t)
  {
  }

  /** A square that alone weighs more than some whole route between the same
      ends never appears on a cheapest path. */
  lemma {:induction false} HeavySquareAvoided(g: NavigationGrid, s: Vector2i, t: Vector2i,
                                              p: Path, q: Path, c: Vector2i)
    requires NonNegativeWeights(g) && InBounds(g, c)
    requires ShortestPath(g, s, t, p) && ValidPath(g, s, t, q)
    requires Cost(g, q) < Weight(g, c)
    ensures c !in p
  {
    if c in p {
      var i :| 0 <= i < |p| && p[i] == c;
      CostAtLeastMember(g, p, i);
    }
  }
}
