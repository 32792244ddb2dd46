/** The batched pathfinder: a uniform-cost search over the 4-connected
    squares of a navigation grid, one independent search per request. */
module PathFinder {
  import opened Wrappers
  import opened NavGridData
  import opened NavigationTools
  import opened GridPaths
  import VectorOrder

  // ---------------------------------------------------------------------
  // Binding a grid

  /** The address of a navigation grid in the caller's memory. */
  type GridRef = nat

  /** A pathfinder holds a non-owning pointer to its grid, or none. */
  datatype Pathfinder = Pathfinder(navigationGrid: Option<GridRef>)

  /** `getNavigationGrid`: the address the pathfinder is bound to. A search
      reads whatever that address holds, and nothing else about the
      pathfinder matters. */
  function GetNavigationGrid(p: Pathfinder): (r: Option<GridRef>)
    ensures Pathfinder(r) == p
    ensures forall memory: map<GridRef, NavigationGrid> :: r.Some? && r.value in memory ==>
              BoundGrid(p, memory) == Some(memory[r.value])
    ensures forall memory: map<GridRef, NavigationGrid> :: r.None? ==> BoundGrid(p, memory) == None
  {
    p.navigationGrid
  }

  /** The default constructor binds no grid. */
  function NewPathfinder(): (p: Pathfinder)
    ensures GetNavigationGrid(p) == None
  {
    Pathfinder(None)
  }

  /** The grid constructor binds the very grid it is given. */
  function NewPathfinderFor(navigationGrid: GridRef): (p: Pathfinder)
    ensures GetNavigationGrid(p) == Some(navigationGrid)
  {
    Pathfinder(Some(navigationGrid))
  }

  /** Rebinding replaces any earlier grid by the very grid given. */
  function SetNavigationGrid(p: Pathfinder, navigationGrid: GridRef): (r: Pathfinder)
    ensures GetNavigationGrid(r) == Some(navigationGrid)
  {
    p.(navigationGrid := Some(navigationGrid))
  }

  /** The grid a search reads: whatever the bound address holds at the time
      of the call. */
  function BoundGrid(p: Pathfinder, memory: map<GridRef, NavigationGrid>): Option<NavigationGrid>
  {
    if p.navigationGrid.Some? && p.navigationGrid.value in memory
    then Some(memory[p.navigationGrid.value])
    else None
  }

  /** The grid is bound by address, not copied: writing the grid after
      binding it changes what the pathfinder searches. */
  lemma BindingIsByReference(p: Pathfinder, ref: GridRef, memory: map<GridRef, NavigationGrid>, g: NavigationGrid)
    ensures BoundGrid(SetNavigationGrid(p, ref), memory[ref := g]) == Some(g)
    ensures BoundGrid(NewPathfinderFor(ref), memory[ref := g]) == Some(g)
    ensures BoundGrid(NewPathfinder(), memory) == None
  {
  }

  // ---------------------------------------------------------------------
  // Search helpers

  /** Every square of the grid. */
  function Cells(g: NavigationGrid): (r: set<Vector2i>)
    ensures forall c :: c in r <==> InBounds(g, c)
  {
    var r := set x, y | 0 <= x < |g| && 0 <= y < |g[x]| :: Vector2i(x, y);
    assert forall c :: InBounds(g, c) ==> c in r by {
      forall c | InBounds(g, c) ensures c in r {
        assert c == Vector2i(c.x, c.y);
      }
    }
    r
  }

  /** `getNeighbors`: the in-grid squares one move away, each listed once. */
  function GetNeighbors(g: NavigationGrid, c: Vector2i): (r: seq<Vector2i>)
    ensures forall n :: n in r <==> InBounds(g, n) && Adjacent(c, n)
    ensures forall i, j :: 0 <= i < j < |r| ==> r[i] != r[j]
  {
    var candidates := [Vector2i(c.x + 1, c.y), Vector2i(c.x - 1, c.y),
                       Vector2i(c.x, c.y + 1), Vector2i(c.x, c.y - 1)];
    InGridOnly(g, candidates)
  }

  function InGridOnly(g: NavigationGrid, cs: seq<Vector2i>): (r: seq<Vector2i>)
    ensures forall n :: n in r <==> n in cs && InBounds(g, n)
    ensures |r| <= |cs|
    ensures (forall i, j :: 0 <= i < j < |cs| ==> cs[i] != cs[j]) ==>
              forall i, j :: 0 <= i < j < |r| ==> r[i] != r[j]
  {
    if |cs| == 0 then []
    else if InBounds(g, cs[0]) then [cs[0]] + InGridOnly(g, cs[1..])
    else InGridOnly(g, cs[1..])
  }

  /** The order in which open squares are taken: lower cost first, and among
      equal costs the lower coordinate under the vector key order. */
  predicate Before(dist: map<Vector2i, int>, a: Vector2i, b: Vector2i)
    requires a in dist && b in dist
  {
    || dist[a] < dist[b]
    || (dist[a] == dist[b] && VectorOrder.Less(Key(a), Key(b)))
  }

  function Key(c: Vector2i): VectorOrder.Vector3i
  {
    VectorOrder.Vector3i(c.x, c.y, 0)
  }

  lemma BeforeIsTransitive(dist: map<Vector2i, int>, a: Vector2i, b: Vector2i, c: Vector2i)
    requires a in dist && b in dist && c in dist
    requires Before(dist, a, b) && Before(dist, b, c)
    ensures Before(dist, a, c)
  {
    if dist[a] == dist[b] == dist[c] {
      VectorOrder.LessIsTransitive(Key(a), Key(b), Key(c));
    }
  }

  lemma BeforeIsTotal(dist: map<Vector2i, int>, a: Vector2i, b: Vector2i)
    requires a in dist && b in dist && a != b
    ensures Before(dist, a, b) <==> !Before(dist, b, a)
  {
    VectorOrder.LessIsTrichotomous(Key(a), Key(b));
  }

  /** The square `chooseNextHex` must return: the first open square in the
      `Before` order. */
  ghost predicate IsNextOpen(open: set<Vector2i>, dist: map<Vector2i, int>, u: Vector2i)
    requires open <= dist.Keys
  {
    u in open && forall o :: o in open && o != u ==> Before(dist, u, o)
  }

  /** At most one square is first: the choice is deterministic. */
  lemma NextOpenIsUnique(open: set<Vector2i>, dist: map<Vector2i, int>, u1: Vector2i, u2: Vector2i)
    requires open <= dist.Keys
    requires IsNextOpen(open, dist, u1) && IsNextOpen(open, dist, u2)
    ensures u1 == u2
  {
    if u1 != u2 {
      BeforeIsTotal(dist, u1, u2);
    }
  }

  /** `chooseNextHex`: the cheapest open square, ties going to the lower key. */
  method ChooseNextHex(open: set<Vector2i>, dist: map<Vector2i, int>) returns (u: Vector2i)
    requires open != {} && open <= dist.Keys
    ensures IsNextOpen(open, dist, u)
    ensures forall o :: o in open ==> dist[u] <= dist[o]
  {
    u :| u in open;
    var rest := open - {u};
    while rest != {}
      invariant rest <= open && u in open && u !in rest
      invariant forall o :: o in open - rest && o != u ==> Before(dist, u, o)
      decreases rest
    {
      var c :| c in rest;
      if Before(dist, c, u) {
        forall o | o in open - rest && o != u
          ensures Before(dist, c, o)
        {
          BeforeIsTransitive(dist, c, u, o);
        }
        u := c;
      } else {
        BeforeIsTotal(dist, c, u);
      }
      rest := rest - {c};
    }
  }

  // ---------------------------------------------------------------------
  // Search state and its invariant

  /** Every square that got a tentative cost (the open and the closed ones)
      got it from a finalised neighbour: it is one passable move away from
      its `cameFrom` square and costs exactly that square's cost plus its
      own weight. */
  ghost predicate Parents(g: NavigationGrid, s: Vector2i, dist: map<Vector2i, int>,
                          cameFrom: map<Vector2i, Vector2i>, closed: set<Vector2i>)
  {
    forall v :: v in dist && v != s ==>
      && v in cameFrom && cameFrom[v] in closed && cameFrom[v] in dist
      && Adjacent(cameFrom[v], v) && Passable(g, v)
      && dist[v] == dist[cameFrom[v]] + Weight(g, v)
  }

  /** Every passable neighbour of `c` has a tentative cost no worse than
      going through `c`. */
  ghost predicate RelaxedFrom(g: NavigationGrid, dist: map<Vector2i, int>, c: Vector2i)
    requires c in dist
  {
    forall n :: Passable(g, n) && Adjacent(c, n) ==>
      n in dist && dist[n] <= dist[c] + Weight(g, n)
  }

  ghost predicate Relaxed(g: NavigationGrid, dist: map<Vector2i, int>, closed: set<Vector2i>)
    requires closed <= dist.Keys
  {
    forall c :: c in closed ==> RelaxedFrom(g, dist, c)
  }

  /** The bookkeeping shared by every step of the search from `s`: closed
      squares cost at most `level`, open squares at least `level`. */
  ghost predicate Consistent(g: NavigationGrid, s: Vector2i, level: int, open: set<Vector2i>, closed: set<Vector2i>,
                             dist: map<Vector2i, int>, cameFrom: map<Vector2i, Vector2i>)
  {
    && (forall v :: v in dist ==> InBounds(g, v) && dist[v] >= 0)
    && s in dist && dist[s] == 0
    && dist.Keys == open + closed && open !! closed
    && (forall c :: c in closed ==> dist[c] <= level)
    && (forall o :: o in open ==> level <= dist[o])
    && Parents(g, s, dist, cameFrom, closed)
  }

  /** Squares are closed one at a time; a closed square's `cameFrom` square
      was closed before it, so following `cameFrom` reaches `s`. */
  ghost predicate Ranked(s: Vector2i, closed: set<Vector2i>, cameFrom: map<Vector2i, Vector2i>,
                         rank: map<Vector2i, nat>)
  {
    && closed <= rank.Keys
    && forall v :: v in closed && v != s && v in cameFrom && cameFrom[v] in rank ==>
         rank[cameFrom[v]] < rank[v]
  }

  // ---------------------------------------------------------------------
  // Why the search is right

  /** The first square along `q` (counting `s` as square 0) that is not closed. */
  lemma FirstExit(s: Vector2i, q: Path, closed: set<Vector2i>) returns (k: nat)
    requires Prev(s, q, |q|) !in closed
    ensures k <= |q| && Prev(s, q, k) !in closed
    ensures forall i :: 0 <= i < k ==> Prev(s, q, i) in closed
  {
    k := 0;
    while Prev(s, q, k) in closed
      invariant k <= |q|
      invariant forall i :: 0 <= i < k ==> Prev(s, q, i) in closed
      decreases |q| - k
    {
      k := k + 1;
    }
  }

  /** A walk that has only left closed squares so far has reached a square
      with a tentative cost no higher than what the walk paid. */
  lemma {:induction false} ClosedPrefixBound(g: NavigationGrid, s: Vector2i, dist: map<Vector2i, int>,
                                            closed: set<Vector2i>, q: Path, k: int)
    requires IsWalk(g, s, q) && 0 <= k <= |q|
    requires s in dist && dist[s] == 0 && closed <= dist.Keys
    requires Relaxed(g, dist, closed)
    requires forall i :: 0 <= i < k ==> Prev(s, q, i) in closed
    ensures AllInBounds(g, q[..k])
    ensures Prev(s, q, k) in dist && dist[Prev(s, q, k)] <= Cost(g, q[..k])
  {
    if k > 0 {
      ClosedPrefixBound(g, s, dist, closed, q, k - 1);
      var before, next := Prev(s, q, k - 1), q[k - 1];
      assert Passable(g, next) && Adjacent(before, next);
      assert before in closed;
      RelaxedStep(g, dist, closed, before, next);
      PrefixSnoc(g, q, k);
    }
  }

  lemma RelaxedStep(g: NavigationGrid, dist: map<Vector2i, int>, closed: set<Vector2i>, c: Vector2i, n: Vector2i)
    requires closed <= dist.Keys && Relaxed(g, dist, closed)
    requires c in closed && Passable(g, n) && Adjacent(c, n)
    ensures n in dist && dist[n] <= dist[c] + Weight(g, n)
  {
    assert RelaxedFrom(g, dist, c);
  }

  lemma PrefixSnoc(g: NavigationGrid, q: Path, k: int)
    requires AllInBounds(g, q) && 0 < k <= |q|
    ensures AllInBounds(g, q[..k - 1]) && AllInBounds(g, q[..k])
    ensures Cost(g, q[..k]) == Cost(g, q[..k - 1]) + Weight(g, q[k - 1])
  {
    assert q[..k] == q[..k - 1] + [q[k - 1]];
    CostSnoc(g, q[..k - 1], q[k - 1]);
  }

  /** When `t` is the cheapest open square, no path to `t` costs less than
      its tentative cost. */
  lemma NoCheaperPath(g: NavigationGrid, s: Vector2i, t: Vector2i, open: set<Vector2i>, closed: set<Vector2i>,
                      dist: map<Vector2i, int>, q: Path)
    requires NonNegativeWeights(g)
    requires s in dist && dist[s] == 0
    requires dist.Keys == open + closed && open !! closed
    requires Relaxed(g, dist, closed)
    requires t in open && forall o :: o in open ==> dist[t] <= dist[o]
    requires ValidPath(g, s, t, q)
    ensures AllInBounds(g, q) && dist[t] <= Cost(g, q)
  {
    var k := FirstExit(s, q, closed);
    ClosedPrefixBound(g, s, dist, closed, q, k);
    CostPrefixAtMost(g, q, k);
  }

  /** When no square is open any more and `t` was never closed, `t` cannot
      be reached from `s`. */
  lemma NoWayOut(g: NavigationGrid, s: Vector2i, t: Vector2i, closed: set<Vector2i>, dist: map<Vector2i, int>)
    requires s in dist && dist[s] == 0
    requires dist.Keys == closed
    requires Relaxed(g, dist, closed)
    requires t !in closed
    ensures !Reachable(g, s, t)
  {
    forall q | ValidPath(g, s, t, q)
      ensures false
    {
      var k := FirstExit(s, q, closed);
      ClosedPrefixBound(g, s, dist, closed, q, k);
    }
  }

  // ---------------------------------------------------------------------
  // The search

  /** `reconstructPath`: follow `cameFrom` back from `t` to `s` and return
      the squares in walking order, without `s`. */
  method ReconstructPath(g: NavigationGrid, s: Vector2i, t: Vector2i, cameFrom: map<Vector2i, Vector2i>,
                         dist: map<Vector2i, int>, closed: set<Vector2i>, ghost rank: map<Vector2i, nat>)
    returns (path: Path)
    requires InBounds(g, s) && s in dist && dist[s] == 0
    requires closed <= dist.Keys
    requires Parents(g, s, dist, cameFrom, closed)
    requires Ranked(s, closed, cameFrom, rank)
    requires t in closed && t != s
    ensures ValidPath(g, s, t, path)
    ensures AllInBounds(g, path) && Cost(g, path) == dist[t]
    ensures Simple(s, path)
  {
    path := [];
    var current := t;
    while current != s
      invariant current in closed
      invariant path == [] ==> current == t
      invariant path != [] ==> IsWalk(g, current, path) && path[|path| - 1] == t
      invariant AllInBounds(g, path) && Cost(g, path) + dist[current] == dist[t]
      invariant Simple(s, path)
      invariant forall i :: 0 <= i < |path| ==> path[i] in rank && rank[path[i]] > rank[current]
      decreases rank[current]
    {
      var previous := cameFrom[current];
      if path != [] {
        WalkCons(g, previous, current, path);
      } else {
        assert IsWalk(g, previous, [current] + path) by {
          assert [current] + path == [current];
        }
      }
      CostCons(g, current, path);
      path := [current] + path;
      current := previous;
    }
  }

  /** Lowering the tentative cost of a neighbour `n` of the newly closed
      square `u` to the cost through `u` keeps the search consistent. */
  lemma ImproveKeepsInvariant(g: NavigationGrid, s: Vector2i, u: Vector2i, n: Vector2i,
                              open: set<Vector2i>, closed: set<Vector2i>,
                              dist: map<Vector2i, int>, cameFrom: map<Vector2i, Vector2i>)
    requires NonNegativeWeights(g)
    requires u in closed && u in dist && Consistent(g, s, dist[u], open, closed, dist, cameFrom)
    requires Relaxed(g, dist, closed - {u})
    requires n !in closed && Passable(g, n) && Adjacent(u, n)
    requires n !in dist || dist[u] + Weight(g, n) < dist[n]
    ensures Consistent(g, s, dist[u], open + {n}, closed, dist[n := dist[u] + Weight(g, n)], cameFrom[n := u])
    ensures Relaxed(g, dist[n := dist[u] + Weight(g, n)], closed - {u})
  {
    var dist' := dist[n := dist[u] + Weight(g, n)];
    ImproveKeepsParents(g, s, u, n, closed, dist, cameFrom);
    ImproveKeepsRelaxed(g, u, n, closed, dist);
  }

  lemma ImproveKeepsParents(g: NavigationGrid, s: Vector2i, u: Vector2i, n: Vector2i, closed: set<Vector2i>,
                            dist: map<Vector2i, int>, cameFrom: map<Vector2i, Vector2i>)
    requires s in dist && dist[s] == 0 && u in closed && u in dist && dist[u] >= 0
    requires Parents(g, s, dist, cameFrom, closed)
    requires n !in closed && Passable(g, n) && Adjacent(u, n) && Weight(g, n) >= 0
    requires n !in dist || dist[u] + Weight(g, n) < dist[n]
    ensures Parents(g, s, dist[n := dist[u] + Weight(g, n)], cameFrom[n := u], closed)
  {
    var dist', cameFrom' := dist[n := dist[u] + Weight(g, n)], cameFrom[n := u];
    assert n != s;
    forall v | v in dist' && v != s
      ensures v in cameFrom' && cameFrom'[v] in closed && cameFrom'[v] in dist'
      ensures Adjacent(cameFrom'[v], v) && Passable(g, v)
      ensures dist'[v] == dist'[cameFrom'[v]] + Weight(g, v)
    {
      if v != n {
        assert cameFrom'[v] == cameFrom[v] && cameFrom[v] != n;
      }
    }
  }

  lemma ImproveKeepsRelaxed(g: NavigationGrid, u: Vector2i, n: Vector2i, closed: set<Vector2i>,
                            dist: map<Vector2i, int>)
    requires closed <= dist.Keys && u in dist && n !in closed && Passable(g, n)
    requires Relaxed(g, dist, closed - {u})
    requires n !in dist || dist[u] + Weight(g, n) < dist[n]
    ensures Relaxed(g, dist[n := dist[u] + Weight(g, n)], closed - {u})
  {
    var dist' := dist[n := dist[u] + Weight(g, n)];
    forall c | c in closed - {u}
      ensures RelaxedFrom(g, dist', c)
    {
      assert RelaxedFrom(g, dist, c);
    }
  }

  /** One relaxation: if entering the neighbour `n` through `u` is cheaper
      than what is known for `n`, record that cost and `u` as where it came from. */
  method RelaxNeighbor(g: NavigationGrid, s: Vector2i, u: Vector2i, n: Vector2i,
                       open: set<Vector2i>, closed: set<Vector2i>,
                       dist: map<Vector2i, int>, cameFrom: map<Vector2i, Vector2i>)
    returns (open': set<Vector2i>, dist': map<Vector2i, int>, cameFrom': map<Vector2i, Vector2i>)
    requires NonNegativeWeights(g)
    requires u in closed && u in dist && Consistent(g, s, dist[u], open, closed, dist, cameFrom)
    requires Relaxed(g, dist, closed - {u})
    requires InBounds(g, n) && Adjacent(u, n)
    ensures Consistent(g, s, dist[u], open', closed, dist', cameFrom')
    ensures Relaxed(g, dist', closed - {u})
    ensures forall c :: c in closed ==> dist'[c] == dist[c]
    ensures forall c :: c in closed && c in cameFrom ==> c in cameFrom' && cameFrom'[c] == cameFrom[c]
    ensures forall v :: v in dist ==> v in dist' && dist'[v] <= dist[v]
    ensures Passable(g, n) ==> n in dist' && dist'[n] <= dist'[u] + Weight(g, n)
  {
    open', dist', cameFrom' := open, dist, cameFrom;
    if n !in closed && Passable(g, n) {
      var candidate := dist[u] + Weight(g, n);
      if n !in dist || candidate < dist[n] {
        ImproveKeepsInvariant(g, s, u, n, open, closed, dist, cameFrom);
        dist' := dist[n := candidate];
        cameFrom' := cameFrom[n := u];
        open' := open + {n};
      }
    }
  }

  /** The first `k` squares of `ns` can be entered from `u` at no more than
      the cost through `u`. */
  ghost predicate RelaxedUpTo(g: NavigationGrid, dist: map<Vector2i, int>, u: Vector2i, ns: seq<Vector2i>, k: int)
    requires u in dist && 0 <= k <= |ns|
  {
    forall j :: 0 <= j < k && Passable(g, ns[j]) ==> ns[j] in dist && dist[ns[j]] <= dist[u] + Weight(g, ns[j])
  }

  lemma ProcessedStayRelaxed(g: NavigationGrid, u: Vector2i, ns: seq<Vector2i>, i: int,
                             dist: map<Vector2i, int>, dist': map<Vector2i, int>)
    requires 0 <= i < |ns| && u in dist && RelaxedUpTo(g, dist, u, ns, i)
    requires forall v :: v in dist ==> v in dist' && dist'[v] <= dist[v]
    requires dist'[u] == dist[u]
    requires Passable(g, ns[i]) ==> ns[i] in dist' && dist'[ns[i]] <= dist'[u] + Weight(g, ns[i])
    ensures RelaxedUpTo(g, dist', u, ns, i + 1)
  {
  }

  /** Relax the neighbours of the newly closed square `u`. */
  method RelaxNeighbors(g: NavigationGrid, s: Vector2i, u: Vector2i, open: set<Vector2i>, closed: set<Vector2i>,
                        dist: map<Vector2i, int>, cameFrom: map<Vector2i, Vector2i>)
    returns (open': set<Vector2i>, dist': map<Vector2i, int>, cameFrom': map<Vector2i, Vector2i>)
    requires NonNegativeWeights(g)
    requires u in closed && u in dist && Consistent(g, s, dist[u], open, closed, dist, cameFrom)
    requires Relaxed(g, dist, closed - {u})
    ensures Consistent(g, s, dist[u], open', closed, dist', cameFrom')
    ensures Relaxed(g, dist', closed)
    ensures forall c :: c in closed ==> dist'[c] == dist[c]
    ensures forall c :: c in closed && c in cameFrom ==> c in cameFrom' && cameFrom'[c] == cameFrom[c]
  {
    open', dist', cameFrom' := open, dist, cameFrom;
    var neighbors := GetNeighbors(g, u);
    var i := 0;
    while i < |neighbors|
      invariant 0 <= i <= |neighbors|
      invariant Consistent(g, s, dist[u], open', closed, dist', cameFrom')
      invariant Relaxed(g, dist', closed - {u})
      invariant forall c :: c in closed ==> dist'[c] == dist[c]
      invariant forall c :: c in closed && c in cameFrom ==> c in cameFrom' && cameFrom'[c] == cameFrom[c]
      invariant RelaxedUpTo(g, dist', u, neighbors, i)
    {
      assert neighbors[i] in neighbors;
      ghost var dist0 := dist';
      open', dist', cameFrom' := RelaxNeighbor(g, s, u, neighbors[i], open', closed, dist', cameFrom');
      ProcessedStayRelaxed(g, u, neighbors, i, dist0, dist');
      i := i + 1;
    }
    forall n | Passable(g, n) && Adjacent(u, n)
      ensures n in dist' && dist'[n] <= dist'[u] + Weight(g, n)
    {
      var j :| 0 <= j < |neighbors| && neighbors[j] == n;
    }
  }

  /** Closing the cheapest open square `u` keeps the search consistent. */
  lemma CloseKeepsInvariant(g: NavigationGrid, s: Vector2i, level: int, u: Vector2i, open: set<Vector2i>, closed: set<Vector2i>,
                            dist: map<Vector2i, int>, cameFrom: map<Vector2i, Vector2i>,
                            rank: map<Vector2i, nat>, time: nat)
    requires Consistent(g, s, level, open, closed, dist, cameFrom) && Relaxed(g, dist, closed)
    requires Ranked(s, closed, cameFrom, rank) && forall c :: c in rank ==> rank[c] < time
    requires u in open && forall o :: o in open ==> dist[u] <= dist[o]
    ensures Consistent(g, s, dist[u], open - {u}, closed + {u}, dist, cameFrom)
    ensures Relaxed(g, dist, (closed + {u}) - {u})
    ensures Ranked(s, closed + {u}, cameFrom, rank[u := time])
  {
    assert (closed + {u}) - {u} == closed;
  }

  /** Relaxing changes nothing about closed squares, so their ranks still
      lead back to the start. */
  lemma RelaxKeepsRanks(g: NavigationGrid, s: Vector2i, closed: set<Vector2i>, dist: map<Vector2i, int>,
                        cameFrom: map<Vector2i, Vector2i>, cameFrom': map<Vector2i, Vector2i>, rank: map<Vector2i, nat>)
    requires Ranked(s, closed, cameFrom, rank)
    requires closed <= dist.Keys && Parents(g, s, dist, cameFrom, closed)
    requires forall c :: c in closed && c in cameFrom ==> c in cameFrom' && cameFrom'[c] == cameFrom[c]
    ensures Ranked(s, closed, cameFrom', rank)
  {
  }

  /** One request: the search from `s` to `t`. */
  method FindPath(g: NavigationGrid, s: Vector2i, t: Vector2i) returns (path: Path)
    requires NonNegativeWeights(g)
    ensures path == [] <==> (s == t || !Reachable(g, s, t))
    ensures path != [] ==> ShortestPath(g, s, t, path) && Simple(s, path)
  {
    if s == t || !InBounds(g, s) || !InBounds(g, t) {
      return [];
    }
    var open := {s};
    var closed: set<Vector2i> := {};
    var dist := map[s := 0];
    var cameFrom: map<Vector2i, Vector2i> := map[];
    ghost var rank: map<Vector2i, nat> := map[];
    ghost var time: nat := 0;
    ghost var level := 0;
    while open != {}
      invariant Consistent(g, s, level, open, closed, dist, cameFrom)
      invariant Relaxed(g, dist, closed)
      invariant t !in closed
      invariant Ranked(s, closed, cameFrom, rank)
      invariant forall c :: c in rank ==> rank[c] < time
      decreases Cells(g) - closed
    {
      var u := ChooseNextHex(open, dist);
      ghost var open0, closed0 := open, closed;
      CloseKeepsInvariant(g, s, level, u, open, closed, dist, cameFrom, rank, time);
      level := dist[u];
      open := open - {u};
      closed := closed + {u};
      rank := rank[u := time];
      time := time + 1;
      if u == t {
        forall q | ValidPath(g, s, t, q)
          ensures AllInBounds(g, q) && dist[t] <= Cost(g, q)
        {
          NoCheaperPath(g, s, t, open0, closed0, dist, q);
        }
        path := ReconstructPath(g, s, t, cameFrom, dist, closed, rank);
        return;
      }
      ghost var dist0, cameFrom0 := dist, cameFrom;
      open, dist, cameFrom := RelaxNeighbors(g, s, u, open, closed, dist, cameFrom);
      RelaxKeepsRanks(g, s, closed, dist0, cameFrom0, cameFrom, rank);
    }
    NoWayOut(g, s, t, closed, dist);
    return [];
  }

  /** `pathFind`: one result per request, at the same index, each the result
      of its own search on the bound grid. The requests are only read. */
  method PathFind(pathfinder: Pathfinder, memory: map<GridRef, NavigationGrid>, pathRequests: seq<PathRequest>)
    returns (returnedPaths: seq<Path>)
    requires BoundGrid(pathfinder, memory).Some?
    requires NonNegativeWeights(BoundGrid(pathfinder, memory).value)
    ensures |returnedPaths| == |pathRequests|
    ensures forall i :: 0 <= i < |pathRequests| ==>
              IsPathResult(BoundGrid(pathfinder, memory).value, pathRequests[i], returnedPaths[i])
  {
    var g := BoundGrid(pathfinder, memory).value;
    returnedPaths := [];
    var i := 0;
    while i < |pathRequests|
      invariant 0 <= i <= |pathRequests| && |returnedPaths| == i
      invariant forall j :: 0 <= j < i ==> IsPathResult(g, pathRequests[j], returnedPaths[j])
    {
      var path := FindPath(g, pathRequests[i].start, pathRequests[i].goal);
      returnedPaths := returnedPaths + [path];
      i := i + 1;
    }
  }
}
