# GameBackbone core, modelled in Dafny

This project models four self-contained pieces of the GameBackbone game
library and proves what each of them promises.

1. **The batched weighted grid pathfinder.** A `NavigationGrid` is a 2-D grid
   of `NavigationGridData` records `{weight, blockerDist}`, indexed
   `navGrid[x][y]`. A square whose weight reaches `BLOCKED_GRID_WEIGHT`
   (10000) is never entered. `Pathfinder::pathFind` takes a batch of
   `(start, goal)` requests and returns one path per request, at the same
   index. A path lists the squares entered after the start, one
   4-connected move at a time. The path is empty when the start is the
   goal or the goal cannot be reached. Otherwise it is a cheapest route,
   where cost is the sum of the weights of the entered squares.
   - The search (`FindPath`) is a uniform-cost search. It keeps an open set,
     a closed set, a distance map and a `cameFrom` map. Each round takes the
     cheapest open square (`ChooseNextHex`) and relaxes its in-grid
     neighbours (`GetNeighbors`). The path is rebuilt by following
     `cameFrom` back from the goal (`ReconstructPath`).
   - Its loop invariants prove three things: that every result is a valid
     path, that it has minimum cost, and that an empty result means the
     goal is unreachable.
   - The header `PathFinder.h` still declares an older hex-grid (`Vector3i`)
     interface. The search body of `PathFinder.cpp` is not part of this
     model; the behaviour follows the square-grid unit tests in
     `PathFinderTests.cpp`.
   - Each of those tests is restated as a method in module
     `PathFinderScenarios`. Each method builds the test's grid with
     `initAllNavigationGridValues` and the same cell writes, then calls
     `PathFind`. It then proves the test's expectation from `PathFind`'s
     contract alone.
   - The grid fill `initAllNavigationGridValues` is modelled too. So is the
     ordering `operator<` / `operator>` on `sf::Vector3i`, which the search
     uses to key its sets and maps.
2. **The `AnimatedSprite` frame state machine.**
   - `init` resets the sprite.
   - `runAnimation` starts an animation at frame 0.
   - `update` moves to the next frame, cyclically. It does so only when the
     sprite is animating and more than `animationDelay` milliseconds have
     passed since the last advance.
   - The elapsed time is an `int` compared against an `unsigned`. The model
     states this conversion explicitly (`MachineInts.ToUnsigned`). A clock
     that went backwards by at most 2^31 ms therefore reads as a huge
     elapsed time and advances the frame, for any delay below 2^31.
3. **`TransformIterator`.** An iterator adaptor that pairs a wrapped iterator
   with a transform. Dereferencing applies the transform. The moves shift the
   wrapped iterator, and comparisons ignore the transform. The wrapped
   iterator is modelled as a position in a sequence.

Modules: `Wrappers` (`Option`), `MachineInts` (32-bit integer conversions),
`NavGridData`, `NavigationTools`, `VectorOrder`, `GridPaths` (paths, costs
and the result a request must get), `PathFinder`, `PathFinderScenarios`,
`AnimatedSprites`, `TransformIterators`.

## Model

| member | source | states |
|---|---|---|
| NavGridData.WithWeight | GameBackboneSln/GameBackboneDll/header/Navigation/NavigationGridData.h:10-13 | writing a square's weight replaces the weight and keeps its blocker distance |
| NavGridData.SentinelIsTheThreshold | GameBackboneSln/GameBackboneDll/header/Navigation/NavigationGridData.h:5-12 | the sentinel weight 10000 blocks a square, every lower weight leaves it passable, and the unsigned blocker distance is never negative |
| NavigationTools.SetAt | GameBackboneSln/GameBackboneDll/header/Navigation/NavigationTools.h:39-40 | storing a record in one square keeps the grid's shape, puts the record at that square and leaves every other square as it was |
| NavigationTools.SetWeightAt | GameBackboneSln/GameBackboneUnitTest/Source/PathFinderTests.cpp:62 | writing one square's weight through the grid changes that weight only; every other square and the square's blocker distance are kept |
| NavigationTools.InitAllNavigationGridValues | GameBackboneSln/GameBackboneDll/header/Navigation/NavigationTools.h:34-43 | after the fill every square of the grid equals the given record, the grid keeps its dimensions, and a grid with a zero dimension is left as it was |
| VectorOrder.LessIsLexicographic | GameBackboneSln/GameBackboneDll/PathFinder.h:65-73 | `operator<` is the lexicographic order on (x, y, z) |
| VectorOrder.LessIsIrreflexive | GameBackboneSln/GameBackboneDll/PathFinder.h:72 | no vector is less than itself |
| VectorOrder.LessIsTransitive | GameBackboneSln/GameBackboneDll/PathFinder.h:65-73 | `operator<` is transitive |
| VectorOrder.LessIsTrichotomous | GameBackboneSln/GameBackboneDll/PathFinder.h:65-73 | for distinct vectors exactly one of a < b and b < a holds, and neither holds for equal ones, so it is a strict total order usable as a set key |
| VectorOrder.GreaterIsGreaterOrEqual | GameBackboneSln/GameBackboneDll/PathFinder.h:75-83 | `operator>` holds exactly when b < a or a == b; it is reflexive, so it means "greater or equal" and not the strict order its comment announces |
| GridPaths.WalkCons | GameBackboneSln/GameBackboneDll/PathFinder.h:41-42 | one legal move in front of a walk gives a walk from the earlier square |
| GridPaths.CostCons | GameBackboneSln/GameBackboneUnitTest/Source/PathFinderTests.cpp:444-491 | a path with one more square in front costs that square's weight more |
| GridPaths.CostSnoc | GameBackboneSln/GameBackboneDll/PathFinder.h:42 | a path with one more square at the end costs that square's weight more |
| GridPaths.CostNonNegative | GameBackboneSln/GameBackboneUnitTest/Source/PathFinderTests.cpp:444-540 | over non-negative weights no path costs less than zero |
| GridPaths.CostPrefixAtMost | GameBackboneSln/GameBackboneUnitTest/Source/PathFinderTests.cpp:444-540 | over non-negative weights a prefix of a path costs at most the whole path |
| GridPaths.CostAtLeastMember | GameBackboneSln/GameBackboneUnitTest/Source/PathFinderTests.cpp:444-540 | over non-negative weights a path costs at least the weight of any square it enters |
| GridPaths.ResultsAgreeUpToTies | GameBackboneSln/GameBackboneDll/PathFinder.h:35 | two acceptable answers to one request agree on whether a path exists and on its cost; only the choice among equally cheap routes is free |
| GridPaths.BlockedGoalIsUnreachable | GameBackboneSln/GameBackboneUnitTest/Source/PathFinderTests.cpp:183-213 | a goal square that is blocked or outside the grid cannot be reached from anywhere |
| GridPaths.HeavySquareAvoided | GameBackboneSln/GameBackboneUnitTest/Source/PathFinderTests.cpp:444-540 | a square heavier than some whole route between the same ends never lies on a cheapest path |
| PathFinder.GetNavigationGrid | GameBackboneSln/GameBackboneDll/PathFinder.h:32 | returns the bound grid's address, which is all the pathfinder holds; a search reads whatever that address holds, and with no address it reads no grid |
| PathFinder.NewPathfinder | GameBackboneSln/GameBackboneUnitTest/Source/PathFinderTests.cpp:17-25 | a default-constructed pathfinder has no grid |
| PathFinder.NewPathfinderFor | GameBackboneSln/GameBackboneUnitTest/Source/PathFinderTests.cpp:27-35 | the grid constructor binds the grid it is given |
| PathFinder.SetNavigationGrid | GameBackboneSln/GameBackboneUnitTest/Source/PathFinderTests.cpp:39-48 | after `setNavigationGrid` the pathfinder reports the grid it was given |
| PathFinder.BindingIsByReference | GameBackboneSln/GameBackboneDll/PathFinder.h:21-32 | the pathfinder holds the grid itself, not a copy: whatever that grid holds when a search runs is what is searched, and an unbound pathfinder sees no grid |
| PathFinder.Cells | GameBackboneSln/GameBackboneDll/PathFinder.h:40 | the squares a search may visit are exactly the in-grid squares |
| PathFinder.GetNeighbors | GameBackboneSln/GameBackboneDll/PathFinder.h:41 | the neighbours of a square are exactly the in-grid squares one 4-connected move away, each listed once |
| PathFinder.InGridOnly | GameBackboneSln/GameBackboneDll/PathFinder.h:41 | filtering candidates keeps exactly the in-grid ones, never more than were given, and adds no duplicates |
| PathFinder.BeforeIsTransitive | GameBackboneSln/GameBackboneDll/PathFinder.h:40 | the order in which open squares are taken (cost, then the coordinate key) is transitive |
| PathFinder.BeforeIsTotal | GameBackboneSln/GameBackboneDll/PathFinder.h:40 | of two distinct open squares exactly one is taken first |
| PathFinder.NextOpenIsUnique | GameBackboneSln/GameBackboneDll/PathFinder.h:40 | the next square to take is determined uniquely by the open set and the distances |
| PathFinder.ChooseNextHex | GameBackboneSln/GameBackboneDll/PathFinder.h:40 | the chosen square is open and no open square is cheaper |
| PathFinder.FirstExit | GameBackboneSln/GameBackboneDll/PathFinder.h:35 | a walk that ends outside the closed set has a first square outside it, and every square before that one is closed |
| PathFinder.ClosedPrefixBound | GameBackboneSln/GameBackboneDll/PathFinder.h:35 | while a walk stays on settled squares, the distance known for the square it reaches is at most the walk's cost so far |
| PathFinder.RelaxedStep | GameBackboneSln/GameBackboneDll/PathFinder.h:41 | once a square is settled, each passable neighbour has a known distance at most the square's distance plus the neighbour's weight |
| PathFinder.PrefixSnoc | GameBackboneSln/GameBackboneDll/PathFinder.h:42 | a path prefix one square longer costs that square's weight more |
| PathFinder.NoCheaperPath | GameBackboneSln/GameBackboneDll/PathFinder.h:35-40 | when the cheapest open square is the goal, no path to the goal costs less than its recorded distance |
| PathFinder.NoWayOut | GameBackboneSln/GameBackboneUnitTest/Source/PathFinderTests.cpp:52-81 | when the search runs out of open squares without settling the goal, no path reaches the goal |
| PathFinder.ReconstructPath | GameBackboneSln/GameBackboneDll/PathFinder.h:42 | following `cameFrom` back from a settled goal yields a valid path from the start whose cost is the goal's recorded distance, never passes back through the start and enters no square twice |
| PathFinder.ImproveKeepsInvariant | GameBackboneSln/GameBackboneDll/PathFinder.h:41-42 | recording a cheaper way into a neighbour keeps the search's invariant |
| PathFinder.ImproveKeepsParents | GameBackboneSln/GameBackboneDll/PathFinder.h:42 | recording a cheaper way into a neighbour keeps every `cameFrom` link a legal move whose distances add up |
| PathFinder.ImproveKeepsRelaxed | GameBackboneSln/GameBackboneDll/PathFinder.h:41 | lowering a distance never breaks the relaxation of the settled squares |
| PathFinder.RelaxNeighbor | GameBackboneSln/GameBackboneDll/PathFinder.h:41 | processing one neighbour keeps the invariant, never raises a distance, leaves the settled squares alone, and leaves the neighbour no dearer than a route through the current square |
| PathFinder.ProcessedStayRelaxed | GameBackboneSln/GameBackboneDll/PathFinder.h:41 | neighbours already processed stay relaxed while the remaining ones are processed |
| PathFinder.RelaxNeighbors | GameBackboneSln/GameBackboneDll/PathFinder.h:41 | after all neighbours of the current square are processed, every settled square, the current one included, is relaxed |
| PathFinder.CloseKeepsInvariant | GameBackboneSln/GameBackboneDll/PathFinder.h:40 | settling the cheapest open square keeps the invariant and gives it a rank above every earlier square |
| PathFinder.RelaxKeepsRanks | GameBackboneSln/GameBackboneDll/PathFinder.h:42 | the `cameFrom` links of settled squares lead back to the start, and updates of open squares do not change this |
| PathFinder.FindPath | GameBackboneSln/GameBackboneUnitTest/Source/PathFinderTests.cpp:52-540 | the path is empty exactly when the start is the goal or the goal is unreachable; otherwise it is a valid path of minimum cost that never passes back through the start and enters no square twice |
| PathFinder.PathFind | GameBackboneSln/GameBackboneDll/PathFinder.h:35 | one result per request, at the same index, each the answer to its own request alone on the bound grid |
| PathFinderScenarios.RouteReaches | GameBackboneSln/GameBackboneUnitTest/Source/PathFinderTests.cpp:83-109 | on a grid of clear squares and walls, a route of adjacent in-grid non-wall squares shows that its last square is reachable |
| PathFinderScenarios.MazeRouteMoves | GameBackboneSln/GameBackboneUnitTest/Source/PathFinderTests.cpp:215-276 | the route through the test maze consists of 13 single moves |
| PathFinderScenarios.MazeIsSolvable | GameBackboneSln/GameBackboneUnitTest/Source/PathFinderTests.cpp:215-276 | the goal of the 7×6 test maze is reachable from its start |
| PathFinderScenarios.OneSimplePathNoSolution | GameBackboneSln/GameBackboneUnitTest/Source/PathFinderTests.cpp:52-81 | when every square but the start is blocked, the path is empty |
| PathFinderScenarios.OneSimplePathNoBlocker | GameBackboneSln/GameBackboneUnitTest/Source/PathFinderTests.cpp:83-109 | on an open 3×3 grid the path is non-empty and ends at the goal |
| PathFinderScenarios.OnePathSingleBlocker | GameBackboneSln/GameBackboneUnitTest/Source/PathFinderTests.cpp:111-152 | the path exists and detours around the blocked square (1,0) |
| PathFinderScenarios.PathFindToStart | GameBackboneSln/GameBackboneUnitTest/Source/PathFinderTests.cpp:154-181 | a request from a square to itself yields the empty path |
| PathFinderScenarios.OnePathEndBlocked | GameBackboneSln/GameBackboneUnitTest/Source/PathFinderTests.cpp:183-213 | a blocked goal yields the empty path although every other square is clear |
| PathFinderScenarios.SingleRequestSimpleMaze | GameBackboneSln/GameBackboneUnitTest/Source/PathFinderTests.cpp:215-276 | the path through the 7×6 maze exists and ends at the goal |
| PathFinderScenarios.TwoPathBothClear | GameBackboneSln/GameBackboneUnitTest/Source/PathFinderTests.cpp:278-310 | two solvable requests in one batch both get non-empty paths |
| PathFinderScenarios.TwoPathBothBlocked | GameBackboneSln/GameBackboneUnitTest/Source/PathFinderTests.cpp:312-343 | two requests from and to blocked squares both get empty paths |
| PathFinderScenarios.TwoPathOneBlocked | GameBackboneSln/GameBackboneUnitTest/Source/PathFinderTests.cpp:345-400 | in one batch the solvable request gets a path and the unsolvable one gets none, independently |
| PathFinderScenarios.OnePathSingleLeftBlocker | GameBackboneSln/GameBackboneUnitTest/Source/PathFinderTests.cpp:402-442 | the path in the other direction also detours around the blocked square (1,0) |
| PathFinderScenarios.CheapSideWins | GameBackboneSln/GameBackboneUnitTest/Source/PathFinderTests.cpp:444-540 | on the 2×2 weight-test grid the far corner is reachable, and no cheapest path to it enters the side square of weight 500 while the other side weighs 1 |
| PathFinderScenarios.TwoPathDifferentWeightPaths | GameBackboneSln/GameBackboneUnitTest/Source/PathFinderTests.cpp:444-491 | from (1,1) to (0,0) the path avoids the weight-500 square (1,0) and goes through the weight-1 square |
| PathFinderScenarios.TwoPathDifferentWeightPathsFlipped | GameBackboneSln/GameBackboneUnitTest/Source/PathFinderTests.cpp:493-540 | with the weights swapped the path avoids the weight-500 square (0,1) |
| MachineInts.ToUnsigned | GameBackbone/AnimatedSprite.cpp:112 | converting an `int` to `unsigned` keeps its value modulo 2^32: non-negative values are unchanged, negative ones gain 2^32 |
| AnimatedSprites.Init | GameBackbone/AnimatedSprite.cpp:36-44 | after `init` the sprite is not animating, at frame 0 of animation 0, with no current animation and zero time and delay; its texture and animation set are kept |
| AnimatedSprites.NewAnimatedSprite | GameBackbone/AnimatedSprite.cpp:10-19 | a sprite built without animations starts idle, with no animation set, showing the base texture |
| AnimatedSprites.NewAnimatedSpriteWith | GameBackbone/AnimatedSprite.cpp:27-32 | a sprite built with animations starts idle and shows the first frame of the first animation; without such a frame construction fails |
| AnimatedSprites.SetAnimating | GameBackbone/AnimatedSprite.cpp:55-57 | `setAnimating` stores the flag and changes nothing else |
| AnimatedSprites.SetCurrentFrame | GameBackbone/AnimatedSprite.cpp:60-62 | `setCurrentFrame` stores the frame and changes nothing else |
| AnimatedSprites.SetAnimations | GameBackbone/AnimatedSprite.cpp:65-67 | `setAnimations` installs the given animation list and changes nothing else |
| AnimatedSprites.SetAnimationDelay | GameBackbone/AnimatedSprite.cpp:70-72 | `setAnimationDelay` stores the delay and changes nothing else |
| AnimatedSprites.GetCurrentFrame | GameBackbone/AnimatedSprite.cpp:77-79 | returns the frame the sprite holds (writing it back changes nothing), which is 0 for a freshly initialised sprite |
| AnimatedSprites.GetCurrentAnimationId | GameBackbone/AnimatedSprite.cpp:82-84 | returns the animation id the sprite holds, 0 for a freshly initialised sprite |
| AnimatedSprites.GetAnimationDelay | GameBackbone/AnimatedSprite.cpp:87-89 | returns the delay the sprite holds, 0 for a freshly initialised sprite |
| AnimatedSprites.IsAnimating | GameBackbone/AnimatedSprite.cpp:92-94 | returns the animating flag the sprite holds, false for a freshly initialised sprite |
| AnimatedSprites.SettersRoundTrip | GameBackbone/AnimatedSprite.cpp:55-94 | each getter returns what its setter stored, each setter leaves the other properties alone, and storing what a getter returns changes nothing |
| AnimatedSprites.RunAnimation | GameBackbone/AnimatedSprite.cpp:102-107 | a valid id starts that animation at frame 0 and changes nothing else; an id past the end fails after `animating` and the id were already written |
| AnimatedSprites.NextFrame | GameBackbone/AnimatedSprite.cpp:113 | the next frame index is always inside the animation |
| AnimatedSprites.Update | GameBackbone/AnimatedSprite.cpp:110-116 | without an advance nothing changes; an advance moves to a frame inside the animation, shows that frame, stamps the current time and changes nothing else |
| AnimatedSprites.AdvanceAfterDelay | GameBackbone/AnimatedSprite.cpp:112 | for a clock that did not go backwards, the frame advances exactly when the sprite is animating and the elapsed time exceeds the delay |
| AnimatedSprites.ClockRewindAdvances | GameBackbone/AnimatedSprite.cpp:112 | a negative elapsed time converts to a huge unsigned value: for a delay below 2^31, a clock rewound by at most 2^31 ms advances an animating sprite |
| AnimatedSprites.StoppedIgnoresUpdates | GameBackbone/AnimatedSprite.cpp:112 | a sprite that is not animating, whether never started or stopped mid-animation, is unchanged by `update` |
| AnimatedSprites.FrameStaysInRange | GameBackbone/AnimatedSprite.cpp:105-114 | starting a non-empty animation and then updating keeps the frame index inside the current animation |
| AnimatedSprites.NextFrameSteps | GameBackbone/AnimatedSprite.cpp:113 | the next frame is the following one, or frame 0 after the last |
| AnimatedSprites.FramesAdvance | GameBackbone/AnimatedSprite.cpp:113 | up to one full cycle, n advances move n frames on, wrapping once past the end |
| AnimatedSprites.FrameAfterAdds | GameBackbone/AnimatedSprite.cpp:113 | a advances followed by b advances equal a + b advances |
| AnimatedSprites.FramesCycle | GameBackbone/AnimatedSprite.cpp:113 | an animation returns to its frame after exactly as many advances as it has frames, not sooner, and repeats with that period |
| AnimatedSprites.UpdateAdvancesOneFrame | GameBackbone/AnimatedSprite.cpp:113 | an advancing update moves the frame exactly one step of the cycle |
| AnimatedSprites.UpdateAll | GameBackbone/AnimatedSprite.cpp:110-116 | a series of updates keeps the current animation and keeps the frame inside it |
| AnimatedSprites.UpdatesPlayInOrder | GameBackbone/AnimatedSprite.cpp:110-116 | after n advancing updates the sprite is n steps further along the cycle and shows that frame |
| TransformIterators.Advance | GameBackboneSln/GameBackbone/Include/GameBackbone/Util/TransformIterator.h:177-193 | moving the wrapped iterator by n changes its position by n over the same sequence |
| TransformIterators.MakeTransformIterator | GameBackboneSln/GameBackbone/Include/GameBackbone/Util/TransformIterator.h:296-300 | a new adaptor wraps the given iterator and dereferences to the transform applied to it |
| TransformIterators.GetWrappedIterator | GameBackboneSln/GameBackbone/Include/GameBackbone/Util/TransformIterator.h:316-319 | the returned iterator, put back together with the adaptor's transform, is the adaptor itself: nothing else is held |
| TransformIterators.Deref | GameBackboneSln/GameBackbone/Include/GameBackbone/Util/TransformIterator.h:325-329 | dereferencing applies the adaptor's own transform to exactly the iterator `getWrappedIterator` returns |
| TransformIterators.Eq | GameBackboneSln/GameBackbone/Include/GameBackbone/Util/TransformIterator.h:336-339 | two adaptors are equal exactly when their wrapped iterators run over the same sequence and stand at the same position, whatever their transforms |
| TransformIterators.EqWrapped | GameBackboneSln/GameBackbone/Include/GameBackbone/Util/TransformIterator.h:346-349 | comparing with a raw wrapped iterator gives the same answer as comparing with an adaptor around it |
| TransformIterators.Ne | GameBackboneSln/GameBackbone/Include/GameBackbone/Util/TransformIterator.h:356-359 | `!=` between adaptors is exactly the negation of `==` |
| TransformIterators.NeWrapped | GameBackboneSln/GameBackbone/Include/GameBackbone/Util/TransformIterator.h:366-369 | `!=` against a raw wrapped iterator is exactly the negation of `==` against it |
| TransformIterators.Index | GameBackboneSln/GameBackbone/Include/GameBackbone/Util/TransformIterator.h:247-252 | `it[n]` is the transform applied to the wrapped iterator moved n places, and `it[0]` is `*it` |
| TransformIterators.ToWrapped | GameBackboneSln/GameBackbone/Include/GameBackbone/Util/TransformIterator.h:306-319 | the explicit conversion yields the same wrapped iterator as `getWrappedIterator` |
| TransformIterators.ComparisonIgnoresTransform | GameBackboneSln/GameBackbone/Include/GameBackbone/Util/TransformIterator.h:336-369 | `==` and `!=` compare only the wrapped iterators, against another adaptor or a raw wrapped iterator, whatever the transforms; `!=` is the negation of `==` |
| TransformIterators.PreIncrement | GameBackboneSln/GameBackbone/Include/GameBackbone/Util/TransformIterator.h:375-379 | prefix `++` moves one place forward and keeps the transform |
| TransformIterators.PostIncrement | GameBackboneSln/GameBackbone/Include/GameBackbone/Util/TransformIterator.h:386-391 | postfix `++` hands back a copy that compares equal to the old iterator and dereferences to the old value, and leaves the iterator one place further on with the same transform and sequence |
| TransformIterators.PreDecrement | GameBackboneSln/GameBackbone/Include/GameBackbone/Util/TransformIterator.h:110-114 | prefix `--` moves one place back and keeps the transform |
| TransformIterators.PostDecrement | GameBackboneSln/GameBackbone/Include/GameBackbone/Util/TransformIterator.h:122-127 | postfix `--` hands back a copy that compares equal to the old iterator and dereferences to the old value, and leaves the iterator one place back with the same transform and sequence |
| TransformIterators.PlusAssign | GameBackboneSln/GameBackbone/Include/GameBackbone/Util/TransformIterator.h:177-181 | `+= n` moves n places forward and keeps the transform |
| TransformIterators.MinusAssign | GameBackboneSln/GameBackbone/Include/GameBackbone/Util/TransformIterator.h:189-193 | `-= n` moves n places back and keeps the transform |
| TransformIterators.Plus | GameBackboneSln/GameBackbone/Include/GameBackbone/Util/TransformIterator.h:202-207 | `it + n` is a new iterator where `it += n` would have moved `it` |
| TransformIterators.PlusLeft | GameBackboneSln/GameBackbone/Include/GameBackbone/Util/TransformIterator.h:217-220 | `n + it` is an iterator n places further on over the same sequence with the same transform, which is where `it + n` lands |
| TransformIterators.Minus | GameBackboneSln/GameBackbone/Include/GameBackbone/Util/TransformIterator.h:229-234 | `it - n` is a new iterator where `it -= n` would have moved `it` |
| TransformIterators.IndexIsDerefOfPlus | GameBackboneSln/GameBackbone/Include/GameBackbone/Util/TransformIterator.h:247-252 | `it[n]` equals `*(it + n)`, the transform applied n places on, and `it[0]` is `*it` |
| TransformIterators.PlusMinusAssignRoundTrip | GameBackboneSln/GameBackbone/Include/GameBackbone/Util/TransformIterator.h:177-193 | `+= n` then `-= n` restores the iterator, the other way round too, and so do `(it + n) - n` and `(n + it) - n` |
| TransformIterators.MovesCompose | GameBackboneSln/GameBackbone/Include/GameBackbone/Util/TransformIterator.h:177-207 | `-= -a` is `+= a`, and two jumps forward add up |
| TransformIterators.IncrementDecrementRoundTrip | GameBackboneSln/GameBackbone/Include/GameBackbone/Util/TransformIterator.h:110-114 | `++` is `+= 1`, `--` is `-= 1`, and each undoes the other |
| TransformIterators.PostIncrementYieldsOld | GameBackboneSln/GameBackbone/Include/GameBackbone/Util/TransformIterator.h:386-391 | postfix `++` yields the old position and its old value, while the iterator itself compares unequal to the old one and equal to `it + 1` |
| TransformIterators.PostDecrementYieldsOld | GameBackboneSln/GameBackbone/Include/GameBackbone/Util/TransformIterator.h:122-127 | postfix `--` yields the old position and its old value, while the iterator itself now equals `it - 1` |
| TransformIterators.PlusIsRepeatedIncrement | GameBackboneSln/GameBackbone/Include/GameBackbone/Util/TransformIterator.h:202-207 | `it + n` lands where n prefix increments would |

## Left out

- The search body of `PathFinder.cpp` is not part of this model. `FindPath` is a uniform-cost search. It fixes which results are acceptable, not which route the repository's own search picks among equally cheap ones; `GridPaths.ResultsAgreeUpToTies` shows that only that choice is left open.
- PathFinder.PathFind: requires a bound grid. What `pathFind` does without a grid is not part of this model.
- PathFinder.FindPath: requires non-negative weights. The grid does not range-check weights, and with negative weights a cheapest path need not exist.
- Costs are unbounded integers. Sums of weights that would overflow a C++ `int` are not modelled.
- `pathFind` writes through a caller-supplied output vector and takes the requests by const reference. The model returns a fresh sequence and leaves the requests untouched, because they are values.
- The header's hex-grid interface (`Array3D<NavigationHexData>`, hex neighbours) is not modelled. The pathfinder under test works on the 2-D square grid.
- A `PathRequest` carries only its start and goal. Other fields the repository may attach are not modelled.
- The grid is a value (`seq<seq<NavigationGridData>>`). Raw `new`/`delete`, `freeAllNavigationGridData` and the leak of the records that the fill overwrites are not modelled. Building the `Array2D` (its dimensions) is the caller's concern and arrives as a parameter.
- Sprite motion along a path and `CoordinateConverter` are not modelled. Both rely on floating-point trigonometry and truncating casts.
- The navigation demo region, the event controller, file I/O and the headers without bodies (game regions, compound sprites, cluster generation) are not modelled. They are rendering and plumbing around the core.
- AnimatedSprites.Update: time is whole milliseconds in an `int32`, the value `sf::Time::asMilliseconds` returns. The `sf::Time` stored as `lastUpdate` is kept only at millisecond precision.
- AnimatedSprites.Update: requires a non-empty current animation whenever the frame would advance. Advancing with no current animation dereferences a null pointer, and an empty one divides by zero.
- AnimatedSprites.RunAnimation: requires an animation set. Calling `runAnimation` on a sprite built without one dereferences a null pointer.
- The base `sf::Sprite` (texture, position, drawing) is not modelled. A texture rectangle is an opaque `IntRect` value.
- The animation set is held by value. The repository holds a pointer into the caller's `AnimationSet`, so later changes to that set would show through.
- `TransformIterator`'s type-trait machinery (`IsIterator`, `SupportsRandomAccess_v`) is not modelled. The wrapped iterator is a position into a sequence.
- Several lines of `TransformIterator.h` would not compile if instantiated. They are the missing call parentheses at line 112, the derived iterator built from a base reference at line 124, the base `*this` returned as the derived type at lines 180 and 192, the non-const `getCrtpThis()` called inside the const `operator+` and `operator-` at lines 204 and 231, and the private `m_transform` reached from the base at lines 206 and 233. `PreDecrement`, `PostDecrement`, `PlusAssign`, `MinusAssign`, `Plus` and `Minus` give these operators the meaning they evidently intend.
- TransformIterators.Eq: comparing wrapped iterators needs element types with equality in Dafny. The transform is a total function on wrapped iterators.
- TransformIterators.PlusAssign: moves past either end of the sequence are excluded by a precondition, as they are undefined behaviour for the standard iterators being wrapped.
