/** The record stored in every square of a navigation grid. */
module NavGridData {
  import opened MachineInts

  /** The weight that marks a grid square as impassable. */
  const BLOCKED_GRID_WEIGHT: int := 10000

  /** A grid square: the cost of entering it, and its distance to the nearest
      blocker (stored for callers, never read by the search). The weight is a
      plain signed integer with no enforced range; the distance is unsigned. */
  datatype NavigationGridData = NavigationGridData(weight: int, blockerDist: uint32)

  /** A square is never entered when its weight is at or above the sentinel. */
  predicate IsBlocked(d: NavigationGridData)
  {
    d.weight >= BLOCKED_GRID_WEIGHT
  }

  /** Assigning a whole record replaces both fields; assigning `->weight`
      replaces only the weight. */
  function WithWeight(d: NavigationGridData, weight: int): (r: NavigationGridData)
    ensures r.weight == weight && r.blockerDist == d.blockerDist
  {
    d.(weight := weight)
  }

  /** The sentinel weight itself blocks, and every weight below it does not. */
  lemma SentinelIsTheThreshold(d: NavigationGridData)
    ensures d.weight == BLOCKED_GRID_WEIGHT ==> IsBlocked(d)
    ensures d.weight < BLOCKED_GRID_WEIGHT ==> !IsBlocked(d)
    ensures d.blockerDist >= 0
  {
  }
}
