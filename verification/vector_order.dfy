/** The comparison operators that make three-component integer vectors
    usable as keys of ordered sets and maps. */
module VectorOrder {

  datatype Vector3i = Vector3i(x: int, y: int, z: int)

  /** `operator<`: decided by the first component in which the operands differ. */
  predicate Less(lhs: Vector3i, rhs: Vector3i)
  {
    if lhs.x < rhs.x then true
    else if lhs.x > rhs.x then false
    else if lhs.y < rhs.y then true
    else if lhs.y > rhs.y then false
    else if lhs.z < rhs.z then true
    else if lhs.z > rhs.z then false
    else false
  }

  /** `operator>`: the negation of `operator<`. */
  predicate Greater(lhs: Vector3i, rhs: Vector3i)
  {
    !Less(lhs, rhs)
  }

  /** `Less` is the lexicographic order on (x, y, z). */
  lemma LessIsLexicographic(a: Vector3i, b: Vector3i)
    ensures Less(a, b) <==>
      (a.x < b.x || (a.x == b.x && (a.y < b.y || (a.y == b.y && a.z < b.z))))
  {
  }

  lemma LessIsIrreflexive(a: Vector3i)
    ensures !Less(a, a)
  {
  }

  lemma LessIsTransitive(a: Vector3i, b: Vector3i, c: Vector3i)
    requires Less(a, b) && Less(b, c)
    ensures Less(a, c)
  {
  }

  /** For distinct vectors exactly one of `a < b` and `b < a` holds, so `Less`
      is a strict total order. */
  lemma LessIsTrichotomous(a: Vector3i, b: Vector3i)
    ensures a != b ==> (Less(a, b) <==> !Less(b, a))
    ensures a == b ==> !Less(a, b) && !Less(b, a)
  {
  }

  /** `Greater` is reflexive: it behaves as "greater or equal", not as the
      strict order its documentation announces. */
  lemma GreaterIsGreaterOrEqual(a: Vector3i, b: Vector3i)
    ensures Greater(a, b) <==> (Less(b, a) || a == b)
    ensures Greater(a, a)
  {
  }
}
