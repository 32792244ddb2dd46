/** An iterator adaptor that applies a transform to the iterator it wraps
    whenever it is dereferenced, with the bidirectional and random-access
    conveniences that forward every move to the wrapped iterator. */
module TransformIterators {

  /** The wrapped random-access iterator: a position in a sequence, which may
      be anywhere from the first element to one past the last. */
  datatype SeqIterator<T> = SeqIterator(items: seq<T>, pos: int)

  /** A position the wrapped iterator may hold: inside the sequence or at its end. */
  predicate Reaches<T>(w: SeqIterator<T>, pos: int)
  {
    0 <= pos <= |w.items|
  }

  /** The wrapped iterator's `+= n` (a negative `n` moves backward). Moving
      outside the sequence is undefined for the wrapped iterator. */
  function Advance<T>(w: SeqIterator<T>, n: int): (r: SeqIterator<T>)
    requires Reaches(w, w.pos + n)
    ensures r.items == w.items && r.pos == w.pos + n
  {
    w.(pos := w.pos + n)
  }

  /** The adaptor: the wrapped iterator and the transform, which is applied
      to the wrapped iterator itself (not to the element it points at). */
  datatype TransformIterator<!T, U> = TransformIterator(wrapped: SeqIterator<T>, transform: SeqIterator<T> -> U)

  /** The constructor. */
  function MakeTransformIterator<T, U>(wrapped: SeqIterator<T>, transform: SeqIterator<T> -> U): (it: TransformIterator<T, U>)
    ensures GetWrappedIterator(it) == wrapped && Deref(it) == transform(wrapped)
  {
    TransformIterator(wrapped, transform)
  }

  /** `getWrappedIterator`: the wrapped iterator, which together with the
      transform is all the adaptor holds. */
  function GetWrappedIterator<T, U>(it: TransformIterator<T, U>): (w: SeqIterator<T>)
    ensures TransformIterator(w, it.transform) == it
  {
    it.wrapped
  }

  /** The explicit conversion to the wrapped iterator type. */
  function ToWrapped<T, U>(it: TransformIterator<T, U>): (w: SeqIterator<T>)
    ensures w == GetWrappedIterator(it)
  {
    it.wrapped
  }

  /** `operator*`: the transform applied to the wrapped iterator. */
  function Deref<T, U>(it: TransformIterator<T, U>): (r: U)
    ensures r == it.transform(GetWrappedIterator(it))
  {
    it.transform(it.wrapped)
  }

  // ---------------------------------------------------------------------
  // Comparisons

  /** `==` against another adaptor. The wrapped iterators are compared with
      their own equality, so the element type must have one. */
  predicate Eq<T(==), U>(a: TransformIterator<T, U>, b: TransformIterator<T, U>)
    ensures Eq(a, b) <==> a.wrapped.items == b.wrapped.items && a.wrapped.pos == b.wrapped.pos
  {
    a.wrapped == b.wrapped
  }

  /** `==` against a wrapped iterator. */
  predicate EqWrapped<T(==), U>(a: TransformIterator<T, U>, w: SeqIterator<T>)
    ensures EqWrapped(a, w) <==> Eq(a, TransformIterator(w, a.transform))
  {
    a.wrapped == w
  }

  /** `!=` against another adaptor. */
  predicate Ne<T(==), U>(a: TransformIterator<T, U>, b: TransformIterator<T, U>)
    ensures Ne(a, b) <==> !Eq(a, b)
  {
    a.wrapped != b.wrapped
  }

  /** `!=` against a wrapped iterator. */
  predicate NeWrapped<T(==), U>(a: TransformIterator<T, U>, w: SeqIterator<T>)
    ensures NeWrapped(a, w) <==> !EqWrapped(a, w)
  {
    a.wrapped != w
  }

  /** The comparisons look only at the wrapped iterators: two adaptors with
      different transforms at the same position are equal, comparing with a
      wrapped iterator is comparing with an adaptor around it, and `!=` is the
      negation of `==` in both forms. */
  lemma ComparisonIgnoresTransform<T, U>(w: SeqIterator<T>, v: SeqIterator<T>,
                                         f: SeqIterator<T> -> U, g: SeqIterator<T> -> U)
    ensures Eq(TransformIterator(w, f), TransformIterator(v, g)) <==> w == v
    ensures EqWrapped(TransformIterator(w, f), v) <==> Eq(TransformIterator(w, f), TransformIterator(v, g))
    ensures Ne(TransformIterator(w, f), TransformIterator(v, g)) <==> !Eq(TransformIterator(w, f), TransformIterator(v, g))
    ensures NeWrapped(TransformIterator(w, f), v) <==> !EqWrapped(TransformIterator(w, f), v)
  {
  }

  // ---------------------------------------------------------------------
  // Moves

  /** Prefix `++`. */
  function PreIncrement<T, U>(it: TransformIterator<T, U>): (r: TransformIterator<T, U>)
    requires Reaches(it.wrapped, it.wrapped.pos + 1)
    ensures r.transform == it.transform && r.wrapped.items == it.wrapped.items
    ensures r.wrapped.pos == it.wrapped.pos + 1
  {
    it.(wrapped := Advance(it.wrapped, 1))
  }

  /** Postfix `++`: the copy taken before the move, and the moved iterator. */
  function PostIncrement<T, U>(it: TransformIterator<T, U>): (r: (TransformIterator<T, U>, TransformIterator<T, U>))
    requires Reaches(it.wrapped, it.wrapped.pos + 1)
    ensures Eq(r.0, it) && r.0.transform == it.transform && Deref(r.0) == Deref(it)
    ensures r.1.transform == it.transform && r.1.wrapped.items == it.wrapped.items
    ensures r.1.wrapped.pos == it.wrapped.pos + 1
  {
    var out := it;
    (out, PreIncrement(it))
  }

  /** Prefix `--`. */
  function PreDecrement<T, U>(it: TransformIterator<T, U>): (r: TransformIterator<T, U>)
    requires Reaches(it.wrapped, it.wrapped.pos - 1)
    ensures r.transform == it.transform && r.wrapped.items == it.wrapped.items
    ensures r.wrapped.pos == it.wrapped.pos - 1
  {
    it.(wrapped := Advance(it.wrapped, -1))
  }

  /** Postfix `--`: the copy taken before the move, and the moved iterator. */
  function PostDecrement<T, U>(it: TransformIterator<T, U>): (r: (TransformIterator<T, U>, TransformIterator<T, U>))
    requires Reaches(it.wrapped, it.wrapped.pos - 1)
    ensures Eq(r.0, it) && r.0.transform == it.transform && Deref(r.0) == Deref(it)
    ensures r.1.transform == it.transform && r.1.wrapped.items == it.wrapped.items
    ensures r.1.wrapped.pos == it.wrapped.pos - 1
  {
    var out := it;
    (out, PreDecrement(it))
  }

  /** `+= n`. */
  function PlusAssign<T, U>(it: TransformIterator<T, U>, n: int): (r: TransformIterator<T, U>)
    requires Reaches(it.wrapped, it.wrapped.pos + n)
    ensures r.transform == it.transform && r.wrapped.items == it.wrapped.items
    ensures r.wrapped.pos == it.wrapped.pos + n
  {
    it.(wrapped := Advance(it.wrapped, n))
  }

  /** `-= n`. */
  function MinusAssign<T, U>(it: TransformIterator<T, U>, n: int): (r: TransformIterator<T, U>)
    requires Reaches(it.wrapped, it.wrapped.pos - n)
    ensures r.transform == it.transform && r.wrapped.items == it.wrapped.items
    ensures r.wrapped.pos == it.wrapped.pos - n
  {
    it.(wrapped := Advance(it.wrapped, -n))
  }

  /** `it + n`: a new adaptor with the same transform around a moved copy of
      the wrapped iterator. */
  function Plus<T, U>(it: TransformIterator<T, U>, n: int): (r: TransformIterator<T, U>)
    requires Reaches(it.wrapped, it.wrapped.pos + n)
    ensures r == PlusAssign(it, n)
  {
    var tempIt := Advance(it.wrapped, n);
    TransformIterator(tempIt, it.transform)
  }

  /** `n + it`, defined as `it + n`: the same transform around a copy of the
      wrapped iterator moved `n` places. */
  function PlusLeft<T, U>(n: int, it: TransformIterator<T, U>): (r: TransformIterator<T, U>)
    requires Reaches(it.wrapped, it.wrapped.pos + n)
    ensures r.transform == it.transform && r.wrapped.items == it.wrapped.items
    ensures r.wrapped.pos == it.wrapped.pos + n
  {
    Plus(it, n)
  }

  /** `it - n`. */
  function Minus<T, U>(it: TransformIterator<T, U>, n: int): (r: TransformIterator<T, U>)
    requires Reaches(it.wrapped, it.wrapped.pos - n)
    ensures r == MinusAssign(it, n)
  {
    var tempIt := Advance(it.wrapped, -n);
    TransformIterator(tempIt, it.transform)
  }

  /** `it[n]`: dereferences a moved copy. */
  function Index<T, U>(it: TransformIterator<T, U>, n: int): (r: U)
    requires Reaches(it.wrapped, it.wrapped.pos + n)
    ensures r == it.transform(Advance(it.wrapped, n))
    ensures n == 0 ==> r == Deref(it)
  {
    var temp := PlusAssign(it, n);
    Deref(temp)
  }

  // ---------------------------------------------------------------------
  // Laws relating the operators

  /** `it[n]` is `*(it + n)`, which is the transform applied to the wrapped
      iterator moved by `n`; `it[0]` is `*it`. */
  lemma IndexIsDerefOfPlus<T, U>(it: TransformIterator<T, U>, n: int)
    requires Reaches(it.wrapped, it.wrapped.pos + n)
    ensures Index(it, n) == Deref(Plus(it, n)) == it.transform(Advance(it.wrapped, n))
    ensures n == 0 ==> Index(it, n) == Deref(it)
  {
  }

  /** `+= n` and `-= n` undo each other, in either order. */
  lemma PlusMinusAssignRoundTrip<T, U>(it: TransformIterator<T, U>, n: int)
    requires Reaches(it.wrapped, it.wrapped.pos + n) && Reaches(it.wrapped, it.wrapped.pos - n)
    ensures MinusAssign(PlusAssign(it, n), n) == it
    ensures PlusAssign(MinusAssign(it, n), n) == it
    ensures Minus(Plus(it, n), n) == it
    ensures Minus(PlusLeft(n, it), n) == it
  {
  }

  /** `-= n` is `+= -n`, and moves compose: `(it + a) + b` is `it + (a + b)`. */
  lemma MovesCompose<T, U>(it: TransformIterator<T, U>, a: int, b: int)
    requires Reaches(it.wrapped, it.wrapped.pos + a) && Reaches(it.wrapped, it.wrapped.pos + a + b)
    ensures MinusAssign(it, -a) == PlusAssign(it, a)
    ensures Plus(Plus(it, a), b) == Plus(it, a + b)
  {
  }

  /** Prefix `++` is `+= 1` and prefix `--` is `-= 1`; one undoes the other. */
  lemma IncrementDecrementRoundTrip<T, U>(it: TransformIterator<T, U>)
    requires Reaches(it.wrapped, it.wrapped.pos) && Reaches(it.wrapped, it.wrapped.pos + 1)
    ensures PreIncrement(it) == PlusAssign(it, 1)
    ensures PreDecrement(PreIncrement(it)) == it
    ensures Reaches(it.wrapped, it.wrapped.pos - 1) ==>
              PreDecrement(it) == MinusAssign(it, 1) && PreIncrement(PreDecrement(it)) == it
  {
  }

  /** Postfix `++` hands back an iterator that dereferences to the old
      element and compares equal to the old position, while the iterator
      itself compares equal to the next one. */
  lemma PostIncrementYieldsOld<T, U>(it: TransformIterator<T, U>)
    requires Reaches(it.wrapped, it.wrapped.pos + 1)
    ensures Deref(PostIncrement(it).0) == Deref(it)
    ensures Eq(PostIncrement(it).0, it) && !Eq(PostIncrement(it).1, it)
    ensures Eq(PostIncrement(it).1, Plus(it, 1))
  {
  }

  /** Postfix `--` hands back the old position, the iterator itself moves back. */
  lemma PostDecrementYieldsOld<T, U>(it: TransformIterator<T, U>)
    requires Reaches(it.wrapped, it.wrapped.pos - 1)
    ensures Deref(PostDecrement(it).0) == Deref(it)
    ensures Eq(PostDecrement(it).0, it) && !Eq(PostDecrement(it).1, it)
    ensures Eq(PostDecrement(it).1, Minus(it, 1))
  {
  }

  /** `n` prefix increments. */
  function IncrementTimes<T, U>(it: TransformIterator<T, U>, n: nat): (r: TransformIterator<T, U>)
    requires Reaches(it.wrapped, it.wrapped.pos + n) && it.wrapped.pos >= 0
    decreases n
  {
    if n == 0 then it else IncrementTimes(PreIncrement(it), n - 1)
  }

  /** Jumping by `n` lands where `n` single steps land. */
  lemma {:induction false} PlusIsRepeatedIncrement<T, U>(it: TransformIterator<T, U>, n: nat)
    requires Reaches(it.wrapped, it.wrapped.pos + n) && it.wrapped.pos >= 0
    ensures IncrementTimes(it, n) == Plus(it, n)
    decreases n
  {
    if n > 0 {
      PlusIsRepeatedIncrement(PreIncrement(it), n - 1);
    }
  }
}
