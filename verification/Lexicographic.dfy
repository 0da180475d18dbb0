/** Python's order on sequences, by the order of their elements: strings by character, tuples of integers by number. */
module Lexicographic {

  ghost predicate StrictTotalOrder<T(!new)>(before: (T, T) -> bool) {
    && (forall x :: !before(x, x))
    && (forall x, y :: x == y || before(x, y) || before(y, x))
    && (forall x, y, z :: before(x, y) && before(y, z) ==> before(x, z))
  }

  /** `a < b`. */
  predicate Precedes<T(==)>(before: (T, T) -> bool, a: seq<T>, b: seq<T>) {
    b != [] && (a == [] || before(a[0], b[0]) || (a[0] == b[0] && Precedes(before, a[1..], b[1..])))
  }

  lemma {:induction false} PrecedesIsIrreflexive<T(!new)>(before: (T, T) -> bool, a: seq<T>)
    requires StrictTotalOrder(before)
    ensures !Precedes(before, a, a)
    decreases |a|
  {
    if a == [] {
    } else {
      PrecedesIsIrreflexive(before, a[1..]);
    }
  }

  lemma {:induction false} PrecedesIsTransitive<T(!new)>(before: (T, T) -> bool, a: seq<T>, b: seq<T>, c: seq<T>)
    requires StrictTotalOrder(before) && Precedes(before, a, b) && Precedes(before, b, c)
    ensures Precedes(before, a, c)
    decreases |a|
  {
    if a != [] && a[0] == b[0] == c[0] {
      PrecedesIsTransitive(before, a[1..], b[1..], c[1..]);
    }
  }

  lemma {:induction false} PrecedesIsTotal<T(!new)>(before: (T, T) -> bool, a: seq<T>, b: seq<T>)
    requires StrictTotalOrder(before)
    ensures a == b || Precedes(before, a, b) || Precedes(before, b, a)
    decreases |a|
  {
    if a != [] && b != [] && a[0] == b[0] {
      PrecedesIsTotal(before, a[1..], b[1..]);
      assert a == [a[0]] + a[1..] && b == [b[0]] + b[1..];
    }
  }

  lemma PrecedesIsAsymmetric<T(!new)>(before: (T, T) -> bool, a: seq<T>, b: seq<T>)
    requires StrictTotalOrder(before) && Precedes(before, a, b)
    ensures !Precedes(before, b, a)
  {
    if Precedes(before, b, a) {
      PrecedesIsTransitive(before, a, b, a);
      PrecedesIsIrreflexive(before, a);
    }
  }
}
