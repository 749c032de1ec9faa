/** The two-field record of the root engine (pair.go), which Both returns. */
module AvramPair {

  datatype Pair<A, B> = Pair(left: A, right: B)

  /** MakePair(a, b): the pair whose left is a and whose right is b. */
  function MakePair<A, B>(a: A, b: B): (p: Pair<A, B>)
    ensures p.left == a && p.right == b
  {
    Pair(a, b)
  }

  /** A pair is exactly its two fields: taking it apart and putting it back together gives it back. */
  lemma MakePairOfFields<A, B>(p: Pair<A, B>)
    ensures MakePair(p.left, p.right) == p
  {
  }

  /** Two pairs are equal exactly when both their fields are. */
  lemma PairEquality<A, B>(a1: A, b1: B, a2: A, b2: B)
    ensures MakePair(a1, b1) == MakePair(a2, b2) <==> a1 == a2 && b1 == b2
  {
  }

  /** Nesting keeps every component where it was put. */
  lemma MakePairNested<A, B, C>(x: A, y: B, z: C)
    ensures MakePair(MakePair(x, y), z).left.left == x
    ensures MakePair(MakePair(x, y), z).left.right == y
    ensures MakePair(MakePair(x, y), z).right == z
  {
  }
}
