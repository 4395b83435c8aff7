/** What the model needs of the document database's update operators. */
module DocumentStore {

  /**
   * `arrayUnion(x)` as an update of an array field: `x` is appended at the
   * end unless an equal element is already present.
   */
  function ArrayUnion<T(==)>(s: seq<T>, x: T): (r: seq<T>)
    ensures x in r
    ensures |s| <= |r| <= |s| + 1 && r[..|s|] == s
    ensures multiset(r) == if x in s then multiset(s) else multiset(s) + multiset{x}
    ensures |r| == |s| + 1 <==> x !in s
  {
    if x in s then s else s + [x]
  }

  /** A second union with the same element changes nothing. */
  lemma ArrayUnionIdempotent<T>(s: seq<T>, x: T)
    ensures ArrayUnion(ArrayUnion(s, x), x) == ArrayUnion(s, x)
  {
  }
}
