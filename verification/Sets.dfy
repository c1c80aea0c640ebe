/** Cardinality facts about finite sets. */
module Sets {

  lemma Member<T>(s: set<T>) returns (x: T)
    requires s != {}
    ensures x in s
  {
    x :| x in s;
  }

  /** A set of numbers from 1 to max has at most max elements. */
  lemma {:induction false} SmallSet(s: set<int>, max: int)
    requires forall a :: a in s ==> 1 <= a <= max
    ensures |s| <= if max > 0 then max else 0
    decreases if max > 0 then max else 0
  {
    if max > 0 {
      SmallSet(s - {max}, max - 1);
    } else if s != {} {
      var a := Member(s);
    }
  }

  /** A set that fits into another is no larger. */
  lemma SubsetSize<T>(s: set<T>, t: set<T>)
    requires s <= t
    ensures |s| <= |t|
    ensures |s| == |t| ==> s == t
  {
    assert t == s + (t - s);
  }
}
