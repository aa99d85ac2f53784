/** Counting occurrences by key. */
module Tally {

  /** If every key of a bag is in `keys` and occurs at most `b` times, the bag has at most |keys| * b elements. */
  lemma {:induction false} BagBound<K>(bag: multiset<K>, keys: set<K>, b: nat)
    requires forall k | k in bag :: k in keys
    requires forall k | k in keys :: bag[k] <= b
    ensures |bag| <= |keys| * b
    decreases |keys|
  {
    if keys == {} {
      assert bag == multiset{};
    } else {
      var k :| k in keys;
      BagBound(bag[k := 0], keys - {k}, b);
      assert |keys| == |keys - {k}| + 1;
      assert (|keys - {k}| + 1) * b == |keys - {k}| * b + b;
    }
  }
}
