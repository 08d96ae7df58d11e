/** The key order of a JavaScript `Map`: iteration follows first insertion. */
module InsertionOrder {
  predicate NoDuplicates(s: seq<string>) {
    forall i, j :: 0 <= i < j < |s| ==> s[i] != s[j]
  }

  /** The order after `set(key, …)`: a new key goes last, a present key keeps its place. */
  function Insert(order: seq<string>, key: string): (r: seq<string>)
    ensures forall k :: k in r <==> k in order || k == key
    ensures NoDuplicates(order) ==> NoDuplicates(r)
    ensures order <= r && |r| <= |order| + 1
  {
    if key in order then order else order + [key]
  }

  /** A duplicate-free sequence has as many elements as the set it enumerates. */
  lemma {:induction false} DistinctCount(s: seq<string>, keys: set<string>)
    requires NoDuplicates(s)
    requires forall k :: k in s <==> k in keys
    ensures |s| == |keys|
    decreases |s|
  {
    if s != [] {
      var last := s[|s| - 1];
      var init := s[..|s| - 1];
      forall k ensures k in init <==> k in keys - {last} {
        if k in keys - {last} {
          assert k in s;
          var j :| 0 <= j < |s| && s[j] == k;
          assert j != |s| - 1;
          assert init[j] == k;
        }
      }
      DistinctCount(init, keys - {last});
    }
  }
}
