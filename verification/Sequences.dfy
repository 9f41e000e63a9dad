/**
 Lists without repetition, their members, and properties that grow element by element.
 */
module Sequences {

  predicate Distinct<T(==)>(s: seq<T>) {
    forall i, j :: 0 <= i < j < |s| ==> s[i] != s[j]
  }

  function Members<T>(s: seq<T>): set<T> {
    set x | x in s
  }

  /** If an element decides whether a property of a prefix passes on to the next prefix, then the property
      holds of every prefix exactly when every element lets it. */
  lemma {:induction false} EveryPrefixIff(holds: seq<bool>, lets: seq<bool>)
    requires |holds| == |lets| + 1 && holds[0]
    requires forall k {:trigger lets[k]} :: 0 <= k < |lets| && holds[k] ==> (holds[k + 1] <==> lets[k])
    ensures (forall k :: 0 <= k < |holds| ==> holds[k]) <==> forall k :: 0 <= k < |lets| ==> lets[k]
    decreases |lets|
  {
    if lets != [] {
      var n := |lets| - 1;
      EveryPrefixIff(holds[..n + 1], lets[..n]);
      assert forall k :: 0 <= k <= n ==> holds[..n + 1][k] == holds[k];
      assert forall k :: 0 <= k < n ==> lets[..n][k] == lets[k];
      assert lets[n] || !holds[n] || !holds[n + 1];
    }
  }
}
