/** Picking the first allowed job in sort order, as both claim functions of channel_store.py do. */
module Choice {
  import opened Prelude
  import opened Sorting

  function KeyAt(keys: seq<int>, i: nat): int {
    if i < |keys| then keys[i] else 0
  }

  /** Sort order: by key, ties by position in the list. */
  predicate Before(keys: seq<int>, a: nat, b: nat) {
    KeyAt(keys, a) < KeyAt(keys, b) || (KeyAt(keys, a) == KeyAt(keys, b) && a <= b)
  }

  /** The allowed position that comes first in sort order. */
  ghost predicate IsBest(keys: seq<int>, ok: seq<bool>, r: Option<nat>) {
    match r
    case None => forall k :: 0 <= k < |ok| ==> !ok[k]
    case Some(i) => i < |ok| && ok[i] && forall k :: 0 <= k < |ok| && ok[k] ==> Before(keys, i, k)
  }

  function Best(keys: seq<int>, ok: seq<bool>): (r: Option<nat>)
    ensures IsBest(keys, ok, r)
  {
    if ok == [] then None
    else
      var n := |ok| - 1;
      var best := Best(keys, ok[..n]);
      if !ok[n] then best
      else if best.None? || KeyAt(keys, n) < KeyAt(keys, best.value) then Some(n)
      else best
  }

  lemma BestIsUnique(keys: seq<int>, ok: seq<bool>, r: Option<nat>)
    requires IsBest(keys, ok, r)
    ensures r == Best(keys, ok)
  {
  }

  /** `candidates.sort(key=...)`: by key, ties by position, which is the order in which a stable sort of
    * a list in position order leaves them. */
  method SortByKey(keys: seq<int>, candidates: seq<nat>) returns (sorted: seq<nat>)
    ensures multiset(sorted) == multiset(candidates)
    ensures forall i: nat :: i in sorted <==> i in candidates
    ensures forall a, b :: 0 <= a < b < |sorted| ==> Before(keys, sorted[a], sorted[b])
  {
    var le := (a: nat, b: nat) => Before(keys, a, b);
    sorted := Sort(candidates, le);
    SortKeeps(candidates, le);
  }

  /** The claim loop: the first candidate in sort order that is not passed over. */
  method FirstAllowed(keys: seq<int>, candidates: seq<nat>, blocked: seq<bool>) returns (r: Option<nat>)
    requires forall c :: c in candidates ==> c < |blocked|
    ensures r == Best(keys, seq(|blocked|, i requires 0 <= i < |blocked| => i in candidates && !blocked[i]))
  {
    ghost var ok := seq(|blocked|, i requires 0 <= i < |blocked| => i in candidates && !blocked[i]);
    var sorted := SortByKey(keys, candidates);
    for index := 0 to |sorted|
      invariant forall k :: 0 <= k < index ==> sorted[k] < |blocked| && blocked[sorted[k]]
    {
      var candidate := sorted[index];
      assert candidate in candidates;
      if !blocked[candidate] {
        forall k | 0 <= k < |ok| && ok[k]
          ensures Before(keys, candidate, k)
        {
          assert k in sorted;
          var at :| 0 <= at < |sorted| && sorted[at] == k;
          assert at >= index;
        }
        BestIsUnique(keys, ok, Some(candidate));
        return Some(candidate);
      }
    }
    forall k | 0 <= k < |ok|
      ensures !ok[k]
    {
      assert k in candidates ==> k in sorted;
    }
    return None;
  }
}
