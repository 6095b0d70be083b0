/** Intent retrieval: the nearest-neighbour search result, as (index, distance)
    pairs, filtered by a strict distance threshold and deduplicated into a set
    of intent labels. */
module Retrieval {

  /** One neighbour returned by the vector index: the row of the embedding
      matrix and its squared Euclidean distance to the query. */
  datatype Hit = Hit(index: int, distance: real)

  const DefaultThreshold: real := 0.5

  /** The index's guarantee: a neighbour close enough to count names a real
      row of the intent-label list. (Padding rows carry index -1 and a huge
      distance, so they never pass the threshold.) */
  predicate HitsInRange(hits: seq<Hit>, threshold: real, n: nat) {
    forall h | h in hits :: h.distance < threshold ==> 0 <= h.index < n
  }

  /** The matched-intent set: the label of every neighbour strictly closer than
      the threshold, and nothing else. At most one entry per neighbour. */
  function Matched(intentMap: seq<string>, hits: seq<Hit>, threshold: real): (m: set<string>)
    requires HitsInRange(hits, threshold, |intentMap|)
    ensures forall x :: x in m <==>
      exists h :: h in hits && h.distance < threshold && intentMap[h.index] == x
    ensures |m| <= |hits|
  {
    if hits == [] then {}
    else
      var init, h := hits[..|hits| - 1], hits[|hits| - 1];
      assert hits == init + [h];
      var m0 := Matched(intentMap, init, threshold);
      if h.distance < threshold then
        var m := m0 + {intentMap[h.index]};
        assert |m| <= |m0| + 1 by {
          if intentMap[h.index] in m0 { assert m == m0; }
        }
        m
      else
        m0
  }

  /** A neighbour at exactly the threshold distance never contributes, wherever
      it appears among the neighbours. */
  lemma BoundaryHitIgnored(intentMap: seq<string>, a: seq<Hit>, i: int, b: seq<Hit>, threshold: real)
    requires HitsInRange(a + b, threshold, |intentMap|)
    ensures HitsInRange(a + [Hit(i, threshold)] + b, threshold, |intentMap|)
    ensures Matched(intentMap, a + [Hit(i, threshold)] + b, threshold) == Matched(intentMap, a + b, threshold)
  {
  }

  /** A hit just inside the threshold is always matched. */
  lemma CloseHitMatched(intentMap: seq<string>, hits: seq<Hit>, h: Hit, threshold: real)
    requires HitsInRange(hits, threshold, |intentMap|)
    requires h in hits && h.distance < threshold
    ensures intentMap[h.index] in Matched(intentMap, hits, threshold)
  {
  }

  /** Raising the threshold can only add intents. */
  lemma ThresholdMonotone(intentMap: seq<string>, hits: seq<Hit>, lo: real, hi: real)
    requires lo <= hi
    requires HitsInRange(hits, hi, |intentMap|)
    ensures HitsInRange(hits, lo, |intentMap|)
    ensures Matched(intentMap, hits, lo) <= Matched(intentMap, hits, hi)
  {
  }

  /** The matched set is empty exactly when no neighbour is strictly within the
      threshold; in particular an empty search result (k = 0) matches nothing. */
  lemma NothingMatchedIff(intentMap: seq<string>, hits: seq<Hit>, threshold: real)
    requires HitsInRange(hits, threshold, |intentMap|)
    ensures Matched(intentMap, hits, threshold) == {} <==>
      forall h | h in hits :: threshold <= h.distance
  {
  }

  /** One more neighbour adds its label exactly when it is strictly within the
      threshold. */
  lemma MatchedStep(intentMap: seq<string>, hits: seq<Hit>, k: nat, threshold: real)
    requires k < |hits| && HitsInRange(hits, threshold, |intentMap|)
    ensures HitsInRange(hits[..k], threshold, |intentMap|)
    ensures HitsInRange(hits[..k + 1], threshold, |intentMap|)
    ensures hits[k].distance < threshold ==> 0 <= hits[k].index < |intentMap|
    ensures hits[k].distance < threshold ==>
      Matched(intentMap, hits[..k + 1], threshold) == Matched(intentMap, hits[..k], threshold) + {intentMap[hits[k].index]}
    ensures threshold <= hits[k].distance ==>
      Matched(intentMap, hits[..k + 1], threshold) == Matched(intentMap, hits[..k], threshold)
  {
    assert hits[..k + 1][..k] == hits[..k] && hits[..k + 1][k] == hits[k];
    assert hits[k] in hits;
  }

  predicate NoDuplicates(xs: seq<string>) {
    forall i, j | 0 <= i < j < |xs| :: xs[i] != xs[j]
  }

  /** `list(s)`: the elements of a set in some order, each exactly once. */
  method ListOfSet(s: set<string>) returns (xs: seq<string>)
    ensures forall x :: x in xs <==> x in s
    ensures NoDuplicates(xs) && |xs| == |s|
  {
    xs := [];
    var rest := s;
    while rest != {}
      invariant forall x :: x in s <==> x in xs || x in rest
      invariant forall x | x in xs :: x !in rest
      invariant NoDuplicates(xs)
      invariant |xs| + |rest| == |s|
      decreases |rest|
    {
      var x :| x in rest;
      xs := xs + [x];
      rest := rest - {x};
    }
  }
}
