/** Unit ratings (Rater.rate_tags): term frequency times the stem's weight. */
module Rates {
  import opened TextRules
  import opened TagModel

  /** Counter(tags)[stem]: tags count as equal when their stems are. */
  function Occurrences(vs: seq<AtomicTag>, stem: String): (n: nat)
    ensures n <= |vs|
  {
    if vs == [] then 0
    else Occurrences(vs[..|vs| - 1], stem) + (if vs[|vs| - 1].stem == stem then 1 else 0)
  }

  /** weights.get(stem, 1.0) */
  function Weight(weights: map<String, real>, stem: String): real {
    if stem in weights then weights[stem] else 1.0
  }

  /** The weights lie in [0, 1], as the Rater expects of its dictionary. */
  predicate UnitWeights(weights: map<String, real>) {
    forall s :: s in weights ==> 0.0 <= weights[s] <= 1.0
  }

  /** float(count) / total * weight */
  function Share(count: nat, total: nat, weight: real): real
    requires total > 0
  {
    count as real / total as real * weight
  }

  /** float(term_count[t]) / len(tags) * weight */
  function UnitRating(vs: seq<AtomicTag>, weights: map<String, real>, stem: String): real
    requires |vs| > 0
  {
    Share(Occurrences(vs, stem), |vs|, Weight(weights, stem))
  }

  /** The tags after rate_tags: each one rated by its stem's frequency and
      weight, everything else as it was. */
  function Rated(vs: seq<AtomicTag>, weights: map<String, real>): (ws: seq<AtomicTag>)
    ensures |ws| == |vs|
  {
    seq(|vs|, k requires 0 <= k < |vs| => vs[k].(rating := UnitRating(vs, weights, vs[k].stem)))
  }

  /** A tag's stem occurs at least once: the tag itself. */
  lemma {:induction false} OccursOnce(vs: seq<AtomicTag>, k: nat)
    requires k < |vs|
    ensures Occurrences(vs, vs[k].stem) >= 1
  {
    if k < |vs| - 1 {
      OccursOnce(vs[..|vs| - 1], k);
    }
  }

  lemma FractionUnit(n: nat, d: nat, w: real)
    requires 0 < n <= d && 0.0 <= w <= 1.0
    ensures 0.0 <= n as real / d as real * w <= 1.0
    ensures n as real / d as real * w > 0.0 <==> w > 0.0
  {
    var f := n as real / d as real;
    assert 0.0 < f <= 1.0;
    MulMonotone(f, 1.0, w, 1.0);
  }

  /** After rate_tags, ratings lie in [0, 1] when the weights do; a rating is
      zero exactly when the stem's weight is; tags with equal stems get equal
      ratings; and nothing but the rating changes. */
  lemma RatedBounds(vs: seq<AtomicTag>, weights: map<String, real>)
    requires UnitWeights(weights)
    ensures forall k :: 0 <= k < |vs| ==> 0.0 <= Rated(vs, weights)[k].rating <= 1.0
    ensures forall k :: 0 <= k < |vs| ==>
              (Rated(vs, weights)[k].rating > 0.0 <==> Weight(weights, vs[k].stem) > 0.0)
    ensures forall j, k :: 0 <= j < |vs| && 0 <= k < |vs| && vs[j].stem == vs[k].stem ==>
              Rated(vs, weights)[j].rating == Rated(vs, weights)[k].rating
    ensures forall k :: 0 <= k < |vs| ==> Rated(vs, weights)[k].(rating := vs[k].rating) == vs[k]
  {
    forall k | 0 <= k < |vs|
      ensures 0.0 <= Rated(vs, weights)[k].rating <= 1.0
      ensures Rated(vs, weights)[k].rating > 0.0 <==> Weight(weights, vs[k].stem) > 0.0
    {
      OccursOnce(vs, k);
      FractionUnit(Occurrences(vs, vs[k].stem), |vs|, Weight(weights, vs[k].stem));
    }
  }
}
