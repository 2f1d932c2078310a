/** Tagger: the reader, the stemmer and the rater composed, and the best few
    tags kept. */
module Tagging {
  import opened TextRules
  import opened TagModel
  import opened Reading
  import opened Stemming
  import opened Rates
  import opened Chains
  import opened Clustering
  import opened Redundancy
  import opened Raters

  /** tags[:n], as a Python slice: a negative n drops the last -n entries. */
  function Take<T>(xs: seq<T>, n: int): (ys: seq<T>)
    ensures |ys| <= |xs| && ys == xs[..|ys|]
    ensures 0 <= n <= |xs| ==> |ys| == n
    ensures n >= |xs| ==> ys == xs
    ensures n < 0 ==> |ys| == if |xs| + n > 0 then |xs| + n else 0
  {
    if n >= |xs| then xs
    else if n >= 0 then xs[..n]
    else if |xs| + n > 0 then xs[..|xs| + n]
    else []
  }

  /** The kept tags are the best ones: each is rated at least as high as
      every dropped one, and none repeats a stem. */
  lemma {:induction false} TakeBest(r: seq<MultiTag>, reps: map<String, MultiTag>, keys: set<String>, n: int)
    requires Ranked(r, reps, keys)
    ensures forall a, b :: 0 <= a < |Take(r, n)| <= b < |r| ==> AtLeast(Take(r, n)[a].rating, r[b].rating)
    ensures forall a, b :: 0 <= a < b < |Take(r, n)| ==> Take(r, n)[a].stem != Take(r, n)[b].stem
    ensures forall a :: 0 <= a < |Take(r, n)| ==> Take(r, n)[a].stem in keys
  {
    var t := Take(r, n);
    assert forall a :: 0 <= a < |t| ==> t[a] == r[a];
  }

  /** The tags of a text once read, stemmed and rated by unit ratings. */
  function RatedTags(text: String, backend: String -> String, weights: map<String, real>): (vs: seq<AtomicTag>)
    ensures |vs| == |ReadSpec(text)|
  {
    Rated(Stemmed(backend, ReadSpec(text)), weights)
  }

  /** Rating changes no stem, so the stems stay plain. */
  lemma RatedPlain(vs: seq<AtomicTag>, weights: map<String, real>)
    requires PlainStems(vs)
    ensures PlainStems(Rated(vs, weights))
  {
    forall k | 0 <= k < |vs|
      ensures Rated(vs, weights)[k].stem == vs[k].stem
    {
    }
  }

  class Tagger {
    const reader: Reader
    const stemmer: Stemmer
    const rater: Rater

    constructor (reader: Reader, stemmer: Stemmer, rater: Rater)
      ensures this.reader == reader && this.stemmer == stemmer && this.rater == rater
    {
      this.reader := reader;
      this.stemmer := stemmer;
      this.rater := rater;
    }

    /** Tagger.__call__: the first tagsNumber of the rater's list for the
        tags the reader and the stemmer make of the text. The reader's tags
        are new objects, so nothing that exists before the call changes. */
    method Call(text: String, tagsNumber: int := 5)
        returns (r: Result<seq<MultiTag>>, ghost counts: map<String, nat>, ghost reps: map<String, MultiTag>)
      requires rater.Valid()
      ensures Clustered(Candidates(RatedTags(text, stemmer.backend, rater.weights), rater.multitagSize), counts, reps)
      ensures r.ZeroDivisionError? <==> DivisionByZero(counts, reps)
      ensures r.Ok? ==> exists full :: Ranked(full, reps, Survivors(counts, reps)) && r.value == Take(full, tagsNumber)
      // stems that are words, as a stemmer's are, never divide by zero
      ensures PlainStems(Stemmed(stemmer.backend, ReadSpec(text))) ==> r.Ok?
    {
      var tags := reader.Read(text);
      tags := stemmer.ApplyAll(tags);
      ghost var stemmed := Values(tags);
      var full;
      full, counts, reps := rater.Call(tags);
      ghost var vs := Values(tags);
      assert vs == RatedTags(text, stemmer.backend, rater.weights);
      if PlainStems(stemmed) {
        RatedPlain(stemmed, rater.weights);
        NoDivisionByZero(vs, rater.multitagSize, counts, reps);
      }
      if full.ZeroDivisionError? {
        return ZeroDivisionError, counts, reps;
      }
      r := Ok(Take(full.value, tagsNumber));
    }
  }
}
