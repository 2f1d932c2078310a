/** Clustering of the candidates by stem (the first half of Rater.__call__):
    the multitags with equal stems are one logical tag, represented by the
    first of them, which takes the most common surface string and, when the
    occurrences are mostly proper, becomes proper with the best proper rating. */
module Clustering {
  import opened TextRules
  import opened TagModel

  /** term_count[s]: the candidates with stem s. */
  function Count(ms: seq<MultiTag>, s: String): (n: nat)
    ensures n <= |ms|
  {
    if ms == [] then 0
    else Count(ms[..|ms| - 1], s) + (if ms[|ms| - 1].stem == s then 1 else 0)
  }

  /** clusters[s][str]: the candidates with stem s and surface string str. */
  function SurfaceCount(ms: seq<MultiTag>, s: String, str: String): (n: nat)
    ensures n <= Count(ms, s)
  {
    if ms == [] then 0
    else
      var last := ms[|ms| - 1];
      SurfaceCount(ms[..|ms| - 1], s, str) + (if last.stem == s && last.str == str then 1 else 0)
  }

  /** proper[s]: the proper candidates with stem s. */
  function ProperCount(ms: seq<MultiTag>, s: String): (n: nat)
    ensures n <= Count(ms, s)
  {
    if ms == [] then 0
    else
      var last := ms[|ms| - 1];
      ProperCount(ms[..|ms| - 1], s) + (if last.stem == s && last.proper then 1 else 0)
  }

  /** ratings[s]: max(ratings[s], t.rating) over the proper candidates with
      stem s, starting from 0.0. */
  function MaxProperRating(ms: seq<MultiTag>, s: String): Rating {
    if ms == [] then Plain(0.0)
    else
      var last := ms[|ms| - 1];
      var r := MaxProperRating(ms[..|ms| - 1], s);
      if last.stem == s && last.proper then Max(r, last.rating) else r
  }

  /** The position of the first candidate with stem s. */
  function FirstAt(ms: seq<MultiTag>, s: String): (k: nat)
    requires Count(ms, s) > 0
    ensures k < |ms| && ms[k].stem == s
  {
    var init := ms[..|ms| - 1];
    if Count(init, s) > 0 then FirstAt(init, s) else |ms| - 1
  }

  /** The key object of stem s in the dictionaries: its first candidate. */
  function First(ms: seq<MultiTag>, s: String): MultiTag
    requires Count(ms, s) > 0
  {
    ms[FirstAt(ms, s)]
  }

  /** str is a most common surface string of stem s (Counter.most_common(1)
      may return any of them). */
  ghost predicate MostCommon(ms: seq<MultiTag>, s: String, str: String) {
    SurfaceCount(ms, s, str) > 0 &&
    forall x :: SurfaceCount(ms, s, x) <= SurfaceCount(ms, s, str)
  }

  /** The proper occurrences are at least half: proper[t] / float(cnt) >= 0.5. */
  predicate MostlyProper(ms: seq<MultiTag>, s: String) {
    2 * ProperCount(ms, s) >= Count(ms, s)
  }

  /** The representative of stem s once its surface string str is chosen. */
  function Representative(ms: seq<MultiTag>, s: String, str: String): MultiTag
    requires Count(ms, s) > 0
  {
    var first := First(ms, s);
    if MostlyProper(ms, s) then first.(str := str, proper := true, rating := MaxProperRating(ms, s))
    else first.(str := str)
  }

  /** The distinct stems of the candidates. */
  function Stems(ms: seq<MultiTag>): set<String> {
    set m | m in ms :: m.stem
  }

  lemma StemsHas(ms: seq<MultiTag>, m: MultiTag)
    requires m in ms
    ensures m.stem in Stems(ms)
  {
  }

  /** counts and reps hold, for every stem of the candidates, its count and a
      representative with a most common surface string. */
  ghost predicate Clustered(ms: seq<MultiTag>, counts: map<String, nat>, reps: map<String, MultiTag>) {
    counts.Keys == Stems(ms) && reps.Keys == Stems(ms) &&
    forall s :: s in reps ==>
      Count(ms, s) > 0 && counts[s] == Count(ms, s) &&
      MostCommon(ms, s, reps[s].str) && reps[s] == Representative(ms, s, reps[s].str)
  }

  /** What one more candidate adds to the count and to the first candidate
      of each stem. */
  lemma CountPrefixStep(ms: seq<MultiTag>, k: nat)
    requires k < |ms|
    ensures forall s :: Count(ms[..k + 1], s) == Count(ms[..k], s) + (if ms[k].stem == s then 1 else 0)
    ensures forall s :: Count(ms[..k], s) > 0 ==> First(ms[..k + 1], s) == First(ms[..k], s)
    ensures Count(ms[..k], ms[k].stem) == 0 ==> First(ms[..k + 1], ms[k].stem) == ms[k]
  {
    assert ms[..k + 1][..k] == ms[..k];
  }

  /** What one more candidate adds to the counts of surface strings and of
      proper occurrences, and to the best proper rating. */
  lemma PrefixStep(ms: seq<MultiTag>, k: nat)
    requires k < |ms|
    ensures forall s :: Count(ms[..k + 1], s) == Count(ms[..k], s) + (if ms[k].stem == s then 1 else 0)
    ensures forall s, x :: SurfaceCount(ms[..k + 1], s, x) ==
              SurfaceCount(ms[..k], s, x) + (if ms[k].stem == s && ms[k].str == x then 1 else 0)
    ensures forall s :: ProperCount(ms[..k + 1], s) ==
              ProperCount(ms[..k], s) + (if ms[k].stem == s && ms[k].proper then 1 else 0)
    ensures forall s :: MaxProperRating(ms[..k + 1], s) ==
              if ms[k].stem == s && ms[k].proper then Max(MaxProperRating(ms[..k], s), ms[k].rating)
              else MaxProperRating(ms[..k], s)
  {
    assert ms[..k + 1][..k] == ms[..k];
  }

  /** A stem has candidates exactly when some candidate carries it. */
  lemma {:induction false} CountPositive(ms: seq<MultiTag>, s: String)
    ensures Count(ms, s) > 0 <==> s in Stems(ms)
  {
    if ms != [] {
      var init := ms[..|ms| - 1];
      CountPositive(init, s);
      assert ms == init + [ms[|ms| - 1]];
      assert Stems(ms) == Stems(init) + {ms[|ms| - 1].stem};
    }
  }

  /** The first candidate's string occurs, so a stem's Counter of strings is
      never empty. */
  lemma {:induction false} FirstSurfaceOccurs(ms: seq<MultiTag>, s: String)
    requires Count(ms, s) > 0
    ensures SurfaceCount(ms, s, First(ms, s).str) > 0
  {
    var init := ms[..|ms| - 1];
    if Count(init, s) > 0 {
      FirstSurfaceOccurs(init, s);
      assert First(ms, s) == First(init, s);
    }
  }

  /** The rating ratings[s] ends with: at least every proper occurrence's
      rating, and either 0.0 or one of those ratings. */
  lemma {:induction false} MaxProperRatingIsMax(ms: seq<MultiTag>, s: String)
    requires forall k :: 0 <= k < |ms| ==> ValidRating(ms[k].rating)
    ensures ValidRating(MaxProperRating(ms, s))
    ensures forall k :: 0 <= k < |ms| && ms[k].stem == s && ms[k].proper ==>
              AtLeast(MaxProperRating(ms, s), ms[k].rating)
    ensures MaxProperRating(ms, s) == Plain(0.0) ||
            exists k :: 0 <= k < |ms| && ms[k].stem == s && ms[k].proper && MaxProperRating(ms, s) == ms[k].rating
  {
    if ms != [] {
      var init := ms[..|ms| - 1];
      var last := ms[|ms| - 1];
      MaxProperRatingIsMax(init, s);
      var r := MaxProperRating(init, s);
      if last.stem == s && last.proper {
        MaxIsUpperBound(r, last.rating);
        forall k | 0 <= k < |ms| && ms[k].stem == s && ms[k].proper
          ensures AtLeast(MaxProperRating(ms, s), ms[k].rating)
        {
          if k < |ms| - 1 {
            assert init[k] == ms[k];
            AtLeastTransitive(Max(r, last.rating), r, ms[k].rating);
          }
        }
      } else {
        assert forall k :: 0 <= k < |ms| - 1 ==> init[k] == ms[k];
      }
    }
  }

  /** The representative of valid ratings carries its stem and a valid
      rating. */
  lemma RepresentativeValid(ms: seq<MultiTag>, s: String, str: String)
    requires Count(ms, s) > 0
    requires forall k :: 0 <= k < |ms| ==> ValidRating(ms[k].rating)
    ensures Representative(ms, s, str).stem == s && ValidRating(Representative(ms, s, str).rating)
  {
    var first := First(ms, s);
    if MostlyProper(ms, s) {
      MaxProperRatingIsMax(ms, s);
    } else {
      assert first == ms[FirstAt(ms, s)];
    }
  }

  /** Every representative of candidates with valid ratings carries its
      stem and a valid rating. */
  lemma RepresentativesValid(ms: seq<MultiTag>, counts: map<String, nat>, reps: map<String, MultiTag>)
    requires forall k :: 0 <= k < |ms| ==> ValidRating(ms[k].rating)
    requires Clustered(ms, counts, reps)
    ensures forall x :: x in reps ==> reps[x].stem == x && ValidRating(reps[x].rating)
  {
    forall x | x in reps
      ensures reps[x].stem == x && ValidRating(reps[x].rating)
    {
      RepresentativeValid(ms, x, reps[x].str);
    }
  }

  /** The clustering rule: the representative carries the stem, takes the
      chosen surface string, and keeps the first candidate's size and unit
      ratings; when at least half the occurrences are proper it is proper
      and rated by the best proper occurrence, otherwise it keeps the first
      candidate's proper flag and rating. */
  lemma RepresentativeRule(ms: seq<MultiTag>, s: String, str: String)
    requires Count(ms, s) > 0
    requires forall k :: 0 <= k < |ms| ==> ValidRating(ms[k].rating)
    ensures Representative(ms, s, str).stem == s && Representative(ms, s, str).str == str
    ensures Representative(ms, s, str).subratings == First(ms, s).subratings
    ensures MostlyProper(ms, s) ==> Representative(ms, s, str).proper
    ensures MostlyProper(ms, s) ==>
              forall k :: 0 <= k < |ms| && ms[k].stem == s && ms[k].proper ==>
                AtLeast(Representative(ms, s, str).rating, ms[k].rating)
    ensures !MostlyProper(ms, s) ==>
              Representative(ms, s, str).proper == First(ms, s).proper &&
              Representative(ms, s, str).rating == First(ms, s).rating
    ensures ValidRating(Representative(ms, s, str).rating)
  {
    MaxProperRatingIsMax(ms, s);
    var first := First(ms, s);
    assert first == ms[FirstAt(ms, s)];
  }
}
