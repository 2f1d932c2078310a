/** Rater: rates the tags, builds the candidate multitags, clusters them by
    stem, discards redundant ones and sorts the rest by rating. */
module Raters {
  import opened TextRules
  import opened TagModel
  import opened Rates
  import opened Chains
  import opened Clustering
  import opened Redundancy

  /** The outcome of an operation that may raise ZeroDivisionError. */
  datatype Result<T> = Ok(value: T) | ZeroDivisionError

  /** `r` lists the tags of `keys` once each, by decreasing rating (the
      inverted Tag.__lt__ makes sorted() put higher ratings first). */
  ghost predicate Ranked(r: seq<MultiTag>, reps: map<String, MultiTag>, keys: set<String>) {
    |r| == |keys| &&
    (forall j :: 0 <= j < |r| ==> r[j].stem in keys && r[j].stem in reps && r[j] == reps[r[j].stem]) &&
    (forall x :: x in keys ==> exists j :: 0 <= j < |r| && r[j].stem == x) &&
    (forall a, b :: 0 <= a < b < |r| ==> r[a].stem != r[b].stem) &&
    (forall a, b :: 0 <= a < b < |r| ==> AtLeast(r[a].rating, r[b].rating))
  }

  /** Counter(tags): the number of tags of each stem. */
  method CountStems(tags: seq<Tag>) returns (counts: map<String, nat>)
    ensures forall s :: s in counts <==> Occurrences(Values(tags), s) > 0
    ensures forall s :: s in counts ==> counts[s] == Occurrences(Values(tags), s)
  {
    ghost var vs := Values(tags);
    counts := map[];
    for k := 0 to |tags|
      invariant forall s :: s in counts <==> Occurrences(vs[..k], s) > 0
      invariant forall s :: s in counts ==> counts[s] == Occurrences(vs[..k], s)
    {
      assert vs[..k + 1][..k] == vs[..k];
      var stem := tags[k].stem;
      counts := counts[stem := if stem in counts then counts[stem] + 1 else 1];
    }
    assert vs[..|tags|] == vs;
  }

  /** defaultdict(float)'s entry: 0.0 when missing. */
  function RatingOf(ratings: map<String, Rating>, s: String): Rating {
    if s in ratings then ratings[s] else Plain(0.0)
  }

  /** clusters holds, for each stem of ms, the Counter of its surface
      strings. */
  ghost predicate Tallied(ms: seq<MultiTag>, clusters: map<String, map<String, nat>>) {
    (forall s :: s in clusters <==> Count(ms, s) > 0) &&
    (forall s, x :: s in clusters ==> Get(clusters[s], x) == SurfaceCount(ms, s, x)) &&
    (forall s, x :: s in clusters && x in clusters[s] ==> clusters[s][x] > 0)
  }

  /** proper and ratings hold the proper count and the best proper rating of
      each stem of ms. */
  ghost predicate ProperTallied(ms: seq<MultiTag>, proper: map<String, nat>, ratings: map<String, Rating>) {
    (forall s :: Get(proper, s) == ProperCount(ms, s)) &&
    (forall s :: RatingOf(ratings, s) == MaxProperRating(ms, s))
  }

  /** The first loop over the multitags: clusters[s][str], proper[s] and
      ratings[s], keyed by stem. */
  method GatherClusters(ms: seq<MultiTag>)
      returns (clusters: map<String, map<String, nat>>, proper: map<String, nat>, ratings: map<String, Rating>)
    ensures Tallied(ms, clusters) && ProperTallied(ms, proper, ratings)
  {
    clusters, proper, ratings := map[], map[], map[];
    for k := 0 to |ms|
      invariant Tallied(ms[..k], clusters)
      invariant ProperTallied(ms[..k], proper, ratings)
    {
      var t := ms[k];
      var counter := if t.stem in clusters then clusters[t.stem] else map[];
      var clusters' := clusters[t.stem := counter[t.str := Get(counter, t.str) + 1]];
      TallyStep(ms, k, clusters, clusters');
      var proper', ratings' := proper, ratings;
      if t.proper {
        proper' := proper[t.stem := Get(proper, t.stem) + 1];
        ratings' := ratings[t.stem := Max(RatingOf(ratings, t.stem), t.rating)];
      }
      ProperStep(ms, k, proper, ratings, proper', ratings');
      clusters, proper, ratings := clusters', proper', ratings';
    }
    assert ms[..|ms|] == ms;
  }

  lemma TallyStep(ms: seq<MultiTag>, k: nat, clusters: map<String, map<String, nat>>,
                  clusters': map<String, map<String, nat>>)
    requires k < |ms| && Tallied(ms[..k], clusters)
    requires var t := ms[k];
             var counter := if t.stem in clusters then clusters[t.stem] else map[];
             clusters' == clusters[t.stem := counter[t.str := Get(counter, t.str) + 1]]
    ensures Tallied(ms[..k + 1], clusters')
  {
    PrefixStep(ms, k);
    var t := ms[k];
    forall s
      ensures s in clusters' <==> Count(ms[..k + 1], s) > 0
    {
      assert s in clusters <==> Count(ms[..k], s) > 0;
    }
    forall s, x | s in clusters'
      ensures Get(clusters'[s], x) == SurfaceCount(ms[..k + 1], s, x)
    {
      if s != t.stem {
        assert Get(clusters[s], x) == SurfaceCount(ms[..k], s, x);
      } else if s in clusters {
        assert Get(clusters[s], x) == SurfaceCount(ms[..k], s, x);
      } else {
        assert Count(ms[..k], s) == 0;
      }
    }
  }

  lemma ProperStep(ms: seq<MultiTag>, k: nat, proper: map<String, nat>, ratings: map<String, Rating>,
                   proper': map<String, nat>, ratings': map<String, Rating>)
    requires k < |ms| && ProperTallied(ms[..k], proper, ratings)
    requires var t := ms[k];
             if t.proper then
               proper' == proper[t.stem := Get(proper, t.stem) + 1] &&
               ratings' == ratings[t.stem := Max(RatingOf(ratings, t.stem), t.rating)]
             else proper' == proper && ratings' == ratings
    ensures ProperTallied(ms[..k + 1], proper', ratings')
  {
    PrefixStep(ms, k);
    var t := ms[k];
    forall s
      ensures Get(proper', s) == ProperCount(ms[..k + 1], s)
      ensures RatingOf(ratings', s) == MaxProperRating(ms[..k + 1], s)
    {
      assert Get(proper, s) == ProperCount(ms[..k], s);
      assert RatingOf(ratings, s) == MaxProperRating(ms[..k], s);
    }
  }

  /** term_count = Counter(multitags): the count of each stem, and the
      multitag that stands for it (the first one counted). */
  method CountCandidates(ms: seq<MultiTag>) returns (counts: map<String, nat>, firsts: map<String, MultiTag>)
    ensures Counted(ms, counts, firsts)
  {
    counts, firsts := map[], map[];
    for k := 0 to |ms|
      invariant Counted(ms[..k], counts, firsts)
    {
      var t := ms[k];
      if t.stem in counts {
        SeenStem(ms, k, counts, firsts);
        counts := counts[t.stem := counts[t.stem] + 1];
      } else {
        NewStem(ms, k, counts, firsts);
        counts := counts[t.stem := 1];
        firsts := firsts[t.stem := t];
      }
    }
    assert ms[..|ms|] == ms;
  }

  /** counts is term_count over ms, and firsts the first candidate of each
      stem. */
  ghost predicate Counted(ms: seq<MultiTag>, counts: map<String, nat>, firsts: map<String, MultiTag>) {
    (forall s :: s in counts <==> Count(ms, s) > 0) &&
    (forall s :: s in firsts <==> s in counts) &&
    (forall s :: s in counts ==> counts[s] == Count(ms, s) && firsts[s] == First(ms, s))
  }

  /** A candidate whose stem was seen adds one to its count. */
  lemma SeenStem(ms: seq<MultiTag>, k: nat, counts: map<String, nat>, firsts: map<String, MultiTag>)
    requires k < |ms| && Counted(ms[..k], counts, firsts) && ms[k].stem in counts
    ensures Counted(ms[..k + 1], counts[ms[k].stem := counts[ms[k].stem] + 1], firsts)
  {
    CountPrefixStep(ms, k);
  }

  /** A candidate with a new stem counts once and is its first. */
  lemma NewStem(ms: seq<MultiTag>, k: nat, counts: map<String, nat>, firsts: map<String, MultiTag>)
    requires k < |ms| && Counted(ms[..k], counts, firsts) && ms[k].stem !in counts
    ensures Counted(ms[..k + 1], counts[ms[k].stem := 1], firsts[ms[k].stem := ms[k]])
  {
    CountPrefixStep(ms, k);
  }

  /** The second loop of the clustering: for each stem, its first candidate
      takes the most common surface string and, when at least half of the
      occurrences are proper, becomes proper with the best proper rating. */
  method PickRepresentatives(ms: seq<MultiTag>, clusters: map<String, map<String, nat>>,
                             proper: map<String, nat>, ratings: map<String, Rating>,
                             counts: map<String, nat>, firsts: map<String, MultiTag>)
      returns (reps: map<String, MultiTag>)
    requires Tallied(ms, clusters) && ProperTallied(ms, proper, ratings) && Counted(ms, counts, firsts)
    ensures reps.Keys == counts.Keys
    ensures forall s :: s in reps ==> MostCommon(ms, s, reps[s].str) && reps[s] == Representative(ms, s, reps[s].str)
  {
    reps := map[];
    var todo := counts.Keys;
    while todo != {}
      invariant todo <= counts.Keys
      invariant reps.Keys == counts.Keys - todo
      invariant forall s :: s in reps ==>
                  MostCommon(ms, s, reps[s].str) && reps[s] == Representative(ms, s, reps[s].str)
      decreases todo
    {
      var s :| s in todo;
      FirstSurfaceOccurs(ms, s);
      assert First(ms, s).str in clusters[s];
      var str := MostCommonString(clusters[s]);
      var t := firsts[s].(str := str);
      if 2 * Get(proper, s) >= counts[s] {
        t := t.(proper := true, rating := RatingOf(ratings, s));
      }
      RepresentativeStep(ms, s, clusters, proper, ratings, counts, firsts, str, t);
      reps := reps[s := t];
      todo := todo - {s};
    }
  }

  /** The entry the loop of PickRepresentatives makes for stem s is its representative,
      with a most common surface string. */
  lemma RepresentativeStep(ms: seq<MultiTag>, s: String, clusters: map<String, map<String, nat>>,
                           proper: map<String, nat>, ratings: map<String, Rating>,
                           counts: map<String, nat>, firsts: map<String, MultiTag>, str: String, t: MultiTag)
    requires Tallied(ms, clusters) && ProperTallied(ms, proper, ratings)
    requires s in counts && counts[s] == Count(ms, s) > 0 && s in firsts && firsts[s] == First(ms, s)
    requires s in clusters && str in clusters[s] && forall x :: Get(clusters[s], x) <= clusters[s][str]
    requires t == if 2 * Get(proper, s) >= counts[s]
                  then firsts[s].(str := str, proper := true, rating := RatingOf(ratings, s))
                  else firsts[s].(str := str)
    ensures MostCommon(ms, s, str) && t == Representative(ms, s, str)
  {
    assert Get(clusters[s], str) == SurfaceCount(ms, s, str);
    forall x
      ensures SurfaceCount(ms, s, x) <= SurfaceCount(ms, s, str)
    {
      assert Get(clusters[s], x) == SurfaceCount(ms, s, x);
    }
  }

  /** Counter.most_common(1)[0][0]: a key of highest count. */
  method MostCommonString(counter: map<String, nat>) returns (best: String)
    requires counter != map[]
    ensures best in counter && forall x :: Get(counter, x) <= counter[best]
  {
    best :| best in counter;
    var rest := counter.Keys - {best};
    while rest != {}
      invariant best in counter && rest <= counter.Keys
      invariant forall x :: x in counter && x !in rest ==> counter[x] <= counter[best]
      decreases rest
    {
      var x :| x in rest;
      if counter[x] > counter[best] {
        best := x;
      }
      rest := rest - {x};
    }
  }

  /** The clustering half of Rater.__call__: each stem's representative takes
      the most common string and, when at least half its occurrences are
      proper (proper[t] / float(cnt) >= 0.5), becomes proper with the best
      proper rating. */
  method Cluster(ms: seq<MultiTag>) returns (counts: map<String, nat>, reps: map<String, MultiTag>)
    ensures Clustered(ms, counts, reps)
  {
    var clusters, proper, ratings := GatherClusters(ms);
    var firsts;
    counts, firsts := CountCandidates(ms);
    reps := PickRepresentatives(ms, clusters, proper, ratings, counts, firsts);
    ClusteredByStem(ms, counts, reps);
  }

  /** Counts for exactly the stems with candidates, and a representative for
      each, make a clustering. */
  lemma ClusteredByStem(ms: seq<MultiTag>, counts: map<String, nat>, reps: map<String, MultiTag>)
    requires forall s :: s in counts <==> Count(ms, s) > 0
    requires forall s :: s in counts ==> counts[s] == Count(ms, s)
    requires reps.Keys == counts.Keys
    requires forall s :: s in reps ==> MostCommon(ms, s, reps[s].str) && reps[s] == Representative(ms, s, reps[s].str)
    ensures Clustered(ms, counts, reps)
  {
    forall s
      ensures s in counts <==> s in Stems(ms)
    {
      CountPositive(ms, s);
    }
  }

  /** (l', i') comes before (l, i) in the order of the two loops over a tag's
      parts. */
  predicate Earlier(l': nat, i': nat, l: nat, i: nat) {
    l' < l || (l' == l && i' < i)
  }

  /** Some part of tag s before (l, i) has no count. */
  ghost predicate ZeroBefore(counts: map<String, nat>, reps: map<String, MultiTag>, s: String, l: nat, i: nat) {
    s in reps &&
    exists l', i' :: IsSubRun(KeyWords(reps[s]), l', i') && Earlier(l', i', l, i) &&
      Get(counts, SubKey(KeyWords(reps[s]), l', i')) == 0
  }

  /** Some comparison of tag s with a part before (l, i) discards x. */
  ghost predicate LostBefore(counts: map<String, nat>, reps: map<String, MultiTag>, s: String, l: nat, i: nat, x: String) {
    s in reps &&
    exists l', i' :: IsSubRun(KeyWords(reps[s]), l', i') && Earlier(l', i', l, i) &&
      Loser(counts, reps, s, l', i') == x
  }

  lemma PartStep(counts: map<String, nat>, reps: map<String, MultiTag>, s: String, l: nat, i: nat)
    requires s in reps && IsSubRun(KeyWords(reps[s]), l, i)
    ensures ZeroBefore(counts, reps, s, l, i + 1) <==>
              ZeroBefore(counts, reps, s, l, i) || Get(counts, SubKey(KeyWords(reps[s]), l, i)) == 0
    ensures forall x :: LostBefore(counts, reps, s, l, i + 1, x) <==>
              LostBefore(counts, reps, s, l, i, x) || Loser(counts, reps, s, l, i) == x
  {
    var words := KeyWords(reps[s]);
    assert Earlier(l, i, l, i + 1);
    forall l', i' | IsSubRun(words, l', i')
      ensures Earlier(l', i', l, i + 1) <==> Earlier(l', i', l, i) || (l' == l && i' == i)
    {
    }
  }

  /** Row l holds the parts at 0 <= i < width, so finishing it is starting
      row next = l + 1. */
  lemma RowStep(counts: map<String, nat>, reps: map<String, MultiTag>, s: String, l: nat, next: nat, width: nat)
    requires s in reps && 1 <= l < |KeyWords(reps[s])|
    requires next == l + 1 && width == |KeyWords(reps[s])| - l + 1
    ensures ZeroBefore(counts, reps, s, next, 0) <==> ZeroBefore(counts, reps, s, l, width)
    ensures forall x :: LostBefore(counts, reps, s, next, 0, x) <==> LostBefore(counts, reps, s, l, width, x)
  {
    var words := KeyWords(reps[s]);
    forall l', i' | IsSubRun(words, l', i')
      ensures Earlier(l', i', next, 0) <==> Earlier(l', i', l, width)
    {
    }
  }

  /** The comparisons of one tag with its parts: `for l in xrange(1,
      len(words))`, `for i in xrange(len(words) - l + 1)`. */
  method PurgeParts(counts: map<String, nat>, reps: map<String, MultiTag>, s: String, unique0: set<String>)
      returns (r: Result<set<String>>)
    requires s in reps && s in counts
    ensures r.ZeroDivisionError? <==> ZeroAt(counts, reps, s)
    ensures r.Ok? ==> forall x :: x in r.value <==> x in unique0 && !LostTo(counts, reps, s, x)
  {
    var t := reps[s];
    var cnt := counts[s];
    var words := KeyWords(t);
    var unique := unique0;
    var l := 1;
    while l < |words|
      invariant 1 <= l
      invariant !ZeroBefore(counts, reps, s, l, 0)
      invariant forall x :: x in unique <==> x in unique0 && !LostBefore(counts, reps, s, l, 0, x)
    {
      var i := 0;
      while i < |words| - l + 1
        invariant 0 <= i <= |words| - l + 1
        invariant !ZeroBefore(counts, reps, s, l, i)
        invariant forall x :: x in unique <==> x in unique0 && !LostBefore(counts, reps, s, l, i, x)
      {
        var sub := Join(words[i..i + l]);
        var subCnt := Get(counts, sub);
        if subCnt == 0 {
          assert IsSubRun(words, l, i) && Get(counts, SubKey(words, l, i)) == 0;
          return ZeroDivisionError;
        }
        PartStep(counts, reps, s, l, i);
        if KeepsLonger(cnt, subCnt, t) {
          unique := unique - {sub};
        } else {
          unique := unique - {s};
        }
        i := i + 1;
      }
      RowStep(counts, reps, s, l, l + 1, |words| - l + 1);
      l := l + 1;
    }
    return Ok(unique);
  }

  /** The purge of redundant tags: every tag is compared with each of its
      parts; the first part without a count raises ZeroDivisionError. */
  method RemoveRedundant(counts: map<String, nat>, reps: map<String, MultiTag>) returns (r: Result<set<String>>)
    requires counts.Keys == reps.Keys
    ensures r.ZeroDivisionError? <==> DivisionByZero(counts, reps)
    ensures r.Ok? ==> r.value == Survivors(counts, reps)
  {
    var unique := Unique(reps);
    var todo := counts.Keys;
    ghost var done: set<String> := {};
    while todo != {}
      invariant todo <= counts.Keys && done == counts.Keys - todo
      invariant forall s :: s in done ==> !ZeroAt(counts, reps, s)
      invariant forall x :: x in unique <==> x in Unique(reps) && forall s :: s in done ==> !LostTo(counts, reps, s, x)
      decreases todo
    {
      var s :| s in todo;
      var p := PurgeParts(counts, reps, s, unique);
      if p.ZeroDivisionError? {
        return ZeroDivisionError;
      }
      unique := p.value;
      todo := todo - {s};
      done := done + {s};
    }
    return Ok(unique);
  }

  /** A key of todo whose tag is rated at least as high as every other's. */
  method PickBest(todo: set<String>, reps: map<String, MultiTag>) returns (best: String)
    requires todo != {}
    requires forall x :: x in todo ==> x in reps && ValidRating(reps[x].rating)
    ensures best in todo && forall x :: x in todo ==> AtLeast(reps[best].rating, reps[x].rating)
  {
    best :| best in todo;
    var rest := todo - {best};
    while rest != {}
      invariant best in todo && rest <= todo
      invariant forall x :: x in todo && x !in rest ==> AtLeast(reps[best].rating, reps[x].rating)
      decreases rest
    {
      var x :| x in rest;
      if !AtLeast(reps[best].rating, reps[x].rating) {
        AtLeastTotal(reps[best].rating, reps[x].rating);
        forall y | y in todo && y !in rest
          ensures AtLeast(reps[x].rating, reps[y].rating)
        {
          AtLeastTransitive(reps[x].rating, reps[best].rating, reps[y].rating);
        }
        best := x;
      }
      rest := rest - {x};
    }
  }

  /** sorted(unique_tags): highest rating first. */
  method SortByRating(keys: set<String>, reps: map<String, MultiTag>) returns (r: seq<MultiTag>)
    requires forall x :: x in keys ==> x in reps && reps[x].stem == x && ValidRating(reps[x].rating)
    ensures Ranked(r, reps, keys)
  {
    r := [];
    var todo := keys;
    ghost var at: map<String, nat> := map[];
    while todo != {}
      invariant Listed(r, at, reps, keys, todo)
      decreases todo
    {
      var best := PickBest(todo, reps);
      ListStep(r, at, reps, keys, todo, best);
      at := at[best := |r|];
      r := r + [reps[best]];
      todo := todo - {best};
    }
    forall x | x in keys
      ensures exists j :: 0 <= j < |r| && r[j].stem == x
    {
      assert r[at[x]].stem == x;
    }
  }

  /** The sort so far: r lists the keys no longer in todo, best first, and
      at says where each one sits. */
  ghost predicate Listed(r: seq<MultiTag>, at: map<String, nat>, reps: map<String, MultiTag>,
                         keys: set<String>, todo: set<String>) {
    todo <= keys && |r| + |todo| == |keys| &&
    (forall j :: 0 <= j < |r| ==>
       r[j].stem in keys && r[j].stem !in todo && r[j].stem in reps && r[j] == reps[r[j].stem]) &&
    (forall x :: x in keys && x !in todo ==> x in at && at[x] < |r| && r[at[x]].stem == x) &&
    (forall a, b :: 0 <= a < b < |r| ==> r[a].stem != r[b].stem) &&
    (forall a, b :: 0 <= a < b < |r| ==> AtLeast(r[a].rating, r[b].rating)) &&
    (forall j, x :: 0 <= j < |r| && x in todo && x in reps ==> AtLeast(r[j].rating, reps[x].rating))
  }

  /** Moving the best of todo to the end of the list keeps it sorted. */
  lemma ListStep(r: seq<MultiTag>, at: map<String, nat>, reps: map<String, MultiTag>,
                 keys: set<String>, todo: set<String>, best: String)
    requires Listed(r, at, reps, keys, todo)
    requires forall x :: x in keys ==> x in reps && reps[x].stem == x
    requires best in todo && forall x :: x in todo ==> AtLeast(reps[best].rating, reps[x].rating)
    ensures Listed(r + [reps[best]], at[best := |r|], reps, keys, todo - {best})
  {
    var r' := r + [reps[best]];
    assert forall j :: 0 <= j < |r| ==> r'[j] == r[j];
    assert r'[|r|].stem == best;
  }

  /** The second half of Rater.__call__, from the candidates of rated tags to
      the sorted list of the surviving logical tags. */
  method Rank(ms: seq<MultiTag>, ghost vs: seq<AtomicTag>, ghost size: int)
      returns (r: Result<seq<MultiTag>>, counts: map<String, nat>, reps: map<String, MultiTag>)
    requires forall j :: 0 <= j < |vs| ==> 0.0 <= vs[j].rating <= 1.0
    requires ms == Candidates(vs, size)
    ensures Clustered(ms, counts, reps)
    ensures r.ZeroDivisionError? <==> DivisionByZero(counts, reps)
    ensures r.Ok? ==> Ranked(r.value, reps, Survivors(counts, reps))
  {
    counts, reps := Cluster(ms);
    var unique := RemoveRedundant(counts, reps);
    if unique.ZeroDivisionError? {
      return ZeroDivisionError, counts, reps;
    }
    CandidateRatingsValid(vs, size);
    RepresentativesValid(ms, counts, reps);
    var sorted := SortByRating(unique.value, reps);
    r := Ok(sorted);
  }

  class Rater {
    /** Weight of each stem, in [0, 1]; stems not listed weigh 1.0. */
    const weights: map<String, real>
    /** The maximum number of tags in a multitag. */
    const multitagSize: int

    predicate Valid() {
      UnitWeights(weights)
    }

    constructor (weights: map<String, real>, multitagSize: int := 3)
      requires UnitWeights(weights)
      ensures this.weights == weights && this.multitagSize == multitagSize
      ensures Valid()
    {
      this.weights := weights;
      this.multitagSize := multitagSize;
    }

    /** Rater.__call__: rate the tags, build the candidates, cluster them,
        purge the redundant ones and sort the rest. */
    method Call(tags: seq<Tag>)
        returns (r: Result<seq<MultiTag>>, ghost counts: map<String, nat>, ghost reps: map<String, MultiTag>)
      requires Valid()
      modifies set t | t in tags
      ensures Values(tags) == Rated(old(Values(tags)), weights)
      ensures Clustered(Candidates(Values(tags), multitagSize), counts, reps)
      ensures r.ZeroDivisionError? <==> DivisionByZero(counts, reps)
      ensures r.Ok? ==> Ranked(r.value, reps, Survivors(counts, reps))
    {
      ghost var before := Values(tags);
      RateTags(tags);
      RatedBounds(before, weights);
      var multitags := CreateMultitags(tags);
      r, counts, reps := Rank(multitags, Values(tags), multitagSize);
    }

    /** Rater.rate_tags: rating = term frequency * weight, in place. */
    method RateTags(tags: seq<Tag>)
      modifies set t | t in tags
      ensures Values(tags) == Rated(old(Values(tags)), weights)
    {
      ghost var before := Values(tags);
      var termCount := CountStems(tags);
      RateEach(tags, before, termCount);
      assert forall k :: 0 <= k < |tags| ==> tags[k].Value() == Rated(before, weights)[k];
    }

    /** The loop of rate_tags, over tags whose values were `before` and the
        Counter of their stems. A tag listed twice is rated twice, with the
        same rating. */
    method RateEach(tags: seq<Tag>, ghost before: seq<AtomicTag>, termCount: map<String, nat>)
      requires |before| == |tags|
      requires forall k :: 0 <= k < |tags| ==>
                 tags[k].str == before[k].str && tags[k].stem == before[k].stem &&
                 tags[k].proper == before[k].proper && tags[k].terminal == before[k].terminal
      requires forall s :: s in termCount <==> Occurrences(before, s) > 0
      requires forall s :: s in termCount ==> termCount[s] == Occurrences(before, s)
      modifies set t | t in tags
      ensures forall k :: 0 <= k < |tags| ==>
                tags[k].str == before[k].str && tags[k].stem == before[k].stem &&
                tags[k].proper == before[k].proper && tags[k].terminal == before[k].terminal
      ensures forall k :: 0 <= k < |tags| ==> tags[k].rating == UnitRating(before, weights, before[k].stem)
    {
      var n := |tags|;
      for i := 0 to |tags|
        invariant forall k :: 0 <= k < |tags| ==>
                    tags[k].str == before[k].str && tags[k].stem == before[k].stem &&
                    tags[k].proper == before[k].proper && tags[k].terminal == before[k].terminal
        invariant forall k :: 0 <= k < i ==> tags[k].rating == UnitRating(before, weights, before[k].stem)
      {
        var t := tags[i];
        OccursOnce(before, i);
        var c := termCount[t.stem];
        t.rating := Share(c, n, Weight(weights, t.stem));
      }
    }

    /** Rater.create_multitags: from each position, the tag and its
        extensions, until the size cap, the end of the list or a terminal tag. */
    method CreateMultitags(tags: seq<Tag>) returns (multitags: seq<MultiTag>)
      ensures multitags == Candidates(Values(tags), multitagSize)
    {
      ghost var vs := Values(tags);
      multitags := [];
      for i := 0 to |tags|
        invariant multitags == CandidatesUpTo(vs, multitagSize, i)
      {
        var chain := ChainFrom(tags, i);
        multitags := multitags + chain;
      }
    }

    /** The multitags from position i: the tag, then its extensions by the
        following tags while the last is not terminal and the cap allows. */
    method ChainFrom(tags: seq<Tag>, i: nat) returns (chain: seq<MultiTag>)
      requires i < |tags|
      ensures chain == RunsFrom(Values(tags), multitagSize, i)
    {
      ghost var vs := Values(tags);
      var t := Single(tags[i].Value());
      chain := [t];
      RunPosFromChainLen(vs, multitagSize, i, 1);
      var j := 1;
      while j < multitagSize
        invariant 1 <= j <= Cap(multitagSize) && i + j <= |tags|
        invariant IsRunPos(vs, multitagSize, i, j) && t == Run(vs, i, j)
        invariant |chain| == j && forall k :: 0 <= k < j ==> chain[k] == Run(vs, i, k + 1)
      {
        if t.terminal || i + j >= |tags| {
          break;
        }
        ExtendRun(vs, multitagSize, i, j, chain);
        t := Extend(t, tags[i + j].Value());
        chain := chain + [t];
        j := j + 1;
      }
      ChainComplete(vs, multitagSize, i, j, chain);
    }
  }
}
