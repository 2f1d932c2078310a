/** The candidate multitags of a document (Rater.create_multitags): from each
    position, the run of one tag and its extensions by the following tags, up
    to the maximal multitag size, never past a terminal tag. */
module Chains {
  import opened TextRules
  import opened TagModel

  /** The number of tags a chain may hold: `xrange(1, multitag_size)` allows
      size - 1 extensions, and the first tag is always taken. */
  function Cap(size: int): nat {
    if size < 1 then 1 else size
  }

  /** The stems of the k tags from position i, as a run starting there joins them. */
  function RunStems(vs: seq<AtomicTag>, i: nat, k: nat): (ss: seq<String>)
    requires i + k <= |vs|
    ensures |ss| == k
  {
    seq(k, j requires 0 <= j < k => if j == 0 then FirstStem(vs[i]) else vs[i + j].stem)
  }

  function RunStrings(vs: seq<AtomicTag>, i: nat, k: nat): (ss: seq<String>)
    requires i + k <= |vs|
    ensures |ss| == k
  {
    seq(k, j requires 0 <= j < k => vs[i + j].str)
  }

  function RunRatings(vs: seq<AtomicTag>, i: nat, k: nat): (rs: seq<real>)
    requires i + k <= |vs|
    ensures |rs| == k
  {
    seq(k, j requires 0 <= j < k => vs[i + j].rating)
  }

  /** The multitag of the k tags from position i: MultiTag(tags[i]) extended
      k - 1 times. */
  function Run(vs: seq<AtomicTag>, i: nat, k: nat): MultiTag
    requires 1 <= k && i + k <= |vs|
    decreases k
  {
    if k == 1 then Single(vs[i]) else Extend(Run(vs, i, k - 1), vs[i + k - 1])
  }

  /** The fields of a run, as the MultiTag constructor builds them step by step. */
  lemma RunShape(vs: seq<AtomicTag>, i: nat, k: nat)
    requires 1 <= k && i + k <= |vs|
    // strings and stems joined by single spaces, in text order
    ensures Run(vs, i, k).str == Join(RunStrings(vs, i, k))
    ensures Run(vs, i, k).stem == Join(RunStems(vs, i, k))
    // one unit rating per tag, and as many units as tags
    ensures Run(vs, i, k).size == k && Run(vs, i, k).subratings == RunRatings(vs, i, k)
    // proper when all its tags are; terminal when its last tag is
    ensures Run(vs, i, k).proper <==> forall j :: i <= j < i + k ==> vs[j].proper
    ensures Run(vs, i, k).terminal == vs[i + k - 1].terminal
    // a longer run is rated by combining its unit ratings
    ensures k > 1 ==> Run(vs, i, k).rating == CombinedRating(RunRatings(vs, i, k), k, Run(vs, i, k).proper)
  {
    RunStr(vs, i, k);
    RunStem(vs, i, k);
    RunRated(vs, i, k);
  }

  /** The string and the stem a run builds up, one tag at a time. */
  function ChainStr(vs: seq<AtomicTag>, i: nat, k: nat): String
    requires 1 <= k && i + k <= |vs|
  {
    if k == 1 then vs[i].str else ChainStr(vs, i, k - 1) + " " + vs[i + k - 1].str
  }

  function ChainStem(vs: seq<AtomicTag>, i: nat, k: nat): String
    requires 1 <= k && i + k <= |vs|
  {
    if k == 1 then FirstStem(vs[i]) else ChainStem(vs, i, k - 1) + " " + vs[i + k - 1].stem
  }

  /** A run's string and stem are the ones its tags build up. */
  lemma {:induction false} RunChain(vs: seq<AtomicTag>, i: nat, k: nat)
    requires 1 <= k && i + k <= |vs|
    ensures Run(vs, i, k).str == ChainStr(vs, i, k) && Run(vs, i, k).stem == ChainStem(vs, i, k)
  {
    if k > 1 {
      RunChain(vs, i, k - 1);
    }
  }

  /** Built up one tag at a time, the strings are joined by single spaces. */
  lemma {:induction false} ChainStrJoin(vs: seq<AtomicTag>, i: nat, k: nat)
    requires 1 <= k && i + k <= |vs|
    ensures ChainStr(vs, i, k) == Join(RunStrings(vs, i, k))
  {
    if k == 1 {
      assert RunStrings(vs, i, 1) == [vs[i].str];
    } else {
      ChainStrJoin(vs, i, k - 1);
      RunSeqsSnoc(vs, i, k);
      JoinedStep(RunStrings(vs, i, k), vs[i + k - 1].str);
    }
  }

  /** Built up one tag at a time, the stems are joined by single spaces. */
  lemma {:induction false} ChainStemJoin(vs: seq<AtomicTag>, i: nat, k: nat)
    requires 1 <= k && i + k <= |vs|
    ensures ChainStem(vs, i, k) == Join(RunStems(vs, i, k))
  {
    if k == 1 {
      assert RunStems(vs, i, 1) == [FirstStem(vs[i])];
    } else {
      ChainStemJoin(vs, i, k - 1);
      RunSeqsSnoc(vs, i, k);
      JoinedStep(RunStems(vs, i, k), vs[i + k - 1].stem);
    }
  }

  /** A run's string is its tags' strings joined by single spaces. */
  lemma RunStr(vs: seq<AtomicTag>, i: nat, k: nat)
    requires 1 <= k && i + k <= |vs|
    ensures Run(vs, i, k).str == Join(RunStrings(vs, i, k))
  {
    RunChain(vs, i, k);
    ChainStrJoin(vs, i, k);
  }

  /** A run's stem is its tags' stems joined by single spaces. */
  lemma RunStem(vs: seq<AtomicTag>, i: nat, k: nat)
    requires 1 <= k && i + k <= |vs|
    ensures Run(vs, i, k).stem == Join(RunStems(vs, i, k))
  {
    RunChain(vs, i, k);
    ChainStemJoin(vs, i, k);
  }

  /** Joining a list ending in w appends a space and w to the join of the
      rest. */
  lemma JoinedStep(ws: seq<String>, w: String)
    requires |ws| > 1 && ws[|ws| - 1] == w
    ensures Join(ws) == Join(ws[..|ws| - 1]) + " " + w
  {
  }

  /** The strings, stems and unit ratings of a run grow by its last tag's. */
  lemma RunSeqsSnoc(vs: seq<AtomicTag>, i: nat, k: nat)
    requires 1 < k && i + k <= |vs|
    ensures RunStrings(vs, i, k) == RunStrings(vs, i, k - 1) + [vs[i + k - 1].str]
    ensures RunStems(vs, i, k) == RunStems(vs, i, k - 1) + [vs[i + k - 1].stem]
    ensures RunRatings(vs, i, k) == RunRatings(vs, i, k - 1) + [vs[i + k - 1].rating]
    ensures RunStrings(vs, i, k)[..k - 1] == RunStrings(vs, i, k - 1)
    ensures RunStems(vs, i, k)[..k - 1] == RunStems(vs, i, k - 1)
  {
    assert forall j :: 0 <= j < k - 1 ==> RunStrings(vs, i, k)[j] == RunStrings(vs, i, k - 1)[j];
    assert forall j :: 0 <= j < k - 1 ==> RunStems(vs, i, k)[j] == RunStems(vs, i, k - 1)[j];
    assert forall j :: 0 <= j < k - 1 ==> RunRatings(vs, i, k)[j] == RunRatings(vs, i, k - 1)[j];
  }

  /** A run's size, unit ratings, proper flag and combined rating. */
  lemma {:induction false} RunRated(vs: seq<AtomicTag>, i: nat, k: nat)
    requires 1 <= k && i + k <= |vs|
    ensures Run(vs, i, k).size == k && Run(vs, i, k).subratings == RunRatings(vs, i, k)
    ensures Run(vs, i, k).proper <==> forall j :: i <= j < i + k ==> vs[j].proper
    ensures k > 1 ==> Run(vs, i, k).rating == CombinedRating(RunRatings(vs, i, k), k, Run(vs, i, k).proper)
  {
    if k == 1 {
      assert RunRatings(vs, i, 1) == [vs[i].rating];
    } else {
      RunRated(vs, i, k - 1);
      RunSeqsSnoc(vs, i, k);
    }
  }

  /** The k tags from position i form a chain: it fits the size cap and the
      list, and none but its last tag is terminal. */
  predicate IsRunPos(vs: seq<AtomicTag>, size: int, i: nat, k: nat) {
    1 <= k <= Cap(size) && i + k <= |vs| &&
    forall j :: i <= j < i + k - 1 ==> !vs[j].terminal
  }

  /** How far the chain from position i grows, given that its first L tags
      are a chain: until the cap, the end of the list or a terminal tag. */
  function Grow(vs: seq<AtomicTag>, size: int, i: nat, L: nat): (n: nat)
    requires IsRunPos(vs, size, i, L)
    ensures L <= n && IsRunPos(vs, size, i, n)
    ensures n == Cap(size) || i + n == |vs| || vs[i + n - 1].terminal
    decreases Cap(size) - L
  {
    if L == Cap(size) || i + L == |vs| || vs[i + L - 1].terminal then L
    else Grow(vs, size, i, L + 1)
  }

  /** The number of multitags created from position i. */
  function ChainLen(vs: seq<AtomicTag>, size: int, i: nat): nat
    requires i < |vs|
  {
    Grow(vs, size, i, 1)
  }

  /** A chain that cannot grow further has the length ChainLen gives. */
  lemma ChainLenUnique(vs: seq<AtomicTag>, size: int, i: nat, n: nat)
    requires IsRunPos(vs, size, i, n)
    requires n == Cap(size) || i + n == |vs| || vs[i + n - 1].terminal
    ensures ChainLen(vs, size, i) == n
  {
  }

  /** The chains from position i are exactly those no longer than ChainLen. */
  lemma RunPosFromChainLen(vs: seq<AtomicTag>, size: int, i: nat, k: nat)
    requires i < |vs|
    ensures IsRunPos(vs, size, i, k) <==> 1 <= k <= ChainLen(vs, size, i)
  {
  }

  /** The runs of a chain that cannot grow further are all the runs from its
      position. */
  lemma ChainComplete(vs: seq<AtomicTag>, size: int, i: nat, n: nat, chain: seq<MultiTag>)
    requires IsRunPos(vs, size, i, n)
    requires n == Cap(size) || i + n == |vs| || Run(vs, i, n).terminal
    requires |chain| == n && forall k :: 0 <= k < n ==> chain[k] == Run(vs, i, k + 1)
    ensures chain == RunsFrom(vs, size, i)
  {
    ChainLenUnique(vs, size, i, n);
  }

  /** A chain whose last tag is not terminal grows by the next tag, within
      the cap and the list, and the grown run is the next run. */
  lemma ExtendRun(vs: seq<AtomicTag>, size: int, i: nat, k: nat, chain: seq<MultiTag>)
    requires IsRunPos(vs, size, i, k) && k < Cap(size) && i + k < |vs|
    requires !Run(vs, i, k).terminal
    requires |chain| == k && forall j :: 0 <= j < k ==> chain[j] == Run(vs, i, j + 1)
    ensures IsRunPos(vs, size, i, k + 1)
    ensures Extend(Run(vs, i, k), vs[i + k]) == Run(vs, i, k + 1)
    ensures var grown := chain + [Run(vs, i, k + 1)];
            forall j :: 0 <= j < k + 1 ==> grown[j] == Run(vs, i, j + 1)
  {
  }

  /** The positions (start, length) of the chains starting before p, in the
      order create_multitags emits them. */
  function SpansUpTo(vs: seq<AtomicTag>, size: int, p: nat): (sp: seq<(nat, nat)>)
    requires p <= |vs|
    ensures forall j :: 0 <= j < |sp| ==> sp[j].0 < p && IsRunPos(vs, size, sp[j].0, sp[j].1)
  {
    if p == 0 then []
    else
      var i := p - 1;
      var n := ChainLen(vs, size, i);
      var tail := seq(n, k requires 0 <= k < n => (i, k + 1));
      assert forall k :: 1 <= k <= n ==> IsRunPos(vs, size, i, k) by {
        forall k | 1 <= k <= n {
          RunPosFromChainLen(vs, size, i, k);
        }
      }
      SpansUpTo(vs, size, i) + tail
  }

  function Spans(vs: seq<AtomicTag>, size: int): seq<(nat, nat)> {
    SpansUpTo(vs, size, |vs|)
  }

  /** The multitags from position i, shortest first. */
  function RunsFrom(vs: seq<AtomicTag>, size: int, i: nat): (ms: seq<MultiTag>)
    requires i < |vs|
    ensures |ms| == ChainLen(vs, size, i)
  {
    var n := ChainLen(vs, size, i);
    seq(n, k requires 0 <= k < n => Run(vs, i, k + 1))
  }

  /** The multitags created from the positions before p, in order: one run
      per chain position. */
  function CandidatesUpTo(vs: seq<AtomicTag>, size: int, p: nat): (ms: seq<MultiTag>)
    requires p <= |vs|
    ensures |ms| == |SpansUpTo(vs, size, p)|
    ensures forall j :: 0 <= j < |ms| ==>
              ms[j] == Run(vs, SpansUpTo(vs, size, p)[j].0, SpansUpTo(vs, size, p)[j].1)
  {
    if p == 0 then [] else CandidatesUpTo(vs, size, p - 1) + RunsFrom(vs, size, p - 1)
  }

  /** Rater.create_multitags, as values. */
  function Candidates(vs: seq<AtomicTag>, size: int): seq<MultiTag> {
    CandidatesUpTo(vs, size, |vs|)
  }

  /** Every chain position is emitted, and nothing else is. */
  lemma {:induction false} SpansUpToComplete(vs: seq<AtomicTag>, size: int, p: nat, i: nat, k: nat)
    requires p <= |vs|
    ensures (i, k) in SpansUpTo(vs, size, p) <==> i < p && IsRunPos(vs, size, i, k)
  {
    if p > 0 {
      SpansUpToComplete(vs, size, p - 1, i, k);
      RunPosFromChainLen(vs, size, p - 1, k);
      var n := ChainLen(vs, size, p - 1);
      var tail := seq(n, k requires 0 <= k < n => (p - 1, k + 1));
      assert SpansUpTo(vs, size, p) == SpansUpTo(vs, size, p - 1) + tail;
      if i == p - 1 && IsRunPos(vs, size, i, k) {
        assert tail[k - 1] == (i, k);
      }
    }
  }

  lemma SpansComplete(vs: seq<AtomicTag>, size: int, i: nat, k: nat)
    ensures (i, k) in Spans(vs, size) <==> IsRunPos(vs, size, i, k)
  {
    SpansUpToComplete(vs, size, |vs|, i, k);
  }

  /** (i, k) comes before (i', k'): by start position, then by length. */
  predicate Before(a: (nat, nat), b: (nat, nat)) {
    a.0 < b.0 || (a.0 == b.0 && a.1 < b.1)
  }

  /** The emission order: by start position, then by length, so each chain
      position is emitted once. */
  lemma {:induction false} SpansUpToOrdered(vs: seq<AtomicTag>, size: int, p: nat)
    requires p <= |vs|
    ensures forall a, b :: 0 <= a < b < |SpansUpTo(vs, size, p)| ==>
              Before(SpansUpTo(vs, size, p)[a], SpansUpTo(vs, size, p)[b])
  {
    if p > 0 {
      SpansUpToOrdered(vs, size, p - 1);
    }
  }

  lemma SpansOrdered(vs: seq<AtomicTag>, size: int)
    ensures forall a, b :: 0 <= a < b < |Spans(vs, size)| ==> Before(Spans(vs, size)[a], Spans(vs, size)[b])
  {
    SpansUpToOrdered(vs, size, |vs|);
  }

  /** Every position contributes a run of one tag. */
  lemma SingleAtEveryPosition(vs: seq<AtomicTag>, size: int, i: nat)
    requires i < |vs|
    ensures (i, 1) in Spans(vs, size)
  {
    SpansComplete(vs, size, i, 1);
  }

  /** A contiguous part of a chain is itself a chain: a chain only stops at a
      terminal tag, and only its last tag may be terminal. */
  lemma SubRunIsRun(vs: seq<AtomicTag>, size: int, i: nat, k: nat, a: nat, l: nat)
    requires IsRunPos(vs, size, i, k)
    requires 1 <= l && a + l <= k
    ensures IsRunPos(vs, size, i + a, l)
  {
  }

  /** The candidates are the runs at the chain positions. */
  lemma CandidateAt(vs: seq<AtomicTag>, size: int, i: nat, k: nat)
    requires IsRunPos(vs, size, i, k)
    ensures Run(vs, i, k) in Candidates(vs, size)
  {
    SpansComplete(vs, size, i, k);
    var sp := Spans(vs, size);
    var j :| 0 <= j < |sp| && sp[j] == (i, k);
    assert Candidates(vs, size)[j] == Run(vs, i, k);
  }

  /** With unit ratings in [0, 1], every run is rated by a valid rating no
      greater than 1. */
  lemma RunRatingValid(vs: seq<AtomicTag>, i: nat, k: nat)
    requires 1 <= k && i + k <= |vs|
    requires forall j :: 0 <= j < |vs| ==> 0.0 <= vs[j].rating <= 1.0
    ensures ValidRating(Run(vs, i, k).rating) && Run(vs, i, k).rating.radicand <= 1.0
  {
    RunRated(vs, i, k);
    if k > 1 {
      CombinedRatingBounds(RunRatings(vs, i, k), k, Run(vs, i, k).proper);
    }
  }

  /** Every candidate's rating is valid, so candidates can be compared. */
  lemma CandidateRatingsValid(vs: seq<AtomicTag>, size: int)
    requires forall j :: 0 <= j < |vs| ==> 0.0 <= vs[j].rating <= 1.0
    ensures forall m :: m in Candidates(vs, size) ==> ValidRating(m.rating) && m.rating.radicand <= 1.0
  {
    var ms := Candidates(vs, size);
    var sp := Spans(vs, size);
    forall m | m in ms
      ensures ValidRating(m.rating) && m.rating.radicand <= 1.0
    {
      var j :| 0 <= j < |ms| && ms[j] == m;
      RunRatingValid(vs, sp[j].0, sp[j].1);
    }
  }
}
