/** Redundancy elimination (the second half of Rater.__call__): every
    logical tag is compared with each shorter contiguous part of its stem,
    and one of the two is discarded. */
module Redundancy {
  import opened TextRules
  import opened TagModel
  import opened Chains
  import opened Clustering

  /** t.stem.split() */
  function KeyWords(t: MultiTag): seq<String> {
    Runs(NotSpace, t.stem)
  }

  /** words[i:i + l] is a proper contiguous part of words:
      `for l in xrange(1, len(words))`, `for i in xrange(len(words) - l + 1)`. */
  predicate IsSubRun(words: seq<String>, l: nat, i: nat) {
    1 <= l < |words| && i + l <= |words|
  }

  /** ' '.join(words[i:i + l]) */
  function SubKey(words: seq<String>, l: nat, i: nat): String
    requires i + l <= |words|
  {
    Join(words[i..i + l])
  }

  /** term_count[s]: a Counter answers 0 for a missing key. */
  function Get(counts: map<String, nat>, s: String): nat {
    if s in counts then counts[s] else 0
  }

  /** The test that keeps the longer tag: relative_freq == 1.0 and t.proper,
      or relative_freq >= 0.5 and t.rating > 0.0, with relative_freq the
      ratio cnt / subCnt of two positive counts. */
  predicate KeepsLonger(cnt: nat, subCnt: nat, t: MultiTag) {
    (cnt == subCnt && t.proper) || (2 * cnt >= subCnt && Positive(t.rating))
  }

  /** The stem the comparison of tag s with its part (l, i) discards. */
  function Loser(counts: map<String, nat>, reps: map<String, MultiTag>, s: String, l: nat, i: nat): String
    requires s in reps && IsSubRun(KeyWords(reps[s]), l, i)
  {
    var t := reps[s];
    var sub := SubKey(KeyWords(t), l, i);
    if KeepsLonger(Get(counts, s), Get(counts, sub), t) then sub else s
  }

  /** Some part of tag s has no count: `float(cnt) / term_count[s]` raises
      ZeroDivisionError. */
  ghost predicate ZeroAt(counts: map<String, nat>, reps: map<String, MultiTag>, s: String) {
    s in reps &&
    exists l, i :: IsSubRun(KeyWords(reps[s]), l, i) && Get(counts, SubKey(KeyWords(reps[s]), l, i)) == 0
  }

  ghost predicate DivisionByZero(counts: map<String, nat>, reps: map<String, MultiTag>) {
    exists s :: ZeroAt(counts, reps, s)
  }

  /** The comparison of tag s with one of its parts discards x. */
  ghost predicate LostTo(counts: map<String, nat>, reps: map<String, MultiTag>, s: String, x: String) {
    s in reps &&
    exists l, i :: IsSubRun(KeyWords(reps[s]), l, i) && Loser(counts, reps, s, l, i) == x
  }

  ghost predicate Discarded(counts: map<String, nat>, reps: map<String, MultiTag>, x: String) {
    exists s :: LostTo(counts, reps, s, x)
  }

  /** unique_tags before the purge: the tags whose string is longer than one
      character. */
  function Unique(reps: map<String, MultiTag>): set<String> {
    set s | s in reps && |reps[s].str| > 1
  }

  /** unique_tags after the purge: nothing is ever added back, so the order in
      which the comparisons run does not matter. */
  ghost function Survivors(counts: map<String, nat>, reps: map<String, MultiTag>): set<String> {
    set x | x in Unique(reps) && !Discarded(counts, reps, x)
  }

  /** The decision rule, as the result shows it: the part is dropped when the
      longer tag is as frequent and proper, or at least half as frequent and
      positively rated; otherwise the longer tag is dropped. */
  lemma DiscardRule(counts: map<String, nat>, reps: map<String, MultiTag>, s: String, l: nat, i: nat)
    requires s in reps && IsSubRun(KeyWords(reps[s]), l, i)
    ensures KeepsLonger(Get(counts, s), Get(counts, SubKey(KeyWords(reps[s]), l, i)), reps[s]) ==>
              SubKey(KeyWords(reps[s]), l, i) !in Survivors(counts, reps)
    ensures !KeepsLonger(Get(counts, s), Get(counts, SubKey(KeyWords(reps[s]), l, i)), reps[s]) ==>
              s !in Survivors(counts, reps)
  {
    assert LostTo(counts, reps, s, Loser(counts, reps, s, l, i));
  }

  /** The stems of the document are non-empty and hold no whitespace, as
      stems of single words are. */
  predicate PlainStems(vs: seq<AtomicTag>) {
    forall k :: 0 <= k < |vs| ==>
      |vs[k].stem| > 0 && forall c :: 0 <= c < |vs[k].stem| ==> NotSpace(vs[k].stem[c])
  }

  /** With plain stems, a run's stems are its tags' own stems. */
  lemma PlainRunStems(vs: seq<AtomicTag>, i: nat, k: nat)
    requires PlainStems(vs) && i + k <= |vs|
    ensures forall j :: 0 <= j < k ==> RunStems(vs, i, k)[j] == vs[i + j].stem
  {
    if k > 0 {
      assert |vs[i].stem| > 0;
      assert RunStems(vs, i, k)[0] == FirstStem(vs[i]) == vs[i].stem;
    }
  }

  /** With plain stems, a run's stem splits back into its tags' stems. */
  lemma RunWords(vs: seq<AtomicTag>, i: nat, k: nat)
    requires PlainStems(vs) && 1 <= k && i + k <= |vs|
    ensures KeyWords(Run(vs, i, k)) == RunStems(vs, i, k)
  {
    PlainRunStems(vs, i, k);
    SplitJoin(RunStems(vs, i, k));
    RunStem(vs, i, k);
  }

  /** A part of a run's stem is the stem of the run at the part's position. */
  lemma SubKeyIsRun(vs: seq<AtomicTag>, i: nat, k: nat, l: nat, a: nat)
    requires PlainStems(vs) && 1 <= l && a + l <= k && i + k <= |vs|
    ensures SubKey(RunStems(vs, i, k), l, a) == Run(vs, i + a, l).stem
  {
    PlainSubStems(vs, i, k, l, a);
    RunStem(vs, i + a, l);
  }

  /** With plain stems, a part of a run's stems is the stems of the run at
      the part's position. */
  lemma PlainSubStems(vs: seq<AtomicTag>, i: nat, k: nat, l: nat, a: nat)
    requires PlainStems(vs) && 1 <= l && a + l <= k && i + k <= |vs|
    ensures RunStems(vs, i, k)[a..a + l] == RunStems(vs, i + a, l)
    ensures SubKey(RunStems(vs, i, k), l, a) == Join(RunStems(vs, i + a, l))
  {
    PlainRunStems(vs, i, k);
    PlainRunStems(vs, i + a, l);
  }

  /** Every part looked up in term_count is itself a candidate, so the
      division never divides by zero: the candidate's chain contains the
      part's chain. */
  lemma NoDivisionByZero(vs: seq<AtomicTag>, size: int, counts: map<String, nat>, reps: map<String, MultiTag>)
    requires PlainStems(vs)
    requires Clustered(Candidates(vs, size), counts, reps)
    ensures !DivisionByZero(counts, reps)
  {
    var ms := Candidates(vs, size);
    forall s, l, i | s in reps && IsSubRun(KeyWords(reps[s]), l, i)
      ensures Get(counts, SubKey(KeyWords(reps[s]), l, i)) > 0
    {
      PartCounted(vs, size, counts, reps, s, l, i);
    }
  }

  lemma PartCounted(vs: seq<AtomicTag>, size: int, counts: map<String, nat>, reps: map<String, MultiTag>,
                    s: String, l: nat, a: nat)
    requires PlainStems(vs)
    requires Clustered(Candidates(vs, size), counts, reps)
    requires s in reps && IsSubRun(KeyWords(reps[s]), l, a)
    ensures Get(counts, SubKey(KeyWords(reps[s]), l, a)) > 0
  {
    var i, k := RunOfStem(vs, size, counts, reps, s);
    RunWords(vs, i, k);
    SubRunCounted(vs, size, counts, reps, i, k, l, a);
  }

  /** The stem of a logical tag is the stem of a run at a chain position. */
  lemma RunOfStem(vs: seq<AtomicTag>, size: int, counts: map<String, nat>, reps: map<String, MultiTag>, s: String)
      returns (i: nat, k: nat)
    requires Clustered(Candidates(vs, size), counts, reps)
    requires s in reps
    ensures IsRunPos(vs, size, i, k) && Run(vs, i, k).stem == s == reps[s].stem
  {
    var ms := Candidates(vs, size);
    assert s in Stems(ms) && Count(ms, s) > 0;
    RepresentativeStem(ms, s, reps[s].str);
    i, k := CandidateRun(vs, size, s);
  }

  /** Every candidate is the run at some chain position. */
  lemma CandidateRun(vs: seq<AtomicTag>, size: int, s: String) returns (i: nat, k: nat)
    requires s in Stems(Candidates(vs, size))
    ensures IsRunPos(vs, size, i, k) && Run(vs, i, k).stem == s
  {
    var ms := Candidates(vs, size);
    var sp := Spans(vs, size);
    var m :| m in ms && m.stem == s;
    var j :| 0 <= j < |ms| && ms[j] == m;
    i, k := sp[j].0, sp[j].1;
  }

  /** Each part of a chain's stem has a positive count. */
  lemma SubRunCounted(vs: seq<AtomicTag>, size: int, counts: map<String, nat>, reps: map<String, MultiTag>,
                      i: nat, k: nat, l: nat, a: nat)
    requires PlainStems(vs)
    requires Clustered(Candidates(vs, size), counts, reps)
    requires IsRunPos(vs, size, i, k) && 1 <= l && a + l <= k
    ensures Get(counts, SubKey(RunStems(vs, i, k), l, a)) > 0
  {
    SubRunStem(vs, size, i, k, l, a);
    CountPositive(Candidates(vs, size), SubKey(RunStems(vs, i, k), l, a));
  }

  /** Every part of a run's stems is the stem of some candidate. */
  lemma SubRunStem(vs: seq<AtomicTag>, size: int, i: nat, k: nat, l: nat, a: nat)
    requires PlainStems(vs)
    requires IsRunPos(vs, size, i, k) && 1 <= l && a + l <= k
    ensures SubKey(RunStems(vs, i, k), l, a) in Stems(Candidates(vs, size))
  {
    SubKeyIsRun(vs, i, k, l, a);
    SubRunIsRun(vs, size, i, k, a, l);
    CandidateAt(vs, size, i + a, l);
    StemsHas(Candidates(vs, size), Run(vs, i + a, l));
  }

  lemma RepresentativeStem(ms: seq<MultiTag>, s: String, str: String)
    requires Count(ms, s) > 0
    ensures Representative(ms, s, str).stem == s
  {
  }
}
