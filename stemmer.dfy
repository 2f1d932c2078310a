/** Stemmer: strips contractions and possessive forms, then hands the word to
    a stemming back end. */
module Stemming {
  import opened TextRules
  import opened TagModel

  /** Stemmer.preprocess: the anchored match of `(\w+)'(m|re|d|ve|s|ll|t)?`.
      The match succeeds exactly when the string opens with a run of word
      characters followed by an apostrophe (the suffix group is optional), and
      then yields that run; otherwise the string is returned unchanged. */
  function Preprocess(s: String): (r: String)
    // either way the result is a prefix of the input
    ensures |r| <= |s| && r == s[..|r|]
    // the match succeeds exactly when a word-character run is followed by an apostrophe
    ensures |r| < |s| <==> ContractionAt(s, Span(IsAlnum, s, true))
    // and then the result is that run
    ensures |r| < |s| ==> |r| == Span(IsAlnum, s, true)
  {
    var n := Span(IsAlnum, s, true);
    if 0 < n < |s| && s[n] == '\'' then s[..n] else s
  }

  /** A non-empty run of n word characters opens s and an apostrophe follows it. */
  predicate ContractionAt(s: String, n: nat) {
    0 < n < |s| && s[n] == '\'' && forall i :: 0 <= i < n ==> IsAlnum(s[i])
  }

  /** Stripping a contraction twice strips nothing more: a stripped result
      is made of word characters only, so it has no apostrophe to match. */
  lemma PreprocessIdempotent(s: String)
    ensures Preprocess(Preprocess(s)) == Preprocess(s)
  {
    var r := Preprocess(s);
    if |r| < |s| {
      var n := Span(IsAlnum, s, true);
      assert forall i :: 0 <= i < |r| ==> IsAlnum(r[i]);
      SpanAll(r);
    }
  }

  lemma {:induction false} SpanAll(w: String)
    requires forall i :: 0 <= i < |w| ==> IsAlnum(w[i])
    ensures Span(IsAlnum, w, true) == |w|
  {
    if w != [] {
      SpanAll(w[1..]);
    }
  }

  /** Stemmer, around a back end that maps a word to its stem (Porter2 by
      default). */
  class Stemmer {
    const backend: String -> String

    constructor (backend: String -> String)
      ensures this.backend == backend
    {
      this.backend := backend;
    }

    /** Stemmer.__call__: sets the tag's stem in place and returns the tag. */
    method Apply(tag: Tag) returns (r: Tag)
      modifies tag
      ensures r == tag
      ensures tag.stem == backend(Preprocess(old(tag.str)))
      ensures tag.str == old(tag.str) && tag.rating == old(tag.rating)
      ensures tag.proper == old(tag.proper) && tag.terminal == old(tag.terminal)
    {
      var s := Preprocess(tag.str);
      tag.stem := backend(s);
      r := tag;
    }

    /** map(self.stemmer, tags): every tag of the list stemmed in turn. */
    method ApplyAll(tags: seq<Tag>) returns (r: seq<Tag>)
      modifies set t | t in tags
      ensures r == tags
      ensures Values(tags) == Stemmed(backend, old(Values(tags)))
    {
      ghost var before := Values(tags);
      r := [];
      for i := 0 to |tags|
        invariant r == tags[..i]
        invariant forall k :: 0 <= k < |tags| ==> tags[k].str == before[k].str
        invariant forall k :: 0 <= k < |tags| ==>
                    tags[k].Value() == (if tags[k] in tags[..i] then Stemmed(backend, before)[k] else before[k])
      {
        var t := Apply(tags[i]);
        r := r + [t];
      }
    }
  }

  /** Each tag with the stem the back end gives for its contraction-free
      string. */
  function Stemmed(backend: String -> String, vs: seq<AtomicTag>): (ws: seq<AtomicTag>)
    ensures |ws| == |vs|
  {
    seq(|vs|, k requires 0 <= k < |vs| => vs[k].(stem := backend(Preprocess(vs[k].str))))
  }
}
