/** Reader: splits a document into paragraphs, phrases and words, and turns
    each word into a lower-case Tag with its proper and terminal flags. */
module Reading {
  import opened TextRules
  import opened TagModel

  /** Reader.preprocess: the backtick and the right single quotation mark
      become a plain apostrophe. */
  function Preprocess(text: String): (r: String)
    ensures |r| == |text|
    // no backtick or right quotation mark is left ...
    ensures forall i :: 0 <= i < |r| ==> r[i] != '`' && r[i] != '’'
    // ... each one became an apostrophe, and every other character is kept
    ensures forall i :: 0 <= i < |text| ==> (text[i] == '`' || text[i] == '’') ==> r[i] == '\''
    ensures forall i :: 0 <= i < |text| ==> text[i] != '`' && text[i] != '’' ==> r[i] == text[i]
  {
    seq(|text|, i requires 0 <= i < |text| =>
      if text[i] == '`' || text[i] == '’' then '\'' else text[i])
  }

  /** The tag of one word: lower-cased, with no stem of its own yet. */
  function WordTag(word: String, proper: bool, terminal: bool): AtomicTag {
    AtomicTag(Lower(word), Lower(word), 1.0, proper, terminal)
  }

  /** The tags of one phrase's words. A word is proper when it starts with an
      upper-case letter, except the first word of the first phrase of a
      paragraph; the last word of a phrase is terminal. */
  function PhraseTags(words: seq<String>, first: bool): (ts: seq<AtomicTag>)
    ensures |ts| == |words|
  {
    seq(|words|, j requires 0 <= j < |words| =>
      WordTag(words[j], !(first && j == 0) && |words[j]| > 0 && IsUpper(words[j][0]), j == |words| - 1))
  }

  /** The words of the k-th phrase of a paragraph. */
  function PhraseWords(phrases: seq<String>, k: nat): seq<String>
    requires k < |phrases|
  {
    Runs(IsWordChar, phrases[k])
  }

  /** The tags of the first q phrases of a paragraph. */
  function PhrasesTags(phrases: seq<String>, q: nat): seq<AtomicTag>
    requires q <= |phrases|
  {
    if q == 0 then [] else PhrasesTags(phrases, q - 1) + PhraseTags(PhraseWords(phrases, q - 1), q == 1)
  }

  function ParagraphTags(par: String): seq<AtomicTag> {
    var phrases := SplitRuns(IsPhraseBreak, par);
    PhrasesTags(phrases, |phrases|)
  }

  /** The tags of the first p paragraphs of a document. */
  function ParagraphsTags(pars: seq<String>, p: nat): seq<AtomicTag>
    requires p <= |pars|
  {
    if p == 0 then [] else ParagraphsTags(pars, p - 1) + ParagraphTags(pars[p - 1])
  }

  /** What Reader.__call__ returns for a text, as values. */
  function ReadSpec(text: String): seq<AtomicTag> {
    var pars := SplitRuns(IsParagraphBreak, Preprocess(text));
    ParagraphsTags(pars, |pars|)
  }

  function Strings(ts: seq<AtomicTag>): (ss: seq<String>)
    ensures |ss| == |ts|
    ensures forall i :: 0 <= i < |ts| ==> ss[i] == ts[i].str
  {
    seq(|ts|, i requires 0 <= i < |ts| => ts[i].str)
  }

  function Lowers(ws: seq<String>): (ls: seq<String>)
    ensures |ls| == |ws|
    ensures forall i :: 0 <= i < |ws| ==> ls[i] == Lower(ws[i])
  {
    seq(|ws|, i requires 0 <= i < |ws| => Lower(ws[i]))
  }

  /** No tag object appears twice in the list. */
  predicate Distinct(tags: seq<Tag>) {
    forall i, j :: 0 <= i < j < |tags| ==> tags[i] != tags[j]
  }

  /** Every tag of the list was allocated by the current method. */
  twostate predicate AllNew(new tags: seq<Tag>) {
    forall i :: 0 <= i < |tags| ==> fresh(tags[i])
  }

  /** Reader: stateless apart from its fixed patterns. */
  class Reader {
    constructor ()
    {
    }

    /** The words before the last one of a phrase with several words,
        skipping the first word of a paragraph's first phrase: `words[1:-1]`
        or `words[:-1]`. Each may be proper and none is terminal. */
    static method ReadMiddle(words: seq<String>, first: bool) returns (tags: seq<Tag>)
      requires |words| > 1 && forall j :: 0 <= j < |words| ==> |words[j]| > 0
      ensures Values(tags) == PhraseTags(words, first)[(if first then 1 else 0)..|words| - 1]
      ensures AllNew(tags) && Distinct(tags)
    {
      ghost var spec := PhraseTags(words, first);
      var from := if first then 1 else 0;
      tags := [];
      for j := from to |words| - 1
        invariant Values(tags) == spec[from..j]
        invariant AllNew(tags) && Distinct(tags)
      {
        label before:
        var t := new Tag(Lower(words[j]), IsUpper(words[j][0]), false);
        Append@before(tags, [t]);
        assert spec[from..j + 1] == spec[from..j] + [spec[j]];
        tags := tags + [t];
      }
    }

    /** The words of the first phrase of a paragraph: the first word is never
        proper, the last one is terminal. */
    static method ReadFirstPhrase(words: seq<String>) returns (tags: seq<Tag>)
      requires forall j :: 0 <= j < |words| ==> |words[j]| > 0
      ensures Values(tags) == PhraseTags(words, true)
      ensures AllNew(tags) && Distinct(tags)
    {
      if |words| > 1 {
        tags := ReadLongFirst(words);
      } else if |words| == 1 {
        var t := new Tag(Lower(words[0]), false, true);
        tags := [t];
        assert [PhraseTags(words, true)[0]] == PhraseTags(words, true);
      } else {
        tags := [];
      }
    }

    /** A first phrase of several words: the first is neither proper nor
        terminal. */
    static method ReadLongFirst(words: seq<String>) returns (tags: seq<Tag>)
      requires |words| > 1 && forall j :: 0 <= j < |words| ==> |words[j]| > 0
      ensures Values(tags) == PhraseTags(words, true)
      ensures AllNew(tags) && Distinct(tags)
    {
      ghost var spec := PhraseTags(words, true);
      var t := new Tag(Lower(words[0]), false, false);
      label before:
      var middle := ReadMiddle(words, true);
      Append@before([t], middle);
      assert spec[..1] + spec[1..|words| - 1] == spec[..|words| - 1];
      tags := [t] + middle;
      assert AllNew(tags) by {
        assert forall i :: 1 <= i < |tags| ==> tags[i] == middle[i - 1];
      }
      ghost var init := tags;
      tags := ReadLast(tags, words, true);
      assert forall i :: 0 <= i < |init| ==> fresh(tags[i]);
    }

    /** The words of a following phrase: all may be proper, the last one is
        terminal. */
    static method ReadPhrase(words: seq<String>) returns (tags: seq<Tag>)
      requires forall j :: 0 <= j < |words| ==> |words[j]| > 0
      ensures Values(tags) == PhraseTags(words, false)
      ensures AllNew(tags) && Distinct(tags)
    {
      tags := [];
      if |words| > 1 {
        tags := ReadMiddle(words, false);
      }
      if |words| > 0 {
        tags := ReadLast(tags, words, false);
      }
    }

    /** Appends the tag of the last word of a phrase, which is terminal, to
        the tags of the words before it. */
    static method ReadLast(tags: seq<Tag>, words: seq<String>, first: bool) returns (tags': seq<Tag>)
      requires |words| > 0 && |words[|words| - 1]| > 0
      requires first ==> |words| > 1
      requires Values(tags) == PhraseTags(words, first)[..|words| - 1] && Distinct(tags)
      ensures Values(tags') == PhraseTags(words, first) && Distinct(tags')
      ensures |tags'| == |tags| + 1 && fresh(tags'[|tags|])
      ensures forall i :: 0 <= i < |tags| ==> tags'[i] == tags[i]
    {
      ghost var spec := PhraseTags(words, first);
      var last := words[|words| - 1];
      label before:
      var t := new Tag(Lower(last), IsUpper(last[0]), true);
      Append@before(tags, [t]);
      assert spec[..|words| - 1] + [spec[|words| - 1]] == spec;
      tags' := tags + [t];
    }

    /** The tags of one paragraph, phrase by phrase. */
    static method ReadParagraph(par: String) returns (tags: seq<Tag>)
      ensures Values(tags) == ParagraphTags(par)
      ensures AllNew(tags) && Distinct(tags)
    {
      var phrases := SplitRuns(IsPhraseBreak, par);
      // first phrase of a paragraph
      var words := Runs(IsWordChar, phrases[0]);
      RunsInClass(IsWordChar, phrases[0]);
      tags := ReadFirstPhrase(words);
      assert PhrasesTags(phrases, 1) == PhraseTags(words, true);
      // following phrases
      for q := 1 to |phrases|
        invariant Values(tags) == PhrasesTags(phrases, q)
        invariant AllNew(tags) && Distinct(tags)
      {
        words := Runs(IsWordChar, phrases[q]);
        RunsInClass(IsWordChar, phrases[q]);
        label before:
        var more := ReadPhrase(words);
        Append@before(tags, more);
        assert PhrasesTags(phrases, q + 1) == PhrasesTags(phrases, q) + PhraseTags(words, false);
        tags := tags + more;
      }
    }

    /** Appending new tags to a list keeps its values in order and its tags
        distinct. */
    static twostate lemma Append(tags: seq<Tag>, new more: seq<Tag>)
      requires Distinct(tags) && Distinct(more) && AllNew(more)
      requires unchanged(set t | t in tags)
      ensures Values(tags + more) == old(Values(tags)) + Values(more)
      ensures Distinct(tags + more)
    {
      assert forall i :: 0 <= i < |more| ==> (tags + more)[|tags| + i] == more[i];
    }

    /** Reader.__call__ */
    method Read(text: String) returns (tags: seq<Tag>)
      ensures Values(tags) == ReadSpec(text)
      ensures AllNew(tags) && Distinct(tags)
    {
      var normalized := Preprocess(text);
      var paragraphs := SplitRuns(IsParagraphBreak, normalized);
      tags := [];
      for p := 0 to |paragraphs|
        invariant Values(tags) == ParagraphsTags(paragraphs, p)
        invariant AllNew(tags) && Distinct(tags)
      {
        label before:
        var more := ReadParagraph(paragraphs[p]);
        Append@before(tags, more);
        tags := tags + more;
      }
    }
  }

  lemma LowersAppend(a: seq<String>, b: seq<String>)
    ensures Lowers(a + b) == Lowers(a) + Lowers(b)
  {
  }

  lemma StringsAppend(a: seq<AtomicTag>, b: seq<AtomicTag>)
    ensures Strings(a + b) == Strings(a) + Strings(b)
  {
  }

  lemma PhraseStrings(words: seq<String>, first: bool)
    ensures Strings(PhraseTags(words, first)) == Lowers(words)
  {
  }

  lemma {:induction false} PhrasesStrings(phrases: seq<String>, q: nat)
    requires q <= |phrases|
    ensures Strings(PhrasesTags(phrases, q)) == Lowers(Concat(RunsOfEach(IsWordChar, phrases[..q])))
  {
    if q > 0 {
      PhrasesStrings(phrases, q - 1);
      var each := RunsOfEach(IsWordChar, phrases[..q]);
      assert each[..q - 1] == RunsOfEach(IsWordChar, phrases[..q - 1]);
      assert Concat(each) == Concat(each[..q - 1]) + each[q - 1];
      StringsAppend(PhrasesTags(phrases, q - 1), PhraseTags(PhraseWords(phrases, q - 1), q == 1));
      PhraseStrings(PhraseWords(phrases, q - 1), q == 1);
      LowersAppend(Concat(each[..q - 1]), each[q - 1]);
    }
  }

  lemma ParagraphStrings(par: String)
    ensures Strings(ParagraphTags(par)) == Lowers(Runs(IsWordChar, par))
  {
    var phrases := SplitRuns(IsPhraseBreak, par);
    calc {
      Strings(ParagraphTags(par));
      { PhrasesStrings(phrases, |phrases|); }
      Lowers(Concat(RunsOfEach(IsWordChar, phrases[..|phrases|])));
      { assert phrases[..|phrases|] == phrases; }
      Lowers(Concat(RunsOfEach(IsWordChar, phrases)));
      { RunsOfPieces(IsWordChar, IsPhraseBreak, par); }
      Lowers(Runs(IsWordChar, par));
    }
  }

  lemma {:induction false} ParagraphsStrings(pars: seq<String>, p: nat)
    requires p <= |pars|
    ensures Strings(ParagraphsTags(pars, p)) == Lowers(Concat(RunsOfEach(IsWordChar, pars[..p])))
  {
    if p > 0 {
      ParagraphsStrings(pars, p - 1);
      var each := RunsOfEach(IsWordChar, pars[..p]);
      assert each[..p - 1] == RunsOfEach(IsWordChar, pars[..p - 1]);
      assert Concat(each) == Concat(each[..p - 1]) + each[p - 1];
      StringsAppend(ParagraphsTags(pars, p - 1), ParagraphTags(pars[p - 1]));
      ParagraphStrings(pars[p - 1]);
      LowersAppend(Concat(each[..p - 1]), each[p - 1]);
    }
  }

  lemma AllParagraphsStrings(pars: seq<String>)
    ensures Strings(ParagraphsTags(pars, |pars|)) == Lowers(Concat(RunsOfEach(IsWordChar, pars)))
  {
    ParagraphsStrings(pars, |pars|);
    assert pars[..|pars|] == pars;
  }

  /** Paragraph breaks are not word characters, so splitting at them keeps
      every word whole. */
  lemma ParagraphWords(s: String)
    ensures Concat(RunsOfEach(IsWordChar, SplitRuns(IsParagraphBreak, s))) == Runs(IsWordChar, s)
  {
    RunsOfPieces(IsWordChar, IsParagraphBreak, s);
  }

  lemma DocumentStrings(s: String)
    ensures Strings(ParagraphsTags(SplitRuns(IsParagraphBreak, s), |SplitRuns(IsParagraphBreak, s)|))
            == Lowers(Runs(IsWordChar, s))
  {
    AllParagraphsStrings(SplitRuns(IsParagraphBreak, s));
    ParagraphWords(s);
  }

  /** The reader's tags are the document's words, in text order, lower-cased:
      every character that is not a word character separates words, so the
      paragraph and phrase boundaries neither lose nor invent any word. */
  lemma ReadWords(text: String)
    ensures Strings(ReadSpec(text)) == Lowers(Runs(IsWordChar, Preprocess(text)))
  {
    DocumentStrings(Preprocess(text));
  }

  /** The last tag of the list, if any, is terminal. */
  predicate EndsTerminal(ts: seq<AtomicTag>) {
    |ts| > 0 ==> ts[|ts| - 1].terminal
  }

  lemma EndsTerminalAppend(a: seq<AtomicTag>, b: seq<AtomicTag>)
    requires EndsTerminal(a) && EndsTerminal(b)
    ensures EndsTerminal(a + b)
  {
    if |b| > 0 {
      assert (a + b)[|a + b| - 1] == b[|b| - 1];
    } else {
      assert a + b == a;
    }
  }

  lemma PhraseEndsTerminal(words: seq<String>, first: bool)
    ensures EndsTerminal(PhraseTags(words, first))
  {
  }

  lemma {:induction false} PhrasesLastTerminal(phrases: seq<String>, q: nat)
    requires q <= |phrases|
    ensures EndsTerminal(PhrasesTags(phrases, q))
  {
    if q > 0 {
      PhrasesLastTerminal(phrases, q - 1);
      PhraseEndsTerminal(PhraseWords(phrases, q - 1), q == 1);
      EndsTerminalAppend(PhrasesTags(phrases, q - 1), PhraseTags(PhraseWords(phrases, q - 1), q == 1));
    }
  }

  lemma ParagraphLastTerminal(par: String)
    ensures EndsTerminal(ParagraphTags(par))
  {
    var phrases := SplitRuns(IsPhraseBreak, par);
    PhrasesLastTerminal(phrases, |phrases|);
  }

  lemma {:induction false} ParagraphsLastTerminal(pars: seq<String>, p: nat)
    requires p <= |pars|
    ensures EndsTerminal(ParagraphsTags(pars, p))
  {
    if p > 0 {
      ParagraphsLastTerminal(pars, p - 1);
      ParagraphLastTerminal(pars[p - 1]);
      EndsTerminalAppend(ParagraphsTags(pars, p - 1), ParagraphTags(pars[p - 1]));
    }
  }

  /** The last word of a document ends its phrase, so it is terminal. */
  lemma LastTagTerminal(text: String)
    ensures |ReadSpec(text)| > 0 ==> ReadSpec(text)[|ReadSpec(text)| - 1].terminal
  {
    var pars := SplitRuns(IsParagraphBreak, Preprocess(text));
    ParagraphsLastTerminal(pars, |pars|);
  }

  /** When a paragraph's first phrase has words, the paragraph's first tag is
      not proper, whatever its capitalisation. */
  lemma ParagraphFirstNotProper(par: String)
    requires |PhraseWords(SplitRuns(IsPhraseBreak, par), 0)| > 0
    ensures |ParagraphTags(par)| > 0 && !ParagraphTags(par)[0].proper
  {
    var phrases := SplitRuns(IsPhraseBreak, par);
    PrefixOfPhrases(phrases, |phrases|);
    var words := PhraseWords(phrases, 0);
    assert ParagraphTags(par)[0] == PhraseTags(words, true)[0];
  }

  /** The rule is about the first phrase, not the first word: a paragraph
      that opens with a phrase break has an empty first phrase, and its first
      word, read in the second phrase, keeps its capitalisation. */
  lemma LeadingBreakKeepsProper(par: String)
    requires par == "(Ab"
    ensures |ParagraphTags(par)| == 1 && ParagraphTags(par)[0].proper
  {
    var phrases := SplitRuns(IsPhraseBreak, par);
    LeadingBreakPhrases(par);
    LeadingBreakWords(phrases);
    assert PhrasesTags(phrases, 1) == [];
    assert ParagraphTags(par) == PhraseTags(["Ab"], false);
  }

  lemma LeadingBreakPhrases(par: String)
    requires par == "(Ab"
    ensures SplitRuns(IsPhraseBreak, par) == ["", "Ab"]
  {
    assert par == ['('] + "Ab";
    SplitRunsLeading(IsPhraseBreak, '(', "Ab");
  }

  lemma LeadingBreakWords(phrases: seq<String>)
    requires phrases == ["", "Ab"]
    ensures PhraseWords(phrases, 0) == [] && PhraseWords(phrases, 1) == ["Ab"]
  {
    RunsWhole(IsWordChar, "Ab");
  }

  lemma {:induction false} PrefixOfPhrases(phrases: seq<String>, q: nat)
    requires 1 <= q <= |phrases|
    ensures |PhraseWords(phrases, 0)| <= |PhrasesTags(phrases, q)|
    ensures PhrasesTags(phrases, q)[..|PhraseWords(phrases, 0)|] == PhraseTags(PhraseWords(phrases, 0), true)
  {
    if q == 1 {
      assert PhrasesTags(phrases, 1) == PhraseTags(PhraseWords(phrases, 0), true);
    } else {
      PrefixOfPhrases(phrases, q - 1);
      var init := PhrasesTags(phrases, q - 1);
      var n := |PhraseWords(phrases, 0)|;
      var next := PhraseTags(PhraseWords(phrases, q - 1), false);
      assert PhrasesTags(phrases, q) == init + next;
      assert (init + next)[..n] == init[..n];
    }
  }
}
