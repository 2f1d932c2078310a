# Keyword tagger, modelled in Dafny

This project models `tagger.py`, a small keyword extractor. It is a pipeline
of three collaborators, with the `Tagger` on top:

- **Reader.** It normalises apostrophes and splits the text into
  paragraphs, phrases and words. It turns every word into a lower-case
  `Tag`, flagged *proper* when capitalised (except the first word of a
  paragraph's first phrase) and *terminal* when it ends its phrase.
- **Stemmer.** It strips contractions and possessives, then asks a stemming
  back end (Porter2 by default) for each tag's stem, in place.
- **Rater.** It does four things in turn:
  - rates every tag by term frequency times the stem's weight;
  - builds the candidate `MultiTag`s, which are runs of consecutive tags
    that never cross a terminal tag and are at most `multitag_size` long;
  - clusters the candidates by stem into logical tags, each represented by
    its most common surface string (a cluster whose candidates are at
    least half proper becomes proper and takes its best proper rating);
  - discards one-character tags and redundant tags, then sorts the rest
    by decreasing rating.
- **Tagger.** It keeps the first `tags_number` tags of the rater's list.

Modules, one per file:

| file | module | contents |
|---|---|---|
| `text.dfy` | `TextRules` | the character classes of the regular expressions; `re.split`, `re.findall`, `str.split()` and `' '.join` over `seq<char>` |
| `tags.dfy` | `TagModel` | `Tag` (a class: the stemmer and the rater update it in place); `MultiTag` (a value); ratings; `combined_rating` |
| `reader.dfy` | `Reading` | `Reader`, its loops proved against the functional `ReadSpec` |
| `stemmer.dfy` | `Stemming` | `Stemmer.preprocess`, and `Stemmer` around a back-end function |
| `rates.dfy` | `Rates` | `rate_tags` as a function of the tag values |
| `candidates.dfy` | `Chains` | `create_multitags` as a function (`Candidates`) and its shape |
| `clusters.dfy` | `Clustering` | the clustering rule, per stem |
| `redundancy.dfy` | `Redundancy` | the redundancy rule and when its division is safe |
| `rater.dfy` | `Raters` | `Rater` and the loops of `Rater.__call__` |
| `tagger.dfy` | `Tagging` | `Tagger.__call__` |

Some modelling choices:

- **Ratings are exact.** A combined rating is `product ** (1.0 / root)`. It
  is kept as the pair `Root(product, root)`. Two ratings `x^(1/p)` and
  `y^(1/q)` with non-negative radicands compare as `x^q` against `y^p`.
  `AtLeast` is that comparison, proved transitive and total. No root is ever
  computed.
- **Logical tags are keyed by stem.** `Tag.__eq__` and `Tag.__hash__` go by
  stem, so every dictionary and set in `Rater.__call__` is keyed by stem
  here. The representative whose fields the source overwrites is the
  first candidate with that stem, since that object is the key the
  dictionaries keep. It becomes the entry `reps[stem]`.
- **ZeroDivisionError is a result, not a precondition.**
  `float(cnt) / term_count[s]` divides by zero when a part of a tag's stem
  is not itself a candidate stem. The model returns `ZeroDivisionError`
  exactly then. `Redundancy.NoDivisionByZero` proves this cannot happen
  when the back end's stems are non-empty and free of whitespace.
  Counting an absent part as 1 would avoid the error. The code does not do
  that, and the model follows the code.
- **The Porter2 back end is a parameter.** It is the function `backend`
  held by `Stemmer`.

## Model

| member | source | states |
|---|---|---|
| TextRules.IsUpper | tagger.py:228-243 | definition of `w[0].isupper()` on one character: the ASCII upper-case letters `A` to `Z` |
| TextRules.IsSpace | tagger.py:376 | definition of the whitespace `str.split()` splits on: space, tab, newline, carriage return, vertical tab and form feed |
| TextRules.NotSpace | tagger.py:376 | definition of the characters `str.split()` keeps inside its words: every character that is not whitespace |
| TextRules.IsAlnum | tagger.py:200 | definition of `\w` without the Unicode flag: the ASCII letters, the digits and `_` |
| TextRules.IsWordChar | tagger.py:200 | definition of the word class `[\w\-\'_/&]`: `\w` together with `-`, `'`, `/` and `&` |
| TextRules.IsParagraphBreak | tagger.py:198 | definition of the paragraph separator class `[\.\?!\t\n\r\f\v]`: `.`, `?`, `!`, tab, newline, carriage return, form feed and vertical tab |
| TextRules.IsPhraseBreak | tagger.py:199 | definition of the phrase separator class: `,`, `;`, `:` and the round, square, curly and angle brackets |
| TextRules.SplitRuns | tagger.py:214-220 | `re.split` on a separator class: there is always at least one piece, and no piece holds a separator |
| TextRules.Gaps | tagger.py:214-220 | the separator runs `re.split` drops: each is non-empty and made only of separators |
| TextRules.SplitRunsRebuild | tagger.py:214-220 | there is one piece more than there are separator runs, and putting the runs back between the pieces gives the string back |
| TextRules.SplitRunsStart | tagger.py:214-220 | the first piece is empty exactly when the string starts with a separator |
| TextRules.SplitRunsEnd | tagger.py:214-220 | the last piece is empty exactly when the string ends with a separator |
| TextRules.InteriorPiecesNonEmpty | tagger.py:214-220 | the separator runs are maximal: every piece strictly between the first and the last is non-empty, so consecutive separators never produce an empty piece |
| TextRules.Runs | tagger.py:224 | definition of `re.findall` over one character class (and of `str.split()`): the maximal runs of class characters, left to right; see `RunsInClass`, `RunsOfPieces` and `SplitJoin` |
| TextRules.Join | tagger.py:151-152 | definition of `' '.join`: the words with one space between each two; `SplitJoin` undoes it |
| TextRules.Lower | tagger.py:226-231 | definition of `str.lower()` on ASCII text: upper-case letters lowered, everything else kept; `Reading.ReadWords` relies on it |
| TextRules.RunsInClass | tagger.py:224 | every word `re.findall` returns is non-empty and made only of word characters |
| TextRules.RunsOfPieces | tagger.py:214-224 | splitting at separators that are not word characters neither loses nor invents a word: the words of the pieces, in order, are the words of the whole |
| TextRules.SplitJoin | tagger.py:376 | `' '.join(ws).split() == ws` when every word is non-empty and has no whitespace |
| TagModel.Tag.constructor | tagger.py:94-115 | a new tag's stem is its string and its rating 1.0, with the given proper and terminal flags |
| TagModel.AtLeast | tagger.py:123-124 | definition of the order `sorted` uses: `a` ranks before `b` when `a.radicand ^ b.index >= b.radicand ^ a.index`; it stands for `a.rating >= b.rating` on the roots (see "Left out") |
| TagModel.AtLeastTransitive | tagger.py:123-124 | the comparison of ratings is transitive |
| TagModel.AtLeastTotal | tagger.py:123-124 | any two valid ratings are comparable, so with `AtLeastTransitive` the comparison is a total preorder that sorting can use |
| TagModel.Max | tagger.py:361 | definition of `max(current, candidate)` on ratings: the current one when it is at least the candidate; `MaxIsUpperBound` states its meaning |
| TagModel.MaxIsUpperBound | tagger.py:361 | `max(current, candidate)` is at least both arguments and is one of them |
| TagModel.Positives | tagger.py:179 | every kept subrating is positive and was a subrating, and every positive subrating is kept |
| TagModel.PositivesExact | tagger.py:179 | each positive subrating is kept as often as it occurs, nothing else is kept, and the list is as long as the number of positive subratings |
| TagModel.FirstStem | tagger.py:112 | definition of the `stem or string` default: a tag's stem, or its string when the stem is empty |
| TagModel.Single | tagger.py:145-149 | definition of `MultiTag(tail)`: the tag's own fields (the string standing in for an empty stem), size 1 and its rating as the only subrating |
| TagModel.Extend | tagger.py:150-159 | definition of `MultiTag(tail, head)`: strings and stems joined by a space, size one more, proper only when both are, terminal as the tail, the tail's rating appended and the combined rating |
| TagModel.CombinedRating | tagger.py:174-185 | definition of `combined_rating`, stated case by case in `CombinedRatingCases` |
| TagModel.Product | tagger.py:174-182 | definition of `reduce(lambda x, y: x * y, xs, 1.0)`: 1.0 for no factor, otherwise the product in order |
| TagModel.ProductZero | tagger.py:174-178 | the product of the subratings is 0.0 exactly when one of them is |
| TagModel.CombinedRatingCases | tagger.py:174-185 | the geometric mean when no unit is zero; 0 for a non-proper tag with a zero unit; a proper noun with a zero unit uses only its positive units, or is 0 when none is positive |
| TagModel.CombinedRatingBounds | tagger.py:174-185 | with units in [0, 1], the combined rating is valid and at most 1; it is positive exactly when all units are (common phrase) or some unit is (proper noun) |
| Reading.Preprocess | tagger.py:258 | backticks and right quotation marks become apostrophes; every other character is kept; the length is kept |
| Reading.WordTag | tagger.py:225-243 | definition of `Tag(w.lower(), proper=…, terminal=…)`: string and stem both the lower-cased word, rating 1.0, and the given proper and terminal flags |
| Reading.PhraseTags | tagger.py:224-244 | definition of one phrase's tags: one per word, lower-cased, proper when capitalised except the first word of a paragraph's first phrase, terminal for the last word |
| Reading.ParagraphTags | tagger.py:218-244 | definition of one paragraph's tags: its phrases' tags in order, the first phrase read as a first phrase |
| Reading.ReadSpec | tagger.py:211-246 | definition of the whole result as values: the paragraphs of the preprocessed text, their tags in order |
| Reading.Reader.Read | tagger.py:202-246 | the tags returned are new, distinct objects whose values are `ReadSpec(text)` paragraph by paragraph |
| Reading.Reader.ReadParagraph | tagger.py:218-244 | one paragraph's tags: its first phrase, then the following phrases, in order |
| Reading.Reader.ReadFirstPhrase | tagger.py:222-233 | the first phrase's tags: one terminal non-proper tag for a single word, nothing for no word |
| Reading.Reader.ReadLongFirst | tagger.py:225-231 | a first phrase of several words: the first word not proper, the middle words proper when capitalised, the last terminal |
| Reading.Reader.ReadMiddle | tagger.py:227-228 | the non-final words of a phrase, each lower-cased, proper when capitalised, not terminal |
| Reading.Reader.ReadLast | tagger.py:229-231 | the last word of a phrase is appended terminal, and the earlier tags are kept as they are |
| Reading.Reader.ReadPhrase | tagger.py:236-244 | a following phrase: every word may be proper, and the last one is terminal |
| Reading.ReadWords | tagger.py:218-244 | the tags' strings are exactly the words of the preprocessed text, lower-cased and in text order |
| Reading.LastTagTerminal | tagger.py:229-244 | the last tag of a non-empty result is terminal |
| Reading.ParagraphFirstNotProper | tagger.py:225-233 | when a paragraph's first phrase has a word, the paragraph's first tag is not proper, whatever its capitalisation |
| Reading.LeadingBreakKeepsProper | tagger.py:236-244 | the rule is about the first phrase: in `(Ab` the first phrase is empty and `Ab`, read in the second phrase, gives a proper tag |
| Stemming.ContractionAt | tagger.py:271 | definition of where `match_contractions` matches at the start of a string: a non-empty run of `\w` characters followed by an apostrophe, whatever suffix follows (group 1 is the run) |
| Stemming.Preprocess | tagger.py:311-313 | the result is a prefix of the input; it is shorter exactly when a run of word characters opens the string and an apostrophe follows it, and then it is that run |
| Stemming.PreprocessIdempotent | tagger.py:311-313 | stripping a contraction twice strips nothing more |
| Stemming.Stemmed | tagger.py:297-299 | definition of the stemmed tags as values: each stem the back end's stem of the contraction-free string, everything else kept, the same number of tags |
| Stemming.Stemmer.constructor | tagger.py:283-286 | the stemmer keeps the back end it is given |
| Stemming.Stemmer.Apply | tagger.py:297-299 | the tag's stem becomes the back end's stem of its contraction-free string, nothing else changes, and the same tag is returned |
| Stemming.Stemmer.ApplyAll | tagger.py:461 | every tag of the list is stemmed in place, and the list itself is returned |
| Rates.Weight | tagger.py:401 | definition of `weights.get(stem, 1.0)` |
| Rates.Share | tagger.py:400-401 | definition of `float(count) / total * weight` |
| Rates.Occurrences | tagger.py:396 | definition of `Counter(tags)[stem]`: the number of tags with that stem |
| Rates.UnitRating | tagger.py:398-401 | definition of one tag's new rating: its stem's occurrences over the number of tags, times the stem's weight |
| Rates.Rated | tagger.py:396-401 | definition of the rated tags as values: as many as before, each rated by its stem's share and weight |
| Rates.RatedBounds | tagger.py:396-401 | with weights in [0, 1], ratings lie in [0, 1]; a rating is 0 exactly when the stem's weight is; equal stems get equal ratings; only the rating changes |
| Raters.CountStems | tagger.py:396 | `Counter(tags)`: exactly the stems present, each with its number of occurrences |
| Raters.Rater.RateTags | tagger.py:389-401 | every tag's rating becomes count(stem) / len(tags) times its weight (default 1.0), in place |
| Raters.Rater.RateEach | tagger.py:398-401 | the loop sets each tag's rating to its unit rating and changes no other field |
| Chains.Cap | tagger.py:417 | definition of how many tags a chain may hold: `multitag_size`, and 1 when `xrange(1, multitag_size)` is empty |
| Chains.IsRunPos | tagger.py:414-421 | definition of when the loop emits the k tags from position i: k is between 1 and the cap, the run ends inside the list, and no tag but its last is terminal (the `break` at line 418 stops at a terminal tag or the end of the list) |
| Chains.Run | tagger.py:415-421 | definition of the multitag of k tags from position i: `MultiTag(tags[i])` extended k - 1 times; `RunShape` states its fields |
| Chains.RunsFrom | tagger.py:414-422 | the runs from one position, as many as the chain from there is long |
| Chains.Candidates | tagger.py:403-424 | definition of the list `create_multitags` returns, the runs from every position in turn; `SpansComplete` and `SpansOrdered` state which runs and in what order |
| Chains.RunShape | tagger.py:145-159 | a multitag's string and stem are its tags' joined by single spaces; its size and subratings match its tags; it is proper exactly when all its tags are; it is terminal when its last tag is; a longer run has the combined rating of its units |
| Chains.SpansComplete | tagger.py:414-422 | a (start, length) is emitted exactly when the run fits the cap and the list and has no terminal tag before its last |
| Chains.SpansOrdered | tagger.py:414-422 | runs are emitted by start position and then by length, so each run is emitted once |
| Chains.SingleAtEveryPosition | tagger.py:414-416 | every position contributes its one-tag run |
| Chains.SubRunIsRun | tagger.py:417-421 | every contiguous part of an emitted run is itself an emitted run |
| Chains.CandidateRatingsValid | tagger.py:174-185 | with unit ratings in [0, 1], every candidate's rating is valid and at most 1, so any two are comparable |
| Raters.Rater.CreateMultitags | tagger.py:403-424 | the list built is `Candidates`, the runs at the emitted positions in emission order |
| Raters.Rater.ChainFrom | tagger.py:415-422 | the runs from one position, shortest first, stopping at the cap, the end of the list or a terminal tag |
| Clustering.Count | tagger.py:363 | definition of `term_count[t]`: the number of candidates with the stem of `t` |
| Clustering.SurfaceCount | tagger.py:357-358 | definition of `clusters[t][string]`: the candidates with that stem and that surface string |
| Clustering.ProperCount | tagger.py:359-360 | definition of `proper[t]`: the proper candidates with that stem |
| Clustering.MaxProperRating | tagger.py:359-361 | definition of `ratings[t]`: `max` over the proper candidates' ratings, from 0.0 |
| Clustering.First | tagger.py:363-365 | definition of the key object a stem has in the Counter: its first candidate |
| Clustering.Clustered | tagger.py:352-370 | definition of the state after clustering: each stem of the candidates has its count and a representative with a most common string |
| Clustering.MostCommon | tagger.py:366 | definition of a most common surface string of a stem: it occurs, and no other string occurs more often |
| Clustering.MostlyProper | tagger.py:367-368 | definition of `proper_freq >= 0.5`: at least half of a stem's candidates are proper, written `2 * proper >= count` without the division |
| Clustering.Representative | tagger.py:365-370 | definition of a stem's representative once its string is chosen; `RepresentativeRule` states its fields |
| Clustering.CountPositive | tagger.py:363 | a stem has a positive count exactly when some candidate carries it |
| Clustering.FirstSurfaceOccurs | tagger.py:358 | the first candidate's string is counted in its stem's cluster, so `most_common(1)` never fails |
| Clustering.MaxProperRatingIsMax | tagger.py:359-361 | `ratings[t]` ends at least every proper occurrence's rating, and is 0.0 or one of them |
| Clustering.RepresentativeRule | tagger.py:365-370 | the representative takes the chosen string; when proper occurrences are at least half, it is proper and at least every proper occurrence's rating; otherwise it keeps the first candidate's proper flag and rating |
| Clustering.RepresentativesValid | tagger.py:365-370 | every representative carries its stem and a valid rating |
| Raters.RatingOf | tagger.py:355 | definition of a lookup in `ratings = defaultdict(float)`: the stored rating, and 0.0 for a stem that has none |
| Raters.GatherClusters | tagger.py:353-361 | after the loop, `clusters`, `proper` and `ratings` hold each stem's string counts, proper count and best proper rating |
| Raters.CountCandidates | tagger.py:363 | `Counter(multitags)`: each stem's count, and the first candidate as its key |
| Raters.MostCommonString | tagger.py:366 | `most_common(1)[0][0]`: a string of highest count |
| Raters.PickRepresentatives | tagger.py:365-370 | one representative per stem, with a most common string, following the clustering rule |
| Raters.Cluster | tagger.py:352-370 | counts and representatives for exactly the candidates' stems (`Clustered`) |
| Redundancy.KeyWords | tagger.py:376 | definition of `t.stem.split()` |
| Redundancy.IsSubRun | tagger.py:377-378 | definition of the `(l, i)` pairs the two loops visit: `1 <= l < len(words)` and `i + l <= len(words)` |
| Redundancy.SubKey | tagger.py:379 | definition of `' '.join(words[i:i + l])` |
| Redundancy.Get | tagger.py:380 | definition of `term_count[s]`: 0 for a missing key, as a Counter answers |
| Redundancy.ZeroAt | tagger.py:377-380 | definition of a tag with a part whose count is 0, where `float(cnt) / term_count[s]` raises `ZeroDivisionError` |
| Redundancy.DivisionByZero | tagger.py:375-380 | definition of the error condition of the purge: some tag has such a part |
| Redundancy.Unique | tagger.py:373 | definition of `unique_tags` before the purge: the tags whose string is longer than one character |
| Redundancy.KeepsLonger | tagger.py:381-382 | definition of the test that keeps the longer tag, with `relative_freq` as the ratio of two counts |
| Redundancy.Loser | tagger.py:381-385 | definition of the stem one comparison discards: the part `s` when `KeepsLonger` holds, the tag `t` itself otherwise |
| Redundancy.LostTo | tagger.py:377-385 | definition of "some comparison of tag `s` with one of its parts `(l, i)` discards `x`" |
| Redundancy.Discarded | tagger.py:379-385 | definition of a stem that some comparison discards |
| Redundancy.Survivors | tagger.py:373-385 | definition of `unique_tags` after the purge: the tags longer than one character that no comparison discards |
| Redundancy.DiscardRule | tagger.py:380-385 | for a tag and one of its parts: the part is dropped when the tag is as frequent and proper, or at least half as frequent and rated above 0; otherwise the tag is dropped |
| Redundancy.RunWords | tagger.py:376 | with plain stems, `t.stem.split()` gives back the stems of the run's tags |
| Redundancy.SubKeyIsRun | tagger.py:379 | the joined part of a run's stems is the stem of the run at the part's position |
| Redundancy.SubRunStem | tagger.py:376-379 | with plain stems, every part of a candidate's stem words, joined, is the stem of some candidate |
| Redundancy.NoDivisionByZero | tagger.py:380 | with non-empty, whitespace-free stems, every part looked up has a positive count, so no ZeroDivisionError |
| Raters.PurgeParts | tagger.py:376-385 | one tag's comparisons: an error exactly when a part has no count; otherwise exactly what the tag's comparisons discard is removed |
| Raters.RemoveRedundant | tagger.py:373-385 | an error exactly when some part has no count; otherwise the tags longer than one character that no comparison discards |
| Raters.Ranked | tagger.py:387 | definition of what `sorted(unique_tags)` returns: every kept tag once, higher ratings first under `AtLeast` |
| Raters.PickBest | tagger.py:387 | a remaining tag rated at least as high as every other |
| Raters.SortByRating | tagger.py:387 | every kept tag once, by decreasing rating (`Ranked`) |
| Raters.Rank | tagger.py:352-387 | clustering, purge and sort: the clustered counts, the error case, and the ranked survivors |
| Raters.Rater.constructor | tagger.py:325-338 | the rater keeps its weights and multitag size |
| Raters.Rater.Call | tagger.py:340-387 | the tags are rated in place; the result is an error exactly when a division by zero occurs, and otherwise the surviving logical tags ranked by rating |
| Tagging.Take | tagger.py:464 | `tags[:n]` with Python slice semantics, including negative `n` |
| Tagging.TakeBest | tagger.py:464 | every kept tag is rated at least as high as every dropped one; no stem repeats; every kept stem survived the purge |
| Tagging.Tagger.constructor | tagger.py:435-448 | the tagger keeps its reader, stemmer and rater |
| Tagging.Tagger.Call | tagger.py:450-464 | the reader's tags, stemmed, rated and ranked, cut to `tags_number`; an error exactly when the purge divides by zero, never when the stems are plain words |

## Left out

- The Porter2 back end (`stemming.porter2`) is not part of this model. `Stemmer` takes it as a function from words to stems.
- Floating point is not modelled. Ratings are exact reals, and a combined rating is the exact root `Root(product, size)`. Rounding, underflow of long products and the float comparison `relative_freq == 1.0` are not captured. That comparison is stated as `cnt == term_count[s]`, and `>= 0.5` as `2 * cnt >= term_count[s]`.
- `Raters.Rater.Call` and `Tagging.Tagger.Call` require weights in [0, 1], as the rater's documentation demands. Outside that range, ratings could be negative, and the comparison of ratings through powers would then not be an order.
- Text is a sequence of characters. `\w` is ASCII `[A-Za-z0-9_]`, `isupper` is ASCII upper case, and the right quotation mark `’` is one character. The source matches it as its three-byte UTF-8 encoding in a byte string, with the same effect.
- TagModel.AtLeast: that comparing `Pow(a.radicand, b.index)` with `Pow(b.radicand, a.index)` orders two ratings as the real roots they denote is argued from the monotonicity of powers, not proved; the model proves only that the comparison is a total preorder.
- Raters.MostCommonString: `Counter.most_common(1)` breaks ties in an unspecified order. The model picks any string of highest count.
- Raters.RemoveRedundant: the loop over `term_count` runs in dictionary order, which is unspecified. The model runs it in any order. The surviving set does not depend on the order, and which division fails first is not modelled.
- Raters.SortByRating: `sorted` is stable over a set's iteration order. The model states only that ratings do not increase along the list, so tags of equal rating may come in any order.
- `MultiTag` is a value, not an object. The in-place update of a representative's `string`, `proper` and `rating` is a new value stored under its stem. The candidate list in the model is therefore not updated.
- `Tagging.Tagger` is built from the concrete `Reader`, `Stemmer` and `Rater` of this model, not from arbitrary callables with the same interface.
- An absent part is not counted as 1. The code divides by `term_count[s]` and raises `ZeroDivisionError`, and the model follows the code (see `Redundancy.NoDivisionByZero`). A back end that returns an empty stem can cause this error.
- Reading: a tag being terminal exactly when it ends its phrase is the definition of `PhraseTags`. It is stated as a lemma only for the last tag of the document (`Reading.LastTagTerminal`).
- The `__main__` script, `build_dict.py`, `extras.py` and `test_ui.py` are not part of this model. They hold file and pickle I/O, the weight table's logarithms, stubs and a GUI.
