/** Character classes and the handful of regular-expression and string
    operations the tagger relies on (re.split and re.findall over a single
    character class, str.split() with no argument, ' '.join), written as
    functions over sequences of characters. */
module TextRules {

  type String = seq<char>

  /** str.isupper() on a single ASCII character. */
  predicate IsUpper(c: char) {
    'A' <= c <= 'Z'
  }

  /** The characters str.split() treats as whitespace. */
  predicate IsSpace(c: char) {
    c == ' ' || c == '\t' || c == '\n' || c == '\r' || c == '\U{000B}' || c == '\U{000C}'
  }

  predicate IsAlnum(c: char) {
    ('a' <= c <= 'z') || IsUpper(c) || ('0' <= c <= '9') || c == '_'
  }

  predicate IsWordChar(c: char) {
    IsAlnum(c) || c == '-' || c == '\'' || c == '/' || c == '&'
  }

  predicate IsParagraphBreak(c: char) {
    c == '.' || c == '?' || c == '!' || c == '\t' || c == '\n' || c == '\r' || c == '\U{000C}' || c == '\U{000B}'
  }

  predicate IsPhraseBreak(c: char) {
    c == ',' || c == ';' || c == ':' || c == '(' || c == ')' || c == '[' || c == ']'
    || c == '{' || c == '}' || c == '<' || c == '>'
  }

  /** What str.split() keeps: anything but whitespace. */
  predicate NotSpace(c: char) {
    !IsSpace(c)
  }

  /** str.lower() on one ASCII character. */
  function ToLower(c: char): char {
    if IsUpper(c) then (c as int + 32) as char else c
  }

  /** str.lower() */
  function Lower(s: String): String {
    seq(|s|, i requires 0 <= i < |s| => ToLower(s[i]))
  }

  /** The concatenation of a sequence of sequences, in order. */
  function Concat<T>(xss: seq<seq<T>>): seq<T> {
    if xss == [] then [] else Concat(xss[..|xss| - 1]) + xss[|xss| - 1]
  }

  lemma {:induction false} ConcatCons<T>(xs: seq<T>, xss: seq<seq<T>>)
    ensures Concat([xs] + xss) == xs + Concat(xss)
    decreases |xss|
  {
    if xss != [] {
      var init := xss[..|xss| - 1];
      assert ([xs] + xss)[..|xss|] == [xs] + init;
      ConcatCons(xs, init);
    }
  }

  /** Length of the longest prefix of `s` whose characters satisfy `p` (when
      `inside`) or fail it (when not). */
  function Span(p: char -> bool, s: String, inside: bool): (n: nat)
    ensures n <= |s|
    ensures forall i :: 0 <= i < n ==> p(s[i]) == inside
    ensures n < |s| ==> p(s[n]) != inside
  {
    if s == [] || p(s[0]) != inside then 0 else 1 + Span(p, s[1..], inside)
  }

  /** The maximal non-empty runs of characters satisfying `p`, left to right:
      re.findall('[C]+', s) for a character class C, and str.split() for the
      class of non-whitespace characters. */
  function Runs(p: char -> bool, s: String): seq<String>
    decreases |s|
  {
    if s == [] then []
    else if !p(s[0]) then Runs(p, s[1..])
    else
      var n := Span(p, s, true);
      [s[..n]] + Runs(p, s[n..])
  }

  /** Every run is non-empty and made of characters of the class. */
  lemma {:induction false} RunsInClass(p: char -> bool, s: String)
    ensures forall j :: 0 <= j < |Runs(p, s)| ==> |Runs(p, s)[j]| > 0
    ensures forall j, i :: 0 <= j < |Runs(p, s)| && 0 <= i < |Runs(p, s)[j]| ==> p(Runs(p, s)[j][i])
    decreases |s|
  {
    if s == [] {
    } else if !p(s[0]) {
      RunsInClass(p, s[1..]);
    } else {
      var n := Span(p, s, true);
      RunsInClass(p, s[n..]);
    }
  }

  /** The runs of each piece, piece by piece. */
  function RunsOfEach(p: char -> bool, pieces: seq<String>): (r: seq<seq<String>>)
    ensures |r| == |pieces|
    ensures forall i :: 0 <= i < |pieces| ==> r[i] == Runs(p, pieces[i])
  {
    seq(|pieces|, i requires 0 <= i < |pieces| => Runs(p, pieces[i]))
  }

  /** re.split('[C]+', s) for a character class C: the pieces between maximal
      runs of separators. There is always at least one piece; the first and
      the last may be empty. */
  function SplitRuns(sep: char -> bool, s: String): (r: seq<String>)
    ensures |r| >= 1
    ensures forall j, i :: 0 <= j < |r| && 0 <= i < |r[j]| ==> !sep(r[j][i])
    decreases |s|
  {
    var i := Span(sep, s, false);
    if i == |s| then [s]
    else
      var n := Span(sep, s[i..], true);
      [s[..i]] + SplitRuns(sep, s[i + n..])
  }

  /** The separator runs re.split drops, left to right: each is non-empty and
      made of separators only. */
  function Gaps(sep: char -> bool, s: String): (g: seq<String>)
    ensures forall j :: 0 <= j < |g| ==> |g[j]| > 0
    ensures forall j, k :: 0 <= j < |g| && 0 <= k < |g[j]| ==> sep(g[j][k])
    decreases |s|
  {
    var i := Span(sep, s, false);
    if i == |s| then []
    else
      var n := Span(sep, s[i..], true);
      [s[i..i + n]] + Gaps(sep, s[i + n..])
  }

  /** The pieces with the gaps put back between them. */
  function Interleave(pieces: seq<String>, gaps: seq<String>): String
    requires |pieces| == |gaps| + 1
    decreases |gaps|
  {
    if gaps == [] then pieces[0]
    else pieces[0] + gaps[0] + Interleave(pieces[1..], gaps[1..])
  }

  lemma GapsUnfold(sep: char -> bool, s: String, i: nat, n: nat)
    requires i == Span(sep, s, false) && i < |s|
    requires n == Span(sep, s[i..], true)
    ensures Gaps(sep, s) == [s[i..i + n]] + Gaps(sep, s[i + n..])
  {
  }

  lemma Cut<T>(s: seq<T>, i: nat, j: nat)
    requires i <= j <= |s|
    ensures s == s[..i] + s[i..j] + s[j..]
  {
  }

  /** re.split loses nothing but the separator runs: one piece more than
      there are runs, and putting the runs back between the pieces gives the
      string back. */
  lemma {:induction false} SplitRunsRebuild(sep: char -> bool, s: String)
    ensures |SplitRuns(sep, s)| == |Gaps(sep, s)| + 1
    ensures Interleave(SplitRuns(sep, s), Gaps(sep, s)) == s
    decreases |s|
  {
    var i := Span(sep, s, false);
    if i < |s| {
      var n := Span(sep, s[i..], true);
      SeparatorRun(sep, s, i, n);
      var rest := s[i + n..];
      SplitRunsRebuild(sep, rest);
      SplitRunsUnfold(sep, s, i, n);
      GapsUnfold(sep, s, i, n);
      var r := [s[..i]] + SplitRuns(sep, rest);
      var g := [s[i..i + n]] + Gaps(sep, rest);
      assert r[1..] == SplitRuns(sep, rest) && g[1..] == Gaps(sep, rest);
      assert Interleave(r, g) == s[..i] + s[i..i + n] + Interleave(SplitRuns(sep, rest), Gaps(sep, rest));
      Cut(s, i, i + n);
    }
  }

  /** The first piece is empty exactly when the string starts with a
      separator. */
  lemma SplitRunsStart(sep: char -> bool, s: String)
    requires |s| > 0
    ensures SplitRuns(sep, s)[0] == [] <==> sep(s[0])
  {
    var i := Span(sep, s, false);
    if i < |s| {
      SplitRunsUnfold(sep, s, i, Span(sep, s[i..], true));
    }
  }

  /** The last piece is empty exactly when the string ends with a
      separator. */
  lemma {:induction false} SplitRunsEnd(sep: char -> bool, s: String)
    requires |s| > 0
    ensures EndsWithSeparator(sep, s, SplitRuns(sep, s))
    decreases |s|
  {
    if Span(sep, s, false) == |s| {
      SplitRunsWhole(sep, s);
    } else {
      var first, rest := SplitRunsStep(sep, s);
      if rest == [] {
        assert SplitRuns(sep, rest) == [[]];
      } else {
        SplitRunsEnd(sep, rest);
        LastPieceOfRest(sep, s, rest, SplitRuns(sep, s), first, SplitRuns(sep, rest));
      }
    }
  }

  /** The last of the pieces of `s` is empty exactly when `s` ends with a
      separator. */
  predicate EndsWithSeparator(sep: char -> bool, s: String, pieces: seq<String>)
    requires |s| > 0
  {
    |pieces| > 0 && (pieces[|pieces| - 1] == [] <==> sep(s[|s| - 1]))
  }

  /** A string with a separator splits into its first piece and the pieces of
      what follows the first separator run. */
  lemma SplitRunsStep(sep: char -> bool, s: String) returns (first: String, rest: String)
    requires Span(sep, s, false) < |s|
    ensures |rest| < |s| && rest == s[|s| - |rest|..]
    ensures SplitRuns(sep, s) == [first] + SplitRuns(sep, rest)
    ensures rest == [] ==> sep(s[|s| - 1])
    ensures rest != [] ==> !sep(rest[0])
  {
    var i := Span(sep, s, false);
    var n := Span(sep, s[i..], true);
    SeparatorRun(sep, s, i, n);
    SplitRunsUnfold(sep, s, i, n);
    first, rest := s[..i], s[i + n..];
    if rest != [] {
      assert s[i..][n] == rest[0];
    }
  }

  /** The separator runs are maximal: no piece strictly between the first
      and the last is empty, so two separators in a row never make a piece. */
  lemma {:induction false} InteriorPiecesNonEmpty(sep: char -> bool, s: String)
    ensures forall j :: 0 < j < |SplitRuns(sep, s)| - 1 ==> |SplitRuns(sep, s)[j]| > 0
    decreases |s|
  {
    if Span(sep, s, false) == |s| {
      SplitRunsWhole(sep, s);
    } else {
      var first, rest := SplitRunsStep(sep, s);
      if rest == [] {
        assert SplitRuns(sep, rest) == [[]];
      } else {
        InteriorPiecesNonEmpty(sep, rest);
        SplitRunsStart(sep, rest);
        InteriorOfCons(SplitRuns(sep, s), first, SplitRuns(sep, rest));
      }
    }
  }

  lemma InteriorOfCons<T>(r: seq<seq<T>>, x: seq<T>, xs: seq<seq<T>>)
    requires r == [x] + xs && |xs| > 0 && |xs[0]| > 0
    requires forall j :: 0 < j < |xs| - 1 ==> |xs[j]| > 0
    ensures forall j :: 0 < j < |r| - 1 ==> |r[j]| > 0
  {
    forall j | 0 < j < |r| - 1 ensures |r[j]| > 0 {
      assert r[j] == xs[j - 1];
    }
  }

  /** The last piece of `s` is the last piece of the string after its first
      separator run, and both strings end with the same character. */
  lemma LastPieceOfRest(sep: char -> bool, s: String, rest: String,
                        pieces: seq<String>, first: String, tail: seq<String>)
    requires 0 < |rest| <= |s| && rest == s[|s| - |rest|..]
    requires pieces == [first] + tail
    requires EndsWithSeparator(sep, rest, tail)
    ensures EndsWithSeparator(sep, s, pieces)
  {
    LastOfCons(pieces, first, tail);
    assert rest[|rest| - 1] == s[|s| - 1];
  }

  lemma LastOfCons<T>(r: seq<T>, x: T, xs: seq<T>)
    requires r == [x] + xs && |xs| > 0
    ensures |r| == |xs| + 1 && r[|r| - 1] == xs[|xs| - 1]
  {
  }

  /** ' '.join(ws) */
  function Join(ws: seq<String>): String {
    if ws == [] then []
    else if |ws| == 1 then ws[0]
    else Join(ws[..|ws| - 1]) + [' '] + ws[|ws| - 1]
  }

  lemma {:induction false} RunsSkip(p: char -> bool, g: String, b: String)
    requires forall k :: 0 <= k < |g| ==> !p(g[k])
    ensures Runs(p, g + b) == Runs(p, b)
    decreases |g|
  {
    if g != [] {
      assert (g + b)[1..] == g[1..] + b;
      RunsSkip(p, g[1..], b);
    } else {
      assert g + b == b;
    }
  }

  lemma SpanBreak(p: char -> bool, a: String, c: char, b: String)
    requires !p(c)
    ensures Span(p, a + [c] + b, true) == Span(p, a, true)
  {
    var s := a + [c] + b;
    var m := Span(p, a, true);
    assert forall i :: 0 <= i < m ==> s[i] == a[i];
    assert s[m] == if m < |a| then a[m] else c;
  }

  /** A character outside the class ends a run: the runs of `a + [c] + b`
      are those of `a` followed by those of `b`. */
  lemma {:induction false} RunsBreak(p: char -> bool, a: String, c: char, b: String)
    requires !p(c)
    ensures Runs(p, a + [c] + b) == Runs(p, a) + Runs(p, b)
    decreases |a|
  {
    var s := a + [c] + b;
    if a == [] {
      assert s[1..] == b;
    } else if !p(a[0]) {
      assert s[1..] == a[1..] + [c] + b;
      RunsBreak(p, a[1..], c, b);
    } else {
      var m := Span(p, a, true);
      SpanBreak(p, a, c, b);
      assert s[..m] == a[..m];
      assert s[m..] == a[m..] + [c] + b;
      RunsBreak(p, a[m..], c, b);
    }
  }

  /** A non-empty gap of characters outside the class separates runs. */
  lemma RunsGap(p: char -> bool, a: String, g: String, b: String)
    requires |g| > 0 && forall k :: 0 <= k < |g| ==> !p(g[k])
    ensures Runs(p, a + g + b) == Runs(p, a) + Runs(p, b)
  {
    assert a + g + b == a + [g[0]] + (g[1..] + b);
    RunsBreak(p, a, g[0], g[1..] + b);
    RunsSkip(p, g[1..], b);
  }

  lemma RunsWhole(p: char -> bool, w: String)
    requires |w| > 0 && forall k :: 0 <= k < |w| ==> p(w[k])
    ensures Runs(p, w) == [w]
  {
    var n := Span(p, w, true);
    assert n == |w|;
    assert w[..n] == w;
    assert w[n..] == [];
  }

  /** The separator run that ends the first piece of re.split. */
  lemma SeparatorRun(sep: char -> bool, s: String, i: nat, n: nat)
    requires i == Span(sep, s, false) && i < |s|
    requires n == Span(sep, s[i..], true)
    ensures 0 < n && i + n <= |s|
    ensures forall k :: i <= k < i + n ==> sep(s[k])
  {
    var rest := s[i..];
    assert rest[0] == s[i];
    forall k | i <= k < i + n ensures sep(s[k]) {
      assert sep(rest[k - i]) && rest[k - i] == s[k];
    }
  }

  /** The runs of `s` are those before and those after a separator run. */
  lemma RunsAroundGap(p: char -> bool, sep: char -> bool, s: String, i: nat, n: nat)
    requires forall c :: sep(c) ==> !p(c)
    requires 0 < n && i + n <= |s|
    requires forall k :: i <= k < i + n ==> sep(s[k])
    ensures Runs(p, s) == Runs(p, s[..i]) + Runs(p, s[i + n..])
  {
    var g := s[i..i + n];
    forall k | 0 <= k < |g| ensures !p(g[k]) {
      assert g[k] == s[i + k] && sep(s[i + k]);
    }
    Cut(s, i, i + n);
    RunsGap(p, s[..i], g, s[i + n..]);
  }

  lemma SplitRunsUnfold(sep: char -> bool, s: String, i: nat, n: nat)
    requires i == Span(sep, s, false) && i < |s|
    requires n == Span(sep, s[i..], true)
    ensures SplitRuns(sep, s) == [s[..i]] + SplitRuns(sep, s[i + n..])
  {
  }

  /** A string without separators is a single piece. */
  lemma SplitRunsWhole(sep: char -> bool, s: String)
    requires forall k :: 0 <= k < |s| ==> !sep(s[k])
    ensures SplitRuns(sep, s) == [s]
  {
    assert Span(sep, s, false) == |s|;
  }

  /** A string that opens with one separator and has no other splits into
      an empty piece and the rest. */
  lemma SplitRunsLeading(sep: char -> bool, c: char, w: String)
    requires sep(c) && forall k :: 0 <= k < |w| ==> !sep(w[k])
    ensures SplitRuns(sep, [c] + w) == [[], w]
  {
    var s := [c] + w;
    assert Span(sep, s, false) == 0;
    assert Span(sep, s, true) == 1 by {
      assert s[1..] == w;
      assert |w| > 0 ==> !sep(w[0]);
    }
    assert s[0..] == s && s[1..] == w;
    SplitRunsUnfold(sep, s, 0, 1);
    SplitRunsWhole(sep, w);
  }

  lemma RunsOfEachCons(p: char -> bool, piece: String, pieces: seq<String>)
    ensures RunsOfEach(p, [piece] + pieces) == [Runs(p, piece)] + RunsOfEach(p, pieces)
  {
    var l := RunsOfEach(p, [piece] + pieces);
    var r := [Runs(p, piece)] + RunsOfEach(p, pieces);
    assert |l| == |r|;
    forall j | 0 <= j < |l| ensures l[j] == r[j] {
      if j > 0 { assert ([piece] + pieces)[j] == pieces[j - 1]; }
    }
  }

  lemma RunsOfPiecesStep(p: char -> bool, sep: char -> bool, s: String, i: nat, n: nat)
    requires forall c :: sep(c) ==> !p(c)
    requires i == Span(sep, s, false) && i < |s|
    requires n == Span(sep, s[i..], true)
    requires Runs(p, s[i + n..]) == Concat(RunsOfEach(p, SplitRuns(sep, s[i + n..])))
    ensures Runs(p, s) == Concat(RunsOfEach(p, SplitRuns(sep, s)))
  {
    SplitRunsUnfold(sep, s, i, n);
    SeparatorRun(sep, s, i, n);
    var rest := SplitRuns(sep, s[i + n..]);
    RunsOfEachCons(p, s[..i], rest);
    ConcatCons(Runs(p, s[..i]), RunsOfEach(p, rest));
    RunsAroundGap(p, sep, s, i, n);
  }

  /** Splitting on separators that cannot occur inside a run does not change
      the runs: the runs of `s` are the runs of its pieces, in order. */
  lemma {:induction false} RunsOfPieces(p: char -> bool, sep: char -> bool, s: String)
    requires forall c :: sep(c) ==> !p(c)
    ensures Runs(p, s) == Concat(RunsOfEach(p, SplitRuns(sep, s)))
    decreases |s|
  {
    var i := Span(sep, s, false);
    if i == |s| {
      assert SplitRuns(sep, s) == [s];
      assert RunsOfEach(p, [s]) == [Runs(p, s)];
      assert Concat([Runs(p, s)]) == Concat([Runs(p, s)][..0]) + Runs(p, s);
    } else {
      var n := Span(sep, s[i..], true);
      SeparatorRun(sep, s, i, n);
      RunsOfPieces(p, sep, s[i + n..]);
      RunsOfPiecesStep(p, sep, s, i, n);
    }
  }

  /** str.split() undoes ' '.join() when every word is non-empty and holds
      no whitespace. */
  lemma {:induction false} SplitJoin(ws: seq<String>)
    requires forall j :: 0 <= j < |ws| ==> |ws[j]| > 0
    requires forall j, k :: 0 <= j < |ws| && 0 <= k < |ws[j]| ==> NotSpace(ws[j][k])
    ensures Runs(NotSpace, Join(ws)) == ws
    decreases |ws|
  {
    if ws == [] {
    } else if |ws| == 1 {
      RunsWhole(NotSpace, ws[0]);
    } else {
      var init := ws[..|ws| - 1];
      SplitJoin(init);
      RunsBreak(NotSpace, Join(init), ' ', ws[|ws| - 1]);
      RunsWhole(NotSpace, ws[|ws| - 1]);
    }
  }
}
