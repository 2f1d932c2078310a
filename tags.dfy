/** Tags and multitags (Tag and MultiTag in tagger.py), and the ratings they
    carry. */
module TagModel {
  import opened TextRules

  /** A rating as the tagger computes it: `radicand ** (1.0 / index)`, the
      index-th root of a product of unit ratings. The root is kept symbolic;
      two ratings are compared exactly through powers (see AtLeast). */
  datatype Rating = Root(radicand: real, index: nat)

  /** The rating of a tag that is not an aggregate: the real number itself. */
  function Plain(x: real): Rating {
    Root(x, 1)
  }

  /** A rating that denotes a real number: a non-negative radicand and a
      positive index. */
  predicate ValidRating(r: Rating) {
    r.radicand >= 0.0 && r.index >= 1
  }

  function Pow(x: real, n: nat): real {
    if n == 0 then 1.0 else x * Pow(x, n - 1)
  }

  /** a >= b between the real numbers the ratings denote:
      a.radicand^(1/a.index) >= b.radicand^(1/b.index) holds exactly when
      a.radicand^b.index >= b.radicand^a.index (both sides raised to the
      power a.index * b.index). */
  predicate AtLeast(a: Rating, b: Rating) {
    Pow(a.radicand, b.index) >= Pow(b.radicand, a.index)
  }

  /** `rating > 0.0` */
  predicate Positive(r: Rating) {
    r.radicand > 0.0
  }

  /** `max(current, candidate)`: the first argument unless the second is
      strictly greater. */
  function Max(current: Rating, candidate: Rating): Rating {
    if AtLeast(current, candidate) then current else candidate
  }

  lemma {:induction false} PowNonNegative(x: real, n: nat)
    requires x >= 0.0
    ensures Pow(x, n) >= 0.0
  {
    if n > 0 {
      PowNonNegative(x, n - 1);
    }
  }

  /** Products of non-negative factors are monotone in each factor. */
  lemma MulMonotone(a: real, b: real, c: real, d: real)
    requires 0.0 <= a <= b && 0.0 <= c <= d
    ensures 0.0 <= a * c <= b * d
  {
    assert a * c <= b * c;
    assert b * c <= b * d;
  }

  lemma MulStrictlyMonotone(a: real, b: real, c: real, d: real)
    requires 0.0 <= a < b && 0.0 <= c < d
    ensures a * c < b * d
  {
    assert a * c <= b * c;
    assert b * c < b * d;
  }

  lemma {:induction false} PowUnit(x: real, n: nat)
    requires 0.0 <= x <= 1.0
    ensures 0.0 <= Pow(x, n) <= 1.0
  {
    if n > 0 {
      PowUnit(x, n - 1);
      MulMonotone(x, 1.0, Pow(x, n - 1), 1.0);
    }
  }

  lemma {:induction false} PowMonotone(x: real, y: real, n: nat)
    requires 0.0 <= x <= y
    ensures Pow(x, n) <= Pow(y, n)
  {
    if n > 0 {
      PowMonotone(x, y, n - 1);
      PowNonNegative(x, n - 1);
      MulMonotone(x, y, Pow(x, n - 1), Pow(y, n - 1));
    }
  }

  lemma {:induction false} PowStrictlyMonotone(x: real, y: real, n: nat)
    requires 0.0 <= x < y && n >= 1
    ensures Pow(x, n) < Pow(y, n)
  {
    if n == 1 {
      assert Pow(x, 0) == 1.0 && Pow(y, 0) == 1.0;
    } else {
      PowStrictlyMonotone(x, y, n - 1);
      PowNonNegative(x, n - 1);
      MulStrictlyMonotone(x, y, Pow(x, n - 1), Pow(y, n - 1));
    }
  }

  lemma {:induction false} PowAdd(x: real, m: nat, n: nat)
    ensures Pow(x, m + n) == Pow(x, m) * Pow(x, n)
  {
    if n > 0 {
      PowAdd(x, m, n - 1);
      assert Pow(x, m + n) == x * Pow(x, m + n - 1);
    }
  }

  lemma {:induction false} PowMul(x: real, m: nat, n: nat)
    ensures Pow(Pow(x, m), n) == Pow(x, m * n)
  {
    if n > 0 {
      PowMul(x, m, n - 1);
      assert m * n == m + m * (n - 1);
      PowAdd(x, m, m * (n - 1));
    }
  }

  /** Comparing ratings through powers is transitive. */
  lemma AtLeastTransitive(a: Rating, b: Rating, c: Rating)
    requires ValidRating(a) && ValidRating(b) && ValidRating(c)
    requires AtLeast(a, b) && AtLeast(b, c)
    ensures AtLeast(a, c)
  {
    var x, y, z := a.radicand, b.radicand, c.radicand;
    var p, q, r := a.index, b.index, c.index;
    // x^q >= y^p and y^r >= z^q; raise the first to r, the second to p
    PowNonNegative(x, q);
    PowNonNegative(y, p);
    PowNonNegative(y, r);
    PowNonNegative(z, q);
    PowMonotone(Pow(y, p), Pow(x, q), r);
    PowMonotone(Pow(z, q), Pow(y, r), p);
    PowMul(x, q, r);
    PowMul(y, p, r);
    PowMul(y, r, p);
    PowMul(z, q, p);
    assert p * r == r * p && q * r == r * q && q * p == p * q;
    // so x^(qr) >= z^(qp), that is (x^r)^q >= (z^p)^q, and q >= 1
    PowMul(x, r, q);
    PowMul(z, p, q);
    PowNonNegative(x, r);
    PowNonNegative(z, p);
    if Pow(x, r) < Pow(z, p) {
      PowStrictlyMonotone(Pow(x, r), Pow(z, p), q);
    }
  }

  lemma AtLeastTotal(a: Rating, b: Rating)
    ensures AtLeast(a, b) || AtLeast(b, a)
  {
  }

  /** The larger of two ratings is at least each of them, and is one of them. */
  lemma MaxIsUpperBound(current: Rating, candidate: Rating)
    ensures AtLeast(Max(current, candidate), current)
    ensures AtLeast(Max(current, candidate), candidate)
    ensures Max(current, candidate) in {current, candidate}
  {
  }

  /** One word of the document, as a value. */
  datatype AtomicTag = AtomicTag(str: String, stem: String, rating: real, proper: bool, terminal: bool)

  /** Tag: a word of the document whose stem, and later rating, are filled in
      place by the stemmer and the rater. Tags are equal when their stems are. */
  class Tag {
    var str: String
    var stem: String
    var rating: real
    var proper: bool
    var terminal: bool

    /** Tag(string, proper=.., terminal=..) with no stem: the stem is the
        string itself and the rating the default 1.0. */
    constructor (str: String, proper: bool, terminal: bool)
      ensures Value() == AtomicTag(str, str, 1.0, proper, terminal)
    {
      this.str := str;
      this.stem := str;
      this.rating := 1.0;
      this.proper := proper;
      this.terminal := terminal;
    }

    function Value(): AtomicTag
      reads this
    {
      AtomicTag(str, stem, rating, proper, terminal)
    }
  }

  /** The current values of a list of tags. */
  function Values(tags: seq<Tag>): (vs: seq<AtomicTag>)
    reads set t | t in tags
    ensures |vs| == |tags|
    ensures forall i :: 0 <= i < |tags| ==> vs[i] == tags[i].Value()
  {
    seq(|tags|, i requires 0 <= i < |tags| reads tags => tags[i].Value())
  }

  /** MultiTag: consecutive tags aggregated into one candidate phrase.
      `size` is the number of unit tags and `subratings` their ratings. */
  datatype MultiTag = MultiTag(
    str: String,
    stem: String,
    size: nat,
    subratings: seq<real>,
    rating: Rating,
    proper: bool,
    terminal: bool)

  /** The stem a MultiTag copies from its first tag: Tag's initialiser takes
      the string when the stem is empty. */
  function FirstStem(v: AtomicTag): String {
    if v.stem == [] then v.str else v.stem
  }

  /** MultiTag(tail) with no head: a copy of the tag, of size 1. */
  function Single(tail: AtomicTag): MultiTag {
    MultiTag(
      tail.str,
      FirstStem(tail),
      1,
      [tail.rating],
      Plain(tail.rating),
      tail.proper,
      tail.terminal)
  }

  /** MultiTag(tail, head): the head extended by one tag. */
  function Extend(head: MultiTag, tail: AtomicTag): MultiTag {
    var subratings := head.subratings + [tail.rating];
    var proper := head.proper && tail.proper;
    MultiTag(
      head.str + " " + tail.str,
      head.stem + " " + tail.stem,
      head.size + 1,
      subratings,
      CombinedRating(subratings, head.size + 1, proper),
      proper,
      tail.terminal)
  }

  /** reduce(lambda x, y: x * y, xs, 1.0) */
  function Product(xs: seq<real>): real {
    if xs == [] then 1.0 else Product(xs[..|xs| - 1]) * xs[|xs| - 1]
  }

  /** [r for r in xs if r > 0.0] */
  function Positives(xs: seq<real>): (ys: seq<real>)
    ensures forall y :: y in ys ==> y in xs && y > 0.0
    ensures forall x :: x in xs && x > 0.0 ==> x in ys
    ensures |ys| <= |xs|
  {
    if xs == [] then []
    else Positives(xs[..|xs| - 1]) + (if xs[|xs| - 1] > 0.0 then [xs[|xs| - 1]] else [])
  }

  /** How many entries of `xs` are positive. */
  function PositiveCount(xs: seq<real>): nat {
    if xs == [] then 0 else PositiveCount(xs[1..]) + (if xs[0] > 0.0 then 1 else 0)
  }

  /** The filter keeps every positive entry as often as it occurs, drops
      every other one, and so has one element per positive entry. */
  lemma {:induction false} PositivesExact(xs: seq<real>)
    ensures forall y :: y > 0.0 ==> multiset(Positives(xs))[y] == multiset(xs)[y]
    ensures forall y :: y <= 0.0 ==> multiset(Positives(xs))[y] == 0
    ensures |Positives(xs)| == PositiveCount(xs)
    decreases |xs|
  {
    if xs != [] {
      var init := xs[..|xs| - 1];
      var x := xs[|xs| - 1];
      PositivesExact(init);
      assert xs == init + [x];
      PositiveCountSnoc(init, x);
    }
  }

  lemma {:induction false} PositiveCountSnoc(xs: seq<real>, x: real)
    ensures PositiveCount(xs + [x]) == PositiveCount(xs) + (if x > 0.0 then 1 else 0)
    decreases |xs|
  {
    if xs != [] {
      assert (xs + [x])[1..] == xs[1..] + [x];
      PositiveCountSnoc(xs[1..], x);
    }
  }

  /** MultiTag.combined_rating: the geometric mean of the unit ratings; a
      proper noun whose product is zero keeps the mean of its non-zero
      ratings, so that a stopword inside it does not zero it out. */
  function CombinedRating(subratings: seq<real>, size: nat, proper: bool): Rating {
    var product := Product(subratings);
    if product == 0.0 && proper then
      var nonzero := Positives(subratings);
      if |nonzero| == 0 then Plain(0.0)
      else Root(Product(nonzero), |nonzero|)
    else
      Root(product, size)
  }

  /** The cases of the combined rating, by the zero unit ratings. */
  lemma CombinedRatingCases(subratings: seq<real>, size: nat, proper: bool)
    // no zero rating among the units: the size-th root of their product
    ensures 0.0 !in subratings ==> CombinedRating(subratings, size, proper) == Root(Product(subratings), size)
    // a zero unit rating zeroes a phrase that is not a proper noun
    ensures 0.0 in subratings && !proper ==> CombinedRating(subratings, size, proper).radicand == 0.0
    // a proper noun with a zero unit keeps the mean of the positive ones ...
    ensures 0.0 in subratings && proper && |Positives(subratings)| > 0 ==>
              CombinedRating(subratings, size, proper) ==
                Root(Product(Positives(subratings)), |Positives(subratings)|)
    // ... and is zero only when no unit rating is positive
    ensures 0.0 in subratings && proper && |Positives(subratings)| == 0 ==>
              CombinedRating(subratings, size, proper) == Plain(0.0)
  {
    ProductZero(subratings);
  }

  /** A product is zero exactly when one of its factors is. */
  lemma {:induction false} ProductZero(xs: seq<real>)
    ensures Product(xs) == 0.0 <==> 0.0 in xs
  {
    if xs != [] {
      var init := xs[..|xs| - 1];
      ProductZero(init);
      assert xs == init + [xs[|xs| - 1]];
    }
  }

  lemma {:induction false} ProductPositive(xs: seq<real>)
    requires forall x :: x in xs ==> x > 0.0
    ensures Product(xs) > 0.0
  {
    if xs != [] {
      var init := xs[..|xs| - 1];
      assert forall x :: x in init ==> x in xs;
      ProductPositive(init);
      assert xs[|xs| - 1] in xs;
    }
  }

  lemma {:induction false} ProductUnit(xs: seq<real>)
    requires forall x :: x in xs ==> 0.0 <= x <= 1.0
    ensures 0.0 <= Product(xs) <= 1.0
  {
    if xs != [] {
      var init := xs[..|xs| - 1];
      var last := xs[|xs| - 1];
      assert forall x :: x in init ==> x in xs;
      ProductUnit(init);
      assert last in xs;
      MulMonotone(Product(init), 1.0, last, 1.0);
    }
  }

  /** Rating bounds and the stopword rule for proper nouns: with unit ratings
      in [0, 1], the combined rating denotes a number in [0, 1]; it is
      positive exactly when every unit rating is (for a common phrase) or
      some unit rating is (for a proper noun). */
  lemma CombinedRatingBounds(subratings: seq<real>, size: nat, proper: bool)
    requires |subratings| == size && size >= 1
    requires forall x :: x in subratings ==> 0.0 <= x <= 1.0
    ensures ValidRating(CombinedRating(subratings, size, proper))
    ensures CombinedRating(subratings, size, proper).radicand <= 1.0
    ensures Positive(CombinedRating(subratings, size, proper)) <==>
              if proper then exists x :: x in subratings && x > 0.0
              else forall x :: x in subratings ==> x > 0.0
  {
    CombinedRatingCases(subratings, size, proper);
    var r := CombinedRating(subratings, size, proper);
    var pos := Positives(subratings);
    ProductUnit(subratings);
    ProductZero(subratings);
    assert forall y :: y in pos ==> 0.0 <= y <= 1.0;
    ProductUnit(pos);
    if 0.0 !in subratings {
      assert forall x :: x in subratings ==> x > 0.0;
      ProductPositive(subratings);
      assert subratings[0] in subratings;
    } else if proper && |pos| > 0 {
      ProductPositive(pos);
      assert pos[0] in subratings;
    } else if proper {
      assert forall x :: x in subratings ==> x <= 0.0;
    }
  }
}
