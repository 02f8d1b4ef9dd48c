/** The Okapi BM25 scorer for the lexical half of hybrid retrieval, over token sequences. */
module BM25 {
  import opened Wrappers
  import opened Numbers

  type Doc = seq<string>

  /** The natural logarithm, a library: all that is used of it is its sign above one. */
  ghost predicate IsLog(log: RealFunction) {
    forall x: real :: x > 1.0 ==> log(x) > 0.0
  }

  // ----- Corpus statistics -----

  function TermsOf(doc: Doc): set<string> {
    set t | t in doc
  }

  function AllTerms(docs: seq<Doc>): set<string> {
    if docs == [] then {} else AllTerms(docs[..|docs| - 1]) + TermsOf(docs[|docs| - 1])
  }

  function DocFrequency(docs: seq<Doc>, term: string): nat {
    if docs == [] then 0
    else DocFrequency(docs[..|docs| - 1], term) + (if term in docs[|docs| - 1] then 1 else 0)
  }

  function TotalLength(docs: seq<Doc>): nat {
    if docs == [] then 0 else TotalLength(docs[..|docs| - 1]) + |docs[|docs| - 1]|
  }

  function AverageLength(docs: seq<Doc>): real {
    if docs == [] then 1.0 else TotalLength(docs) as real / |docs| as real
  }

  function IdfOf(n: nat, count: nat, log: RealFunction): real {
    log((n as real - count as real + 0.5) / (count as real + 0.5) + 1.0)
  }

  function Frequency(doc: Doc, term: string): nat {
    if doc == [] then 0 else Frequency(doc[..|doc| - 1], term) + (if doc[|doc| - 1] == term then 1 else 0)
  }

  /** What `fit` computes: a positive weight for each term, rarer terms from fewer documents. */
  ghost predicate IsIdf(docs: seq<Doc>, log: RealFunction, idf: map<string, real>) {
    idf.Keys == AllTerms(docs) && forall t :: t in idf ==> idf[t] == IdfOf(|docs|, DocFrequency(docs, t), log)
  }

  lemma {:induction false} AllTermsMembers(docs: seq<Doc>, term: string)
    ensures term in AllTerms(docs) <==> exists i :: 0 <= i < |docs| && term in docs[i]
  {
    if docs != [] {
      AllTermsMembers(docs[..|docs| - 1], term);
    }
  }

  lemma {:induction false} FrequencyPositive(doc: Doc, term: string)
    ensures Frequency(doc, term) > 0 <==> term in doc
  {
    if doc != [] {
      FrequencyPositive(doc[..|doc| - 1], term);
      assert doc == doc[..|doc| - 1] + [doc[|doc| - 1]];
    }
  }

  /** The frequency is the number of occurrences. */
  lemma {:induction false} FrequencyIsCount(doc: Doc, term: string)
    ensures Frequency(doc, term) == multiset(doc)[term]
  {
    if doc != [] {
      FrequencyIsCount(doc[..|doc| - 1], term);
      assert doc == doc[..|doc| - 1] + [doc[|doc| - 1]];
    }
  }

  function DocsWith(docs: seq<Doc>, term: string): set<nat> {
    set i: nat | i < |docs| && term in docs[i]
  }

  /** The document frequency is the number of documents that contain the term. */
  lemma {:induction false} DocFrequencyIsCount(docs: seq<Doc>, term: string)
    ensures DocFrequency(docs, term) == |DocsWith(docs, term)|
  {
    if docs != [] {
      var n := |docs| - 1;
      DocFrequencyIsCount(docs[..n], term);
      assert DocsWith(docs, term) == DocsWith(docs[..n], term) + (if term in docs[n] then {n} else {});
    }
  }

  function Concatenated(docs: seq<Doc>): Doc {
    if docs == [] then [] else Concatenated(docs[..|docs| - 1]) + docs[|docs| - 1]
  }

  /** The total length is that of all documents together. */
  lemma {:induction false} TotalLengthIs(docs: seq<Doc>)
    ensures TotalLength(docs) == |Concatenated(docs)|
  {
    if docs != [] {
      TotalLengthIs(docs[..|docs| - 1]);
    }
  }

  /** The average length, times the number of documents, is the length of all of them together. */
  lemma AverageLengthIs(docs: seq<Doc>)
    requires docs != []
    ensures AverageLength(docs) * |docs| as real == |Concatenated(docs)| as real
  {
    TotalLengthIs(docs);
    QuotientTimes(TotalLength(docs) as real, |docs| as real);
  }

  lemma SelfQuotient(x: real)
    requires x > 0.0
    ensures x / x == 1.0
  {
    QuotientTimes(x, x);
    var q := x / x;
    assert (q - 1.0) * x == 0.0;
  }

  lemma SumQuotient(a: real, b: real)
    requires b > 0.0
    ensures a / b + 1.0 == (a + b) / b
  {
    QuotientTimes(a, b);
    QuotientTimes(a + b, b);
    var difference := (a + b) / b - a / b - 1.0;
    assert difference * b == 0.0;
  }

  /** In general a term weighs the logarithm of this quotient, and one that is in every document still more than zero. */
  lemma WeightIs(docs: seq<Doc>, log: RealFunction, idf: map<string, real>, term: string)
    requires IsIdf(docs, log, idf) && term in idf
    ensures idf[term] == log((|docs| as real + 1.0) / (|DocsWith(docs, term)| as real + 0.5))
  {
    DocFrequencyIsCount(docs, term);
    var n, c := |docs| as real, DocFrequency(docs, term) as real;
    SumQuotient(n - c + 0.5, c + 0.5);
  }

  lemma {:induction false} DocFrequencyAtMost(docs: seq<Doc>, term: string)
    ensures DocFrequency(docs, term) <= |docs|
  {
    if docs != [] {
      DocFrequencyAtMost(docs[..|docs| - 1], term);
    }
  }

  lemma PositiveQuotient(a: real, b: real)
    requires a > 0.0 && b > 0.0
    ensures a / b > 0.0
  {
  }

  /** Every known term has a positive weight, even one that every document contains. */
  lemma IdfPositive(docs: seq<Doc>, log: RealFunction, idf: map<string, real>, term: string)
    requires IsLog(log) && IsIdf(docs, log, idf) && term in idf
    ensures idf[term] > 0.0
  {
    DocFrequencyAtMost(docs, term);
    var n, c := |docs| as real, DocFrequency(docs, term) as real;
    PositiveQuotient(n - c + 0.5, c + 0.5);
  }

  lemma {:induction false} TotalLengthPositive(docs: seq<Doc>)
    ensures TotalLength(docs) > 0 <==> exists i :: 0 <= i < |docs| && docs[i] != []
  {
    if docs != [] {
      TotalLengthPositive(docs[..|docs| - 1]);
    }
  }

  ghost predicate SomeToken(docs: seq<Doc>) {
    exists i :: 0 <= i < |docs| && docs[i] != []
  }

  lemma AverageLengthPositive(docs: seq<Doc>)
    requires docs != []
    ensures AverageLength(docs) >= 0.0
    ensures AverageLength(docs) > 0.0 <==> SomeToken(docs)
  {
    TotalLengthPositive(docs);
    if TotalLength(docs) > 0 {
      PositiveQuotient(TotalLength(docs) as real, |docs| as real);
    }
  }

  // ----- One document's score -----

  datatype Parameters = Parameters(k1: real, b: real) {
    ghost predicate Valid() { k1 > 0.0 && 0.0 <= b < 1.0 }

    /** With the two extremes: no saturation, and full length normalisation. */
    ghost predicate Ordinary() { k1 >= 0.0 && 0.0 <= b <= 1.0 }
  }

  /** Length normalisation: longer documents need more occurrences for the same score. */
  function LengthNorm(p: Parameters, length: nat, average: real): real
    requires average != 0.0
  {
    p.k1 * (1.0 - p.b + p.b * (length as real / average))
  }

  /** Zero stands for a division by zero, which `Scored` reports. */
  function TermScore(idf: real, freq: nat, norm: real, k1: real): real {
    if freq as real + norm == 0.0 then 0.0
    else idf * (freq as real * (k1 + 1.0)) / (freq as real + norm)
  }

  function Weight(idf: map<string, real>, term: string): real {
    if term in idf then idf[term] else 0.0
  }

  /** The document's score for the query, one summand for each query term with a weight. */
  function RawScore(doc: Doc, terms: seq<string>, idf: map<string, real>, norm: real, k1: real): real {
    if terms == [] then 0.0
    else
      var rest := RawScore(doc, terms[..|terms| - 1], idf, norm, k1);
      var term := terms[|terms| - 1];
      if Weight(idf, term) == 0.0 then rest
      else rest + TermScore(Weight(idf, term), Frequency(doc, term), norm, k1)
  }

  /** A query term with a weight divides by zero: only without length normalisation can this be. */
  predicate ZeroDenominator(doc: Doc, terms: seq<string>, idf: map<string, real>, norm: real) {
    exists k :: 0 <= k < |terms| && Weight(idf, terms[k]) != 0.0 && Frequency(doc, terms[k]) as real + norm == 0.0
  }

  function WeightSum(terms: seq<string>, idf: map<string, real>): real {
    if terms == [] then 0.0 else WeightSum(terms[..|terms| - 1], idf) + Weight(idf, terms[|terms| - 1])
  }

  lemma LengthNormPositive(p: Parameters, length: nat, average: real)
    requires p.Valid() && average > 0.0
    ensures LengthNorm(p, length, average) > 0.0
  {
    var ratio := length as real / average;
    QuotientTimes(length as real, average);
    PositiveFactor(ratio, average);
    NonNegativeProduct(p.b, ratio);
    var factor := 1.0 - p.b + p.b * ratio;
    PositiveFactor(factor, p.k1);
    assert LengthNorm(p, length, average) == p.k1 * factor;
  }

  lemma NonNegativeProduct(a: real, b: real)
    requires a >= 0.0 && b >= 0.0
    ensures a * b >= 0.0
  {
  }

  lemma PositiveFactor(x: real, b: real)
    requires b > 0.0
    ensures x * b > 0.0 <==> x > 0.0
    ensures x * b >= 0.0 <==> x >= 0.0
  {
  }

  lemma QuotientAtMost(a: real, b: real, c: real, d: real)
    requires b > 0.0 && d > 0.0 && a * d <= c * b
    ensures a / b <= c / d
    ensures a * d < c * b ==> a / b < c / d
  {
    var x, y := a / b, c / d;
    QuotientTimes(a, b);
    QuotientTimes(c, d);
    assert b * d > 0.0;
    assert x * (b * d) == (x * b) * d;
    assert y * (b * d) == (y * d) * b;
    assert (y - x) * (b * d) == y * (b * d) - x * (b * d);
    PositiveFactor(y - x, b * d);
  }

  /** The share of its weight a term earns: none without an occurrence, never all of it. */
  function Saturation(freq: nat, norm: real): real
    requires norm > 0.0
  {
    freq as real / (freq as real + norm)
  }

  lemma SaturationBounds(freq: nat, norm: real)
    requires norm > 0.0
    ensures 0.0 <= Saturation(freq, norm) < 1.0
    ensures Saturation(freq, norm) > 0.0 <==> freq > 0
  {
    var f := freq as real;
    var r := Saturation(freq, norm);
    QuotientTimes(f, f + norm);
    assert (1.0 - r) * (f + norm) == norm;
    PositiveFactor(1.0 - r, f + norm);
    PositiveFactor(r, f + norm);
  }

  lemma DifferenceTimes(x: real, y: real, m: real)
    ensures (y - x) * m == y * m - x * m
  {
  }

  /** The order of two products `xm` and `yn` through a third, `ym`. */
  lemma ProductsInOrder(x: real, n: real, y: real, m: real, xm: real, ym: real, yn: real)
    requires 0.0 <= x <= y && 0.0 < m <= n
    requires (y - x) * m == ym - xm && (n - m) * y == yn - ym
    ensures xm <= ym <= yn
    ensures x < y ==> xm < yn
  {
    PositiveFactor(y - x, m);
    NonNegativeProduct(n - m, y);
  }

  lemma CrossProducts(x: real, n: real, y: real, m: real)
    requires 0.0 <= x <= y && 0.0 < m <= n
    ensures x * m <= y * n
    ensures x < y ==> x * m < y * n
  {
    DifferenceTimes(x, y, m);
    DifferenceTimes(m, n, y);
    ProductsInOrder(x, n, y, m, x * m, y * m, n * y);
  }

  lemma SaturationMonotone(f: nat, n: real, g: nat, m: real)
    requires 0.0 < m <= n && f <= g
    ensures Saturation(f, n) <= Saturation(g, m)
    ensures f < g ==> Saturation(f, n) < Saturation(g, m)
  {
    var x, y := f as real, g as real;
    CrossProducts(x, n, y, m);
    assert x * (y + m) == x * y + x * m;
    assert y * (x + n) == x * y + y * n;
    QuotientAtMost(x, x + n, y, y + m);
  }

  /** A term's score is its weight, times `k1 + 1`, times its saturation. */
  lemma TermScoreIs(idf: real, freq: nat, norm: real, k1: real, most: real)
    requires norm > 0.0 && most == (k1 + 1.0) * idf
    ensures TermScore(idf, freq, norm, k1) == most * Saturation(freq, norm)
  {
    var f := freq as real;
    assert idf * (f * (k1 + 1.0)) == most * f;
    MoveFactor(most, f, f + norm);
  }

  lemma MoveFactor(m: real, a: real, b: real)
    requires b > 0.0
    ensures (m * a) / b == m * (a / b)
  {
    var q := a / b;
    QuotientTimes(a, b);
    assert (m * q) * b == m * (q * b);
    QuotientTimes(m * a, b);
    PositiveFactor((m * a) / b - m * q, b);
    PositiveFactor(m * q - (m * a) / b, b);
  }

  lemma PartOf(part: real, whole: real, share: real)
    requires part == whole * share && whole > 0.0 && 0.0 <= share < 1.0
    ensures 0.0 <= part < whole
    ensures part > 0.0 <==> share > 0.0
  {
    PositiveFactor(share, whole);
    PositiveFactor(1.0 - share, whole);
    assert whole - part == (1.0 - share) * whole;
  }

  /** A term's score is positive when it occurs, and saturates below `k1 + 1` times its weight. */
  lemma TermScoreBounds(idf: real, freq: nat, norm: real, k1: real)
    requires idf > 0.0 && norm > 0.0 && k1 > 0.0
    ensures 0.0 <= TermScore(idf, freq, norm, k1) < (k1 + 1.0) * idf
    ensures TermScore(idf, freq, norm, k1) > 0.0 <==> freq > 0
  {
    var most := (k1 + 1.0) * idf;
    PositiveFactor(k1 + 1.0, idf);
    TermScoreIs(idf, freq, norm, k1, most);
    SaturationBounds(freq, norm);
    PartOf(TermScore(idf, freq, norm, k1), most, Saturation(freq, norm));
  }

  lemma TermScoreMonotone(idf: real, f: nat, n: real, g: nat, m: real, k1: real)
    requires idf > 0.0 && 0.0 < m <= n && k1 > 0.0 && f <= g
    ensures TermScore(idf, f, n, k1) <= TermScore(idf, g, m, k1)
    ensures f < g ==> TermScore(idf, f, n, k1) < TermScore(idf, g, m, k1)
  {
    var most := (k1 + 1.0) * idf;
    PositiveFactor(k1 + 1.0, idf);
    TermScoreIs(idf, f, n, k1, most);
    TermScoreIs(idf, g, m, k1, most);
    SaturationMonotone(f, n, g, m);
    PartsInOrder(most, Saturation(f, n), Saturation(g, m));
  }

  lemma PartsInOrder(whole: real, x: real, y: real)
    requires whole > 0.0 && x <= y
    ensures whole * x <= whole * y
    ensures x < y ==> whole * x < whole * y
  {
    PositiveFactor(y - x, whole);
    assert (y - x) * whole == whole * y - whole * x;
  }

  ghost predicate PositiveWeights(idf: map<string, real>) {
    forall t :: t in idf ==> idf[t] > 0.0
  }

  /** A document scores above zero exactly when it contains a query term. */
  lemma {:induction false} RawScorePositive(doc: Doc, terms: seq<string>, idf: map<string, real>, norm: real, k1: real)
    requires PositiveWeights(idf) && norm > 0.0 && k1 > 0.0 && TermsOf(doc) <= idf.Keys
    ensures RawScore(doc, terms, idf, norm, k1) >= 0.0
    ensures RawScore(doc, terms, idf, norm, k1) > 0.0 <==> exists t :: t in terms && t in doc
  {
    if terms != [] {
      var n := |terms| - 1;
      var front, term := terms[..n], terms[n];
      RawScorePositive(doc, front, idf, norm, k1);
      assert terms == front + [term];
      FrequencyPositive(doc, term);
      if term in idf {
        TermScoreBounds(idf[term], Frequency(doc, term), norm, k1);
      } else {
        assert term !in TermsOf(doc);
      }
    }
  }

  /** A query's raw score is the sum of its words' raw scores, a word asked twice counting twice. */
  lemma {:induction false} RawScoreAdds(
      doc: Doc, a: seq<string>, b: seq<string>, idf: map<string, real>, norm: real, k1: real)
    ensures RawScore(doc, a + b, idf, norm, k1) == RawScore(doc, a, idf, norm, k1) + RawScore(doc, b, idf, norm, k1)
  {
    if b == [] {
      assert a + b == a;
    } else {
      RawScoreAdds(doc, a, b[..|b| - 1], idf, norm, k1);
      assert (a + b)[..|a + b| - 1] == a + b[..|b| - 1];
    }
  }

  ghost predicate SomeKnown(terms: seq<string>, idf: map<string, real>) {
    exists i :: 0 <= i < |terms| && terms[i] in idf
  }

  lemma SomeKnownExtends(terms: seq<string>, idf: map<string, real>)
    requires terms != []
    ensures SomeKnown(terms, idf) <==> SomeKnown(terms[..|terms| - 1], idf) || terms[|terms| - 1] in idf
  {
    assert forall i :: 0 <= i < |terms| - 1 ==> terms[i] == terms[..|terms| - 1][i];
  }

  /** The most a term's summand can reach. */
  function MostFor(term: string, idf: map<string, real>, c: real): real {
    c * Weight(idf, term)
  }

  /** The most each summand can reach, summed. */
  function Cap(terms: seq<string>, idf: map<string, real>, c: real): real {
    if terms == [] then 0.0 else Cap(terms[..|terms| - 1], idf, c) + MostFor(terms[|terms| - 1], idf, c)
  }

  lemma {:induction false} CapIsProduct(terms: seq<string>, idf: map<string, real>, c: real)
    ensures Cap(terms, idf, c) == c * WeightSum(terms, idf)
  {
    if terms != [] {
      CapIsProduct(terms[..|terms| - 1], idf, c);
      var s, w := WeightSum(terms[..|terms| - 1], idf), Weight(idf, terms[|terms| - 1]);
      assert c * (s + w) == c * s + c * w;
    }
  }

  /** What a query term adds to a document's score. */
  function Summand(doc: Doc, term: string, idf: map<string, real>, norm: real, k1: real): real
    requires norm > 0.0
  {
    if Weight(idf, term) == 0.0 then 0.0 else TermScore(Weight(idf, term), Frequency(doc, term), norm, k1)
  }

  lemma SummandBelowMost(doc: Doc, term: string, idf: map<string, real>, norm: real, k1: real)
    requires PositiveWeights(idf) && norm > 0.0 && k1 > 0.0
    ensures Summand(doc, term, idf, norm, k1) <= MostFor(term, idf, k1 + 1.0)
    ensures term in idf ==> Summand(doc, term, idf, norm, k1) < MostFor(term, idf, k1 + 1.0)
  {
    if term in idf {
      TermScoreBounds(idf[term], Frequency(doc, term), norm, k1);
    }
  }

  lemma {:induction false} RawScoreWithinCap(doc: Doc, terms: seq<string>, idf: map<string, real>, norm: real, k1: real)
    requires PositiveWeights(idf) && norm > 0.0 && k1 > 0.0
    ensures RawScore(doc, terms, idf, norm, k1) <= Cap(terms, idf, k1 + 1.0)
    ensures SomeKnown(terms, idf) ==> RawScore(doc, terms, idf, norm, k1) < Cap(terms, idf, k1 + 1.0)
  {
    if terms != [] {
      RawScoreWithinCap(doc, terms[..|terms| - 1], idf, norm, k1);
      SomeKnownExtends(terms, idf);
      SummandBelowMost(doc, terms[|terms| - 1], idf, norm, k1);
    }
  }

  /** Raw scores stay below `k1 + 1` times the summed weights of the query terms. */
  lemma RawScoreSaturates(doc: Doc, terms: seq<string>, idf: map<string, real>, norm: real, k1: real)
    requires PositiveWeights(idf) && norm > 0.0 && k1 > 0.0
    ensures RawScore(doc, terms, idf, norm, k1) <= (k1 + 1.0) * WeightSum(terms, idf)
    ensures SomeKnown(terms, idf) ==> RawScore(doc, terms, idf, norm, k1) < (k1 + 1.0) * WeightSum(terms, idf)
  {
    RawScoreWithinCap(doc, terms, idf, norm, k1);
    CapIsProduct(terms, idf, k1 + 1.0);
  }

  /** Document `e` has each query term at least as often as `d`. */
  ghost predicate AtLeastAsOften(d: Doc, e: Doc, terms: seq<string>) {
    forall t :: t in terms ==> multiset(d)[t] <= multiset(e)[t]
  }

  ghost predicate SomeMoreOften(d: Doc, e: Doc, terms: seq<string>) {
    exists t :: t in terms && multiset(d)[t] < multiset(e)[t]
  }

  /**
   * More occurrences of query terms in a document that is not longer (its norm `m` is at most `n`)
   * never score less, and score more when some term occurs more often.
   */
  lemma {:induction false} RawScoreMonotone(
      d: Doc, n: real, e: Doc, m: real, terms: seq<string>, idf: map<string, real>, k1: real)
    requires PositiveWeights(idf) && 0.0 < m <= n && k1 > 0.0 && TermsOf(e) <= idf.Keys
    requires AtLeastAsOften(d, e, terms)
    ensures RawScore(d, terms, idf, n, k1) <= RawScore(e, terms, idf, m, k1)
    ensures SomeMoreOften(d, e, terms) ==> RawScore(d, terms, idf, n, k1) < RawScore(e, terms, idf, m, k1)
  {
    if terms != [] {
      var front, term := terms[..|terms| - 1], terms[|terms| - 1];
      assert terms == front + [term];
      RawScoreMonotone(d, n, e, m, front, idf, k1);
      FrequencyIsCount(d, term);
      FrequencyIsCount(e, term);
      FrequencyPositive(e, term);
      if term in idf {
        TermScoreMonotone(idf[term], Frequency(d, term), n, Frequency(e, term), m, k1);
      } else {
        assert term !in TermsOf(e);
      }
    }
  }

  /** Putting a known query term in the place of any other word raises the raw score. */
  lemma QueryTermRaises(
      d: Doc, i: nat, term: string, terms: seq<string>, idf: map<string, real>, norm: real, k1: real)
    requires PositiveWeights(idf) && norm > 0.0 && k1 > 0.0 && TermsOf(d) + {term} <= idf.Keys
    requires i < |d| && d[i] !in terms && term in terms
    ensures RawScore(d, terms, idf, norm, k1) < RawScore(d[i := term], terms, idf, norm, k1)
  {
    var e := d[i := term];
    assert d == d[..i] + [d[i]] + d[i + 1..] && e == d[..i] + [term] + d[i + 1..];
    assert TermsOf(e) <= TermsOf(d) + {term};
    RawScoreMonotone(d, norm, e, norm, terms, idf, k1);
  }

  lemma FactorTimes(b: real, ratio: real, average: real, length: real)
    requires ratio * average == length
    ensures (1.0 - b + b * ratio) * average == (1.0 - b) * average + b * length
  {
    assert (b * ratio) * average == b * (ratio * average);
  }

  /** A document of average length has norm `k1`, one without words less of it by the share `b`; between, the norm is linear. */
  lemma NormIsLinear(p: Parameters, length: nat, average: real)
    requires average > 0.0
    ensures length as real == average ==> LengthNorm(p, length, average) == p.k1
    ensures length == 0 ==> LengthNorm(p, length, average) == p.k1 * (1.0 - p.b)
    ensures LengthNorm(p, length, average) * average == p.k1 * ((1.0 - p.b) * average + p.b * length as real)
  {
    var ratio := length as real / average;
    QuotientTimes(length as real, average);
    FactorTimes(p.b, ratio, average, length as real);
    var factor := 1.0 - p.b + p.b * ratio;
    assert (p.k1 * factor) * average == p.k1 * (factor * average);
    if length as real == average {
      SelfQuotient(average);
    }
  }

  /** A term that occurs as often as the norm says earns half of what it can. */
  lemma HalfSaturation(idf: real, freq: nat, k1: real)
    requires freq > 0
    ensures 2.0 * TermScore(idf, freq, freq as real, k1) == (k1 + 1.0) * idf
  {
    var f, most := freq as real, (k1 + 1.0) * idf;
    TermScoreIs(idf, freq, f, k1, most);
    QuotientTimes(f, f + f);
    assert Saturation(freq, f) * (2.0 * f) == f;
    PositiveFactor(Saturation(freq, f) - 0.5, 2.0 * f);
    PositiveFactor(0.5 - Saturation(freq, f), 2.0 * f);
    assert Saturation(freq, f) == 0.5;
  }

  /** Longer documents have the larger norm. */
  lemma LengthNormMonotone(p: Parameters, x: nat, y: nat, average: real)
    requires p.Valid() && average > 0.0 && x <= y
    ensures 0.0 < LengthNorm(p, x, average) <= LengthNorm(p, y, average)
  {
    LengthNormPositive(p, x, average);
    var u, v := x as real / average, y as real / average;
    QuotientAtMost(x as real, average, y as real, average);
    NonNegativeProduct(p.b, v - u);
    assert p.b * v - p.b * u == p.b * (v - u);
    PartsInOrder(p.k1, 1.0 - p.b + p.b * u, 1.0 - p.b + p.b * v);
  }

  // ----- All documents -----

  function Maximum(s: seq<real>): real
    requires s != []
  {
    if |s| == 1 then s[0]
    else if Maximum(s[..|s| - 1]) < s[|s| - 1] then s[|s| - 1]
    else Maximum(s[..|s| - 1])
  }

  lemma {:induction false} MaximumIs(s: seq<real>) returns (best: nat)
    requires s != []
    ensures best < |s| && s[best] == Maximum(s)
    ensures forall i :: 0 <= i < |s| ==> s[i] <= Maximum(s)
  {
    best := |s| - 1;
    if |s| > 1 {
      var before := MaximumIs(s[..|s| - 1]);
      assert forall i :: 0 <= i < |s| - 1 ==> s[i] == s[..|s| - 1][i];
      if Maximum(s[..|s| - 1]) >= s[|s| - 1] {
        best := before;
      }
    }
  }

  function RawScores(p: Parameters, docs: seq<Doc>, terms: seq<string>, idf: map<string, real>): seq<real>
    requires AverageLength(docs) != 0.0
  {
    seq(|docs|, i requires 0 <= i < |docs| =>
      RawScore(docs[i], terms, idf, LengthNorm(p, |docs[i]|, AverageLength(docs)), p.k1))
  }

  /** Divided by the best score, unless every score is zero. */
  function ByMaximum(raw: seq<real>): seq<real>
    requires raw != []
  {
    var maximum := if Maximum(raw) == 0.0 then 1.0 else Maximum(raw);
    seq(|raw|, i requires 0 <= i < |raw| => raw[i] / maximum)
  }

  function Zeros(n: nat): seq<real> {
    seq(n, _ => 0.0)
  }

  datatype ScoreError = DivisionByZero

  /** Scoring document `i` divides by zero. */
  predicate ZeroAt(p: Parameters, docs: seq<Doc>, terms: seq<string>, idf: map<string, real>, i: nat)
    requires i < |docs| && AverageLength(docs) != 0.0
  {
    ZeroDenominator(docs[i], terms, idf, LengthNorm(p, |docs[i]|, AverageLength(docs)))
  }

  predicate SomeZeroDenominator(p: Parameters, docs: seq<Doc>, terms: seq<string>, idf: map<string, real>)
    requires AverageLength(docs) != 0.0
  {
    exists i :: 0 <= i < |docs| && ZeroAt(p, docs, terms, idf, i)
  }

  /** What `score` returns, or raises, for a fitted corpus and any parameters. */
  function Scored(p: Parameters, docs: seq<Doc>, idf: map<string, real>, terms: seq<string>)
    : Result<seq<real>, ScoreError>
  {
    if terms == [] || docs == [] then Ok(Zeros(|docs|))
    else if AverageLength(docs) == 0.0 || SomeZeroDenominator(p, docs, terms, idf) then Err(DivisionByZero)
    else Ok(ByMaximum(RawScores(p, docs, terms, idf)))
  }

  class BM25 {
    const p: Parameters
    var docs: seq<Doc>
    var idf: map<string, real>
    var average: real

    ghost predicate Fitted(log: RealFunction)
      reads this
    {
      average == AverageLength(docs) && IsIdf(docs, log, idf)
    }

    constructor (k1: real := 1.5, b: real := 0.75)
      ensures p == Parameters(k1, b) && docs == []
    {
      p := Parameters(k1, b);
      docs, idf, average := [], map[], 0.0;
    }

    /** Counts, for one more document, the terms it contains. */
    static method CountTerms(df0: map<string, nat>, doc: Doc) returns (df: map<string, nat>)
      ensures df.Keys == df0.Keys + TermsOf(doc)
      ensures forall t :: t in df ==> df[t] == (if t in df0 then df0[t] else 0) + (if t in doc then 1 else 0)
    {
      df := df0;
      var rest := TermsOf(doc);
      while rest != {}
        invariant rest <= TermsOf(doc)
        invariant df.Keys == df0.Keys + (TermsOf(doc) - rest)
        invariant forall t :: t in df ==>
          df[t] == (if t in df0 then df0[t] else 0) + (if t in TermsOf(doc) - rest then 1 else 0)
        decreases rest
      {
        var term :| term in rest;
        df := df[term := (if term in df then df[term] else 0) + 1];
        rest := rest - {term};
      }
    }

    method Fit(documents: seq<Doc>, log: RealFunction)
      modifies this
      ensures docs == documents && Fitted(log)
    {
      docs := documents;
      var total := 0;
      for i := 0 to |docs|
        invariant docs == documents && total == TotalLength(docs[..i])
      {
        assert docs[..i + 1][..i] == docs[..i];
        total := total + |docs[i]|;
      }
      assert docs[..|docs|] == docs;
      average := if docs == [] then 1.0 else total as real / |docs| as real;
      var df: map<string, nat> := map[];
      for i := 0 to |docs|
        invariant docs == documents && average == AverageLength(docs)
        invariant df.Keys == AllTerms(docs[..i])
        invariant forall t :: t in df ==> df[t] == DocFrequency(docs[..i], t)
      {
        assert docs[..i + 1][..i] == docs[..i];
        forall t | t !in df ensures DocFrequency(docs[..i], t) == 0 {
          UnknownTerm(docs[..i], t);
        }
        df := CountTerms(df, docs[i]);
      }
      var n := |docs|;
      idf := map term | term in df :: IdfOf(n, df[term], log);
    }

    /** The score of one document, or a division by zero. */
    method ScoreOne(doc: Doc, terms: seq<string>, norm: real) returns (r: Result<real, ScoreError>)
      ensures r.Err? <==> ZeroDenominator(doc, terms, idf, norm)
      ensures r.Ok? ==> r.value == RawScore(doc, terms, idf, norm, p.k1)
    {
      var total := 0.0;
      for k := 0 to |terms|
        invariant total == RawScore(doc, terms[..k], idf, norm, p.k1)
        invariant forall j :: 0 <= j < k ==>
          Weight(idf, terms[j]) == 0.0 || Frequency(doc, terms[j]) as real + norm != 0.0
      {
        assert terms[..k + 1][..k] == terms[..k];
        var weight := Weight(idf, terms[k]);
        if weight != 0.0 {
          var freq := Frequency(doc, terms[k]);
          if freq as real + norm == 0.0 {
            return Err(DivisionByZero);
          }
          total := total + TermScore(weight, freq, norm, p.k1);
        }
      }
      assert terms[..|terms|] == terms;
      r := Ok(total);
    }

    method Score(terms: seq<string>, ghost log: RealFunction) returns (r: Result<seq<real>, ScoreError>)
      requires Fitted(log)
      ensures r == Scored(p, docs, idf, terms)
    {
      if terms == [] || docs == [] {
        return Ok(Zeros(|docs|));
      }
      if average == 0.0 {
        return Err(DivisionByZero);
      }
      var results := [];
      for i := 0 to |docs|
        invariant |results| == i && forall j :: 0 <= j < i ==> results[j] == RawScores(p, docs, terms, idf)[j]
        invariant forall j :: 0 <= j < i ==> !ZeroAt(p, docs, terms, idf, j)
      {
        var score := ScoreOne(docs[i], terms, LengthNorm(p, |docs[i]|, average));
        if score.Err? {
          assert ZeroAt(p, docs, terms, idf, i);
          return Err(DivisionByZero);
        }
        results := results + [score.value];
      }
      assert results == RawScores(p, docs, terms, idf);
      r := Ok(ByMaximum(results));
    }
  }

  lemma {:induction false} UnknownTerm(docs: seq<Doc>, term: string)
    requires term !in AllTerms(docs)
    ensures DocFrequency(docs, term) == 0
  {
    if docs != [] {
      UnknownTerm(docs[..|docs| - 1], term);
    }
  }

  // ----- What the scores promise -----

  /** With positive `k1` and `b` below one, as by default, no term divides by zero. */
  lemma NoZeroDenominator(p: Parameters, docs: seq<Doc>, terms: seq<string>, idf: map<string, real>)
    requires p.Valid() && AverageLength(docs) > 0.0
    ensures !SomeZeroDenominator(p, docs, terms, idf)
  {
    forall i | 0 <= i < |docs| ensures !ZeroAt(p, docs, terms, idf, i) {
      LengthNormPositive(p, |docs[i]|, AverageLength(docs));
    }
  }

  /** The norm vanishes only without saturation, or for an empty document under full length normalisation. */
  lemma NormZeroIff(p: Parameters, length: nat, average: real)
    requires p.Ordinary() && average > 0.0
    ensures LengthNorm(p, length, average) >= 0.0
    ensures LengthNorm(p, length, average) == 0.0 <==> p.k1 == 0.0 || (p.b == 1.0 && length == 0)
  {
    var ratio := length as real / average;
    QuotientTimes(length as real, average);
    PositiveFactor(ratio, average);
    NonNegativeProduct(p.b, ratio);
    var factor := 1.0 - p.b + p.b * ratio;
    assert p.b == 1.0 ==> factor == ratio;
    NonNegativeProduct(p.k1, factor);
    if p.k1 > 0.0 {
      PositiveFactor(factor, p.k1);
    }
    assert LengthNorm(p, length, average) == p.k1 * factor;
  }

  /** Scoring the document divides by zero: a known term is not in it, and nothing else is added below the line. */
  ghost predicate Unscorable(p: Parameters, doc: Doc, terms: seq<string>, idf: map<string, real>) {
    && (p.k1 == 0.0 || (p.b == 1.0 && doc == []))
    && exists k :: 0 <= k < |terms| && terms[k] in idf && terms[k] !in doc
  }

  lemma ZeroIffUnscorable(
      p: Parameters, docs: seq<Doc>, log: RealFunction, idf: map<string, real>, terms: seq<string>, i: nat)
    requires p.Ordinary() && IsLog(log) && IsIdf(docs, log, idf) && AverageLength(docs) > 0.0 && i < |docs|
    ensures ZeroAt(p, docs, terms, idf, i) <==> Unscorable(p, docs[i], terms, idf)
  {
    var norm := LengthNorm(p, |docs[i]|, AverageLength(docs));
    NormZeroIff(p, |docs[i]|, AverageLength(docs));
    FittedWeights(docs, log, idf);
    forall k | 0 <= k < |terms|
      ensures Weight(idf, terms[k]) != 0.0 <==> terms[k] in idf
      ensures Frequency(docs[i], terms[k]) as real + norm == 0.0 <==> norm == 0.0 && terms[k] !in docs[i]
    {
      FrequencyPositive(docs[i], terms[k]);
    }
  }

  /**
   * When scoring divides by zero: for any parameters, as the terms' denominators say; for ordinary ones,
   * exactly when no candidate has a token or one cannot be scored.
   */
  lemma ScoreFailsIff(p: Parameters, docs: seq<Doc>, log: RealFunction, idf: map<string, real>, terms: seq<string>)
    requires IsLog(log) && IsIdf(docs, log, idf)
    ensures terms == [] || docs == [] ==> Scored(p, docs, idf, terms).Ok?
    ensures terms != [] && docs != [] ==>
      (Scored(p, docs, idf, terms).Err? <==>
         !SomeToken(docs) || (AverageLength(docs) != 0.0 && SomeZeroDenominator(p, docs, terms, idf)))
    ensures p.Ordinary() && terms != [] && docs != [] ==>
      (Scored(p, docs, idf, terms).Err? <==>
         !SomeToken(docs) || exists i :: 0 <= i < |docs| && Unscorable(p, docs[i], terms, idf))
  {
    if docs != [] {
      AverageLengthPositive(docs);
      if SomeToken(docs) && p.Ordinary() {
        forall i | 0 <= i < |docs| ensures ZeroAt(p, docs, terms, idf, i) <==> Unscorable(p, docs[i], terms, idf) {
          ZeroIffUnscorable(p, docs, log, idf, terms, i);
        }
      }
    }
  }

  /** With the default parameters: exactly when the query has a term, there are candidates, and none has a token. */
  lemma ScoreFailsWithoutTokens(p: Parameters, docs: seq<Doc>, idf: map<string, real>, terms: seq<string>)
    requires p.Valid()
    ensures Scored(p, docs, idf, terms).Err? <==> terms != [] && docs != [] && !SomeToken(docs)
  {
    if docs != [] {
      AverageLengthPositive(docs);
      if AverageLength(docs) > 0.0 {
        NoZeroDenominator(p, docs, terms, idf);
      }
    }
  }

  /** One candidate without a single token is enough. */
  lemma ScoreCanFail(p: Parameters)
    requires p.Valid()
    ensures Scored(p, [[]], map[], ["query"]) == Err(DivisionByZero)
  {
    ScoreFailsWithoutTokens(p, [[]], map[], ["query"]);
    assert !SomeToken([[]]);
  }

  ghost predicate Hit(doc: Doc, terms: seq<string>) {
    exists t :: t in terms && t in doc
  }

  lemma FittedWeights(docs: seq<Doc>, log: RealFunction, idf: map<string, real>)
    requires IsLog(log) && IsIdf(docs, log, idf)
    ensures PositiveWeights(idf)
    ensures forall i :: 0 <= i < |docs| ==> TermsOf(docs[i]) <= idf.Keys
  {
    forall t | t in idf ensures idf[t] > 0.0 {
      IdfPositive(docs, log, idf, t);
    }
    forall i, t | 0 <= i < |docs| && t in docs[i] ensures t in idf {
      AllTermsMembers(docs, t);
    }
  }

  lemma QuotientOfAtMost(x: real, m: real)
    requires m > 0.0 && 0.0 <= x <= m
    ensures 0.0 <= x / m <= 1.0
    ensures x / m == 1.0 <==> x == m
    ensures x / m > 0.0 <==> x > 0.0
  {
    assert x / m * m == x;
  }

  lemma RawScoresPositive(p: Parameters, docs: seq<Doc>, idf: map<string, real>, terms: seq<string>, i: nat)
    requires p.Valid() && AverageLength(docs) > 0.0 && i < |docs|
    requires PositiveWeights(idf) && TermsOf(docs[i]) <= idf.Keys
    ensures RawScores(p, docs, terms, idf)[i] >= 0.0
    ensures RawScores(p, docs, terms, idf)[i] > 0.0 <==> Hit(docs[i], terms)
  {
    LengthNormPositive(p, |docs[i]|, AverageLength(docs));
    RawScorePositive(docs[i], terms, idf, LengthNorm(p, |docs[i]|, AverageLength(docs)), p.k1);
  }

  lemma ByMaximumBounds(raw: seq<real>)
    requires raw != [] && forall i :: 0 <= i < |raw| ==> raw[i] >= 0.0
    ensures forall i :: 0 <= i < |raw| ==> 0.0 <= ByMaximum(raw)[i] <= 1.0
    ensures forall i :: 0 <= i < |raw| ==> (ByMaximum(raw)[i] > 0.0 <==> raw[i] > 0.0)
    ensures (exists i :: 0 <= i < |raw| && ByMaximum(raw)[i] == 1.0) <==> exists i :: 0 <= i < |raw| && raw[i] > 0.0
  {
    var m := if Maximum(raw) == 0.0 then 1.0 else Maximum(raw);
    var best := MaximumIs(raw);
    forall i | 0 <= i < |raw|
      ensures 0.0 <= ByMaximum(raw)[i] <= 1.0
      ensures ByMaximum(raw)[i] > 0.0 <==> raw[i] > 0.0
      ensures ByMaximum(raw)[i] == 1.0 <==> raw[i] == m
    {
      QuotientOfAtMost(raw[i], m);
    }
    if i :| 0 <= i < |raw| && raw[i] > 0.0 {
      assert ByMaximum(raw)[best] == 1.0;
    }
  }

  /** Dividing by the best score keeps the ratios of the scores. */
  lemma RatiosAreKept(raw: seq<real>, i: nat, j: nat)
    requires i < |raw| && j < |raw|
    ensures ByMaximum(raw)[i] * raw[j] == ByMaximum(raw)[j] * raw[i]
  {
    var m := if Maximum(raw) == 0.0 then 1.0 else Maximum(raw);
    CrossQuotients(raw[i], raw[j], m);
  }

  lemma CrossQuotients(x: real, y: real, m: real)
    requires m != 0.0
    ensures x / m * y == y / m * x
  {
    var p, q := x / m, y / m;
    assert p * m == x && q * m == y;
    assert p * (q * m) == q * (p * m);
  }

  /**
   * On a fitted corpus every score lies between 0 and 1, is positive exactly for the documents
   * that contain a query term, and reaches 1 exactly when there is such a document.
   */
  lemma ScoresAreNormalised(
      p: Parameters, docs: seq<Doc>, log: RealFunction, idf: map<string, real>, terms: seq<string>)
    requires p.Valid() && IsLog(log) && IsIdf(docs, log, idf)
    requires Scored(p, docs, idf, terms).Ok?
    ensures var s := Scored(p, docs, idf, terms).value;
      && |s| == |docs|
      && (forall i :: 0 <= i < |s| ==> 0.0 <= s[i] <= 1.0)
      && (forall i :: 0 <= i < |s| ==> (s[i] > 0.0 <==> Hit(docs[i], terms)))
      && ((exists i :: 0 <= i < |s| && s[i] == 1.0) <==> exists i :: 0 <= i < |docs| && Hit(docs[i], terms))
  {
    if terms != [] && docs != [] {
      AverageLengthPositive(docs);
      FittedWeights(docs, log, idf);
      var raw := RawScores(p, docs, terms, idf);
      forall i | 0 <= i < |raw| ensures raw[i] >= 0.0 && (raw[i] > 0.0 <==> Hit(docs[i], terms)) {
        RawScoresPositive(p, docs, idf, terms, i);
      }
      ByMaximumBounds(raw);
    }
  }

  lemma DivideKeepsOrder(x: real, y: real, m: real)
    requires m > 0.0 && x <= y
    ensures x / m <= y / m
    ensures x < y ==> x / m < y / m
  {
    QuotientAtMost(x, m, y, m);
  }

  /**
   * A document that is not longer and has every query term at least as often never scores less, and
   * scores more when it has some term more often.
   */
  lemma ScoresAreMonotone(
      p: Parameters, docs: seq<Doc>, log: RealFunction, idf: map<string, real>, terms: seq<string>, i: nat, j: nat)
    requires p.Valid() && IsLog(log) && IsIdf(docs, log, idf)
    requires Scored(p, docs, idf, terms).Ok? && i < |docs| && j < |docs| && |docs[j]| <= |docs[i]|
    requires AtLeastAsOften(docs[i], docs[j], terms)
    ensures var s := Scored(p, docs, idf, terms).value;
      && |s| == |docs| && s[i] <= s[j] && (SomeMoreOften(docs[i], docs[j], terms) ==> s[i] < s[j])
  {
    if terms != [] {
      AverageLengthPositive(docs);
      FittedWeights(docs, log, idf);
      var average, raw := AverageLength(docs), RawScores(p, docs, terms, idf);
      LengthNormMonotone(p, |docs[j]|, |docs[i]|, average);
      RawScoreMonotone(docs[i], LengthNorm(p, |docs[i]|, average), docs[j], LengthNorm(p, |docs[j]|, average),
                       terms, idf, p.k1);
      forall k | 0 <= k < |raw| ensures raw[k] >= 0.0 {
        RawScoresPositive(p, docs, idf, terms, k);
      }
      var best := MaximumIs(raw);
      DivideKeepsOrder(raw[i], raw[j], if Maximum(raw) == 0.0 then 1.0 else Maximum(raw));
    }
  }

  ghost predicate IsIncreasing(log: RealFunction) {
    forall x, y :: 0.0 < x < y ==> log(x) < log(y)
  }

  /** For an increasing logarithm, the fewer documents a term occurs in, the more it weighs. */
  lemma RarerTermsWeighMore(docs: seq<Doc>, log: RealFunction, idf: map<string, real>, rare: string, common: string)
    requires IsIncreasing(log) && IsIdf(docs, log, idf) && rare in idf && common in idf
    ensures |DocsWith(docs, rare)| < |DocsWith(docs, common)| <==> idf[rare] > idf[common]
  {
    DocFrequencyIsCount(docs, rare);
    DocFrequencyIsCount(docs, common);
    var n, r, c := |docs|, DocFrequency(docs, rare), DocFrequency(docs, common);
    DocFrequencyAtMost(docs, rare);
    DocFrequencyAtMost(docs, common);
    if r < c {
      IdfArgumentDecreases(n, r, c);
    } else if c < r {
      IdfArgumentDecreases(n, c, r);
    }
  }

  lemma IdfArgumentDecreases(n: nat, r: nat, c: nat)
    requires r < c <= n
    ensures 0.0 < (n as real - c as real + 0.5) / (c as real + 0.5) + 1.0
                < (n as real - r as real + 0.5) / (r as real + 0.5) + 1.0
  {
    var a, b, x, y := n as real - c as real + 0.5, c as real + 0.5, n as real - r as real + 0.5, r as real + 0.5;
    PositiveQuotient(a, b);
    CrossProducts(a, b, x, y);
    QuotientAtMost(a, b, x, y);
  }
}
