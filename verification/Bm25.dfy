/** core/retrieval/bm25.py: the inverted index, and search over it with its two cost clamps,
    against scoring every document directly. Documents are token sequences; floats are reals;
    the logarithm is any function that is positive above 1. */
module Bm25 {
  import opened Bounds
  import opened Sorting
  import opened Wrappers

  type Term = string

  /** k1, b and the logarithm. */
  datatype Params = Params(k1: real, b: real, ln: real -> real)

  ghost predicate Lawful(p: Params) {
    p.k1 >= 0.0 && 0.0 <= p.b <= 1.0 && forall x :: x > 1.0 ==> p.ln(x) > 0.0
  }

  datatype Hit = Hit(id: nat, score: real)

  const HIGH_DF_RATIO := 0.9
  const HIGH_DF_MIN_N := 1000
  const MAX_WALKED_POSTINGS := 200000

  // ---------- the corpus, read directly ----------

  /** How often the term occurs in the document. */
  function Tf(doc: seq<Term>, t: Term): nat {
    if doc == [] then 0 else Tf(doc[..|doc| - 1], t) + if doc[|doc| - 1] == t then 1 else 0
  }

  /** In how many documents the term occurs. */
  function Df(corpus: seq<seq<Term>>, t: Term): nat {
    if corpus == [] then 0
    else Df(corpus[..|corpus| - 1], t) + if Tf(corpus[|corpus| - 1], t) > 0 then 1 else 0
  }

  function TotalLen(corpus: seq<seq<Term>>): nat {
    if corpus == [] then 0 else TotalLen(corpus[..|corpus| - 1]) + |corpus[|corpus| - 1]|
  }

  function AvgLen(corpus: seq<seq<Term>>): real {
    if corpus == [] then 0.0 else TotalLen(corpus) as real / |corpus| as real
  }

  /** The average length is divided by: a corpus must be empty or hold a token. */
  ghost predicate Indexable(corpus: seq<seq<Term>>) {
    corpus == [] || TotalLen(corpus) > 0
  }

  function Norm(p: Params, length: nat, avg: real): real
    requires avg > 0.0
  {
    1.0 - p.b + p.b * length as real / avg
  }

  function IdfOf(p: Params, n: nat, df: nat): real
  {
    if df == 0 then 0.0 else p.ln(1.0 + (n as real - df as real + 0.5) / (df as real + 0.5))
  }

  function Idf(corpus: seq<seq<Term>>, p: Params, t: Term): real {
    IdfOf(p, |corpus|, Df(corpus, t))
  }

  /** The term frequency part of a contribution. */
  function Weight(p: Params, tf: nat, norm: real): real
    requires tf > 0 && p.k1 >= 0.0 && norm > 0.0
  {
    Ratio(tf as real, p.k1, norm)
  }

  function Ratio(tf: real, k1: real, norm: real): real
    requires tf > 0.0 && k1 >= 0.0 && norm > 0.0
  {
    assert k1 * norm >= 0.0;
    tf * (k1 + 1.0) / (tf + k1 * norm)
  }

  lemma RatioBounds(tf: real, k1: real, norm: real)
    requires tf > 0.0 && k1 >= 0.0 && norm > 0.0
    ensures 0.0 < Ratio(tf, k1, norm) <= k1 + 1.0
  {
    var d := tf + k1 * norm;
    assert k1 * norm >= 0.0;
    var a := tf * (k1 + 1.0);
    assert a > 0.0;
    MulLe(k1 + 1.0, tf, d);
    Quotient(a, d, k1 + 1.0);
  }

  lemma MulLe(c: real, a: real, b: real)
    requires c >= 0.0 && a <= b
    ensures a * c <= b * c
  {
  }

  lemma Quotient(a: real, d: real, c: real)
    requires 0.0 < a <= d * c && d > 0.0
    ensures 0.0 < a / d <= c
  {
    var q := a / d;
    assert q * d == a;
    if q > c {
      MulLt(d, c, q);
    }
  }

  lemma MulLt(d: real, a: real, b: real)
    requires d > 0.0 && a < b
    ensures a * d < b * d && b * d == d * b
  {
  }

  lemma {:induction false} TfWithin(doc: seq<Term>, t: Term)
    ensures Tf(doc, t) <= |doc|
    ensures Tf(doc, t) > 0 <==> t in doc
    decreases |doc|
  {
    if doc != [] {
      TfWithin(doc[..|doc| - 1], t);
      assert doc == doc[..|doc| - 1] + [doc[|doc| - 1]];
    }
  }

  lemma {:induction false} LenWithin(corpus: seq<seq<Term>>, d: nat)
    requires d < |corpus|
    ensures |corpus[d]| <= TotalLen(corpus)
    decreases |corpus|
  {
    if d < |corpus| - 1 {
      LenWithin(corpus[..|corpus| - 1], d);
    }
  }

  lemma NormPositive(p: Params, length: nat, avg: real)
    requires 0.0 <= p.b <= 1.0 && length > 0 && avg > 0.0
    ensures Norm(p, length, avg) > 0.0
  {
    assert p.b * length as real >= 0.0;
    assert p.b * length as real / avg >= 0.0;
    if p.b == 1.0 {
      assert length as real / avg > 0.0;
    }
  }

  lemma AvgPositive(corpus: seq<seq<Term>>)
    requires TotalLen(corpus) > 0
    ensures AvgLen(corpus) > 0.0
  {
  }

  lemma DocNorm(corpus: seq<seq<Term>>, p: Params, t: Term, d: nat)
    requires Lawful(p) && d < |corpus| && Tf(corpus[d], t) > 0
    ensures AvgLen(corpus) > 0.0 && Norm(p, |corpus[d]|, AvgLen(corpus)) > 0.0
  {
    TfWithin(corpus[d], t);
    LenWithin(corpus, d);
    AvgPositive(corpus);
    NormPositive(p, |corpus[d]|, AvgLen(corpus));
  }

  lemma {:induction false} TfCounts(doc: seq<Term>, t: Term)
    ensures Tf(doc, t) == multiset(doc)[t]
    decreases |doc|
  {
    if doc != [] {
      TfCounts(doc[..|doc| - 1], t);
      assert doc == doc[..|doc| - 1] + [doc[|doc| - 1]];
    }
  }

  /** The documents in which the term occurs. */
  ghost function DocsWith(corpus: seq<seq<Term>>, t: Term): set<nat> {
    set d: nat | d < |corpus| && t in corpus[d]
  }

  lemma DocsWithStep(corpus: seq<seq<Term>>, t: Term)
    requires corpus != []
    ensures var n := |corpus| - 1;
            DocsWith(corpus, t) == DocsWith(corpus[..n], t) + if t in corpus[n] then {n} else {}
  {
  }

  lemma {:induction false} DfCountsDocs(corpus: seq<seq<Term>>, t: Term)
    ensures Df(corpus, t) == |DocsWith(corpus, t)|
    decreases |corpus|
  {
    hide Tf;
    if corpus != [] {
      var n := |corpus| - 1;
      DfCountsDocs(corpus[..n], t);
      TfWithin(corpus[n], t);
      DocsWithStep(corpus, t);
      assert n !in DocsWith(corpus[..n], t);
      hide DocsWith;
    } else {
      assert DocsWith(corpus, t) == {};
    }
  }

  lemma {:induction false} TotalLenAdds(a: seq<seq<Term>>, b: seq<seq<Term>>)
    ensures TotalLen(a + b) == TotalLen(a) + TotalLen(b)
    ensures |a| == 1 ==> TotalLen(a) == |a[0]|
    decreases |b|
  {
    if b == [] {
      assert a + b == a;
    } else {
      TotalLenAdds(a, b[..|b| - 1]);
      assert (a + b)[..|a + b| - 1] == a + b[..|b| - 1];
    }
  }

  // ---------- what makes a term weigh more ----------

  ghost predicate Increasing(ln: real -> real) {
    forall x, y :: 1.0 < x < y ==> ln(x) < ln(y)
  }

  lemma QuotientFalls(a: real, b: real, c: real, d: real)
    requires 0.0 < a <= c && 0.0 < d < b
    ensures a / b < c / d
  {
    var q, r := a / b, c / d;
    assert q * b == a && r * d == c;
    if q >= r {
      MulLe(d, r, q);
      assert q > 0.0;
      MulLt(q, d, b);
    }
  }

  /** The rarer of two terms of a corpus has the larger idf. */
  lemma RarerTermsWeighMore(corpus: seq<seq<Term>>, p: Params, t: Term, u: Term)
    requires Lawful(p) && Increasing(p.ln) && 0 < |DocsWith(corpus, t)| < |DocsWith(corpus, u)|
    ensures Idf(corpus, p, t) > Idf(corpus, p, u) > 0.0
  {
    hide Df;
    DfCountsDocs(corpus, t);
    DfCountsDocs(corpus, u);
    DfWithin(corpus, u);
    var n, few, many := |corpus| as real, Df(corpus, t) as real, Df(corpus, u) as real;
    LogArgument(n - many + 0.5, many + 0.5);
    QuotientFalls(n - many + 0.5, many + 0.5, n - few + 0.5, few + 0.5);
    IdfNotNegative(corpus, p, u);
  }

  lemma CrossLess(a: real, b: real, c: real, d: real)
    requires b > 0.0 && d > 0.0 && a * d < c * b
    ensures a / b < c / d
  {
    var q, r, bd := a / b, c / d, b * d;
    assert a * d == q * bd by {
      assert q * b == a;
      Swap(q, b, d);
    }
    assert c * b == r * bd by {
      assert r * d == c;
      Swap(r, d, b);
    }
    if q >= r {
      MulLe(bd, r, q);
    }
  }

  lemma Swap(q: real, b: real, d: real)
    ensures (q * b) * d == q * (b * d)
  {
  }

  lemma MulBoth(x: real, y: real, x': real, y': real)
    requires 0.0 < x <= x' && 0.0 < y <= y' && (x < x' || y < y')
    ensures 0.0 < x * y < x' * y'
  {
    assert 0.0 < x * y <= x' * y <= x' * y';
    if x < x' {
      MulLt(y, x, x');
    } else {
      MulLt(x', y, y');
    }
  }

  /** More occurrences weigh more, and a longer document makes them weigh less. */
  lemma WeightGrows(p: Params, tf: nat, tf': nat, norm: real, norm': real)
    requires p.k1 > 0.0 && 0 < tf <= tf' && 0.0 < norm' <= norm && (tf < tf' || norm' < norm)
    ensures Weight(p, tf, norm) < Weight(p, tf', norm')
  {
    var x, y, c := tf as real, tf' as real, p.k1 + 1.0;
    MulBoth(x, norm', y, norm);
    RatioCross(x, y, p.k1, norm, norm');
    assert p.k1 * norm > 0.0 && p.k1 * norm' > 0.0;
    CrossLess(x * c, x + p.k1 * norm, y * c, y + p.k1 * norm');
  }

  lemma RatioCross(x: real, y: real, k: real, norm: real, norm': real)
    requires x > 0.0 && y > 0.0 && k > 0.0 && x * norm' < y * norm
    ensures (x * (k + 1.0)) * (y + k * norm') < (y * (k + 1.0)) * (x + k * norm)
  {
    var c, u, v := k + 1.0, x * norm', y * norm;
    MulLt(k * c, u, v);
    assert (x * c) * (y + k * norm') == (x * y) * c + u * (k * c) by {
      Spread(x, c, y, k, norm');
    }
    assert (y * c) * (x + k * norm) == (x * y) * c + v * (k * c) by {
      Spread(y, c, x, k, norm);
      assert x * y == y * x;
    }
  }

  lemma Spread(x: real, c: real, y: real, k: real, n: real)
    ensures (x * c) * (y + k * n) == (x * y) * c + (x * n) * (k * c)
  {
  }

  lemma Cancel(b: real, x: real, y: real)
    requires x > 0.0 && x == y
    ensures b * y / x == b
  {
    var z := b * y;
    assert z == b * x;
    var q := z / x;
    assert q * x == z;
    assert (q - b) * x == 0.0;
  }

  /** A document of average length has norm 1. */
  lemma NormOfAverage(p: Params, length: nat, avg: real)
    requires avg > 0.0 && length as real == avg
    ensures Norm(p, length, avg) == 1.0
  {
    var b := p.b;
    Cancel(b, avg, length as real);
    assert 1.0 - b + b * length as real / avg == 1.0;
  }

  /** The norm grows with the length. */
  lemma NormGrows(p: Params, length: nat, length': nat, avg: real)
    requires avg > 0.0 && p.b > 0.0 && length < length'
    ensures Norm(p, length, avg) < Norm(p, length', avg)
  {
    MulLt(p.b, length as real, length' as real);
    assert p.b * length as real < p.b * length' as real;
    CrossLess(p.b * length as real, avg, p.b * length' as real, avg);
  }

  /** What a term adds to the score of a document. */
  function Contribution(corpus: seq<seq<Term>>, p: Params, t: Term, d: nat): real
    requires Lawful(p) && d < |corpus|
  {
    if Tf(corpus[d], t) == 0 then 0.0
    else
      DocNorm(corpus, p, t, d);
      Idf(corpus, p, t) * Weight(p, Tf(corpus[d], t), Norm(p, |corpus[d]|, AvgLen(corpus)))
  }

  /** The idf of a known term, from the number of documents that hold it. */
  lemma IdfLaw(corpus: seq<seq<Term>>, p: Params, t: Term) returns (x: real)
    requires |DocsWith(corpus, t)| > 0
    ensures Idf(corpus, p, t) == p.ln(x)
    ensures (x - 1.0) * (|DocsWith(corpus, t)| as real + 0.5)
            == |corpus| as real - |DocsWith(corpus, t)| as real + 0.5
  {
    hide Df, DocsWith;
    DfCountsDocs(corpus, t);
    var n, df := |corpus| as real, Df(corpus, t) as real;
    x := 1.0 + (n - df + 0.5) / (df + 0.5);
  }

  lemma WeightLaw(p: Params, tf: nat, norm: real)
    requires tf > 0 && p.k1 >= 0.0 && norm > 0.0
    ensures Weight(p, tf, norm) * (tf as real + p.k1 * norm) == tf as real * (p.k1 + 1.0)
  {
    assert p.k1 * norm >= 0.0;
    Divided(tf as real * (p.k1 + 1.0), tf as real + p.k1 * norm);
  }

  lemma Divided(a: real, d: real)
    requires d > 0.0
    ensures a / d * d == a
  {
  }

  lemma NormLaw(p: Params, length: nat, avg: real)
    requires avg > 0.0
    ensures (Norm(p, length, avg) - (1.0 - p.b)) * avg == p.b * length as real
  {
    Divided(p.b * length as real, avg);
  }

  lemma AvgLaw(corpus: seq<seq<Term>>)
    ensures AvgLen(corpus) * |corpus| as real == TotalLen(corpus) as real
  {
    if corpus != [] {
      Divided(TotalLen(corpus) as real, |corpus| as real);
    }
  }

  /** What a term adds to the score of a document that holds it: its idf times the weight of its
      occurrences there. */
  lemma ContributionLaw(corpus: seq<seq<Term>>, p: Params, t: Term, d: nat)
    requires Lawful(p) && d < |corpus| && t in corpus[d]
    ensures AvgLen(corpus) > 0.0 && Norm(p, |corpus[d]|, AvgLen(corpus)) > 0.0 && multiset(corpus[d])[t] > 0
    ensures Contribution(corpus, p, t, d)
            == Idf(corpus, p, t) * Weight(p, multiset(corpus[d])[t], Norm(p, |corpus[d]|, AvgLen(corpus)))
  {
    hide Tf, Norm, AvgLen, Weight, Idf, Contribution;
    TfCounts(corpus[d], t);
    TfWithin(corpus[d], t);
    ContributionIs(corpus, p, t, d);
  }

  /** The BM25 score of a document for a list of terms. */
  function Score(corpus: seq<seq<Term>>, p: Params, terms: seq<Term>, d: nat): real
    requires Lawful(p) && d < |corpus|
  {
    if terms == [] then 0.0
    else Score(corpus, p, terms[..|terms| - 1], d) + Contribution(corpus, p, terms[|terms| - 1], d)
  }

  ghost predicate Matches(doc: seq<Term>, terms: seq<Term>) {
    exists t :: t in terms && Tf(doc, t) > 0
  }

  lemma {:induction false} DfWithin(corpus: seq<seq<Term>>, t: Term)
    ensures Df(corpus, t) <= |corpus|
    decreases |corpus|
  {
    if corpus != [] {
      DfWithin(corpus[..|corpus| - 1], t);
    }
  }

  lemma {:induction false} DfCounts(corpus: seq<seq<Term>>, t: Term, d: nat)
    requires d < |corpus| && Tf(corpus[d], t) > 0
    ensures Df(corpus, t) > 0
    decreases |corpus|
  {
    if d < |corpus| - 1 {
      DfCounts(corpus[..|corpus| - 1], t, d);
    }
  }

  lemma IdfNotNegative(corpus: seq<seq<Term>>, p: Params, t: Term)
    requires Lawful(p)
    ensures Idf(corpus, p, t) >= 0.0
    ensures Df(corpus, t) > 0 ==> Idf(corpus, p, t) > 0.0
  {
    DfWithin(corpus, t);
    var n, df := |corpus| as real, Df(corpus, t) as real;
    LogArgument(n - df + 0.5, df + 0.5);
  }

  lemma LogArgument(a: real, b: real)
    requires a > 0.0 && b > 0.0
    ensures 1.0 + a / b > 1.0
  {
  }

  lemma MulBounds(a: real, x: real, c: real)
    requires a >= 0.0 && 0.0 < x <= c
    ensures 0.0 <= a * x <= c * a && (a > 0.0 ==> a * x > 0.0)
  {
  }

  /** A term adds something to exactly the documents it occurs in, and at most (k1 + 1) idf. */
  lemma ContributionBounds(corpus: seq<seq<Term>>, p: Params, t: Term, d: nat)
    requires Lawful(p) && d < |corpus|
    ensures 0.0 <= Contribution(corpus, p, t, d) <= (p.k1 + 1.0) * Idf(corpus, p, t)
    ensures Contribution(corpus, p, t, d) > 0.0 <==> Tf(corpus[d], t) > 0
  {
    hide Idf, Norm, AvgLen, Tf, Df, Ratio;
    IdfNotNegative(corpus, p, t);
    if Tf(corpus[d], t) > 0 {
      DocNorm(corpus, p, t, d);
      DfCounts(corpus, t, d);
      var norm := Norm(p, |corpus[d]|, AvgLen(corpus));
      RatioBounds(Tf(corpus[d], t) as real, p.k1, norm);
      MulBounds(Idf(corpus, p, t), Weight(p, Tf(corpus[d], t), norm), p.k1 + 1.0);
    } else {
      MulLe(Idf(corpus, p, t), 0.0, p.k1 + 1.0);
    }
  }

  lemma {:induction false} ScoreSign(corpus: seq<seq<Term>>, p: Params, terms: seq<Term>, d: nat)
    requires Lawful(p) && d < |corpus|
    ensures Score(corpus, p, terms, d) >= 0.0
    ensures Score(corpus, p, terms, d) > 0.0 <==> Matches(corpus[d], terms)
    decreases |terms|
  {
    hide Contribution;
    if terms != [] {
      var init, t := terms[..|terms| - 1], terms[|terms| - 1];
      ScoreSign(corpus, p, init, d);
      ContributionBounds(corpus, p, t, d);
      assert terms == init + [t];
      assert Matches(corpus[d], terms) <==> Matches(corpus[d], init) || Tf(corpus[d], t) > 0;
    }
  }

  // ---------- the two clamps ----------

  /** In a large corpus a term that occurs in more than nine tenths of the documents is skipped. */
  predicate TooCommon(n: nat, df: nat) {
    n >= HIGH_DF_MIN_N && df as real > n as real * HIGH_DF_RATIO
  }

  /** The terms that are scored: known, not too common, and, in order, within the budget. */
  function Kept(corpus: seq<seq<Term>>, terms: seq<Term>, walked: nat): seq<Term> {
    if terms == [] then []
    else
      var t, rest := terms[0], terms[1..];
      var df := Df(corpus, t);
      if df == 0 || TooCommon(|corpus|, df) then Kept(corpus, rest, walked)
      else if walked + df > MAX_WALKED_POSTINGS then []
      else [t] + Kept(corpus, rest, walked + df)
  }

  function Walked(corpus: seq<seq<Term>>, terms: seq<Term>): nat {
    if terms == [] then 0 else Df(corpus, terms[0]) + Walked(corpus, terms[1..])
  }

  function IdfSum(corpus: seq<seq<Term>>, p: Params, terms: seq<Term>): real {
    if terms == [] then 0.0 else Idf(corpus, p, terms[0]) + IdfSum(corpus, p, terms[1..])
  }

  lemma {:induction false} ScoreCons(corpus: seq<seq<Term>>, p: Params, t: Term, rest: seq<Term>, d: nat)
    requires Lawful(p) && d < |corpus|
    ensures Score(corpus, p, [t] + rest, d) == Contribution(corpus, p, t, d) + Score(corpus, p, rest, d)
    decreases |rest|
  {
    hide Contribution;
    if rest == [] {
      assert [t] + rest == [t] && [t][..0] == [];
    } else {
      var init := rest[..|rest| - 1];
      ScoreCons(corpus, p, t, init, d);
      assert ([t] + rest)[..|rest|] == [t] + init;
    }
  }

  lemma {:induction false} GapOfAll(corpus: seq<seq<Term>>, p: Params, terms: seq<Term>, d: nat)
    requires Lawful(p) && d < |corpus|
    ensures 0.0 <= Score(corpus, p, terms, d) <= (p.k1 + 1.0) * IdfSum(corpus, p, terms)
    decreases |terms|
  {
    hide Contribution, Idf;
    if terms != [] {
      var t, rest := terms[0], terms[1..];
      assert terms == [t] + rest;
      ScoreCons(corpus, p, t, rest, d);
      GapOfAll(corpus, p, rest, d);
      ContributionBounds(corpus, p, t, d);
      Distribute(p.k1 + 1.0, Idf(corpus, p, t), IdfSum(corpus, p, rest));
    }
  }

  lemma Distribute(c: real, a: real, b: real)
    ensures c * (a + b) == c * a + c * b
  {
  }

  /** The clamps never raise a score, and lower it by at most (k1 + 1) times the idf of the terms
      they drop. */
  lemma {:induction false} ClampGap(corpus: seq<seq<Term>>, p: Params, terms: seq<Term>, walked: nat, d: nat)
    requires Lawful(p) && d < |corpus|
    ensures var kept := Kept(corpus, terms, walked);
            0.0 <= Score(corpus, p, terms, d) - Score(corpus, p, kept, d)
                <= (p.k1 + 1.0) * (IdfSum(corpus, p, terms) - IdfSum(corpus, p, kept))
    decreases |terms|
  {
    hide Contribution, Idf, Df, TooCommon, Score;
    if terms == [] {
    } else {
      var t, rest := terms[0], terms[1..];
      var df := Df(corpus, t);
      assert terms == [t] + rest;
      ScoreCons(corpus, p, t, rest, d);
      ContributionBounds(corpus, p, t, d);
      if df == 0 || TooCommon(|corpus|, df) {
        ClampGap(corpus, p, rest, walked, d);
        var kept := Kept(corpus, rest, walked);
        Distribute(p.k1 + 1.0, Idf(corpus, p, t), IdfSum(corpus, p, rest) - IdfSum(corpus, p, kept));
      } else if walked + df > MAX_WALKED_POSTINGS {
        GapOfAll(corpus, p, terms, d);
        NoScore(corpus, p, d);
      } else {
        var kept := Kept(corpus, rest, walked + df);
        ClampGap(corpus, p, rest, walked + df, d);
        ScoreCons(corpus, p, t, kept, d);
        assert ([t] + kept)[1..] == kept;
      }
    }
  }

  lemma NoScore(corpus: seq<seq<Term>>, p: Params, d: nat)
    requires Lawful(p) && d < |corpus|
    ensures Score(corpus, p, [], d) == 0.0
  {
  }

  /** The postings walked for the kept terms stay within the budget. */
  lemma {:induction false} BudgetHolds(corpus: seq<seq<Term>>, terms: seq<Term>, walked: nat)
    requires walked <= MAX_WALKED_POSTINGS
    ensures walked + Walked(corpus, Kept(corpus, terms, walked)) <= MAX_WALKED_POSTINGS
    decreases |terms|
  {
    hide Df;
    if terms != [] {
      var t, rest := terms[0], terms[1..];
      var df := Df(corpus, t);
      if df == 0 || TooCommon(|corpus|, df) {
        BudgetHolds(corpus, rest, walked);
      } else if walked + df <= MAX_WALKED_POSTINGS {
        BudgetHolds(corpus, rest, walked + df);
        var kept := Kept(corpus, rest, walked + df);
        assert ([t] + kept)[1..] == kept;
      }
    }
  }

  /** A term that is scored if the budget allows: it occurs, and in a corpus of 1000 documents or
      more it occurs in at most nine tenths of them. */
  ghost predicate Scored(corpus: seq<seq<Term>>, t: Term) {
    && 0 < |DocsWith(corpus, t)|
    && (|corpus| < 1000 || 10 * |DocsWith(corpus, t)| <= 9 * |corpus|)
  }

  ghost function ScoredTerms(corpus: seq<seq<Term>>, terms: seq<Term>): seq<Term> {
    if terms == [] then []
    else
      var last := terms[|terms| - 1];
      ScoredTerms(corpus, terms[..|terms| - 1]) + if Scored(corpus, last) then [last] else []
  }

  lemma {:induction false} ScoredCons(corpus: seq<seq<Term>>, t: Term, rest: seq<Term>)
    ensures ScoredTerms(corpus, [t] + rest)
            == (if Scored(corpus, t) then [t] else []) + ScoredTerms(corpus, rest)
    decreases |rest|
  {
    hide Scored;
    if rest == [] {
      assert [t] + rest == [t] && [t][..0] == [];
    } else {
      var init := rest[..|rest| - 1];
      ScoredCons(corpus, t, init);
      assert ([t] + rest)[..|rest|] == [t] + init;
    }
  }

  lemma ScoredIff(corpus: seq<seq<Term>>, t: Term)
    ensures Scored(corpus, t) <==> Df(corpus, t) != 0 && !TooCommon(|corpus|, Df(corpus, t))
  {
    hide Df;
    DfCountsDocs(corpus, t);
  }

  /** The scored terms are those among the first m query terms, where m is as large as the budget of
      200000 postings allows. */
  lemma {:induction false} KeptIsPrefix(corpus: seq<seq<Term>>, terms: seq<Term>, walked: nat) returns (m: nat)
    requires walked <= 200000
    ensures m <= |terms| && Kept(corpus, terms, walked) == ScoredTerms(corpus, terms[..m])
    ensures walked + Walked(corpus, Kept(corpus, terms, walked)) <= 200000
    ensures m < |terms| ==>
              && Scored(corpus, terms[m])
              && walked + Walked(corpus, Kept(corpus, terms, walked)) + |DocsWith(corpus, terms[m])| > 200000
    decreases |terms|
  {
    hide Df, Scored, TooCommon, ScoredTerms;
    BudgetHolds(corpus, terms, walked);
    m := 0;
    assert terms[..0] == [] && ScoredTerms(corpus, []) == [] by {
      NoneScored(corpus);
    }
    if terms != [] {
      var t, rest := terms[0], terms[1..];
      var df := Df(corpus, t);
      ScoredIff(corpus, t);
      DfCountsDocs(corpus, t);
      if df == 0 || TooCommon(|corpus|, df) {
        var k := KeptIsPrefix(corpus, rest, walked);
        m := k + 1;
        assert terms[..m] == [t] + rest[..k];
        ScoredCons(corpus, t, rest[..k]);
      } else if walked + df <= MAX_WALKED_POSTINGS {
        var k := KeptIsPrefix(corpus, rest, walked + df);
        m := k + 1;
        assert terms[..m] == [t] + rest[..k];
        ScoredCons(corpus, t, rest[..k]);
        assert ([t] + Kept(corpus, rest, walked + df))[1..] == Kept(corpus, rest, walked + df);
      }
    }
  }

  lemma NoneScored(corpus: seq<seq<Term>>)
    ensures ScoredTerms(corpus, []) == []
  {
  }

  // ---------- ranking ----------

  /** Score every document directly, in document order, keeping those with a term. */
  function FullScan(corpus: seq<seq<Term>>, p: Params, terms: seq<Term>, n: nat): seq<Hit>
    requires Lawful(p) && n <= |corpus|
  {
    if n == 0 then []
    else
      var rest := FullScan(corpus, p, terms, n - 1);
      var score := Score(corpus, p, terms, n - 1);
      if score > 0.0 then rest + [Hit(n - 1, score)] else rest
  }

  /** The reference order: stable, by descending score only. */
  predicate ScoreAbove(a: Hit, b: Hit) {
    a.score > b.score
  }

  /** The order the program sorts by: descending score, then document number. */
  predicate HitBefore(a: Hit, b: Hit) {
    a.score > b.score || (a.score == b.score && a.id < b.id)
  }

  /** The ranking by direct scoring. */
  function Ranking(corpus: seq<seq<Term>>, p: Params, terms: seq<Term>): seq<Hit>
    requires Lawful(p)
  {
    SortBy(FullScan(corpus, p, terms, |corpus|), ScoreAbove)
  }

  /** `hits` are exactly the documents below n that contain a term, with their scores. */
  ghost predicate AllHits(corpus: seq<seq<Term>>, p: Params, terms: seq<Term>, n: nat, hits: seq<Hit>)
    requires Lawful(p) && n <= |corpus|
  {
    forall h :: h in hits <==> h.id < n && h.score == Score(corpus, p, terms, h.id) && h.score > 0.0
  }

  ghost predicate ById(hits: seq<Hit>) {
    forall i, j :: 0 <= i < j < |hits| ==> hits[i].id < hits[j].id
  }

  lemma {:induction false} FullScanHits(corpus: seq<seq<Term>>, p: Params, terms: seq<Term>, n: nat)
    requires Lawful(p) && n <= |corpus|
    ensures AllHits(corpus, p, terms, n, FullScan(corpus, p, terms, n)) && ById(FullScan(corpus, p, terms, n))
    decreases n
  {
    hide Score;
    if n > 0 {
      FullScanHits(corpus, p, terms, n - 1);
      var rest := FullScan(corpus, p, terms, n - 1);
      forall i | 0 <= i < |rest| ensures rest[i].id < n - 1 {
        assert rest[i] in rest;
      }
    }
  }

  lemma StrictTail(s: seq<Hit>)
    requires s != [] && StrictlySorted(s, HitBefore)
    ensures StrictlySorted(s[1..], HitBefore) && forall h :: h in s[1..] ==> h in s && HitBefore(s[0], h)
  {
  }

  lemma NewHead(x: Hit, s: seq<Hit>)
    requires s != [] && StrictlySorted(s, HitBefore) && !ScoreAbove(s[0], x) && forall h :: h in s ==> x.id < h.id
    ensures StrictlySorted([x] + s, HitBefore)
  {
    StrictTail(s);
    hide StrictlySorted;
    assert s == [s[0]] + s[1..];
    StrictCons(x, s, HitBefore);
  }

  lemma HeadStays(x: Hit, s: seq<Hit>)
    requires s != [] && StrictlySorted(s, HitBefore) && ScoreAbove(s[0], x)
    requires StrictlySorted(Insert(x, s[1..], ScoreAbove), HitBefore)
    ensures StrictlySorted([s[0]] + Insert(x, s[1..], ScoreAbove), HitBefore)
  {
    StrictTail(s);
    hide StrictlySorted, Insert;
    InsertElements(x, s[1..], ScoreAbove);
    SameMembers(Insert(x, s[1..], ScoreAbove), [x] + s[1..]);
    StrictCons(s[0], Insert(x, s[1..], ScoreAbove), HitBefore);
  }

  lemma {:induction false} InsertKeepsIds(x: Hit, s: seq<Hit>)
    requires StrictlySorted(s, HitBefore) && forall h :: h in s ==> x.id < h.id
    ensures StrictlySorted(Insert(x, s, ScoreAbove), HitBefore)
    decreases |s|
  {
    if s == [] {
    } else if ScoreAbove(s[0], x) {
      StrictTail(s);
      hide StrictlySorted, ScoreAbove, HitBefore;
      InsertKeepsIds(x, s[1..]);
      HeadStays(x, s);
    } else {
      hide StrictlySorted, ScoreAbove, HitBefore;
      NewHead(x, s);
    }
  }

  /** Sorting by score alone, stably and starting from document order, breaks ties by document
      number. */
  lemma {:induction false} StableSortBreaksTies(s: seq<Hit>)
    requires ById(s)
    ensures StrictlySorted(SortBy(s, ScoreAbove), HitBefore)
    decreases |s|
  {
    if s != [] {
      StableSortBreaksTies(s[1..]);
      SortElements(s[1..], ScoreAbove);
      SameMembers(SortBy(s[1..], ScoreAbove), s[1..]);
      forall h | h in SortBy(s[1..], ScoreAbove) ensures s[0].id < h.id {
        assert h in s[1..];
      }
      InsertKeepsIds(s[0], SortBy(s[1..], ScoreAbove));
    }
  }

  lemma HitOrder()
    ensures KeyLike(HitBefore)
  {
  }

  lemma SortedHitsAreStrict(s: seq<Hit>)
    requires Sorted(s, HitBefore) && NoDuplicates(s)
    ensures StrictlySorted(s, HitBefore)
  {
  }

  /** However the scored documents are enumerated, sorting them by score and document number gives
      the ranking by direct scoring. */
  lemma RankingCanonical(corpus: seq<seq<Term>>, p: Params, terms: seq<Term>, scored: seq<Hit>)
    requires Lawful(p) && AllHits(corpus, p, terms, |corpus|, scored)
    requires NoDuplicates(scored)
    ensures SortBy(scored, HitBefore) == Ranking(corpus, p, terms)
  {
    hide Score, SortBy, FullScan;
    var scan := FullScan(corpus, p, terms, |corpus|);
    FullScanHits(corpus, p, terms, |corpus|);
    StableSortBreaksTies(scan);
    SortElements(scan, ScoreAbove);
    SameMembers(SortBy(scan, ScoreAbove), scan);
    HitOrder();
    SortSorts(scored, HitBefore);
    SortElements(scored, HitBefore);
    SameMembers(SortBy(scored, HitBefore), scored);
    SortKeepsDistinct(scored, HitBefore);
    SortedHitsAreStrict(SortBy(scored, HitBefore));
    StrictUnique(SortBy(scored, HitBefore), SortBy(scan, ScoreAbove), HitBefore);
  }

  /** The documents that contain one of the terms. */
  ghost function Matching(corpus: seq<seq<Term>>, terms: seq<Term>, n: nat): set<nat>
    requires n <= |corpus|
  {
    set d: nat | d < n && Matches(corpus[d], terms)
  }

  lemma MatchingStep(corpus: seq<seq<Term>>, terms: seq<Term>, n: nat)
    requires n < |corpus|
    ensures n !in Matching(corpus, terms, n)
    ensures Matching(corpus, terms, n + 1)
            == Matching(corpus, terms, n) + if Matches(corpus[n], terms) then {n} else {}
  {
    hide Matches;
  }

  lemma {:induction false} ScanCounts(corpus: seq<seq<Term>>, p: Params, terms: seq<Term>, n: nat)
    requires Lawful(p) && n <= |corpus|
    ensures |FullScan(corpus, p, terms, n)| == |Matching(corpus, terms, n)|
    decreases n
  {
    hide Score, Matches;
    if n > 0 {
      hide Matching;
      ScanCounts(corpus, p, terms, n - 1);
      ScoreSign(corpus, p, terms, n - 1);
      MatchingStep(corpus, terms, n - 1);
    } else {
      assert Matching(corpus, terms, n) == {};
    }
  }

  /** `hits` are the topK best of the documents that contain a term, or all of them if there are
      fewer: by falling score, and by document number where scores are equal. */
  ghost predicate AreBest(corpus: seq<seq<Term>>, p: Params, terms: seq<Term>, topK: nat, hits: seq<Hit>)
    requires Lawful(p)
  {
    && |hits| == Min(topK, |Matching(corpus, terms, |corpus|)|)
    && (forall h :: h in hits ==> h.id in Matching(corpus, terms, |corpus|)
                                  && h.score == Score(corpus, p, terms, h.id))
    && (forall i, j :: 0 <= i < j < |hits| ==>
          hits[i].score > hits[j].score || (hits[i].score == hits[j].score && hits[i].id < hits[j].id))
    && (forall d, i ::
          d in Matching(corpus, terms, |corpus|) && 0 <= i < |hits| && (forall h :: h in hits ==> h.id != d)
          ==> hits[i].score > Score(corpus, p, terms, d)
              || (hits[i].score == Score(corpus, p, terms, d) && hits[i].id < d))
  }

  /** A document that is left out is ranked behind those that are returned. */
  lemma LeftOutIsBehind(hits: seq<Hit>, topK: nat, h: Hit, i: nat)
    requires StrictlySorted(hits, HitBefore) && h in hits && i < |Take(hits, topK)|
    requires forall x :: x in Take(hits, topK) ==> x.id != h.id
    ensures HitBefore(hits[i], h)
  {
    var taken := Take(hits, topK);
    assert forall m :: 0 <= m < |taken| ==> hits[m] == taken[m] && taken[m] in taken;
    var k :| 0 <= k < |hits| && hits[k] == h;
  }

  lemma TakenHits(hits: seq<Hit>, topK: nat)
    ensures |Take(hits, topK)| == Min(topK, |hits|)
    ensures forall i :: 0 <= i < |Take(hits, topK)| ==> Take(hits, topK)[i] == hits[i]
    ensures forall h :: h in Take(hits, topK) ==> h in hits
  {
  }

  lemma RankingIsBest(corpus: seq<seq<Term>>, p: Params, terms: seq<Term>, topK: nat)
    requires Lawful(p)
    ensures AreBest(corpus, p, terms, topK, Take(Ranking(corpus, p, terms), topK))
  {
    hide Score, SortBy, FullScan, Take, Matches;
    var scan, all := FullScan(corpus, p, terms, |corpus|), Ranking(corpus, p, terms);
    var hits := Take(all, topK);
    FullScanHits(corpus, p, terms, |corpus|);
    ScanCounts(corpus, p, terms, |corpus|);
    StableSortBreaksTies(scan);
    SortElements(scan, ScoreAbove);
    SameMembers(all, scan);
    TakenHits(all, topK);
    forall h | h in hits ensures h.id in Matching(corpus, terms, |corpus|) && h.score == Score(corpus, p, terms, h.id) {
      assert h in scan;
      ScoreSign(corpus, p, terms, h.id);
    }
    forall d, i | d in Matching(corpus, terms, |corpus|) && 0 <= i < |hits| && forall h :: h in hits ==> h.id != d
      ensures hits[i].score > Score(corpus, p, terms, d)
              || (hits[i].score == Score(corpus, p, terms, d) && hits[i].id < d)
    {
      ScoreSign(corpus, p, terms, d);
      var h := Hit(d, Score(corpus, p, terms, d));
      assert h in scan;
      LeftOutIsBehind(all, topK, h, i);
    }
  }

  // ---------- query terms ----------

  /** sorted(set(tokens)) */
  ghost predicate SortedSet(terms: seq<Term>, tokens: seq<Term>) {
    StrictlySorted(terms, LexLess) && forall t :: t in terms <==> t in tokens
  }

  /** The query terms depend on nothing but the set of the query's tokens: not on their order, and
      not on the order in which a set is enumerated. */
  lemma QueryTermsUnique(terms: seq<Term>, tokens: seq<Term>, terms': seq<Term>, tokens': seq<Term>)
    requires SortedSet(terms, tokens) && SortedSet(terms', tokens') && forall t :: t in tokens <==> t in tokens'
    ensures terms == terms'
  {
    hide LexLess;
    LexKeyLike();
    StrictUnique(terms, terms', LexLess);
  }

  /** The query terms: the distinct tokens in order. */
  ghost function SortedTerms(tokens: seq<Term>): seq<Term> {
    SortBy(Dedup(tokens), LexLess)
  }

  lemma SortedDistinct(items: seq<Term>, tokens: seq<Term>)
    requires NoDuplicates(items) && forall t :: t in items <==> t in tokens
    ensures SortedSet(SortBy(items, LexLess), tokens)
  {
    hide LexLess, SortBy;
    var terms := SortBy(items, LexLess);
    LexKeyLike();
    SortSorts(items, LexLess);
    SortKeepsDistinct(items, LexLess);
    SortElements(items, LexLess);
    SameMembers(terms, items);
    forall i, j | 0 <= i < j < |terms| ensures LexLess(terms[i], terms[j]) {
      LexTotal(terms[i], terms[j]);
    }
  }

  /** sorted(set(tokens)): the set is enumerated in any order. */
  method QueryTerms(tokens: seq<Term>) returns (terms: seq<Term>)
    ensures terms == SortedTerms(tokens) && SortedSet(terms, tokens)
  {
    hide LexLess, SortBy, SortedSet, Dedup;
    var rest := set t | t in tokens;
    var items: seq<Term> := [];
    while rest != {}
      invariant NoDuplicates(items)
      invariant forall t :: t in tokens <==> t in items || t in rest
      invariant forall t :: t in items ==> t !in rest
      decreases rest
    {
      var t :| t in rest;
      rest := rest - {t};
      items := items + [t];
    }
    terms := SortBy(items, LexLess);
    SortedDistinct(items, tokens);
    DedupMembers(tokens);
    SortedDistinct(Dedup(tokens), tokens);
    QueryTermsUnique(terms, tokens, SortedTerms(tokens), tokens);
  }

  // ---------- the inverted index ----------

  /** A posting list: document numbers and term frequencies, side by side. */
  datatype Posting = Posting(ids: seq<nat>, tfs: seq<nat>)

  function PostingOf(corpus: seq<seq<Term>>, t: Term): Posting {
    if corpus == [] then Posting([], [])
    else
      var n := |corpus| - 1;
      var r, tf := PostingOf(corpus[..n], t), Tf(corpus[n], t);
      if tf > 0 then Posting(r.ids + [n], r.tfs + [tf]) else r
  }

  /** A posting list has strictly increasing document numbers, the term frequency at each of them,
      an entry for every document that contains the term, and as many entries as df says. */
  ghost predicate PostingExact(corpus: seq<seq<Term>>, t: Term, r: Posting) {
    && |r.ids| == |r.tfs| == Df(corpus, t)
    && (forall i, j :: 0 <= i < j < |r.ids| ==> r.ids[i] < r.ids[j])
    && (forall j :: 0 <= j < |r.ids| ==> r.ids[j] < |corpus| && r.tfs[j] == Tf(corpus[r.ids[j]], t) > 0)
    && (forall d :: 0 <= d < |corpus| && Tf(corpus[d], t) > 0 ==> d in r.ids)
  }

  /** The entry of the last document, if it contains the term, keeps the list in order and exact. */
  lemma PostingShape(corpus: seq<seq<Term>>, t: Term, q: Posting)
    requires corpus != [] && PostingExact(corpus[..|corpus| - 1], t, q) && Tf(corpus[|corpus| - 1], t) > 0
    ensures var n := |corpus| - 1;
            var ids, tfs := q.ids + [n], q.tfs + [Tf(corpus[n], t)];
            && |ids| == |tfs| == Df(corpus, t)
            && (forall i, j :: 0 <= i < j < |ids| ==> ids[i] < ids[j])
            && (forall j :: 0 <= j < |ids| ==> ids[j] < |corpus| && tfs[j] == Tf(corpus[ids[j]], t) > 0)
  {
    hide Tf;
    var n := |corpus| - 1;
    assert forall d :: 0 <= d < n ==> corpus[..n][d] == corpus[d];
  }

  lemma PostingComplete(corpus: seq<seq<Term>>, t: Term, q: Posting, ids: seq<nat>)
    requires corpus != [] && PostingExact(corpus[..|corpus| - 1], t, q)
    requires ids == if Tf(corpus[|corpus| - 1], t) > 0 then q.ids + [|corpus| - 1] else q.ids
    ensures forall d :: 0 <= d < |corpus| && Tf(corpus[d], t) > 0 ==> d in ids
  {
    hide Tf, Df;
    var n := |corpus| - 1;
    forall d | 0 <= d < |corpus| && Tf(corpus[d], t) > 0 ensures d in ids {
      if d < n {
        assert corpus[..n][d] == corpus[d];
        assert d in q.ids;
      }
    }
  }

  lemma PostingSame(corpus: seq<seq<Term>>, t: Term, q: Posting)
    requires corpus != [] && PostingExact(corpus[..|corpus| - 1], t, q) && Tf(corpus[|corpus| - 1], t) == 0
    ensures PostingExact(corpus, t, q)
  {
    hide Tf;
    var n := |corpus| - 1;
    assert forall d :: 0 <= d < n ==> corpus[..n][d] == corpus[d];
    PostingComplete(corpus, t, q, q.ids);
  }

  lemma PostingStep(corpus: seq<seq<Term>>, t: Term, q: Posting)
    requires corpus != [] && PostingExact(corpus[..|corpus| - 1], t, q)
    ensures var n := |corpus| - 1;
            var tf := Tf(corpus[n], t);
            PostingExact(corpus, t, if tf > 0 then Posting(q.ids + [n], q.tfs + [tf]) else q)
  {
    hide Tf, Df;
    var n := |corpus| - 1;
    if Tf(corpus[n], t) > 0 {
      PostingShape(corpus, t, q);
      PostingComplete(corpus, t, q, q.ids + [n]);
    } else {
      PostingSame(corpus, t, q);
    }
  }

  lemma {:induction false} PostingIsExact(corpus: seq<seq<Term>>, t: Term)
    ensures PostingExact(corpus, t, PostingOf(corpus, t))
    decreases |corpus|
  {
    hide Tf;
    if corpus != [] {
      hide PostingExact;
      PostingIsExact(corpus[..|corpus| - 1], t);
      PostingStep(corpus, t, PostingOf(corpus[..|corpus| - 1], t));
    }
  }

  /** df and postings agree about a term with the given corpus. */
  ghost predicate EntryOk(corpus: seq<seq<Term>>, t: Term, df: map<Term, nat>, postings: map<Term, Posting>) {
    && (t in df <==> Df(corpus, t) > 0)
    && (t in postings <==> Df(corpus, t) > 0)
    && (t in df ==> df[t] == Df(corpus, t))
    && (t in postings ==> postings[t] == PostingOf(corpus, t))
  }

  ghost predicate IndexOk(corpus: seq<seq<Term>>, df: map<Term, nat>, postings: map<Term, Posting>) {
    forall t :: EntryOk(corpus, t, df, postings)
  }

  /** The term frequencies of one document. */
  method CountTerms(tokens: seq<Term>) returns (tf: map<Term, nat>)
    ensures forall t :: (t in tf <==> Tf(tokens, t) > 0) && (t in tf ==> tf[t] == Tf(tokens, t))
  {
    tf := map[];
    for i := 0 to |tokens|
      invariant forall t :: (t in tf <==> Tf(tokens[..i], t) > 0) && (t in tf ==> tf[t] == Tf(tokens[..i], t))
    {
      var term := tokens[i];
      assert tokens[..i + 1][..i] == tokens[..i];
      tf := tf[term := (if term in tf then tf[term] else 0) + 1];
    }
    assert tokens[..|tokens|] == tokens;
  }

  /** Part of document n is indexed: its terms in `done` are, the others are not yet. */
  ghost predicate PartlyIndexed(corpus: seq<seq<Term>>, done: set<Term>, df: map<Term, nat>,
                                postings: map<Term, Posting>)
    requires corpus != []
  {
    forall t :: EntryOk(if t in done then corpus else corpus[..|corpus| - 1], t, df, postings)
  }

  /** One document more: its number and frequencies go to the end of the lists of its terms. */
  method IndexDocument(corpus: seq<seq<Term>>, df: map<Term, nat>, postings: map<Term, Posting>)
    returns (df': map<Term, nat>, postings': map<Term, Posting>)
    requires corpus != [] && IndexOk(corpus[..|corpus| - 1], df, postings)
    ensures IndexOk(corpus, df', postings')
  {
    hide Tf, IndexOk;
    var docId := |corpus| - 1;
    var tf := CountTerms(corpus[docId]);
    df', postings' := df, postings;
    var rest := tf.Keys;
    NothingIndexedYet(corpus, df, postings);
    assert tf.Keys - rest == {};
    while rest != {}
      invariant rest <= tf.Keys
      invariant PartlyIndexed(corpus, tf.Keys - rest, df', postings')
      decreases rest
    {
      var term :| term in rest;
      var freq := tf[term];
      ghost var done := tf.Keys - rest;
      assert EntryOk(corpus[..docId], term, df', postings');
      ghost var df0, postings0 := df', postings';
      df' := df'[term := (if term in df' then df'[term] else 0) + 1];
      var entry := if term in postings' then postings'[term] else Posting([], []);
      postings' := postings'[term := Posting(entry.ids + [docId], entry.tfs + [freq])];
      rest := rest - {term};
      AbsentTerm(corpus[..docId], term);
      assert tf.Keys - rest == done + {term};
      assert EntryOk(corpus, term, df', postings');
      OneMoreTerm(corpus, done, term, tf.Keys - rest, df0, postings0, df', postings');
    }
    assert tf.Keys - rest == tf.Keys;
    AllIndexed(corpus, tf.Keys, df', postings');
  }

  lemma OneMoreTerm(corpus: seq<seq<Term>>, done: set<Term>, term: Term, done': set<Term>,
                    df0: map<Term, nat>, postings0: map<Term, Posting>,
                    df: map<Term, nat>, postings: map<Term, Posting>)
    requires corpus != [] && PartlyIndexed(corpus, done, df0, postings0) && done' == done + {term}
    requires EntryOk(corpus, term, df, postings)
    requires forall t :: t != term ==> (t in df <==> t in df0) && (t in df ==> df[t] == df0[t])
    requires forall t :: t != term ==> (t in postings <==> t in postings0)
                                         && (t in postings ==> postings[t] == postings0[t])
    ensures PartlyIndexed(corpus, done', df, postings)
  {
    hide Df, PostingOf;
    forall t ensures EntryOk(if t in done' then corpus else corpus[..|corpus| - 1], t, df, postings) {
      assert EntryOk(if t in done then corpus else corpus[..|corpus| - 1], t, df0, postings0);
    }
  }

  lemma NothingIndexedYet(corpus: seq<seq<Term>>, df: map<Term, nat>, postings: map<Term, Posting>)
    requires corpus != [] && IndexOk(corpus[..|corpus| - 1], df, postings)
    ensures PartlyIndexed(corpus, {}, df, postings)
  {
  }

  lemma AbsentTerm(corpus: seq<seq<Term>>, t: Term)
    ensures Df(corpus, t) == 0 ==> PostingOf(corpus, t) == Posting([], [])
  {
    PostingIsExact(corpus, t);
  }

  lemma AllIndexed(corpus: seq<seq<Term>>, terms: set<Term>, df: map<Term, nat>, postings: map<Term, Posting>)
    requires corpus != [] && PartlyIndexed(corpus, terms, df, postings)
    requires forall t :: t in terms <==> Tf(corpus[|corpus| - 1], t) > 0
    ensures IndexOk(corpus, df, postings)
  {
    hide Tf;
    forall t ensures EntryOk(corpus, t, df, postings) {
      assert EntryOk(if t in terms then corpus else corpus[..|corpus| - 1], t, df, postings);
    }
  }

  /** The length normalisation of every document: a division by the average length. */
  method Norms(lens: seq<nat>, p: Params, avg: real) returns (r: Result<seq<real>, string>)
    requires avg >= 0.0
    ensures r.Failure? <==> lens != [] && avg == 0.0
    ensures r.Success? ==> |r.value| == |lens|
    ensures r.Success? && lens != [] ==>
              avg > 0.0 && forall d :: 0 <= d < |lens| ==> r.value[d] == Norm(p, lens[d], avg)
  {
    var norms: seq<real> := [];
    for d := 0 to |lens|
      invariant |norms| == d && (d > 0 ==> avg > 0.0)
      invariant avg > 0.0 ==> forall i :: 0 <= i < d ==> norms[i] == Norm(p, lens[i], avg)
    {
      if avg == 0.0 {
        return Failure("ZeroDivisionError");
      }
      norms := norms + [1.0 - p.b + p.b * lens[d] as real / avg];
    }
    return Success(norms);
  }

  class BM25Retriever {
    const p: Params
    const n: nat
    const docLen: seq<nat>
    const df: map<Term, nat>
    const postings: map<Term, Posting>
    const avgLen: real
    const norm: seq<real>

    ghost predicate Valid(corpus: seq<seq<Term>>) {
      && Lawful(p) && n == |corpus| == |docLen| == |norm|
      && (forall d :: 0 <= d < n ==> docLen[d] == |corpus[d]|)
      && IndexOk(corpus, df, postings)
      && avgLen == AvgLen(corpus)
      && (n > 0 ==> avgLen > 0.0)
      && (n > 0 ==> forall d :: 0 <= d < n ==> norm[d] == Norm(p, |corpus[d]|, avgLen))
    }

    constructor (ghost corpus: seq<seq<Term>>, p: Params, lens: seq<nat>, df: map<Term, nat>,
                 postings: map<Term, Posting>, avg: real, norms: seq<real>)
      requires Lawful(p) && |corpus| == |lens| == |norms| && IndexOk(corpus, df, postings) && avg == AvgLen(corpus)
      requires forall d :: 0 <= d < |corpus| ==> lens[d] == |corpus[d]|
      requires |corpus| > 0 ==> avg > 0.0 && forall d :: 0 <= d < |corpus| ==> norms[d] == Norm(p, |corpus[d]|, avg)
      ensures Valid(corpus) && this.p == p
    {
      hide IndexOk, Norm, AvgLen, Lawful;
      this.p, n, docLen, this.df, this.postings, avgLen, norm := p, |lens|, lens, df, postings, avg, norms;
    }

    function IdfOfTerm(t: Term): real {
      IdfOf(p, n, if t in df then df[t] else 0)
    }

    /** Adds one term's contributions along its posting list. */
    method AddTerm(ghost corpus: seq<seq<Term>>, scores: map<nat, real>, t: Term, ghost kept: seq<Term>)
      returns (scores': map<nat, real>)
      requires Valid(corpus) && t in postings && Scores(corpus, p, kept, scores)
      ensures Scores(corpus, p, kept + [t], scores')
    {
      hide Tf, Df, PostingOf, Score, Contribution, Weight, Norm;
      scores' := scores;
      assert EntryOk(corpus, t, df, postings);
      PostingIsExact(corpus, t);
      var idf := IdfOfTerm(t);
      var r := postings[t];
      for i := 0 to |r.ids|
        invariant Partly(corpus, p, kept, t, r.ids[..i], scores')
      {
        var docId, tf := r.ids[i], r.tfs[i];
        ContributionIs(corpus, p, t, docId);
        var part := idf * Weight(p, tf, norm[docId]);
        assert part == Contribution(corpus, p, t, docId);
        ghost var before := scores';
        scores' := scores'[docId := (if docId in scores' then scores'[docId] else 0.0) + part];
        Accumulate(corpus, p, kept, t, r.ids, i, before, scores');
      }
      assert r.ids[..|r.ids|] == r.ids;
      TermDone(corpus, p, kept, t, r.ids, scores');
    }

    /** search: the first topK of the ranking by direct scoring over the kept terms, which is the
        ranking over all terms when nothing is clamped. */
    method Search(ghost corpus: seq<seq<Term>>, tokens: seq<Term>, topK: nat) returns (hits: seq<Hit>)
      requires Valid(corpus)
      ensures hits == Take(Ranking(corpus, p, Kept(corpus, SortedTerms(tokens), 0)), topK)
      ensures AreBest(corpus, p, Kept(corpus, SortedTerms(tokens), 0), topK, hits)
      ensures Unclamped(corpus, SortedTerms(tokens)) ==> hits == Take(Ranking(corpus, p, SortedTerms(tokens)), topK)
    {
      hide Tf, Df, PostingOf, Score, Contribution, Kept, SortBy, FullScan, SortedSet, SortedTerms, Ranking, Unclamped,
           AreBest, Weight, Norm;
      var queryTerms := QueryTerms(tokens);
      if Unclamped(corpus, queryTerms) {
        IndexRefinesFullScan(corpus, p, queryTerms);
      }
      if queryTerms == [] || n == 0 {
        NoTermsNoHits(corpus, p, queryTerms, topK);
        return [];
      }
      var scores: map<nat, real>, walked: nat := map[], 0;
      ghost var kept: seq<Term> := [];
      NoScores(corpus, p);
      var i := 0;
      assert queryTerms[0..] == queryTerms;
      while i < |queryTerms|
        invariant 0 <= i <= |queryTerms|
        invariant Scores(corpus, p, kept, scores)
        invariant kept + Kept(corpus, queryTerms[i..], walked) == Kept(corpus, queryTerms, 0)
      {
        var term := queryTerms[i];
        assert EntryOk(corpus, term, df, postings);
        KeptStep(corpus, queryTerms, i, walked);
        i := i + 1;
        if term !in postings {
          continue;
        }
        var d := if term in df then df[term] else 0;
        if n >= HIGH_DF_MIN_N && d as real > n as real * HIGH_DF_RATIO {
          continue;
        }
        PostingIsExact(corpus, term);
        walked := walked + |postings[term].ids|;
        if walked > MAX_WALKED_POSTINGS {
          assert kept == Kept(corpus, queryTerms, 0);
          break;
        }
        scores := AddTerm(corpus, scores, term, kept);
        Regroup(kept, term, Kept(corpus, queryTerms[i..], walked));
        kept := kept + [term];
      }
      if i == |queryTerms| {
        KeptEnd(corpus, queryTerms, walked);
      }
      assert kept == Kept(corpus, queryTerms, 0);
      hits := Rank(corpus, p, kept, scores, topK);
    }
  }

  /** BM25Retriever.__init__: builds the posting lists document by document, then the norms. Building
      fails, by a division by zero, exactly for documents none of which has a token. */
  method NewRetriever(corpus: seq<seq<Term>>, p: Params) returns (r: Result<BM25Retriever, string>)
    requires Lawful(p)
    ensures r.Failure? <==> corpus != [] && forall d :: 0 <= d < |corpus| ==> corpus[d] == []
    ensures r.Success? ==> r.value.Valid(corpus) && r.value.p == p
  {
    hide IndexOk, Tf, Norm, Lawful;
    var lens: seq<nat>, dfs: map<Term, nat>, lists: map<Term, Posting>, total: nat := [], map[], map[], 0;
    EmptyIndex(corpus);
    for d := 0 to |corpus|
      invariant |lens| == d && forall i :: 0 <= i < d ==> lens[i] == |corpus[i]|
      invariant total == TotalLen(corpus[..d])
      invariant IndexOk(corpus[..d], dfs, lists)
    {
      assert corpus[..d + 1][..d] == corpus[..d];
      lens := lens + [|corpus[d]|];
      total := total + |corpus[d]|;
      dfs, lists := IndexDocument(corpus[..d + 1], dfs, lists);
    }
    assert corpus[..|corpus|] == corpus;
    var avg := if |corpus| > 0 then total as real / |corpus| as real else 0.0;
    NoTokens(corpus);
    AverageOf(corpus);
    var norms := Norms(lens, p, avg);
    if norms.Failure? {
      return Failure(norms.error);
    }
    var retriever := new BM25Retriever(corpus, p, lens, dfs, lists, avg, norms.value);
    return Success(retriever);
  }

  lemma AverageOf(corpus: seq<seq<Term>>)
    ensures AvgLen(corpus) >= 0.0 && (corpus != [] ==> (AvgLen(corpus) == 0.0 <==> TotalLen(corpus) == 0))
  {
  }

  lemma {:induction false} NoTokens(corpus: seq<seq<Term>>)
    ensures TotalLen(corpus) == 0 <==> forall d :: 0 <= d < |corpus| ==> corpus[d] == []
    decreases |corpus|
  {
    if corpus != [] {
      var init := corpus[..|corpus| - 1];
      NoTokens(init);
      assert forall d :: 0 <= d < |init| ==> init[d] == corpus[d];
    }
  }

  /** The scores gathered for the given terms: one for each document that contains a term. */
  ghost predicate Scores(corpus: seq<seq<Term>>, p: Params, terms: seq<Term>, scores: map<nat, real>)
    requires Lawful(p)
  {
    && (forall d :: d in scores ==> d < |corpus|)
    && (forall d :: 0 <= d < |corpus| ==> ScoreIs(corpus, p, terms, d, scores))
  }

  ghost predicate ScoreIs(corpus: seq<seq<Term>>, p: Params, terms: seq<Term>, d: nat, scores: map<nat, real>)
    requires Lawful(p) && d < |corpus|
  {
    && (d in scores <==> Score(corpus, p, terms, d) > 0.0)
    && (d in scores ==> scores[d] == Score(corpus, p, terms, d))
  }

  ghost function TermsFor(kept: seq<Term>, t: Term, ids: seq<nat>, d: nat): seq<Term> {
    if d in ids then kept + [t] else kept
  }

  /** Half-way through the posting list of t: the documents in `ids` have got their part. */
  ghost predicate Partly(corpus: seq<seq<Term>>, p: Params, kept: seq<Term>, t: Term, ids: seq<nat>,
                         scores: map<nat, real>)
    requires Lawful(p)
  {
    && (forall d :: d in scores ==> d < |corpus|)
    && (forall d :: 0 <= d < |corpus| ==> ScoreIs(corpus, p, TermsFor(kept, t, ids, d), d, scores))
  }

  lemma ContributionIs(corpus: seq<seq<Term>>, p: Params, t: Term, d: nat)
    requires Lawful(p) && d < |corpus| && Tf(corpus[d], t) > 0
    ensures AvgLen(corpus) > 0.0 && Norm(p, |corpus[d]|, AvgLen(corpus)) > 0.0
    ensures Contribution(corpus, p, t, d)
            == Idf(corpus, p, t) * Weight(p, Tf(corpus[d], t), Norm(p, |corpus[d]|, AvgLen(corpus)))
  {
    hide Norm, AvgLen, Tf, Idf, Weight;
    DocNorm(corpus, p, t, d);
  }

  lemma EmptyIndex(corpus: seq<seq<Term>>)
    ensures IndexOk(corpus[..0], map[], map[]) && TotalLen(corpus[..0]) == 0
  {
  }

  lemma ScoreSnoc(corpus: seq<seq<Term>>, p: Params, kept: seq<Term>, t: Term, d: nat)
    requires Lawful(p) && d < |corpus|
    ensures Score(corpus, p, kept + [t], d) == Score(corpus, p, kept, d) + Contribution(corpus, p, t, d)
  {
    hide Contribution;
    assert (kept + [t])[..|kept|] == kept;
  }

  /** One posting: the document's score grows by the term's contribution. */
  lemma Accumulate(corpus: seq<seq<Term>>, p: Params, kept: seq<Term>, t: Term, ids: seq<nat>, i: nat,
                   before: map<nat, real>, after: map<nat, real>)
    requires Lawful(p) && i < |ids| && ids[i] < |corpus| && Tf(corpus[ids[i]], t) > 0
    requires forall a, b :: 0 <= a < b < |ids| ==> ids[a] < ids[b]
    requires Partly(corpus, p, kept, t, ids[..i], before)
    requires after == before[ids[i] := (if ids[i] in before then before[ids[i]] else 0.0)
                                        + Contribution(corpus, p, t, ids[i])]
    ensures Partly(corpus, p, kept, t, ids[..i + 1], after)
  {
    hide Score, Contribution, Tf;
    var x := ids[i];
    ScoreSnoc(corpus, p, kept, t, x);
    ScoreSign(corpus, p, kept, x);
    ContributionBounds(corpus, p, t, x);
    assert x !in ids[..i];
    var upTo := ids[..i + 1];
    assert upTo == ids[..i] + [x];
    forall d | 0 <= d < |corpus|
      ensures ScoreIs(corpus, p, TermsFor(kept, t, upTo, d), d, after)
    {
      assert ScoreIs(corpus, p, TermsFor(kept, t, ids[..i], d), d, before);
    }
  }

  lemma TermDone(corpus: seq<seq<Term>>, p: Params, kept: seq<Term>, t: Term, ids: seq<nat>, scores: map<nat, real>)
    requires Lawful(p) && Partly(corpus, p, kept, t, ids, scores)
    requires forall d :: 0 <= d < |corpus| && Tf(corpus[d], t) > 0 ==> d in ids
    ensures Scores(corpus, p, kept + [t], scores)
  {
    hide Score, Contribution, Tf;
    forall d | 0 <= d < |corpus| ensures ScoreIs(corpus, p, kept + [t], d, scores) {
      assert ScoreIs(corpus, p, TermsFor(kept, t, ids, d), d, scores);
      ScoreSnoc(corpus, p, kept, t, d);
      ContributionBounds(corpus, p, t, d);
    }
  }

  lemma NoScores(corpus: seq<seq<Term>>, p: Params)
    requires Lawful(p)
    ensures Scores(corpus, p, [], map[])
  {
  }

  lemma NoTermsNoHits(corpus: seq<seq<Term>>, p: Params, terms: seq<Term>, topK: nat)
    requires Lawful(p) && (terms == [] || corpus == [])
    ensures Ranking(corpus, p, Kept(corpus, terms, 0)) == []
    ensures AreBest(corpus, p, Kept(corpus, terms, 0), topK, [])
  {
    hide AreBest;
    ScanNothing(corpus, p, |corpus|);
    RankingIsBest(corpus, p, Kept(corpus, terms, 0), topK);
  }

  lemma {:induction false} ScanNothing(corpus: seq<seq<Term>>, p: Params, n: nat)
    requires Lawful(p) && n <= |corpus|
    ensures FullScan(corpus, p, [], n) == []
    decreases n
  {
    if n > 0 {
      ScanNothing(corpus, p, n - 1);
    }
  }

  lemma Regroup(kept: seq<Term>, t: Term, rest: seq<Term>)
    ensures (kept + [t]) + rest == kept + ([t] + rest)
  {
  }

  lemma KeptEnd(corpus: seq<seq<Term>>, terms: seq<Term>, walked: nat)
    ensures Kept(corpus, terms[|terms|..], walked) == []
  {
  }

  lemma KeptStep(corpus: seq<seq<Term>>, terms: seq<Term>, i: nat, walked: nat)
    requires i < |terms|
    ensures var t, df := terms[i], Df(corpus, terms[i]);
            Kept(corpus, terms[i..], walked)
            == if df == 0 || TooCommon(|corpus|, df) then Kept(corpus, terms[i + 1..], walked)
               else if walked + df > MAX_WALKED_POSTINGS then []
               else [t] + Kept(corpus, terms[i + 1..], walked + df)
  {
    hide Df;
    assert terms[i..][0] == terms[i] && terms[i..][1..] == terms[i + 1..];
  }

  /** The final list comprehension, sort and truncation. */
  method Rank(ghost corpus: seq<seq<Term>>, ghost p: Params, ghost terms: seq<Term>, scores: map<nat, real>, topK: nat)
    returns (hits: seq<Hit>)
    requires Lawful(p) && Scores(corpus, p, terms, scores)
    ensures hits == Take(Ranking(corpus, p, terms), topK) && AreBest(corpus, p, terms, topK, hits)
  {
    hide Score, SortBy, FullScan, AreBest;
    RankingIsBest(corpus, p, terms, topK);
    var scored: seq<Hit> := [];
    var rest := scores.Keys;
    while rest != {}
      invariant rest <= scores.Keys && NoDuplicates(scored)
      invariant forall h :: h in scored <==> h.id in scores && h.id !in rest && h.score == scores[h.id]
      decreases rest
    {
      var d :| d in rest;
      rest := rest - {d};
      scored := scored + [Hit(d, scores[d])];
    }
    forall h: Hit
      ensures h in scored <==> h.id < |corpus| && h.score == Score(corpus, p, terms, h.id) && h.score > 0.0
    {
      if h.id < |corpus| {
        assert ScoreIs(corpus, p, terms, h.id, scores);
      }
    }
    RankingCanonical(corpus, p, terms, scored);
    hits := Take(SortBy(scored, HitBefore), topK);
  }

  // ---------- what a search returns ----------

  /** No query term is skipped and the budget is not hit. */
  ghost predicate Unclamped(corpus: seq<seq<Term>>, terms: seq<Term>) {
    && (forall t :: t in terms ==> !TooCommon(|corpus|, Df(corpus, t)))
    && Walked(corpus, terms) <= MAX_WALKED_POSTINGS
  }

  lemma {:induction false} KeptUnclamped(corpus: seq<seq<Term>>, p: Params, terms: seq<Term>, walked: nat, d: nat)
    requires Lawful(p) && d < |corpus| && walked + Walked(corpus, terms) <= MAX_WALKED_POSTINGS
    requires forall t :: t in terms ==> !TooCommon(|corpus|, Df(corpus, t))
    ensures Score(corpus, p, Kept(corpus, terms, walked), d) == Score(corpus, p, terms, d)
    decreases |terms|
  {
    hide Contribution, Df, TooCommon, Score;
    if terms != [] {
      var t, rest := terms[0], terms[1..];
      assert terms == [t] + rest && t in terms;
      ScoreCons(corpus, p, t, rest, d);
      KeptUnclamped(corpus, p, rest, walked + Df(corpus, t), d);
      if Df(corpus, t) == 0 {
        ContributionBounds(corpus, p, t, d);
        if Tf(corpus[d], t) > 0 {
          DfCounts(corpus, t, d);
        }
      } else {
        ScoreCons(corpus, p, t, Kept(corpus, rest, walked + Df(corpus, t)), d);
      }
    }
  }

  lemma {:induction false} ScanSame(corpus: seq<seq<Term>>, p: Params, a: seq<Term>, b: seq<Term>, n: nat)
    requires Lawful(p) && n <= |corpus|
    requires forall d :: 0 <= d < |corpus| ==> Score(corpus, p, a, d) == Score(corpus, p, b, d)
    ensures FullScan(corpus, p, a, n) == FullScan(corpus, p, b, n)
    decreases n
  {
    hide Score;
    if n > 0 {
      ScanSame(corpus, p, a, b, n - 1);
    }
  }

  /** The inverted index refines the full scan: without clamping, a search returns the same
      documents, scores and order as scoring every document directly. */
  lemma IndexRefinesFullScan(corpus: seq<seq<Term>>, p: Params, terms: seq<Term>)
    requires Lawful(p) && Unclamped(corpus, terms)
    ensures Ranking(corpus, p, Kept(corpus, terms, 0)) == Ranking(corpus, p, terms)
  {
    hide Score, Kept, Df, TooCommon, FullScan, SortBy;
    forall d | 0 <= d < |corpus|
      ensures Score(corpus, p, Kept(corpus, terms, 0), d) == Score(corpus, p, terms, d)
    {
      KeptUnclamped(corpus, p, terms, 0, d);
    }
    ScanSame(corpus, p, Kept(corpus, terms, 0), terms, |corpus|);
  }

  // ---------- the reference scan ----------

  lemma {:induction false} ScoreWithoutTerm(corpus: seq<seq<Term>>, p: Params, terms: seq<Term>, j: nat, d: nat)
    requires Lawful(p) && d < |corpus| && j < |terms|
    ensures Score(corpus, p, terms, d)
            == Score(corpus, p, terms[..j] + terms[j + 1..], d) + Contribution(corpus, p, terms[j], d)
    decreases |terms|
  {
    hide Contribution;
    var n := |terms| - 1;
    if j == n {
      assert terms[..j] + terms[j + 1..] == terms[..n];
    } else {
      ScoreWithoutTerm(corpus, p, terms[..n], j, d);
      assert terms[..n][..j] + terms[..n][j + 1..] + [terms[n]] == terms[..j] + terms[j + 1..];
      ScoreSnoc(corpus, p, terms[..n][..j] + terms[..n][j + 1..], terms[n], d);
    }
  }

  /** `own` enumerates the terms of a document that are in the query, each once. */
  ghost predicate Enumerates(own: seq<Term>, doc: seq<Term>, terms: seq<Term>) {
    NoDuplicates(own) && forall t :: t in own <==> t in terms && Tf(doc, t) > 0
  }

  lemma LastIsNew(terms: seq<Term>)
    requires terms != [] && NoDuplicates(terms)
    ensures forall t :: t in terms[..|terms| - 1] <==> t in terms && t != terms[|terms| - 1]
  {
    assert terms == terms[..|terms| - 1] + [terms[|terms| - 1]];
  }

  lemma OwnWithout(own: seq<Term>, doc: seq<Term>, terms: seq<Term>, j: nat)
    requires terms != [] && NoDuplicates(terms) && j < |own| && own[j] == terms[|terms| - 1]
    requires Enumerates(own, doc, terms)
    ensures Enumerates(own[..j] + own[j + 1..], doc, terms[..|terms| - 1])
  {
    hide Tf, NoDuplicates;
    RemoveDistinct(own, j);
    LastIsNew(terms);
    var rest, init := own[..j] + own[j + 1..], terms[..|terms| - 1];
    forall t ensures t in rest <==> t in init && Tf(doc, t) > 0 {
      assert t in rest <==> t in own && t != own[j];
      assert t in own <==> t in terms && Tf(doc, t) > 0;
      assert t in init <==> t in terms && t != terms[|terms| - 1];
    }
  }

  /** A document's score does not depend on the order in which the query terms are summed, nor on the
      terms it does not contain. */
  lemma {:induction false} ScoreOfOwnTerms(corpus: seq<seq<Term>>, p: Params, terms: seq<Term>, own: seq<Term>, d: nat)
    requires Lawful(p) && d < |corpus| && NoDuplicates(terms) && Enumerates(own, corpus[d], terms)
    ensures Score(corpus, p, own, d) == Score(corpus, p, terms, d)
    decreases |terms|
  {
    hide Contribution, Score, Tf;
    if terms == [] {
      assert own == [] by {
        if own != [] {
          HasMember(own);
        }
      }
    } else {
      var init, t := terms[..|terms| - 1], terms[|terms| - 1];
      assert terms == init + [t];
      ScoreSnoc(corpus, p, init, t, d);
      ContributionBounds(corpus, p, t, d);
      if Tf(corpus[d], t) > 0 {
        assert t in own;
        var j :| 0 <= j < |own| && own[j] == t;
        OwnWithout(own, corpus[d], terms, j);
        ScoreOfOwnTerms(corpus, p, init, own[..j] + own[j + 1..], d);
        ScoreWithoutTerm(corpus, p, own, j, d);
      } else {
        ZeroContribution(corpus, p, t, d);
        ScoreOfOwnTerms(corpus, p, init, own, d);
      }
    }
  }

  lemma ZeroContribution(corpus: seq<seq<Term>>, p: Params, t: Term, d: nat)
    requires Lawful(p) && d < |corpus| && Tf(corpus[d], t) == 0
    ensures Contribution(corpus, p, t, d) == 0.0
  {
  }

  /** The full scan as the tests write it: every document is scored over its own terms, in its own
      order, and kept if it has a query term at all. */
  ghost function ReferenceScan(corpus: seq<seq<Term>>, p: Params, own: nat -> seq<Term>, n: nat): seq<Hit>
    requires Lawful(p) && n <= |corpus|
  {
    if n == 0 then []
    else
      var rest := ReferenceScan(corpus, p, own, n - 1);
      if own(n - 1) == [] then rest else rest + [Hit(n - 1, Score(corpus, p, own(n - 1), n - 1))]
  }

  lemma {:induction false} ReferenceScans(corpus: seq<seq<Term>>, p: Params, terms: seq<Term>,
                                          own: nat -> seq<Term>, n: nat)
    requires Lawful(p) && NoDuplicates(terms) && n <= |corpus|
    requires forall d :: 0 <= d < |corpus| ==> Enumerates(own(d), corpus[d], terms)
    ensures ReferenceScan(corpus, p, own, n) == FullScan(corpus, p, terms, n)
    decreases n
  {
    hide Score, Tf;
    if n > 0 {
      var d := n - 1;
      ReferenceScans(corpus, p, terms, own, d);
      ScoreOfOwnTerms(corpus, p, terms, own(d), d);
      ScoreSign(corpus, p, own(d), d);
      if own(d) == [] {
        NoScore(corpus, p, d);
      } else {
        HasMember(own(d));
      }
    }
  }

  /** Without clamping, a search returns the same documents, scores and order as the reference scan,
      whatever order each document's terms come in. */
  lemma IndexRefinesReference(corpus: seq<seq<Term>>, p: Params, tokens: seq<Term>, own: nat -> seq<Term>)
    requires Lawful(p) && Unclamped(corpus, SortedTerms(tokens))
    requires forall d :: 0 <= d < |corpus| ==> Enumerates(own(d), corpus[d], tokens)
    ensures Ranking(corpus, p, Kept(corpus, SortedTerms(tokens), 0))
            == SortBy(ReferenceScan(corpus, p, own, |corpus|), ScoreAbove)
  {
    hide SortBy, FullScan, Kept, Unclamped, Tf, LexLess, Dedup;
    var terms := SortedTerms(tokens);
    DedupMembers(tokens);
    SortedDistinct(Dedup(tokens), tokens);
    SortKeepsDistinct(Dedup(tokens), LexLess);
    IndexRefinesFullScan(corpus, p, terms);
    ReferenceScans(corpus, p, terms, own, |corpus|);
  }

  // ---------- what clamping costs ----------

  /** The idf of the dropped terms bounds what clamping changes. */
  ghost function ClampBound(corpus: seq<seq<Term>>, p: Params, terms: seq<Term>): real {
    (p.k1 + 1.0) * (IdfSum(corpus, p, terms) - IdfSum(corpus, p, Kept(corpus, terms, 0)))
  }

  lemma ClampOne(corpus: seq<seq<Term>>, p: Params, terms: seq<Term>, d: nat)
    requires Lawful(p) && d < |corpus|
    ensures var score := Score(corpus, p, Kept(corpus, terms, 0), d);
            0.0 <= score <= Score(corpus, p, terms, d) <= score + ClampBound(corpus, p, terms)
  {
    hide Score, Kept, IdfSum;
    ClampGap(corpus, p, terms, 0, d);
    ScoreSign(corpus, p, Kept(corpus, terms, 0), d);
  }

  lemma NotRanked(corpus: seq<seq<Term>>, p: Params, terms: seq<Term>, scan: seq<Hit>, d: nat)
    requires Lawful(p) && d < |corpus| && AllHits(corpus, p, terms, |corpus|, scan)
    requires forall h :: h in scan ==> h.id != d
    ensures Score(corpus, p, terms, d) <= 0.0
  {
    hide Score;
    assert Hit(d, Score(corpus, p, terms, d)) !in scan;
  }

  /** With clamping: each returned score is positive, at most the full score, and short of it by at
      most the bound; a document that is not ranked has a full score within the bound; and the
      postings walked stay within the budget. */
  lemma ClampedSearch(corpus: seq<seq<Term>>, p: Params, terms: seq<Term>)
    requires Lawful(p)
    ensures forall h :: h in Ranking(corpus, p, Kept(corpus, terms, 0)) ==>
              && h.id < |corpus|
              && 0.0 < h.score <= Score(corpus, p, terms, h.id) <= h.score + ClampBound(corpus, p, terms)
    ensures forall d :: 0 <= d < |corpus| && (forall h :: h in Ranking(corpus, p, Kept(corpus, terms, 0)) ==> h.id != d)
              ==> Score(corpus, p, terms, d) <= ClampBound(corpus, p, terms)
    ensures Walked(corpus, Kept(corpus, terms, 0)) <= MAX_WALKED_POSTINGS
  {
    hide Score, Kept, ClampBound, FullScan, SortBy;
    var kept := Kept(corpus, terms, 0);
    BudgetHolds(corpus, terms, 0);
    var scan := FullScan(corpus, p, kept, |corpus|);
    FullScanHits(corpus, p, kept, |corpus|);
    SortElements(scan, ScoreAbove);
    SameMembers(Ranking(corpus, p, kept), scan);
    forall h | h in Ranking(corpus, p, kept)
      ensures h.id < |corpus|
      ensures 0.0 < h.score <= Score(corpus, p, terms, h.id) <= h.score + ClampBound(corpus, p, terms)
    {
      assert h in scan;
      ClampOne(corpus, p, terms, h.id);
    }
    forall d | 0 <= d < |corpus| && forall h :: h in Ranking(corpus, p, kept) ==> h.id != d
      ensures Score(corpus, p, terms, d) <= ClampBound(corpus, p, terms)
    {
      ClampOne(corpus, p, terms, d);
      forall h | h in scan ensures h.id != d {
        assert h in Ranking(corpus, p, kept);
      }
      NotRanked(corpus, p, kept, scan, d);
    }
  }
}
