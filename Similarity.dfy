/** Lexical similarity (`calculate_similarity`): the Jaccard index of the two texts'
    lower-cased, whitespace-separated word sets after the stop words are removed. */
module Similarity {
  import opened Text

  const StopWords: set<string> :=
    {"the", "a", "an", "in", "on", "at", "to", "for", "of", "is", "are", "was", "were"}

  /** `set(text.lower().split()) - stop_words`. */
  function TokenSet(text: string): (r: set<string>)
    ensures r !! StopWords
  {
    (set w | w in Words(Lower(text))) - StopWords
  }

  /** `len(intersection) / len(union)` over two word sets, or 0.0 when either is empty. */
  function Jaccard(cw: set<string>, ew: set<string>): (r: real)
    ensures 0.0 <= r <= 1.0
    ensures cw == {} || ew == {} ==> r == 0.0
  {
    if cw == {} || ew == {} then 0.0
    else
      var inter, union := cw * ew, cw + ew;
      SubsetCard(inter, union);
      if union == {} then 0.0 else Ratio(|inter|, |union|)
  }

  function Ratio(n: nat, d: nat): (r: real)
    requires n <= d && d > 0
    ensures 0.0 <= r <= 1.0
    ensures r == 1.0 <==> n == d
    ensures r > 0.0 <==> n > 0
  {
    RatioFacts(n as real, d as real);
    (n as real) / (d as real)
  }

  lemma RatioFacts(n: real, d: real)
    requires 0.0 <= n <= d && d > 0.0
    ensures 0.0 <= n / d <= 1.0
    ensures n / d == 1.0 <==> n == d
    ensures n / d > 0.0 <==> n > 0.0
  {
    assert (n / d) * d == n;
  }

  /** `calculate_similarity(claim, evidence)`. */
  function CalculateSimilarity(claim: string, evidence: string): (r: real)
    ensures 0.0 <= r <= 1.0
    ensures TokenSet(claim) == {} || TokenSet(evidence) == {} ==> r == 0.0
  {
    Jaccard(TokenSet(claim), TokenSet(evidence))
  }

  lemma {:induction false} SubsetCard<T>(a: set<T>, b: set<T>)
    requires a <= b
    ensures |a| <= |b|
    ensures |a| == |b| ==> a == b
    decreases |b|
  {
    if b != {} {
      var x :| x in b;
      SubsetCard(a - {x}, b - {x});
      assert |b - {x}| == |b| - 1;
      if x in a {
        assert |a - {x}| == |a| - 1;
        assert a == (a - {x}) + {x} && b == (b - {x}) + {x};
      } else {
        assert a - {x} == a;
      }
    }
  }

  /** The index does not depend on which text is the claim. */
  lemma SimilaritySymmetric(a: string, b: string)
    ensures CalculateSimilarity(a, b) == CalculateSimilarity(b, a)
  {
    var ta, tb := TokenSet(a), TokenSet(b);
    assert ta * tb == tb * ta;
    assert ta + tb == tb + ta;
  }

  /** The index is 1 exactly when both texts have the same non-empty word set, and
      positive exactly when they share a word. */
  lemma SimilarityExtremes(a: string, b: string)
    ensures CalculateSimilarity(a, b) == 1.0 <==> TokenSet(a) == TokenSet(b) && TokenSet(a) != {}
    ensures CalculateSimilarity(a, b) > 0.0 <==> TokenSet(a) * TokenSet(b) != {}
  {
    JaccardExtremes(TokenSet(a), TokenSet(b));
  }

  lemma JaccardExtremes(ta: set<string>, tb: set<string>)
    ensures Jaccard(ta, tb) == 1.0 <==> ta == tb && ta != {}
    ensures Jaccard(ta, tb) > 0.0 <==> ta * tb != {}
  {
    if ta != {} && tb != {} {
      var inter, union := ta * tb, ta + tb;
      SubsetCard(inter, union);
      var x :| x in ta;
      assert x in union;
      if Jaccard(ta, tb) == 1.0 {
        assert |inter| == |union|;
        assert inter == union;
        assert ta <= union && tb <= union;
      }
      if ta == tb {
        assert inter == union;
      }
      if inter != {} {
        var y :| y in inter;
      }
    }
  }
}
