/** The dashboard's helpers over a verification result: the share of claims in the
    high-risk tier (`calculate_unsupported_ratio`) and the colour a score is drawn in
    (`get_score_color`). */
module Dashboard {
  import opened Scoring
  import opened Engine

  /** `result.risk_distribution.get('high', 0)`. */
  function HighCount(result: VerificationResult): nat {
    if High in result.riskDistribution then result.riskDistribution[High] else 0
  }

  /** `calculate_unsupported_ratio(result)`: the high-tier claims as a percentage of all
      claims, and 0 when there are no claims. */
  function UnsupportedRatio(result: VerificationResult): (r: real)
    ensures r >= 0.0
    ensures result.totalClaims == 0 ==> r == 0.0
    ensures HighCount(result) <= result.totalClaims ==> r <= 100.0
    ensures r == 0.0 <==> result.totalClaims == 0 || HighCount(result) == 0
    ensures r == 100.0 <==> result.totalClaims > 0 && HighCount(result) == result.totalClaims
  {
    var total := result.totalClaims;
    if total == 0 then 0.0
    else
      var h := HighCount(result);
      PercentFacts(h as real, total as real);
      (h as real) / (total as real) * 100.0
  }

  lemma PercentFacts(p: real, q: real)
    requires 0.0 <= p && 0.0 < q
    ensures p / q * 100.0 >= 0.0
    ensures p <= q ==> p / q * 100.0 <= 100.0
    ensures p / q * 100.0 == 0.0 <==> p == 0.0
    ensures p / q * 100.0 == 100.0 <==> p == q
  {
    assert (p / q) * q == p;
  }

  /** For a summary, the unsupported share is 0 exactly when no claim is in the high tier,
      and it and the evidence coverage together never exceed 100: a high-tier claim is
      flagged, never verified. */
  lemma UnsupportedOfSummary(answer: string, claims: seq<Claim>)
    ensures var r := Summarize(answer, claims);
      && 0.0 <= UnsupportedRatio(r) <= 100.0
      && (UnsupportedRatio(r) == 0.0 <==> forall i :: 0 <= i < |claims| ==> claims[i].riskLevel != High)
      && UnsupportedRatio(r) + r.evidenceCoverage <= 100.0
  {
    var r := Summarize(answer, claims);
    var tiers := RiskLevels(claims);
    SummarizeCounts(answer, claims);
    TierIsKey(High);
    var h := HighCount(r);
    assert h == multiset(tiers)[High];
    assert h <= r.flaggedClaims;
    assert h == 0 <==> High !in tiers;
    if |claims| > 0 {
      SharesAdd(h as real, r.verifiedClaims as real, |claims| as real);
    }
  }

  lemma SharesAdd(a: real, b: real, t: real)
    requires 0.0 <= a && 0.0 <= b && a + b <= t && 0.0 < t
    ensures a / t * 100.0 + b / t * 100.0 <= 100.0
  {
    assert a / t * 100.0 + b / t * 100.0 == (a + b) / t * 100.0;
    PercentFacts(a + b, t);
  }

  /** The same facts for what `verify_answer` returns. */
  lemma UnsupportedOfVerify(variant: Variant, corpus: seq<string>, answer: string)
    ensures var r := Verify(variant, corpus, answer);
      && 0.0 <= UnsupportedRatio(r) <= 100.0
      && (UnsupportedRatio(r) == 0.0 <==>
            forall i :: 0 <= i < |r.claims| ==> r.claims[i].riskLevel != High)
      && UnsupportedRatio(r) + r.evidenceCoverage <= 100.0
  {
    var r := Verify(variant, corpus, answer);
    VerifyIsSummary(variant, corpus, answer);
    UnsupportedOfSummary(answer, r.claims);
  }

  /** The colour of each tier: green, blue, orange, red. */
  function TierColor(t: Risk): (r: string)
    ensures |r| == 7 && r[0] == '#'
  {
    match t
    case Verified => "#4caf50"
    case Low => "#2196f3"
    case Medium => "#ff9800"
    case High => "#ff4444"
  }

  /** Distinct tiers are drawn in distinct colours. */
  lemma TierColorInjective(p: Risk, q: Risk)
    requires TierColor(p) == TierColor(q)
    ensures p == q
  {
    assert TierColor(p)[1] == TierColor(q)[1] && TierColor(p)[2] == TierColor(q)[2];
  }

  /** `get_score_color(score)`: the thresholds are those of the risk tiers, so a score is
      drawn in its tier's colour. */
  function ScoreColor(score: real): (r: string)
    ensures r == TierColor(RiskOf(score))
  {
    if score >= 70.0 then "#4caf50"
    else if score >= 50.0 then "#2196f3"
    else if score >= 30.0 then "#ff9800"
    else "#ff4444"
  }

  /** Every claim of a result is drawn in the colour of its own tier. */
  lemma ClaimColors(variant: Variant, corpus: seq<string>, answer: string)
    ensures var r := Verify(variant, corpus, answer);
      forall i :: 0 <= i < |r.claims| ==>
        ScoreColor(r.claims[i].confidenceScore) == TierColor(r.claims[i].riskLevel)
  {
    VerifyClaims(variant, corpus, answer);
  }
}
