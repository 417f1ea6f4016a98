/** Claim scoring (`calculate_claim_score`): a weighted blend of the best match, the
    number of sources (saturating at three) and the mean similarity, scaled to 0-100,
    and the four risk tiers the score falls into. */
module Scoring {
  import opened Retrieval

  /** The four `risk_level` strings. */
  datatype Risk = Verified | Low | Medium | High {
    function Name(): (r: string)
      ensures |r| >= 3
    {
      match this
      case Verified => "verified"
      case Low => "low"
      case Medium => "medium"
      case High => "high"
    }

    /** Higher is better supported. */
    function Rank(): (r: nat)
      ensures r <= 3
    {
      match this
      case Verified => 3
      case Low => 2
      case Medium => 1
      case High => 0
    }

    /** Counted in `verified_claims` rather than `flagged_claims`. */
    predicate Supported() {
      this == Verified || this == Low
    }
  }

  const VerifiedThreshold: real := 70.0
  const LowThreshold: real := 50.0
  const MediumThreshold: real := 30.0

  const BestWeight: real := 0.5
  const CountWeight: real := 0.3
  const MeanWeight: real := 0.2

  /** The tier a confidence score falls into: at least 70 verified, at least 50 low,
      at least 30 medium, anything below high. */
  function RiskOf(score: real): (r: Risk)
    ensures r == Verified <==> score >= VerifiedThreshold
    ensures r == Low <==> LowThreshold <= score < VerifiedThreshold
    ensures r == Medium <==> MediumThreshold <= score < LowThreshold
    ensures r == High <==> score < MediumThreshold
  {
    if score >= VerifiedThreshold then Verified
    else if score >= LowThreshold then Low
    else if score >= MediumThreshold then Medium
    else High
  }

  /** A higher score never lands in a worse tier. */
  lemma RiskMonotone(a: real, b: real)
    requires a <= b
    ensures RiskOf(a).Rank() <= RiskOf(b).Rank()
  {
  }

  /** A tier's name determines the tier. */
  lemma RiskNameInjective(p: Risk, q: Risk)
    requires p.Name() == q.Name()
    ensures p == q
  {
    assert p.Name()[0] == q.Name()[0];
  }

  predicate UnitSimilarities(evidence: seq<Scored>) {
    forall i :: 0 <= i < |evidence| ==> 0.0 <= evidence[i].similarity <= 1.0
  }

  function SumSimilarities(evidence: seq<Scored>): real
    decreases |evidence|
  {
    if evidence == [] then 0.0
    else SumSimilarities(evidence[..|evidence| - 1]) + evidence[|evidence| - 1].similarity
  }

  lemma {:induction false} SumBounds(evidence: seq<Scored>)
    requires UnitSimilarities(evidence)
    ensures 0.0 <= SumSimilarities(evidence) <= |evidence| as real
    decreases |evidence|
  {
    if evidence != [] {
      SumBounds(evidence[..|evidence| - 1]);
    }
  }

  lemma SumBoundsIfUnit(evidence: seq<Scored>)
    ensures UnitSimilarities(evidence) ==> 0.0 <= SumSimilarities(evidence) <= |evidence| as real
  {
    if UnitSimilarities(evidence) {
      SumBounds(evidence);
    }
  }

  /** `np.mean` of the similarities; they lie in [0, 1] so the mean does too. */
  function MeanSimilarity(evidence: seq<Scored>): (r: real)
    requires evidence != []
    ensures UnitSimilarities(evidence) ==> 0.0 <= r <= 1.0
  {
    SumBoundsIfUnit(evidence);
    SumSimilarities(evidence) / (|evidence| as real)
  }

  /** `min(len(evidence_list) / 3, 1.0)`. */
  function SourceCountFactor(n: nat): (r: real)
    ensures 0.0 <= r <= 1.0
    ensures r == 1.0 <==> n >= 3
    ensures n > 0 ==> r >= 1.0 / 3.0
  {
    if (n as real) / 3.0 < 1.0 then (n as real) / 3.0 else 1.0
  }

  /** `calculate_claim_score(claim, evidence_list)`: `(0.0, "high")` for no evidence,
      otherwise `(0.5 * best + 0.3 * count factor + 0.2 * mean) * 100` with the tier of
      that score. `best` is the first entry, not the maximum. Retrieval puts the
      maximum first; see `BestIsMaximum`. The claim text is not used. */
  function CalculateClaimScore(evidence: seq<Scored>): (r: (real, Risk))
    ensures r.1 == RiskOf(r.0)
    ensures evidence == [] ==> r == (0.0, High)
    ensures UnitSimilarities(evidence) ==> 0.0 <= r.0 <= 100.0
    ensures UnitSimilarities(evidence) && evidence != [] ==> r.0 >= 10.0
  {
    if evidence == [] then (0.0, High)
    else
      var best := evidence[0].similarity;
      var score := (best * BestWeight + SourceCountFactor(|evidence|) * CountWeight
                    + MeanSimilarity(evidence) * MeanWeight) * 100.0;
      (score, RiskOf(score))
  }

  /** Three or more entries that all match perfectly give the full score. */
  lemma PerfectEvidence(evidence: seq<Scored>)
    requires |evidence| >= 3
    requires forall i :: 0 <= i < |evidence| ==> evidence[i].similarity == 1.0
    ensures CalculateClaimScore(evidence) == (100.0, Verified)
  {
    AllOnesSum(evidence);
    assert MeanSimilarity(evidence) == 1.0;
    assert SourceCountFactor(|evidence|) == 1.0;
  }

  lemma {:induction false} AllOnesSum(evidence: seq<Scored>)
    requires forall i :: 0 <= i < |evidence| ==> evidence[i].similarity == 1.0
    ensures SumSimilarities(evidence) == |evidence| as real
    decreases |evidence|
  {
    if evidence != [] {
      AllOnesSum(evidence[..|evidence| - 1]);
    }
  }

  /** Retrieval lists evidence best first, so the first entry the score uses is the
      largest similarity among all relevant corpus entries. */
  lemma BestIsMaximum(claim: string, corpus: seq<string>, topK: int)
    requires Retrieve(claim, corpus, topK) != []
    ensures forall e :: e in Relevant(claim, corpus) ==>
              Retrieve(claim, corpus, topK)[0].similarity >= e.similarity
  {
    var rel := Relevant(claim, corpus);
    var sorted := SortDesc(rel);
    var r := TakePrefix(sorted, topK);
    assert r[0] == sorted[0];
    SortedHeadIsMaximum(sorted);
    forall e | e in rel ensures e in sorted {
      assert e in multiset(rel);
    }
  }

  lemma SortedHeadIsMaximum(s: seq<Scored>)
    requires SortedDesc(s) && s != []
    ensures forall e :: e in s ==> s[0].similarity >= e.similarity
  {
    forall e | e in s ensures s[0].similarity >= e.similarity {
      var j :| 0 <= j < |s| && s[j] == e;
    }
  }

  /** Strong Evidence scenario: similarities 0.9, 0.8, 0.7 give 91, verified. */
  lemma StrongEvidenceExample()
    ensures var ev := [Scored("Exact match", 0.9), Scored("Good match", 0.8), Scored("Ok match", 0.7)];
      CalculateClaimScore(ev) == (91.0, Verified)
  {
    var ev := [Scored("Exact match", 0.9), Scored("Good match", 0.8), Scored("Ok match", 0.7)];
    assert ev[..2][..1] == ev[..1] && ev[..1][..0] == [];
    assert SumSimilarities(ev[..1]) == 0.9;
    assert SumSimilarities(ev[..2]) == 1.7;
    assert SumSimilarities(ev) == 2.4;
  }

  /** Weak Evidence scenario: a single 0.3 entry gives 31, medium, inside [0, 50]. */
  lemma WeakEvidenceExample()
    ensures var ev := [Scored("Weak match", 0.3)];
      CalculateClaimScore(ev) == (31.0, Medium)
      && 0.0 <= CalculateClaimScore(ev).0 <= 50.0
  {
    var ev := [Scored("Weak match", 0.3)];
    assert ev[..0] == [];
    assert SumSimilarities(ev) == 0.3;
  }
}
