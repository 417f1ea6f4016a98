/** The verification engine (`ProofSenseEngine`) and its records: it splits an answer
    into claims, retrieves evidence for each from the domain corpus, scores it, scans it
    for overconfident wording, explains the score, and aggregates the claims into one
    verification result. The dashboard carries a copy of the engine that also tags
    every claim with its claim type; both copies are modelled by one class. */
module Engine {
  import opened Text
  import opened Segmenter
  import opened Corpus
  import opened Similarity
  import opened Retrieval
  import opened Scoring
  import opened Overconfidence
  import opened Explanation
  import opened ClaimTypes

  datatype Option<T> = None | Some(value: T)

  /** Which copy of the engine: the standalone core, or the dashboard's copy. */
  datatype Variant = Core | Ui

  function MarkersOf(variant: Variant): Markers {
    if variant == Core then CoreMarkers else UiMarkers
  }

  /** One verified claim. `claimType` is the dashboard's `claim_type` and
      `claim_type_desc` (its label and description); the core record has neither. */
  datatype Claim = Claim(
    text: string,
    confidenceScore: real,
    riskLevel: Risk,
    evidence: seq<string>,
    warnings: seq<string>,
    explanation: string,
    claimType: Option<ClaimType>)

  datatype VerificationResult = VerificationResult(
    originalAnswer: string,
    claims: seq<Claim>,
    overallScore: real,
    totalClaims: nat,
    verifiedClaims: nat,
    flaggedClaims: nat,
    evidenceCoverage: real,
    riskDistribution: map<Risk, nat>)

  /** `[ev for ev, _ in evidence_list]`. */
  function EvidenceTexts(evidence: seq<Scored>): (r: seq<string>)
    ensures |r| == |evidence|
    ensures forall i :: 0 <= i < |r| ==> r[i] == evidence[i].text
  {
    seq(|evidence|, i requires 0 <= i < |evidence| => evidence[i].text)
  }

  /** The claim record the loop of `verify_answer` builds for one claim text. */
  function ClaimFor(variant: Variant, corpus: seq<string>, text: string): Claim {
    var evidence := Retrieve(text, corpus, DefaultTopK);
    var scored := CalculateClaimScore(evidence);
    var warnings := DetectFor(text);
    Claim(text, scored.0, scored.1, EvidenceTexts(evidence), warnings,
          GenerateExplanation(MarkersOf(variant), scored.0, evidence, warnings),
          if variant == Ui then Some(DetectClaimType(text)) else None)
  }

  /** The claim record built for one claim text, as a function value. */
  function ClaimMaker(variant: Variant, corpus: seq<string>): (f: string -> Claim)
    ensures forall t :: f(t) == ClaimFor(variant, corpus, t)
  {
    t => ClaimFor(variant, corpus, t)
  }

  function ClaimsFor(variant: Variant, corpus: seq<string>, texts: seq<string>): (r: seq<Claim>)
    ensures |r| == |texts|
    ensures forall i :: 0 <= i < |r| ==> r[i] == ClaimFor(variant, corpus, texts[i])
  {
    MapSeq(ClaimMaker(variant, corpus), texts)
  }

  /** The tiers of the claims, in order. */
  function RiskLevels(claims: seq<Claim>): (r: seq<Risk>)
    ensures |r| == |claims|
    ensures forall i :: 0 <= i < |r| ==> r[i] == claims[i].riskLevel
  {
    seq(|claims|, i requires 0 <= i < |claims| => claims[i].riskLevel)
  }

  /** The counts the loop of `verify_answer` keeps: every tier starts at zero and each
      claim adds one to its own tier. */
  function TierCounts(tiers: seq<Risk>): (m: map<Risk, nat>)
    ensures m.Keys == {Verified, Low, Medium, High}
    decreases |tiers|
  {
    if tiers == [] then map[Verified := 0, Low := 0, Medium := 0, High := 0]
    else
      var m := TierCounts(tiers[..|tiers| - 1]);
      var t := tiers[|tiers| - 1];
      TierIsKey(t);
      m[t := m[t] + 1]
  }

  lemma TierIsKey(t: Risk)
    ensures t in {Verified, Low, Medium, High}
  {
    match t
    case Verified =>
    case Low =>
    case Medium =>
    case High =>
  }

  /** `risk_counts`: one entry per tier, the number of claims in that tier. */
  function RiskCounts(claims: seq<Claim>): (m: map<Risk, nat>)
    ensures m.Keys == {Verified, Low, Medium, High}
  {
    TierCounts(RiskLevels(claims))
  }

  function ScoreSum(claims: seq<Claim>): real
    decreases |claims|
  {
    if claims == [] then 0.0
    else ScoreSum(claims[..|claims| - 1]) + claims[|claims| - 1].confidenceScore
  }

  /** `np.mean` of the claim scores, or 0.0 without claims. */
  function MeanScore(claims: seq<Claim>): real {
    if claims == [] then 0.0 else ScoreSum(claims) / (|claims| as real)
  }

  /** `verified_count / len(verified_claims) * 100`, or 0.0 without claims. */
  function Coverage(supported: nat, total: nat): (r: real)
    ensures total == 0 ==> r == 0.0
    ensures supported <= total ==> 0.0 <= r <= 100.0
    ensures total > 0 && supported == total ==> r == 100.0
  {
    if total == 0 then 0.0
    else
      RatioBounds(supported as real, total as real);
      (supported as real) / (total as real) * 100.0
  }

  lemma RatioBounds(p: real, q: real)
    requires 0.0 <= p && 0.0 < q
    ensures 0.0 <= p / q
    ensures p <= q ==> p / q <= 1.0
    ensures p == q ==> p / q == 1.0
  {
  }

  /** The aggregation at the end of `verify_answer`: the tier counts, the number of
      supported (verified or low) and flagged (medium or high) claims, the mean score
      and the coverage. */
  function Summarize(answer: string, claims: seq<Claim>): VerificationResult {
    var counts := RiskCounts(claims);
    var verified := counts[Verified] + counts[Low];
    var flagged := counts[Medium] + counts[High];
    VerificationResult(
      answer, claims, MeanScore(claims), |claims|, verified, flagged,
      Coverage(verified, |claims|), counts)
  }

  /** What `verify_answer(answer)` returns for an engine of the given copy whose
      knowledge base is `corpus`. */
  function Verify(variant: Variant, corpus: seq<string>, answer: string): VerificationResult {
    Summarize(answer, ClaimsFor(variant, corpus, Claims(answer)))
  }

  class ProofSenseEngine {
    const variant: Variant
    const domain: string
    const knowledgeBase: seq<string>
    const overconfidentPatterns: seq<string> := Patterns

    /** The knowledge base is `KNOWLEDGE_BASE.get(domain, KNOWLEDGE_BASE["general"])`. */
    constructor(variant: Variant, domain: string)
      ensures this.variant == variant && this.domain == domain
      ensures knowledgeBase == CorpusFor(domain)
      ensures overconfidentPatterns == Patterns
    {
      this.variant := variant;
      this.domain := domain;
      this.knowledgeBase := CorpusFor(domain);
    }

    /** `extract_claims(text)`: sentence by sentence, the long conjunction-separated
        pieces of every long sentence. */
    method ExtractClaims(text: string) returns (claims: seq<string>)
      ensures claims == Claims(text)
    {
      var sentences := Sentences(text);
      claims := [];
      for i := 0 to |sentences|
        invariant claims == ClaimsOf(sentences[..i])
      {
        var sentence := sentences[i];
        if |Strip(sentence)| > MinClaimLength {
          var subClaims := Split(Conjunction, sentence);
          claims := claims + KeepLong(subClaims);
        }
        TakeOneMore(sentences, i);
        ClaimsOfAppend(sentences[..i], sentence);
      }
      TakeAll(sentences);
    }

    /** `retrieve_evidence(claim, top_k)`: collect the relevant entries in corpus order,
        sort them best first and keep the first `top_k`. */
    method RetrieveEvidence(claim: string, topK: int) returns (evidence: seq<Scored>)
      ensures evidence == Retrieve(claim, knowledgeBase, topK)
    {
      var evidenceScores: seq<Scored> := [];
      for i := 0 to |knowledgeBase|
        invariant evidenceScores == Relevant(claim, knowledgeBase[..i])
      {
        var entry := knowledgeBase[i];
        var similarity := CalculateSimilarity(claim, entry);
        if similarity > RelevanceThreshold {
          evidenceScores := evidenceScores + [Scored(entry, similarity)];
        }
        RelevantStep(claim, knowledgeBase, i);
      }
      TakeAll(knowledgeBase);
      evidenceScores := SortDesc(evidenceScores);
      evidence := TakePrefix(evidenceScores, topK);
    }

    /** `detect_overconfident_language(claim)`: one warning per pattern that occurs in
        the lower-cased claim, in pattern order. */
    method DetectOverconfidentLanguage(claim: string) returns (warnings: seq<string>)
      ensures warnings == DetectFor(claim)
    {
      warnings := [];
      var claimLower := Lower(claim);
      for i := 0 to |overconfidentPatterns|
        invariant warnings == Detected(claimLower, overconfidentPatterns[..i])
      {
        var pattern := overconfidentPatterns[i];
        if Occurs(claimLower, pattern) {
          warnings := warnings + [Warning(pattern)];
        }
        TakeOneMore(overconfidentPatterns, i);
      }
      TakeAll(overconfidentPatterns);
    }

    /** `verify_answer(answer)`: one claim record per extracted claim, the tier counts,
        the mean score and the share of supported claims. */
    method VerifyAnswer(answer: string) returns (result: VerificationResult)
      ensures result == Verify(variant, knowledgeBase, answer)
    {
      var claimTexts := ExtractClaims(answer);
      var verifiedClaims: seq<Claim> := [];
      var riskCounts: map<Risk, nat> := map[Verified := 0, Low := 0, Medium := 0, High := 0];
      RiskCountsEmpty();
      for i := 0 to |claimTexts|
        invariant verifiedClaims == ClaimsFor(variant, knowledgeBase, claimTexts[..i])
        invariant riskCounts == RiskCounts(verifiedClaims)
      {
        verifiedClaims, riskCounts := RecordClaim(claimTexts, i, verifiedClaims, riskCounts);
      }
      TakeAll(claimTexts);
      result := Summary(answer, verifiedClaims, riskCounts);
      VerifySummarizes(variant, knowledgeBase, answer, verifiedClaims);
    }

    /** One round of the loop of `verify_answer`: the record of claim `i` is appended
        and `risk_counts[risk_level] += 1`. */
    method RecordClaim(claimTexts: seq<string>, i: nat, verifiedClaims: seq<Claim>, riskCounts: map<Risk, nat>)
      returns (verifiedClaims': seq<Claim>, riskCounts': map<Risk, nat>)
      requires i < |claimTexts|
      requires verifiedClaims == ClaimsFor(variant, knowledgeBase, claimTexts[..i])
      requires riskCounts == RiskCounts(verifiedClaims)
      ensures verifiedClaims' == ClaimsFor(variant, knowledgeBase, claimTexts[..i + 1])
      ensures riskCounts' == RiskCounts(verifiedClaims')
    {
      var claim := VerifyClaim(claimTexts[i]);
      RecordsStep(variant, knowledgeBase, claimTexts, i, verifiedClaims, riskCounts, claim);
      verifiedClaims' := verifiedClaims + [claim];
      riskCounts' := riskCounts[claim.riskLevel := riskCounts[claim.riskLevel] + 1];
    }

    /** The record the loop of `verify_answer` builds for one claim: evidence, score and
        tier, warnings, explanation and (in the dashboard's copy) the claim type. */
    method VerifyClaim(claimText: string) returns (claim: Claim)
      ensures claim == ClaimFor(variant, knowledgeBase, claimText)
    {
      var evidenceList := RetrieveEvidence(claimText, DefaultTopK);
      var scored := CalculateClaimScore(evidenceList);
      var score, riskLevel := scored.0, scored.1;
      var warnings := DetectOverconfidentLanguage(claimText);
      var claimType := if variant == Ui then Some(DetectClaimType(claimText)) else None;
      var explanation := GenerateExplanation(MarkersOf(variant), score, evidenceList, warnings);
      claim := Claim(claimText, score, riskLevel, EvidenceTexts(evidenceList), warnings,
                     explanation, claimType);
    }

    /** The end of `verify_answer`: the mean score, the supported and flagged totals
        read off the tier counts, and the coverage. */
    method Summary(answer: string, claims: seq<Claim>, riskCounts: map<Risk, nat>)
      returns (result: VerificationResult)
      requires riskCounts == RiskCounts(claims)
      ensures result == Summarize(answer, claims)
    {
      var overallScore := MeanScore(claims);
      var verifiedCount := riskCounts[Verified] + riskCounts[Low];
      var flaggedCount := riskCounts[Medium] + riskCounts[High];
      var evidenceCoverage := Coverage(verifiedCount, |claims|);
      result := VerificationResult(answer, claims, overallScore, |claims|,
                                   verifiedCount, flaggedCount, evidenceCoverage, riskCounts);
    }
  }

  lemma RiskLevelsAppend(claims: seq<Claim>, c: Claim)
    ensures RiskLevels(claims + [c]) == RiskLevels(claims) + [c.riskLevel]
  {
    var a, b := RiskLevels(claims + [c]), RiskLevels(claims) + [c.riskLevel];
    forall i | 0 <= i < |a| ensures a[i] == b[i] {
      if i < |claims| {
        assert (claims + [c])[i] == claims[i];
      }
    }
  }

  /** `risk_counts[risk_level] += 1` keeps the counts in step with the claims. */
  lemma RiskCountsAppend(claims: seq<Claim>, c: Claim)
    ensures c.riskLevel in RiskCounts(claims)
    ensures RiskCounts(claims + [c]) == RiskCounts(claims)[c.riskLevel := RiskCounts(claims)[c.riskLevel] + 1]
  {
    TierIsKey(c.riskLevel);
    var tiers := RiskLevels(claims);
    RiskLevelsAppend(claims, c);
    assert (tiers + [c.riskLevel])[..|tiers|] == tiers;
  }

  /** `risk_counts` starts at zero for every tier. */
  lemma RiskCountsEmpty()
    ensures RiskCounts([]) == map[Verified := 0, Low := 0, Medium := 0, High := 0]
  {
    assert RiskLevels([]) == [];
  }

  lemma RiskCountsStep(m: map<Risk, nat>, claims: seq<Claim>, c: Claim)
    requires m == RiskCounts(claims)
    ensures c.riskLevel in m
    ensures m[c.riskLevel := m[c.riskLevel] + 1] == RiskCounts(claims + [c])
  {
    RiskCountsAppend(claims, c);
  }

  lemma RecordsStep(variant: Variant, corpus: seq<string>, texts: seq<string>, i: nat,
                    claims: seq<Claim>, counts: map<Risk, nat>, claim: Claim)
    requires i < |texts|
    requires claims == ClaimsFor(variant, corpus, texts[..i])
    requires counts == RiskCounts(claims)
    requires claim == ClaimFor(variant, corpus, texts[i])
    ensures claims + [claim] == ClaimsFor(variant, corpus, texts[..i + 1])
    ensures claim.riskLevel in counts
    ensures counts[claim.riskLevel := counts[claim.riskLevel] + 1] == RiskCounts(claims + [claim])
  {
    RiskCountsStep(counts, claims, claim);
    TakeOneMore(texts, i);
    ClaimsForAppend(variant, corpus, texts[..i], texts[i]);
  }

  lemma VerifySummarizes(variant: Variant, corpus: seq<string>, answer: string, claims: seq<Claim>)
    requires claims == ClaimsFor(variant, corpus, Claims(answer))
    ensures Verify(variant, corpus, answer) == Summarize(answer, claims)
  {
  }

  lemma ClaimsForAppend(variant: Variant, corpus: seq<string>, texts: seq<string>, t: string)
    ensures ClaimsFor(variant, corpus, texts + [t]) == ClaimsFor(variant, corpus, texts) + [ClaimFor(variant, corpus, t)]
  {
    MapSeqAppend(ClaimMaker(variant, corpus), texts, t);
  }

  // ---------------------------------------------------------------------------
  // Properties of the result

  /** Each count is the number of claims with that tier. */
  lemma {:induction false} TierCountsIsMultiplicity(tiers: seq<Risk>, risk: Risk)
    ensures TierCounts(tiers)[risk] == multiset(tiers)[risk]
    decreases |tiers|
  {
    if tiers != [] {
      var init := tiers[..|tiers| - 1];
      TierCountsIsMultiplicity(init, risk);
      assert tiers == init + [tiers[|tiers| - 1]];
    }
  }

  /** Every claim is in exactly one tier. */
  lemma {:induction false} CountsSum(tiers: seq<Risk>)
    ensures var m := TierCounts(tiers); m[Verified] + m[Low] + m[Medium] + m[High] == |tiers|
    decreases |tiers|
  {
    if tiers != [] {
      CountsSum(tiers[..|tiers| - 1]);
    }
  }

  /** The aggregate of any claim list keeps the answer and the claims; each tier count
      is the number of claims in that tier, every claim is either supported or flagged,
      and `verified_claims` counts exactly the claims whose tier is verified or low. */
  lemma SummarizeCounts(answer: string, claims: seq<Claim>)
    ensures var r := Summarize(answer, claims);
      && r.originalAnswer == answer && r.claims == claims && r.totalClaims == |claims|
      && r.riskDistribution.Keys == {Verified, Low, Medium, High}
      && (forall risk :: risk in r.riskDistribution ==>
            r.riskDistribution[risk] == multiset(RiskLevels(claims))[risk])
      && r.verifiedClaims == |set i | 0 <= i < |claims| && claims[i].riskLevel.Supported()|
      && r.verifiedClaims + r.flaggedClaims == r.totalClaims
  {
    var tiers := RiskLevels(claims);
    TierFacts(tiers);
    assert (set i | 0 <= i < |tiers| && tiers[i].Supported())
        == (set i | 0 <= i < |claims| && claims[i].riskLevel.Supported());
  }

  /** The tier counts are the multiplicities of the tiers, they add up to the number of
      tiers, and the verified and low counts add up to the supported positions. */
  lemma TierFacts(tiers: seq<Risk>)
    ensures forall risk :: risk in TierCounts(tiers) ==> TierCounts(tiers)[risk] == multiset(tiers)[risk]
    ensures var m := TierCounts(tiers); m[Verified] + m[Low] + m[Medium] + m[High] == |tiers|
    ensures var m := TierCounts(tiers);
      m[Verified] + m[Low] == |set i | 0 <= i < |tiers| && tiers[i].Supported()|
  {
    CountsSum(tiers);
    SupportedCount(tiers);
    forall risk | risk in TierCounts(tiers)
      ensures TierCounts(tiers)[risk] == multiset(tiers)[risk]
    {
      TierCountsIsMultiplicity(tiers, risk);
    }
  }

  lemma {:induction false} ScoreSumBounds(claims: seq<Claim>)
    requires forall i :: 0 <= i < |claims| ==> 0.0 <= claims[i].confidenceScore <= 100.0
    ensures 0.0 <= ScoreSum(claims) <= 100.0 * (|claims| as real)
    decreases |claims|
  {
    if claims != [] {
      ScoreSumBounds(claims[..|claims| - 1]);
    }
  }

  /** With claim scores in [0, 100], the overall score is their mean and the coverage
      the percentage of supported claims; both lie in [0, 100] and are 0 without claims. */
  lemma SummarizeScores(answer: string, claims: seq<Claim>)
    requires forall i :: 0 <= i < |claims| ==> 0.0 <= claims[i].confidenceScore <= 100.0
    ensures var r := Summarize(answer, claims);
      && (claims == [] ==> r.overallScore == 0.0 && r.evidenceCoverage == 0.0)
      && (claims != [] ==> r.overallScore == ScoreSum(claims) / (|claims| as real))
      && 0.0 <= r.overallScore <= 100.0
      && 0.0 <= r.evidenceCoverage <= 100.0
  {
    ScoreSumBounds(claims);
    CountsSum(RiskLevels(claims));
    if claims != [] {
      MeanBounds(ScoreSum(claims), |claims| as real);
    }
  }

  lemma MeanBounds(sum: real, n: real)
    requires n > 0.0 && 0.0 <= sum <= 100.0 * n
    ensures 0.0 <= sum / n <= 100.0
  {
  }

  /** A tier is counted as verified exactly when it is verified or low. */
  lemma {:induction false} SupportedCount(tiers: seq<Risk>)
    ensures var m := TierCounts(tiers);
      m[Verified] + m[Low] == |set i | 0 <= i < |tiers| && tiers[i].Supported()|
    decreases |tiers|
  {
    if tiers != [] {
      var n := |tiers| - 1;
      var init := tiers[..n];
      SupportedCount(init);
      var small := set i | 0 <= i < n && init[i].Supported();
      var big := set i | 0 <= i < |tiers| && tiers[i].Supported();
      if tiers[n].Supported() {
        assert big == small + {n};
      } else {
        assert big == small;
      }
    }
  }


  /** What every claim record satisfies: its tier is the tier of its score, the score
      lies in [0, 100] and is 0 exactly when no evidence was found, its evidence (at most
      three entries) comes from the corpus, it carries at most 12 distinct warnings, and
      only the dashboard's copy tags it with a claim type. */
  predicate WellFormed(variant: Variant, corpus: seq<string>, c: Claim) {
    ScoredWell(corpus, c) && TaggedWell(variant, c)
  }

  /** The tier is the score's tier, the score lies in [0, 100] and is 0 exactly without
      evidence, and the evidence is at most three corpus entries. */
  predicate ScoredWell(corpus: seq<string>, c: Claim) {
    && c.riskLevel == RiskOf(c.confidenceScore)
    && 0.0 <= c.confidenceScore <= 100.0
    && (c.evidence == [] <==> c.confidenceScore == 0.0)
    && |c.evidence| <= DefaultTopK
    && (forall e :: e in c.evidence ==> e in corpus)
  }

  /** At most one warning per pattern, and a claim type exactly in the dashboard copy. */
  predicate TaggedWell(variant: Variant, c: Claim) {
    && |c.warnings| <= 12 && Distinct(c.warnings)
    && (c.claimType.Some? <==> variant == Ui)
  }

  lemma ClaimWellFormed(variant: Variant, corpus: seq<string>, text: string)
    ensures ClaimFor(variant, corpus, text).text == text
    ensures WellFormed(variant, corpus, ClaimFor(variant, corpus, text))
  {
    ClaimScoredWell(variant, corpus, text);
  }

  lemma ClaimScoredWell(variant: Variant, corpus: seq<string>, text: string)
    ensures ScoredWell(corpus, ClaimFor(variant, corpus, text))
  {
    EvidenceWellFormed(text, corpus);
  }

  /** The evidence of a claim comes from the corpus, at most three entries, and the
      score is 0 exactly when there is none. */
  lemma EvidenceWellFormed(text: string, corpus: seq<string>)
    ensures var evidence := Retrieve(text, corpus, DefaultTopK);
      var score := CalculateClaimScore(evidence).0;
      && 0.0 <= score <= 100.0
      && (EvidenceTexts(evidence) == [] <==> score == 0.0)
      && |EvidenceTexts(evidence)| <= DefaultTopK
      && forall e :: e in EvidenceTexts(evidence) ==> e in corpus
  {
    var evidence := Retrieve(text, corpus, DefaultTopK);
    RetrieveBounds(text, corpus, DefaultTopK);
    assert UnitSimilarities(evidence);
    forall e | e in EvidenceTexts(evidence) ensures e in corpus {
      var i :| 0 <= i < |EvidenceTexts(evidence)| && EvidenceTexts(evidence)[i] == e;
      assert evidence[i] in evidence;
    }
  }

  /** `verify_answer` builds one well-formed claim record per extracted claim, in
      extraction order. */
  lemma VerifyClaims(variant: Variant, corpus: seq<string>, answer: string)
    ensures var r := Verify(variant, corpus, answer);
      && |r.claims| == |Claims(answer)|
      && forall i :: 0 <= i < |r.claims| ==>
           r.claims[i].text == Claims(answer)[i] && WellFormed(variant, corpus, r.claims[i])
  {
    var texts := Claims(answer);
    var claims := ClaimsFor(variant, corpus, texts);
    assert Verify(variant, corpus, answer).claims == claims;
    forall i | 0 <= i < |claims|
      ensures claims[i].text == texts[i] && WellFormed(variant, corpus, claims[i])
    {
      ClaimWellFormed(variant, corpus, texts[i]);
    }
  }

  /** The result of `verify_answer`: the answer is kept, the tier counts are the
      multiplicities of the claims' tiers, every claim is supported or flagged, and the
      overall score and coverage lie in [0, 100], 0 for an answer without claims. */
  lemma VerifyCounts(variant: Variant, corpus: seq<string>, answer: string)
    ensures var r := Verify(variant, corpus, answer);
      && r.originalAnswer == answer && r.totalClaims == |Claims(answer)|
      && r.riskDistribution.Keys == {Verified, Low, Medium, High}
      && (forall risk :: risk in r.riskDistribution ==>
            r.riskDistribution[risk] == multiset(RiskLevels(r.claims))[risk])
      && r.verifiedClaims + r.flaggedClaims == r.totalClaims
      && (Claims(answer) == [] ==> r.overallScore == 0.0 && r.evidenceCoverage == 0.0)
      && 0.0 <= r.overallScore <= 100.0
      && 0.0 <= r.evidenceCoverage <= 100.0
  {
    var r := Verify(variant, corpus, answer);
    VerifyIsSummary(variant, corpus, answer);
    VerifyClaims(variant, corpus, answer);
    forall i | 0 <= i < |r.claims| ensures 0.0 <= r.claims[i].confidenceScore <= 100.0 {
      assert WellFormed(variant, corpus, r.claims[i]);
    }
    SummarizeCounts(answer, r.claims);
    SummarizeScores(answer, r.claims);
  }

  lemma VerifyIsSummary(variant: Variant, corpus: seq<string>, answer: string)
    ensures Verify(variant, corpus, answer) == Summarize(answer, Verify(variant, corpus, answer).claims)
  {
  }

  /** The two copies build the same claim from the same text, except for the
      explanation's opening glyph and the claim-type tag. */
  predicate AgreeExceptPresentation(c: Claim, u: Claim) {
    && u.text == c.text && SameScoring(c, u)
    && u.evidence == c.evidence && u.warnings == c.warnings
    && c.claimType == None && u.claimType == Some(DetectClaimType(u.text))
    && var g1, g2 := Glyph(CoreMarkers, c.riskLevel), Glyph(UiMarkers, u.riskLevel);
       StartsWith(c.explanation, g1) && StartsWith(u.explanation, g2)
       && c.explanation[|g1|..] == u.explanation[|g2|..]
  }

  lemma ClaimAgree(corpus: seq<string>, text: string)
    ensures AgreeExceptPresentation(ClaimFor(Core, corpus, text), ClaimFor(Ui, corpus, text))
  {
    var evidence := Retrieve(text, corpus, DefaultTopK);
    var scored := CalculateClaimScore(evidence);
    MarkersOnlyDiffer(CoreMarkers, UiMarkers, scored.0, evidence, DetectFor(text));
  }

  /** The dashboard's copy agrees with the core claim by claim (up to presentation)
      and on every aggregate. */
  lemma UiMatchesCore(corpus: seq<string>, answer: string)
    ensures var core, ui := Verify(Core, corpus, answer), Verify(Ui, corpus, answer);
      && |core.claims| == |ui.claims|
      && (forall i :: 0 <= i < |core.claims| ==> AgreeExceptPresentation(core.claims[i], ui.claims[i]))
      && ui.overallScore == core.overallScore && ui.totalClaims == core.totalClaims
      && ui.verifiedClaims == core.verifiedClaims && ui.flaggedClaims == core.flaggedClaims
      && ui.evidenceCoverage == core.evidenceCoverage
      && ui.riskDistribution == core.riskDistribution
  {
    var texts := Claims(answer);
    var a, b := ClaimsFor(Core, corpus, texts), ClaimsFor(Ui, corpus, texts);
    assert Verify(Core, corpus, answer) == Summarize(answer, a);
    assert Verify(Ui, corpus, answer) == Summarize(answer, b);
    forall i | 0 <= i < |a| ensures AgreeExceptPresentation(a[i], b[i]) {
      ClaimAgree(corpus, texts[i]);
    }
    SameAggregates(answer, a, b);
  }

  /** Claim lists that agree on every score and tier aggregate alike. */
  lemma SameAggregates(answer: string, a: seq<Claim>, b: seq<Claim>)
    requires |a| == |b| && forall i :: 0 <= i < |a| ==> SameScoring(a[i], b[i])
    ensures var ra, rb := Summarize(answer, a), Summarize(answer, b);
      && ra.overallScore == rb.overallScore && ra.totalClaims == rb.totalClaims
      && ra.verifiedClaims == rb.verifiedClaims && ra.flaggedClaims == rb.flaggedClaims
      && ra.evidenceCoverage == rb.evidenceCoverage && ra.riskDistribution == rb.riskDistribution
  {
    SameTiers(a, b);
    SameScores(a, b);
  }

  predicate SameScoring(a: Claim, b: Claim) {
    a.confidenceScore == b.confidenceScore && a.riskLevel == b.riskLevel
  }

  lemma SameTiers(a: seq<Claim>, b: seq<Claim>)
    requires |a| == |b| && forall i :: 0 <= i < |a| ==> SameScoring(a[i], b[i])
    ensures RiskCounts(a) == RiskCounts(b)
  {
    var ta, tb := RiskLevels(a), RiskLevels(b);
    forall i | 0 <= i < |ta| ensures ta[i] == tb[i] {
      assert SameScoring(a[i], b[i]);
    }
    assert ta == tb;
  }

  lemma {:induction false} SameScores(a: seq<Claim>, b: seq<Claim>)
    requires |a| == |b| && forall i :: 0 <= i < |a| ==> SameScoring(a[i], b[i])
    ensures ScoreSum(a) == ScoreSum(b)
    decreases |a|
  {
    if a != [] {
      SameScores(a[..|a| - 1], b[..|b| - 1]);
      assert SameScoring(a[|a| - 1], b[|b| - 1]);
    }
  }

  /** The compound example: two claims, in order, from an answer about the Earth and
      the Moon. */
  lemma CompoundAnswerExample(variant: Variant, corpus: seq<string>)
    ensures var r := Verify(variant, corpus, EarthHalf + ", and " + MoonHalf);
      r.totalClaims == 2 && r.claims[0].text == EarthHalf && r.claims[1].text == MoonHalf
  {
    CompoundSentenceExample();
  }

  /** The answers of the hallucination test and the overconfident-language test, each
      one sentence without commas, written as word groups followed by a full stop.
      Every overconfident phrase is a group of its own, between two spaces. */
  const HallucinationGroups: seq<string> :=
    ["The Internet was", " definitely ", "invented in 1995 by Bill Gates and is",
     " guaranteed ", "to work perfectly 100% of the time"]
  const HallucinationAnswer := Join(HallucinationGroups) + "."
  const OverconfidentGroups: seq<string> :=
    ["Exercise", " always ", "prevents all diseases without exception and",
     " definitely ", "works 100% of the time"]
  const OverconfidentAnswer := Join(OverconfidentGroups) + "."

  /** The finance and health answers of the all-domains test, in the same form. */
  const FinanceGroups: seq<string> :=
    ["The Federal Reserve is", " the central banking system", " of the United States"]
  const FinanceAnswer := Join(FinanceGroups) + "."
  const HealthGroups: seq<string> :=
    ["The human heart pumps", " approximately 5 liters", " of blood per minute at rest"]
  const HealthAnswer := Join(HealthGroups) + "."

  /** No group of these answers has a comma or a terminal, and each answer starts with
      a letter and is long enough to be a claim. */
  lemma PlainGroups(g: seq<string>)
    requires g in {HallucinationGroups, OverconfidentGroups, FinanceGroups, HealthGroups}
    ensures forall k :: 0 <= k < |g| ==> NoTerminal(g[k]) && NoComma(g[k])
    ensures |g| >= 2 && g[0] != [] && !IsSpace(g[0][0]) && |g[0]| + |g[1]| > MinClaimLength
  {
    if g == HallucinationGroups {
      HallucinationHead();
      HallucinationTail();
    } else if g == OverconfidentGroups {
      OverconfidentHead();
      OverconfidentTail();
    } else if g == FinanceGroups {
      FinancePlain();
    } else {
      HealthPlain();
    }
  }

  lemma HallucinationHead()
    ensures var g := HallucinationGroups;
      && NoTerminal(g[0]) && NoComma(g[0]) && NoTerminal(g[1]) && NoComma(g[1])
      && NoTerminal(g[2]) && NoComma(g[2])
  {
  }

  lemma HallucinationTail()
    ensures var g := HallucinationGroups;
      NoTerminal(g[3]) && NoComma(g[3]) && NoTerminal(g[4]) && NoComma(g[4])
  {
  }

  lemma OverconfidentHead()
    ensures var g := OverconfidentGroups;
      && NoTerminal(g[0]) && NoComma(g[0]) && NoTerminal(g[1]) && NoComma(g[1])
      && NoTerminal(g[2]) && NoComma(g[2])
  {
  }

  lemma OverconfidentTail()
    ensures var g := OverconfidentGroups;
      NoTerminal(g[3]) && NoComma(g[3]) && NoTerminal(g[4]) && NoComma(g[4])
  {
  }

  lemma FinancePlain()
    ensures var g := FinanceGroups;
      && NoTerminal(g[0]) && NoComma(g[0]) && NoTerminal(g[1]) && NoComma(g[1])
      && NoTerminal(g[2]) && NoComma(g[2])
  {
  }

  lemma HealthPlain()
    ensures var g := HealthGroups;
      && NoTerminal(g[0]) && NoComma(g[0]) && NoTerminal(g[1]) && NoComma(g[1])
      && NoTerminal(g[2]) && NoComma(g[2])
  {
  }

  /** An answer that is one claim verifies to one claim record, for that text and with
      that text's warnings. */
  lemma OneClaimAnswer(variant: Variant, corpus: seq<string>, answer: string)
    requires Claims(answer) == [answer]
    ensures var r := Verify(variant, corpus, answer);
      && r.totalClaims == 1 && r.claims[0].text == answer
      && r.claims[0].warnings == DetectFor(answer)
  {
    ClaimsForAppend(variant, corpus, [], answer);
    assert [] + [answer] == [answer];
  }

  /** The phrases "definitely" and "guaranteed" stand as groups of their own in test 1's
      answer, so both occur in it as whole words. */
  lemma HallucinationWords(g: seq<string>)
    requires g == HallucinationGroups
    ensures WholeWordIn(Lower(Join(g) + "."), "definitely")
    ensures WholeWordIn(Lower(Join(g) + "."), "guaranteed")
  {
    var p, q := "definitely", "guaranteed";
    assert g[1] == " " + p + " " && g[3] == " " + q + " ";
    assert IsWordChar(p[0]) && IsWordChar(p[|p| - 1]) && IsWordChar(q[0]) && IsWordChar(q[|q| - 1]);
    assert forall j :: 0 <= j < |p| ==> !('A' <= p[j] <= 'Z');
    assert forall j :: 0 <= j < |q| ==> !('A' <= q[j] <= 'Z');
    GroupMatch(g, 1, p);
    GroupMatch(g, 3, q);
  }

  lemma HallucinationFlags()
    ensures Warning("definitely") in DetectFor(HallucinationAnswer)
    ensures Warning("guaranteed") in DetectFor(HallucinationAnswer)
  {
    HallucinationWords(HallucinationGroups);
    Flagged(HallucinationAnswer, "definitely");
    Flagged(HallucinationAnswer, "guaranteed");
  }

  /** The phrases "always" and "definitely" stand as groups of their own in test 4's
      answer, so both occur in it as whole words. */
  lemma OverconfidentWords(g: seq<string>)
    requires g == OverconfidentGroups
    ensures WholeWordIn(Lower(Join(g) + "."), "always")
    ensures WholeWordIn(Lower(Join(g) + "."), "definitely")
  {
    var p, q := "always", "definitely";
    assert g[1] == " " + p + " " && g[3] == " " + q + " ";
    assert IsWordChar(p[0]) && IsWordChar(p[|p| - 1]) && IsWordChar(q[0]) && IsWordChar(q[|q| - 1]);
    assert forall j :: 0 <= j < |p| ==> !('A' <= p[j] <= 'Z');
    assert forall j :: 0 <= j < |q| ==> !('A' <= q[j] <= 'Z');
    GroupMatch(g, 1, p);
    GroupMatch(g, 3, q);
  }

  lemma OverconfidentFlags()
    ensures Warning("always") in DetectFor(OverconfidentAnswer)
    ensures Warning("definitely") in DetectFor(OverconfidentAnswer)
  {
    OverconfidentWords(OverconfidentGroups);
    Flagged(OverconfidentAnswer, "always");
    Flagged(OverconfidentAnswer, "definitely");
  }

  /** Test 1's answer is one claim flagged for "definitely" and "guaranteed", whatever
      the knowledge base. */
  lemma HallucinationAnswerExample(variant: Variant, corpus: seq<string>)
    ensures var r := Verify(variant, corpus, HallucinationAnswer);
      && r.totalClaims == 1 && r.claims[0].text == HallucinationAnswer
      && Warning("definitely") in r.claims[0].warnings
      && Warning("guaranteed") in r.claims[0].warnings
  {
    PlainGroups(HallucinationGroups);
    PlainGroupsSentence(HallucinationGroups);
    HallucinationFlags();
    OneClaimAnswer(variant, corpus, HallucinationAnswer);
  }

  /** Test 4's answer is one claim flagged for "always" and "definitely", whatever the
      knowledge base. */
  lemma OverconfidentAnswerExample(variant: Variant, corpus: seq<string>)
    ensures var r := Verify(variant, corpus, OverconfidentAnswer);
      && r.totalClaims == 1 && r.claims[0].text == OverconfidentAnswer
      && Warning("always") in r.claims[0].warnings
      && Warning("definitely") in r.claims[0].warnings
  {
    PlainGroups(OverconfidentGroups);
    PlainGroupsSentence(OverconfidentGroups);
    OverconfidentFlags();
    OneClaimAnswer(variant, corpus, OverconfidentAnswer);
  }

  /** Test 6's finance answer is one claim, whatever the knowledge base, so the
      finance domain extracts a claim. */
  lemma FinanceAnswerExample(variant: Variant, corpus: seq<string>)
    ensures Verify(variant, corpus, FinanceAnswer).totalClaims == 1
  {
    PlainGroups(FinanceGroups);
    PlainGroupsSentence(FinanceGroups);
    OneClaimAnswer(variant, corpus, FinanceAnswer);
  }

  /** Test 6's health answer is one claim, whatever the knowledge base. */
  lemma HealthAnswerExample(variant: Variant, corpus: seq<string>)
    ensures Verify(variant, corpus, HealthAnswer).totalClaims == 1
  {
    PlainGroups(HealthGroups);
    PlainGroupsSentence(HealthGroups);
    OneClaimAnswer(variant, corpus, HealthAnswer);
  }
}
