# ProofSense verification engine in Dafny

ProofSense checks an AI-generated answer claim by claim. `ProofSenseEngine` works in these steps:

1. It splits the answer into sentences and each sentence into clauses at ", and", ", but", ", however" and ", moreover". It keeps every stripped piece longer than ten characters.
2. For each claim it retrieves up to three statements from a per-domain knowledge base. A statement qualifies when its Jaccard word-set similarity to the claim, with stop words removed, exceeds 0.1. The qualifying statements are ranked best first.
3. It scores the claim as `(0.5 * best + 0.3 * min(n/3, 1) + 0.2 * mean) * 100` and places the score in one of four risk tiers (70 / 50 / 30).
4. It flags twelve overconfident whole-word phrases and writes an explanation.
5. It aggregates the claims into a verification result: per-tier counts, mean score and evidence coverage.

The dashboard holds a copy of the engine that also tags every claim with a claim type (quantitative, causal, factual). The dashboard also has two helpers: the share of unsupported claims and a colour per score.

The model has eleven modules, one per concern:

- `Text`: ASCII character classes, `lower`, `strip`, `split`.
- `Corpus`: the knowledge base.
- `Segmenter`: `extract_claims`.
- `Similarity`: `calculate_similarity`.
- `Retrieval`: `retrieve_evidence`.
- `Scoring`: `calculate_claim_score` and the risk tiers.
- `Overconfidence`: `detect_overconfident_language`.
- `Explanation`: `generate_explanation`.
- `ClaimTypes`: `detect_claim_type`.
- `Engine`: the records and the engine class.
- `Dashboard`: `calculate_unsupported_ratio` and `get_score_color`.

How the engine is written:

- The engine is a `class ProofSenseEngine`.
- Its constructor performs the knowledge-base lookup.
- Its methods keep the loops of the source: the sentence loop of `extract_claims`, the corpus loop of `retrieve_evidence`, the pattern loop of `detect_overconfident_language`, and the claim loop of `verify_answer` with its `risk_counts` increments.
- Each method is proved equal to a specification function.
- The properties are lemmas about the specification functions.

The pure steps (similarity, scoring, explanation, claim type, dashboard helpers) are functions.

The two copies of the engine are one class with a `Variant` (`Core` or `Ui`). The two copies differ only in:

- the glyphs that open the explanation;
- the dashboard's claim-type tag.

## Model

| member | source | states |
|---|---|---|
| Corpus.CorpusFor | proofsense_core.py:14-51 | the engine always searches one of the three statement lists of the knowledge base, and any domain other than "finance" and "health" searches the general list |
| Corpus.CorpusLookup | proofsense_core.py:93 | an unknown domain uses the general corpus; "finance" and "health" get their own lists; every domain has ten statements |
| Engine.ProofSenseEngine.constructor | proofsense_core.py:91-100 | the engine's knowledge base is the lookup of its domain with the general fallback, and its pattern list is the twelve overconfident phrases |
| Engine.ProofSenseEngine.ExtractClaims | proofsense_core.py:102-112 | the sentence loop with its `extend` returns exactly the specified claims of the text |
| Segmenter.ClaimsAreLong | proofsense_core.py:108-110 | every extracted claim is stripped and longer than ten characters |
| Segmenter.BlankTextHasNoClaims | proofsense_core.py:102-112 | an empty or all-whitespace answer yields no claims |
| Segmenter.ClaimsInTextOrder | proofsense_core.py:104-110 | the claims occur in the answer in the order listed, at non-overlapping places, so extraction never reorders anything |
| Segmenter.ClaimsOfAppend | proofsense_core.py:107-110 | each further sentence appends exactly its own claims to those of the earlier sentences |
| Segmenter.SplitSkips | proofsense_core.py:104 | positions where no separator matches do not cut the text |
| Segmenter.OneSentence | proofsense_core.py:104 | a stripped text whose only terminal punctuation is its last character is a single sentence |
| Segmenter.SplitAtAnd | proofsense_core.py:109 | `a, and b` splits into exactly `a` and `b` when neither half has a comma and `b` does not start with whitespace |
| Segmenter.AndMatch | proofsense_core.py:109 | a comma, one space, "and" and one space form a separator of length six |
| Segmenter.CompoundOneSentence | proofsense_core.py:104 | a compound sentence joined by ", and " is not cut by the sentence split |
| Segmenter.CompoundClaims | proofsense_core.py:104-110 | an answer `a, and b` made of two long comma-free halves yields exactly the claims `a` and `b` |
| Segmenter.CompoundSentenceExample | tests/test_demo.py:130 | "The Earth orbits the Sun, and the Moon orbits the Earth." yields the two claims "The Earth orbits the Sun" and "the Moon orbits the Earth." |
| Similarity.TokenSet | proofsense_core.py:116-121 | the word set of a text never holds a stop word |
| Similarity.CalculateSimilarity | proofsense_core.py:114-129 | the similarity lies in [0, 1] and is 0 when either filtered word set is empty |
| Similarity.SimilaritySymmetric | proofsense_core.py:114-129 | similarity does not depend on the order of its arguments |
| Similarity.SimilarityExtremes | proofsense_core.py:123-129 | similarity is 1 exactly when both word sets are equal and non-empty, and positive exactly when they share a word |
| Similarity.JaccardExtremes | proofsense_core.py:126-129 | the Jaccard ratio of two sets is 1 exactly when they are equal and non-empty, and positive exactly when they intersect |
| Retrieval.Relevant | proofsense_core.py:133-138 | the kept list holds a corpus entry with its similarity if and only if the similarity is above 0.1 |
| Retrieval.RelevantStep | proofsense_core.py:135-138 | one more corpus entry appends itself, with its similarity, exactly when that similarity is above 0.1 |
| Retrieval.SortDesc | proofsense_core.py:140 | the sort gives a non-increasing permutation of its input |
| Retrieval.SortStable | proofsense_core.py:140 | the sort is stable: entries of equal similarity keep their relative order |
| Retrieval.TakePrefix | proofsense_core.py:141 | `[:top_k]` keeps the first entries of the list in order. A non-negative `top_k` keeps `top_k` of them, or all when there are fewer. A negative `top_k` drops that many from the end, or leaves nothing when there are no more |
| Engine.ProofSenseEngine.RetrieveEvidence | proofsense_core.py:131-141 | the loop, sort and slice return exactly the specified evidence over the engine's corpus |
| Retrieval.RetrieveBounds | proofsense_core.py:131-141 | at most `top_k` pairs, exactly `top_k` when enough entries qualify; each pair is a corpus entry with its own similarity in (0.1, 1]; no entry appears more often than it qualifies |
| Retrieval.RetrieveKeepsBest | proofsense_core.py:140-141 | the result is sorted best first, and every qualifying entry left out scores no higher than any entry returned |
| Retrieval.RetrieveTiesInCorpusOrder | proofsense_core.py:135-141 | entries with equal similarity come back in corpus order |
| Scoring.RiskOf | proofsense_core.py:170-177 | a score is verified at 70 or more, low in [50, 70), medium in [30, 50) and high below 30 |
| Scoring.RiskMonotone | proofsense_core.py:170-177 | a higher score never lands in a worse tier |
| Scoring.RiskNameInjective | proofsense_core.py:170-177 | the four tier names are distinct |
| Scoring.SourceCountFactor | proofsense_core.py:161 | `min(n/3, 1)` lies in [0, 1], is 1 exactly from three sources on, and is at least 1/3 for one source |
| Scoring.MeanSimilarity | proofsense_core.py:162 | the mean of similarities in [0, 1] lies in [0, 1] |
| Scoring.CalculateClaimScore | proofsense_core.py:155-179 | no evidence gives (0, high); the tier is always the tier of the score; with similarities in [0, 1] the score lies in [0, 100], and in [10, 100] when any evidence exists |
| Scoring.PerfectEvidence | proofsense_core.py:160-168 | three or more perfect matches give the full score 100 and the verified tier |
| Scoring.BestIsMaximum | proofsense_core.py:160 | the first evidence entry, which the score uses as the best match, is the maximum similarity of all qualifying entries |
| Scoring.StrongEvidenceExample | tests/test_demo.py:202-206 | evidence (0.9, 0.8, 0.7) scores 91 and is verified |
| Scoring.WeakEvidenceExample | tests/test_demo.py:207-211 | a single 0.3 entry scores 31, medium, inside [0, 50] |
| Overconfidence.FindFrom | proofsense_core.py:149 | the search from a position says yes exactly when a whole-word match starts at or after that position |
| Overconfidence.Occurs | proofsense_core.py:149-150 | `re.findall` with a `\b`-anchored literal finds something exactly when the phrase occurs with a word boundary on both sides |
| Overconfidence.DetectedMembers | proofsense_core.py:148-151 | a warning is emitted exactly for the patterns that occur as whole words, and it names the pattern |
| Overconfidence.DetectedAppend | proofsense_core.py:148-151 | warnings follow the order of the pattern list, not positions in the text |
| Overconfidence.DetectedDistinct | proofsense_core.py:148-151 | distinct patterns give distinct warnings, so there is at most one warning per pattern |
| Overconfidence.WarningInjective | proofsense_core.py:151 | the warning text determines the phrase it names |
| Overconfidence.DetectFor | proofsense_core.py:143-153 | at most twelve warnings, all distinct |
| Overconfidence.DetectForLower | proofsense_core.py:146 | the scan is case-insensitive |
| Overconfidence.PercentBoundaryExample | proofsense_core.py:99 | `\b100%\b` does not match in "100% of" but matches in "100%x" |
| Overconfidence.WholeWordExample | proofsense_core.py:97 | "never" is not found inside "neverland" but is found in "never again" |
| Engine.ProofSenseEngine.DetectOverconfidentLanguage | proofsense_core.py:143-153 | the pattern loop returns exactly the specified warnings for the lower-cased claim |
| Explanation.RoundHalfEven | proofsense_core.py:185 | the rounded integer lies within one half of the value, ties go to the even neighbour, and non-negative values round to non-negative integers |
| Explanation.FormatScoreClose | proofsense_core.py:185-191 | `{score:.1f}` prints digits, a point and one digit, which read back differ from the score by at most half a tenth |
| Explanation.FormatScoreExample | proofsense_core.py:185-191 | the `{score:.1f}` format writes the scores 91 and 31 as "91.0" and "31.0" |
| Explanation.ExplanationBand | proofsense_core.py:184-191 | the explanation opens with the sentence of the score's tier, chosen by the same 70/50/30 thresholds as the risk tier |
| Explanation.MarkerShowsBand | proofsense_core.py:184-191 | the opening glyph shows the band: the check mark exactly for verified, the caution sign exactly for low or medium, the cross exactly for high |
| Explanation.EvidenceNotes | proofsense_core.py:193-196 | the no-evidence note ends the body if and only if there is no evidence, and the limited-sources note if and only if there is exactly one entry |
| Explanation.WarningNotes | proofsense_core.py:198-199 | the explanation ends with the warning note if and only if there are warnings, and that note names their number |
| Explanation.WarningNoteInjective | proofsense_core.py:199 | the warning note determines the warning count it reports |
| Explanation.BodyTail | proofsense_core.py:184-196 | before the warning note the text ends in one of four known endings |
| Explanation.ExplanationParts | proofsense_core.py:181-201 | the explanation is the band's opening, then the evidence note, then the warning part |
| Explanation.ExplanationSplit | proofsense_core.py:181-201 | the explanation is the band glyph followed by a text that does not depend on the glyphs |
| Explanation.MarkersOnlyDiffer | ProofSense_App_UI.py:583-603 | the two engine copies produce explanations that differ only in the opening glyph |
| ClaimTypes.LabelsDistinct | ProofSense_App_UI.py:400-408 | the three badge labels are distinct |
| ClaimTypes.QuantityAtIsMatch | ProofSense_App_UI.py:399 | the greedy left-to-right scan finds a quantity at a position exactly when the pattern `\d+\.?\d*\s*(unit)` can match there |
| ClaimTypes.DetectClaimType | ProofSense_App_UI.py:395-408 | a claim with a quantity is quantitative even when it is also causal; causal exactly when it has no quantity and has a whole-word causal phrase; factual exactly when it has neither |
| ClaimTypes.QuantitativeExample | ProofSense_App_UI.py:399-400 | "Water boils at 100 degrees" is quantitative |
| ClaimTypes.CausalExample | ProofSense_App_UI.py:403-404 | "Ice melts due to heat" is causal |
| ClaimTypes.BothPatternsExample | ProofSense_App_UI.py:399-404 | a claim matching both patterns is quantitative |
| ClaimTypes.FactualExample | ProofSense_App_UI.py:406-408 | a claim with neither pattern is factual |
| Engine.ClaimsForAppend | proofsense_core.py:210-225 | building the claims of one more text appends exactly that text's claim to the claims built so far |
| Engine.TierCounts | proofsense_core.py:208 | the tier counts are keyed by exactly the four tiers |
| Engine.TierCountsIsMultiplicity | proofsense_core.py:208-226 | the count of each tier is the number of claims in that tier |
| Engine.CountsSum | proofsense_core.py:208-226 | the four counts sum to the number of claims |
| Engine.SupportedCount | proofsense_core.py:229 | verified plus low counts the claims in a supported tier |
| Engine.RiskCountsAppend | proofsense_core.py:225-226 | appending a claim adds one to its own tier's count and leaves the other counts alone |
| Engine.RiskCountsEmpty | proofsense_core.py:208 | the counts start at zero for all four tiers |
| Engine.RecordsStep | proofsense_core.py:210-226 | one iteration extends the claim list by the claim for the next text and keeps the counts equal to the counts of the list |
| Engine.ProofSenseEngine.RecordClaim | proofsense_core.py:210-226 | one loop iteration keeps the claims equal to the claims of the texts seen so far and the counts equal to their tier counts |
| Engine.ProofSenseEngine.VerifyClaim | proofsense_core.py:211-223 | the claim built for one text is the specified claim: retrieval, score, warnings, explanation, and in the dashboard copy the claim type |
| Engine.ProofSenseEngine.Summary | proofsense_core.py:228-242 | the aggregation returns the specified result |
| Engine.Coverage | proofsense_core.py:231 | coverage is 0 without claims, lies in [0, 100] when the supported count does not exceed the total, and is 100 when every claim is supported |
| Engine.SummarizeCounts | proofsense_core.py:228-242 | the result keeps the answer and the claims; it counts each tier's claims, counts the supported claims as verified, and verified plus flagged is the total |
| Engine.SummarizeScores | proofsense_core.py:228-231 | without claims the mean score and coverage are 0; otherwise the overall score is the mean of the claim scores; both lie in [0, 100] |
| Engine.ScoreSumBounds | proofsense_core.py:228 | scores in [0, 100] sum to at most 100 per claim |
| Engine.ProofSenseEngine.VerifyAnswer | proofsense_core.py:203-242 | the pipeline returns exactly the specified verification result for the engine's copy and corpus |
| Engine.ClaimWellFormed | proofsense_core.py:210-223 | every claim keeps its text, has the tier of its score, a score in [0, 100] that is 0 exactly without evidence, at most three corpus statements as evidence, at most twelve distinct warnings, and a claim type exactly in the dashboard copy |
| Engine.EvidenceWellFormed | proofsense_core.py:211-212 | the evidence of a claim is at most three corpus statements and its score lies in [0, 100], 0 exactly without evidence |
| Engine.VerifyClaims | proofsense_core.py:205-225 | the claims of the result follow extraction order, one per extracted text, each well formed |
| Engine.VerifyCounts | proofsense_core.py:203-242 | the answer is kept; the total is the number of extracted claims; each tier count is the number of claims in that tier; verified plus flagged is the total; mean score and coverage are 0 without claims and in [0, 100] always |
| Engine.ClaimAgree | ProofSense_App_UI.py:613-642 | for the same text the two copies build claims with the same text, score, tier, evidence and warnings |
| Engine.SameAggregates | ProofSense_App_UI.py:644-659 | claim lists that agree on scores and tiers aggregate to the same figures |
| Engine.SameTiers | ProofSense_App_UI.py:642 | claim lists that agree on tiers have the same tier counts |
| Engine.SameScores | ProofSense_App_UI.py:645 | claim lists that agree on scores have the same score sum |
| Engine.UiMatchesCore | ProofSense_App_UI.py:605-659 | the dashboard copy's result agrees with the core's on every claim except the presentation, and on every aggregate figure |
| Engine.CompoundAnswerExample | tests/test_demo.py:130 | verifying "The Earth orbits the Sun, and the Moon orbits the Earth." gives two claims, the two halves in order |
| Segmenter.SingleClaim | proofsense_core.py:104-110 | a long, stripped sentence without commas whose only terminal is its last character is extracted as exactly one claim, itself |
| Segmenter.PlainGroupsSentence | proofsense_core.py:104-110 | text joined from comma-free groups without terminals, long enough and starting with a letter, followed by a full stop, is exactly one claim |
| Overconfidence.Flagged | proofsense_core.py:146-151 | a pattern that occurs as a whole word in the lower-cased claim yields its warning |
| Overconfidence.GroupMatch | proofsense_core.py:146-149 | a phrase standing between two spaces inside a text is found as a whole word in the lower-cased text |
| Engine.OneClaimAnswer | proofsense_core.py:203-242 | an answer extracted as exactly one claim verifies to one claim record for that text, carrying that text's warnings |
| Engine.HallucinationAnswerExample | tests/test_demo.py:33-45 | test 1's answer is one claim carrying the warnings for "definitely" and "guaranteed", so it has warnings, whatever the knowledge base |
| Engine.OverconfidentAnswerExample | tests/test_demo.py:97-114 | test 4's answer is one claim carrying the warnings for "always" and "definitely", so it has warnings, whatever the knowledge base |
| Engine.FinanceAnswerExample | tests/test_demo.py:148-161 | test 6's finance answer yields one claim, so the claim count is positive, whatever the knowledge base |
| Engine.HealthAnswerExample | tests/test_demo.py:148-161 | test 6's health answer yields one claim, whatever the knowledge base |
| Dashboard.UnsupportedRatio | ProofSense_App_UI.py:410-415 | the ratio is 0 without claims; it is never negative and is at most 100 when the high count does not exceed the total; it is 0 exactly when there are no claims or none is high; it is 100 exactly when all claims are high |
| Dashboard.UnsupportedOfSummary | ProofSense_App_UI.py:410-415 | for a verification result the ratio lies in [0, 100]; it is 0 exactly when no claim is high; with the evidence coverage it never exceeds 100 |
| Dashboard.UnsupportedOfVerify | ProofSense_App_UI.py:410-415 | the same facts for whatever `verify_answer` returns |
| Dashboard.ScoreColor | ProofSense_App_UI.py:661-670 | a score is drawn in the colour of its own risk tier |
| Dashboard.TierColorInjective | ProofSense_App_UI.py:661-670 | distinct tiers are drawn in distinct colours |
| Dashboard.ClaimColors | ProofSense_App_UI.py:661-670 | every claim of a result is drawn in the colour of the tier it was assigned |

## Left out

- Floating point: similarities, scores, mean and coverage are exact reals. `np.mean` and IEEE rounding are not modelled.
- Explanation.FormatScore: rounds the exact value half-to-even. A binary float near a tie can print the other digit.
- Text: `lower()` and `\w` are ASCII only, and `\d` means the ten ASCII digits. `split()` and `strip()` use the ASCII whitespace that Python's `isspace` accepts. Unicode case folding and Unicode whitespace are not modelled.
- `re.split`, `re.search`, `re.findall` and `list.sort` are library calls. They are modelled as the specific scans for the fixed patterns, and as an insertion sort whose result is a stable descending permutation. No general regex engine is modelled.
- The mis-decoded emoji in the core's explanation strings are kept as the code points they decode to. They are compared only as whole strings.
- `risk_distribution` is a map keyed by the four tiers of the `Risk` datatype, not by their name strings. `Risk.Name` gives the strings.
- The two engine copies in proofsense_core.py and ProofSense_App_UI.py are modelled once. The `Variant` parameter selects the glyphs and whether the claim-type tag is filled.
- The claim-text parameter of `calculate_claim_score` and `generate_explanation` is unused in the source and is dropped.
- The loop of `verify_answer` appears in the class as `VerifyAnswer`, with its body in `RecordClaim`, `VerifyClaim` and `Summary`.
- The Streamlit page, CSS, charts, `display_claim`, `main`, session state and sleeping are UI and are not part of this model.
- `generate_pdf_report`, the export functions, `to_dict`, `json.dumps`, timestamps and the CLI block are output and time, and are not part of this model.
- config.py is not part of this model: the engine never reads it.
- tests/test_demo.py's printing and timing are not modelled. Tests 1, 4, 5 and 8 and the finance and health cases of test 6 appear as example lemmas; the parts proved are those that hold for any knowledge base.
- Engine.HallucinationAnswerExample: proves only test 1's warnings. Its overall score below 40 and its flagged claim depend on the claim's similarity to the literal general corpus, which the model does not evaluate.
- Tests 2 and 3 are not modelled as lemmas: their scores, verified counts and flagged counts likewise depend on that similarity.
- The general-domain case of test 6 is not modelled: the commas inside "299,792,458" would need a separate argument that they start no conjunction split.
