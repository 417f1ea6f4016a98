/** The explanation text (`generate_explanation`): an opening sentence chosen by the
    70/50/30 score bands, a note when evidence is missing or scarce, and a note that
    counts the language warnings. */
module Explanation {
  import opened Text
  import opened Retrieval
  import opened Scoring

  /** The status glyphs that open each explanation. `proofsense_core.py` carries the
      emoji as mis-decoded text (UTF-8 bytes read as Mac Roman); the dashboard's copy
      of the engine carries the emoji themselves. Low and medium share a glyph. */
  datatype Markers = Markers(supported: string, caution: string, unsupported: string)

  const CoreMarkers: Markers :=
    Markers("\U{201A}\U{FA}\U{D6}", "\U{201A}\U{F6}\U{2020}\U{D4}\U{220F}\U{E8}", "\U{201A}\U{F9}\U{E5}")

  const UiMarkers: Markers := Markers("\U{2705}", "\U{26A0}\U{FE0F}", "\U{274C}")

  /** Python's round-half-to-even of an exact value. */
  function RoundHalfEven(t: real): (r: int)
    ensures (r as real) - 0.5 <= t <= (r as real) + 0.5
    ensures t - (t.Floor as real) == 0.5 ==> r % 2 == 0
    ensures t >= 0.0 ==> r >= 0
  {
    var fl := t.Floor;
    var frac := t - fl as real;
    if frac > 0.5 then fl + 1
    else if frac < 0.5 then fl
    else if fl % 2 == 0 then fl
    else fl + 1
  }

  /** `f"{x:.1f}"` for `x >= 0`: the integer part, a point and one decimal. */
  function FormatNonNegative(x: real): (r: string)
    requires x >= 0.0
  {
    var n := RoundHalfEven(x * 10.0);
    NatToString(n / 10) + "." + [DigitChar(n % 10)]
  }

  /** `f"{score:.1f}"`, on the exact value of `score`. */
  function FormatScore(score: real): string {
    if score < 0.0 then "-" + FormatNonNegative(-score) else FormatNonNegative(score)
  }

  /** Reading the rendered score back gives the score in tenths, to within half a tenth. */
  lemma FormatScoreClose(x: real)
    requires x >= 0.0
    ensures var f := FormatScore(x); var k := |f|;
      && k >= 3 && f[k - 2] == '.' && IsDigit(f[k - 1])
      && (forall j :: 0 <= j < k - 2 ==> IsDigit(f[j]))
      && var tenths := ParseNat(f[..k - 2]) * 10 + DigitValue(f[k - 1]);
         (tenths as real) - 0.5 <= x * 10.0 <= (tenths as real) + 0.5
  {
    var n := RoundHalfEven(x * 10.0);
    var head := NatToString(n / 10);
    var f := FormatScore(x);
    assert f == head + "." + [DigitChar(n % 10)];
    assert f[..|f| - 2] == head;
    ParseNatToString(n / 10);
    assert DigitValue(DigitChar(n % 10)) == n % 10;
  }

  lemma FormatScoreExample()
    ensures FormatScore(91.0) == "91.0"
    ensures FormatScore(31.0) == "31.0"
  {
    assert RoundHalfEven(910.0) == 910;
    assert RoundHalfEven(310.0) == 310;
  }

  /** The leading sentence of each band, before the score in parentheses. */
  const VerifiedLead: string := " This claim is well-supported with strong evidence"
  const LowLead: string := " This claim has moderate support but could benefit from additional verification"
  const MediumLead: string := " This claim has weak support in available sources"
  const HighLead: string := " This claim lacks supporting evidence in retrieved sources"

  const ConfidenceOpen: string := " (verifiability confidence: "
  const ConfidenceClose: string := "/100)."

  /** The sentences that follow the score in the medium and high bands. */
  const CautionNote: string := " Exercise caution."
  const HallucinationNote: string := " High risk of hallucination."

  /** The glyph that opens the explanation of a tier. */
  function Glyph(m: Markers, risk: Risk): string {
    match risk
    case Verified => m.supported
    case Low => m.caution
    case Medium => m.caution
    case High => m.unsupported
  }

  /** The opening sentence of each band after its glyph, around the formatted score `f`. */
  function OpeningText(risk: Risk, f: string): string {
    match risk
    case Verified => VerifiedLead + ConfidenceOpen + f + ConfidenceClose
    case Low => LowLead + ConfidenceOpen + f + ConfidenceClose
    case Medium => MediumLead + ConfidenceOpen + f + ConfidenceClose + CautionNote
    case High => HighLead + ConfidenceOpen + f + ConfidenceClose + HallucinationNote
  }

  function Opening(m: Markers, risk: Risk, f: string): string {
    Glyph(m, risk) + OpeningText(risk, f)
  }

  const NoEvidenceNote: string := " No matching evidence found in prototype evidence store."
  const LimitedNote: string := " Limited supporting sources found."
  const WarningEnd: string := " language warning(s) detected."

  function WarningNote(count: nat): string {
    " Additionally, " + NatToString(count) + WarningEnd
  }

  /** The opening plus the evidence note, before the warning note. */
  function ExplanationBody(m: Markers, score: real, evidence: seq<Scored>): string {
    var f := FormatScore(score);
    var opening :=
      if score >= 70.0 then Opening(m, Verified, f)
      else if score >= 50.0 then Opening(m, Low, f)
      else if score >= 30.0 then Opening(m, Medium, f)
      else Opening(m, High, f);
    if evidence == [] then opening + NoEvidenceNote
    else if |evidence| < 2 then opening + LimitedNote
    else opening
  }

  /** `generate_explanation(claim, score, evidence_list, warnings)`; the claim text is
      not used. */
  function GenerateExplanation(m: Markers, score: real, evidence: seq<Scored>, warnings: seq<string>): string {
    var body := ExplanationBody(m, score, evidence);
    if warnings != [] then body + WarningNote(|warnings|) else body
  }

  /** The last three characters. */
  function Tail3(s: string): string
    requires |s| >= 3
  {
    s[|s| - 3..]
  }

  lemma Tail3Concat(a: string, b: string)
    requires |b| >= 3
    ensures Tail3(a + b) == Tail3(b)
  {
    assert (a + b)[|a + b| - 3..] == b[|b| - 3..];
  }

  lemma Tail3EndsWith(s: string, p: string)
    requires EndsWith(s, p) && |p| >= 3
    ensures Tail3(s) == Tail3(p)
  {
    EndsWithAgree(s, p, s, 3);
  }

  /** Every opening ends in "0)." or "on.". */
  lemma OpeningTail(m: Markers, risk: Risk, f: string)
    ensures |Opening(m, risk, f)| >= 3
    ensures Tail3(Opening(m, risk, f)) == "0)." || Tail3(Opening(m, risk, f)) == "on."
  {
    match risk
    case Verified => VerifiedTail(f);
    case Low => LowTail(f);
    case Medium => MediumTail(f);
    case High => HighTail(f);
    Tail3Concat(Glyph(m, risk), OpeningText(risk, f));
  }

  lemma VerifiedTail(f: string)
    ensures |OpeningText(Verified, f)| >= 3 && Tail3(OpeningText(Verified, f)) == "0)."
  {
    Tail3Concat(VerifiedLead + ConfidenceOpen + f, ConfidenceClose);
  }

  lemma LowTail(f: string)
    ensures |OpeningText(Low, f)| >= 3 && Tail3(OpeningText(Low, f)) == "0)."
  {
    Tail3Concat(LowLead + ConfidenceOpen + f, ConfidenceClose);
  }

  lemma MediumTail(f: string)
    ensures |OpeningText(Medium, f)| >= 3 && Tail3(OpeningText(Medium, f)) == "on."
  {
    Tail3Concat(MediumLead + ConfidenceOpen + f + ConfidenceClose, CautionNote);
  }

  lemma HighTail(f: string)
    ensures |OpeningText(High, f)| >= 3 && Tail3(OpeningText(High, f)) == "on."
  {
    Tail3Concat(HighLead + ConfidenceOpen + f + ConfidenceClose, HallucinationNote);
  }

  lemma NoteTails()
    ensures Tail3(NoEvidenceNote) == "re."
    ensures Tail3(LimitedNote) == "nd."
    ensures Tail3(WarningEnd) == "ed."
  {
  }

  /** The opening is picked by the same thresholds as the risk tier. */
  lemma ExplanationBand(m: Markers, score: real, evidence: seq<Scored>, warnings: seq<string>)
    ensures StartsWith(GenerateExplanation(m, score, evidence, warnings),
                       Opening(m, RiskOf(score), FormatScore(score)))
  {
    var o := Opening(m, RiskOf(score), FormatScore(score));
    var body := ExplanationBody(m, score, evidence);
    BodyStartsWithOpening(m, score, evidence);
    if warnings != [] {
      StartsConcat(body, WarningNote(|warnings|));
      PrefixOfPrefix(body + WarningNote(|warnings|), body, o);
    }
  }

  lemma BodyStartsWithOpening(m: Markers, score: real, evidence: seq<Scored>)
    ensures StartsWith(ExplanationBody(m, score, evidence), Opening(m, RiskOf(score), FormatScore(score)))
  {
    var o := Opening(m, RiskOf(score), FormatScore(score));
    if evidence == [] {
      StartsConcat(o, NoEvidenceNote);
    } else if |evidence| < 2 {
      StartsConcat(o, LimitedNote);
    }
  }

  lemma StartsConcat(a: string, b: string)
    ensures StartsWith(a + b, a)
  {
    assert (a + b)[..|a|] == a;
  }

  /** The missing-evidence note ends the body exactly when there is no evidence, and the
      scarce-evidence note exactly when there is one entry. */
  lemma EvidenceNotes(m: Markers, score: real, evidence: seq<Scored>)
    ensures EndsWith(ExplanationBody(m, score, evidence), NoEvidenceNote) <==> evidence == []
    ensures EndsWith(ExplanationBody(m, score, evidence), LimitedNote) <==> |evidence| == 1
  {
    var o := Opening(m, RiskOf(score), FormatScore(score));
    var body := ExplanationBody(m, score, evidence);
    NoteTails();
    OpeningTail(m, RiskOf(score), FormatScore(score));
    if evidence == [] {
      assert body == o + NoEvidenceNote;
      EndsWithConcat(o, NoEvidenceNote, NoEvidenceNote);
      AvoidsTail(body, LimitedNote, NoEvidenceNote);
    } else if |evidence| < 2 {
      assert body == o + LimitedNote;
      EndsWithConcat(o, LimitedNote, LimitedNote);
      AvoidsTail(body, NoEvidenceNote, LimitedNote);
    } else {
      assert body == o;
      if EndsWith(body, NoEvidenceNote) {
        Tail3EndsWith(body, NoEvidenceNote);
      }
      if EndsWith(body, LimitedNote) {
        Tail3EndsWith(body, LimitedNote);
      }
    }
  }

  /** A string ending in `q` does not end in `p` when their last three characters differ. */
  lemma AvoidsTail(s: string, p: string, q: string)
    requires EndsWith(s, q) && |p| >= 3 && |q| >= 3 && Tail3(p) != Tail3(q)
    ensures !EndsWith(s, p)
  {
    Tail3EndsWith(s, q);
    if EndsWith(s, p) {
      Tail3EndsWith(s, p);
    }
  }

  /** A warning note, carrying the number of warnings, ends the explanation exactly when
      there are warnings. */
  lemma WarningNotes(m: Markers, score: real, evidence: seq<Scored>, warnings: seq<string>)
    ensures EndsWith(GenerateExplanation(m, score, evidence, warnings), WarningEnd) <==> warnings != []
    ensures warnings != [] ==>
      EndsWith(GenerateExplanation(m, score, evidence, warnings), WarningNote(|warnings|))
  {
    var body := ExplanationBody(m, score, evidence);
    var r := GenerateExplanation(m, score, evidence, warnings);
    NoteTails();
    if warnings != [] {
      EndsWithConcat(body, WarningNote(|warnings|), WarningNote(|warnings|));
      EndsWithConcat(" Additionally, " + NatToString(|warnings|), WarningEnd, WarningEnd);
      EndsWithConcat(body, WarningNote(|warnings|), WarningEnd);
    } else {
      BodyTail(m, score, evidence);
      if EndsWith(r, WarningEnd) {
        Tail3EndsWith(r, WarningEnd);
      }
    }
  }

  lemma BodyTail(m: Markers, score: real, evidence: seq<Scored>)
    ensures |ExplanationBody(m, score, evidence)| >= 3
    ensures Tail3(ExplanationBody(m, score, evidence)) in {"0).", "on.", "re.", "nd."}
  {
    var o := Opening(m, RiskOf(score), FormatScore(score));
    OpeningTail(m, RiskOf(score), FormatScore(score));
    NoteTails();
    if evidence == [] {
      Tail3Concat(o, NoEvidenceNote);
    } else if |evidence| < 2 {
      Tail3Concat(o, LimitedNote);
    }
  }

  /** The number in the warning note determines the number of warnings. */
  lemma WarningNoteInjective(a: nat, b: nat)
    requires WarningNote(a) == WarningNote(b)
    ensures a == b
  {
    var pre := " Additionally, ";
    var sa, sb := NatToString(a), NatToString(b);
    assert |sa| == |sb|;
    assert WarningNote(a)[|pre|..|pre| + |sa|] == sa;
    assert WarningNote(b)[|pre|..|pre| + |sb|] == sb;
    NatToStringInjective(a, b);
  }

  /** The glyph tells the band: within each marker set the three glyphs already differ
      in their first two characters. */
  lemma MarkerShowsBand(m: Markers, score: real, evidence: seq<Scored>, warnings: seq<string>)
    requires m == CoreMarkers || m == UiMarkers
    ensures var r := GenerateExplanation(m, score, evidence, warnings);
      && (StartsWith(r, m.supported) <==> RiskOf(score) == Verified)
      && (StartsWith(r, m.caution) <==> RiskOf(score) == Low || RiskOf(score) == Medium)
      && (StartsWith(r, m.unsupported) <==> RiskOf(score) == High)
  {
    var r := GenerateExplanation(m, score, evidence, warnings);
    var o := Opening(m, RiskOf(score), FormatScore(score));
    ExplanationBand(m, score, evidence, warnings);
    GlyphStartsOpening(m, RiskOf(score), FormatScore(score));
    PrefixOfPrefix(r, o, Glyph(m, RiskOf(score)));
    GlyphsExclusive(m, RiskOf(score), r);
  }

  lemma GlyphStartsOpening(m: Markers, risk: Risk, f: string)
    ensures StartsWith(Opening(m, risk, f), Glyph(m, risk))
  {
  }

  lemma PrefixOfPrefix(r: string, o: string, g: string)
    requires StartsWith(r, o) && StartsWith(o, g)
    ensures StartsWith(r, g)
  {
    assert r[..|g|] == o[..|g|];
  }

  lemma GlyphsExclusive(m: Markers, risk: Risk, r: string)
    requires m == CoreMarkers || m == UiMarkers
    requires StartsWith(r, Glyph(m, risk))
    ensures StartsWith(r, m.supported) <==> risk == Verified
    ensures StartsWith(r, m.caution) <==> risk == Low || risk == Medium
    ensures StartsWith(r, m.unsupported) <==> risk == High
  {
    var g := Glyph(m, risk);
    var k := if m == CoreMarkers then 1 else 0;
    assert r[k] == g[k];
  }

  function EvidenceNote(evidence: seq<Scored>): string {
    if evidence == [] then NoEvidenceNote else if |evidence| < 2 then LimitedNote else ""
  }

  function WarningPart(warnings: seq<string>): string {
    if warnings != [] then WarningNote(|warnings|) else ""
  }

  /** What follows the glyph. */
  function ExplanationText(score: real, evidence: seq<Scored>, warnings: seq<string>): string {
    OpeningText(RiskOf(score), FormatScore(score)) + EvidenceNote(evidence) + WarningPart(warnings)
  }

  lemma ExplanationParts(m: Markers, score: real, evidence: seq<Scored>, warnings: seq<string>)
    ensures GenerateExplanation(m, score, evidence, warnings)
         == Opening(m, RiskOf(score), FormatScore(score)) + EvidenceNote(evidence) + WarningPart(warnings)
  {
    var o := Opening(m, RiskOf(score), FormatScore(score));
    assert ExplanationBody(m, score, evidence) == o + EvidenceNote(evidence);
  }

  lemma Regroup(g: string, o: string, n: string, w: string)
    ensures (g + o) + n + w == g + (o + n + w)
  {
  }

  /** An explanation is its band's glyph followed by text that does not depend on the
      marker set. */
  lemma ExplanationSplit(m: Markers, score: real, evidence: seq<Scored>, warnings: seq<string>)
    ensures GenerateExplanation(m, score, evidence, warnings)
         == Glyph(m, RiskOf(score)) + ExplanationText(score, evidence, warnings)
  {
    ExplanationParts(m, score, evidence, warnings);
    Regroup(Glyph(m, RiskOf(score)), OpeningText(RiskOf(score), FormatScore(score)),
            EvidenceNote(evidence), WarningPart(warnings));
  }

  /** The two copies of the engine word their explanations identically; only the
      opening glyph differs. */
  lemma MarkersOnlyDiffer(m1: Markers, m2: Markers, score: real, evidence: seq<Scored>, warnings: seq<string>)
    ensures var g1, g2 := Glyph(m1, RiskOf(score)), Glyph(m2, RiskOf(score));
      var r1, r2 := GenerateExplanation(m1, score, evidence, warnings), GenerateExplanation(m2, score, evidence, warnings);
      StartsWith(r1, g1) && StartsWith(r2, g2) && r1[|g1|..] == r2[|g2|..]
  {
    ExplanationSplit(m1, score, evidence, warnings);
    ExplanationSplit(m2, score, evidence, warnings);
  }
}
