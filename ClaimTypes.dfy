/** The dashboard's claim-type badge (`detect_claim_type`): a claim is quantitative when
    a number is followed by a unit, otherwise causal when it holds a cause-effect phrase
    as whole words, and factual otherwise. */
module ClaimTypes {
  import opened Text

  datatype ClaimType = Quantitative | Causal | Factual {
    /** The badge text. */
    function Label(): string {
      match this
      case Quantitative => "\U{1F4CA} Quantitative"
      case Causal => "\U{1F9E0} Causal"
      case Factual => "\U{1F4DA} Factual"
    }

    /** The badge tooltip. */
    function Description(): string {
      match this
      case Quantitative => "Contains numerical/measured data"
      case Causal => "Describes cause-effect relationships"
      case Factual => "States factual information"
    }
  }

  /** The three badges are told apart by their glyph. */
  lemma LabelsDistinct(a: ClaimType, b: ClaimType)
    requires a.Label() == b.Label()
    ensures a == b
  {
    assert a.Label()[0] == b.Label()[0];
  }

  // ---------------------------------------------------------------------------
  // Quantities: \d+\.?\d*\s*(?:%|percent|degrees|...|pounds)

  const Units: seq<string> := [
    "%", "percent", "degrees", "meters", "dollars", "years",
    "days", "hours", "kg", "km", "miles", "pounds"
  ]

  predicate UnitAt(s: string, k: nat) {
    exists u :: u in Units && OccursAt(s, u, k)
  }

  /** Every unit starts with `%` or a letter, so a unit never starts with a digit, a
      point or whitespace. */
  lemma UnitStart(s: string, k: nat)
    requires UnitAt(s, k)
    ensures k < |s| && !IsDigit(s[k]) && s[k] != '.' && !IsSpace(s[k])
  {
    var u :| u in Units && OccursAt(s, u, k);
    assert s[k] == s[k..k + |u|][0] == u[0];
  }

  /** The end of the run of digits starting at `i`. */
  function DigitsEnd(s: string, i: nat): (r: nat)
    requires i <= |s|
    ensures i <= r <= |s|
    ensures forall t :: i <= t < r ==> IsDigit(s[t])
    ensures r < |s| ==> !IsDigit(s[r])
    decreases |s| - i
  {
    if i == |s| || !IsDigit(s[i]) then i else DigitsEnd(s, i + 1)
  }

  predicate AllDigits(s: string, a: nat, b: nat)
    requires a <= b <= |s|
  {
    forall t :: a <= t < b ==> IsDigit(s[t])
  }

  predicate AllSpaces(s: string, a: nat, b: nat)
    requires a <= b <= |s|
  {
    forall t :: a <= t < b ==> IsSpace(s[t])
  }

  /** The regular expression read literally: some way of cutting `s` from `i` into
      digits `[i, a)`, an optional point `[a, b)`, digits `[b, c)` and whitespace
      `[c, k)` puts a unit at `k`. */
  ghost predicate QuantityMatch(s: string, i: nat) {
    exists a: nat, b: nat, c: nat, k: nat :: QuantityCut(s, i, a, b, c, k)
  }

  predicate QuantityCut(s: string, i: nat, a: nat, b: nat, c: nat, k: nat) {
    i < a <= b <= c <= k <= |s| && AllDigits(s, i, a)
    && (b == a || (b == a + 1 && s[a] == '.'))
    && AllDigits(s, b, c) && AllSpaces(s, c, k) && UnitAt(s, k)
  }

  /** The same match found without backtracking: the longest run of digits, a point if
      one follows, the longest run of digits, the longest run of whitespace, then a unit. */
  predicate QuantityAt(s: string, i: nat) {
    i < |s| && IsDigit(s[i])
    && var a := DigitsEnd(s, i);
       var b := if a < |s| && s[a] == '.' then a + 1 else a;
       UnitAt(s, SkipSpaces(s, DigitsEnd(s, b)))
  }

  /** Greedy scanning finds exactly the matches of the expression: since no unit starts
      with a digit, a point or whitespace, backtracking cannot help. */
  lemma QuantityAtIsMatch(s: string, i: nat)
    ensures QuantityAt(s, i) <==> QuantityMatch(s, i)
  {
    if QuantityAt(s, i) {
      GreedyIsMatch(s, i);
    }
    if QuantityMatch(s, i) {
      MatchGivesGreedy(s, i);
    }
  }

  lemma MatchGivesGreedy(s: string, i: nat)
    requires QuantityMatch(s, i)
    ensures QuantityAt(s, i)
  {
    var a: nat, b: nat, c: nat, k: nat :| QuantityCut(s, i, a, b, c, k);
    MatchIsGreedy(s, i, a, b, c, k);
  }

  lemma GreedyIsMatch(s: string, i: nat)
    requires QuantityAt(s, i)
    ensures QuantityMatch(s, i)
  {
    var a := DigitsEnd(s, i);
    var b := if a < |s| && s[a] == '.' then a + 1 else a;
    var c := DigitsEnd(s, b);
    var k := SkipSpaces(s, c);
    assert QuantityCut(s, i, a, b, c, k);
  }

  lemma MatchIsGreedy(s: string, i: nat, a: nat, b: nat, c: nat, k: nat)
    requires QuantityCut(s, i, a, b, c, k)
    ensures QuantityAt(s, i)
  {
    CutEnd(s, c, k);
    if b == a {
      NoPointIsGreedy(s, i, a, c);
    } else {
      PointIsGreedy(s, i, a, c);
    }
  }

  /** After the digits comes whitespace up to the unit, which starts with neither a
      digit, a point nor whitespace. */
  lemma CutEnd(s: string, c: nat, k: nat)
    requires c <= k <= |s| && AllSpaces(s, c, k) && UnitAt(s, k)
    ensures c < |s| && !IsDigit(s[c]) && s[c] != '.' && SkipSpaces(s, c) == k
  {
    UnitStart(s, k);
    if c < k {
      assert IsSpace(s[c]);
    }
    SkipSpacesAt(s, c, k);
  }

  /** The cut has no point: all of `[i, c)` is digits, the greedy scan stops at `c`. */
  lemma NoPointIsGreedy(s: string, i: nat, a: nat, c: nat)
    requires i < a <= c < |s| && AllDigits(s, i, a) && AllDigits(s, a, c)
    requires !IsDigit(s[c]) && s[c] != '.'
    ensures DigitsEnd(s, i) == c && DigitsEnd(s, c) == c
  {
    assert AllDigits(s, i, c);
    DigitsEndAt(s, i, c);
    DigitsEndAt(s, c, c);
  }

  /** The cut has a point at `a`: the greedy scan stops at `a`, then at `c`. */
  lemma PointIsGreedy(s: string, i: nat, a: nat, c: nat)
    requires i < a < a + 1 <= c < |s| && AllDigits(s, i, a) && s[a] == '.'
    requires AllDigits(s, a + 1, c) && !IsDigit(s[c])
    ensures DigitsEnd(s, i) == a && DigitsEnd(s, a + 1) == c
  {
    DigitsEndAt(s, i, a);
    DigitsEndAt(s, a + 1, c);
  }

  lemma DigitsEndAt(s: string, i: nat, x: nat)
    requires i <= x <= |s| && AllDigits(s, i, x) && (x == |s| || !IsDigit(s[x]))
    ensures DigitsEnd(s, i) == x
  {
  }

  /** `re.search` for the quantity pattern succeeds. */
  predicate HasQuantity(s: string) {
    exists i: nat :: i < |s| && QuantityAt(s, i)
  }

  // ---------------------------------------------------------------------------
  // Causal phrases: \b(?:because|since|leads?\s+to|causes?|results?\s+in|due\s+to|
  //                     therefore|thus|consequently)\b

  /** `s[i..e]` is `head`, at least one whitespace character, then `tail`. */
  predicate SpacedAt(s: string, i: nat, e: nat, head: string, tail: string) {
    i + |head| < e && |tail| <= e <= |s| && e - |tail| > i + |head|
    && OccursAt(s, head, i) && OccursAt(s, tail, e - |tail|)
    && forall t :: i + |head| <= t < e - |tail| ==> IsSpace(s[t])
  }

  const CausalWords: seq<string> := ["because", "since", "cause", "causes", "therefore", "thus", "consequently"]

  /** `s[i..e]` is one of the alternatives of the causal group. */
  predicate CausalPhrase(s: string, i: nat, e: nat) {
    (i <= e <= |s| && s[i..e] in CausalWords)
    || SpacedAt(s, i, e, "lead", "to") || SpacedAt(s, i, e, "leads", "to")
    || SpacedAt(s, i, e, "result", "in") || SpacedAt(s, i, e, "results", "in")
    || SpacedAt(s, i, e, "due", "to")
  }

  /** `re.search` for the causal pattern succeeds: some alternative sits between two
      word boundaries. */
  predicate HasCausal(s: string) {
    exists i: nat, e: nat :: i <= e <= |s| && Boundary(s, i) && CausalPhrase(s, i, e) && Boundary(s, e)
  }

  /** Every causal alternative starts with one of these letters. */
  lemma CausalStart(s: string, i: nat, e: nat)
    requires CausalPhrase(s, i, e)
    ensures i < |s| && s[i] in "bsctlrd"
  {
    if i <= e <= |s| && s[i..e] in CausalWords {
      assert s[i] == s[i..e][0];
    }
  }

  /** `detect_claim_type(claim_text)`: the quantity pattern is tried first, then the
      causal one, on the lower-cased text. */
  function DetectClaimType(text: string): (r: ClaimType)
    ensures HasQuantity(Lower(text)) ==> r == Quantitative
    ensures r == Causal <==> !HasQuantity(Lower(text)) && HasCausal(Lower(text))
    ensures r == Factual <==> !HasQuantity(Lower(text)) && !HasCausal(Lower(text))
  {
    var lower := Lower(text);
    if HasQuantity(lower) then Quantitative
    else if HasCausal(lower) then Causal
    else Factual
  }

  /** A measured quantity: "Water boils at 100 degrees" is quantitative. */
  lemma QuantitativeExample()
    ensures DetectClaimType("Water boils at 100 degrees") == Quantitative
  {
    var s := Lower("Water boils at 100 degrees");
    assert s[15] == '1' && s[16] == '0' && s[17] == '0' && s[18] == ' ';
    assert DigitsEnd(s, 15) == 18;
    assert SkipSpaces(s, 18) == 19;
    assert OccursAt(s, "degrees", 19);
    assert QuantityAt(s, 15);
  }

  /** A cause-effect phrase and no quantity: causal. */
  lemma CausalExample()
    ensures DetectClaimType("Ice melts due to heat") == Causal
  {
    var s := Lower("Ice melts due to heat");
    forall i: nat | i < |s| ensures !QuantityAt(s, i) {
      assert !IsDigit(s[i]);
    }
    assert SpacedAt(s, 10, 16, "due", "to");
    assert Boundary(s, 10) && Boundary(s, 16);
  }

  const PricesClaim := "Prices rose because of 5 percent"

  /** Both patterns match: the quantity check runs first. */
  lemma BothPatternsExample()
    ensures var s := Lower(PricesClaim);
      HasQuantity(s) && HasCausal(s) && DetectClaimType(PricesClaim) == Quantitative
  {
    PricesQuantity();
    PricesCausal();
  }

  lemma PricesQuantity()
    ensures HasQuantity(Lower(PricesClaim))
  {
    var s := Lower(PricesClaim);
    assert s[23] == '5' && s[24] == ' ';
    assert DigitsEnd(s, 23) == 24;
    assert SkipSpaces(s, 24) == 25;
    assert OccursAt(s, "percent", 25);
    assert QuantityAt(s, 23);
  }

  lemma PricesCausal()
    ensures HasCausal(Lower(PricesClaim))
  {
    var s := Lower(PricesClaim);
    assert PricesClaim[12..19] == "because";
    assert forall k :: 12 <= k < 19 ==> s[k] == PricesClaim[k];
    assert s[12..19] == "because";
    assert CausalPhrase(s, 12, 19);
    assert s[11] == ' ' && s[12] == 'b' && s[18] == 'e' && s[19] == ' ';
    assert Boundary(s, 12) && Boundary(s, 19);
  }

  /** Neither pattern matches: factual. */
  lemma FactualExample()
    ensures DetectClaimType("I have a new phone") == Factual
  {
    var s := Lower("I have a new phone");
    forall i: nat | i < |s| ensures !QuantityAt(s, i) {
      assert !IsDigit(s[i]);
    }
    forall i: nat, e: nat | i <= e <= |s| ensures !CausalPhrase(s, i, e) {
      if CausalPhrase(s, i, e) {
        CausalStart(s, i, e);
      }
    }
  }
}
