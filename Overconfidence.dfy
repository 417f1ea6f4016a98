/** The overconfident-language scan (`detect_overconfident_language`): twelve literal
    phrases, each wrapped in `\b ... \b`, searched in the lower-cased claim; a pattern
    that occurs yields one warning naming the phrase, in pattern-list order. */
module Overconfidence {
  import opened Text

  /** The phrases of `overconfident_patterns`, without their `\b` anchors. */
  const Patterns: seq<string> := [
    "always", "never", "guaranteed", "certainly",
    "definitely", "impossible", "no doubt", "without question",
    "100%", "absolutely", "undoubtedly", "inevitably"
  ]

  /** `\bp\b` matches at index `i` of `s`. */
  predicate MatchAt(s: string, p: string, i: nat) {
    OccursAt(s, p, i) && Boundary(s, i) && Boundary(s, i + |p|)
  }

  /** The specification of a search for `\bp\b`: a match exists somewhere. */
  ghost predicate WholeWordIn(s: string, p: string) {
    exists i: nat :: i <= |s| && MatchAt(s, p, i)
  }

  /** `re.findall(r'\bp\b', s)` is non-empty: a left-to-right search from `i`. */
  function FindFrom(s: string, p: string, i: nat): (r: bool)
    requires i <= |s|
    ensures r <==> exists j: nat :: i <= j <= |s| && MatchAt(s, p, j)
    decreases |s| - i
  {
    if MatchAt(s, p, i) then true
    else if i == |s| then false
    else
      var r := FindFrom(s, p, i + 1);
      assert forall j: nat :: i <= j <= |s| && MatchAt(s, p, j) ==> j == i || i + 1 <= j;
      r
  }

  /** Whether `\bp\b` occurs in `s`. */
  function Occurs(s: string, p: string): (r: bool)
    ensures r <==> WholeWordIn(s, p)
  {
    FindFrom(s, p, 0)
  }

  /** The warning text for a phrase, as `matches[0]` is the phrase itself. */
  function Warning(p: string): (r: string)
    ensures EndsWith(r, p + "'")
  {
    "Overconfident language detected: '" + p + "'"
  }

  lemma WarningInjective(p: string, q: string)
    requires Warning(p) == Warning(q)
    ensures p == q
  {
    var n := |"Overconfident language detected: '"|;
    assert Warning(p)[n..|Warning(p)| - 1] == p;
    assert Warning(q)[n..|Warning(q)| - 1] == q;
  }

  /** The warnings for the lower-cased claim `s` and the pattern list `ps`, one per
      pattern that occurs, in list order. */
  function Detected(s: string, ps: seq<string>): (r: seq<string>)
    ensures |r| <= |ps|
    decreases |ps|
  {
    if ps == [] then []
    else
      var init, last := ps[..|ps| - 1], ps[|ps| - 1];
      Detected(s, init) + (if Occurs(s, last) then [Warning(last)] else [])
  }

  /** A warning is produced exactly for the patterns that occur as whole words. */
  lemma {:induction false} DetectedMembers(s: string, ps: seq<string>, w: string)
    ensures w in Detected(s, ps) <==> exists p :: p in ps && WholeWordIn(s, p) && w == Warning(p)
    decreases |ps|
  {
    if ps != [] {
      var init, last := ps[..|ps| - 1], ps[|ps| - 1];
      assert ps == init + [last];
      DetectedMembers(s, init, w);
      if w in Detected(s, ps) && w !in Detected(s, init) {
        assert w == Warning(last) && WholeWordIn(s, last);
      }
      if exists p :: p in ps && WholeWordIn(s, p) && w == Warning(p) {
        var p :| p in ps && WholeWordIn(s, p) && w == Warning(p);
        if p !in init {
          assert p == last;
        }
      }
    }
  }

  /** Scanning a concatenated pattern list concatenates the warnings: order follows the
      pattern list, not the text. */
  lemma {:induction false} DetectedAppend(s: string, a: seq<string>, b: seq<string>)
    ensures Detected(s, a + b) == Detected(s, a) + Detected(s, b)
    decreases |b|
  {
    if b == [] {
      assert a + b == a;
    } else {
      var init, last := b[..|b| - 1], b[|b| - 1];
      assert (a + b)[..|a + b| - 1] == a + init;
      assert (a + b)[|a + b| - 1] == last;
      DetectedAppend(s, a, init);
    }
  }

  predicate Distinct(s: seq<string>) {
    forall i, j :: 0 <= i < j < |s| ==> s[i] != s[j]
  }

  /** Distinct patterns give distinct warnings: at most one warning per pattern. */
  lemma {:induction false} DetectedDistinct(s: string, ps: seq<string>)
    requires Distinct(ps)
    ensures Distinct(Detected(s, ps))
    decreases |ps|
  {
    if ps != [] {
      var init, last := ps[..|ps| - 1], ps[|ps| - 1];
      var d := Detected(s, init);
      DetectedDistinct(s, init);
      if Occurs(s, last) {
        forall k | 0 <= k < |d| ensures d[k] != Warning(last) {
          DetectedMembers(s, init, d[k]);
          var p :| p in init && WholeWordIn(s, p) && d[k] == Warning(p);
          if d[k] == Warning(last) {
            WarningInjective(p, last);
            assert false;
          }
        }
      }
    }
  }

  lemma PatternsDistinct()
    ensures Distinct(Patterns)
  {
  }

  /** `detect_overconfident_language(claim)` is a function of `claim.lower()`. */
  function DetectFor(claim: string): (r: seq<string>)
    ensures |r| <= 12
    ensures Distinct(r)
  {
    PatternsDistinct();
    DetectedDistinct(Lower(claim), Patterns);
    Detected(Lower(claim), Patterns)
  }

  /** The scan is case-insensitive: it sees only the lower-cased claim. */
  lemma DetectForLower(claim: string)
    ensures DetectFor(Lower(claim)) == DetectFor(claim)
  {
    LowerIdempotent(claim);
  }

  /** A pattern that occurs as a whole word in the lower-cased claim yields its
      warning. */
  lemma Flagged(claim: string, p: string)
    requires p in Patterns && WholeWordIn(Lower(claim), p)
    ensures Warning(p) in DetectFor(claim)
  {
    DetectedMembers(Lower(claim), Patterns, Warning(p));
  }

  /** A whole-word match strictly inside `y` stays a whole-word match when text is
      put on either side of `y`. */
  lemma MatchInside(x: string, y: string, z: string, p: string, i: nat)
    requires 0 < i && i + |p| < |y| && MatchAt(y, p, i)
    ensures MatchAt(x + y + z, p, |x| + i)
  {
    var s := x + y + z;
    assert s[|x| + i..|x| + i + |p|] == y[i..i + |p|];
    assert s[|x| + i - 1] == y[i - 1];
    assert s[|x| + i + |p|] == y[i + |p|];
  }

  /** A phrase without capitals that starts and ends with a word character matches as
      a whole word when it stands between two spaces. */
  lemma SpacedMatch(p: string)
    requires p != [] && IsWordChar(p[0]) && IsWordChar(p[|p| - 1])
    requires forall k :: 0 <= k < |p| ==> !('A' <= p[k] <= 'Z')
    ensures MatchAt(Lower(" " + p + " "), p, 1)
  {
    var y := " " + p + " ";
    assert Lower(y) == y by {
      forall k | 0 <= k < |y| ensures Lower(y)[k] == y[k] {
        if 0 < k <= |p| {
          assert y[k] == p[k - 1];
        }
      }
    }
    assert y[1..1 + |p|] == p;
    assert y[1] == p[0] && y[|p|] == p[|p| - 1];
  }

  /** In a text made of groups followed by a full stop, a phrase that is a group of
      its own between two spaces occurs as a whole word of the lower-cased text. */
  lemma GroupMatch(g: seq<string>, k: nat, p: string)
    requires k < |g| && g[k] == " " + p + " "
    requires p != [] && IsWordChar(p[0]) && IsWordChar(p[|p| - 1])
    requires forall j :: 0 <= j < |p| ==> !('A' <= p[j] <= 'Z')
    ensures WholeWordIn(Lower(Join(g) + "."), p)
  {
    var x, y, z := Join(g[..k]), g[k], Join(g[k + 1..]) + ".";
    JoinSplit(g, k);
    assert Join(g) + "." == x + y + z;
    SpacedMatch(p);
    MatchInLower(x, y, z, p);
  }

  /** A match just inside the lower-cased middle part is a whole-word match of the
      lower-cased whole. */
  lemma MatchInLower(x: string, y: string, z: string, p: string)
    requires |p| + 1 < |y| && MatchAt(Lower(y), p, 1)
    ensures WholeWordIn(Lower(x + y + z), p)
  {
    LowerConcat(x, y);
    LowerConcat(x + y, z);
    MatchInside(Lower(x), Lower(y), Lower(z), p, 1);
    assert MatchAt(Lower(x + y + z), p, |x| + 1);
  }

  /** The trailing `\b` of `\b100%\b` needs a word character after the `%`. */
  lemma PercentBoundaryExample()
    ensures !Occurs("100% of", "100%")
    ensures Occurs("100%x", "100%")
  {
    var s := "100% of";
    forall i: nat | i <= |s| ensures !MatchAt(s, "100%", i) {
      if i == 0 {
        assert !WordAt(s, 4);
      }
    }
    assert MatchAt("100%x", "100%", 0);
  }

  /** Whole words only: "never" is not found inside "neverland", but is found in
      "never again". */
  lemma WholeWordExample()
    ensures !Occurs("neverland", "never")
    ensures Occurs("never again", "never")
  {
    var s := "neverland";
    forall i: nat | i <= |s| ensures !MatchAt(s, "never", i) {
      if i == 0 {
        assert WordAt(s, 5);
      }
    }
    assert MatchAt("never again", "never", 0);
  }
}
