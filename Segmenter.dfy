/** Claim segmentation (`extract_claims`): the answer is split into sentences at a
    run of whitespace that follows `.`, `!` or `?`, each long-enough sentence is split
    again at a comma followed by a conjunction, and every piece is stripped and kept
    when it is longer than ten characters. */
module Segmenter {
  import opened Text

  /** A piece is kept only when its stripped length is strictly greater than this. */
  const MinClaimLength: nat := 10

  /** The two split patterns of `extract_claims`. */
  datatype Pattern =
    | SentenceEnd   // (?<=[.!?])\s+
    | Conjunction   // ,\s*(?:and|but|however|moreover)\s+

  predicate IsTerminal(c: char) {
    c == '.' || c == '!' || c == '?'
  }

  /** Length of the conjunction word that starts at `j`, or 0. At most one of the four
      alternatives can start at a given index, since their first letters differ. */
  function ConjunctionWordAt(s: string, j: nat): nat
  {
    if OccursAt(s, "and", j) then 3
    else if OccursAt(s, "but", j) then 3
    else if OccursAt(s, "however", j) then 7
    else if OccursAt(s, "moreover", j) then 8
    else 0
  }

  /** Length of the match of pattern `p` that starts at index `i`, or 0 when none starts
      there. Both patterns end in a greedy whitespace run, so a match is as long as the
      whitespace after it allows. */
  function MatchLength(p: Pattern, s: string, i: nat): (k: nat)
    requires i < |s|
    ensures i + k <= |s|
  {
    match p
    case SentenceEnd =>
      if i > 0 && IsTerminal(s[i - 1]) && IsSpace(s[i]) then SkipSpaces(s, i) - i else 0
    case Conjunction =>
      if s[i] != ',' then 0
      else
        var j := SkipSpaces(s, i + 1);
        var w := ConjunctionWordAt(s, j);
        if w > 0 && j + w < |s| && IsSpace(s[j + w]) then SkipSpaces(s, j + w) - i else 0
  }

  /** `re.split(p, s[start..])` scanning from index `i`: matches are found left to
      right without overlap and the text between them is returned, including empty
      pieces at either end. */
  function SplitFrom(p: Pattern, s: string, start: nat, i: nat): (r: seq<string>)
    requires start <= i <= |s|
    ensures |r| >= 1
    decreases |s| - i
  {
    if i == |s| then [s[start..]]
    else
      var k := MatchLength(p, s, i);
      if k > 0 then [s[start..i]] + SplitFrom(p, s, i + k, i + k)
      else SplitFrom(p, s, start, i + 1)
  }

  function Split(p: Pattern, s: string): (r: seq<string>)
    ensures |r| >= 1
  {
    SplitFrom(p, s, 0, 0)
  }

  /** `re.split(r'(?<=[.!?])\s+', text.strip())`. */
  function Sentences(text: string): seq<string> {
    Split(SentenceEnd, Strip(text))
  }

  /** `[c.strip() for c in pieces if len(c.strip()) > 10]`. */
  function KeepLong(pieces: seq<string>): (r: seq<string>)
    ensures |r| <= |pieces|
    ensures forall c :: c in r ==> |c| > MinClaimLength && IsStripped(c)
  {
    if pieces == [] then []
    else
      var c := Strip(pieces[0]);
      (if |c| > MinClaimLength then [c] else []) + KeepLong(pieces[1..])
  }

  /** The claims one sentence contributes in the loop of `extract_claims`. */
  function SentenceClaims(sentence: string): seq<string> {
    if |Strip(sentence)| > MinClaimLength then KeepLong(Split(Conjunction, sentence)) else []
  }

  function ClaimsOf(sentences: seq<string>): (r: seq<string>)
    ensures forall c :: c in r ==> |c| > MinClaimLength && IsStripped(c)
  {
    if sentences == [] then [] else SentenceClaims(sentences[0]) + ClaimsOf(sentences[1..])
  }

  /** What `extract_claims(text)` returns. */
  function Claims(text: string): seq<string> {
    ClaimsOf(Sentences(text))
  }

  lemma {:induction false} ClaimsOfAppend(ss: seq<string>, s: string)
    ensures ClaimsOf(ss + [s]) == ClaimsOf(ss) + SentenceClaims(s)
  {
    if ss == [] {
      assert ss + [s] == [s];
    } else {
      assert (ss + [s])[1..] == ss[1..] + [s];
      ClaimsOfAppend(ss[1..], s);
    }
  }

  /** Every claim is stripped and longer than the minimum length. */
  lemma ClaimsAreLong(text: string)
    ensures forall c :: c in Claims(text) ==> |c| > MinClaimLength && Strip(c) == c
  {
    forall c | c in Claims(text) ensures Strip(c) == c {
      StripOfStripped(c);
    }
  }

  /** Empty or whitespace-only input yields no claim. */
  lemma BlankTextHasNoClaims(text: string)
    requires forall k :: 0 <= k < |text| ==> IsSpace(text[k])
    ensures Claims(text) == []
  {
    assert Strip(text) == [];
    assert Sentences(text) == [""];
  }

  /** Scanning over positions where no match starts does not change the split. */
  lemma {:induction false} SplitSkips(p: Pattern, s: string, start: nat, i: nat, m: nat)
    requires start <= i <= m <= |s|
    requires forall j :: i <= j < m ==> MatchLength(p, s, j) == 0
    ensures SplitFrom(p, s, start, i) == SplitFrom(p, s, start, m)
    decreases m - i
  {
    if i < m {
      SplitFromAt(p, s, start, i);
      SplitSkips(p, s, start, i + 1, m);
    }
  }

  predicate NoTerminal(t: string) {
    forall j :: 0 <= j < |t| ==> !IsTerminal(t[j])
  }

  predicate NoComma(t: string) {
    forall j :: 0 <= j < |t| ==> t[j] != ','
  }

  /** Text without terminals and commas stays so when joined to more such text. */
  lemma PlainConcat(a: string, b: string)
    requires NoTerminal(a) && NoComma(a) && NoTerminal(b) && NoComma(b)
    ensures NoTerminal(a + b) && NoComma(a + b)
  {
    forall j | 0 <= j < |a + b| ensures !IsTerminal((a + b)[j]) && (a + b)[j] != ',' {
      if j < |a| {
        assert (a + b)[j] == a[j];
      } else {
        assert (a + b)[j] == b[j - |a|];
      }
    }
  }

  /** A stripped text whose only terminal is its last character is one sentence. */
  lemma OneSentence(s: string)
    requires s != [] && IsStripped(s) && NoTerminal(s[..|s| - 1])
    ensures Sentences(s) == [s]
  {
    StripOfStripped(s);
    forall j | 0 <= j < |s| ensures MatchLength(SentenceEnd, s, j) == 0 {
      if j > 0 {
        assert s[j - 1] == s[..|s| - 1][j - 1];
      }
    }
    SplitSkips(SentenceEnd, s, 0, 0, |s|);
    assert s[0..] == s;
  }

  /** A long, stripped, comma-free sentence whose only terminal is its last character
      is extracted as exactly one claim, itself. */
  lemma SingleClaim(s: string)
    requires s != [] && IsStripped(s) && NoTerminal(s[..|s| - 1]) && NoComma(s)
    requires |s| > MinClaimLength
    ensures Claims(s) == [s]
  {
    OneSentence(s);
    NoCommaNoMatch(s, 0, |s|);
    SplitSkips(Conjunction, s, 0, 0, |s|);
    assert Split(Conjunction, s) == [s[0..]];
    assert s[0..] == s;
    StripOfStripped(s);
    assert KeepLong([s]) == [s] + KeepLong([]);
    assert ClaimsOf([s]) == SentenceClaims(s) + ClaimsOf([]);
  }

  /** Groups without terminals and commas join into text without them. */
  lemma {:induction false} PlainJoin(g: seq<string>)
    requires forall k :: 0 <= k < |g| ==> NoTerminal(g[k]) && NoComma(g[k])
    ensures NoTerminal(Join(g)) && NoComma(Join(g))
    decreases |g|
  {
    if g != [] {
      PlainJoin(g[1..]);
      PlainConcat(g[0], Join(g[1..]));
    }
  }

  /** A long text without terminals and commas that starts with a non-space character,
      followed by a full stop, is exactly one claim. */
  lemma PlainSentence(w: string)
    requires NoTerminal(w) && NoComma(w) && |w| > MinClaimLength && !IsSpace(w[0])
    ensures Claims(w + ".") == [w + "."]
  {
    var s := w + ".";
    assert s[..|s| - 1] == w;
    forall j | 0 <= j < |s| ensures s[j] != ',' {
      if j < |w| {
        assert s[j] == w[j];
      }
    }
    SingleClaim(s);
  }

  /** Comma-free groups without terminals, the first starting with a non-space
      character and the first two long enough together, followed by a full stop, are
      exactly one claim. */
  lemma PlainGroupsSentence(g: seq<string>)
    requires forall k :: 0 <= k < |g| ==> NoTerminal(g[k]) && NoComma(g[k])
    requires |g| >= 2 && g[0] != [] && !IsSpace(g[0][0]) && |g[0]| + |g[1]| > MinClaimLength
    ensures Claims(Join(g) + ".") == [Join(g) + "."]
  {
    PlainJoin(g);
    JoinSplit(g, 1);
    assert g[..1] == [g[0]] && Join([g[0]]) == g[0] + Join([]);
    PlainSentence(Join(g));
  }

  /** `a, and b` splits into `a` and `b` when neither holds a comma and `b` does not
      start with whitespace. */
  lemma SplitAtAnd(a: string, b: string)
    requires NoComma(a) && NoComma(b) && b != [] && !IsSpace(b[0])
    ensures Split(Conjunction, a + ", and " + b) == [a, b]
  {
    var s := a + ", and " + b;
    var n := |a|;
    CommaFreeHalves(a, b);
    NoCommaNoMatch(s, 0, n);
    SplitSkips(Conjunction, s, 0, 0, n);
    AndMatch(a, b);
    SplitFromAt(Conjunction, s, 0, n);
    NoCommaNoMatch(s, n + 6, |s|);
    SplitSkips(Conjunction, s, n + 6, n + 6, |s|);
    assert SplitFrom(Conjunction, s, n + 6, |s|) == [s[n + 6..]];
    assert s[0..n] == a && s[n + 6..] == b;
  }

  lemma CommaFreeHalves(a: string, b: string)
    requires NoComma(a) && NoComma(b)
    ensures forall j :: 0 <= j < |a| ==> (a + ", and " + b)[j] != ','
    ensures forall j :: |a| + 6 <= j < |a| + 6 + |b| ==> (a + ", and " + b)[j] != ','
  {
    var s := a + ", and " + b;
    forall j | 0 <= j < |a| ensures s[j] != ',' {
      assert s[j] == a[j];
    }
    forall j | |a| + 6 <= j < |a| + 6 + |b| ensures s[j] != ',' {
      assert s[j] == b[j - |a| - 6];
    }
  }

  /** No conjunction starts where there is no comma. */
  lemma NoCommaNoMatch(s: string, lo: nat, hi: nat)
    requires lo <= hi <= |s|
    requires forall j :: lo <= j < hi ==> s[j] != ','
    ensures forall j :: lo <= j < hi ==> MatchLength(Conjunction, s, j) == 0
  {
  }

  lemma AndMatch(a: string, b: string)
    requires b != [] && !IsSpace(b[0])
    ensures MatchLength(Conjunction, a + ", and " + b, |a|) == 6
  {
    var s := a + ", and " + b;
    var n := |a|;
    assert s[n] == ',' && s[n + 1] == ' ' && s[n + 2] == 'a';
    SkipSpacesAt(s, n + 1, n + 2);
    assert s[n + 2..n + 5] == "and";
    assert ConjunctionWordAt(s, n + 2) == 3;
    assert s[n + 5] == ' ' && s[n + 6] == b[0];
    SkipSpacesAt(s, n + 5, n + 6);
  }

  const EarthHalf := "The Earth orbits the Sun"
  const MoonHalf := "the Moon orbits the Earth."

  lemma HalvesFacts()
    ensures NoTerminal(EarthHalf) && NoComma(EarthHalf) && IsStripped(EarthHalf) && |EarthHalf| > MinClaimLength
    ensures NoTerminal(MoonHalf[..|MoonHalf| - 1]) && NoComma(MoonHalf) && IsStripped(MoonHalf)
    ensures |MoonHalf| > MinClaimLength && !IsSpace(MoonHalf[0])
  {
  }

  /** A sentence made of two long halves joined by ", and " gives the halves as claims. */
  lemma CompoundClaims(a: string, b: string)
    requires a != [] && NoTerminal(a) && NoComma(a) && IsStripped(a) && |a| > MinClaimLength
    requires b != [] && NoTerminal(b[..|b| - 1]) && NoComma(b) && IsStripped(b)
    requires |b| > MinClaimLength && !IsSpace(b[0])
    ensures Claims(a + ", and " + b) == [a, b]
  {
    var s := a + ", and " + b;
    CompoundOneSentence(a, b);
    SplitAtAnd(a, b);
    StripOfStripped(a);
    StripOfStripped(b);
    StripOfStripped(s);
    assert KeepLong([a, b]) == [a] + KeepLong([b]);
    assert SentenceClaims(s) == [a, b];
    assert ClaimsOf([s]) == SentenceClaims(s) + ClaimsOf([]);
  }

  lemma CompoundOneSentence(a: string, b: string)
    requires a != [] && NoTerminal(a) && IsStripped(a)
    requires b != [] && NoTerminal(b[..|b| - 1]) && IsStripped(b)
    ensures IsStripped(a + ", and " + b)
    ensures Sentences(a + ", and " + b) == [a + ", and " + b]
  {
    var s := a + ", and " + b;
    var n := |a|;
    var t := s[..|s| - 1];
    forall j | 0 <= j < |t| ensures !IsTerminal(t[j]) {
      if j >= n + 6 {
        assert t[j] == b[..|b| - 1][j - n - 6];
      } else if j >= n {
        assert t[j] == ", and "[j - n];
      } else {
        assert t[j] == a[j];
      }
    }
    assert s[0] == a[0] && s[|s| - 1] == b[|b| - 1];
    OneSentence(s);
  }

  /** The example of the project's own tests: a compound sentence joined by ", and "
      yields its two halves as two claims. */
  lemma CompoundSentenceExample()
    ensures Claims(EarthHalf + ", and " + MoonHalf) == [EarthHalf, MoonHalf]
  {
    HalvesFacts();
    CompoundClaims(EarthHalf, MoonHalf);
  }

  // ----- order: the claims occur in the text, left to right, without overlap -----

  /** `cs` occurs inside `t` in order and without overlap: `t` is
      gap + cs[0] + gap + cs[1] + ... + gap for some gaps. */
  predicate Embeds(cs: seq<string>, t: string)
    decreases |t|, |cs|
  {
    if cs == [] then true
    else if |t| < |cs[0]| then false
    else (t[..|cs[0]|] == cs[0] && Embeds(cs[1..], t[|cs[0]|..])) || (|t| > 0 && Embeds(cs, t[1..]))
  }

  lemma {:induction false} EmbedsAfterPrefix(cs: seq<string>, a: string, t: string)
    requires Embeds(cs, t)
    ensures Embeds(cs, a + t)
    decreases |a|
  {
    if a != [] && cs != [] {
      EmbedsAfterPrefix(cs, a[1..], t);
      assert (a + t)[1..] == a[1..] + t;
    } else if a == [] {
      assert a + t == t;
    }
  }

  lemma {:induction false} EmbedsConcat(cs1: seq<string>, t1: string, cs2: seq<string>, t2: string)
    requires Embeds(cs1, t1) && Embeds(cs2, t2)
    ensures Embeds(cs1 + cs2, t1 + t2)
    decreases |t1|, |cs1|
  {
    if cs1 == [] {
      assert cs1 + cs2 == cs2;
      EmbedsAfterPrefix(cs2, t1, t2);
    } else {
      var c := cs1[0];
      assert (cs1 + cs2)[0] == c && (cs1 + cs2)[1..] == cs1[1..] + cs2;
      if t1[..|c|] == c && Embeds(cs1[1..], t1[|c|..]) {
        EmbedsConcat(cs1[1..], t1[|c|..], cs2, t2);
        assert (t1 + t2)[..|c|] == c;
        assert (t1 + t2)[|c|..] == t1[|c|..] + t2;
      } else {
        EmbedsConcat(cs1, t1[1..], cs2, t2);
        assert (t1 + t2)[1..] == t1[1..] + t2;
      }
    }
  }

  lemma EmbedsSingle(c: string, a: string, b: string)
    ensures Embeds([c], a + c + b)
  {
    assert [c][1..] == [];
    assert Embeds([c], c + b) by {
      assert (c + b)[..|c|] == c;
    }
    EmbedsAfterPrefix([c], a, c + b);
    assert a + (c + b) == a + c + b;
  }

  lemma EmbedsWithGap(cs1: seq<string>, t1: string, g: string, cs2: seq<string>, t2: string)
    requires Embeds(cs1, t1) && Embeds(cs2, t2)
    ensures Embeds(cs1 + cs2, t1 + g + t2)
  {
    EmbedsAfterPrefix(cs2, g, t2);
    EmbedsConcat(cs1, t1, cs2, g + t2);
    assert t1 + (g + t2) == t1 + g + t2;
  }

  lemma EmbedsItself(c: string)
    ensures Embeds([c], c)
  {
    EmbedsSingle(c, [], []);
    assert [] + c + [] == c;
  }

  /** A piece, a separator, then pieces embedded in the rest of the text. */
  lemma PieceThenRest(s: string, start: nat, i: nat, k: nat, rest: seq<string>)
    requires start <= i <= i + k <= |s|
    requires Embeds(rest, s[i + k..])
    ensures Embeds([s[start..i]] + rest, s[start..])
  {
    EmbedsItself(s[start..i]);
    EmbedsWithGap([s[start..i]], s[start..i], s[i..i + k], rest, s[i + k..]);
    assert s[start..i] + s[i..i + k] + s[i + k..] == s[start..];
  }

  /** One step of the scan: a match ends the current piece, otherwise the scan moves on. */
  lemma SplitFromAt(p: Pattern, s: string, start: nat, i: nat)
    requires start <= i < |s|
    ensures var k := MatchLength(p, s, i);
      SplitFrom(p, s, start, i)
        == if k > 0 then [s[start..i]] + SplitFrom(p, s, i + k, i + k) else SplitFrom(p, s, start, i + 1)
  {
  }

  /** The pieces of a split occur in the split text in order. */
  lemma {:induction false} SplitEmbeds(p: Pattern, s: string, start: nat, i: nat)
    requires start <= i <= |s|
    ensures Embeds(SplitFrom(p, s, start, i), s[start..])
    decreases |s| - i
  {
    if i == |s| {
      EmbedsItself(s[start..]);
    } else {
      var k := MatchLength(p, s, i);
      if k > 0 {
        SplitEmbeds(p, s, i + k, i + k);
        MatchEmbeds(p, s, start, i);
      } else {
        SplitEmbeds(p, s, start, i + 1);
        NoMatchEmbeds(p, s, start, i);
      }
    }
  }

  lemma MatchEmbeds(p: Pattern, s: string, start: nat, i: nat)
    requires start <= i < |s| && MatchLength(p, s, i) > 0
    requires var k := MatchLength(p, s, i); Embeds(SplitFrom(p, s, i + k, i + k), s[i + k..])
    ensures Embeds(SplitFrom(p, s, start, i), s[start..])
  {
    var k := MatchLength(p, s, i);
    PieceThenRest(s, start, i, k, SplitFrom(p, s, i + k, i + k));
    SplitFromAt(p, s, start, i);
  }

  lemma NoMatchEmbeds(p: Pattern, s: string, start: nat, i: nat)
    requires start <= i < |s| && MatchLength(p, s, i) == 0
    requires Embeds(SplitFrom(p, s, start, i + 1), s[start..])
    ensures Embeds(SplitFrom(p, s, start, i), s[start..])
  {
    SplitFromAt(p, s, start, i);
  }

  lemma StrippedPieceEmbeds(q: string)
    ensures Embeds(if |Strip(q)| > MinClaimLength then [Strip(q)] else [], q)
  {
    if |Strip(q)| > MinClaimLength {
      StripInside(q);
      var b := StripBounds(q);
      EmbedsSingle(Strip(q), q[..b.0], q[b.1..]);
    }
  }

  lemma {:induction false} KeepLongEmbeds(pieces: seq<string>, t: string)
    requires Embeds(pieces, t)
    ensures Embeds(KeepLong(pieces), t)
    decreases |t|, |pieces|
  {
    if pieces != [] {
      var q := pieces[0];
      if t[..|q|] == q && Embeds(pieces[1..], t[|q|..]) {
        KeepLongEmbeds(pieces[1..], t[|q|..]);
        StrippedPieceEmbeds(q);
        HeadThenRest(if |Strip(q)| > MinClaimLength then [Strip(q)] else [], q, KeepLong(pieces[1..]), t);
      } else {
        KeepLongEmbeds(pieces, t[1..]);
        SkipFirst(KeepLong(pieces), t);
      }
    }
  }

  /** Head claims inside the first piece, the rest after it. */
  lemma HeadThenRest(head: seq<string>, q: string, rest: seq<string>, t: string)
    requires StartsWith(t, q)
    requires Embeds(head, q) && Embeds(rest, t[|q|..])
    ensures Embeds(head + rest, t)
  {
    EmbedsConcat(head, q, rest, t[|q|..]);
    assert q + t[|q|..] == t;
  }

  /** Claims found after skipping the first character are found in the whole text. */
  lemma SkipFirst(cs: seq<string>, t: string)
    requires |t| > 0 && Embeds(cs, t[1..])
    ensures Embeds(cs, t)
  {
    EmbedsAfterPrefix(cs, [t[0]], t[1..]);
    assert [t[0]] + t[1..] == t;
  }

  lemma SentenceClaimsEmbed(s: string)
    ensures Embeds(SentenceClaims(s), s)
  {
    if |Strip(s)| > MinClaimLength {
      SplitEmbeds(Conjunction, s, 0, 0);
      assert s[0..] == s;
      KeepLongEmbeds(Split(Conjunction, s), s);
    }
  }

  lemma {:induction false} ClaimsOfEmbeds(sentences: seq<string>, t: string)
    requires Embeds(sentences, t)
    ensures Embeds(ClaimsOf(sentences), t)
    decreases |t|, |sentences|
  {
    if sentences != [] {
      var s := sentences[0];
      if t[..|s|] == s && Embeds(sentences[1..], t[|s|..]) {
        ClaimsOfEmbeds(sentences[1..], t[|s|..]);
        SentenceClaimsEmbed(s);
        HeadThenRest(SentenceClaims(s), s, ClaimsOf(sentences[1..]), t);
      } else {
        ClaimsOfEmbeds(sentences, t[1..]);
        SkipFirst(ClaimsOf(sentences), t);
      }
    }
  }

  /** `extract_claims` keeps the left-to-right order of the text: its claims occur in
      the answer one after another, never overlapping, never reordered. */
  lemma ClaimsInTextOrder(text: string)
    ensures Embeds(Claims(text), text)
  {
    var t := Strip(text);
    SplitEmbeds(SentenceEnd, t, 0, 0);
    assert t[0..] == t;
    ClaimsOfEmbeds(Sentences(text), t);
    StripInside(text);
    var b := StripBounds(text);
    EmbedsAfterPrefix(Claims(text), text[..b.0], t);
    EmbedsConcat(Claims(text), text[..b.0] + t, [], text[b.1..]);
    assert Claims(text) + [] == Claims(text);
  }
}
