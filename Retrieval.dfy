/** Evidence retrieval (`retrieve_evidence`): every corpus statement whose similarity
    to the claim exceeds 0.1 is kept with its similarity, the list is stably sorted by
    similarity, highest first, and the first `top_k` entries are returned. */
module Retrieval {
  import opened Similarity

  /** One `(evidence, similarity)` pair. */
  datatype Scored = Scored(text: string, similarity: real)

  /** An entry is relevant when its similarity is strictly above this. */
  const RelevanceThreshold: real := 0.1

  /** The `top_k` the pipeline uses. */
  const DefaultTopK: int := 3

  /** The list the loop of `retrieve_evidence` builds before sorting: the relevant
      corpus entries in corpus order, each with its similarity. */
  function Relevant(claim: string, corpus: seq<string>): (r: seq<Scored>)
    ensures |r| <= |corpus|
    ensures forall e :: e in r ==>
              e.text in corpus && e.similarity == CalculateSimilarity(claim, e.text)
              && e.similarity > RelevanceThreshold
    ensures forall t :: t in corpus && CalculateSimilarity(claim, t) > RelevanceThreshold ==>
              Scored(t, CalculateSimilarity(claim, t)) in r
    decreases |corpus|
  {
    if corpus == [] then []
    else
      var init, last := corpus[..|corpus| - 1], corpus[|corpus| - 1];
      assert corpus == init + [last];
      var sim := CalculateSimilarity(claim, last);
      Relevant(claim, init) + (if sim > RelevanceThreshold then [Scored(last, sim)] else [])
  }

  /** One more corpus entry: it is appended when it is relevant. */
  lemma RelevantStep(claim: string, corpus: seq<string>, i: nat)
    requires i < |corpus|
    ensures var sim := CalculateSimilarity(claim, corpus[i]);
      Relevant(claim, corpus[..i + 1])
        == Relevant(claim, corpus[..i]) + (if sim > RelevanceThreshold then [Scored(corpus[i], sim)] else [])
  {
    assert corpus[..i + 1][..i] == corpus[..i];
  }

  predicate SortedDesc(s: seq<Scored>) {
    forall i, j :: 0 <= i < j < |s| ==> s[i].similarity >= s[j].similarity
  }

  /** Puts `x` in front of the first entry whose similarity is not above its own, so
      that it stays ahead of the entries that tie with it. */
  function Insert(x: Scored, t: seq<Scored>): (r: seq<Scored>)
    ensures |r| == |t| + 1
  {
    if t == [] || x.similarity >= t[0].similarity then [x] + t
    else [t[0]] + Insert(x, t[1..])
  }

  lemma {:induction false} InsertMultiset(x: Scored, t: seq<Scored>)
    ensures multiset(Insert(x, t)) == multiset{x} + multiset(t)
  {
    if t != [] && x.similarity < t[0].similarity {
      InsertMultiset(x, t[1..]);
      assert t == [t[0]] + t[1..];
    }
  }

  lemma {:induction false} InsertSorted(x: Scored, t: seq<Scored>)
    requires SortedDesc(t)
    ensures SortedDesc(Insert(x, t))
    ensures Insert(x, t)[0] == x || Insert(x, t)[0] == t[0]
  {
    if t != [] && x.similarity < t[0].similarity {
      var rest := Insert(x, t[1..]);
      InsertSorted(x, t[1..]);
      assert rest[0].similarity <= t[0].similarity;
      assert forall j :: 0 <= j < |rest| ==> rest[j].similarity <= rest[0].similarity;
    }
  }

  /** `list.sort(key=lambda x: x[1], reverse=True)`: a stable sort, highest
      similarity first. */
  function SortDesc(s: seq<Scored>): (r: seq<Scored>)
    ensures |r| == |s|
    ensures SortedDesc(r)
    ensures multiset(r) == multiset(s)
  {
    if s == [] then []
    else
      var rest := SortDesc(s[1..]);
      InsertSorted(s[0], rest);
      InsertMultiset(s[0], rest);
      assert s == [s[0]] + s[1..];
      Insert(s[0], rest)
  }

  /** The entries of `s` whose similarity is `v`, in their order in `s`. */
  function WithScore(s: seq<Scored>, v: real): seq<Scored> {
    if s == [] then []
    else (if s[0].similarity == v then [s[0]] else []) + WithScore(s[1..], v)
  }

  lemma {:induction false} InsertStable(x: Scored, t: seq<Scored>, v: real)
    ensures WithScore(Insert(x, t), v) == (if x.similarity == v then [x] else []) + WithScore(t, v)
  {
    if t == [] || x.similarity >= t[0].similarity {
      assert ([x] + t)[1..] == t;
    } else {
      InsertStable(x, t[1..], v);
      assert ([t[0]] + Insert(x, t[1..]))[1..] == Insert(x, t[1..]);
    }
  }

  /** Entries that tie keep their relative order: for every similarity value, the
      sorted list holds the entries with that value in their original order. */
  lemma {:induction false} SortStable(s: seq<Scored>, v: real)
    ensures WithScore(SortDesc(s), v) == WithScore(s, v)
  {
    if s != [] {
      SortStable(s[1..], v);
      InsertStable(s[0], SortDesc(s[1..]), v);
    }
  }

  lemma {:induction false} WithScorePrefix(s: seq<Scored>, m: nat, v: real)
    requires m <= |s|
    ensures |WithScore(s[..m], v)| <= |WithScore(s, v)|
    ensures WithScore(s[..m], v) == WithScore(s, v)[..|WithScore(s[..m], v)|]
  {
    if m > 0 {
      assert s[..m][0] == s[0] && s[..m][1..] == s[1..][..m - 1];
      WithScorePrefix(s[1..], m - 1, v);
    }
  }

  /** `s[:k]`: the first `k` entries, or all of them when there are fewer; a negative
      `k` drops `-k` entries from the end. */
  function TakePrefix(s: seq<Scored>, k: int): (r: seq<Scored>)
    ensures |r| <= |s|
    ensures forall i :: 0 <= i < |r| ==> r[i] == s[i]
    ensures k >= 0 ==> |r| <= k && (|r| == k || |r| == |s|)
    ensures k < 0 ==> |r| + (-k) == |s| || (r == [] && |s| <= -k)
  {
    if k >= 0 then s[..if k < |s| then k else |s|]
    else s[..if |s| + k > 0 then |s| + k else 0]
  }

  /** What `retrieve_evidence(claim, top_k)` returns over the engine's corpus. */
  function Retrieve(claim: string, corpus: seq<string>, topK: int): seq<Scored> {
    TakePrefix(SortDesc(Relevant(claim, corpus)), topK)
  }

  /** At most `top_k` entries (exactly `top_k` when enough are relevant), each a
      relevant corpus statement with its similarity. */
  lemma RetrieveBounds(claim: string, corpus: seq<string>, topK: int)
    ensures var r := Retrieve(claim, corpus, topK);
      && (topK >= 0 ==> |r| <= topK)
      && (0 <= topK <= |Relevant(claim, corpus)| ==> |r| == topK)
      && multiset(r) <= multiset(Relevant(claim, corpus))
      && (forall e :: e in r ==>
            e.text in corpus && e.similarity == CalculateSimilarity(claim, e.text)
            && RelevanceThreshold < e.similarity <= 1.0)
  {
    var rel := Relevant(claim, corpus);
    var sorted := SortDesc(rel);
    var r := Retrieve(claim, corpus, topK);
    assert sorted == r + sorted[|r|..];
    assert multiset(sorted) == multiset(r) + multiset(sorted[|r|..]);
    forall e | e in r ensures e in rel {
      assert e in multiset(sorted);
    }
  }

  /** Highest similarity first, and no relevant entry that was left out beats one that
      was kept. */
  lemma RetrieveKeepsBest(claim: string, corpus: seq<string>, topK: int)
    ensures var r := Retrieve(claim, corpus, topK);
      && SortedDesc(r)
      && (forall e, f :: e in Relevant(claim, corpus) && e !in r && f in r ==>
            f.similarity >= e.similarity)
  {
    var rel := Relevant(claim, corpus);
    var sorted := SortDesc(rel);
    var r := TakePrefix(sorted, topK);
    PrefixKeepsBest(sorted, |r|);
    forall e | e in rel ensures e in sorted {
      assert e in multiset(rel);
    }
  }

  lemma PrefixKeepsBest(s: seq<Scored>, m: nat)
    requires SortedDesc(s) && m <= |s|
    ensures SortedDesc(s[..m])
    ensures forall e, f :: e in s && e !in s[..m] && f in s[..m] ==> f.similarity >= e.similarity
  {
    forall e, f | e in s && e !in s[..m] && f in s[..m] ensures f.similarity >= e.similarity {
      var j :| 0 <= j < |s| && s[j] == e;
      var i :| 0 <= i < m && s[..m][i] == f;
      assert forall k :: 0 <= k < m ==> s[k] in s[..m];
    }
  }

  /** Entries that tie keep the order of the relevant list, which is corpus order: for
      every similarity value, the retrieved entries with that value are the first ones
      with that value in the relevant list. */
  lemma RetrieveTiesInCorpusOrder(claim: string, corpus: seq<string>, topK: int, v: real)
    ensures |WithScore(Retrieve(claim, corpus, topK), v)| <= |WithScore(Relevant(claim, corpus), v)|
    ensures var r := Retrieve(claim, corpus, topK);
      WithScore(r, v) == WithScore(Relevant(claim, corpus), v)[..|WithScore(r, v)|]
  {
    var rel := Relevant(claim, corpus);
    var r := TakePrefix(SortDesc(rel), topK);
    SortedPrefixTies(rel, |r|, v);
  }

  lemma SortedPrefixTies(s: seq<Scored>, m: nat, v: real)
    requires m <= |s|
    ensures |WithScore(SortDesc(s)[..m], v)| <= |WithScore(s, v)|
    ensures var p := SortDesc(s)[..m]; WithScore(p, v) == WithScore(s, v)[..|WithScore(p, v)|]
  {
    WithScorePrefix(SortDesc(s), m, v);
    SortStable(s, v);
  }
}
