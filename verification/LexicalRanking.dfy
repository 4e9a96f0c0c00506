/** rank_lexical_candidates of AIOrchestrator/rag/retrieval.py: scored copies, sorted, and numbered in that order. */
module LexicalRanking {
  import opened Common
  import opened Retrieval
  import opened FusionScores
  import opened RetrievalFusion

  /** The copy that a candidate is ranked by; `score` is its normalised BM25 score. */
  function LexicalCopy(c: Candidate, score: real): Candidate {
    Candidate(c.id, c.content, c.source, c.kbId, c.collection, c.metadata,
              0.0, score * Penalty(c), 0.0, None, c.routes + {"bm25"}, map[])
  }

  /** What the copies are sorted by. */
  function LexicalScore(c: Candidate, score: real): Score {
    Score(LexicalCopy(c, score).lexical, |c.content| as real, 0.0)
  }

  function LexicalScores(values: seq<Candidate>, scores: seq<real>): (items: seq<Scored>)
    requires |scores| == |values|
    ensures |items| == |values|
  {
    seq(|values|, i requires 0 <= i < |values| => Scored(LexicalScore(values[i], scores[i]), i))
  }

  /** Where each place of the ranking comes from: every position once, better scores first, ties in input order. */
  ghost predicate IsRanking(from: seq<nat>, values: seq<Candidate>, scores: seq<real>)
    requires |scores| == |values|
  {
    && |from| == |values|
    && (forall i :: 0 <= i < |from| ==> from[i] < |values|)
    && (forall i, j :: 0 <= i < j < |from| ==> from[i] != from[j])
    && (forall i, j :: 0 <= i < j < |from| ==>
         var a, b := LexicalScore(values[from[i]], scores[from[i]]), LexicalScore(values[from[j]], scores[from[j]]);
         AtLeast(a, b) && (a == b ==> from[i] < from[j]))
  }

  function Positions(sorted: seq<Scored>): seq<nat> {
    seq(|sorted|, i requires 0 <= i < |sorted| => sorted[i].at)
  }

  lemma SortedItem(values: seq<Candidate>, scores: seq<real>, i: nat)
    requires |scores| == |values| && i < |values|
    ensures var sorted := SortDescending(LexicalScores(values, scores));
            && |sorted| == |values| && sorted[i].at < |values|
            && sorted[i].score == LexicalScore(values[sorted[i].at], scores[sorted[i].at])
  {
    var items := LexicalScores(values, scores);
    var sorted := SortDescending(items);
    SortKeepsTies(items);
    assert |multiset(sorted)| == |multiset(items)|;
    assert sorted[i] in multiset(sorted);
    assert sorted[i] in items;
  }

  lemma SortRanks(values: seq<Candidate>, scores: seq<real>)
    requires |scores| == |values|
    ensures IsRanking(Positions(SortDescending(LexicalScores(values, scores))), values, scores)
  {
    var items := LexicalScores(values, scores);
    var sorted := SortDescending(items);
    SortKeepsTies(items);
    assert |multiset(sorted)| == |multiset(items)|;
    forall i: nat | i < |sorted| ensures sorted[i].at < |values| &&
      sorted[i].score == LexicalScore(values[sorted[i].at], scores[sorted[i].at])
    {
      SortedItem(values, scores, i);
    }
  }

  ghost function LexicalCopies(values: seq<Candidate>, scores: seq<real>): (copies: seq<Candidate>)
    requires |scores| == |values|
    ensures |copies| == |values|
  {
    seq(|values|, i requires 0 <= i < |values| => LexicalCopy(values[i], scores[i]))
  }

  /** The objects are distinct, and have the first of the given values. */
  ghost predicate HoldsCopies(copies: seq<RetrievalCandidate>, values: seq<Candidate>)
    reads copies
  {
    && |copies| <= |values|
    && (forall i :: 0 <= i < |copies| ==> copies[i].View() == values[i])
    && (forall i, j :: 0 <= i < j < |copies| ==> copies[i] != copies[j])
  }

  /** The loop body: one more copy. */
  method AppendCopy(copies: seq<RetrievalCandidate>, candidate: RetrievalCandidate, score: real,
                    ghost values: seq<Candidate>)
    returns (longer: seq<RetrievalCandidate>)
    requires HoldsCopies(copies, values) && |copies| < |values|
    requires values[|copies|] == LexicalCopy(candidate.View(), score)
    ensures HoldsCopies(longer, values)
    ensures |longer| == |copies| + 1 && longer[..|copies|] == copies && fresh(longer[|copies|])
  {
    var copy := new RetrievalCandidate(LexicalCopy(candidate.View(), score));
    longer := copies + [copy];
  }

  /** The copies, in input order: new and distinct objects. */
  method CopyAll(candidates: seq<RetrievalCandidate>, ghost values: seq<Candidate>, scores: seq<real>,
                 ghost inputs: set<RetrievalCandidate>)
    returns (copies: seq<RetrievalCandidate>)
    requires Shows(candidates, values, inputs) && |scores| == |candidates|
    ensures |copies| == |values| && HoldsCopies(copies, LexicalCopies(values, scores))
    ensures forall copy :: copy in copies ==> fresh(copy)
  {
    copies := [];
    for index := 0 to |candidates|
      invariant |copies| == index && HoldsCopies(copies, LexicalCopies(values, scores))
      invariant forall copy :: copy in copies ==> fresh(copy)
    {
      ghost var before := copies;
      copies := AppendCopy(copies, candidates[index], scores[index], LexicalCopies(values, scores));
      assert copies == before + [copies[index]];
    }
  }

  /** The copies in the order of the ranking, before they are numbered. */
  ghost function Arranged(from: seq<nat>, values: seq<Candidate>, scores: seq<real>): (r: seq<Candidate>)
    requires |scores| == |values| && forall i :: 0 <= i < |from| ==> from[i] < |values|
    ensures |r| == |from|
  {
    seq(|from|, i requires 0 <= i < |from| => LexicalCopy(values[from[i]], scores[from[i]]))
  }

  function WithRank(c: Candidate, rank: int): Candidate {
    c.(ranks := c.ranks["bm25" := rank])
  }

  /** The first `n` of the objects are numbered, from 1. */
  ghost predicate Numbered(ranked: seq<RetrievalCandidate>, arranged: seq<Candidate>, n: nat)
    reads ranked
  {
    |ranked| == |arranged| && forall i :: 0 <= i < |ranked| ==>
      ranked[i].View() == if i < n then WithRank(arranged[i], i + 1) else arranged[i]
  }

  method Number(ranked: seq<RetrievalCandidate>, ghost arranged: seq<Candidate>)
    requires forall i, j :: 0 <= i < j < |ranked| ==> ranked[i] != ranked[j]
    requires Numbered(ranked, arranged, 0)
    modifies ranked
    ensures Numbered(ranked, arranged, |ranked|)
  {
    for rank := 0 to |ranked|
      invariant Numbered(ranked, arranged, rank)
    {
      NumberOne(ranked, arranged, rank);
    }
  }

  method NumberOne(ranked: seq<RetrievalCandidate>, ghost arranged: seq<Candidate>, rank: nat)
    requires forall i, j :: 0 <= i < j < |ranked| ==> ranked[i] != ranked[j]
    requires rank < |ranked| && Numbered(ranked, arranged, rank)
    modifies ranked[rank]
    ensures Numbered(ranked, arranged, rank + 1)
  {
    ranked[rank].SetRank("bm25", rank + 1);
    assert ranked[rank].View() == WithRank(arranged[rank], rank + 1);
  }

  /** The copies in the order of the ranking are distinct, and not numbered yet. */
  lemma ArrangedCopies(copies: seq<RetrievalCandidate>, ranked: seq<RetrievalCandidate>, from: seq<nat>,
                       values: seq<Candidate>, scores: seq<real>)
    requires |copies| == |values| == |scores| && HoldsCopies(copies, LexicalCopies(values, scores))
    requires IsRanking(from, values, scores)
    requires |ranked| == |from| && forall i :: 0 <= i < |ranked| ==> ranked[i] == copies[from[i]]
    ensures Numbered(ranked, Arranged(from, values, scores), 0)
    ensures forall i, j :: 0 <= i < j < |ranked| ==> ranked[i] != ranked[j]
    ensures forall i :: 0 <= i < |ranked| ==> ranked[i] in copies
  {
  }

  /** The copy of a candidate, field by field: penalised score, the route added, no other score, and its rank. */
  ghost predicate IsCopy(copy: Candidate, c: Candidate, score: real, rank: int) {
    && copy.id == c.id && copy.content == c.content && copy.source == c.source && copy.kbId == c.kbId
    && copy.collection == c.collection && copy.metadata == c.metadata
    && copy.dense == 0.0 && copy.fused == 0.0 && copy.rerank == None
    && copy.lexical == score * PenaltyFor(c)
    && copy.routes == c.routes + {"bm25"} && copy.ranks == map["bm25" := rank]
  }

  lemma RankedIsCopy(c: Candidate, score: real, rank: int)
    ensures IsCopy(WithRank(LexicalCopy(c, score), rank), c, score, rank)
  {
    PenaltyIs(c);
  }

  /** The better score comes first, then the longer content, then the earlier position `at` of the input. */
  ghost predicate ComesFirst(a: Candidate, b: Candidate, atA: nat, atB: nat) {
    || a.lexical > b.lexical
    || (a.lexical == b.lexical && |a.content| > |b.content|)
    || (a.lexical == b.lexical && |a.content| == |b.content| && atA < atB)
  }

  ghost predicate AreRankedCopies(ranked: seq<RetrievalCandidate>, from: seq<nat>, values: seq<Candidate>,
                                  scores: seq<real>)
    requires |from| == |ranked|
    reads ranked
  {
    && (forall i :: 0 <= i < |ranked| ==>
         from[i] < |values| && from[i] < |scores| &&
         IsCopy(ranked[i].View(), values[from[i]], scores[from[i]], i + 1))
    && (forall i :: 0 <= i < |ranked| - 1 ==>
         ComesFirst(ranked[i].View(), ranked[i + 1].View(), from[i], from[i + 1]))
  }

  lemma NumberedAreRankedCopies(ranked: seq<RetrievalCandidate>, from: seq<nat>, values: seq<Candidate>,
                                scores: seq<real>)
    requires |scores| == |values| == |ranked| && IsRanking(from, values, scores)
    requires Numbered(ranked, Arranged(from, values, scores), |ranked|)
    ensures AreRankedCopies(ranked, from, values, scores)
  {
    forall i: nat | i < |ranked| ensures IsCopy(ranked[i].View(), values[from[i]], scores[from[i]], i + 1) {
      RankedIsCopy(values[from[i]], scores[from[i]], i + 1);
    }
  }

  /** rank_lexical_candidates; `hasTokens` is whether the query has any token. */
  method RankLexicalCandidates(candidates: seq<RetrievalCandidate>, ghost values: seq<Candidate>, scores: seq<real>,
                               hasTokens: bool, ghost inputs: set<RetrievalCandidate>)
    returns (ranked: seq<RetrievalCandidate>, ghost from: seq<nat>)
    requires Shows(candidates, values, inputs) && |scores| == |candidates|
    ensures candidates == [] || !hasTokens ==> ranked == []
    ensures candidates != [] && hasTokens ==>
              && IsRanking(from, values, scores) && |ranked| == |values|
              && Numbered(ranked, Arranged(from, values, scores), |ranked|)
    ensures forall i :: 0 <= i < |ranked| ==> fresh(ranked[i])
    ensures |from| == |ranked| && AreRankedCopies(ranked, from, values, scores)
  {
    ranked, from := [], [];
    if candidates == [] || !hasTokens {
      return;
    }
    var copies := CopyAll(candidates, values, scores, inputs);
    var items := CopyScores(copies, values, scores);
    var sorted := SortDescending(items);
    from := Positions(sorted);
    SortRanks(values, scores);
    ranked := Arrange(copies, sorted, from);
    ArrangedCopies(copies, ranked, from, values, scores);
    Number(ranked, Arranged(from, values, scores));
    NumberedAreRankedCopies(ranked, from, values, scores);
  }

  method CopyScores(copies: seq<RetrievalCandidate>, ghost values: seq<Candidate>, ghost scores: seq<real>)
    returns (items: seq<Scored>)
    requires |copies| == |values| == |scores| && HoldsCopies(copies, LexicalCopies(values, scores))
    ensures items == LexicalScores(values, scores)
  {
    items := [];
    for i := 0 to |copies|
      invariant |items| == i
      invariant forall j :: 0 <= j < i ==> items[j] == LexicalScores(values, scores)[j]
    {
      items := items + [Scored(Score(copies[i].lexicalScore, |copies[i].content| as real, 0.0), i)];
    }
  }

  /** The copies in the order of the sort. */
  method Arrange(copies: seq<RetrievalCandidate>, sorted: seq<Scored>, ghost from: seq<nat>)
    returns (ranked: seq<RetrievalCandidate>)
    requires from == Positions(sorted) && forall i :: 0 <= i < |from| ==> from[i] < |copies|
    ensures |ranked| == |sorted| && forall i :: 0 <= i < |ranked| ==> ranked[i] == copies[from[i]]
  {
    ranked := [];
    for i := 0 to |sorted|
      invariant |ranked| == i && forall j :: 0 <= j < i ==> ranked[j] == copies[from[j]]
    {
      assert from[i] == sorted[i].at;
      ranked := ranked + [copies[sorted[i].at]];
    }
  }
}
