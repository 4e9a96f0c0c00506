/** What fuse_candidates of AIOrchestrator/rag/retrieval.py gives a key: a sum over the positions of its candidates. */
module FusionScores {
  import opened Common
  import opened Retrieval
  import opened RetrievalFusion

  // ---- penalties, by what a text contains ----

  /** The letters agree, whatever the case of the first one. */
  predicate SameLetter(a: char, b: char) {
    a == b || ('A' <= a <= 'Z' && b as int == a as int + 32)
  }

  predicate MentionedAt(text: string, part: string, i: nat) {
    i + |part| <= |text| && forall k :: 0 <= k < |part| ==> SameLetter(text[i + k], part[k])
  }

  predicate Mentions(text: string, part: string) {
    exists i: nat :: i <= |text| && MentionedAt(text, part, i)
  }

  predicate IsLower(part: string) {
    forall k :: 0 <= k < |part| ==> !('A' <= part[k] <= 'Z')
  }

  lemma LowerAt(text: string, part: string, i: nat)
    requires IsLower(part) && i <= |text|
    ensures part <= Lower(text)[i..] <==> MentionedAt(text, part, i)
  {
    var rest := Lower(text)[i..];
    if part <= rest {
      assert forall k :: 0 <= k < |part| ==> rest[k] == part[k] && rest[k] == Lower(text)[i + k];
    }
    if MentionedAt(text, part, i) {
      assert forall k :: 0 <= k < |part| ==> SameLetter(text[i + k], part[k]) && rest[k] == Lower(text)[i + k];
      assert rest[..|part|] == part;
    }
  }

  lemma {:induction false} ContainsFrom(s: string, part: string, i: nat)
    requires i <= |s|
    ensures ContainsText(s[i..], part) <==> exists j: nat :: i <= j <= |s| && part <= s[j..]
    decreases |s| - i
  {
    if i < |s| {
      ContainsFrom(s, part, i + 1);
      assert s[i..][1..] == s[i + 1..];
    }
    if part <= s[i..] {
      assert i <= i <= |s|;
    } else if j: nat :| i <= j <= |s| && part <= s[j..] {
      assert |part| <= |s[j..]|;
    }
  }

  lemma LowerContains(text: string, part: string)
    requires IsLower(part)
    ensures ContainsText(Lower(text), part) <==> Mentions(text, part)
  {
    var s := Lower(text);
    ContainsFrom(s, part, 0);
    assert s[0..] == s;
    forall i: nat | i <= |text| ensures part <= s[i..] <==> MentionedAt(text, part, i) {
      LowerAt(text, part, i);
    }
  }

  lemma PatternsAre()
    ensures |DISTRACTOR_PATTERNS| == 5
    ensures DISTRACTOR_PATTERNS[0] == "distractor note" && DISTRACTOR_PATTERNS[1] == "distractor document"
    ensures DISTRACTOR_PATTERNS[2] == "not the authoritative answer"
    ensures DISTRACTOR_PATTERNS[3] == "near-miss value" && DISTRACTOR_PATTERNS[4] == "old notes"
  {
  }

  lemma PatternsAreLower()
    ensures forall i :: 0 <= i < |DISTRACTOR_PATTERNS| ==> IsLower(DISTRACTOR_PATTERNS[i])
  {
    forall i | 0 <= i < |DISTRACTOR_PATTERNS| ensures IsLower(DISTRACTOR_PATTERNS[i]) {
      assert i == 0 || i == 1 || i == 2 || i == 3 || i == 4;
    }
  }

  lemma WordsAreLower()
    ensures IsLower("distractor") && IsLower("authoritative")
  {
  }

  function TextOf(c: Candidate): string {
    c.content + " " + c.source + " " + c.kbId
  }

  /** 0.08 for a text with one of the patterns, else 0.15 for one with both words, else 1. */
  ghost function PenaltyFor(c: Candidate): real {
    if exists i :: 0 <= i < |DISTRACTOR_PATTERNS| && Mentions(TextOf(c), DISTRACTOR_PATTERNS[i]) then 0.08
    else if Mentions(TextOf(c), "distractor") && Mentions(TextOf(c), "authoritative") then 0.15
    else 1.0
  }

  lemma PenaltyIs(c: Candidate)
    ensures Penalty(c) == PenaltyFor(c)
  {
    var text := TextOf(c);
    PatternsAreLower();
    WordsAreLower();
    forall i | 0 <= i < |DISTRACTOR_PATTERNS|
      ensures ContainsText(Lower(text), DISTRACTOR_PATTERNS[i]) <==> Mentions(text, DISTRACTOR_PATTERNS[i])
    {
      LowerContains(text, DISTRACTOR_PATTERNS[i]);
    }
    LowerContains(text, "distractor");
    LowerContains(text, "authoritative");
  }

  // ---- sums over positions ----

  function Sum(xs: seq<real>): real {
    if xs == [] then 0.0 else Sum(xs[..|xs| - 1]) + xs[|xs| - 1]
  }

  function SumAll(rows: seq<seq<real>>): real {
    if rows == [] then 0.0 else SumAll(rows[..|rows| - 1]) + Sum(rows[|rows| - 1])
  }

  lemma {:induction false} WithKeyAppends(a: seq<Occurrence>, b: seq<Occurrence>, key: string)
    ensures WithKey(a + b, key) == WithKey(a, key) + WithKey(b, key)
  {
    if b == [] {
      assert a + b == a;
    } else {
      var front, last := b[..|b| - 1], b[|b| - 1];
      assert (a + b)[..|a + b| - 1] == a + front && (a + b)[|a + b| - 1] == last;
      WithKeyAppends(a, front, key);
    }
  }

  lemma {:induction false} GainSumAppends(a: seq<Occurrence>, b: seq<Occurrence>)
    ensures GainSum(a + b) == GainSum(a) + GainSum(b)
  {
    if b == [] {
      assert a + b == a;
    } else {
      assert (a + b)[..|a + b| - 1] == a + b[..|b| - 1];
      GainSumAppends(a, b[..|b| - 1]);
    }
  }

  /** What a candidate adds to the key: the route's weight times its penalty over rrf_k plus its rank. */
  ghost function TermFor(c: Candidate, weight: real, rrfK: int, rank: int, key: string): real
    requires rrfK + rank != 0
  {
    if KeyOf(c) == key then weight * PenaltyFor(c) / (rrfK + rank) as real else 0.0
  }

  /** What each candidate of one route adds to the key. */
  ghost predicate RowOf(row: seq<real>, list: seq<Candidate>, weight: real, rrfK: int, key: string)
    requires Rankable(|list|, rrfK)
  {
    |row| == |list| && forall j :: 0 <= j < |list| ==> row[j] == TermFor(list[j], weight, rrfK, j + 1, key)
  }

  /** One row for every route; a route without a weight of its own has weight 1. */
  ghost predicate RowsOf(rows: seq<seq<real>>, values: seq<(string, seq<Candidate>)>, weights: Weights, rrfK: int,
                         key: string)
    requires RankableLists(values, rrfK)
  {
    |rows| == |values| && forall r :: 0 <= r < |values| ==>
      RowOf(rows[r], values[r].1, if values[r].0 in weights then weights[values[r].0] else 1.0, rrfK, key)
  }

  /** What each occurrence adds to the key. */
  predicate Shares(row: seq<real>, os: seq<Occurrence>, key: string) {
    |row| == |os| && forall j :: 0 <= j < |os| ==> row[j] == Share(os[j], key)
  }

  function Share(o: Occurrence, key: string): real {
    if o.key == key then o.gain else 0.0
  }

  lemma {:induction false} SharesSum(row: seq<real>, os: seq<Occurrence>, key: string)
    requires Shares(row, os, key)
    ensures GainSum(WithKey(os, key)) == Sum(row)
  {
    if os != [] {
      var n := |os| - 1;
      SharesSum(row[..n], os[..n], key);
      var own := WithKey(os[..n], key);
      assert (own + [os[n]])[..|own|] == own;
    }
  }

  lemma TermIs(route: string, c: Candidate, weight: real, rrfK: int, rank: int, key: string)
    requires rrfK + rank != 0
    ensures Share(OccurrenceAt(route, c, weight, rrfK, rank), key) == TermFor(c, weight, rrfK, rank, key)
  {
    PenaltyIs(c);
  }

  lemma RouteSum(route: string, list: seq<Candidate>, weight: real, rrfK: int, key: string, row: seq<real>)
    requires Rankable(|list|, rrfK) && RowOf(row, list, weight, rrfK, key)
    ensures GainSum(WithKey(RouteOccurrences(route, list, weight, rrfK, |list|), key)) == Sum(row)
  {
    var os := RouteOccurrences(route, list, weight, rrfK, |list|);
    RouteOccurrencesAt(route, list, weight, rrfK, |list|);
    forall j | 0 <= j < |list| ensures row[j] == Share(os[j], key) {
      TermIs(route, list[j], weight, rrfK, j + 1, key);
    }
    SharesSum(row, os, key);
  }

  lemma WeightIs(weights: Weights, route: string)
    ensures WeightOf(weights, route) == if route in weights then weights[route] else 1.0
  {
  }

  /** The gains of a key sum to the sum of its rows. */
  lemma {:induction false} GainsSum(values: seq<(string, seq<Candidate>)>, weights: Weights, rrfK: int, key: string,
                                    rows: seq<seq<real>>)
    requires RankableLists(values, rrfK) && RowsOf(rows, values, weights, rrfK, key)
    ensures GainSum(WithKey(Occurrences(values, weights, rrfK), key)) == SumAll(rows)
    decreases |values|
  {
    if values != [] {
      var n := |values| - 1;
      var front, route, list := Occurrences(values[..n], weights, rrfK), values[n].0, values[n].1;
      var more := RouteOccurrences(route, list, WeightOf(weights, route), rrfK, |list|);
      GainsSum(values[..n], weights, rrfK, key, rows[..n]);
      WeightIs(weights, route);
      RouteSum(route, list, WeightOf(weights, route), rrfK, key, rows[n]);
      WithKeyAppends(front, more, key);
      GainSumAppends(WithKey(front, key), WithKey(more, key));
    }
  }

  /**
   * On candidates that no fusion has scored yet the fused score of a key is the sum, over all positions of its
   * candidates in the lists, of the route's weight times the candidate's penalty over rrf_k plus the rank.
   */
  lemma FusedScoreFormula(values: seq<(string, seq<Candidate>)>, weights: Weights, rrfK: nat, key: string,
                          rows: seq<seq<real>>)
    requires FreshInputs(values, weights) && IsInputKey(values, key) && RowsOf(rows, values, weights, rrfK, key)
    ensures key in TableOf(Occurrences(values, weights, rrfK))
    ensures TableOf(Occurrences(values, weights, rrfK))[key].fused == SumAll(rows)
  {
    FusedScoreIsSum(values, weights, rrfK, key);
    GainsSum(values, weights, rrfK, key, rows);
  }

  /** So is the score of every entry that fuse_candidates returns. */
  lemma ReturnedScoreFormula(values: seq<(string, seq<Candidate>)>, weights: Weights, rrfK: nat, i: nat,
                             rows: seq<seq<real>>)
    requires FreshInputs(values, weights)
    requires var s := SnapshotOf(Occurrences(values, weights, rrfK));
             KeysInTable(s) && i < |RankedKeys(s)| && RowsOf(rows, values, weights, rrfK, RankedKeys(s)[i])
    ensures var s := SnapshotOf(Occurrences(values, weights, rrfK));
            RankedKeys(s)[i] in s.table && s.table[RankedKeys(s)[i]].fused == SumAll(rows)
  {
    var key := RankedKeys(SnapshotOf(Occurrences(values, weights, rrfK)))[i];
    KeyIsInput(values, weights, rrfK, key);
    FusedScoreFormula(values, weights, rrfK, key, rows);
  }
}
