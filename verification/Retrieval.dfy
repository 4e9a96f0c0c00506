/** Reciprocal-rank fusion of AIOrchestrator/rag/retrieval.py: candidates merged per key, scored, and sorted. */
module Retrieval {
  import opened Common

  /** A metadata value: its text, and whether it counts as missing (None, "", [] or {}). */
  datatype MetaValue = MetaValue(text: string, blank: bool)

  type Metadata = map<string, MetaValue>

  /** The value of a RetrievalCandidate. */
  datatype Candidate = Candidate(
    id: string,
    content: string,
    source: string,
    kbId: string,
    collection: string,
    metadata: Metadata,
    dense: real,
    lexical: real,
    fused: real,
    rerank: Option<real>,
    routes: set<string>,
    ranks: map<string, int>)

  function Max(a: real, b: real): real {
    if a < b then b else a
  }

  function FirstNonEmpty(a: string, b: string): string {
    if a == "" then b else a
  }

  function MetaAt(base: Metadata, other: Metadata, key: string): MetaValue
    requires key in base || key in other
  {
    if key in other && (key !in base || base[key].blank) then other[key] else base[key]
  }

  function MergeMetadata(base: Metadata, other: Metadata): Metadata {
    map k | k in base.Keys + other.Keys :: MetaAt(base, other, k)
  }

  function RankAt(ranks: map<string, int>, other: map<string, int>, route: string): int
    requires route in ranks || route in other
  {
    if route !in ranks || (route in other && other[route] < ranks[route]) then other[route] else ranks[route]
  }

  function MergeRanks(ranks: map<string, int>, other: map<string, int>): map<string, int> {
    map r | r in ranks.Keys + other.Keys :: RankAt(ranks, other, r)
  }

  function MergeRerank(a: Option<real>, b: Option<real>): Option<real> {
    if b.None? then a
    else Some(Max(if a.Some? then a.value else 0.0, b.value))
  }

  function Merge(a: Candidate, b: Candidate): Candidate {
    a.(content := FirstNonEmpty(a.content, b.content),
       source := FirstNonEmpty(a.source, b.source),
       kbId := FirstNonEmpty(a.kbId, b.kbId),
       collection := FirstNonEmpty(a.collection, b.collection),
       metadata := MergeMetadata(a.metadata, b.metadata),
       dense := Max(a.dense, b.dense),
       lexical := Max(a.lexical, b.lexical),
       fused := Max(a.fused, b.fused),
       rerank := MergeRerank(a.rerank, b.rerank),
       routes := a.routes + b.routes,
       ranks := MergeRanks(a.ranks, b.ranks))
  }

  // ---- keys and penalties ----

  function ChunkIndex(c: Candidate): string {
    if "chunk_index" in c.metadata then c.metadata["chunk_index"].text else ""
  }

  function KeyOf(c: Candidate): string {
    if c.id != "" then c.id
    else if c.collection != "" then c.collection + ":" + c.kbId + ":" + ChunkIndex(c)
    else c.kbId + ":" + c.source + ":" + ChunkIndex(c) + ":" +
         (if |c.content| <= 48 then c.content else c.content[..48])
  }

  /** The id, else what the collection, the knowledge base and the chunk tell, else the start of the text as well. */
  lemma KeyIs(c: Candidate)
    ensures c.id != "" ==> KeyOf(c) == c.id
    ensures c.id == "" && c.collection != "" ==> KeyOf(c) == c.collection + ":" + c.kbId + ":" + ChunkIndex(c)
    ensures c.id == "" && c.collection == "" ==>
              exists start: string :: start <= c.content && |start| <= 48 && (|start| < 48 ==> start == c.content) &&
                KeyOf(c) == c.kbId + ":" + c.source + ":" + ChunkIndex(c) + ":" + start
    ensures ChunkIndex(c) == if "chunk_index" in c.metadata then c.metadata["chunk_index"].text else ""
  {
    var start := if |c.content| <= 48 then c.content else c.content[..48];
    assert start <= c.content;
  }

  function Lower(s: string): string {
    seq(|s|, i requires 0 <= i < |s| => if 'A' <= s[i] <= 'Z' then (s[i] as int + 32) as char else s[i])
  }

  predicate ContainsText(s: string, part: string) {
    |part| <= |s| && (part <= s || ContainsText(s[1..], part))
  }

  const DISTRACTOR_PATTERNS := [
    "distractor note", "distractor document", "not the authoritative answer", "near-miss value", "old notes"]

  function Penalty(c: Candidate): real {
    var haystack := Lower(c.content + " " + c.source + " " + c.kbId);
    if exists i :: 0 <= i < |DISTRACTOR_PATTERNS| && ContainsText(haystack, DISTRACTOR_PATTERNS[i]) then 0.08
    else if ContainsText(haystack, "distractor") && ContainsText(haystack, "authoritative") then 0.15
    else 1.0
  }

  // ---- the fusion, one occurrence at a time ----

  /** A candidate, with its key, at a rank of a route, and what this adds to its fused score. */
  datatype Occurrence = Occurrence(key: string, route: string, rank: int, cand: Candidate, gain: real)

  /** The entry a key starts with. */
  function Copied(c: Candidate): Candidate {
    c.(fused := 0.0)
  }

  /** What every occurrence does to its entry after the merge. */
  function Touch(e: Candidate, o: Occurrence): Candidate {
    e.(routes := e.routes + {o.route},
       ranks := e.ranks[o.route :=
         if o.route in e.ranks && e.ranks[o.route] < o.rank then e.ranks[o.route] else o.rank],
       dense := if o.route == "dense" then Max(e.dense, o.cand.dense) else e.dense,
       lexical := if o.route == "bm25" then Max(e.lexical, o.cand.lexical) else e.lexical,
       fused := e.fused + o.gain)
  }

  /** The entry after all occurrences of its key. */
  function EntryOf(os: seq<Occurrence>): Candidate
    requires os != []
  {
    var last := os[|os| - 1];
    if |os| == 1 then Touch(Copied(last.cand), last)
    else Touch(Merge(EntryOf(os[..|os| - 1]), last.cand), last)
  }

  /** The occurrences with the given key, in order. */
  function WithKey(os: seq<Occurrence>, key: string): seq<Occurrence> {
    if os == [] then []
    else
      var last := os[|os| - 1];
      var front := WithKey(os[..|os| - 1], key);
      if last.key == key then front + [last] else front
  }

  /** The distinct keys in the order of their first occurrence. */
  function KeysOf(os: seq<Occurrence>): seq<string> {
    if os == [] then []
    else
      var front, key := KeysOf(os[..|os| - 1]), os[|os| - 1].key;
      if key in front then front else front + [key]
  }

  // ---- what an entry is, declaratively ----

  function GainSum(os: seq<Occurrence>): real {
    if os == [] then 0.0 else GainSum(os[..|os| - 1]) + os[|os| - 1].gain
  }

  ghost predicate RanksRoute(o: Occurrence, r: string, rank: int) {
    (o.route == r && o.rank == rank) || (r in o.cand.ranks && o.cand.ranks[r] == rank)
  }

  /** `x` is the largest of the values that `f` reads off the occurrences. */
  ghost predicate Largest(os: seq<Occurrence>, f: Occurrence -> real, x: real) {
    && (forall i :: 0 <= i < |os| ==> f(os[i]) <= x)
    && (exists i :: 0 <= i < |os| && f(os[i]) == x)
  }

  lemma LargestExtends(front: seq<Occurrence>, o: Occurrence, f: Occurrence -> real, x: real)
    requires front == [] || Largest(front, f, x)
    ensures Largest(front + [o], f, if front == [] then f(o) else Max(x, f(o)))
  {
    var os := front + [o];
    assert os[|front|] == o;
    if front != [] {
      var i :| 0 <= i < |front| && f(front[i]) == x;
      assert os[i] == front[i];
    }
  }

  const DENSE := (o: Occurrence) => o.cand.dense
  const LEXICAL := (o: Occurrence) => o.cand.lexical

  lemma ScoreStep(f: Candidate, o: Occurrence)
    ensures var e := Touch(Merge(f, o.cand), o);
            e.dense == Max(f.dense, DENSE(o)) && e.lexical == Max(f.lexical, LEXICAL(o))
    ensures Touch(Copied(o.cand), o).dense == DENSE(o) && Touch(Copied(o.cand), o).lexical == LEXICAL(o)
  {
  }

  /** Scores are maxima over all occurrences. */
  lemma {:induction false} EntryScoresAreMaxima(os: seq<Occurrence>)
    requires os != []
    ensures Largest(os, DENSE, EntryOf(os).dense) && Largest(os, LEXICAL, EntryOf(os).lexical)
  {
    var front, last := os[..|os| - 1], os[|os| - 1];
    assert os == front + [last];
    var f := if front == [] then Copied(last.cand) else EntryOf(front);
    if front != [] {
      EntryScoresAreMaxima(front);
    }
    ScoreStep(f, last);
    LargestExtends(front, last, DENSE, f.dense);
    LargestExtends(front, last, LEXICAL, f.lexical);
  }

  /** The rerank scores that the occurrences bring along. */
  function RerankScores(os: seq<Occurrence>): seq<real> {
    if os == [] then []
    else
      var front, score := RerankScores(os[..|os| - 1]), os[|os| - 1].cand.rerank;
      if score.Some? then front + [score.value] else front
  }

  /** `x` is the largest of the scores, if there is one; with `floored`, zero counts as one more. */
  ghost predicate RerankOf(scores: seq<real>, floored: bool, x: Option<real>) {
    && (x.Some? <==> scores != [])
    && (x.Some? ==>
         && (forall i :: 0 <= i < |scores| ==> scores[i] <= x.value)
         && (floored ==> x.value >= 0.0)
         && (x.value in scores || (floored && x.value == 0.0)))
  }

  lemma RerankExtends(scores: seq<real>, floored: bool, x: Option<real>, score: real)
    requires RerankOf(scores, floored, x) && (scores == [] ==> floored)
    ensures RerankOf(scores + [score], floored, MergeRerank(x, Some(score)))
  {
    assert (scores + [score])[|scores|] == score;
  }

  /** The rerank score of an entry; zero counts unless the first occurrence brings a score along. */
  lemma {:induction false} EntryRerankIsMaximum(os: seq<Occurrence>)
    requires os != []
    ensures RerankOf(RerankScores(os), os[0].cand.rerank.None?, EntryOf(os).rerank)
    ensures os[0].cand.rerank.Some? ==> RerankScores(os) != []
  {
    var front, last := os[..|os| - 1], os[|os| - 1];
    if front != [] {
      EntryRerankIsMaximum(front);
      assert EntryOf(os).rerank == MergeRerank(EntryOf(front).rerank, last.cand.rerank);
      if last.cand.rerank.Some? {
        RerankExtends(RerankScores(front), os[0].cand.rerank.None?, EntryOf(front).rerank, last.cand.rerank.value);
      }
    }
  }

  predicate NamesRoute(o: Occurrence, r: string) {
    o.route == r || r in o.cand.routes
  }

  /** Routes are unions. */
  lemma {:induction false} EntryRoutesAreUnions(os: seq<Occurrence>, r: string)
    requires os != []
    ensures r in EntryOf(os).routes <==> exists i :: 0 <= i < |os| && NamesRoute(os[i], r)
  {
    var front, last := os[..|os| - 1], os[|os| - 1];
    assert os == front + [last];
    assert NamesRoute(last, r) ==> NamesRoute(os[|front|], r);
    if front != [] {
      EntryRoutesAreUnions(front, r);
      assert forall i :: 0 <= i < |front| ==> os[i] == front[i];
      assert r in EntryOf(os).routes <==> r in EntryOf(front).routes || NamesRoute(last, r);
    }
  }

  /** The ranks of an entry after one more occurrence. */
  lemma RankStep(f: Candidate, o: Occurrence, r: string)
    ensures var ranks := Touch(Merge(f, o.cand), o).ranks;
            && (r in f.ranks ==> r in ranks && ranks[r] <= f.ranks[r])
            && (forall rank :: RanksRoute(o, r, rank) ==> r in ranks && ranks[r] <= rank)
            && (r in ranks ==> (r in f.ranks && ranks[r] == f.ranks[r]) || RanksRoute(o, r, ranks[r]))
  {
  }

  /** `ranks` holds the least rank of route `r` over the occurrences, if they give one. */
  ghost predicate LeastRank(os: seq<Occurrence>, r: string, ranks: map<string, int>) {
    && (r in ranks ==> exists i :: 0 <= i < |os| && RanksRoute(os[i], r, ranks[r]))
    && (forall i, rank :: 0 <= i < |os| && RanksRoute(os[i], r, rank) ==> r in ranks && ranks[r] <= rank)
  }

  lemma LeastRankExtends(front: seq<Occurrence>, o: Occurrence, r: string, before: map<string, int>,
                         ranks: map<string, int>)
    requires LeastRank(front, r, before)
    requires r in before ==> r in ranks && ranks[r] <= before[r]
    requires forall rank :: RanksRoute(o, r, rank) ==> r in ranks && ranks[r] <= rank
    requires r in ranks ==> (r in before && ranks[r] == before[r]) || RanksRoute(o, r, ranks[r])
    ensures LeastRank(front + [o], r, ranks)
  {
    var os := front + [o];
    if r in ranks {
      if RanksRoute(o, r, ranks[r]) {
        assert RanksRoute(os[|front|], r, ranks[r]);
      } else {
        var i :| 0 <= i < |front| && RanksRoute(front[i], r, before[r]);
        assert RanksRoute(os[i], r, ranks[r]);
      }
    }
    forall i, rank | 0 <= i < |os| && RanksRoute(os[i], r, rank) ensures r in ranks && ranks[r] <= rank {
      assert i == |front| || RanksRoute(front[i], r, rank);
    }
  }

  /** Ranks are minima over every rank the occurrences give or carry for the route. */
  lemma {:induction false} EntryRanksAreMinima(os: seq<Occurrence>, r: string)
    requires os != []
    ensures LeastRank(os, r, EntryOf(os).ranks)
  {
    var front, last := os[..|os| - 1], os[|os| - 1];
    assert os == front + [last];
    if front == [] {
      assert forall rank :: RanksRoute(last, r, rank) ==> r in EntryOf(os).ranks;
      LeastRankExtends([], last, r, map[], EntryOf(os).ranks);
    } else {
      EntryRanksAreMinima(front, r);
      RankStep(EntryOf(front), last, r);
      LeastRankExtends(front, last, r, EntryOf(front).ranks, EntryOf(os).ranks);
    }
  }

  /** The guard that keeps the merge from replacing the running sum: no later input brings a larger fused score. */
  predicate GuardsHold(os: seq<Occurrence>) {
    forall i :: 0 < i < |os| ==> os[i].cand.fused <= GainSum(os[..i])
  }

  lemma GuardsExtend(front: seq<Occurrence>, o: Occurrence)
    requires front != []
    ensures GuardsHold(front + [o]) <==> GuardsHold(front) && o.cand.fused <= GainSum(front)
    ensures GainSum(front + [o]) == GainSum(front) + o.gain
  {
    var os := front + [o];
    assert os[..|front|] == front;
    assert forall i :: 0 < i < |front| ==> os[..i] == front[..i] && os[i] == front[i];
    if GuardsHold(os) {
      assert os[|front|].cand.fused <= GainSum(os[..|front|]);
      forall i | 0 < i < |front| ensures front[i].cand.fused <= GainSum(front[..i]) {
        assert os[i].cand.fused <= GainSum(os[..i]);
      }
    }
  }

  lemma FusedStep(f: Candidate, o: Occurrence)
    ensures Touch(Merge(f, o.cand), o).fused == Max(f.fused, o.cand.fused) + o.gain
  {
  }

  /** The fused score is exactly the sum of the gains if and only if the guards hold; otherwise it is larger. */
  lemma {:induction false} EntryFusedIsSum(os: seq<Occurrence>)
    requires os != []
    ensures EntryOf(os).fused >= GainSum(os)
    ensures EntryOf(os).fused == GainSum(os) <==> GuardsHold(os)
  {
    var front, last := os[..|os| - 1], os[|os| - 1];
    assert os == front + [last];
    if front != [] {
      EntryFusedIsSum(front);
      GuardsExtend(front, last);
      FusedStep(EntryOf(front), last);
    } else {
      assert GainSum([]) == 0.0;
    }
  }

  /** Fresh candidates with non-negative gains meet the guards. */
  lemma {:induction false} FreshInputsMeetGuards(os: seq<Occurrence>)
    requires forall i :: 0 <= i < |os| ==> os[i].cand.fused == 0.0 && os[i].gain >= 0.0
    ensures GuardsHold(os) && GainSum(os) >= 0.0
  {
    if os != [] {
      var front, last := os[..|os| - 1], os[|os| - 1];
      assert os == front + [last];
      FreshInputsMeetGuards(front);
      if front != [] {
        GuardsExtend(front, last);
      }
    }
  }

  datatype Field = Content | Source | KbId | Collection

  function Text(c: Candidate, f: Field): string {
    match f
    case Content => c.content
    case Source => c.source
    case KbId => c.kbId
    case Collection => c.collection
  }

  /** Text fields keep the first non-empty value. */
  lemma {:induction false} EntryTextIsFirst(os: seq<Occurrence>, f: Field, k: nat)
    requires os != [] && k <= |os|
    requires forall i :: 0 <= i < k ==> Text(os[i].cand, f) == ""
    requires k < |os| ==> Text(os[k].cand, f) != ""
    ensures Text(EntryOf(os), f) == if k < |os| then Text(os[k].cand, f) else ""
  {
    var front, last := os[..|os| - 1], os[|os| - 1];
    if front != [] {
      EntryTextIsFirst(front, f, if k < |os| then k else k - 1);
      TextStep(EntryOf(front), last, f);
    }
  }

  lemma TextStep(e: Candidate, o: Occurrence, f: Field)
    ensures Text(Touch(Merge(e, o.cand), o), f) == if Text(e, f) == "" then Text(o.cand, f) else Text(e, f)
  {
  }

  /** A metadata key keeps the first value that is not blank. */
  lemma {:induction false} EntryMetadataIsFirst(os: seq<Occurrence>, key: string, k: nat)
    requires k < |os|
    requires forall i :: 0 <= i < k ==> key !in os[i].cand.metadata || os[i].cand.metadata[key].blank
    requires key in os[k].cand.metadata && !os[k].cand.metadata[key].blank
    ensures key in EntryOf(os).metadata && EntryOf(os).metadata[key] == os[k].cand.metadata[key]
  {
    var front, last := os[..|os| - 1], os[|os| - 1];
    if k < |front| {
      EntryMetadataIsFirst(front, key, k);
    } else if front != [] {
      BlankSoFar(front, key);
    }
  }

  /** A metadata key that is always blank keeps its last value, and a key that nobody has does not appear. */
  lemma {:induction false} EntryMetadataElseLast(os: seq<Occurrence>, key: string, k: nat)
    requires os != [] && k <= |os|
    requires forall i :: 0 <= i < |os| ==> key in os[i].cand.metadata ==> i <= k && os[i].cand.metadata[key].blank
    requires k < |os| ==> key in os[k].cand.metadata
    requires k == |os| ==> forall i :: 0 <= i < |os| ==> key !in os[i].cand.metadata
    ensures key in EntryOf(os).metadata <==> k < |os|
    ensures k < |os| ==> EntryOf(os).metadata[key] == os[k].cand.metadata[key]
  {
    var front := os[..|os| - 1];
    if front != [] {
      if k < |front| {
        EntryMetadataElseLast(front, key, k);
      } else if k == |os| {
        EntryMetadataElseLast(front, key, |front|);
      } else {
        BlankSoFar(front, key);
      }
    }
  }

  /** The id is that of the first occurrence. */
  lemma {:induction false} EntryIdIsFirst(os: seq<Occurrence>)
    requires os != []
    ensures EntryOf(os).id == os[0].cand.id
  {
    if |os| > 1 {
      EntryIdIsFirst(os[..|os| - 1]);
    }
  }

  lemma {:induction false} BlankSoFar(os: seq<Occurrence>, key: string)
    requires os != []
    requires forall i :: 0 <= i < |os| ==> key !in os[i].cand.metadata || os[i].cand.metadata[key].blank
    ensures key !in EntryOf(os).metadata || EntryOf(os).metadata[key].blank
  {
    if |os| > 1 {
      BlankSoFar(os[..|os| - 1], key);
    }
  }

  // ---- the table of entries ----

  lemma {:induction false} KeysAreExact(os: seq<Occurrence>)
    ensures forall i, j :: 0 <= i < j < |KeysOf(os)| ==> KeysOf(os)[i] != KeysOf(os)[j]
    ensures forall i :: 0 <= i < |os| ==> os[i].key in KeysOf(os)
    ensures forall key :: key in KeysOf(os) <==> WithKey(os, key) != []
  {
    if os != [] {
      var front, last := os[..|os| - 1], os[|os| - 1];
      KeysAreExact(front);
      assert os == front + [last];
      forall i | 0 <= i < |os| ensures os[i].key in KeysOf(os) {
        assert i == |front| || os[i] == front[i];
      }
    }
  }

  /** At this occurrence `a` has been seen, and `b` not yet. */
  predicate SeenBefore(os: seq<Occurrence>, a: string, b: string, p: nat) {
    p < |os| && os[p].key == a && forall q :: 0 <= q <= p ==> os[q].key != b
  }

  /** The keys stand in the order in which they are first seen. */
  lemma {:induction false} KeysAreInOrder(os: seq<Occurrence>, i: nat, j: nat) returns (p: nat)
    requires i < j < |KeysOf(os)|
    ensures SeenBefore(os, KeysOf(os)[i], KeysOf(os)[j], p)
  {
    var front := os[..|os| - 1];
    if j < |KeysOf(front)| {
      p := KeysAreInOrder(front, i, j);
    } else {
      KeysAreExact(front);
      p := KeyIsSeen(front, KeysOf(front)[i]);
    }
  }

  lemma KeyIsSeen(os: seq<Occurrence>, key: string) returns (p: nat)
    requires key in KeysOf(os)
    ensures p < |os| && os[p].key == key
  {
    var n := |os| - 1;
    if os[n].key == key {
      p := n;
    } else {
      p := KeyIsSeen(os[..n], key);
    }
  }

  function Absorb(table: map<string, Candidate>, o: Occurrence): map<string, Candidate> {
    table[o.key := Touch(if o.key in table then Merge(table[o.key], o.cand) else Copied(o.cand), o)]
  }

  function TableOf(os: seq<Occurrence>): map<string, Candidate> {
    if os == [] then map[] else Absorb(TableOf(os[..|os| - 1]), os[|os| - 1])
  }

  /** Merging in place, one occurrence after the other, gives every key the entry of its own occurrences. */
  lemma {:induction false} TableHoldsEntries(os: seq<Occurrence>, key: string)
    ensures key in TableOf(os) <==> key in KeysOf(os)
    ensures key in TableOf(os) <==> WithKey(os, key) != []
    ensures key in TableOf(os) ==> TableOf(os)[key] == EntryOf(WithKey(os, key))
  {
    if os != [] {
      var front, last := os[..|os| - 1], os[|os| - 1];
      TableHoldsEntries(front, key);
      if last.key == key && WithKey(front, key) != [] {
        EntryExtends(WithKey(front, key), last);
      }
    }
  }

  lemma TableExtends(os: seq<Occurrence>, o: Occurrence)
    ensures TableOf(os + [o]) == Absorb(TableOf(os), o)
    ensures KeysOf(os + [o]) == if o.key in TableOf(os) then KeysOf(os) else KeysOf(os) + [o.key]
  {
    assert (os + [o])[..|os|] == os;
    TableHoldsEntries(os, o.key);
  }

  lemma EntryExtends(front: seq<Occurrence>, o: Occurrence)
    requires front != []
    ensures EntryOf(front + [o]) == Touch(Merge(EntryOf(front), o.cand), o)
  {
    assert (front + [o])[..|front|] == front;
  }

  // ---- the occurrences of the input lists ----

  type Weights = map<string, real>

  const DEFAULT_WEIGHTS: Weights := map["dense" := 1.0, "bm25" := 1.0]

  function WeightOf(weights: Weights, route: string): real {
    var w := if weights == map[] then DEFAULT_WEIGHTS else weights;
    if route in w then w[route] else 1.0
  }

  function Gain(weight: real, c: Candidate, rrfK: int, rank: int): real
    requires rrfK + rank != 0
  {
    weight * Penalty(c) / (rrfK + rank) as real
  }

  /** No rank of a list of this length makes the divisor zero. */
  predicate Rankable(length: nat, rrfK: int) {
    rrfK >= 0 || rrfK + length < 0
  }

  function OccurrenceAt(route: string, c: Candidate, weight: real, rrfK: int, rank: int): Occurrence
    requires rrfK + rank != 0
  {
    Occurrence(KeyOf(c), route, rank, c, Gain(weight, c, rrfK, rank))
  }

  /** The first `n` entries of one route's list, ranked from 1. */
  function RouteOccurrences(route: string, list: seq<Candidate>, weight: real, rrfK: int, n: nat): seq<Occurrence>
    requires n <= |list| && Rankable(|list|, rrfK)
  {
    if n == 0 then []
    else RouteOccurrences(route, list, weight, rrfK, n - 1) +
         [OccurrenceAt(route, list[n - 1], weight, rrfK, n)]
  }

  /** All occurrences, route by route. */
  function Occurrences(lists: seq<(string, seq<Candidate>)>, weights: Weights, rrfK: int): seq<Occurrence>
    requires forall r :: 0 <= r < |lists| ==> Rankable(|lists[r].1|, rrfK)
  {
    if lists == [] then []
    else
      var last := lists[|lists| - 1];
      Occurrences(lists[..|lists| - 1], weights, rrfK) +
      RouteOccurrences(last.0, last.1, WeightOf(weights, last.0), rrfK, |last.1|)
  }

  // ---- sorting ----

  /** What list.sort compares; larger ones come first. */
  datatype Score = Score(first: real, second: real, third: real)

  predicate AtLeast(a: Score, b: Score) {
    a.first > b.first ||
    (a.first == b.first && (a.second > b.second || (a.second == b.second && a.third >= b.third)))
  }

  /** An element to sort: its score, and its position in the list. */
  datatype Scored = Scored(score: Score, at: nat)

  function Insert(sorted: seq<Scored>, x: Scored): seq<Scored> {
    if sorted == [] || !AtLeast(sorted[0].score, x.score) then [x] + sorted
    else [sorted[0]] + Insert(sorted[1..], x)
  }

  /** A stable sort by descending score. */
  function SortDescending(items: seq<Scored>): seq<Scored> {
    if items == [] then []
    else Insert(SortDescending(items[..|items| - 1]), items[|items| - 1])
  }

  predicate Sorted(items: seq<Scored>) {
    forall i, j :: 0 <= i < j < |items| ==> AtLeast(items[i].score, items[j].score)
  }

  /** The elements with one score, in order. */
  function Ties(items: seq<Scored>, score: Score): seq<Scored> {
    if items == [] then []
    else (if items[0].score == score then [items[0]] else []) + Ties(items[1..], score)
  }

  lemma {:induction false} InsertPermutes(sorted: seq<Scored>, x: Scored)
    ensures multiset(Insert(sorted, x)) == multiset(sorted) + multiset{x}
  {
    if sorted != [] && AtLeast(sorted[0].score, x.score) {
      InsertPermutes(sorted[1..], x);
      assert sorted == [sorted[0]] + sorted[1..];
    }
  }

  lemma {:induction false} InsertSorts(sorted: seq<Scored>, x: Scored)
    requires Sorted(sorted)
    ensures Sorted(Insert(sorted, x))
  {
    if sorted != [] && AtLeast(sorted[0].score, x.score) {
      var rest := Insert(sorted[1..], x);
      InsertSorts(sorted[1..], x);
      InsertPermutes(sorted[1..], x);
      forall i | 0 <= i < |rest| ensures AtLeast(sorted[0].score, rest[i].score) {
        assert rest[i] in multiset(rest);
        if rest[i] != x {
          assert rest[i] in sorted[1..];
        }
      }
    }
  }

  lemma {:induction false} InsertKeepsTies(sorted: seq<Scored>, x: Scored, score: Score)
    requires Sorted(sorted)
    ensures Ties(Insert(sorted, x), score) == Ties(sorted, score) + (if x.score == score then [x] else [])
  {
    if sorted != [] && AtLeast(sorted[0].score, x.score) {
      InsertKeepsTies(sorted[1..], x, score);
      assert ([sorted[0]] + Insert(sorted[1..], x))[1..] == Insert(sorted[1..], x);
    } else {
      if x.score == score {
        NoTies(sorted, score);
      }
      assert ([x] + sorted)[1..] == sorted;
    }
  }

  lemma {:induction false} NoTies(sorted: seq<Scored>, score: Score)
    requires Sorted(sorted) && (sorted != [] ==> !AtLeast(sorted[0].score, score))
    ensures Ties(sorted, score) == []
  {
    if sorted != [] {
      if |sorted| > 1 {
        assert AtLeast(sorted[0].score, sorted[1].score);
      }
      NoTies(sorted[1..], score);
    }
  }

  /** The result is a sorted permutation, and elements with equal scores keep their order. */
  lemma {:induction false} SortIsStable(items: seq<Scored>, score: Score)
    ensures Sorted(SortDescending(items)) && multiset(SortDescending(items)) == multiset(items)
    ensures Ties(SortDescending(items), score) == Ties(items, score)
  {
    if items != [] {
      var front, last := items[..|items| - 1], items[|items| - 1];
      assert items == front + [last];
      SortIsStable(front, score);
      InsertSorts(SortDescending(front), last);
      InsertPermutes(SortDescending(front), last);
      InsertKeepsTies(SortDescending(front), last, score);
      TiesAppend(front, last, score);
    }
  }

  lemma {:induction false} TiesAppend(items: seq<Scored>, x: Scored, score: Score)
    ensures Ties(items + [x], score) == Ties(items, score) + (if x.score == score then [x] else [])
  {
    if items == [] {
      assert [x][1..] == [];
    } else {
      TiesAppend(items[1..], x, score);
      assert (items + [x])[1..] == items[1..] + [x];
    }
  }
}
