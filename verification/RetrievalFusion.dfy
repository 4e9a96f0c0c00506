/** RetrievalCandidate and fuse_candidates of AIOrchestrator/rag/retrieval.py, which update candidates in place. */
module RetrievalFusion {
  import opened Common
  import opened Retrieval

  class RetrievalCandidate {
    var candidateId: string
    var content: string
    var source: string
    var kbId: string
    var collection: string
    var metadata: Metadata
    var denseScore: real
    var lexicalScore: real
    var fusedScore: real
    var rerankScore: Option<real>
    var recallRoutes: set<string>
    var routeRanks: map<string, int>

    function View(): Candidate
      reads this
    {
      Candidate(candidateId, content, source, kbId, collection, metadata,
                denseScore, lexicalScore, fusedScore, rerankScore, recallRoutes, routeRanks)
    }

    constructor (c: Candidate)
      ensures View() == c
    {
      candidateId, content, source, kbId, collection := c.id, c.content, c.source, c.kbId, c.collection;
      metadata, denseScore, lexicalScore, fusedScore := c.metadata, c.dense, c.lexical, c.fused;
      rerankScore, recallRoutes, routeRanks := c.rerank, c.routes, c.ranks;
    }

    method MergeWith(other: RetrievalCandidate)
      modifies this
      ensures View() == Merge(old(View()), old(other.View()))
    {
      var o := other.View();
      MergeTexts(o);
      metadata := MergedMetadata(metadata, o.metadata);
      MergeScores(o);
      recallRoutes := recallRoutes + o.routes;
      routeRanks := MergedRanks(routeRanks, o.ranks);
    }

    method MergeScores(o: Candidate)
      modifies this`denseScore, this`lexicalScore, this`fusedScore, this`rerankScore
      ensures denseScore == Max(old(denseScore), o.dense) && lexicalScore == Max(old(lexicalScore), o.lexical)
      ensures fusedScore == Max(old(fusedScore), o.fused) && rerankScore == MergeRerank(old(rerankScore), o.rerank)
    {
      denseScore := Max(denseScore, o.dense);
      lexicalScore := Max(lexicalScore, o.lexical);
      fusedScore := Max(fusedScore, o.fused);
      if o.rerank.Some? {
        rerankScore := Some(Max(if rerankScore.Some? then rerankScore.value else 0.0, o.rerank.value));
      }
    }

    method MergeTexts(o: Candidate)
      modifies this`content, this`source, this`kbId, this`collection
      ensures content == FirstNonEmpty(old(content), o.content) && source == FirstNonEmpty(old(source), o.source)
      ensures kbId == FirstNonEmpty(old(kbId), o.kbId) && collection == FirstNonEmpty(old(collection), o.collection)
    {
      if content == "" {
        content := o.content;
      }
      if source == "" {
        source := o.source;
      }
      if kbId == "" {
        kbId := o.kbId;
      }
      if collection == "" {
        collection := o.collection;
      }
    }

    /** What fuse_candidates does to an entry for every occurrence. */
    method TouchWith(o: Occurrence)
      modifies this
      ensures View() == Touch(old(View()), o)
    {
      TouchRoutes(o.route, o.rank);
      TouchScores(o);
    }

    method TouchRoutes(route: string, rank: int)
      modifies this`recallRoutes, this`routeRanks
      ensures recallRoutes == old(recallRoutes) + {route}
      ensures routeRanks == old(routeRanks)[route :=
        if route in old(routeRanks) && old(routeRanks)[route] < rank then old(routeRanks)[route] else rank]
    {
      recallRoutes := recallRoutes + {route};
      routeRanks := routeRanks[route :=
        if route !in routeRanks then rank else if routeRanks[route] <= rank then routeRanks[route] else rank];
    }

    method SetRank(route: string, rank: int)
      modifies this`routeRanks
      ensures View() == old(View()).(ranks := old(routeRanks)[route := rank])
    {
      routeRanks := routeRanks[route := rank];
    }

    method TouchScores(o: Occurrence)
      modifies this`denseScore, this`lexicalScore, this`fusedScore
      ensures denseScore == (if o.route == "dense" then Max(old(denseScore), o.cand.dense) else old(denseScore))
      ensures lexicalScore == (if o.route == "bm25" then Max(old(lexicalScore), o.cand.lexical) else old(lexicalScore))
      ensures fusedScore == old(fusedScore) + o.gain
    {
      if o.route == "dense" {
        denseScore := Max(denseScore, o.cand.dense);
      } else if o.route == "bm25" {
        lexicalScore := Max(lexicalScore, o.cand.lexical);
      }
      fusedScore := fusedScore + o.gain;
    }
  }

  /** The merge as far as the keys in `done` go. */
  ghost function MetadataUpto(base: Metadata, other: Metadata, done: set<string>): Metadata
    requires done <= other.Keys
  {
    map k | k in base.Keys + done :: if k in done then MetaAt(base, other, k) else base[k]
  }

  lemma MetadataStep(base: Metadata, other: Metadata, done: set<string>, key: string)
    requires done <= other.Keys && key in other && key !in done
    ensures var m := MetadataUpto(base, other, done);
            && (key in m <==> key in base) && (key in base ==> m[key] == base[key])
            && MetadataUpto(base, other, done + {key}) == m[key := MetaAt(base, other, key)]
  {
  }

  method MergedMetadata(base: Metadata, other: Metadata) returns (merged: Metadata)
    ensures merged == MergeMetadata(base, other)
  {
    merged := base;
    var done: set<string> := {};
    assert merged == MetadataUpto(base, other, done);
    while other.Keys - done != {}
      invariant done <= other.Keys && merged == MetadataUpto(base, other, done)
      decreases other.Keys - done
    {
      var key :| key in other.Keys - done;
      MetadataStep(base, other, done, key);
      if key !in merged || merged[key].blank {
        merged := merged[key := other[key]];
      }
      done := done + {key};
    }
    assert MetadataUpto(base, other, other.Keys) == MergeMetadata(base, other);
  }

  /** The merge as far as the keys in `done` go. */
  ghost function RanksUpto(base: map<string, int>, other: map<string, int>, done: set<string>): map<string, int>
    requires done <= other.Keys
  {
    map k | k in base.Keys + done :: if k in done then RankAt(base, other, k) else base[k]
  }

  lemma RanksStep(base: map<string, int>, other: map<string, int>, done: set<string>, key: string)
    requires done <= other.Keys && key in other && key !in done
    ensures var m := RanksUpto(base, other, done);
            && (key in m <==> key in base) && (key in base ==> m[key] == base[key])
            && RanksUpto(base, other, done + {key}) == m[key := RankAt(base, other, key)]
  {
  }

  method MergedRanks(base: map<string, int>, other: map<string, int>) returns (merged: map<string, int>)
    ensures merged == MergeRanks(base, other)
  {
    merged := base;
    var done: set<string> := {};
    assert merged == RanksUpto(base, other, done);
    while other.Keys - done != {}
      invariant done <= other.Keys && merged == RanksUpto(base, other, done)
      decreases other.Keys - done
    {
      var key :| key in other.Keys - done;
      RanksStep(base, other, done, key);
      if key !in merged || other[key] < merged[key] {
        merged := merged[key := other[key]];
      }
      done := done + {key};
    }
    assert RanksUpto(base, other, other.Keys) == MergeRanks(base, other);
  }

  // ---- the table of entries ----

  /** The values of the merged entries, and their keys in insertion order. */
  datatype Snapshot = Snapshot(table: map<string, Candidate>, keys: seq<string>)

  function SnapshotOf(os: seq<Occurrence>): Snapshot {
    Snapshot(TableOf(os), KeysOf(os))
  }

  function After(s: Snapshot, o: Occurrence): Snapshot {
    Snapshot(Absorb(s.table, o), if o.key in s.table then s.keys else s.keys + [o.key])
  }

  /** Every snapshot follows from the one before it by one occurrence. */
  ghost predicate Trace(trace: seq<Snapshot>, os: seq<Occurrence>) {
    |trace| == |os| + 1 && forall p :: 0 <= p < |os| ==> trace[p + 1] == After(trace[p], os[p])
  }

  lemma SnapshotStep(os: seq<Occurrence>, o: Occurrence)
    ensures SnapshotOf(os + [o]) == After(SnapshotOf(os), o)
  {
    TableExtends(os, o);
  }

  lemma TraceExtends(trace: seq<Snapshot>, os: seq<Occurrence>, o: Occurrence)
    requires Trace(trace, os)
    ensures Trace(trace + [After(trace[|os|], o)], os + [o])
  {
    var longer, next := os + [o], trace + [After(trace[|os|], o)];
    forall p | 0 <= p < |longer| ensures next[p + 1] == After(next[p], longer[p]) {
      assert p == |os| || os[p] == longer[p];
    }
  }

  /** The snapshots that a fusion goes through. */
  lemma TraceOf(os: seq<Occurrence>) returns (trace: seq<Snapshot>)
    ensures Trace(trace, os) && trace[0] == SnapshotOf([]) && trace[|os|] == SnapshotOf(os)
  {
    if os == [] {
      trace := [SnapshotOf([])];
    } else {
      var front, last := os[..|os| - 1], os[|os| - 1];
      trace := TraceOf(front);
      SnapshotStep(front, last);
      TraceExtends(trace, front, last);
      trace := trace + [After(trace[|front|], last)];
      assert front + [last] == os;
    }
  }

  /** The merged objects are distinct, and their values are those of the snapshot. */
  ghost predicate Holds(merged: map<string, RetrievalCandidate>, order: seq<string>, s: Snapshot)
    reads merged.Values
  {
    && merged.Keys == s.table.Keys && order == s.keys
    && (forall k :: k in merged ==> merged[k].View() == s.table[k])
    && (forall k, l :: k in merged && l in merged && k != l ==> merged[k] != merged[l])
  }

  method NewEntry(o: Occurrence) returns (entry: RetrievalCandidate)
    ensures fresh(entry) && entry.View() == Touch(Copied(o.cand), o)
  {
    entry := new RetrievalCandidate(Copied(o.cand));
    entry.TouchWith(o);
  }

  method UpdateEntry(entry: RetrievalCandidate, candidate: RetrievalCandidate, o: Occurrence)
    requires entry != candidate && candidate.View() == o.cand
    modifies entry
    ensures entry.View() == Touch(Merge(old(entry.View()), o.cand), o)
  {
    entry.MergeWith(candidate);
    entry.TouchWith(o);
  }

  method AddNew(merged0: map<string, RetrievalCandidate>, ghost s: Snapshot, o: Occurrence)
    returns (merged: map<string, RetrievalCandidate>)
    requires Holds(merged0, s.keys, s) && o.key !in s.table
    ensures Holds(merged, s.keys + [o.key], After(s, o))
    ensures fresh(merged.Values - merged0.Values)
  {
    var entry := NewEntry(o);
    AfterNew(s, o);
    merged := merged0[o.key := entry];
  }

  lemma AfterNew(s: Snapshot, o: Occurrence)
    requires o.key !in s.table
    ensures After(s, o) == Snapshot(s.table[o.key := Touch(Copied(o.cand), o)], s.keys + [o.key])
  {
  }

  method UpdateOld(merged: map<string, RetrievalCandidate>, ghost s: Snapshot, candidate: RetrievalCandidate,
                   o: Occurrence)
    requires Holds(merged, s.keys, s) && o.key in s.table
    requires candidate !in merged.Values && o.cand == candidate.View()
    modifies merged.Values
    ensures Holds(merged, s.keys, After(s, o))
  {
    UpdateEntry(merged[o.key], candidate, o);
  }

  /** The loop body of fuse_candidates: starts an entry for a new key, or merges into the one there is. */
  method AddOccurrence(merged0: map<string, RetrievalCandidate>, order0: seq<string>, ghost s: Snapshot,
                       candidate: RetrievalCandidate, o: Occurrence)
    returns (merged: map<string, RetrievalCandidate>, order: seq<string>)
    requires Holds(merged0, order0, s) && candidate !in merged0.Values && o.cand == candidate.View()
    modifies merged0.Values
    ensures Holds(merged, order, After(s, o))
    ensures fresh(merged.Values - merged0.Values)
  {
    merged, order := merged0, order0;
    if o.key !in merged {
      merged := AddNew(merged, s, o);
      order := order + [o.key];
    } else {
      UpdateOld(merged, s, candidate, o);
    }
  }

  // ---- fuse_candidates ----

  /** The list consists of input objects, and `values` are their values. */
  ghost predicate Shows(list: seq<RetrievalCandidate>, values: seq<Candidate>, inputs: set<RetrievalCandidate>)
    reads inputs
  {
    |list| == |values| && forall j :: 0 <= j < |list| ==> list[j] in inputs && list[j].View() == values[j]
  }

  ghost predicate ShowsAll(lists: seq<(string, seq<RetrievalCandidate>)>, values: seq<(string, seq<Candidate>)>,
                           inputs: set<RetrievalCandidate>)
    reads inputs
  {
    && |lists| == |values|
    && forall r :: 0 <= r < |lists| ==> lists[r].0 == values[r].0 && Shows(lists[r].1, values[r].1, inputs)
  }

  /** From position `start` on, `os` has the occurrences of one route. */
  ghost predicate RouteAt(os: seq<Occurrence>, start: nat, route: string, values: seq<Candidate>, weight: real,
                          rrfK: int)
    requires Rankable(|values|, rrfK)
  {
    && start + |values| <= |os|
    && forall j :: 0 <= j < |values| ==> os[start + j] == OccurrenceAt(route, values[j], weight, rrfK, j + 1)
  }

  /** The inner loop body: one candidate of a route. */
  method MergeOne(route: string, list: seq<RetrievalCandidate>, ghost values: seq<Candidate>, j: nat, weight: real,
                  rrfK: int, merged0: map<string, RetrievalCandidate>, order0: seq<string>,
                  ghost inputs: set<RetrievalCandidate>, ghost own0: set<RetrievalCandidate>,
                  ghost os: seq<Occurrence>, ghost trace: seq<Snapshot>, ghost start: nat)
    returns (merged: map<string, RetrievalCandidate>, order: seq<string>, ghost own: set<RetrievalCandidate>)
    requires j < |list| && Shows(list, values, inputs) && Rankable(|list|, rrfK)
    requires Trace(trace, os) && RouteAt(os, start, route, values, weight, rrfK)
    requires merged0.Values <= own0 && inputs !! own0 && Holds(merged0, order0, trace[start + j])
    modifies own0
    ensures Shows(list, values, inputs) && own0 <= own && fresh(own - own0)
    ensures merged.Values <= own && inputs !! own && Holds(merged, order, trace[start + j + 1])
  {
    var o := OccurrenceAt(route, list[j].View(), weight, rrfK, j + 1);
    assert o == os[start + j];
    merged, order := AddOccurrence(merged0, order0, trace[start + j], list[j], o);
    own := own0 + merged.Values;
  }

  /** One route: its list is merged into the entries. */
  method MergeRoute(route: string, list: seq<RetrievalCandidate>, ghost values: seq<Candidate>, weight: real, rrfK: int,
                    merged0: map<string, RetrievalCandidate>, order0: seq<string>,
                    ghost inputs: set<RetrievalCandidate>, ghost own0: set<RetrievalCandidate>,
                  ghost os: seq<Occurrence>, ghost trace: seq<Snapshot>, ghost start: nat)
    returns (merged: map<string, RetrievalCandidate>, order: seq<string>, ghost own: set<RetrievalCandidate>)
    requires Shows(list, values, inputs) && Rankable(|list|, rrfK)
    requires Trace(trace, os) && RouteAt(os, start, route, values, weight, rrfK)
    requires merged0.Values <= own0 && inputs !! own0 && Holds(merged0, order0, trace[start])
    modifies own0
    ensures own0 <= own && fresh(own - own0)
    ensures merged.Values <= own && Holds(merged, order, trace[start + |list|])
  {
    merged, order, own := merged0, order0, own0;
    for j := 0 to |list|
      invariant Shows(list, values, inputs) && own0 <= own && fresh(own - own0)
      invariant merged.Values <= own && inputs !! own && Holds(merged, order, trace[start + j])
    {
      merged, order, own :=
        MergeOne(route, list, values, j, weight, rrfK, merged, order, inputs, own, os, trace, start);
    }
  }

  predicate RankableLists<T>(lists: seq<(string, seq<T>)>, rrfK: int) {
    forall r :: 0 <= r < |lists| ==> Rankable(|lists[r].1|, rrfK)
  }

  /** Where the occurrences of route number `r` start. */
  ghost function Start(values: seq<(string, seq<Candidate>)>, r: nat): nat
    requires r <= |values|
  {
    if r == 0 then 0 else Start(values, r - 1) + |values[r - 1].1|
  }

  lemma {:induction false} RouteOccurrencesAt(route: string, list: seq<Candidate>, weight: real, rrfK: int, n: nat)
    requires n <= |list| && Rankable(|list|, rrfK)
    ensures var os := RouteOccurrences(route, list, weight, rrfK, n);
            |os| == n && forall j :: 0 <= j < n ==> os[j] == OccurrenceAt(route, list[j], weight, rrfK, j + 1)
  {
    if n > 0 {
      RouteOccurrencesAt(route, list, weight, rrfK, n - 1);
    }
  }

  lemma RouteAtEnd(front: seq<Occurrence>, route: string, list: seq<Candidate>, weight: real, rrfK: int)
    requires Rankable(|list|, rrfK)
    ensures var os := RouteOccurrences(route, list, weight, rrfK, |list|);
            |os| == |list| && RouteAt(front + os, |front|, route, list, weight, rrfK)
  {
    RouteOccurrencesAt(route, list, weight, rrfK, |list|);
  }

  lemma {:induction false} StartOfFront(values: seq<(string, seq<Candidate>)>, n: nat, r: nat)
    requires r <= n <= |values|
    ensures Start(values[..n], r) == Start(values, r)
  {
    if r > 0 {
      StartOfFront(values, n, r - 1);
    }
  }

  lemma RouteAtKept(front: seq<Occurrence>, more: seq<Occurrence>, start: nat, route: string, list: seq<Candidate>,
                    weight: real, rrfK: int)
    requires Rankable(|list|, rrfK) && RouteAt(front, start, route, list, weight, rrfK)
    ensures RouteAt(front + more, start, route, list, weight, rrfK)
  {
    forall j | 0 <= j < |list| ensures (front + more)[start + j] == OccurrenceAt(route, list[j], weight, rrfK, j + 1) {
      assert (front + more)[start + j] == front[start + j];
    }
  }

  /** Every route has its occurrences where it starts. */
  lemma {:induction false} RoutesAt(values: seq<(string, seq<Candidate>)>, weights: Weights, rrfK: int, r: nat)
    requires RankableLists(values, rrfK) && r < |values|
    ensures |Occurrences(values, weights, rrfK)| == Start(values, |values|)
    ensures RouteAt(Occurrences(values, weights, rrfK), Start(values, r), values[r].0, values[r].1,
                    WeightOf(weights, values[r].0), rrfK)
  {
    var front, route, list := values[..|values| - 1], values[|values| - 1].0, values[|values| - 1].1;
    var os, weight := Occurrences(front, weights, rrfK), WeightOf(weights, route);
    var more := RouteOccurrences(route, list, weight, rrfK, |list|);
    RouteAtEnd(os, route, list, weight, rrfK);
    StartOfFront(values, |front|, |front|);
    if r < |front| {
      RoutesAt(front, weights, rrfK, r);
      StartOfFront(values, |front|, r);
      RouteAtKept(os, more, Start(values, r), front[r].0, front[r].1, WeightOf(weights, front[r].0), rrfK);
    } else if front != [] {
      RoutesAt(front, weights, rrfK, 0);
    }
  }

  /** Route number `r` has its occurrences where it starts. */
  ghost predicate HasRoute(os: seq<Occurrence>, values: seq<(string, seq<Candidate>)>, weights: Weights, rrfK: int,
                           r: nat)
    requires RankableLists(values, rrfK) && r < |values|
  {
    RouteAt(os, Start(values, r), values[r].0, values[r].1, WeightOf(weights, values[r].0), rrfK)
  }

  ghost predicate HasRoutes(os: seq<Occurrence>, values: seq<(string, seq<Candidate>)>, weights: Weights, rrfK: int)
    requires RankableLists(values, rrfK)
  {
    && |os| == Start(values, |values|)
    && forall r: nat :: r < |values| ==> HasRoute(os, values, weights, rrfK, r)
  }

  lemma OccurrencesHaveRoutes(values: seq<(string, seq<Candidate>)>, weights: Weights, rrfK: int)
    requires RankableLists(values, rrfK)
    ensures HasRoutes(Occurrences(values, weights, rrfK), values, weights, rrfK)
  {
    if values != [] {
      RoutesAt(values, weights, rrfK, 0);
    }
    forall r: nat | r < |values| ensures HasRoute(Occurrences(values, weights, rrfK), values, weights, rrfK, r) {
      RoutesAt(values, weights, rrfK, r);
    }
  }

  /** The outer loop body: one route. */
  method MergeRouteAt(lists: seq<(string, seq<RetrievalCandidate>)>, ghost values: seq<(string, seq<Candidate>)>,
                      weights: Weights, rrfK: int, r: nat,
                      merged0: map<string, RetrievalCandidate>, order0: seq<string>,
                      ghost inputs: set<RetrievalCandidate>, ghost own0: set<RetrievalCandidate>,
                      ghost os: seq<Occurrence>, ghost trace: seq<Snapshot>, ghost start: nat)
    returns (merged: map<string, RetrievalCandidate>, order: seq<string>, ghost own: set<RetrievalCandidate>,
             ghost end: nat)
    requires ShowsAll(lists, values, inputs) && RankableLists(values, rrfK) && r < |lists|
    requires Trace(trace, os) && HasRoutes(os, values, weights, rrfK) && start == Start(values, r)
    requires start <= |os| && Holds(merged0, order0, trace[start])
    requires merged0.Values <= own0 && inputs !! own0
    modifies own0
    ensures ShowsAll(lists, values, inputs) && own0 <= own && fresh(own - own0)
    ensures end == Start(values, r + 1) <= |os| && Holds(merged, order, trace[end])
    ensures merged.Values <= own && inputs !! own
  {
    assert Shows(lists[r].1, values[r].1, inputs);
    assert HasRoute(os, values, weights, rrfK, r);
    merged, order, own := MergeRoute(lists[r].0, lists[r].1, values[r].1, WeightOf(weights, lists[r].0), rrfK,
                                     merged0, order0, inputs, own0, os, trace, start);
    end := start + |lists[r].1|;
  }

  /** Everything but the final sort: the merged entries, and their keys in insertion order. */
  method MergeRoutes(lists: seq<(string, seq<RetrievalCandidate>)>, ghost values: seq<(string, seq<Candidate>)>,
                     weights: Weights, rrfK: int, ghost inputs: set<RetrievalCandidate>,
                     ghost os: seq<Occurrence>, ghost trace: seq<Snapshot>)
    returns (merged: map<string, RetrievalCandidate>, order: seq<string>, ghost own: set<RetrievalCandidate>)
    requires ShowsAll(lists, values, inputs) && RankableLists(values, rrfK)
    requires Trace(trace, os) && HasRoutes(os, values, weights, rrfK) && trace[0] == Snapshot(map[], [])
    ensures Holds(merged, order, trace[|os|]) && merged.Values <= own && fresh(own)
  {
    merged, order, own := map[], [], {};
    ghost var start := 0;
    for r := 0 to |lists|
      invariant ShowsAll(lists, values, inputs)
      invariant start == Start(values, r) <= |os| && Holds(merged, order, trace[start])
      invariant merged.Values <= own && inputs !! own && fresh(own)
    {
      merged, order, own, start := MergeRouteAt(lists, values, weights, rrfK, r, merged, order, inputs, own,
                                                os, trace, start);
    }
  }

  // ---- the final sort ----

  function ScoreOf(c: Candidate): Score {
    Score(c.fused, c.dense, c.lexical)
  }

  predicate KeysInTable(s: Snapshot) {
    forall key :: key in s.keys ==> key in s.table
  }

  /** The entries' scores, in insertion order. */
  function Scores(s: Snapshot): seq<Scored>
    requires KeysInTable(s)
  {
    seq(|s.keys|, i requires 0 <= i < |s.keys| => Scored(ScoreOf(s.table[s.keys[i]]), i))
  }

  /** Equal scores, in the order of their positions. */
  predicate TiesInOrder(items: seq<Scored>) {
    forall i, j :: 0 <= i < j < |items| && items[i].score == items[j].score ==> items[i].at < items[j].at
  }

  lemma TiesPrepend(first: Scored, rest: seq<Scored>)
    requires TiesInOrder(rest)
    requires forall i :: 0 <= i < |rest| && first.score == rest[i].score ==> first.at < rest[i].at
    ensures TiesInOrder([first] + rest)
  {
  }

  lemma InsertedOrOld(sorted: seq<Scored>, x: Scored, i: nat)
    requires i < |Insert(sorted, x)|
    ensures Insert(sorted, x)[i] == x || Insert(sorted, x)[i] in sorted
  {
    InsertPermutes(sorted, x);
    assert Insert(sorted, x)[i] in multiset(Insert(sorted, x));
  }

  lemma {:induction false} InsertKeepsOrder(sorted: seq<Scored>, x: Scored)
    requires Sorted(sorted) && TiesInOrder(sorted)
    requires forall i :: 0 <= i < |sorted| ==> sorted[i].at < x.at
    ensures TiesInOrder(Insert(sorted, x))
  {
    if sorted != [] && AtLeast(sorted[0].score, x.score) {
      var rest := Insert(sorted[1..], x);
      InsertKeepsOrder(sorted[1..], x);
      forall i | 0 <= i < |rest| && sorted[0].score == rest[i].score ensures sorted[0].at < rest[i].at {
        InsertedOrOld(sorted[1..], x, i);
      }
      TiesPrepend(sorted[0], rest);
    } else {
      forall i | 0 <= i < |sorted| ensures sorted[i].score != x.score {
        assert i == 0 || AtLeast(sorted[0].score, sorted[i].score);
      }
      TiesPrepend(x, sorted);
    }
  }

  /** Equal scores keep their insertion order, and every position occurs once. */
  lemma {:induction false} SortKeepsTies(items: seq<Scored>)
    requires forall i :: 0 <= i < |items| ==> items[i].at == i
    ensures Sorted(SortDescending(items)) && TiesInOrder(SortDescending(items))
    ensures multiset(SortDescending(items)) == multiset(items)
  {
    if items != [] {
      var front, last := items[..|items| - 1], items[|items| - 1];
      var sorted := SortDescending(front);
      SortKeepsTies(front);
      assert items == front + [last];
      forall i | 0 <= i < |sorted| ensures sorted[i].at < last.at {
        assert sorted[i] in multiset(sorted);
        assert sorted[i] in front;
      }
      InsertKeepsOrder(sorted, last);
      InsertSorts(sorted, last);
      InsertPermutes(sorted, last);
    }
  }

  /** The keys in the order in which fuse_candidates returns their entries. */
  function RankedKeys(s: Snapshot): (keys: seq<string>)
    requires KeysInTable(s)
    ensures |keys| == |s.keys| && forall i :: 0 <= i < |keys| ==> keys[i] in s.keys
  {
    var sorted := SortDescending(Scores(s));
    SortedPositions(s);
    seq(|sorted|, i requires 0 <= i < |sorted| => s.keys[sorted[i].at])
  }

  lemma SortedPositions(s: Snapshot)
    requires KeysInTable(s)
    ensures var sorted := SortDescending(Scores(s));
            |sorted| == |s.keys| &&
            forall i :: 0 <= i < |sorted| ==> sorted[i].at < |s.keys| && sorted[i] == Scores(s)[sorted[i].at]
  {
    var sorted := SortDescending(Scores(s));
    SortKeepsTies(Scores(s));
    assert |multiset(sorted)| == |multiset(Scores(s))|;
    forall i | 0 <= i < |sorted| ensures sorted[i].at < |s.keys| && sorted[i] == Scores(s)[sorted[i].at] {
      assert sorted[i] in multiset(sorted);
      assert sorted[i] in Scores(s);
    }
  }

  /** `keys` has the keys of the snapshot, each once, in the order of the sort; equal scores keep their order. */
  ghost predicate Ranks(keys: seq<string>, s: Snapshot)
    requires KeysInTable(s)
  {
    && (forall key :: key in keys <==> key in s.keys)
    && (forall i, j :: 0 <= i < j < |keys| ==>
         keys[i] in s.table && keys[j] in s.table && Precedes(keys[i], keys[j], s))
  }

  /** The entry of `a` has the larger scores, or the same scores and was inserted before the entry of `b`. */
  ghost predicate Precedes(a: string, b: string, s: Snapshot)
    requires a in s.table && b in s.table
  {
    var x, y := ScoreOf(s.table[a]), ScoreOf(s.table[b]);
    AtLeast(x, y) && (x == y ==> exists p, q :: 0 <= p < q < |s.keys| && s.keys[p] == a && s.keys[q] == b)
  }

  lemma EveryKeyIsRanked(s: Snapshot, key: string)
    requires KeysInTable(s)
    ensures key in RankedKeys(s) <==> key in s.keys
  {
    var items, sorted, keys := Scores(s), SortDescending(Scores(s)), RankedKeys(s);
    SortKeepsTies(items);
    SortedPositions(s);
    if key in s.keys {
      var p :| 0 <= p < |s.keys| && s.keys[p] == key;
      assert items[p] in multiset(items);
      assert items[p] in multiset(sorted);
      var i :| 0 <= i < |sorted| && sorted[i] == items[p];
      assert keys[i] == key;
    }
  }

  lemma RankedInOrder(s: Snapshot, i: nat, j: nat)
    requires KeysInTable(s) && i < j < |RankedKeys(s)|
    ensures Precedes(RankedKeys(s)[i], RankedKeys(s)[j], s)
  {
    var sorted := SortDescending(Scores(s));
    SortKeepsTies(Scores(s));
    SortedPositions(s);
    assert Scores(s)[sorted[i].at].score == ScoreOf(s.table[RankedKeys(s)[i]]);
    assert Scores(s)[sorted[j].at].score == ScoreOf(s.table[RankedKeys(s)[j]]);
    assert AtLeast(sorted[i].score, sorted[j].score);
  }

  /** The result of the sort has every key, in the right order. */
  lemma RankedKeysRank(s: Snapshot)
    requires KeysInTable(s)
    ensures Ranks(RankedKeys(s), s)
  {
    forall key: string ensures key in RankedKeys(s) <==> key in s.keys {
      EveryKeyIsRanked(s, key);
    }
    forall i: nat, j: nat | i < j < |RankedKeys(s)| ensures Precedes(RankedKeys(s)[i], RankedKeys(s)[j], s) {
      RankedInOrder(s, i, j);
    }
  }

  /** What list.sort compares, for every entry. */
  method EntryScores(merged: map<string, RetrievalCandidate>, order: seq<string>, ghost s: Snapshot)
    returns (items: seq<Scored>)
    requires Holds(merged, order, s) && KeysInTable(s)
    ensures items == Scores(s)
  {
    items := [];
    for i := 0 to |order|
      invariant |items| == i
      invariant forall j :: 0 <= j < i ==> items[j] == Scores(s)[j]
    {
      items := items + [Scored(ScoreOf(merged[order[i]].View()), i)];
    }
  }

  /** The list has the entries of the snapshot, in the order of the sort. */
  ghost predicate ShowsRanked(fused: seq<RetrievalCandidate>, s: Snapshot)
    requires KeysInTable(s)
    reads fused
  {
    var keys := RankedKeys(s);
    |fused| == |keys| && forall i :: 0 <= i < |keys| ==> keys[i] in s.table && fused[i].View() == s.table[keys[i]]
  }

  /** By the fused score, then the dense one, then the lexical one. */
  predicate NotBehind(a: Candidate, b: Candidate) {
    || a.fused > b.fused
    || (a.fused == b.fused && a.dense > b.dense)
    || (a.fused == b.fused && a.dense == b.dense && a.lexical >= b.lexical)
  }

  ghost predicate InScoreOrder(fused: seq<RetrievalCandidate>)
    reads fused
  {
    forall i: nat :: i < |fused| - 1 ==> NotBehind(fused[i].View(), fused[i + 1].View())
  }

  lemma RankedNeighbours(s: Snapshot, i: nat)
    requires KeysInTable(s) && i + 1 < |RankedKeys(s)|
    ensures var keys := RankedKeys(s);
            keys[i] in s.table && keys[i + 1] in s.table && NotBehind(s.table[keys[i]], s.table[keys[i + 1]])
  {
    RankedInOrder(s, i, i + 1);
  }

  /** The final sort: list.sort on the entries, by the three scores, reversed. */
  method SortEntries(merged: map<string, RetrievalCandidate>, order: seq<string>, ghost s: Snapshot)
    returns (fused: seq<RetrievalCandidate>)
    requires Holds(merged, order, s) && KeysInTable(s)
    ensures ShowsRanked(fused, s) && forall i :: 0 <= i < |fused| ==> fused[i] in merged.Values
  {
    var items := EntryScores(merged, order, s);
    var sorted := SortDescending(items);
    SortedPositions(s);
    fused := [];
    ghost var keys := RankedKeys(s);
    for i := 0 to |sorted|
      invariant |fused| == i
      invariant forall j :: 0 <= j < i ==> keys[j] in merged && fused[j] == merged[keys[j]]
    {
      assert keys[i] == order[sorted[i].at];
      fused := fused + [merged[order[sorted[i].at]]];
    }
  }

  lemma RankedOnesAreInOrder(fused: seq<RetrievalCandidate>, s: Snapshot)
    requires KeysInTable(s) && ShowsRanked(fused, s)
    ensures InScoreOrder(fused)
  {
    forall i: nat | i < |fused| - 1 ensures NotBehind(fused[i].View(), fused[i + 1].View()) {
      RankedNeighbours(s, i);
    }
  }

  lemma FusionTrace(values: seq<(string, seq<Candidate>)>, weights: Weights, rrfK: int)
    returns (os: seq<Occurrence>, trace: seq<Snapshot>)
    requires RankableLists(values, rrfK)
    ensures os == Occurrences(values, weights, rrfK) && HasRoutes(os, values, weights, rrfK)
    ensures Trace(trace, os) && trace[0] == Snapshot(map[], []) && trace[|os|] == SnapshotOf(os)
    ensures KeysInTable(trace[|os|])
  {
    os := Occurrences(values, weights, rrfK);
    trace := TraceOf(os);
    OccurrencesHaveRoutes(values, weights, rrfK);
    TableHasKeys(os);
  }

  /** fuse_candidates: new objects, one for every key of the inputs, in the order of the scores. */
  method FuseCandidates(lists: seq<(string, seq<RetrievalCandidate>)>, ghost values: seq<(string, seq<Candidate>)>,
                        weights: Weights, rrfK: int, ghost inputs: set<RetrievalCandidate>)
    returns (fused: seq<RetrievalCandidate>, ghost s: Snapshot)
    requires ShowsAll(lists, values, inputs) && RankableLists(values, rrfK)
    ensures s == SnapshotOf(Occurrences(values, weights, rrfK)) && KeysInTable(s)
    ensures ShowsRanked(fused, s) && forall i :: 0 <= i < |fused| ==> fresh(fused[i])
    ensures InScoreOrder(fused)
  {
    ghost var os, trace := FusionTrace(values, weights, rrfK);
    s := trace[|os|];
    var merged, order;
    ghost var own;
    merged, order, own := MergeRoutes(lists, values, weights, rrfK, inputs, os, trace);
    fused := SortEntries(merged, order, s);
    RankedOnesAreInOrder(fused, s);
  }

  lemma TableHasKeys(os: seq<Occurrence>)
    ensures KeysInTable(SnapshotOf(os))
  {
    forall key | key in KeysOf(os) ensures key in TableOf(os) {
      TableHoldsEntries(os, key);
    }
  }

  // ---- what the result says about the inputs ----

  lemma {:induction false} WithKeySelects(os: seq<Occurrence>, key: string, o: Occurrence)
    ensures o in WithKey(os, key) <==> o in os && o.key == key
  {
    if os != [] {
      WithKeySelects(os[..|os| - 1], key, o);
      assert os == os[..|os| - 1] + [os[|os| - 1]];
    }
  }

  /** `o` stands for candidate `j` of route number `r`. */
  ghost predicate StandsFor(o: Occurrence, values: seq<(string, seq<Candidate>)>, weights: Weights, rrfK: int,
                            r: nat, j: nat)
    requires RankableLists(values, rrfK)
  {
    && r < |values| && j < |values[r].1|
    && o == OccurrenceAt(values[r].0, values[r].1[j], WeightOf(weights, values[r].0), rrfK, j + 1)
  }

  /** Every occurrence stands for a candidate of the inputs. */
  lemma {:induction false} OccurrenceStands(values: seq<(string, seq<Candidate>)>, weights: Weights, rrfK: int,
                                            o: Occurrence)
    returns (r: nat, j: nat)
    requires RankableLists(values, rrfK) && o in Occurrences(values, weights, rrfK)
    ensures StandsFor(o, values, weights, rrfK, r, j)
  {
    var front, route, list := values[..|values| - 1], values[|values| - 1].0, values[|values| - 1].1;
    if o in Occurrences(front, weights, rrfK) {
      r, j := OccurrenceStands(front, weights, rrfK, o);
    } else {
      var more := RouteOccurrences(route, list, WeightOf(weights, route), rrfK, |list|);
      RouteOccurrencesAt(route, list, WeightOf(weights, route), rrfK, |list|);
      r := |values| - 1;
      j :| 0 <= j < |more| && more[j] == o;
    }
  }

  /** Every candidate of the inputs has its occurrence. */
  lemma CandidateOccurs(values: seq<(string, seq<Candidate>)>, weights: Weights, rrfK: int, r: nat, j: nat)
    requires RankableLists(values, rrfK) && r < |values| && j < |values[r].1|
    ensures var o := OccurrenceAt(values[r].0, values[r].1[j], WeightOf(weights, values[r].0), rrfK, j + 1);
            o in Occurrences(values, weights, rrfK)
  {
    RoutesAt(values, weights, rrfK, r);
    assert Occurrences(values, weights, rrfK)[Start(values, r) + j] in Occurrences(values, weights, rrfK);
  }

  /** The keys that fuse_candidates returns are exactly the keys of the inputs, each once. */
  lemma FusionReturnsInputKeys(values: seq<(string, seq<Candidate>)>, weights: Weights, rrfK: int)
    requires RankableLists(values, rrfK)
    ensures var s := SnapshotOf(Occurrences(values, weights, rrfK));
            && KeysInTable(s)
            && (forall r, j :: 0 <= r < |values| && 0 <= j < |values[r].1| ==> KeyOf(values[r].1[j]) in RankedKeys(s))
            && (forall key :: key in RankedKeys(s) ==> IsInputKey(values, key))
            && (forall i, j :: 0 <= i < j < |RankedKeys(s)| ==> RankedKeys(s)[i] != RankedKeys(s)[j])
  {
    var os := Occurrences(values, weights, rrfK);
    var s := SnapshotOf(os);
    TableHasKeys(os);
    KeysAreExact(os);
    RankedKeysRank(s);
    forall r, j | 0 <= r < |values| && 0 <= j < |values[r].1| ensures KeyOf(values[r].1[j]) in RankedKeys(s) {
      CandidateOccurs(values, weights, rrfK, r, j);
    }
    forall key | key in RankedKeys(s) ensures IsInputKey(values, key) {
      KeyIsInput(values, weights, rrfK, key);
    }
  }

  ghost predicate IsInputKey(values: seq<(string, seq<Candidate>)>, key: string) {
    exists r, j :: 0 <= r < |values| && 0 <= j < |values[r].1| && KeyOf(values[r].1[j]) == key
  }

  lemma KeyIsInput(values: seq<(string, seq<Candidate>)>, weights: Weights, rrfK: int, key: string)
    requires RankableLists(values, rrfK) && key in KeysOf(Occurrences(values, weights, rrfK))
    ensures IsInputKey(values, key)
  {
    var os := Occurrences(values, weights, rrfK);
    KeysAreExact(os);
    var o := WithKey(os, key)[0];
    WithKeySelects(os, key, o);
    var r, j := OccurrenceStands(values, weights, rrfK, o);
    assert KeyOf(values[r].1[j]) == key;
  }

  /** Candidates that no fusion has scored yet, and routes with weights that do not count against them. */
  predicate FreshInputs(values: seq<(string, seq<Candidate>)>, weights: Weights) {
    forall r :: 0 <= r < |values| ==>
      WeightOf(weights, values[r].0) >= 0.0 &&
      forall j :: 0 <= j < |values[r].1| ==> values[r].1[j].fused == 0.0
  }

  /** On fresh inputs an entry's fused score is exactly the sum of weight * penalty / (rrf_k + rank) over its key. */
  lemma FusedScoreIsSum(values: seq<(string, seq<Candidate>)>, weights: Weights, rrfK: nat, key: string)
    requires FreshInputs(values, weights) && IsInputKey(values, key)
    ensures var os := Occurrences(values, weights, rrfK);
            key in TableOf(os) && TableOf(os)[key].fused == GainSum(WithKey(os, key))
  {
    var os := Occurrences(values, weights, rrfK);
    var own := WithKey(os, key);
    var r, j :| 0 <= r < |values| && 0 <= j < |values[r].1| && KeyOf(values[r].1[j]) == key;
    CandidateOccurs(values, weights, rrfK, r, j);
    KeysAreExact(os);
    TableHoldsEntries(os, key);
    forall i | 0 <= i < |own| ensures own[i].cand.fused == 0.0 && own[i].gain >= 0.0 {
      WithKeySelects(os, key, own[i]);
      FreshOccurrence(values, weights, rrfK, own[i]);
    }
    FreshInputsMeetGuards(own);
    EntryFusedIsSum(own);
  }

  lemma FreshOccurrence(values: seq<(string, seq<Candidate>)>, weights: Weights, rrfK: nat, o: Occurrence)
    requires FreshInputs(values, weights) && o in Occurrences(values, weights, rrfK)
    ensures o.cand.fused == 0.0 && o.gain >= 0.0
  {
    var r, j := OccurrenceStands(values, weights, rrfK, o);
    GainIsNonNegative(WeightOf(weights, values[r].0), values[r].1[j], rrfK, j + 1);
  }

  lemma GainIsNonNegative(weight: real, c: Candidate, rrfK: nat, rank: nat)
    requires weight >= 0.0 && rank > 0
    ensures Gain(weight, c, rrfK, rank) >= 0.0
  {
    var top, bottom := weight * Penalty(c), (rrfK + rank) as real;
    assert top >= 0.0 && bottom > 0.0;
    assert top / bottom >= 0.0;
  }

  /** In the table too, a fused score is the sum of its gains if and only if the guards hold for its key. */
  lemma TableSumsExactly(os: seq<Occurrence>, key: string)
    requires key in TableOf(os)
    ensures TableOf(os)[key].fused == GainSum(WithKey(os, key)) <==> GuardsHold(WithKey(os, key))
    ensures TableOf(os)[key].fused >= GainSum(WithKey(os, key))
  {
    TableHoldsEntries(os, key);
    EntryFusedIsSum(WithKey(os, key));
  }

  /** The call with one candidate on each of the two default routes. */
  lemma TwoRoutes(c: Candidate, d: Candidate)
    ensures Occurrences([("dense", [c]), ("bm25", [d])], map[], 60) ==
            [OccurrenceAt("dense", c, 1.0, 60, 1), OccurrenceAt("bm25", d, 1.0, 60, 1)]
  {
    var first, second := ("dense", [c]), ("bm25", [d]);
    assert [first, second][..1] == [first] && [first][..0] == [];
    RouteOccurrencesAt("dense", [c], 1.0, 60, 1);
    RouteOccurrencesAt("bm25", [d], 1.0, 60, 1);
    assert Occurrences([first], map[], 60) == [] + RouteOccurrences("dense", [c], 1.0, 60, 1);
  }

  lemma BothHaveKey(o: Occurrence, p: Occurrence)
    requires o.key == p.key
    ensures WithKey([o, p], o.key) == [o, p]
    ensures GainSum([o]) == o.gain
  {
    assert [o, p][..1] == [o] && [o][..0] == [];
    assert WithKey([o], o.key) == [o];
  }

  /** A candidate that comes with a fused score breaks the sum: the merge takes the larger of the two scores. */
  lemma ScoredInputBreaksSum(c: Candidate, d: Candidate)
    requires c.id == d.id != "" && d.fused > 1.0
    ensures var os := Occurrences([("dense", [c]), ("bm25", [d])], map[], 60);
            && c.id in TableOf(os) && !GuardsHold(WithKey(os, c.id))
            && TableOf(os)[c.id].fused > GainSum(WithKey(os, c.id))
  {
    var o, p := OccurrenceAt("dense", c, 1.0, 60, 1), OccurrenceAt("bm25", d, 1.0, 60, 1);
    TwoRoutes(c, d);
    BothHaveKey(o, p);
    assert [o, p][..1] == [o] && o.gain <= 1.0;
    assert !GuardsHold([o, p]) by {
      assert [o, p][1].cand.fused > GainSum([o, p][..1]);
    }
    TableHoldsEntries([o, p], c.id);
    TableSumsExactly([o, p], c.id);
  }
}
