/** The fallback chain of AIOrchestrator/llm/manager.py: backends in order, retries with exponential back-off. */
module LlmManager {
  import opened Common
  import Text

  /** How one call of a backend can end. */
  datatype Outcome<+R> = Answer(response: R) | Timeout | RateLimited | OtherError

  /** What a call of achat ends in. */
  datatype Reply<+R> = Success(response: R) | AllBackendsFailed(tried: seq<string>)

  /** One attempt: the position in the candidate list, and the attempt number at that position. */
  datatype Attempt = Attempt(position: nat, attempt: nat)

  /** The manager's settings: fallbacks per backend, the default backend, and the loaded backends. */
  datatype Config = Config(
    fallbacks: map<string, seq<string>>,
    defaultBackend: string,
    backends: set<string>,
    retryCount: int,
    retryDelay: nat)

  function FallbacksOf(c: Config, backend: string): seq<string> {
    if backend in c.fallbacks then c.fallbacks[backend] else []
  }

  function Candidates(c: Config, prefer: string): seq<string> {
    if prefer != "" && prefer in c.backends then [prefer] + FallbacksOf(c, prefer)
    else [c.defaultBackend] + FallbacksOf(c, c.defaultBackend)
  }

  /** A loaded preference comes first, its configured fallbacks follow in order; else the default does the same. */
  lemma CandidatesAre(c: Config, prefer: string)
    ensures var candidates := Candidates(c, prefer);
            var first := if prefer != "" && prefer in c.backends then prefer else c.defaultBackend;
            && candidates != [] && candidates[0] == first
            && (if first in c.fallbacks then candidates[1..] == c.fallbacks[first] else |candidates| == 1)
  {
  }

  /** The world: what the given attempt would end in. */
  type Oracle<!R> = Attempt -> Outcome<R>

  /** The backends: what the named one would end an attempt in. */
  type Backends<!R> = (string, Attempt) -> Outcome<R>

  function World<R>(candidates: seq<string>, llms: Backends<R>): Oracle<R> {
    (a: Attempt) => if a.position < |candidates| then llms(candidates[a.position], a) else OtherError
  }

  predicate Retryable<R>(o: Outcome<R>) {
    o.Timeout? || o.RateLimited?
  }

  predicate Loaded(c: Config, candidates: seq<string>, p: nat) {
    p < |candidates| && candidates[p] in c.backends
  }

  /**
   * The attempt would be made, if no earlier position answered: its backend is loaded, and all earlier attempts
   * there may be retried.
   */
  predicate Reachable<R>(c: Config, candidates: seq<string>, world: Oracle<R>, a: Attempt) {
    && Loaded(c, candidates, a.position)
    && a.attempt <= c.retryCount
    && forall k :: 0 <= k < a.attempt ==> Retryable(world(Attempt(a.position, k)))
  }

  predicate Answers<R>(c: Config, candidates: seq<string>, world: Oracle<R>, a: Attempt) {
    Reachable(c, candidates, world, a) && world(a).Answer?
  }

  /** The attempts that answer, spelled out. */
  lemma AnswersAre<R>(c: Config, candidates: seq<string>, world: Oracle<R>, p: nat, k: nat)
    ensures Answers(c, candidates, world, Attempt(p, k)) <==>
              && p < |candidates| && candidates[p] in c.backends && k <= c.retryCount
              && world(Attempt(p, k)).Answer?
              && forall i :: 0 <= i < k ==> world(Attempt(p, i)).Timeout? || world(Attempt(p, i)).RateLimited?
  {
  }

  predicate Before(a: Attempt, b: Attempt) {
    a.position < b.position || (a.position == b.position && a.attempt < b.attempt)
  }

  function LoadedOnes(c: Config, candidates: seq<string>): seq<string> {
    if candidates == [] then []
    else
      var last := candidates[|candidates| - 1];
      LoadedOnes(c, candidates[..|candidates| - 1]) + (if last in c.backends then [last] else [])
  }

  /** The loaded ones of a list, the first one first. */
  lemma {:induction false} LoadedOnesAre(c: Config, candidates: seq<string>)
    ensures LoadedOnes(c, []) == []
    ensures candidates != [] ==>
              LoadedOnes(c, candidates) ==
              (if candidates[0] in c.backends then [candidates[0]] else []) + LoadedOnes(c, candidates[1..])
  {
    if |candidates| > 1 {
      var front, last := candidates[..|candidates| - 1], candidates[|candidates| - 1];
      LoadedOnesAre(c, front);
      assert front[1..] == candidates[1..][..|candidates| - 2];
    }
  }

  /** Calls made so far, in order: strictly increasing, all reachable, and none left out. */
  ghost predicate CallsUpTo<R>(c: Config, candidates: seq<string>, world: Oracle<R>, calls: seq<Attempt>,
                               end: Attempt)
  {
    && (forall i, j :: 0 <= i < j < |calls| ==> Before(calls[i], calls[j]))
    && (forall a: Attempt :: a in calls <==> Reachable(c, candidates, world, a) && Before(a, end))
  }

  // ---- back-off ----

  /** The delays before the first `n` retries: each twice the one before. */
  function BackOff(delay: int, n: nat): seq<int> {
    seq(n, i requires 0 <= i < n => delay * Pow2(i))
  }

  /** There are as many delays as retries, the first is the configured one, and each is twice the one before. */
  lemma DelaysDouble(delay: int, n: nat)
    ensures |BackOff(delay, n)| == n
    ensures n > 0 ==> BackOff(delay, n)[0] == delay
    ensures forall i :: 0 <= i < n - 1 ==> BackOff(delay, n)[i + 1] == 2 * BackOff(delay, n)[i]
  {
    forall i: nat | i < n - 1 ensures BackOff(delay, n)[i + 1] == 2 * BackOff(delay, n)[i] {
      DoubleNext(delay, Pow2(i));
    }
  }

  lemma DoubleNext(delay: int, x: int)
    ensures delay * (2 * x) == 2 * (delay * x)
  {
  }

  function Sum(xs: seq<int>): int {
    if xs == [] then 0 else Sum(xs[..|xs| - 1]) + xs[|xs| - 1]
  }

  lemma {:induction false} BackOffSum(delay: int, n: nat)
    ensures Sum(BackOff(delay, n)) == delay * (Pow2(n) - 1)
  {
    if n > 0 {
      BackOffSum(delay, n - 1);
      assert BackOff(delay, n)[..n - 1] == BackOff(delay, n - 1);
      Doubles(delay, Pow2(n - 1));
    }
  }

  lemma Doubles(delay: int, x: int)
    ensures delay * (x - 1) + delay * x == delay * (2 * x - 1)
  {
  }

  lemma {:induction false} Pow2Grows(m: nat, n: nat)
    requires m <= n
    ensures Pow2(m) <= Pow2(n)
  {
    if m < n {
      Pow2Grows(m, n - 1);
    }
  }

  lemma BackOffIsBounded(delay: nat, n: nat, retries: nat)
    requires n <= retries
    ensures Sum(BackOff(delay, n)) <= delay * (Pow2(retries) - 1)
  {
    BackOffSum(delay, n);
    Pow2Grows(n, retries);
    Scales(delay, Pow2(n) - 1, Pow2(retries) - 1);
  }

  lemma Scales(delay: nat, x: int, y: int)
    requires x <= y
    ensures delay * x <= delay * y
  {
  }

  // ---- achat ----

  /** The attempts made at a position from number `k` on: up to the first that may not be retried. */
  function AttemptsFrom<R>(c: Config, world: Oracle<R>, p: nat, k: nat): nat
    decreases c.retryCount + 1 - k
  {
    if k > c.retryCount then 0
    else 1 + (if Retryable(world(Attempt(p, k))) then AttemptsFrom(c, world, p, k + 1) else 0)
  }

  /** The delays slept at a position: one between any two attempts, and none after the last. */
  function SleepsAt<R>(c: Config, world: Oracle<R>, p: nat): seq<int> {
    var attempts := AttemptsFrom(c, world, p, 0);
    BackOff(c.retryDelay, if attempts == 0 then 0 else attempts - 1)
  }

  /** The delays slept at the loaded positions before `p`, one list for each. */
  function SleepsUpTo<R>(c: Config, candidates: seq<string>, world: Oracle<R>, p: nat): seq<seq<int>>
    requires p <= |candidates|
  {
    if p == 0 then []
    else
      SleepsUpTo(c, candidates, world, p - 1) +
      (if candidates[p - 1] in c.backends then [SleepsAt(c, world, p - 1)] else [])
  }

  lemma {:induction false} AttemptsAreFew<R>(c: Config, world: Oracle<R>, p: nat, k: nat)
    ensures AttemptsFrom(c, world, p, k) == 0 || k + AttemptsFrom(c, world, p, k) <= c.retryCount + 1
    decreases c.retryCount + 1 - k
  {
    if k <= c.retryCount {
      AttemptsAreFew(c, world, p, k + 1);
    }
  }

  /** A position sleeps at most delay * (2^retry_count - 1) in all. */
  lemma SleepIsBounded<R>(c: Config, world: Oracle<R>, p: nat)
    ensures Sum(SleepsAt(c, world, p)) <= c.retryDelay * (Pow2(if c.retryCount > 0 then c.retryCount else 0) - 1)
  {
    var attempts := AttemptsFrom(c, world, p, 0);
    AttemptsAreFew(c, world, p, 0);
    BackOffIsBounded(c.retryDelay, if attempts == 0 then 0 else attempts - 1,
                     if c.retryCount > 0 then c.retryCount else 0);
  }

  /** There is one list of delays for every candidate that was tried. */
  lemma {:induction false} SleepsPerTried<R>(c: Config, candidates: seq<string>, world: Oracle<R>, p: nat)
    requires p <= |candidates|
    ensures |SleepsUpTo(c, candidates, world, p)| == |LoadedOnes(c, candidates[..p])|
  {
    if p > 0 {
      SleepsPerTried(c, candidates, world, p - 1);
      assert candidates[..p][..p - 1] == candidates[..p - 1];
    }
  }

  /** The list of delays for a candidate stands where the candidate stands among those tried. */
  lemma {:induction false} SleepsStand<R>(c: Config, candidates: seq<string>, world: Oracle<R>, p: nat, q: nat)
    requires q < p <= |candidates| && candidates[q] in c.backends
    ensures var at := |LoadedOnes(c, candidates[..q])|;
            at < |SleepsUpTo(c, candidates, world, p)| &&
            SleepsUpTo(c, candidates, world, p)[at] == SleepsAt(c, world, q)
  {
    SleepsPerTried(c, candidates, world, p - 1);
    if q < p - 1 {
      SleepsStand(c, candidates, world, p - 1, q);
    }
  }

  /** What happened at one loaded candidate. */
  ghost predicate CandidateDone<R>(c: Config, candidates: seq<string>, world: Oracle<R>, p: nat,
                                   answer: Option<R>, attempts: nat, sleeps: seq<int>) {
    && attempts == AttemptsFrom(c, world, p, 0) && sleeps == SleepsAt(c, world, p)
    && (forall k :: 0 <= k < attempts ==> Reachable(c, candidates, world, Attempt(p, k)))
    && (forall k :: 0 <= k < attempts - 1 ==> !world(Attempt(p, k)).Answer?)
    && (answer.Some? ==> attempts > 0 && world(Attempt(p, attempts - 1)) == Answer(answer.value))
    && (answer.None? ==> forall k: nat :: Reachable(c, candidates, world, Attempt(p, k)) ==>
          k < attempts && !world(Attempt(p, k)).Answer?)
  }

  /** Tries one loaded candidate: the answer if there is one, the attempts made, and the delays slept. */
  method TryCandidate<R>(c: Config, candidates: seq<string>, world: Oracle<R>, p: nat)
    returns (answer: Option<R>, attempts: nat, sleeps: seq<int>)
    requires Loaded(c, candidates, p)
    ensures CandidateDone(c, candidates, world, p, answer, attempts, sleeps)
    ensures attempts <= (if c.retryCount >= 0 then c.retryCount + 1 else 0)
    ensures attempts > 0 ==> sleeps == BackOff(c.retryDelay, attempts - 1)
    ensures attempts == 0 <==> c.retryCount < 0
    ensures forall k :: 0 <= k < attempts - 1 ==> world(Attempt(p, k)).Timeout? || world(Attempt(p, k)).RateLimited?
    ensures answer.Some? ==> attempts > 0 && world(Attempt(p, attempts - 1)) == Answer(answer.value)
    ensures answer.None? && attempts > 0 ==>
              match world(Attempt(p, attempts - 1))
              case Answer(_) => false
              case OtherError => true
              case _ => attempts == c.retryCount + 1
  {
    sleeps := [];
    attempts := 0;
    while attempts < c.retryCount + 1
      invariant attempts <= (if c.retryCount >= 0 then c.retryCount + 1 else 0)
      invariant forall k :: 0 <= k < attempts ==> Retryable(world(Attempt(p, k)))
      invariant AttemptsFrom(c, world, p, 0) == attempts + AttemptsFrom(c, world, p, attempts)
      invariant sleeps == BackOff(c.retryDelay, if attempts <= c.retryCount then attempts
                                                else if c.retryCount >= 0 then c.retryCount else 0)
    {
      var outcome := world(Attempt(p, attempts));
      match outcome
      case Answer(response) =>
        attempts := attempts + 1;
        return Some(response), attempts, sleeps;
      case OtherError =>
        attempts := attempts + 1;
        return None, attempts, sleeps;
      case _ =>
        if attempts < c.retryCount {
          sleeps := sleeps + [c.retryDelay * Pow2(attempts)];
        }
        attempts := attempts + 1;
    }
    return None, attempts, sleeps;
  }

  /** The attempts at one position, in order. */
  function Row(p: nat, n: nat): seq<Attempt> {
    seq(n, k requires 0 <= k < n => Attempt(p, k))
  }

  lemma RowAppends<R>(c: Config, candidates: seq<string>, world: Oracle<R>, calls: seq<Attempt>, p: nat, n: nat)
    requires CallsUpTo(c, candidates, world, calls, Attempt(p, 0))
    requires forall k :: 0 <= k < n ==> Reachable(c, candidates, world, Attempt(p, k))
    ensures CallsUpTo(c, candidates, world, calls + Row(p, n), Attempt(p, n))
  {
    var all := calls + Row(p, n);
    forall i, j | 0 <= i < j < |all| ensures Before(all[i], all[j]) {
      if i < |calls| {
        assert all[i] in calls;
      }
    }
    forall a: Attempt ensures a in all <==> Reachable(c, candidates, world, a) && Before(a, Attempt(p, n)) {
      if a.position == p && a.attempt < n {
        assert a == Row(p, n)[a.attempt];
      }
    }
  }

  lemma PositionEnds<R>(c: Config, candidates: seq<string>, world: Oracle<R>, calls: seq<Attempt>, p: nat, n: nat)
    requires CallsUpTo(c, candidates, world, calls, Attempt(p, n))
    requires forall k: nat :: Reachable(c, candidates, world, Attempt(p, k)) ==> k < n
    ensures CallsUpTo(c, candidates, world, calls, Attempt(p + 1, 0))
  {
    forall a: Attempt ensures a in calls <==> Reachable(c, candidates, world, a) && Before(a, Attempt(p + 1, 0)) {
      if a.position == p {
        assert a == Attempt(p, a.attempt);
      }
    }
  }

  /** All candidates before position `p` have been gone through without an answer. */
  ghost predicate Through<R>(c: Config, candidates: seq<string>, world: Oracle<R>, p: nat,
                             tried: seq<string>, calls: seq<Attempt>, sleeps: seq<seq<int>>) {
    && p <= |candidates|
    && tried == LoadedOnes(c, candidates[..p])
    && (forall a: Attempt :: a.position < p ==> !Answers(c, candidates, world, a))
    && CallsUpTo(c, candidates, world, calls, Attempt(p, 0))
    && sleeps == SleepsUpTo(c, candidates, world, p)
  }

  lemma CandidateIsSkipped<R>(c: Config, candidates: seq<string>, world: Oracle<R>, p: nat,
                              tried: seq<string>, calls: seq<Attempt>, sleeps: seq<seq<int>>)
    requires Through(c, candidates, world, p, tried, calls, sleeps)
    requires p < |candidates| && candidates[p] !in c.backends
    ensures Through(c, candidates, world, p + 1, tried, calls, sleeps)
  {
    assert candidates[..p + 1][..p] == candidates[..p];
    PositionEnds(c, candidates, world, calls, p, 0);
  }

  lemma CandidateFails<R>(c: Config, candidates: seq<string>, world: Oracle<R>, p: nat,
                          tried: seq<string>, calls: seq<Attempt>, sleeps: seq<seq<int>>,
                          attempts: nat, slept: seq<int>)
    requires Through(c, candidates, world, p, tried, calls, sleeps) && Loaded(c, candidates, p)
    requires CandidateDone(c, candidates, world, p, None, attempts, slept)
    ensures Through(c, candidates, world, p + 1, tried + [candidates[p]], calls + Row(p, attempts), sleeps + [slept])
  {
    assert candidates[..p + 1][..p] == candidates[..p];
    RowAppends(c, candidates, world, calls, p, attempts);
    PositionEnds(c, candidates, world, calls + Row(p, attempts), p, attempts);
    forall a: Attempt | a.position == p ensures !Answers(c, candidates, world, a) {
      assert a == Attempt(p, a.attempt);
    }
  }

  /** `answered` is the first attempt that answers, and the calls are exactly those up to it. */
  ghost predicate FirstAnswer<R>(c: Config, candidates: seq<string>, world: Oracle<R>,
                                 answered: Attempt, calls: seq<Attempt>) {
    && Answers(c, candidates, world, answered)
    && (forall a: Attempt :: Before(a, answered) ==> !Answers(c, candidates, world, a))
    && CallsUpTo(c, candidates, world, calls, Attempt(answered.position, answered.attempt + 1))
  }

  lemma CandidateAnswers<R>(c: Config, candidates: seq<string>, world: Oracle<R>, p: nat,
                            tried: seq<string>, calls: seq<Attempt>, sleeps: seq<seq<int>>,
                            answer: R, attempts: nat, slept: seq<int>)
    requires Through(c, candidates, world, p, tried, calls, sleeps) && Loaded(c, candidates, p)
    requires CandidateDone(c, candidates, world, p, Some(answer), attempts, slept)
    ensures FirstAnswer(c, candidates, world, Attempt(p, attempts - 1), calls + Row(p, attempts))
    ensures sleeps + [slept] == SleepsUpTo(c, candidates, world, p + 1)
  {
    RowAppends(c, candidates, world, calls, p, attempts);
    forall a: Attempt | Before(a, Attempt(p, attempts - 1)) ensures !Answers(c, candidates, world, a) {
      assert a == Attempt(a.position, a.attempt);
    }
  }

  /** When the very first attempt answers, it is the only call. */
  lemma FirstCallAnswers<R>(c: Config, candidates: seq<string>, world: Oracle<R>, answered: Attempt,
                            calls: seq<Attempt>)
    requires Answers(c, candidates, world, Attempt(0, 0)) && FirstAnswer(c, candidates, world, answered, calls)
    ensures answered == Attempt(0, 0) && calls == [Attempt(0, 0)]
  {
    assert answered == Attempt(0, 0) by {
      assert !Before(Attempt(0, 0), answered);
    }
    assert Attempt(0, 0) in calls;
    assert forall i :: 0 <= i < |calls| ==> calls[i] in calls && calls[i] == Attempt(0, 0);
    assert calls[0] == calls[|calls| - 1];
  }

  /**
   * The answer is the first one in candidate-then-attempt order, the calls are exactly the attempts up to it, with
   * their delays, and the chain fails only when no attempt would have answered.
   */
  ghost predicate ChainEnds<R>(c: Config, candidates: seq<string>, world: Oracle<R>, reply: Reply<R>,
                               answered: Attempt, calls: seq<Attempt>, sleeps: seq<seq<int>>) {
    match reply
    case Success(response) =>
      && FirstAnswer(c, candidates, world, answered, calls) && world(answered) == Answer(response)
      && answered.position < |candidates| && sleeps == SleepsUpTo(c, candidates, world, answered.position + 1)
    case AllBackendsFailed(tried) =>
      && tried == LoadedOnes(c, candidates)
      && (forall a: Attempt :: !Answers(c, candidates, world, a))
      && CallsUpTo(c, candidates, world, calls, Attempt(|candidates|, 0))
      && sleeps == SleepsUpTo(c, candidates, world, |candidates|)
  }

  /** The reply, with the calls made and the delays slept per tried candidate. */
  method Achat<R>(c: Config, prefer: string, llms: Backends<R>)
    returns (reply: Reply<R>, answered: Attempt, calls: seq<Attempt>, sleeps: seq<seq<int>>)
    ensures var candidates := Candidates(c, prefer);
            && ChainEnds(c, candidates, World(candidates, llms), reply, answered, calls, sleeps)
            && (reply.Success? ==>
                  answered.position < |candidates| &&
                  llms(candidates[answered.position], answered) == Answer(reply.response))
    ensures var first := if prefer != "" && prefer in c.backends then prefer else c.defaultBackend;
            var outcome := llms(first, Attempt(0, 0));
            first in c.backends && c.retryCount >= 0 && outcome.Answer? ==>
              reply == Success(outcome.response) && calls == [Attempt(0, 0)]
  {
    var candidates := Candidates(c, prefer);
    var world := World(candidates, llms);
    reply, answered, calls, sleeps := ChatAll(c, candidates, world);
    if Answers(c, candidates, world, Attempt(0, 0)) {
      FirstCallAnswers(c, candidates, world, answered, calls);
    }
  }

  /** The loops of achat. */
  method ChatAll<R>(c: Config, candidates: seq<string>, world: Oracle<R>)
    returns (reply: Reply<R>, answered: Attempt, calls: seq<Attempt>, sleeps: seq<seq<int>>)
    ensures ChainEnds(c, candidates, world, reply, answered, calls, sleeps)
  {
    var tried := [];
    calls, sleeps := [], [];
    for p := 0 to |candidates|
      invariant Through(c, candidates, world, p, tried, calls, sleeps)
    {
      if candidates[p] !in c.backends {
        CandidateIsSkipped(c, candidates, world, p, tried, calls, sleeps);
        continue;
      }
      var answer, attempts, slept := TryCandidate(c, candidates, world, p);
      if answer.Some? {
        CandidateAnswers(c, candidates, world, p, tried, calls, sleeps, answer.value, attempts, slept);
        return Success(answer.value), Attempt(p, attempts - 1), calls + Row(p, attempts), sleeps + [slept];
      }
      CandidateFails(c, candidates, world, p, tried, calls, sleeps, attempts, slept);
      tried := tried + [candidates[p]];
      calls := calls + Row(p, attempts);
      sleeps := sleeps + [slept];
    }
    assert candidates[..|candidates|] == candidates;
    return AllBackendsFailed(tried), Attempt(0, 0), calls, sleeps;
  }

  // ---- astream ----

  /** What a candidate's stream yields, and how it ends. */
  datatype Stream<+T> = Stream(chunks: seq<T>, complete: bool)

  type StreamOracle<!T> = nat -> Stream<T>

  type StreamBackends<!T> = (string, nat) -> Stream<T>

  function StreamWorld<T>(candidates: seq<string>, llms: StreamBackends<T>): StreamOracle<T> {
    (p: nat) => if p < |candidates| then llms(candidates[p], p) else Stream([], false)
  }

  /** The chunks that the loaded candidates before position `p` yield, in order. */
  function Yielded<T>(c: Config, candidates: seq<string>, world: StreamOracle<T>, p: nat): seq<T>
    requires p <= |candidates|
  {
    if p == 0 then []
    else Yielded(c, candidates, world, p - 1) + (if candidates[p - 1] in c.backends then world(p - 1).chunks else [])
  }

  /** Put together: what each loaded candidate yields, in order. */
  lemma {:induction false} YieldedIsConcat<T>(c: Config, candidates: seq<string>, world: StreamOracle<T>, p: nat,
                                              pieces: seq<seq<T>>)
    requires p == |pieces| <= |candidates|
    requires forall i :: 0 <= i < p ==>
               pieces[i] == if candidates[i] in c.backends then world(i).chunks else []
    ensures Yielded(c, candidates, world, p) == Text.Concat(pieces)
  {
    if p > 0 {
      YieldedIsConcat(c, candidates, world, p - 1, pieces[..p - 1]);
      Text.ConcatLast(pieces[..p - 1], pieces[p - 1]);
      assert pieces == pieces[..p - 1] + [pieces[p - 1]];
    }
  }

  /** A stream is complete where a loaded candidate's is. */
  lemma CompletesAt<T>(c: Config, candidates: seq<string>, world: StreamOracle<T>, p: nat)
    ensures Completes(c, candidates, world, p) <==>
              p < |candidates| && candidates[p] in c.backends && world(p).complete
  {
  }

  predicate Completes<T>(c: Config, candidates: seq<string>, world: StreamOracle<T>, p: nat) {
    Loaded(c, candidates, p) && world(p).complete
  }

  lemma {:induction false} AtMostAllLoaded(c: Config, candidates: seq<string>)
    ensures |LoadedOnes(c, candidates)| <= |candidates|
  {
    if candidates != [] {
      AtMostAllLoaded(c, candidates[..|candidates| - 1]);
    }
  }

  /** The output is that of the candidates up to the first complete stream, or of all when there is none. */
  predicate StreamEnds<T(==)>(c: Config, candidates: seq<string>, world: StreamOracle<T>,
                              output: seq<T>, failed: bool, winner: nat, tried: seq<string>) {
    && winner <= |candidates|
    && (forall q :: 0 <= q < winner ==> !Completes(c, candidates, world, q))
    && (if failed then
          winner == |candidates| && output == Yielded(c, candidates, world, winner) &&
          tried == LoadedOnes(c, candidates)
        else
          Completes(c, candidates, world, winner) && output == Yielded(c, candidates, world, winner + 1))
  }

  lemma FirstStreamCompletes<T>(c: Config, candidates: seq<string>, world: StreamOracle<T>,
                                output: seq<T>, failed: bool, winner: nat, tried: seq<string>)
    requires StreamEnds(c, candidates, world, output, failed, winner, tried)
    requires candidates != [] && candidates[0] in c.backends && world(0).complete
    ensures !failed && winner == 0 && output == world(0).chunks
  {
    assert Completes(c, candidates, world, 0);
    assert Yielded(c, candidates, world, 1) == [] + world(0).chunks;
  }

  /**
   * What a caller of astream sees: the partial output of the candidates that failed, followed by the
   * first complete stream; `winner` is its position, or the number of candidates when all fail.
   */
  method Astream<T(==)>(c: Config, prefer: string, llms: StreamBackends<T>)
    returns (output: seq<T>, failed: bool, winner: nat, tried: seq<string>)
    ensures var candidates := Candidates(c, prefer);
            StreamEnds(c, candidates, StreamWorld(candidates, llms), output, failed, winner, tried)
    ensures var first := if prefer != "" && prefer in c.backends then prefer else c.defaultBackend;
            first in c.backends && llms(first, 0).complete ==>
              !failed && winner == 0 && output == llms(first, 0).chunks
  {
    var candidates := Candidates(c, prefer);
    var world := StreamWorld(candidates, llms);
    output, failed, winner, tried := StreamAll(c, candidates, world);
    if candidates[0] in c.backends && world(0).complete {
      FirstStreamCompletes(c, candidates, world, output, failed, winner, tried);
    }
  }

  /** The loop of astream. */
  method StreamAll<T(==)>(c: Config, candidates: seq<string>, world: StreamOracle<T>)
    returns (output: seq<T>, failed: bool, winner: nat, tried: seq<string>)
    ensures StreamEnds(c, candidates, world, output, failed, winner, tried)
  {
    output, tried := [], [];
    for p := 0 to |candidates|
      invariant output == Yielded(c, candidates, world, p)
      invariant tried == LoadedOnes(c, candidates[..p])
      invariant forall q :: 0 <= q < p ==> !Completes(c, candidates, world, q)
    {
      assert candidates[..p + 1][..p] == candidates[..p];
      if candidates[p] !in c.backends {
        continue;
      }
      AtMostAllLoaded(c, candidates[..p]);
      tried := tried + [candidates[p]];
      output := output + world(p).chunks;
      if world(p).complete {
        return output, false, p, tried;
      }
      if |tried| == |candidates| {
        break;
      }
    }
    assert candidates[..|candidates|] == candidates;
    return output, true, |candidates|, tried;
  }
}
