/** For which configurations the e-mail delivery bus keeps its limit, sends and copies in bounds, exactly. */
module RetryLimits {
  import opened Common
  import opened EmailTaskBus

  // ---- the count of retries ----

  /** No copy, queued or being worked on, has more retries than allowed. */
  predicate WithinLimit(b: Bus) {
    && (forall i :: 0 <= i < |b.main| ==> b.main[i].retryCount <= b.maxRetries)
    && (forall i :: 0 <= i < |b.retry| ==> b.retry[i].retryCount <= b.maxRetries)
    && (forall i :: 0 <= i < |b.dlq| ==> b.dlq[i].retryCount <= b.maxRetries)
    && (b.unacked.Some? ==> b.unacked.value.retryCount <= b.maxRetries)
    && (b.phase.Holding? || b.phase.SendFailed? ==> b.phase.m.retryCount <= b.maxRetries)
  }

  ghost predicate AlwaysWithinLimit(topology: Topology, maxRetries: nat) {
    forall events: seq<Event> :: WithinLimit(Run(Fresh(topology, maxRetries), events))
  }

  /** Dead letters are delivered again, under the key that makes a delivery count as a retry. */
  predicate RecountsDeadLetters(t: Topology) {
    t.dlqKey == t.retryKey && ToDelivery(t, t.dlx, t.dlqKey)
  }

  /** Dead letters are not counted as retries; and retries have a key of their own, or the limit is odd. */
  predicate KeepsLimit(t: Topology, maxRetries: nat) {
    (t.retryKey != t.verifyKey || maxRetries % 2 == 1) && !RecountsDeadLetters(t)
  }

  /** The condition in terms of the configured names. */
  lemma KeepsLimitByNames(t: Topology, maxRetries: nat)
    ensures KeepsLimit(t, maxRetries) <==>
      && (t.retryKey != t.verifyKey || maxRetries % 2 == 1)
      && !(t.dlqKey == t.retryKey && (t.queue == t.dlqQueue || (t.dlx == t.direct && t.dlqKey == t.verifyKey)))
  {
  }

  /** The count that a delivery has once it is consumed. */
  function ConsumedCount(b: Bus, m: Message): int {
    if m.key == b.topology.retryKey then m.retryCount + 1 else m.retryCount
  }

  /** With one key for deliveries and retries every consumed count is odd: a retry then counts twice. */
  predicate HeldCount(b: Bus, count: int) {
    count <= b.maxRetries && (b.topology.retryKey == b.topology.verifyKey ==> count % 2 == 1)
  }

  predicate Deliverable(b: Bus, m: Message) {
    HeldCount(b, ConsumedCount(b, m))
  }

  /** A message of the retry queue comes back under the delivery key. */
  predicate Returnable(b: Bus, m: Message) {
    Deliverable(b, m.(key := b.topology.verifyKey))
  }

  predicate Counted(b: Bus) {
    && (forall i :: 0 <= i < |b.main| ==> Deliverable(b, b.main[i]))
    && (forall i :: 0 <= i < |b.retry| ==> Returnable(b, b.retry[i]))
    && (forall i :: 0 <= i < |b.dlq| ==> b.dlq[i].retryCount <= b.maxRetries)
    && (b.unacked.Some? ==> Deliverable(b, b.unacked.value))
    && (b.phase.Holding? || b.phase.SendFailed? ==> HeldCount(b, b.phase.m.retryCount))
  }

  /** What routing must be given to keep the counts. */
  predicate Countable(b: Bus, exchange: string, m: Message) {
    && m.retryCount <= b.maxRetries
    && (ToDelivery(b.topology, exchange, m.key) ==> Deliverable(b, m))
    && (ToRetry(b.topology, exchange, m.key) ==> Returnable(b, m))
  }

  lemma RouteCounted(b: Bus, exchange: string, m: Message)
    requires Counted(b) && Countable(b, exchange, m)
    ensures Counted(Route(b, exchange, m))
  {
  }

  lemma RequeueCounted(b: Bus)
    requires Counted(b)
    ensures Counted(Requeue(b)) && Counted(Close(b))
  {
  }

  lemma PublishCounted(b: Bus, exchange: string, m: Message, o: Outcome)
    requires Counted(b) && Countable(b, exchange, m)
    ensures Counted(PublishToQueue(b, exchange, m, o).0)
  {
    RequeueCounted(b);
    var c := if b.connected then b else Close(b).(connected := true);
    RouteCounted(c, exchange, m);
    RequeueCounted(c);
  }

  lemma DeadLetterCounted(b: Bus)
    requires Counted(b) && KeepsLimit(b.topology, b.maxRetries)
    ensures Counted(DeadLetter(b))
  {
    if b.retry != [] {
      RouteCounted(b.(retry := b.retry[1..]), b.topology.direct, b.retry[0].(key := b.topology.verifyKey));
    }
  }

  lemma ConsumeCounted(b: Bus)
    requires Counted(b) && KeepsLimit(b.topology, b.maxRetries)
    ensures Counted(ConsumeOnce(b))
  {
  }

  lemma ReroutedIsCountable(b: Bus, m: Message)
    requires HeldCount(b, m.retryCount) && KeepsLimit(b.topology, b.maxRetries)
    ensures Countable(b, Rerouted(b, m).0, Rerouted(b, m).1)
  {
  }

  lemma RepublishCounted(b: Bus, o: Outcome)
    requires Counted(b) && KeepsLimit(b.topology, b.maxRetries)
    ensures Counted(Republish(b, o))
  {
    if b.phase.SendFailed? {
      ReroutedIsCountable(b, b.phase.m);
      PublishCounted(b, Rerouted(b, b.phase.m).0, Rerouted(b, b.phase.m).1, o);
    }
  }

  lemma StepCounted(b: Bus, e: Event)
    requires Counted(b) && KeepsLimit(b.topology, b.maxRetries)
    ensures Counted(Next(b, e))
  {
    match e
    case Publishes(task, o) => FirstPublishCounted(b, task, o);
    case DeadLetters => DeadLetterCounted(b);
    case Consumes => ConsumeCounted(b);
    case Sends(ok) => SendCounted(b, ok);
    case Republishes(o) => RepublishCounted(b, o);
    case Acks => AckCounted(b);
    case LinkDrops => RequeueCounted(b);
    case Crashes => RequeueCounted(b);
  }

  lemma FirstPublishCounted(b: Bus, task: Task, o: Outcome)
    requires Counted(b) && KeepsLimit(b.topology, b.maxRetries)
    ensures Counted(PublishVerifyDeliveryTask(b, task, o))
  {
    PublishCounted(b, b.topology.direct, Message(task, 0, b.topology.verifyKey), o);
  }

  lemma SendCounted(b: Bus, ok: bool)
    requires Counted(b)
    ensures Counted(Send(b, ok))
  {
  }

  lemma AckCounted(b: Bus)
    requires Counted(b)
    ensures Counted(AckLastConsumed(b))
  {
  }

  lemma StepKeepsSettings(b: Bus, e: Event)
    ensures Next(b, e).topology == b.topology && Next(b, e).maxRetries == b.maxRetries
  {
  }

  lemma {:induction false} RunCounted(b: Bus, events: seq<Event>)
    requires Counted(b) && KeepsLimit(b.topology, b.maxRetries)
    ensures Counted(Run(b, events))
    decreases |events|
  {
    if events != [] {
      StepCounted(b, events[0]);
      StepKeepsSettings(b, events[0]);
      RunCounted(Next(b, events[0]), events[1..]);
    }
  }

  // ---- runs that overrun the limit ----

  const FAILING_TURN := [Consumes, Sends(false), Republishes(Queued), Acks]

  lemma FailingTurn(b: Bus)
    ensures Run(b, FAILING_TURN) == AckLastConsumed(Republish(Send(ConsumeOnce(b), false), Queued))
  {
    RunUnfolds(b, FAILING_TURN);
    RunUnfolds(ConsumeOnce(b), FAILING_TURN[1..]);
    RunUnfolds(Send(ConsumeOnce(b), false), FAILING_TURN[2..]);
    RunUnfolds(Republish(Send(ConsumeOnce(b), false), Queued), FAILING_TURN[3..]);
  }

  lemma {:induction false} RunAppends(b: Bus, before: seq<Event>, after: seq<Event>)
    ensures Run(b, before + after) == Run(Run(b, before), after)
    decreases |before|
  {
    if before == [] {
      assert before + after == after;
    } else {
      assert (before + after)[1..] == before[1..] + after;
      RunAppends(Next(b, before[0]), before[1..], after);
    }
  }

  /** At rest, with one sample delivery in its queue. */
  predicate Waiting(b: Bus, m: Message) {
    b.connected && b.phase.Idle? && m.task == SAMPLE && b.main == [m]
  }

  /** The publication that a failed send of this delivery leads to. */
  function AfterFailure(b: Bus, m: Message): (string, Message) {
    Rerouted(b, m.(retryCount := ConsumedCount(b, m)))
  }

  /** A delivery is consumed and its send fails. */
  lemma SendFails(b: Bus)
    requires b.connected && b.phase.Idle? && b.main != [] && b.main[0].task == SAMPLE
    ensures var m := b.main[0];
            Send(ConsumeOnce(b), false) ==
            b.(main := b.main[1..], unacked := Some(m), envelope := Some(m),
               phase := SendFailed(m.(retryCount := ConsumedCount(b, m))), attempts := b.attempts + [SAMPLE])
  {
  }

  /** What follows a failed send is routed, and the delivery acknowledged. */
  lemma FailureSettles(d: Bus)
    requires d.connected && d.phase.SendFailed? && d.envelope.Some?
    ensures var (exchange, next) := Rerouted(d, d.phase.m);
            AckLastConsumed(Republish(d, Queued)) ==
            Route(d, exchange, next).(unacked := None, envelope := None, phase := Idle)
  {
  }

  /** A failed turn takes the front delivery off its queue, and routes what follows it. */
  lemma TurnRoutes(b: Bus)
    requires b.connected && b.phase.Idle? && b.main != [] && b.main[0].task == SAMPLE
    ensures var (exchange, next) := AfterFailure(b, b.main[0]);
            Run(b, FAILING_TURN) ==
            Route(b.(main := b.main[1..]), exchange, next)
              .(unacked := None, envelope := None, attempts := b.attempts + [SAMPLE])
  {
    FailingTurn(b);
    SendFails(b);
    FailureSettles(Send(ConsumeOnce(b), false));
  }

  /** Re-publications reach the delivery queue directly. */
  predicate RetriesAtOnce(t: Topology) {
    ToDelivery(t, t.direct, t.retryKey)
  }

  /** What a run to the limit must know: where retries are, and why the count will pass the limit. */
  predicate OnItsWay(b: Bus, m: Message) {
    && Waiting(b, m) && !KeepsLimit(b.topology, b.maxRetries)
    && (!RetriesAtOnce(b.topology) ==> b.retry == [])
    && (|| RecountsDeadLetters(b.topology)
        || (ConsumedCount(b, m) % 2 == 1 && b.topology.retryKey == b.topology.verifyKey))
  }

  /** The delivery's consumption is counted, and passes the limit. */
  lemma ConsumptionOverruns(b: Bus, m: Message)
    requires Waiting(b, m) && ConsumedCount(b, m) > b.maxRetries
    ensures !WithinLimit(Run(b, [Consumes]))
  {
    RunUnfolds(b, [Consumes]);
    assert [Consumes][1..] == [];
  }

  /** A failed turn below the limit: the retry is waiting again, if need be by way of the retry queue. */
  lemma RetryWaits(b: Bus, m: Message) returns (events: seq<Event>, next: Message)
    requires OnItsWay(b, m) && ConsumedCount(b, m) < b.maxRetries
    ensures OnItsWay(Run(b, events), next)
    ensures Run(b, events).maxRetries == b.maxRetries && Run(b, events).topology == b.topology
    ensures ConsumedCount(b, m) < ConsumedCount(b, next)
  {
    var t := b.topology;
    next := AfterFailure(b, m).1;
    events := FAILING_TURN;
    TurnRoutes(b);
    if !RetriesAtOnce(t) {
      var c := Run(b, FAILING_TURN);
      assert c.retry == [next] && c.main == [];
      events := FAILING_TURN + [DeadLetters];
      RunAppends(b, FAILING_TURN, [DeadLetters]);
      RunUnfolds(c, [DeadLetters]);
      assert [DeadLetters][1..] == [] && c.retry[1..] == [];
      next := next.(key := t.verifyKey);
    }
  }

  /** A failed turn at the limit: the dead letter waits, and will be counted. */
  lemma DeadLetterWaits(b: Bus, m: Message) returns (next: Message)
    requires OnItsWay(b, m) && ConsumedCount(b, m) == b.maxRetries
    ensures Waiting(Run(b, FAILING_TURN), next)
    ensures Run(b, FAILING_TURN).maxRetries == b.maxRetries && Run(b, FAILING_TURN).topology == b.topology
    ensures ConsumedCount(b, next) == b.maxRetries + 1
  {
    next := AfterFailure(b, m).1;
    TurnRoutes(b);
  }

  lemma {:induction false} Overruns(b: Bus, m: Message) returns (events: seq<Event>)
    requires OnItsWay(b, m)
    ensures !WithinLimit(Run(b, events))
    decreases if ConsumedCount(b, m) > b.maxRetries then 0 else b.maxRetries - ConsumedCount(b, m) + 1
  {
    if ConsumedCount(b, m) > b.maxRetries {
      events := [Consumes];
      ConsumptionOverruns(b, m);
    } else if ConsumedCount(b, m) == b.maxRetries {
      var next := DeadLetterWaits(b, m);
      events := FAILING_TURN + [Consumes];
      ConsumptionOverruns(Run(b, FAILING_TURN), next);
      RunAppends(b, FAILING_TURN, [Consumes]);
    } else {
      var turn, next := RetryWaits(b, m);
      var later := Overruns(Run(b, turn), next);
      events := turn + later;
      RunAppends(b, turn, later);
    }
  }

  lemma FirstPublication(topology: Topology, maxRetries: nat)
    ensures var b := Run(Fresh(topology, maxRetries), [Publishes(SAMPLE, Queued)]);
            var m := Message(SAMPLE, 0, topology.verifyKey);
            && Waiting(b, m) && b.topology == topology && b.maxRetries == maxRetries
            && b.retry == (if topology.retryKey == topology.verifyKey then [m] else [])
            && b.published == [SAMPLE] && b.attempts == []
  {
    RunUnfolds(Fresh(topology, maxRetries), [Publishes(SAMPLE, Queued)]);
    assert [Publishes(SAMPLE, Queued)][1..] == [];
  }

  /** For every other configuration and limit, some run overruns the limit. */
  lemma OverrunningRun(topology: Topology, maxRetries: nat) returns (events: seq<Event>)
    requires !KeepsLimit(topology, maxRetries)
    ensures !WithinLimit(Run(Fresh(topology, maxRetries), events))
  {
    var first := [Publishes(SAMPLE, Queued)];
    FirstPublication(topology, maxRetries);
    var later := Overruns(Run(Fresh(topology, maxRetries), first), Message(SAMPLE, 0, topology.verifyKey));
    events := first + later;
    RunAppends(Fresh(topology, maxRetries), first, later);
  }

  /** No run overruns the limit if and only if the configuration keeps it. */
  lemma LimitIsKept(topology: Topology, maxRetries: nat)
    ensures AlwaysWithinLimit(topology, maxRetries) <==> KeepsLimit(topology, maxRetries)
  {
    if KeepsLimit(topology, maxRetries) {
      forall events: seq<Event> ensures WithinLimit(Run(Fresh(topology, maxRetries), events)) {
        RunCounted(Fresh(topology, maxRetries), events);
      }
    } else {
      var events := OverrunningRun(topology, maxRetries);
      assert !WithinLimit(Run(Fresh(topology, maxRetries), events));
    }
  }

  // ---- the number of sends ----

  predicate AllCalm(events: seq<Event>) {
    forall i :: 0 <= i < |events| ==> Calm(events[i])
  }

  /** In every calm run every task is sent at most max_retries + 1 times per publication. */
  ghost predicate AlwaysFewSends(topology: Topology, maxRetries: nat) {
    forall events: seq<Event>, t: Task ::
      AllCalm(events) ==> FewSends(Run(Fresh(topology, maxRetries), events), t)
  }

  predicate FewSends(b: Bus, t: Task) {
    Times(b.attempts, t) <= (b.maxRetries + 1) * Times(b.published, t)
  }

  predicate OnlySamples(q: seq<Message>) {
    forall i :: 0 <= i < |q| ==> q[i].task == SAMPLE
  }

  /** At rest, with something left to deliver that will never run out. */
  predicate Alive(b: Bus) {
    && b.connected && b.phase.Idle? && OnlySamples(b.main) && OnlySamples(b.retry)
    && (b.main != [] || b.retry != []) && (b.topology.retryKey == b.topology.verifyKey ==> b.retry != [])
  }

  /** A failed turn with a delivery to take. */
  lemma AliveTurn(b: Bus)
    requires Alive(b) && b.main != [] && !Distinct(b.topology)
    ensures var c := Run(b, FAILING_TURN);
            && Alive(c) && c.topology == b.topology && c.maxRetries == b.maxRetries
            && c.published == b.published && c.attempts == b.attempts + [SAMPLE]
  {
    TurnRoutes(b);
  }

  lemma AliveRefill(b: Bus)
    requires Alive(b) && b.main == []
    ensures var c := DeadLetter(b);
            && Alive(c) && c.main != [] && c.topology == b.topology && c.maxRetries == b.maxRetries
            && c.published == b.published && c.attempts == b.attempts
  {
  }

  /** A calm stretch of a run with one more send and no publication. */
  lemma OneMoreSend(b: Bus) returns (events: seq<Event>)
    requires Alive(b) && !Distinct(b.topology)
    ensures AllCalm(events)
    ensures var c := Run(b, events);
            && Alive(c) && c.topology == b.topology && c.maxRetries == b.maxRetries
            && c.published == b.published && c.attempts == b.attempts + [SAMPLE]
  {
    if b.main != [] {
      events := FAILING_TURN;
      AliveTurn(b);
    } else {
      events := [DeadLetters] + FAILING_TURN;
      AliveRefill(b);
      RunUnfolds(b, [DeadLetters]);
      assert [DeadLetters][1..] == [];
      RunAppends(b, [DeadLetters], FAILING_TURN);
      AliveTurn(DeadLetter(b));
    }
  }

  lemma {:induction false} ManySends(b: Bus, n: nat) returns (events: seq<Event>)
    requires Alive(b) && !Distinct(b.topology)
    ensures AllCalm(events)
    ensures var c := Run(b, events);
            && c.maxRetries == b.maxRetries && c.published == b.published
            && Times(c.attempts, SAMPLE) == Times(b.attempts, SAMPLE) + n
    decreases n
  {
    events := [];
    if n > 0 {
      var turn := OneMoreSend(b);
      var c := Run(b, turn);
      var later := ManySends(c, n - 1);
      TimesAppend(b.attempts, SAMPLE, SAMPLE);
      RunAppends(b, turn, later);
      events := turn + later;
    }
  }

  /** For every configuration whose bindings are not distinct, a calm run that sends one publication too often. */
  lemma EndlessSends(topology: Topology, maxRetries: nat) returns (events: seq<Event>)
    requires !Distinct(topology)
    ensures AllCalm(events) && !FewSends(Run(Fresh(topology, maxRetries), events), SAMPLE)
  {
    var first := [Publishes(SAMPLE, Queued)];
    FirstPublication(topology, maxRetries);
    var b := Run(Fresh(topology, maxRetries), first);
    var later := ManySends(b, maxRetries + 2);
    events := first + later;
    RunAppends(Fresh(topology, maxRetries), first, later);
    assert Times([SAMPLE], SAMPLE) == 1;
  }

  /** Sends are bounded in every calm run if and only if there are three queues and no two bindings coincide. */
  lemma SendsAreFewExactly(topology: Topology, maxRetries: nat)
    ensures AlwaysFewSends(topology, maxRetries) <==> Distinct(topology)
  {
    if Distinct(topology) {
      forall events: seq<Event>, t: Task | AllCalm(events)
        ensures FewSends(Run(Fresh(topology, maxRetries), events), t)
      {
        SendsAreBounded(topology, maxRetries, events, t);
        RunKeepsSettings(Fresh(topology, maxRetries), events);
      }
    } else {
      var events := EndlessSends(topology, maxRetries);
      assert !FewSends(Run(Fresh(topology, maxRetries), events), SAMPLE);
    }
  }

  lemma {:induction false} RunKeepsSettings(b: Bus, events: seq<Event>)
    ensures Run(b, events).topology == b.topology && Run(b, events).maxRetries == b.maxRetries
    decreases |events|
  {
    if events != [] {
      StepKeepsSettings(b, events[0]);
      RunKeepsSettings(Next(b, events[0]), events[1..]);
    }
  }

  // ---- the number of copies ----

  /** Copies, held deliveries and successful sends of the task are as many as its publications. */
  predicate Exact(b: Bus, t: Task) {
    Stock(b, t) + Held(b, t) + Times(b.sent, t) == Times(b.published, t)
  }

  /** This is so in every calm run in which no re-publication loses the task. */
  ghost predicate AlwaysExact(topology: Topology, maxRetries: nat) {
    forall events: seq<Event>, t: Task ::
      AllCalm(events) && HasRequiredFields(t) && NeverLoses(Fresh(topology, maxRetries), events, t) ==>
        Exact(Run(Fresh(topology, maxRetries), events), t)
  }

  /** A publication that reaches two queues. */
  lemma PublishedTwice(topology: Topology, maxRetries: nat)
    requires Fanout(topology, topology.direct, topology.verifyKey) > 1
    ensures !Exact(Run(Fresh(topology, maxRetries), [Publishes(SAMPLE, Queued)]), SAMPLE)
  {
    var b, m := Fresh(topology, maxRetries), Message(SAMPLE, 0, topology.verifyKey);
    RunUnfolds(b, [Publishes(SAMPLE, Queued)]);
    assert [Publishes(SAMPLE, Queued)][1..] == [];
    RouteStocks(b, topology.direct, m, SAMPLE);
    TimesAppend([], SAMPLE, SAMPLE);
    var c := Route(b, topology.direct, m).(published := [] + [SAMPLE]);
    assert Stock(c, SAMPLE) == Stock(Route(b, topology.direct, m), SAMPLE);
  }

  /** Else re-publications do, retries and dead letters alike. */
  lemma ElseRepublishedTwice(b: Bus, m: Message)
    requires !SingleCopies(b.topology) && Fanout(b.topology, b.topology.direct, b.topology.verifyKey) == 1
    ensures Fanout(b.topology, Rerouted(b, m).0, Rerouted(b, m).1.key) == 2
  {
  }

  lemma RepublishedTwice(topology: Topology, maxRetries: nat)
    requires !SingleCopies(topology) && Fanout(topology, topology.direct, topology.verifyKey) == 1
    ensures !Exact(Run(Fresh(topology, maxRetries), [Publishes(SAMPLE, Queued)] + FAILING_TURN), SAMPLE)
  {
    var first, m := [Publishes(SAMPLE, Queued)], Message(SAMPLE, 0, topology.verifyKey);
    var b := Run(Fresh(topology, maxRetries), first);
    FirstPublication(topology, maxRetries);
    RunAppends(Fresh(topology, maxRetries), first, FAILING_TURN);
    TurnRoutes(b);
    var d := b.(main := b.main[1..]);
    var (exchange, next) := AfterFailure(b, m);
    ElseRepublishedTwice(b, m.(retryCount := ConsumedCount(b, m)));
    RouteStocks(d, exchange, next, SAMPLE);
    TimesAppend([], SAMPLE, SAMPLE);
    var c := Run(b, FAILING_TURN);
    assert Stock(c, SAMPLE) == Stock(Route(d, exchange, next), SAMPLE) && Stock(d, SAMPLE) >= 0;
    assert c.sent == b.sent == [];
  }

  predicate AllQueued(events: seq<Event>) {
    forall i :: 0 <= i < |events| ==> !events[i].Republishes? || events[i].o.Queued?
  }

  lemma SampleRunsAreHarmless()
    ensures var first := [Publishes(SAMPLE, Queued)];
            && AllCalm(first) && AllQueued(first)
            && AllCalm(first + FAILING_TURN) && AllQueued(first + FAILING_TURN)
  {
  }

  /** For every configuration that lets a publication reach two queues, a calm run with too many copies. */
  lemma CopiesMultiply(topology: Topology, maxRetries: nat) returns (events: seq<Event>)
    requires !SingleCopies(topology)
    ensures AllCalm(events) && NeverLoses(Fresh(topology, maxRetries), events, SAMPLE)
    ensures !Exact(Run(Fresh(topology, maxRetries), events), SAMPLE)
  {
    SampleRunsAreHarmless();
    if Fanout(topology, topology.direct, topology.verifyKey) > 1 {
      events := [Publishes(SAMPLE, Queued)];
      PublishedTwice(topology, maxRetries);
    } else {
      events := [Publishes(SAMPLE, Queued)] + FAILING_TURN;
      RepublishedTwice(topology, maxRetries);
    }
    QueuedLosesNothing(Fresh(topology, maxRetries), events, SAMPLE);
  }

  lemma {:induction false} QueuedLosesNothing(b: Bus, events: seq<Event>, t: Task)
    requires AllQueued(events)
    ensures NeverLoses(b, events, t)
    decreases |events|
  {
    if events != [] {
      QueuedLosesNothing(Next(b, events[0]), events[1..], t);
    }
  }

  /** The calm balance is exact for a configuration if and only if each of its publications reaches one queue only. */
  lemma CopiesAreExactly(topology: Topology, maxRetries: nat)
    ensures AlwaysExact(topology, maxRetries) <==> SingleCopies(topology)
  {
    if SingleCopies(topology) {
      forall events: seq<Event>, t: Task
        | AllCalm(events) && HasRequiredFields(t) && NeverLoses(Fresh(topology, maxRetries), events, t)
        ensures Exact(Run(Fresh(topology, maxRetries), events), t)
      {
        CalmRunIsExact(topology, maxRetries, events, t);
      }
    } else {
      var events := CopiesMultiply(topology, maxRetries);
      assert !Exact(Run(Fresh(topology, maxRetries), events), SAMPLE);
    }
  }
}
