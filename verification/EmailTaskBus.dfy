/** The e-mail delivery bus of VarifyServer/EmailTaskBus.cpp: broker queues, one worker, retries and redelivery. */
module EmailTaskBus {
  import opened Common

  datatype Task = Task(email: string, code: string, traceId: string)

  /** A queued body with the routing key it arrived under. */
  datatype Message = Message(task: Task, retryCount: int, key: string)

  /**
   * The configured exchanges, routing keys and queues, as EnsureTopology binds them. The retry queue is declared with
   * other arguments than the delivery and the dead-letter queue, so a broker refuses a configuration that gives it the
   * name of one of them; those two may share a name, and are one queue then.
   */
  datatype Topology = Topology(
    direct: string,
    dlx: string,
    verifyKey: string,
    retryKey: string,
    dlqKey: string,
    queue: string,
    dlqQueue: string)

  const DEFAULTS := Topology("memochat.direct", "memochat.dlx", "verify.email.delivery",
                             "verify.email.delivery.retry", "verify.email.delivery.dlq",
                             "verify.email.delivery.q", "verify.email.delivery.dlq.q")

  /** The binding of the delivery queue, and that of the dead-letter queue when it is the same one. */
  predicate ToDelivery(t: Topology, exchange: string, key: string) {
    || (exchange == t.direct && key == t.verifyKey)
    || (t.queue == t.dlqQueue && exchange == t.dlx && key == t.dlqKey)
  }

  predicate ToRetry(t: Topology, exchange: string, key: string) {
    exchange == t.direct && key == t.retryKey
  }

  predicate ToDlq(t: Topology, exchange: string, key: string) {
    t.queue != t.dlqQueue && exchange == t.dlx && key == t.dlqKey
  }

  /** There are three queues, and no two bindings coincide. The built-in defaults satisfy this. */
  predicate Distinct(t: Topology) {
    && t.retryKey != t.verifyKey && t.queue != t.dlqQueue
    && (t.dlx == t.direct ==> t.dlqKey != t.verifyKey && t.dlqKey != t.retryKey)
  }

  /** How amqp_basic_publish can end. */
  datatype Outcome =
    | Queued         // status OK
    | OnlyClaimed    // unexpected state, yet the reply is normal: reported as success
    | BrokenClosed   // unexpected state and an error reply: the connection is closed
    | FailedOpen     // any other status: the connection stays
    | NoConnection   // there was none, and connecting failed

  /** Where the worker loop is between two broker operations. */
  datatype Phase = Idle | Holding(m: Message) | SendFailed(m: Message) | Settling

  /**
   * The three queues, the delivery the broker waits to see acknowledged, the client's connection and
   * envelope, and the worker. The last four fields are history: tasks queued by a first publish,
   * send attempts, successful sends, and tasks whose only copy was acknowledged away.
   */
  datatype Bus = Bus(
    topology: Topology,
    maxRetries: nat,
    main: seq<Message>,
    retry: seq<Message>,
    dlq: seq<Message>,
    unacked: Option<Message>,
    connected: bool,
    envelope: Option<Message>,
    phase: Phase,
    published: seq<Task>,
    attempts: seq<Task>,
    sent: seq<Task>,
    lost: seq<Task>)

  function Fresh(topology: Topology, maxRetries: nat): Bus {
    Bus(topology, maxRetries, [], [], [], None, true, None, Idle, [], [], [], [])
  }

  predicate ShouldRetryTask(retryCount: int, maxRetries: int) {
    retryCount < maxRetries
  }

  function NextRetryCount(retryCount: int): int {
    retryCount + 1
  }

  predicate HasRequiredFields(t: Task) {
    t.email != "" && t.code != ""
  }

  // ---- the broker ----

  /** A direct exchange copies the message once to every queue bound with its key. */
  function Route(b: Bus, exchange: string, m: Message): Bus {
    b.(main := if ToDelivery(b.topology, exchange, m.key) then b.main + [m] else b.main,
       retry := if ToRetry(b.topology, exchange, m.key) then b.retry + [m] else b.retry,
       dlq := if ToDlq(b.topology, exchange, m.key) then b.dlq + [m] else b.dlq)
  }

  /** The delivery goes back to the front of its queue when the broker sees the connection end. */
  function Requeue(b: Bus): Bus {
    match b.unacked
    case None => b
    case Some(m) => b.(main := [m] + b.main, unacked := None)
  }

  /** The retry queue's message times out and is dead-lettered back under the delivery key. */
  function DeadLetter(b: Bus): Bus {
    if b.retry == [] then b
    else Route(b.(retry := b.retry[1..]), b.topology.direct, b.retry[0].(key := b.topology.verifyKey))
  }

  // ---- the client ----

  function Close(b: Bus): Bus {
    Requeue(b).(connected := false, envelope := None)
  }

  /** The new state, and what the caller is told. */
  function PublishToQueue(b: Bus, exchange: string, m: Message, o: Outcome): (Bus, bool) {
    if !b.connected && o.NoConnection? then (Close(b), false)
    else
      var c := if b.connected then b else Close(b).(connected := true);
      match o
      case Queued => (Route(c, exchange, m), true)
      case OnlyClaimed => (c, true)
      case BrokenClosed => (Close(c), false)
      case FailedOpen => (c, false)
      case NoConnection => (c, false)
  }

  function PublishVerifyDeliveryTask(b: Bus, task: Task, o: Outcome): Bus {
    var (c, ok) := PublishToQueue(b, b.topology.direct, Message(task, 0, b.topology.verifyKey), o);
    if o.Queued? then c.(published := c.published + [task]) else c
  }

  /**
   * That the broker delivers at all is an assumption here: the source never registers a consumer on its
   * channel, so whatever makes amqp_consume_message return a delivery is outside it.
   */
  function ConsumeOnce(b: Bus): Bus {
    if !b.connected || !b.phase.Idle? || b.main == [] then b
    else
      var m, rest := b.main[0], b.(main := b.main[1..]);
      if !HasRequiredFields(m.task) then rest
      else
        var held := if m.key == b.topology.retryKey then m.(retryCount := m.retryCount + 1) else m;
        rest.(unacked := Some(m), envelope := Some(m), phase := Holding(held))
  }

  function Send(b: Bus, ok: bool): Bus {
    if !b.phase.Holding? then b
    else
      var m := b.phase.m;
      b.(phase := if ok then Settling else SendFailed(m),
         attempts := b.attempts + [m.task],
         sent := if ok then b.sent + [m.task] else b.sent)
  }

  /** The re-publication that a failed send leads to. */
  function Rerouted(b: Bus, m: Message): (string, Message) {
    if ShouldRetryTask(m.retryCount, b.maxRetries)
    then (b.topology.direct, Message(m.task, NextRetryCount(m.retryCount), b.topology.retryKey))
    else (b.topology.dlx, Message(m.task, m.retryCount, b.topology.dlqKey))
  }

  /** The delivery is still to be acknowledged, and the publish that should replace it queues nothing. */
  predicate Loses(b: Bus, o: Outcome) {
    b.phase.SendFailed? && b.unacked.Some? && !o.Queued? && !o.BrokenClosed?
  }

  /** The worker ignores what PublishToQueue returns and goes on to acknowledge. */
  function Republish(b: Bus, o: Outcome): Bus {
    if !b.phase.SendFailed? then b
    else
      var (exchange, m) := Rerouted(b, b.phase.m);
      var (c, _) := PublishToQueue(b, exchange, m, o);
      c.(phase := Settling, lost := if Loses(b, o) then c.lost + [m.task] else c.lost)
  }

  function AckLastConsumed(b: Bus): Bus {
    if !b.phase.Settling? then b
    else if b.connected && b.envelope.Some? then b.(unacked := None, envelope := None, phase := Idle)
    else b.(envelope := None, phase := Idle)
  }

  datatype Event =
    | Publishes(task: Task, o: Outcome)
    | DeadLetters
    | Consumes
    | Sends(ok: bool)
    | Republishes(o: Outcome)
    | Acks
    | LinkDrops
    | Crashes

  function Next(b: Bus, e: Event): Bus {
    match e
    case Publishes(task, o) => PublishVerifyDeliveryTask(b, task, o)
    case DeadLetters => DeadLetter(b)
    case Consumes => ConsumeOnce(b)
    case Sends(ok) => Send(b, ok)
    case Republishes(o) => Republish(b, o)
    case Acks => AckLastConsumed(b)
    case LinkDrops => Requeue(b)
    case Crashes => Requeue(b).(connected := true, envelope := None, phase := Idle)
  }

  /** A dropped link or a crash gives the delivery back; a restarted worker begins connected and idle. */
  lemma BreaksAre(b: Bus)
    ensures var drop, crash := Next(b, LinkDrops), Next(b, Crashes);
            && drop == b.(main := drop.main, unacked := None)
            && drop.main == (if b.unacked.Some? then [b.unacked.value] else []) + b.main
            && crash == b.(main := drop.main, unacked := None, connected := true, envelope := None, phase := Idle)
  {
  }

  /** A step that is not possible leaves the bus alone, so every event sequence is a run. */
  function Run(b: Bus, events: seq<Event>): Bus
    decreases |events|
  {
    if events == [] then b else Run(Next(b, events[0]), events[1..])
  }

  // ---- counting ----

  function Total(q: seq<Message>, f: Message -> int): int {
    if q == [] then 0 else f(q[0]) + Total(q[1..], f)
  }

  lemma {:induction false} TotalAppend(a: seq<Message>, m: Message, f: Message -> int)
    ensures Total(a + [m], f) == Total(a, f) + f(m)
  {
    if a == [] {
      assert [m][1..] == [] && Total([m], f) == f(m) + 0;
    } else {
      TotalAppend(a[1..], m, f);
      assert (a + [m])[1..] == a[1..] + [m];
    }
  }

  lemma TotalPrepend(m: Message, a: seq<Message>, f: Message -> int)
    ensures Total([m] + a, f) == f(m) + Total(a, f)
  {
    assert ([m] + a)[1..] == a;
  }

  function Times(log: seq<Task>, t: Task): nat {
    if log == [] then 0 else (if log[|log| - 1] == t then 1 else 0) + Times(log[..|log| - 1], t)
  }

  lemma TimesAppend(log: seq<Task>, x: Task, t: Task)
    ensures Times(log + [x], t) == Times(log, t) + (if x == t then 1 else 0)
  {
    assert (log + [x])[..|log|] == log;
  }

  /** Where routing puts a message, as far as totals can tell. */
  lemma RouteAdds(b: Bus, exchange: string, m: Message, f: Message -> int)
    ensures var t, c := b.topology, Route(b, exchange, m);
            && Total(c.main, f) == Total(b.main, f) + (if ToDelivery(t, exchange, m.key) then f(m) else 0)
            && Total(c.retry, f) == Total(b.retry, f) + (if ToRetry(t, exchange, m.key) then f(m) else 0)
            && Total(c.dlq, f) == Total(b.dlq, f) + (if ToDlq(t, exchange, m.key) then f(m) else 0)
  {
    TotalAppend(b.main, m, f);
    TotalAppend(b.retry, m, f);
    TotalAppend(b.dlq, m, f);
  }

  // ---- no task is lost, except where the code loses one ----

  function OfTask(t: Task): Message -> int {
    (m: Message) => if m.task == t then 1 else 0
  }

  function Stock(b: Bus, t: Task): int {
    Total(b.main, OfTask(t)) + Total(b.retry, OfTask(t)) + Total(b.dlq, OfTask(t))
  }

  function Unacked(b: Bus, t: Task): int {
    if b.unacked.Some? && b.unacked.value.task == t then 1 else 0
  }

  /** A delivery counts as a copy until the worker has sent or re-published it. */
  function Held(b: Bus, t: Task): int {
    if b.phase.Holding? || b.phase.SendFailed? then Unacked(b, t) else 0
  }

  /** Copies, successful sends and losses, less the publications. */
  function Balance(b: Bus, t: Task): int {
    Stock(b, t) + Held(b, t) + Times(b.sent, t) + Times(b.lost, t) - Times(b.published, t)
  }

  /** What the worker still has to acknowledge is what it works on, over a live connection. */
  predicate Linked(b: Bus) {
    b.unacked.Some? ==>
      && b.connected && b.envelope.Some?
      && match b.phase
         case Idle => false
         case Holding(m) => m.task == b.unacked.value.task
         case SendFailed(m) => m.task == b.unacked.value.task
         case Settling => true
  }

  /** Nothing but the worker takes deliveries back: no crash, no dropped link, no connection closed. */
  predicate Calm(e: Event) {
    match e
    case Publishes(_, o) => !o.BrokenClosed?
    case Republishes(o) => !o.BrokenClosed?
    case LinkDrops => false
    case Crashes => false
    case _ => true
  }

  /** In a calm run the connection never goes away, and what is held is unacknowledged. */
  predicate Attached(b: Bus) {
    && b.connected
    && (b.phase.Holding? || b.phase.SendFailed? ==> b.unacked.Some?)
  }

  lemma StepKeepsLinks(b: Bus, e: Event)
    requires Linked(b)
    ensures Linked(Next(b, e))
    ensures Next(b, e).topology == b.topology && Next(b, e).maxRetries == b.maxRetries
    ensures Calm(e) && Attached(b) ==> Attached(Next(b, e))
  {
  }

  /** The number of queues a publish reaches. */
  function Fanout(t: Topology, exchange: string, key: string): nat {
    (if ToDelivery(t, exchange, key) then 1 else 0) + (if ToRetry(t, exchange, key) then 1 else 0) +
    (if ToDlq(t, exchange, key) then 1 else 0)
  }

  /** Every kind of publication reaches one queue only. */
  predicate SingleCopies(t: Topology) {
    && Fanout(t, t.direct, t.verifyKey) == 1 && Fanout(t, t.direct, t.retryKey) == 1
    && Fanout(t, t.dlx, t.dlqKey) == 1
  }

  lemma RouteStocks(b: Bus, exchange: string, m: Message, t: Task)
    ensures Stock(Route(b, exchange, m), t) ==
            Stock(b, t) + Fanout(b.topology, exchange, m.key) * (if m.task == t then 1 else 0)
  {
    RouteAdds(b, exchange, m, OfTask(t));
  }

  lemma CloseStocks(b: Bus, t: Task)
    ensures Stock(Close(b), t) == Stock(b, t) + Unacked(b, t)
    ensures Stock(Requeue(b), t) == Stock(b, t) + Unacked(b, t)
    ensures Requeue(b).unacked == None && Close(b).unacked == None
  {
    if b.unacked.Some? {
      TotalPrepend(b.unacked.value, b.main, OfTask(t));
    }
  }

  /** A publish keeps every copy the broker has, and adds what it queues. */
  lemma PublishStocks(b: Bus, exchange: string, m: Message, o: Outcome, t: Task)
    requires Linked(b)
    ensures var c := PublishToQueue(b, exchange, m, o).0;
            && c == b.(main := c.main, retry := c.retry, dlq := c.dlq,
                       unacked := c.unacked, connected := c.connected, envelope := c.envelope)
            && c.unacked == (if o.BrokenClosed? then None else b.unacked)
            && Stock(c, t) + Unacked(c, t) == Stock(b, t) + Unacked(b, t) +
                 (if o.Queued? && m.task == t then Fanout(b.topology, exchange, m.key) else 0)
  {
    CloseStocks(b, t);
    var c := if b.connected then b else Close(b).(connected := true);
    if o.Queued? {
      RouteStocks(c, exchange, m, t);
    } else if o.BrokenClosed? {
      CloseStocks(c, t);
    }
  }

  lemma WorkerBalances(b: Bus, e: Event, t: Task)
    requires Linked(b) && HasRequiredFields(t) && (e.Consumes? || e.Sends? || e.Acks?)
    ensures Balance(Next(b, e), t) >= Balance(b, t)
    ensures Attached(b) ==> Balance(Next(b, e), t) == Balance(b, t)
  {
    match e
    case Consumes => ConsumeBalances(b, t);
    case Sends(ok) => SendBalances(b, ok, t);
    case Acks => AckBalances(b, t);
  }

  lemma ConsumeBalances(b: Bus, t: Task)
    requires Linked(b) && HasRequiredFields(t)
    ensures Balance(ConsumeOnce(b), t) == Balance(b, t)
  {
    if b.connected && b.phase.Idle? && b.main != [] {
      var rest := b.(main := b.main[1..]);
      FrontLeaves(b, t);
      if HasRequiredFields(b.main[0].task) {
        TakenIsHeld(rest, b.main[0], t);
      }
    }
  }

  lemma FrontLeaves(b: Bus, t: Task)
    requires b.main != []
    ensures var rest := b.(main := b.main[1..]);
            Balance(rest, t) + (if b.main[0].task == t then 1 else 0) == Balance(b, t)
  {
  }

  lemma TakenIsHeld(b: Bus, m: Message, t: Task)
    requires b.phase.Idle?
    ensures var count := if m.key == b.topology.retryKey then m.retryCount + 1 else m.retryCount;
            var held := b.(unacked := Some(m), envelope := Some(m), phase := Holding(m.(retryCount := count)));
            Balance(held, t) == Balance(b, t) + (if m.task == t then 1 else 0)
  {
  }

  lemma SendBalances(b: Bus, ok: bool, t: Task)
    requires Linked(b)
    ensures Balance(Send(b, ok), t) >= Balance(b, t)
    ensures Attached(b) ==> Balance(Send(b, ok), t) == Balance(b, t)
  {
    if b.phase.Holding? {
      TimesAppend(b.sent, b.phase.m.task, t);
    }
  }

  lemma AckBalances(b: Bus, t: Task)
    requires Linked(b)
    ensures Balance(AckLastConsumed(b), t) == Balance(b, t)
  {
  }

  lemma BreakBalances(b: Bus, e: Event, t: Task)
    requires Linked(b) && (e.LinkDrops? || e.Crashes?)
    ensures Balance(Next(b, e), t) >= Balance(b, t)
  {
    CloseStocks(b, t);
  }

  /** Balance never falls in any step; in a calm step that makes single copies it stays exactly the same. */
  lemma StepBalances(b: Bus, e: Event, t: Task)
    requires Linked(b) && HasRequiredFields(t)
    ensures Balance(Next(b, e), t) >= Balance(b, t)
    ensures Calm(e) && Attached(b) && SingleCopies(b.topology) ==> Balance(Next(b, e), t) == Balance(b, t)
  {
    match e
    case Publishes(task, o) => PublishBalances(b, task, o, t);
    case DeadLetters => DeadLetterBalances(b, t);
    case Republishes(o) => RepublishBalances(b, o, t);
    case LinkDrops => BreakBalances(b, e, t);
    case Crashes => BreakBalances(b, e, t);
    case _ => WorkerBalances(b, e, t);
  }

  lemma PublishBalances(b: Bus, task: Task, o: Outcome, t: Task)
    requires Linked(b)
    ensures var c := PublishVerifyDeliveryTask(b, task, o);
            && Balance(c, t) >= Balance(b, t)
            && (!o.BrokenClosed? && SingleCopies(b.topology) ==> Balance(c, t) == Balance(b, t))
  {
    FirstPublishStocks(b, task, o, t);
    FirstPublishHolds(b, task, o, t);
  }

  lemma FirstPublishStocks(b: Bus, task: Task, o: Outcome, t: Task)
    requires Linked(b)
    ensures var c := PublishVerifyDeliveryTask(b, task, o);
            var n := Fanout(b.topology, b.topology.direct, b.topology.verifyKey);
            && n >= 1 && Stock(c, t) + Unacked(c, t) == Stock(b, t) + Unacked(b, t) +
                           (if o.Queued? && task == t then n else 0)
  {
    var m := Message(task, 0, b.topology.verifyKey);
    var p, c := PublishToQueue(b, b.topology.direct, m, o).0, PublishVerifyDeliveryTask(b, task, o);
    PublishStocks(b, b.topology.direct, m, o, t);
    assert Stock(c, t) == Stock(p, t) && Unacked(c, t) == Unacked(p, t);
  }

  lemma FirstPublishHolds(b: Bus, task: Task, o: Outcome, t: Task)
    requires Linked(b)
    ensures var c := PublishVerifyDeliveryTask(b, task, o);
            && c.unacked == (if o.BrokenClosed? then None else b.unacked) && c.phase == b.phase
            && c.sent == b.sent && c.lost == b.lost
            && Times(c.published, t) == Times(b.published, t) + (if o.Queued? && task == t then 1 else 0)
  {
    PublishStocks(b, b.topology.direct, Message(task, 0, b.topology.verifyKey), o, t);
    TimesAppend(b.published, task, t);
  }

  lemma DeadLetterBalances(b: Bus, t: Task)
    ensures Balance(DeadLetter(b), t) >= Balance(b, t)
    ensures SingleCopies(b.topology) ==> Balance(DeadLetter(b), t) == Balance(b, t)
  {
    if b.retry != [] {
      RouteStocks(b.(retry := b.retry[1..]), b.topology.direct, b.retry[0].(key := b.topology.verifyKey), t);
    }
  }

  lemma RepublishBalances(b: Bus, o: Outcome, t: Task)
    requires Linked(b)
    ensures Balance(Republish(b, o), t) >= Balance(b, t)
    ensures !o.BrokenClosed? && Attached(b) && SingleCopies(b.topology) ==> Balance(Republish(b, o), t) == Balance(b, t)
  {
    if b.phase.SendFailed? {
      var (exchange, m) := Rerouted(b, b.phase.m);
      PublishStocks(b, exchange, m, o, t);
      TimesAppend(b.lost, m.task, t);
    }
  }

  /** PublishVerifyDeliveryTask returns true also for a publish that was only claimed; otherwise true means queued. */
  lemma FlagMeansQueued(b: Bus, task: Task, o: Outcome)
    requires Linked(b)
    ensures var m := Message(task, 0, b.topology.verifyKey);
            var c, ok := PublishVerifyDeliveryTask(b, task, o), PublishToQueue(b, b.topology.direct, m, o).1;
            && ok == (o.Queued? || o.OnlyClaimed?)
            && (Stock(c, task) + Unacked(c, task) > Stock(b, task) + Unacked(b, task) <==> o.Queued?)
            && ((ok <==> Stock(c, task) + Unacked(c, task) > Stock(b, task) + Unacked(b, task)) <==> !o.OnlyClaimed?)
  {
    FirstPublishStocks(b, task, o, task);
  }

  lemma {:induction false} RunBalances(b: Bus, events: seq<Event>, t: Task)
    requires Linked(b) && HasRequiredFields(t)
    ensures Balance(Run(b, events), t) >= Balance(b, t)
    ensures (forall i :: 0 <= i < |events| ==> Calm(events[i])) && Attached(b) && SingleCopies(b.topology) ==>
              Balance(Run(b, events), t) == Balance(b, t)
    decreases |events|
  {
    if events != [] {
      StepKeepsLinks(b, events[0]);
      StepBalances(b, events[0], t);
      RunBalances(Next(b, events[0]), events[1..], t);
    }
  }

  /** No step of the run re-publishes this task to no queue while its delivery is to be acknowledged. */
  predicate NeverLoses(b: Bus, events: seq<Event>, t: Task)
    decreases |events|
  {
    events == [] ||
    (!(events[0].Republishes? && Loses(b, events[0].o) && b.phase.m.task == t) &&
     NeverLoses(Next(b, events[0]), events[1..], t))
  }

  lemma StepLoses(b: Bus, e: Event, t: Task)
    ensures Times(Next(b, e).lost, t) == Times(b.lost, t) +
              (if e.Republishes? && Loses(b, e.o) && b.phase.m.task == t then 1 else 0)
  {
    if e.Republishes? {
      RepublishLoses(b, e.o, t);
    } else {
      OthersLoseNothing(b, e);
    }
  }

  lemma RepublishLoses(b: Bus, o: Outcome, t: Task)
    ensures Times(Republish(b, o).lost, t) == Times(b.lost, t) + (if Loses(b, o) && b.phase.m.task == t then 1 else 0)
  {
    if b.phase.SendFailed? {
      TimesAppend(b.lost, b.phase.m.task, t);
      var (exchange, m) := Rerouted(b, b.phase.m);
      assert m.task == b.phase.m.task && PublishToQueue(b, exchange, m, o).0.lost == b.lost;
    }
  }

  lemma OthersLoseNothing(b: Bus, e: Event)
    requires !e.Republishes?
    ensures Next(b, e).lost == b.lost
  {
  }

  /** The log of losses grows by this task exactly in runs with such a step. */
  lemma {:induction false} LossesAreLogged(b: Bus, events: seq<Event>, t: Task)
    ensures Times(Run(b, events).lost, t) >= Times(b.lost, t)
    ensures Times(Run(b, events).lost, t) == Times(b.lost, t) <==> NeverLoses(b, events, t)
    decreases |events|
  {
    if events != [] {
      StepLoses(b, events[0], t);
      LossesAreLogged(Next(b, events[0]), events[1..], t);
    }
  }

  lemma {:induction false} StockMeansMember(q: seq<Message>, t: Task)
    ensures Total(q, OfTask(t)) >= 0
    ensures Total(q, OfTask(t)) > 0 <==> exists i :: 0 <= i < |q| && q[i].task == t
  {
    if q != [] {
      StockMeansMember(q[1..], t);
      assert forall i :: 0 <= i < |q| - 1 ==> q[1..][i] == q[i + 1];
    }
  }

  predicate Contains(q: seq<Message>, t: Task) {
    exists i :: 0 <= i < |q| && q[i].task == t
  }

  /**
   * Over every run, crashes and dropped links included, in which no re-publication loses the task: every
   * publication of it is accounted for by a copy in a queue, a delivery held unacknowledged, or a successful send.
   */
  lemma PublishedTaskIsKept(topology: Topology, maxRetries: nat, events: seq<Event>, t: Task)
    requires NeverLoses(Fresh(topology, maxRetries), events, t) && HasRequiredFields(t)
    ensures var b := Run(Fresh(topology, maxRetries), events);
            && Stock(b, t) + Held(b, t) + Times(b.sent, t) >= Times(b.published, t)
            && (t in b.published ==>
                 Contains(b.main, t) || Contains(b.retry, t) || Contains(b.dlq, t) ||
                 (b.unacked.Some? && b.unacked.value.task == t) || t in b.sent)
  {
    var b := Run(Fresh(topology, maxRetries), events);
    RunBalances(Fresh(topology, maxRetries), events, t);
    LossesAreLogged(Fresh(topology, maxRetries), events, t);
    StockMeansMember(b.main, t);
    StockMeansMember(b.retry, t);
    StockMeansMember(b.dlq, t);
    TimesMeansMember(b.published, t);
    TimesMeansMember(b.sent, t);
  }

  lemma {:induction false} TimesMeansMember(log: seq<Task>, t: Task)
    ensures Times(log, t) > 0 <==> t in log
  {
    if log != [] {
      TimesMeansMember(log[..|log| - 1], t);
      assert log == log[..|log| - 1] + [log[|log| - 1]];
    }
  }

  /**
   * In calm runs copies, held deliveries and successful sends make up the publications of a task exactly
   * if and only if no re-publication loses it; otherwise there are fewer.
   */
  lemma CalmRunIsExact(topology: Topology, maxRetries: nat, events: seq<Event>, t: Task)
    requires SingleCopies(topology) && HasRequiredFields(t)
    requires forall i :: 0 <= i < |events| ==> Calm(events[i])
    ensures var b := Run(Fresh(topology, maxRetries), events);
            && Stock(b, t) + Held(b, t) + Times(b.sent, t) <= Times(b.published, t)
            && (Stock(b, t) + Held(b, t) + Times(b.sent, t) == Times(b.published, t) <==>
                NeverLoses(Fresh(topology, maxRetries), events, t))
  {
    RunBalances(Fresh(topology, maxRetries), events, t);
    LossesAreLogged(Fresh(topology, maxRetries), events, t);
  }

  const SAMPLE := Task("a@b.io", "123456", "trace")
  const LOSING_RUN := [Publishes(SAMPLE, Queued), Consumes, Sends(false), Republishes(FailedOpen), Acks]

  /** How a task is lost: its send fails, re-publishing fails over an open connection, the worker acknowledges. */
  lemma FailedRepublishLosesTask()
    ensures var b := Run(Fresh(DEFAULTS, 5), LOSING_RUN);
            && SAMPLE in b.published && b.phase == Idle && b.unacked == None && SAMPLE !in b.sent
            && b.main == [] && b.retry == [] && b.dlq == []
  {
    var b3 := FirstSendFails();
    var b4 := Next(b3, Republishes(FailedOpen));
    assert b4.phase == Settling;
    RunUnfolds(b3, LOSING_RUN[3..]);
    RunUnfolds(b4, LOSING_RUN[4..]);
  }

  /** The losing run up to the failed send. */
  lemma FirstSendFails() returns (b: Bus)
    ensures Run(Fresh(DEFAULTS, 5), LOSING_RUN) == Run(b, LOSING_RUN[3..])
    ensures var m := Message(SAMPLE, 0, DEFAULTS.verifyKey);
            b == Fresh(DEFAULTS, 5).(published := [SAMPLE], attempts := [SAMPLE], phase := SendFailed(m),
                                     unacked := Some(m), envelope := Some(m))
  {
    var b1 := Next(Fresh(DEFAULTS, 5), LOSING_RUN[0]);
    var b2 := Next(b1, Consumes);
    b := Next(b2, Sends(false));
    assert b1.main == [Message(SAMPLE, 0, DEFAULTS.verifyKey)] && b2.main == [];
    RunUnfolds(Fresh(DEFAULTS, 5), LOSING_RUN);
    RunUnfolds(b1, LOSING_RUN[1..]);
    RunUnfolds(b2, LOSING_RUN[2..]);
  }

  lemma RunUnfolds(b: Bus, events: seq<Event>)
    requires events != []
    ensures Run(b, events) == Run(Next(b, events[0]), events[1..])
  {
  }

  // ---- retries are bounded ----

  predicate Within(q: seq<Message>, low: int, high: int, key: string) {
    forall i :: 0 <= i < |q| ==> low <= q[i].retryCount <= high && q[i].key == key
  }

  /** Every copy's retry count is within bounds, and each queue holds its own routing key only. */
  predicate Bounded(b: Bus) {
    && Within(b.main, 0, b.maxRetries, b.topology.verifyKey)
    && Within(b.retry, 1, b.maxRetries, b.topology.retryKey)
    && Within(b.dlq, b.maxRetries, b.maxRetries, b.topology.dlqKey)
    && (b.unacked.Some? ==> Within([b.unacked.value], 0, b.maxRetries, b.topology.verifyKey))
    && (b.phase.Holding? || b.phase.SendFailed? ==> 0 <= b.phase.m.retryCount <= b.maxRetries)
  }

  /** What routing must be given to stay within bounds. */
  predicate Admissible(b: Bus, exchange: string, m: Message) {
    && 0 <= m.retryCount <= b.maxRetries
    && (m.key == b.topology.retryKey && exchange == b.topology.direct ==> 1 <= m.retryCount)
    && (m.key == b.topology.dlqKey && exchange == b.topology.dlx ==> m.retryCount == b.maxRetries)
  }

  lemma RouteBounded(b: Bus, exchange: string, m: Message)
    requires Bounded(b) && Distinct(b.topology) && Admissible(b, exchange, m)
    ensures Bounded(Route(b, exchange, m))
  {
  }

  lemma RequeueBounded(b: Bus)
    requires Bounded(b)
    ensures Bounded(Requeue(b)) && Bounded(Close(b))
  {
    if b.unacked.Some? {
      assert [b.unacked.value][0] == b.unacked.value;
    }
  }

  lemma PublishBounded(b: Bus, exchange: string, m: Message, o: Outcome)
    requires Bounded(b) && Distinct(b.topology) && Admissible(b, exchange, m)
    ensures Bounded(PublishToQueue(b, exchange, m, o).0)
  {
    RequeueBounded(b);
    var c := if b.connected then b else Close(b).(connected := true);
    RouteBounded(c, exchange, m);
    RequeueBounded(c);
  }

  lemma DeadLetterBounded(b: Bus)
    requires Bounded(b) && Distinct(b.topology)
    ensures Bounded(DeadLetter(b))
  {
    if b.retry != [] {
      var rest := b.(retry := b.retry[1..]);
      assert Bounded(rest);
      RouteBounded(rest, b.topology.direct, b.retry[0].(key := b.topology.verifyKey));
    }
  }

  lemma ConsumeBounded(b: Bus)
    requires Bounded(b) && Distinct(b.topology)
    ensures Bounded(ConsumeOnce(b))
  {
  }

  lemma StepBounded(b: Bus, e: Event)
    requires Bounded(b) && Distinct(b.topology)
    ensures Bounded(Next(b, e))
  {
    match e
    case Publishes(task, o) =>
      PublishBounded(b, b.topology.direct, Message(task, 0, b.topology.verifyKey), o);
    case DeadLetters => DeadLetterBounded(b);
    case Consumes => ConsumeBounded(b);
    case Republishes(o) =>
      if b.phase.SendFailed? {
        PublishBounded(b, Rerouted(b, b.phase.m).0, Rerouted(b, b.phase.m).1, o);
      }
    case LinkDrops => RequeueBounded(b);
    case Crashes => RequeueBounded(b);
    case _ =>
  }

  lemma {:induction false} RunBounded(b: Bus, events: seq<Event>)
    requires Bounded(b) && Distinct(b.topology) && Linked(b)
    ensures Bounded(Run(b, events))
    decreases |events|
  {
    if events != [] {
      StepBounded(b, events[0]);
      StepKeepsLinks(b, events[0]);
      RunBounded(Next(b, events[0]), events[1..]);
    }
  }

  /** In every run over distinct bindings no copy exceeds the limit, and dead letters are exhausted tasks. */
  lemma RetriesAreBounded(topology: Topology, maxRetries: nat, events: seq<Event>)
    requires Distinct(topology)
    ensures Bounded(Run(Fresh(topology, maxRetries), events))
  {
    RunBounded(Fresh(topology, maxRetries), events);
  }

  // ---- sends are bounded ----

  /** The sends that a copy may still lead to. */
  function SendsLeft(t: Task, maxRetries: nat): Message -> int {
    (m: Message) => if m.task == t then maxRetries + 1 - m.retryCount else 0
  }

  function HeldSendsLeft(b: Bus, t: Task): int {
    match b.phase
    case Holding(m) => SendsLeft(t, b.maxRetries)(m)
    case SendFailed(m) => if m.task == t then b.maxRetries - m.retryCount else 0
    case _ => 0
  }

  /** Attempts made and attempts still possible. */
  function SendBudget(b: Bus, t: Task): int {
    Times(b.attempts, t) + HeldSendsLeft(b, t) +
    Total(b.main, SendsLeft(t, b.maxRetries)) + Total(b.retry, SendsLeft(t, b.maxRetries))
  }

  /** The budget less what the publications allow. */
  function Overspent(b: Bus, t: Task): int {
    SendBudget(b, t) - (b.maxRetries + 1) * Times(b.published, t)
  }

  /** Without a broken connection a publish only adds to the queues. */
  lemma CalmPublish(b: Bus, exchange: string, m: Message, o: Outcome)
    requires b.connected && !o.BrokenClosed?
    ensures PublishToQueue(b, exchange, m, o).0 == if o.Queued? then Route(b, exchange, m) else b
  {
  }

  lemma PublishBudget(b: Bus, task: Task, t: Task)
    requires Distinct(b.topology)
    ensures var m := Message(task, 0, b.topology.verifyKey);
            SendBudget(Route(b, b.topology.direct, m), t)
              == SendBudget(b, t) + (if task == t then b.maxRetries + 1 else 0)
  {
    RouteAdds(b, b.topology.direct, Message(task, 0, b.topology.verifyKey), SendsLeft(t, b.maxRetries));
  }

  lemma OnePublication(b: Bus, c: Bus, task: Task, t: Task)
    requires c.published == b.published + [task] && c.maxRetries == b.maxRetries
    requires SendBudget(c, t) == SendBudget(b, t) + (if task == t then b.maxRetries + 1 else 0)
    ensures Overspent(c, t) == Overspent(b, t)
  {
    TimesAppend(b.published, task, t);
    OneMore(b.maxRetries + 1, Times(b.published, t));
  }

  lemma PublishSpends(b: Bus, task: Task, o: Outcome, t: Task)
    requires Distinct(b.topology) && b.connected && !o.BrokenClosed?
    ensures Overspent(PublishVerifyDeliveryTask(b, task, o), t) == Overspent(b, t)
  {
    var m := Message(task, 0, b.topology.verifyKey);
    CalmPublish(b, b.topology.direct, m, o);
    if o.Queued? {
      var r, c := Route(b, b.topology.direct, m), PublishVerifyDeliveryTask(b, task, o);
      PublishBudget(b, task, t);
      assert SendBudget(c, t) == SendBudget(r, t);
      OnePublication(b, c, task, t);
    }
  }

  lemma OneMore(k: int, n: int)
    ensures k * (n + 1) == k * n + k
  {
  }

  lemma RepublishSpends(b: Bus, o: Outcome, t: Task)
    requires Bounded(b) && Distinct(b.topology) && b.connected && !o.BrokenClosed?
    ensures Overspent(Republish(b, o), t) <= Overspent(b, t)
  {
    if b.phase.SendFailed? {
      var (exchange, m) := Rerouted(b, b.phase.m);
      CalmPublish(b, exchange, m, o);
      RouteAdds(b, exchange, m, SendsLeft(t, b.maxRetries));
    }
  }

  lemma DeadLetterSpends(b: Bus, t: Task)
    requires Distinct(b.topology)
    ensures Overspent(DeadLetter(b), t) == Overspent(b, t)
  {
    if b.retry != [] {
      var m := b.retry[0].(key := b.topology.verifyKey);
      RouteAdds(b.(retry := b.retry[1..]), b.topology.direct, m, SendsLeft(t, b.maxRetries));
    }
  }

  lemma WorkerSpends(b: Bus, e: Event, t: Task)
    requires Bounded(b) && Distinct(b.topology) && (e.Consumes? || e.Sends? || e.Acks?)
    ensures Overspent(Next(b, e), t) <= Overspent(b, t)
  {
    match e
    case Consumes => ConsumeSpends(b, t);
    case Sends(ok) => SendSpends(b, ok, t);
    case Acks =>
  }

  lemma ConsumeSpends(b: Bus, t: Task)
    requires Bounded(b) && Distinct(b.topology)
    ensures Overspent(ConsumeOnce(b), t) <= Overspent(b, t)
  {
  }

  lemma SendKeepsBudget(b: Bus, ok: bool, t: Task)
    requires Bounded(b)
    ensures SendBudget(Send(b, ok), t) <= SendBudget(b, t)
  {
    if b.phase.Holding? {
      TimesAppend(b.attempts, b.phase.m.task, t);
      SendUsesHeld(b, ok, t);
      SendLeavesQueues(b, ok);
    }
  }

  lemma SendUsesHeld(b: Bus, ok: bool, t: Task)
    requires Bounded(b) && b.phase.Holding?
    ensures HeldSendsLeft(Send(b, ok), t) + (if b.phase.m.task == t then 1 else 0) <= HeldSendsLeft(b, t)
  {
  }

  lemma SendLeavesQueues(b: Bus, ok: bool)
    ensures var c := Send(b, ok);
            c.main == b.main && c.retry == b.retry && c.maxRetries == b.maxRetries
    ensures b.phase.Holding? ==> Send(b, ok).attempts == b.attempts + [b.phase.m.task]
  {
  }

  /** Budgets compare as they do without what the publications allow. */
  lemma SamePublications(b: Bus, c: Bus, t: Task)
    requires c.published == b.published && c.maxRetries == b.maxRetries && SendBudget(c, t) <= SendBudget(b, t)
    ensures Overspent(c, t) <= Overspent(b, t)
  {
  }

  lemma SendSpends(b: Bus, ok: bool, t: Task)
    requires Bounded(b)
    ensures Overspent(Send(b, ok), t) <= Overspent(b, t)
  {
    SendKeepsBudget(b, ok, t);
    SamePublications(b, Send(b, ok), t);
  }

  lemma StepSpendsSends(b: Bus, e: Event, t: Task)
    requires Bounded(b) && Distinct(b.topology) && Attached(b) && Calm(e)
    ensures Overspent(Next(b, e), t) <= Overspent(b, t)
  {
    match e
    case Publishes(task, o) => PublishSpends(b, task, o, t);
    case DeadLetters => DeadLetterSpends(b, t);
    case Republishes(o) => RepublishSpends(b, o, t);
    case _ => WorkerSpends(b, e, t);
  }

  lemma {:induction false} RunSpendsSends(b: Bus, events: seq<Event>, t: Task)
    requires Bounded(b) && Distinct(b.topology) && Linked(b) && Attached(b)
    requires forall i :: 0 <= i < |events| ==> Calm(events[i])
    ensures var c := Run(b, events);
            Bounded(c) && c.maxRetries == b.maxRetries && Overspent(c, t) <= Overspent(b, t)
    decreases |events|
  {
    if events != [] {
      StepBounded(b, events[0]);
      StepKeepsLinks(b, events[0]);
      StepSpendsSends(b, events[0], t);
      RunSpendsSends(Next(b, events[0]), events[1..], t);
    }
  }

  lemma {:induction false} SendsLeftIsPositive(q: seq<Message>, t: Task, maxRetries: nat)
    requires forall i :: 0 <= i < |q| ==> q[i].retryCount <= maxRetries
    ensures Total(q, SendsLeft(t, maxRetries)) >= 0
  {
    if q != [] {
      SendsLeftIsPositive(q[1..], t, maxRetries);
    }
  }

  /** In a calm run over distinct bindings a task is sent at most max_retries + 1 times per publication. */
  lemma SendsAreBounded(topology: Topology, maxRetries: nat, events: seq<Event>, t: Task)
    requires Distinct(topology)
    requires forall i :: 0 <= i < |events| ==> Calm(events[i])
    ensures var b := Run(Fresh(topology, maxRetries), events);
            Times(b.attempts, t) <= (maxRetries + 1) * Times(b.published, t)
  {
    var b := Run(Fresh(topology, maxRetries), events);
    FreshSpendsNothing(topology, maxRetries, t);
    RunSpendsSends(Fresh(topology, maxRetries), events, t);
    BudgetBoundsSends(b, t);
  }

  lemma FreshSpendsNothing(topology: Topology, maxRetries: nat, t: Task)
    ensures Overspent(Fresh(topology, maxRetries), t) == 0
  {
  }

  /** What is left to send is never negative, so a budget that is not overspent bounds what was sent. */
  lemma BudgetBoundsSends(b: Bus, t: Task)
    requires Bounded(b) && Overspent(b, t) <= 0
    ensures Times(b.attempts, t) <= (b.maxRetries + 1) * Times(b.published, t)
  {
    SendsLeftIsPositive(b.main, t, b.maxRetries);
    SendsLeftIsPositive(b.retry, t, b.maxRetries);
    assert HeldSendsLeft(b, t) >= 0;
  }

  // ---- every task comes to an end ----

  function MainWork(maxRetries: nat): Message -> int {
    (m: Message) => 5 * (maxRetries + 1 - m.retryCount)
  }

  function RetryWork(maxRetries: nat): Message -> int {
    (m: Message) => 5 * (maxRetries + 1 - m.retryCount) + 1
  }

  function PhaseWork(b: Bus): int {
    match b.phase
    case Idle => 0
    case Holding(m) => 5 * (b.maxRetries + 1 - m.retryCount) - 1
    case SendFailed(m) => 5 * (b.maxRetries + 1 - m.retryCount) - 2
    case Settling => 1
  }

  function Work(b: Bus): int {
    Total(b.main, MainWork(b.maxRetries)) + Total(b.retry, RetryWork(b.maxRetries)) + PhaseWork(b)
  }

  /** The step does something. */
  predicate Possible(b: Bus, e: Event) {
    match e
    case DeadLetters => b.retry != []
    case Consumes => b.phase.Idle? && b.main != []
    case Sends(_) => b.phase.Holding?
    case Republishes(_) => b.phase.SendFailed?
    case Acks => b.phase.Settling?
    case _ => false
  }

  lemma DeadLetterUsesWork(b: Bus)
    requires Distinct(b.topology) && b.retry != []
    ensures Work(DeadLetter(b)) < Work(b)
  {
    var rest, m := b.(retry := b.retry[1..]), b.retry[0].(key := b.topology.verifyKey);
    RouteAdds(rest, b.topology.direct, m, MainWork(b.maxRetries));
    RouteAdds(rest, b.topology.direct, m, RetryWork(b.maxRetries));
  }

  lemma RepublishUsesWork(b: Bus, o: Outcome)
    requires Bounded(b) && Distinct(b.topology) && b.connected && !o.BrokenClosed? && b.phase.SendFailed?
    ensures Work(Republish(b, o)) < Work(b)
  {
    var (exchange, m) := Rerouted(b, b.phase.m);
    CalmPublish(b, exchange, m, o);
    RouteAdds(b, exchange, m, MainWork(b.maxRetries));
    RouteAdds(b, exchange, m, RetryWork(b.maxRetries));
  }

  /** Between publications every calm step uses work up, so retrying ends. */
  lemma CalmStepUsesWork(b: Bus, e: Event)
    requires Bounded(b) && Distinct(b.topology) && Attached(b) && Calm(e) && Possible(b, e)
    ensures Work(Next(b, e)) < Work(b)
  {
    match e
    case DeadLetters => DeadLetterUsesWork(b);
    case Republishes(o) => RepublishUsesWork(b, o);
    case _ =>
  }

  predicate AllPossible(b: Bus, events: seq<Event>)
    decreases |events|
  {
    events == [] || (Calm(events[0]) && Possible(b, events[0]) && AllPossible(Next(b, events[0]), events[1..]))
  }

  /** So a calm run without new publications is over within as many steps as there is work when it begins. */
  lemma {:induction false} RetryingEnds(b: Bus, events: seq<Event>)
    requires Bounded(b) && Distinct(b.topology) && Linked(b) && Attached(b) && AllPossible(b, events)
    ensures |events| + Work(Run(b, events)) <= Work(b)
    decreases |events|
  {
    if events != [] {
      CalmStepUsesWork(b, events[0]);
      StepBounded(b, events[0]);
      StepKeepsLinks(b, events[0]);
      RetryingEnds(Next(b, events[0]), events[1..]);
    }
  }

  lemma {:induction false} WorkIsPositive(q: seq<Message>, f: Message -> int)
    requires forall i :: 0 <= i < |q| ==> f(q[i]) >= 0
    ensures Total(q, f) >= 0
  {
    if q != [] {
      WorkIsPositive(q[1..], f);
    }
  }

  /** At rest only the dead-letter queue is left. */
  lemma RestMeansDone(b: Bus)
    requires Bounded(b)
    ensures Work(b) >= 0
    ensures (forall e :: !Possible(b, e)) ==> b.main == [] && b.retry == [] && b.phase.Idle?
  {
    WorkIsPositive(b.main, MainWork(b.maxRetries));
    WorkIsPositive(b.retry, RetryWork(b.maxRetries));
    if forall e :: !Possible(b, e) {
      assert !Possible(b, DeadLetters) && !Possible(b, Consumes) && !Possible(b, Acks);
      assert !Possible(b, Sends(true)) && !Possible(b, Republishes(Queued));
    }
  }

  // ---- the class ----

  /** One round of the worker loop, nothing else happening in between. */
  function Turn(b: Bus, ok: bool, o: Outcome): Bus {
    var c := ConsumeOnce(b);
    if c.phase.Holding? then
      var d := Send(c, ok);
      AckLastConsumed(if ok then d else Republish(d, o))
    else c
  }

  class EmailTaskBus {
    const topology: Topology
    const maxRetries: nat

    // The broker.
    var main: seq<Message>
    var retry: seq<Message>
    var dlq: seq<Message>
    var unacked: Option<Message>

    // The client and its worker.
    var connected: bool
    var lastEnvelope: Option<Message>
    var phase: Phase

    ghost var published: seq<Task>
    ghost var attempts: seq<Task>
    ghost var sent: seq<Task>
    ghost var lost: seq<Task>

    ghost function View(): Bus
      reads this
    {
      Bus(topology, maxRetries, main, retry, dlq, unacked, connected, lastEnvelope, phase,
          published, attempts, sent, lost)
    }

    constructor (topology: Topology, configuredRetries: int)
      ensures View() == Fresh(topology, if configuredRetries > 0 then configuredRetries else 5)
    {
      this.topology := topology;
      maxRetries := if configuredRetries > 0 then configuredRetries else 5;
      main, retry, dlq, unacked := [], [], [], None;
      connected, lastEnvelope, phase := true, None, Idle;
      published, attempts, sent, lost := [], [], [], [];
    }

    /** The broker's part of a publish. */
    method Enqueue(exchange: string, m: Message)
      modifies this`main, this`retry, this`dlq
      ensures exchange == topology.direct && m.key == topology.verifyKey ==> main == old(main) + [m]
      ensures retry == old(retry) + (if exchange == topology.direct && m.key == topology.retryKey then [m] else [])
      ensures topology.queue != topology.dlqQueue ==>
                && dlq == old(dlq) + (if exchange == topology.dlx && m.key == topology.dlqKey then [m] else [])
                && main == old(main) + (if exchange == topology.direct && m.key == topology.verifyKey then [m] else [])
      ensures View() == Route(old(View()), exchange, m)
    {
      if ToDelivery(topology, exchange, m.key) {
        main := main + [m];
      }
      if ToRetry(topology, exchange, m.key) {
        retry := retry + [m];
      }
      if ToDlq(topology, exchange, m.key) {
        dlq := dlq + [m];
      }
    }

    method CloseConnection()
      modifies this`lastEnvelope, this`connected, this`main, this`unacked
      ensures !connected && lastEnvelope.None? && unacked.None?
      ensures main == (if old(unacked).Some? then [old(unacked).value] else []) + old(main)
      ensures View() == Close(old(View()))
    {
      lastEnvelope := None;
      connected := false;
      if unacked.Some? {
        main := [unacked.value] + main;
        unacked := None;
      }
    }

    method PublishMessage(exchange: string, m: Message, o: Outcome) returns (ok: bool)
      modifies this`lastEnvelope, this`connected, this`main, this`retry, this`dlq, this`unacked
      ensures ok <==> o.Queued? || o.OnlyClaimed?
      ensures connected <==> !o.BrokenClosed? && (old(connected) || !o.NoConnection?)
      ensures unacked == if connected && old(connected) then old(unacked) else None
      ensures !o.Queued? ==>
                && retry == old(retry) && dlq == old(dlq)
                && main == (if old(unacked) == unacked || old(unacked).None? then [] else [old(unacked).value]) +
                           old(main)
      ensures (View(), ok) == PublishToQueue(old(View()), exchange, m, o)
    {
      if !connected {
        CloseConnection();
        if o.NoConnection? {
          return false;
        }
        connected := true;
      }
      match o
      case Queued =>
        Enqueue(exchange, m);
        return true;
      case OnlyClaimed =>
        return true;
      case BrokenClosed =>
        CloseConnection();
        return false;
      case FailedOpen =>
        return false;
      case NoConnection =>
        return false;
    }

    method PublishTask(task: Task, o: Outcome) returns (ok: bool)
      modifies this`lastEnvelope, this`connected, this`main, this`retry, this`dlq, this`unacked, this`published
      ensures ok <==> o.Queued? || o.OnlyClaimed?
      ensures o.Queued? ==> main != [] && main[|main| - 1] == Message(task, 0, topology.verifyKey)
      ensures published == old(published) + (if o.Queued? then [task] else [])
      ensures View() == PublishVerifyDeliveryTask(old(View()), task, o)
      ensures ok == PublishToQueue(old(View()), topology.direct, Message(task, 0, topology.verifyKey), o).1
    {
      ok := PublishMessage(topology.direct, Message(task, 0, topology.verifyKey), o);
      if o.Queued? {
        published := published + [task];
      }
    }

    method Consume() returns (consumed: bool)
      requires phase.Idle?
      modifies this`main, this`unacked, this`lastEnvelope, this`phase
      ensures main == if connected && old(main) != [] then old(main)[1..] else old(main)
      ensures consumed <==>
                connected && old(main) != [] && old(main)[0].task.email != "" && old(main)[0].task.code != ""
      ensures if consumed
              then var m := old(main)[0];
                   && unacked == lastEnvelope == Some(m)
                   && phase == Holding(m.(retryCount := m.retryCount + (if m.key == topology.retryKey then 1 else 0)))
              else unacked == old(unacked) && lastEnvelope == old(lastEnvelope) && phase == Idle
      ensures View() == ConsumeOnce(old(View())) && consumed == phase.Holding?
    {
      if !connected || main == [] {
        return false;
      }
      var envelope := main[0];
      main := main[1..];
      var fromRetry := envelope.key == topology.retryKey;
      if !HasRequiredFields(envelope.task) {
        return false;
      }
      var parsed := envelope;
      if fromRetry {
        parsed := parsed.(retryCount := parsed.retryCount + 1);
      }
      unacked := Some(envelope);
      lastEnvelope := Some(envelope);
      phase := Holding(parsed);
      return true;
    }

    method AckLast()
      requires phase.Settling?
      modifies this`unacked, this`lastEnvelope, this`phase
      ensures phase == Idle && lastEnvelope.None?
      ensures unacked == if connected && old(lastEnvelope).Some? then None else old(unacked)
      ensures View() == AckLastConsumed(old(View()))
    {
      if connected && lastEnvelope.Some? {
        unacked := None;
      }
      lastEnvelope := None;
      phase := Idle;
    }

    /** What the loop does about a failed send; the result of publishing is not looked at. */
    method HandleFailedSend(o: Outcome)
      requires phase.SendFailed?
      modifies this`lastEnvelope, this`connected, this`main, this`retry, this`dlq, this`unacked, this`phase, this`lost
      ensures phase == Settling
      ensures o.Queued? && old(phase).m.retryCount < maxRetries ==>
                var m := old(phase).m;
                retry == old(retry) + [Message(m.task, m.retryCount + 1, topology.retryKey)]
      ensures o.Queued? && old(phase).m.retryCount >= maxRetries && topology.queue != topology.dlqQueue ==>
                var m := old(phase).m;
                dlq == old(dlq) + [Message(m.task, m.retryCount, topology.dlqKey)]
      ensures !o.Queued? ==> retry == old(retry) && dlq == old(dlq)
      ensures View() == Republish(old(View()), o)
    {
      var task := phase.m;
      ghost var loses := Loses(View(), o);
      if task.retryCount < maxRetries {
        var ok := PublishMessage(topology.direct, Message(task.task, task.retryCount + 1, topology.retryKey), o);
      } else {
        var ok := PublishMessage(topology.dlx, Message(task.task, task.retryCount, topology.dlqKey), o);
      }
      phase := Settling;
      lost := if loses then lost + [task.task] else lost;
    }

    /** One round of WorkerLoop: `ok` is what the mail server says, `o` how re-publishing goes. */
    method WorkerTurn(ok: bool, o: Outcome)
      requires phase.Idle?
      modifies this
      ensures phase == Idle
      ensures old(connected) && old(main) != [] && HasRequiredFields(old(main)[0].task) ==>
                && attempts == old(attempts) + [old(main)[0].task]
                && sent == old(sent) + (if ok then [old(main)[0].task] else [])
      ensures old(connected) && old(main) != [] && HasRequiredFields(old(main)[0].task) && ok ==>
                && main == old(main)[1..] && unacked.None? && retry == old(retry) && dlq == old(dlq)
      ensures View() == Turn(old(View()), ok, o)
    {
      var consumed := Consume();
      if consumed {
        var task := phase.m;
        attempts := attempts + [task.task];
        if ok {
          sent := sent + [task.task];
          phase := Settling;
          AckLast();
        } else {
          phase := SendFailed(task);
          HandleFailedSend(o);
          AckLast();
        }
      }
    }
  }
}
