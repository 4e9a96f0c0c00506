/** The worker pool of GateShared/GateWorkerPool: a mutex, one condition variable, and a stop that drains the queue. */
module WorkerPool {

  /** Where a worker thread is; `Ready` is about to take the mutex and test its condition. */
  datatype Worker = Ready | Asleep | Running(task: nat) | Exited

  /** How far the one call of Stop that does the joining has come. */
  datatype Stop = NoStop | Notifying | Joining(next: nat) | Returned

  /**
   * The pool between two critical sections. Tasks are numbered in acceptance order; `accepted`
   * counts them. `notices` counts the notify_one calls that accepted posts still owe.
   * `size` (the threads started), `begun` and `finished` are history.
   */
  datatype Pool = Pool(
    started: bool,
    stopping: bool,
    stopped: bool,
    tasks: seq<nat>,
    workers: seq<Worker>,
    notices: nat,
    stop: Stop,
    size: nat,
    accepted: nat,
    begun: seq<nat>,
    finished: set<nat>)

  const FRESH := Pool(false, false, false, [], [], 0, NoStop, 0, 0, [], {})

  datatype Event =
    | StartSucceeds(threads: nat)
    | StartFails
    | Post
    | NotifyOne(w: nat)
    | WorkerLooks(w: nat)
    | TaskEnds(w: nat)
    | SpuriousWake(w: nat)
    | StopMarks
    | StopNotifies
    | StopJoins
    | StopReturns

  predicate IsWorker(p: Pool, w: nat) {
    w < |p.workers|
  }

  predicate NoneAsleep(p: Pool) {
    forall i :: 0 <= i < |p.workers| ==> !p.workers[i].Asleep?
  }

  predicate Enabled(p: Pool, e: Event) {
    match e
    case StartSucceeds(threads) => threads > 0 && !p.started && !p.stopped
    case StartFails => !p.started && !p.stopped
    case Post => p.started && !p.stopping
    case NotifyOne(w) => p.notices > 0 && (if NoneAsleep(p) then w == 0 else IsWorker(p, w) && p.workers[w].Asleep?)
    case WorkerLooks(w) => IsWorker(p, w) && p.workers[w].Ready?
    case TaskEnds(w) => IsWorker(p, w) && p.workers[w].Running?
    case SpuriousWake(w) => IsWorker(p, w) && p.workers[w].Asleep?
    case StopMarks => !p.stopped
    case StopNotifies => p.stop.Notifying?
    case StopJoins => p.stop.Joining? && p.stop.next < |p.workers| && p.workers[p.stop.next].Exited?
    case StopReturns => p.stop.Joining? && p.stop.next >= |p.workers|
  }

  function Move(p: Pool, w: nat, to: Worker): Pool
    requires IsWorker(p, w)
  {
    p.(workers := p.workers[w := to])
  }

  /** The critical section of RunWorker: sleep, exit, or take the front task. */
  function Look(p: Pool, w: nat): Pool
    requires IsWorker(p, w)
  {
    if !p.stopping && p.tasks == [] then Move(p, w, Asleep)
    else if p.tasks == [] then Move(p, w, Exited)
    else Move(p, w, Running(p.tasks[0])).(tasks := p.tasks[1..], begun := p.begun + [p.tasks[0]])
  }

  function Awake(worker: Worker): Worker {
    if worker.Asleep? then Ready else worker
  }

  function AllAwake(workers: seq<Worker>): seq<Worker> {
    seq(|workers|, i requires 0 <= i < |workers| => Awake(workers[i]))
  }

  function Next(p: Pool, e: Event): Pool
    requires Enabled(p, e)
  {
    match e
    case StartSucceeds(threads) => p.(started := true, workers := seq(threads, _ => Ready), size := threads)
    case StartFails => p.(stopping := true, stopped := true)
    case Post => p.(tasks := p.tasks + [p.accepted], accepted := p.accepted + 1, notices := p.notices + 1)
    case NotifyOne(w) =>
      var q := p.(notices := p.notices - 1);
      if NoneAsleep(p) then q else Move(q, w, Ready)
    case WorkerLooks(w) => Look(p, w)
    case TaskEnds(w) => Move(p, w, Ready).(finished := p.finished + {p.workers[w].task})
    case SpuriousWake(w) => Move(p, w, Ready)
    case StopMarks => p.(stopping := true, stopped := true, stop := Notifying)
    case StopNotifies => p.(workers := AllAwake(p.workers), stop := Joining(0))
    case StopJoins => p.(stop := Joining(p.stop.next + 1))
    case StopReturns => p.(workers := [], started := false, stop := Returned)
  }

  /** An event that is not enabled leaves the pool alone, so every event sequence is an interleaving. */
  function Step(p: Pool, e: Event): Pool {
    if Enabled(p, e) then Next(p, e) else p
  }

  function Run(p: Pool, events: seq<Event>): Pool
    decreases |events|
  {
    if events == [] then p else Run(Step(p, events[0]), events[1..])
  }

  /** The number of threads that Start starts: as many as processors are counted, if none are asked for; never none. */
  function ThreadCount(requested: nat, counted: int): (threads: nat)
    ensures threads > 0
    ensures requested > 0 ==> threads == requested
    ensures requested == 0 ==> threads == if counted > 0 then counted else 1
  {
    if requested == 0 then (if counted > 0 then counted else 1) else requested
  }

  // ---- what every step keeps ----

  /** Tasks leave the queue in acceptance order, each once. */
  ghost predicate InOrder(p: Pool) {
    && p.accepted == |p.begun| + |p.tasks|
    && (forall i :: 0 <= i < |p.begun| ==> p.begun[i] == i)
    && (forall i :: 0 <= i < |p.tasks| ==> p.tasks[i] == |p.begun| + i)
  }

  predicate RunsOn(p: Pool, w: nat, task: nat) {
    IsWorker(p, w) && p.workers[w] == Running(task)
  }

  /** A task that has begun has finished or runs on exactly one worker. */
  ghost predicate Accounted(p: Pool) {
    && (forall t :: t in p.finished ==> t < |p.begun|)
    && (forall t: nat :: t < |p.begun| && t !in p.finished ==> exists w :: RunsOn(p, w, t))
    && (forall w: nat, t: nat :: RunsOn(p, w, t) ==> t < |p.begun| && t !in p.finished)
    && (forall v: nat, w: nat, t: nat :: RunsOn(p, v, t) && RunsOn(p, w, t) ==> v == w)
  }

  /** The flags, the progress of Stop, and which workers may sleep or be gone. */
  ghost predicate Flags(p: Pool) {
    && p.stopping == p.stopped
    && (!p.stop.NoStop? ==> p.stopping)
    && (p.stopping && p.stop.NoStop? ==> !p.started)
    && (!p.started && !p.stop.Returned? ==> p.workers == [] && p.size == 0 && p.accepted == 0)
    && (p.started ==> p.size > 0)
    && (p.stop.Returned? ==> !p.started && p.workers == [] && p.tasks == [])
    && (!p.stop.Returned? ==> |p.workers| == p.size)
    && (p.size == 0 ==> p.accepted == 0)
    && (p.stop.Joining? ==> NoneAsleep(p) && p.stop.next <= |p.workers|)
    && (p.stop.Joining? ==> forall i :: 0 <= i < p.stop.next ==> p.workers[i].Exited?)
    && (forall i :: 0 <= i < |p.workers| && p.workers[i].Exited? ==> p.stopping && p.tasks == [])
  }

  predicate SomeoneAwake(p: Pool) {
    exists i :: 0 <= i < |p.workers| && (p.workers[i].Ready? || p.workers[i].Running?)
  }

  /** A queued task never waits on sleeping workers alone. */
  ghost predicate NoLostWakeup(p: Pool) {
    p.tasks != [] && p.workers != [] ==> p.notices > 0 || SomeoneAwake(p)
  }

  ghost predicate Inv(p: Pool) {
    InOrder(p) && Accounted(p) && Flags(p) && NoLostWakeup(p)
  }

  lemma StepKeepsOrder(p: Pool, e: Event)
    requires InOrder(p)
    ensures InOrder(Step(p, e))
  {
  }

  /** Waking workers and changing flags moves no task. */
  predicate SameRuns(p: Pool, q: Pool) {
    && q.begun == p.begun && q.finished == p.finished
    && |q.workers| == |p.workers|
    && forall i :: 0 <= i < |p.workers| ==>
         if p.workers[i].Running? then q.workers[i] == p.workers[i] else !q.workers[i].Running?
  }

  lemma SameRunsKeepAccounts(p: Pool, q: Pool)
    requires Accounted(p) && SameRuns(p, q)
    ensures Accounted(q)
  {
    forall t: nat | t < |q.begun| && t !in q.finished
      ensures exists w :: RunsOn(q, w, t)
    {
      var w :| RunsOn(p, w, t);
      assert RunsOn(q, w, t);
    }
    assert forall w: nat, t: nat :: RunsOn(q, w, t) ==> RunsOn(p, w, t);
  }

  lemma TakingKeepsAccounts(p: Pool, w: nat)
    requires InOrder(p) && Accounted(p) && IsWorker(p, w) && p.workers[w].Ready? && p.tasks != []
    ensures Accounted(Look(p, w))
  {
    var q, task := Look(p, w), |p.begun|;
    assert p.tasks[0] == task && task !in p.finished;
    forall t: nat | t < |q.begun| && t !in q.finished
      ensures exists v :: RunsOn(q, v, t)
    {
      if t == task {
        assert RunsOn(q, w, t);
      } else {
        var v :| RunsOn(p, v, t);
        assert RunsOn(q, v, t);
      }
    }
    forall v: nat, t: nat | RunsOn(q, v, t)
      ensures if v == w then t == task else RunsOn(p, v, t)
    {
    }
  }

  lemma EndingKeepsAccounts(p: Pool, w: nat)
    requires Accounted(p) && IsWorker(p, w) && p.workers[w].Running?
    ensures Accounted(Next(p, TaskEnds(w)))
  {
    var q, task := Next(p, TaskEnds(w)), p.workers[w].task;
    assert RunsOn(p, w, task);
    forall t: nat | t < |q.begun| && t !in q.finished
      ensures exists v :: RunsOn(q, v, t)
    {
      var v :| RunsOn(p, v, t);
      assert RunsOn(q, v, t);
    }
    forall v: nat, t: nat | RunsOn(q, v, t)
      ensures RunsOn(p, v, t) && v != w && t != task
    {
      assert v != w && RunsOn(p, v, t);
    }
  }

  lemma StepKeepsAccounts(p: Pool, e: Event)
    requires InOrder(p) && Accounted(p) && Flags(p)
    ensures Accounted(Step(p, e))
  {
    var q := Step(p, e);
    if !Enabled(p, e) {
    } else if e.TaskEnds? {
      EndingKeepsAccounts(p, e.w);
    } else if e.WorkerLooks? && p.tasks != [] {
      TakingKeepsAccounts(p, e.w);
    } else if e.StopReturns? {
      StopReturnsWithAllDone(p);
      assert forall w: nat, t: nat :: !RunsOn(q, w, t);
    } else if e.StartSucceeds? {
      assert forall w: nat, t: nat :: !RunsOn(q, w, t);
      assert forall w: nat, t: nat :: !RunsOn(p, w, t);
    } else {
      SameRunsKeepAccounts(p, q);
    }
  }

  /** When every worker has exited, every task that has begun has finished. */
  lemma StopReturnsWithAllDone(p: Pool)
    requires InOrder(p) && Accounted(p) && Flags(p) && Enabled(p, StopReturns)
    ensures forall t: nat :: t < |p.begun| ==> t in p.finished
    ensures p.tasks == []
  {
    assert forall w: nat, t: nat :: !RunsOn(p, w, t);
    if p.size > 0 {
      assert p.workers[0].Exited?;
    }
  }

  lemma StopStepKeepsFlags(p: Pool, e: Event)
    requires InOrder(p) && Flags(p) && Enabled(p, e)
    requires e.StopMarks? || e.StopNotifies? || e.StopJoins? || e.StopReturns?
    ensures Flags(Next(p, e))
  {
    if e.StopReturns? && p.size > 0 {
      assert p.workers[0].Exited?;
    }
  }

  lemma StepKeepsFlags(p: Pool, e: Event)
    requires InOrder(p) && Flags(p)
    ensures Flags(Step(p, e))
  {
    if Enabled(p, e) {
      match e
      case StopMarks => StopStepKeepsFlags(p, e);
      case StopNotifies => StopStepKeepsFlags(p, e);
      case StopJoins => StopStepKeepsFlags(p, e);
      case StopReturns => StopStepKeepsFlags(p, e);
      case _ =>
    }
  }

  lemma StepKeepsWakeups(p: Pool, e: Event)
    requires Flags(p) && NoLostWakeup(p)
    ensures NoLostWakeup(Step(p, e))
  {
    var q := Step(p, e);
    if Enabled(p, e) && q.tasks != [] && q.workers != [] {
      match e
      case NotifyOne(w) =>
        if NoneAsleep(p) {
          assert !p.workers[0].Exited? && !p.workers[0].Asleep?;
          assert SomeoneAwake(q) by { assert q.workers[0] == p.workers[0]; }
        } else {
          assert q.workers[w].Ready?;
        }
      case WorkerLooks(w) => assert q.workers[w].Running?;
      case TaskEnds(w) => assert q.workers[w].Ready?;
      case SpuriousWake(w) => assert q.workers[w].Ready?;
      case StartSucceeds(_) => assert q.workers[0].Ready?;
      case StopNotifies =>
        assert !p.workers[0].Exited? && q.workers[0] == Awake(p.workers[0]);
      case _ =>
    }
  }

  lemma StepKeeps(p: Pool, e: Event)
    requires Inv(p)
    ensures Inv(Step(p, e))
  {
    StepKeepsOrder(p, e);
    StepKeepsAccounts(p, e);
    StepKeepsFlags(p, e);
    StepKeepsWakeups(p, e);
  }

  lemma {:induction false} RunKeeps(p: Pool, events: seq<Event>)
    requires Inv(p)
    ensures Inv(Run(p, events))
    decreases |events|
  {
    if events != [] {
      StepKeeps(p, events[0]);
      RunKeeps(Step(p, events[0]), events[1..]);
    }
  }

  lemma FreshInv()
    ensures Inv(FRESH)
  {
    assert forall w: nat, t: nat :: !RunsOn(FRESH, w, t);
  }

  // ---- the claims about every interleaving ----

  /** In every interleaving tasks begin in acceptance order, each once, and each at most on one worker at a time. */
  lemma TasksBeginInOrder(events: seq<Event>)
    ensures var p := Run(FRESH, events);
            && (forall i :: 0 <= i < |p.begun| ==> p.begun[i] == i)
            && p.begun + p.tasks == seq(p.accepted, i => i)
            && (forall t: nat :: t < |p.begun| && t !in p.finished ==> exists w :: RunsOn(p, w, t))
            && (forall v: nat, w: nat, t: nat :: RunsOn(p, v, t) && RunsOn(p, w, t) ==> v == w)
  {
    FreshInv();
    RunKeeps(FRESH, events);
  }

  /** At every state of a run: a post is taken if and only if the pool has started and is not stopping. */
  lemma PostIsTaken(events: seq<Event>)
    ensures var p, q := Run(FRESH, events), Run(FRESH, events + [Post]);
            if p.started && !p.stopping
            then q == p.(tasks := p.tasks + [p.accepted], accepted := p.accepted + 1, notices := p.notices + 1)
            else q == p
  {
    RunAppends(FRESH, events, [Post]);
    assert [Post][1..] == [];
  }

  /** At every state of a run: a start leaves as many ready workers, unless the pool has started or stopped before. */
  lemma StartIsTaken(events: seq<Event>, threads: nat)
    requires threads > 0
    ensures var p, q := Run(FRESH, events), Run(FRESH, events + [StartSucceeds(threads)]);
            if p.started || p.stopped then q == p
            else q.started && q.tasks == p.tasks && q.workers == seq(threads, _ => Ready)
  {
    RunAppends(FRESH, events, [StartSucceeds(threads)]);
    assert [StartSucceeds(threads)][1..] == [];
  }

  lemma {:induction false} RunAppends(p: Pool, before: seq<Event>, after: seq<Event>)
    ensures Run(p, before + after) == Run(Run(p, before), after)
    decreases |before|
  {
    if before == [] {
      assert before + after == after;
    } else {
      assert (before + after)[1..] == before[1..] + after;
      RunAppends(Step(p, before[0]), before[1..], after);
    }
  }

  /** The posts of a run that find the pool started and not stopping. */
  function OpenPosts(p: Pool, events: seq<Event>): nat
    decreases |events|
  {
    if events == [] then 0
    else (if events[0].Post? && p.started && !p.stopping then 1 else 0) + OpenPosts(Step(p, events[0]), events[1..])
  }

  /** Exactly these posts are accepted, and each adds one task that is queued or has begun. */
  lemma {:induction false} OpenPostsAreAccepted(p: Pool, events: seq<Event>)
    requires Inv(p)
    ensures var q := Run(p, events);
            && q.accepted == p.accepted + OpenPosts(p, events)
            && |q.begun| + |q.tasks| == |p.begun| + |p.tasks| + OpenPosts(p, events)
    decreases |events|
  {
    if events != [] {
      StepKeeps(p, events[0]);
      OpenPostsAreAccepted(Step(p, events[0]), events[1..]);
    }
  }

  /** Once stopping is set no post succeeds, and stopping stays set. */
  lemma {:induction false} NoPostAfterStop(p: Pool, events: seq<Event>)
    requires p.stopping && p.stopped
    ensures var q := Run(p, events); q.stopping && q.stopped && q.accepted == p.accepted && !Enabled(q, Post)
    decreases |events|
  {
    if events != [] {
      NoPostAfterStop(Step(p, events[0]), events[1..]);
    }
  }

  /** When the Stop that joins returns, the queue is empty and every accepted task has finished. */
  lemma StopDrains(events: seq<Event>)
    ensures var p := Run(FRESH, events);
            p.stop.Returned? ==> p.tasks == [] && forall t: nat :: t < p.accepted ==> t in p.finished
  {
    FreshInv();
    RunKeeps(FRESH, events);
    var p := Run(FRESH, events);
    if p.stop.Returned? {
      assert forall w: nat, t: nat :: !RunsOn(p, w, t);
    }
  }

  // ---- the shutdown ends ----

  function Weight(w: Worker): nat {
    match w
    case Exited => 0
    case Ready => 1
    case Asleep => 2
    case Running(_) => 2
  }

  function Weights(workers: seq<Worker>): nat {
    if workers == [] then 0 else Weight(workers[0]) + Weights(workers[1..])
  }

  function StopWork(p: Pool): int {
    match p.stop
    case NoStop => |p.workers| + 3
    case Notifying => |p.workers| + 2
    case Joining(k) => |p.workers| - k + 1
    case Returned => 0
  }

  function Work(p: Pool): int {
    2 * |p.tasks| + Weights(p.workers) + p.notices + StopWork(p)
  }

  lemma {:induction false} WeightsUpdate(workers: seq<Worker>, w: nat, to: Worker)
    requires w < |workers|
    ensures Weights(workers[w := to]) == Weights(workers) - Weight(workers[w]) + Weight(to)
  {
    if w == 0 {
      assert workers[0 := to][1..] == workers[1..];
    } else {
      WeightsUpdate(workers[1..], w - 1, to);
      assert workers[w := to][1..] == workers[1..][w - 1 := to];
    }
  }

  lemma {:induction false} WeightsAwake(workers: seq<Worker>)
    ensures Weights(AllAwake(workers)) <= Weights(workers)
  {
    if workers != [] {
      WeightsAwake(workers[1..]);
      assert AllAwake(workers)[1..] == AllAwake(workers[1..]);
    }
  }

  /** Every step of a shutdown uses work up, so no shutdown takes more than Work(p) steps. */
  lemma ShutdownStepUsesWork(p: Pool, e: Event)
    requires Inv(p) && p.stopping && !p.stop.NoStop? && Enabled(p, e)
    ensures 0 <= Work(Step(p, e)) < Work(p)
  {
    WeightsAwake(p.workers);
    if e.WorkerLooks? || e.TaskEnds? || e.SpuriousWake? || e.NotifyOne? {
      WorkerStepUsesWork(p, e);
    }
  }

  lemma WorkerStepUsesWork(p: Pool, e: Event)
    requires Inv(p) && p.stopping && !p.stop.NoStop? && Enabled(p, e)
    requires e.WorkerLooks? || e.TaskEnds? || e.SpuriousWake? || e.NotifyOne?
    ensures 0 <= Work(Step(p, e)) < Work(p)
  {
    match e
    case NotifyOne(w) =>
      if !NoneAsleep(p) {
        WeightsUpdate(p.workers, w, Ready);
      }
    case WorkerLooks(w) =>
      WeightsUpdate(p.workers, w, Exited);
      if p.tasks != [] {
        WeightsUpdate(p.workers, w, Running(p.tasks[0]));
      }
    case TaskEnds(w) => WeightsUpdate(p.workers, w, Ready);
    case SpuriousWake(w) => WeightsUpdate(p.workers, w, Ready);
  }

  predicate AllEnabled(p: Pool, events: seq<Event>)
    decreases |events|
  {
    events == [] || (Enabled(p, events[0]) && AllEnabled(Next(p, events[0]), events[1..]))
  }

  /** Whatever the interleaving, a shutdown is over within as many steps as there is work when it begins. */
  lemma {:induction false} ShutdownIsShort(p: Pool, events: seq<Event>)
    requires Inv(p) && p.stopping && !p.stop.NoStop? && AllEnabled(p, events)
    ensures |events| + Work(Run(p, events)) <= Work(p)
    ensures events != [] ==> Work(Run(p, events)) >= 0
    decreases |events|
  {
    if events != [] {
      var q := Step(p, events[0]);
      ShutdownStepUsesWork(p, events[0]);
      StepKeeps(p, events[0]);
      StoppingStays(p, events[0]);
      ShutdownIsShort(q, events[1..]);
    }
  }

  lemma StoppingStays(p: Pool, e: Event)
    requires p.stopping && !p.stop.NoStop?
    ensures Step(p, e).stopping && !Step(p, e).stop.NoStop?
  {
  }

  /** Until Stop returns some step of the shutdown is possible: with the measure above, it always returns. */
  lemma ShutdownGoesOn(p: Pool)
    requires Inv(p) && p.stopping && !p.stop.NoStop? && !p.stop.Returned?
    ensures exists e :: Enabled(p, e) &&
              (e.WorkerLooks? || e.TaskEnds? || e.StopNotifies? || e.StopJoins? || e.StopReturns?)
  {
    if p.stop.Notifying? {
      assert Enabled(p, StopNotifies);
    } else if p.stop.next >= |p.workers| {
      assert Enabled(p, StopReturns);
    } else {
      var k := p.stop.next;
      assert Enabled(p, StopJoins) || Enabled(p, WorkerLooks(k)) || Enabled(p, TaskEnds(k));
    }
  }

  /** A worker moves: it looks, ends a task, or is woken. */
  predicate Serves(p: Pool, e: Event) {
    Enabled(p, e) && (e.WorkerLooks? || e.TaskEnds? || e.SpuriousWake? || (e.NotifyOne? && !NoneAsleep(p)))
  }

  /** While a task is queued, some worker can move without a spurious wake-up: none is lost. */
  lemma QueuedTaskIsServed(p: Pool)
    requires Inv(p) && p.tasks != [] && p.workers != []
    ensures exists e :: Serves(p, e) && !e.SpuriousWake?
  {
    if SomeoneAwake(p) {
      var i :| 0 <= i < |p.workers| && (p.workers[i].Ready? || p.workers[i].Running?);
      assert Serves(p, WorkerLooks(i)) || Serves(p, TaskEnds(i));
    } else {
      assert p.workers[0].Asleep? && p.notices > 0;
      assert Serves(p, NotifyOne(0));
    }
  }

  /** How many moves of workers a queued task may still have to wait for. */
  function WaitsFor(p: Pool, task: nat): int {
    2 * (task - |p.begun| + 1) + Weights(p.workers)
  }

  predicate IsQueued(p: Pool, task: nat) {
    |p.begun| <= task < p.accepted
  }

  /** Every move of a worker brings a queued task closer to its start, and nothing else takes it further away. */
  lemma StepBringsCloser(p: Pool, e: Event, task: nat)
    requires Inv(p) && IsQueued(p, task) && p.started
    ensures var q := Step(p, e);
            && (IsQueued(q, task) || task < |q.begun|) && (IsQueued(q, task) ==> q.started)
            && WaitsFor(q, task) + (if Serves(p, e) then 1 else 0) <= WaitsFor(p, task)
  {
    assert p.tasks != [];
    if Enabled(p, e) {
      match e
      case NotifyOne(w) => WakingIsAMove(p, w);
      case WorkerLooks(w) => WeightsUpdate(p.workers, w, Running(p.tasks[0]));
      case TaskEnds(w) => WeightsUpdate(p.workers, w, Ready);
      case SpuriousWake(w) => WeightsUpdate(p.workers, w, Ready);
      case StopNotifies => WeightsAwake(p.workers);
      case StopReturns => StopReturnsWithAllDone(p);
      case _ =>
    }
  }

  lemma WakingIsAMove(p: Pool, w: nat)
    requires Enabled(p, NotifyOne(w))
    ensures Weights(Step(p, NotifyOne(w)).workers) + (if NoneAsleep(p) then 0 else 1) <= Weights(p.workers)
  {
    if !NoneAsleep(p) {
      WeightsUpdate(p.workers, w, Ready);
    }
  }

  /** The moves of workers in a run until the task begins. */
  function ServicesUntil(p: Pool, events: seq<Event>, task: nat): nat
    decreases |events|
  {
    if events == [] || task < |p.begun| then 0
    else (if Serves(p, events[0]) then 1 else 0) + ServicesUntil(Step(p, events[0]), events[1..], task)
  }

  /** In every run, posts and shutdown included, an accepted task begins after at most this many moves of workers. */
  lemma {:induction false} QueuedTaskBegins(p: Pool, events: seq<Event>, task: nat)
    requires Inv(p) && p.started && |p.begun| <= task < p.accepted
    ensures task < |Run(p, events).begun| || ServicesUntil(p, events, task) < WaitsFor(p, task)
    decreases |events|
  {
    if events != [] {
      var q := Step(p, events[0]);
      StepKeeps(p, events[0]);
      StepBringsCloser(p, events[0], task);
      if IsQueued(q, task) {
        QueuedTaskBegins(q, events[1..], task);
      } else {
        BegunStays(q, events[1..], task);
      }
    }
  }

  lemma {:induction false} BegunStays(p: Pool, events: seq<Event>, task: nat)
    requires task < |p.begun|
    ensures task < |Run(p, events).begun|
    decreases |events|
  {
    if events != [] {
      BegunStays(Step(p, events[0]), events[1..], task);
    }
  }

  // ---- the class ----

  class GateWorkerPool {
    var started: bool
    var stopping: bool
    var stopped: bool
    var tasks: seq<nat>
    var threads: seq<Worker>

    // The condition variable's pending notify_one calls, and the call of Stop in progress.
    var notices: nat
    var stop: Stop
    var accepted: nat

    ghost var size: nat
    ghost var begun: seq<nat>
    ghost var finished: set<nat>

    ghost function View(): Pool
      reads this
    {
      Pool(started, stopping, stopped, tasks, threads, notices, stop, size, accepted, begun, finished)
    }

    constructor ()
      ensures View() == FRESH
      ensures !started && !stopping && !stopped && tasks == [] && threads == [] && notices == accepted == 0
    {
      started, stopping, stopped, tasks, threads := false, false, false, [], [];
      notices, stop, accepted := 0, NoStop, 0;
      size, begun, finished := 0, [], {};
    }

    /** `counted` is what the system says about processors; a thread that fails to start takes the others down again. */
    method Start(requested: nat, counted: int, threadFails: bool) returns (ok: bool)
      modifies this
      ensures ok == (old(started) || (!old(stopped) && !threadFails))
      ensures var event := if threadFails then StartFails else StartSucceeds(ThreadCount(requested, counted));
              View() == Step(old(View()), event)
      ensures tasks == old(tasks)
      ensures if ok && !old(started)
              then started && |threads| == ThreadCount(requested, counted) &&
                   (forall w :: 0 <= w < |threads| ==> threads[w] == Ready) &&
                   stopping == old(stopping) && stopped == old(stopped)
              else started == old(started) && threads == old(threads)
      ensures !ok ==> stopped && (old(stopped) || stopping)
    {
      if started {
        return true;
      }
      if stopped {
        return false;
      }
      if threadFails {
        stopping := true;
        stopped := true;
        return false;
      }
      var count := ThreadCount(requested, counted);
      threads := seq(count, _ => Ready);
      size := count;
      started := true;
      return true;
    }

    method PushTask() returns (ok: bool)
      modifies this`tasks, this`accepted, this`notices
      ensures ok <==> started && !stopping
      ensures if ok
              then tasks == old(tasks) + [old(accepted)] && accepted == old(accepted) + 1 && notices == old(notices) + 1
              else tasks == old(tasks) && accepted == old(accepted) && notices == old(notices)
      ensures View() == Step(old(View()), Post)
    {
      if !started || stopping {
        return false;
      }
      tasks := tasks + [accepted];
      accepted := accepted + 1;
      notices := notices + 1;
      return true;
    }

    /** The notify_one that an accepted post owes; `w` is the sleeper it reaches, if any thread sleeps. */
    method Notify(w: nat)
      requires notices > 0
      requires if exists i :: 0 <= i < |threads| && threads[i].Asleep? then w < |threads| && threads[w].Asleep?
               else w == 0
      modifies this`notices, this`threads
      ensures notices == old(notices) - 1
      ensures if w < |old(threads)| && old(threads)[w].Asleep? then threads == old(threads)[w := Ready]
              else threads == old(threads)
      ensures View() == Step(old(View()), NotifyOne(w))
    {
      if w < |threads| && threads[w].Asleep? {
        threads := threads[w := Ready];
      }
      notices := notices - 1;
    }

    /** The condition variable lets a sleeping worker go without a notification. */
    method WakeSpuriously(w: nat)
      requires w < |threads| && threads[w].Asleep?
      modifies this`threads
      ensures threads == old(threads)[w := Ready]
      ensures View() == Step(old(View()), SpuriousWake(w))
    {
      threads := threads[w := Ready];
    }

    /** A worker has run its task, and comes back to the loop. */
    method FinishTask(w: nat)
      requires w < |threads| && threads[w].Running?
      modifies this`threads, this`finished
      ensures threads == old(threads)[w := Ready] && finished == old(finished) + {old(threads)[w].task}
      ensures View() == Step(old(View()), TaskEnds(w))
    {
      finished := finished + {threads[w].task};
      threads := threads[w := Ready];
    }

    /** One pass of a worker through the critical section of RunWorker. */
    method TakeOrWait(w: nat) returns (task: int)
      requires w < |threads| && threads[w].Ready?
      modifies this`tasks, this`threads, this`begun
      ensures if old(tasks) != []
              then task == old(tasks[0]) && tasks == old(tasks)[1..] && begun == old(begun) + [old(tasks[0])] &&
                   threads == old(threads)[w := Running(old(tasks[0]))]
              else task == -1 && tasks == [] && begun == old(begun) &&
                   threads == old(threads)[w := if stopping then Exited else Asleep]
      ensures View() == Step(old(View()), WorkerLooks(w))
    {
      if !stopping && tasks == [] {
        threads := threads[w := Asleep];
        return -1;
      }
      if tasks == [] {
        threads := threads[w := Exited];
        return -1;
      }
      task := tasks[0];
      threads := threads[w := Running(tasks[0])];
      begun := begun + [tasks[0]];
      tasks := tasks[1..];
    }

    /** The first critical section of Stop; only the first caller goes on to join. */
    method MarkStopped() returns (first: bool)
      modifies this`stopped, this`stopping, this`stop
      ensures first == !old(stopped) && stopped
      ensures if first then stopping && stop == Notifying else stopping == old(stopping) && stop == old(stop)
      ensures View() == Step(old(View()), StopMarks)
    {
      if stopped {
        return false;
      }
      stopped := true;
      stopping := true;
      stop := Notifying;
      return true;
    }

    method NotifyAll()
      requires stop.Notifying?
      modifies this`threads, this`stop
      ensures |threads| == |old(threads)| && stop == Joining(0)
      ensures forall w :: 0 <= w < |threads| ==>
                threads[w] == if old(threads)[w].Asleep? then Ready else old(threads)[w]
      ensures View() == Step(old(View()), StopNotifies)
    {
      threads := AllAwake(threads);
      stop := Joining(0);
    }

    method JoinNext()
      requires stop.Joining? && stop.next < |threads| && threads[stop.next].Exited?
      modifies this`stop
      ensures stop == Joining(old(stop).next + 1)
      ensures View() == Step(old(View()), StopJoins)
    {
      stop := Joining(stop.next + 1);
    }

    method ReturnFromStop()
      requires stop.Joining? && stop.next >= |threads|
      modifies this`threads, this`started, this`stop
      ensures threads == [] && !started && stop == Returned
      ensures View() == Step(old(View()), StopReturns)
    {
      threads := [];
      started := false;
      stop := Returned;
    }
  }
}
