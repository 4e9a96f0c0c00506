/** The Redis connection pool of VarifyServer/VarifyRedisMgr.cpp: who owns a connection, and when it is freed. */
module RedisPool {
  import opened Common

  type Conn = nat

  /**
   * Who holds the mutex, with what it has in hand. A `Dozing` call and the `Nodding` checker have found their condition
   * false and are about to wait; `Checking` remembers the queue it began with and the replies so far.
   */
  datatype Lock =
    | Free
    | Getting
    | Dozing
    | Nodding
    | Returning(conn: Conn, sawStop: bool)
    | Checking(before: seq<Conn>, alive: seq<bool>)
    | Draining

  /** Where the checker thread is. */
  datatype Checker = Absent | Looping | Waiting | Due | Working | Exited

  /** How far the call of Close that set the flag has come. */
  datatype Closing = Open | Marked | Notified | Joined | Closed

  /**
   * The pool between two atomic steps. `lookers` counts the calls of GetConnection about to test their
   * condition, `sleepers` those asleep on the condition variable. `freed` is history.
   */
  datatype Pool = Pool(
    ready: bool,
    stop: bool,
    idle: seq<Conn>,
    borrowed: multiset<Conn>,
    freed: seq<Conn>,
    lock: Lock,
    checker: Checker,
    closing: Closing,
    lookers: nat,
    sleepers: nat)

  datatype Event =
    | GetCalls
    | GetLooks
    | GetPops
    | GetSleeps
    | GetterStirs
    | ReturnLooks(conn: Conn)
    | ReturnActs(toChecker: bool)
    | CheckerLoops
    | CheckerSleeps
    | CheckerTimesOut
    | CheckBegins
    | CheckOne(alive: bool)
    | CheckEnds
    | CloseMarks
    | CloseNotifies
    | CloseJoins
    | CloseLocks
    | CloseFrees
    | CloseEnds

  predicate Enabled(p: Pool, e: Event) {
    match e
    case GetCalls => true
    case GetLooks => p.lock.Free? && p.lookers > 0
    case GetPops => p.lock.Getting? && p.idle != []
    case GetSleeps => p.lock.Dozing?
    case GetterStirs => p.sleepers > 0
    case ReturnLooks(c) => p.lock.Free? && c in p.borrowed
    case ReturnActs(_) => p.lock.Returning?
    case CheckerLoops => p.checker.Looping? && p.lock.Free?
    case CheckerSleeps => p.lock.Nodding?
    case CheckerTimesOut => p.checker.Waiting? && p.lock.Free?
    case CheckBegins => p.checker.Due? && p.lock.Free?
    case CheckOne(_) => p.lock.Checking? && |p.lock.alive| < |p.lock.before| && p.idle != []
    case CheckEnds => p.lock.Checking? && |p.lock.alive| == |p.lock.before|
    case CloseMarks => p.closing.Open?
    case CloseNotifies => p.closing.Marked?
    case CloseJoins => p.closing.Notified? && (p.checker.Exited? || p.checker.Absent?)
    case CloseLocks => p.closing.Joined? && p.lock.Free?
    case CloseFrees => p.lock.Draining? && p.idle != []
    case CloseEnds => p.lock.Draining? && p.idle == []
  }

  /** GetConnection under the mutex: nothing to give, sleep, or go on to take the front. */
  function Look(p: Pool): Pool
    requires p.lookers > 0
  {
    var q := p.(lookers := p.lookers - 1);
    if p.stop || !p.ready then q
    else if p.idle == [] then q.(lock := Dozing)
    else q.(lock := Getting)
  }

  /** Whether notify_one reaches the checker, which only tests the stop flag and goes back to wait. */
  predicate CheckerIsNotified(p: Pool, toChecker: bool) {
    p.checker.Waiting? && (toChecker || p.sleepers == 0)
  }

  function NotifyOne(p: Pool, toChecker: bool): (q: Pool)
    ensures q.idle == p.idle && q.borrowed == p.borrowed && q.freed == p.freed && q.lock == p.lock
  {
    if CheckerIsNotified(p, toChecker) then (if p.stop then p.(checker := Exited) else p)
    else if p.sleepers > 0 then p.(sleepers := p.sleepers - 1, lookers := p.lookers + 1)
    else p
  }

  /** ReturnConnection, after it has read the stop flag. */
  function Give(p: Pool, toChecker: bool): Pool
    requires p.lock.Returning?
  {
    var q := p.(lock := Free);
    if p.lock.sawStop then q.(freed := p.freed + [p.lock.conn])
    else NotifyOne(q.(idle := p.idle + [p.lock.conn]), toChecker)
  }

  function CheckFront(p: Pool, alive: bool): Pool
    requires p.lock.Checking? && p.idle != []
  {
    var front := [p.idle[0]];
    p.(lock := Checking(p.lock.before, p.lock.alive + [alive]),
       idle := p.idle[1..] + (if alive then front else []),
       freed := p.freed + (if alive then [] else front))
  }

  function Next(p: Pool, e: Event): Pool
    requires Enabled(p, e)
  {
    match e
    case GetCalls => p.(lookers := p.lookers + 1)
    case GetLooks => Look(p)
    case GetPops => p.(lock := Free, idle := p.idle[1..], borrowed := p.borrowed + multiset{p.idle[0]})
    case GetSleeps => p.(lock := Free, sleepers := p.sleepers + 1)
    case GetterStirs => p.(sleepers := p.sleepers - 1, lookers := p.lookers + 1)
    case ReturnLooks(c) => p.(lock := Returning(c, p.stop), borrowed := p.borrowed - multiset{c})
    case ReturnActs(toChecker) => Give(p, toChecker)
    case CheckerLoops => if p.stop then p.(checker := Exited) else p.(lock := Nodding)
    case CheckerSleeps => p.(lock := Free, checker := Waiting)
    case CheckerTimesOut => p.(checker := if p.stop then Exited else Due)
    case CheckBegins => p.(checker := Working, lock := Checking(p.idle, []))
    case CheckOne(alive) => CheckFront(p, alive)
    case CheckEnds => p.(checker := Looping, lock := Free)
    case CloseMarks => p.(stop := true, closing := Marked)
    case CloseNotifies =>
      p.(closing := Notified, sleepers := 0, lookers := p.lookers + p.sleepers,
         checker := if p.checker.Waiting? then Exited else p.checker)
    case CloseJoins => p.(closing := Joined)
    case CloseLocks => p.(lock := Draining)
    case CloseFrees => p.(idle := p.idle[1..], freed := p.freed + [p.idle[0]])
    case CloseEnds => p.(lock := Free, closing := Closed)
  }

  function Step(p: Pool, e: Event): Pool {
    if Enabled(p, e) then Next(p, e) else p
  }

  function Run(p: Pool, events: seq<Event>): Pool
    decreases |events|
  {
    if events == [] then p else Run(Step(p, events[0]), events[1..])
  }

  /** The pool that a constructor leaves behind. */
  predicate Fresh(p: Pool) {
    && !p.stop && p.borrowed == multiset{} && p.lock.Free? && p.closing.Open?
    && p.lookers == 0 && p.sleepers == 0
    && (if p.ready then p.checker.Looping? && p.idle != [] else p.checker.Absent?)
  }

  // ---- ownership ----

  function InHand(lock: Lock, c: Conn): nat {
    if lock.Returning? && lock.conn == c then 1 else 0
  }

  /** How often a connection is accounted for: as idle, borrowed, freed, or in the hands of a returning call. */
  function Owned(p: Pool, c: Conn): nat {
    multiset(p.idle)[c] + p.borrowed[c] + InHand(p.lock, c) + multiset(p.freed)[c]
  }

  lemma PopCounts(s: seq<Conn>, c: Conn)
    requires s != []
    ensures multiset(s)[c] == multiset(s[1..])[c] + (if s[0] == c then 1 else 0)
  {
    assert s == [s[0]] + s[1..];
  }

  lemma AppendCounts(s: seq<Conn>, d: Conn, c: Conn)
    ensures multiset(s + [d])[c] == multiset(s)[c] + (if d == c then 1 else 0)
  {
  }

  lemma CheckFrontKeepsOwned(p: Pool, alive: bool, c: Conn)
    requires p.lock.Checking? && p.idle != []
    ensures Owned(CheckFront(p, alive), c) == Owned(p, c)
  {
    PopCounts(p.idle, c);
    AppendCounts(p.idle[1..], p.idle[0], c);
    AppendCounts(p.freed, p.idle[0], c);
  }

  lemma GiveKeepsOwned(p: Pool, toChecker: bool, c: Conn)
    requires p.lock.Returning?
    ensures Owned(Give(p, toChecker), c) == Owned(p, c)
  {
    var q, d := Give(p, toChecker), p.lock.conn;
    if p.lock.sawStop {
      AppendCounts(p.freed, d, c);
      assert q.idle == p.idle && q.borrowed == p.borrowed && q.freed == p.freed + [d] && q.lock == Free;
    } else {
      AppendCounts(p.idle, d, c);
      assert q.idle == p.idle + [d] && q.borrowed == p.borrowed && q.freed == p.freed && q.lock == Free;
    }
  }

  lemma TakingKeepsOwned(p: Pool, e: Event, c: Conn)
    requires Enabled(p, e) && (e.GetPops? || e.CloseFrees?)
    ensures Owned(Step(p, e), c) == Owned(p, c)
  {
    PopCounts(p.idle, c);
    AppendCounts(p.freed, p.idle[0], c);
  }

  /** No step makes, drops or duplicates a connection. */
  lemma StepKeepsOwned(p: Pool, e: Event, c: Conn)
    ensures Owned(Step(p, e), c) == Owned(p, c)
  {
    if Enabled(p, e) {
      match e
      case CheckOne(alive) => CheckFrontKeepsOwned(p, alive, c);
      case ReturnActs(toChecker) => GiveKeepsOwned(p, toChecker, c);
      case GetPops => TakingKeepsOwned(p, e, c);
      case CloseFrees => TakingKeepsOwned(p, e, c);
      case _ =>
    }
  }

  /** In every run a connection of the pool stays in exactly one place. */
  lemma {:induction false} RunKeepsOwned(p: Pool, events: seq<Event>, c: Conn)
    ensures Owned(Run(p, events), c) == Owned(p, c)
    decreases |events|
  {
    if events != [] {
      StepKeepsOwned(p, events[0], c);
      RunKeepsOwned(Step(p, events[0]), events[1..], c);
    }
  }

  // ---- the stop protocol ----

  ghost predicate Flags(p: Pool) {
    && (p.stop <==> !p.closing.Open?)
    && (p.closing.Joined? || p.closing.Closed? ==> p.checker.Exited? || p.checker.Absent?)
    && (p.checker.Working? <==> p.lock.Checking?)
    && (p.checker.Absent? ==> !p.ready)
    && (p.lock.Draining? ==> p.closing.Joined?)
    && (p.lock.Getting? ==> p.idle != [] && p.ready)
    && (p.lock.Dozing? ==> p.idle == [] && p.ready)
    && (p.lock.Nodding? ==> p.checker.Looping?)
    && (p.lock.Returning? && p.lock.sawStop ==> p.stop)
    && (p.closing.Closed? ==> p.idle == [] && !p.lock.Getting? && !(p.lock.Returning? && !p.lock.sawStop))
    && (!p.ready ==> p.sleepers == 0)
  }

  predicate IsClosing(e: Event) {
    e.CloseMarks? || e.CloseNotifies? || e.CloseJoins? || e.CloseLocks? || e.CloseFrees? || e.CloseEnds?
  }

  lemma ClosingKeepsFlags(p: Pool, e: Event)
    requires Flags(p) && IsClosing(e)
    ensures Flags(Step(p, e))
  {
  }

  lemma StepKeepsFlags(p: Pool, e: Event)
    requires Flags(p)
    ensures Flags(Step(p, e))
  {
    if IsClosing(e) {
      ClosingKeepsFlags(p, e);
    }
  }

  // ---- the rotation of the checker ----

  /** The connections that answered, in order. */
  function Live(conns: seq<Conn>, alive: seq<bool>): seq<Conn>
    requires |alive| <= |conns|
  {
    if alive == [] then []
    else
      var n := |alive| - 1;
      Live(conns, alive[..n]) + (if alive[n] then [conns[n]] else [])
  }

  /** While the checker works, the queue is what it has not seen yet, and then what answered. */
  predicate Rotating(p: Pool) {
    p.lock.Checking? ==>
      && |p.lock.alive| <= |p.lock.before|
      && p.idle == p.lock.before[|p.lock.alive|..] + Live(p.lock.before, p.lock.alive)
  }

  lemma CheckFrontRotates(p: Pool, alive: bool)
    requires Rotating(p) && p.lock.Checking? && |p.lock.alive| < |p.lock.before| && p.idle != []
    ensures Rotating(CheckFront(p, alive))
  {
    var before, seen := p.lock.before, p.lock.alive;
    var n, live := |seen|, Live(before, seen);
    assert (seen + [alive])[..n] == seen;
    assert before[n..] == [before[n]] + before[n + 1..];
    assert p.idle[1..] == before[n + 1..] + live;
    if alive {
      assert before[n + 1..] + live + [before[n]] == before[n + 1..] + (live + [before[n]]);
    }
  }

  lemma StepKeepsRotating(p: Pool, e: Event)
    requires Flags(p) && Rotating(p)
    ensures Rotating(Step(p, e))
  {
    if Enabled(p, e) {
      if e.CheckOne? {
        CheckFrontRotates(p, e.alive);
      } else if e.CheckBegins? {
        assert p.idle[0..] + Live(p.idle, []) == p.idle;
      }
    }
  }

  ghost predicate Inv(p: Pool) {
    Flags(p) && Rotating(p)
  }

  lemma {:induction false} RunKeeps(p: Pool, events: seq<Event>)
    requires Inv(p)
    ensures Inv(Run(p, events))
    decreases |events|
  {
    if events != [] {
      StepKeepsFlags(p, events[0]);
      StepKeepsRotating(p, events[0]);
      RunKeeps(Step(p, events[0]), events[1..]);
    }
  }

  lemma FreshInv(p: Pool)
    requires Fresh(p)
    ensures Inv(p)
  {
  }

  /** Whatever runs between its steps, a finished check leaves the connections that answered, in their old order. */
  lemma CheckKeepsLiveOnes(p: Pool, events: seq<Event>)
    requires Fresh(p) && Enabled(Run(p, events), CheckEnds)
    ensures var q := Run(p, events);
            Step(q, CheckEnds).idle == Live(q.lock.before, q.lock.alive)
  {
    FreshInv(p);
    RunKeeps(p, events);
    var q := Run(p, events);
    assert q.lock.before[|q.lock.alive|..] == [];
  }

  /** Once Close has returned and every borrower its connection, each connection has been freed exactly once. */
  lemma ClosedPoolFreesAll(p: Pool, events: seq<Event>, c: Conn)
    requires Fresh(p) && Run(p, events).closing.Closed?
    requires Run(p, events).borrowed == multiset{} && Run(p, events).lock.Free?
    ensures multiset(Run(p, events).freed)[c] == multiset(p.idle)[c] + multiset(p.freed)[c]
  {
    FreshInv(p);
    RunKeeps(p, events);
    RunKeepsOwned(p, events, c);
  }

  /** What a call that passed its test before the flag was set may still take. */
  function LastTaken(p: Pool): multiset<Conn> {
    if p.lock.Getting? && p.idle != [] then multiset{p.idle[0]} else multiset{}
  }

  /** What a return that read the flag before it was set may still put back. */
  function LastReturned(p: Pool): nat {
    if p.lock.Returning? && !p.lock.sawStop then 1 else 0
  }

  lemma StoppedStepGivesNothing(p: Pool, e: Event)
    requires Flags(p) && p.stop
    ensures var q := Step(p, e);
            && q.stop && q.borrowed + LastTaken(q) <= p.borrowed + LastTaken(p)
            && |q.idle| + LastReturned(q) <= |p.idle| + LastReturned(p)
  {
    if e.GetPops? {
    } else if e.ReturnLooks? {
    } else if Enabled(p, e) {
      OthersLendNothing(p, e);
    }
  }

  lemma OthersLendNothing(p: Pool, e: Event)
    requires Flags(p) && p.stop && Enabled(p, e) && !e.GetPops? && !e.ReturnLooks?
    ensures var q := Next(p, e);
            q.stop && q.borrowed == p.borrowed && LastTaken(q) <= LastTaken(p) &&
            |q.idle| + LastReturned(q) <= |p.idle| + LastReturned(p)
  {
  }

  /**
   * After the flag is set no call is given a connection and no return keeps one in the pool, with one exception
   * each: a call or a return that had read the flag before, and then holds the mutex.
   */
  lemma {:induction false} StoppedPoolGivesNothing(p: Pool, events: seq<Event>)
    requires Flags(p) && p.stop
    ensures Run(p, events).borrowed <= p.borrowed + LastTaken(p)
    ensures |Run(p, events).idle| <= |p.idle| + LastReturned(p)
    decreases |events|
  {
    if events != [] {
      StoppedStepGivesNothing(p, events[0]);
      StepKeepsFlags(p, events[0]);
      StoppedPoolGivesNothing(Step(p, events[0]), events[1..]);
    }
  }

  // ---- waiting calls ----

  /** A call only sleeps while every idle connection has an awake call to take it. */
  predicate Served(p: Pool) {
    p.sleepers > 0 && !p.stop ==> |p.idle| <= p.lookers + (if p.lock.Getting? then 1 else 0)
  }

  /** notify_one wakes the checker although a call sleeps, and no awake call is left over for the connection. */
  predicate Forgets(p: Pool, e: Event) {
    && e.ReturnActs? && p.lock.Returning? && !p.lock.sawStop && !p.stop
    && p.sleepers > 0 && CheckerIsNotified(p, e.toChecker)
    && |p.idle| + 1 > p.lookers
  }

  /** Exactly one kind of step leaves a sleeping call behind. */
  lemma StepServes(p: Pool, e: Event)
    requires Flags(p) && Served(p)
    ensures Served(Step(p, e)) <==> !Forgets(p, e)
  {
  }

  /** No step of the run leaves a sleeping call behind. */
  predicate NeverForgets(p: Pool, events: seq<Event>)
    decreases |events|
  {
    events == [] || (!Forgets(p, events[0]) && NeverForgets(Step(p, events[0]), events[1..]))
  }

  /** A new pool leaves no call behind. */
  lemma FreshIsServed(p: Pool)
    requires Fresh(p)
    ensures Flags(p) && Served(p) && AllNotified(p)
  {
  }

  /** All along the run, from its first state to its last. */
  ghost predicate Always(good: Pool -> bool, p: Pool, events: seq<Event>) {
    forall n :: 0 <= n <= |events| ==> good(Run(p, events[..n]))
  }

  lemma RunOfPrefix(p: Pool, events: seq<Event>, n: nat)
    requires 0 < n <= |events|
    ensures Run(p, events[..n]) == Run(Step(p, events[0]), events[1..][..n - 1])
  {
    assert events[..n][1..] == events[1..][..n - 1];
  }

  lemma AlwaysUnfolds(good: Pool -> bool, p: Pool, events: seq<Event>)
    requires events != []
    ensures Always(good, p, events) <==> good(p) && Always(good, Step(p, events[0]), events[1..])
  {
    if Always(good, p, events) {
      AlwaysLater(good, p, events);
    }
    if good(p) && Always(good, Step(p, events[0]), events[1..]) {
      AlwaysBefore(good, p, events);
    }
  }

  lemma AlwaysLater(good: Pool -> bool, p: Pool, events: seq<Event>)
    requires events != [] && Always(good, p, events)
    ensures good(p) && Always(good, Step(p, events[0]), events[1..])
  {
    var q, rest := Step(p, events[0]), events[1..];
    assert Run(p, events[..0]) == p;
    forall n | 0 <= n <= |rest| ensures good(Run(q, rest[..n])) {
      RunOfPrefix(p, events, n + 1);
      assert good(Run(p, events[..n + 1]));
    }
  }

  lemma AlwaysBefore(good: Pool -> bool, p: Pool, events: seq<Event>)
    requires events != [] && good(p) && Always(good, Step(p, events[0]), events[1..])
    ensures Always(good, p, events)
  {
    var q, rest := Step(p, events[0]), events[1..];
    assert Run(p, events[..0]) == p;
    forall n | 0 <= n <= |events| ensures good(Run(p, events[..n])) {
      if n > 0 {
        RunOfPrefix(p, events, n);
        assert good(Run(q, rest[..n - 1]));
      }
    }
  }

  /** A run without such a step is exactly one that never has a call asleep and a connection nobody will take. */
  lemma {:induction false} RunServes(p: Pool, events: seq<Event>)
    requires Flags(p) && Served(p)
    ensures Always(Served, p, events) <==> NeverForgets(p, events)
    decreases |events|
  {
    if events == [] {
      assert Run(p, events[..0]) == p;
    } else {
      var q := Step(p, events[0]);
      StepServes(p, events[0]);
      StepKeepsFlags(p, events[0]);
      AlwaysUnfolds(Served, p, events);
      assert Always(Served, q, events[1..]) ==> Served(q) by {
        assert Run(q, events[1..][..0]) == q;
      }
      if Served(q) {
        RunServes(q, events[1..]);
      }
    }
  }

  lemma {:induction false} RunAppends(p: Pool, before: seq<Event>, after: seq<Event>)
    ensures Run(p, before + after) == Run(Run(p, before), after)
    decreases |before|
  {
    if before == [] {
      assert before + after == after;
    } else {
      assert (before + after)[1..] == before[1..] + after;
      RunAppends(Step(p, before[0]), before[1..], after);
    }
  }

  lemma RunOfOne(p: Pool, a: Event)
    ensures Run(p, [a]) == Step(p, a)
  {
    assert [a][1..] == [];
  }

  lemma RunOfThree(p: Pool, a: Event, b: Event, c: Event)
    ensures Run(p, [a, b, c]) == Step(Step(Step(p, a), b), c)
  {
    RunOfOne(p, a);
    RunOfOne(Step(p, a), b);
    RunOfOne(Step(Step(p, a), b), c);
    RunAppends(Step(p, a), [b], [c]);
    RunAppends(p, [a], [b] + [c]);
    assert [a] + ([b] + [c]) == [a, b, c];
  }

  /** A pool with one connection, right after its construction. */
  function Single(c: Conn): (p: Pool)
    ensures Fresh(p)
  {
    Pool(true, false, [c], multiset{}, [], Free, Looping, Open, 0, 0)
  }

  const TAKE := [GetCalls, GetLooks, GetPops]

  lemma TakeSingle(c: Conn)
    ensures Run(Single(c), TAKE) == Single(c).(idle := [], borrowed := multiset{c})
  {
    RunOfThree(Single(c), GetCalls, GetLooks, GetPops);
  }

  const SLEEP := [GetCalls, GetLooks, GetSleeps]

  /** A second call goes to sleep. */
  lemma SecondCallSleeps(c: Conn)
    ensures Run(Single(c), TAKE + SLEEP) == Single(c).(idle := [], borrowed := multiset{c}, sleepers := 1)
  {
    TakeSingle(c);
    RunOfThree(Single(c).(idle := [], borrowed := multiset{c}), GetCalls, GetLooks, GetSleeps);
    RunAppends(Single(c), TAKE, SLEEP);
  }

  /** A run in which the checker takes the notification: the returned connection stays idle, and the call asleep. */
  lemma WakeupCanBeLost(c: Conn)
    ensures var events := TAKE + SLEEP + [CheckerLoops, CheckerSleeps, ReturnLooks(c)];
            Step(Run(Single(c), events), ReturnActs(true)) == Single(c).(sleepers := 1, checker := Waiting)
  {
    var r := Single(c).(idle := [], borrowed := multiset{c}, sleepers := 1);
    SecondCallSleeps(c);
    RunOfThree(r, CheckerLoops, CheckerSleeps, ReturnLooks(c));
    RunAppends(Single(c), TAKE + SLEEP, [CheckerLoops, CheckerSleeps, ReturnLooks(c)]);
  }

  /** Once Close has notified, no call sleeps or is about to. */
  predicate AllNotified(p: Pool) {
    !p.closing.Open? && !p.closing.Marked? ==> p.sleepers == 0 && !p.lock.Dozing?
  }

  /** Close reaches every call, except one that has tested the flag before it was set and has not begun to wait. */
  lemma CloseReachesAll(p: Pool, e: Event)
    requires Flags(p) && AllNotified(p)
    ensures AllNotified(Step(p, e)) <==> !(e.CloseNotifies? && p.closing.Marked? && p.lock.Dozing?)
  {
  }

  /** No notification of Close finds a call in that gap. */
  predicate NeverInBetween(p: Pool, events: seq<Event>)
    decreases |events|
  {
    events == [] ||
    (!(events[0].CloseNotifies? && p.closing.Marked? && p.lock.Dozing?) &&
     NeverInBetween(Step(p, events[0]), events[1..]))
  }

  /** A run without that coincidence is exactly one in which no call ever sleeps after Close has notified. */
  lemma {:induction false} RunReachesAll(p: Pool, events: seq<Event>)
    requires Flags(p) && AllNotified(p)
    ensures Always(AllNotified, p, events) <==> NeverInBetween(p, events)
    decreases |events|
  {
    if events == [] {
      assert Run(p, events[..0]) == p;
    } else {
      var q := Step(p, events[0]);
      CloseReachesAll(p, events[0]);
      StepKeepsFlags(p, events[0]);
      AlwaysUnfolds(AllNotified, p, events);
      assert Always(AllNotified, q, events[1..]) ==> AllNotified(q) by {
        assert Run(q, events[1..][..0]) == q;
      }
      if AllNotified(q) {
        RunReachesAll(q, events[1..]);
      }
    }
  }

  const MARK := [GetCalls, GetLooks, CloseMarks]

  /** Close sets its flag between a second call's test and its wait. */
  lemma CloseMarksInBetween(c: Conn)
    ensures Run(Single(c), TAKE + MARK)
         == Single(c).(idle := [], borrowed := multiset{c}, lock := Dozing, stop := true, closing := Marked)
  {
    TakeSingle(c);
    RunOfThree(Single(c).(idle := [], borrowed := multiset{c}), GetCalls, GetLooks, CloseMarks);
    RunAppends(Single(c), TAKE, MARK);
  }

  /** A run in which Close then notifies before the wait begins: the call is left asleep on a stopped pool. */
  lemma CloseCanStrandACall(c: Conn)
    ensures var q := Run(Single(c), TAKE + MARK + [CloseNotifies, GetSleeps, CheckerLoops]);
            q.sleepers == 1 && q.stop && q.closing.Notified? && q.lookers == 0 && q.checker.Exited?
  {
    CloseMarksInBetween(c);
    RunOfThree(Run(Single(c), TAKE + MARK), CloseNotifies, GetSleeps, CheckerLoops);
    RunAppends(Single(c), TAKE + MARK, [CloseNotifies, GetSleeps, CheckerLoops]);
  }

  // ---- closing ends ----

  function LockWork(lock: Lock): int {
    match lock
    case Free => 0
    case Getting => 5
    case Dozing => 3
    case Nodding => 1
    case Returning(_, _) => 3
    case Checking(before, alive) => |before| - |alive| + 1
    case Draining => -1
  }

  function CheckerWork(p: Pool): int {
    match p.checker
    case Exited => 0
    case Absent => 0
    case Due => |p.idle| + 3
    case _ => 1
  }

  function ClosingWork(closing: Closing): int {
    match closing
    case Open => 5
    case Marked => 4
    case Notified => 3
    case Joined => 2
    case Closed => 0
  }

  function Work(p: Pool): int {
    |p.idle| + 4 * |p.borrowed| + p.lookers + 2 * p.sleepers +
    LockWork(p.lock) + CheckerWork(p) + ClosingWork(p.closing)
  }

  lemma WorkIsPositive(p: Pool)
    requires Inv(p)
    ensures Work(p) >= 0
  {
  }

  /** Once Close has set the flag, every step but a new call uses work up. */
  lemma ClosingStepUsesWork(p: Pool, e: Event)
    requires Inv(p) && p.stop && Enabled(p, e) && !e.GetCalls?
    ensures Work(Step(p, e)) < Work(p)
  {
    if e.ReturnActs? {
      GivingUsesWork(p, e.toChecker);
    } else if IsClosing(e) {
      CloseStepUsesWork(p, e);
    }
  }

  lemma CloseStepUsesWork(p: Pool, e: Event)
    requires Inv(p) && p.stop && Enabled(p, e) && IsClosing(e)
    ensures Work(Step(p, e)) < Work(p)
  {
  }

  lemma GivingUsesWork(p: Pool, toChecker: bool)
    requires p.stop && p.lock.Returning?
    ensures Work(Give(p, toChecker)) < Work(p)
  {
  }

  /** And until Close has returned, some such step is possible. */
  lemma ClosingGoesOn(p: Pool)
    requires Inv(p) && p.stop && !p.closing.Closed?
    ensures exists e :: Enabled(p, e) && !e.GetCalls? && !e.GetLooks? && !e.ReturnLooks? && !e.GetterStirs?
  {
    match p.lock
    case Free => FreeLockClosingGoesOn(p);
    case Getting => assert Enabled(p, GetPops);
    case Dozing => assert Enabled(p, GetSleeps);
    case Nodding => assert Enabled(p, CheckerSleeps);
    case Returning(_, _) => assert Enabled(p, ReturnActs(true));
    case Checking(before, alive) => assert Enabled(p, CheckOne(true)) || Enabled(p, CheckEnds);
    case Draining => assert Enabled(p, CloseFrees) || Enabled(p, CloseEnds);
  }

  lemma FreeLockClosingGoesOn(p: Pool)
    requires Flags(p) && p.stop && !p.closing.Closed? && p.lock.Free?
    ensures exists e :: Enabled(p, e) && !e.GetCalls? && !e.GetLooks? && !e.ReturnLooks? && !e.GetterStirs?
  {
    if p.closing.Marked? {
      assert Enabled(p, CloseNotifies);
    } else if p.closing.Joined? {
      assert Enabled(p, CloseLocks);
    } else {
      assert Enabled(p, CloseJoins) || Enabled(p, CheckerLoops) ||
             Enabled(p, CheckerTimesOut) || Enabled(p, CheckBegins);
    }
  }

  /** Steps that are possible, none of them a new call. */
  predicate NoNewCalls(p: Pool, events: seq<Event>)
    decreases |events|
  {
    events == [] ||
    (Enabled(p, events[0]) && !events[0].GetCalls? && NoNewCalls(Step(p, events[0]), events[1..]))
  }

  /** So, new calls aside, closing is over within as many steps as there is work when the flag is set. */
  lemma {:induction false} ClosingIsShort(p: Pool, events: seq<Event>)
    requires Inv(p) && p.stop && NoNewCalls(p, events)
    ensures |events| <= Work(p)
    decreases |events|
  {
    WorkIsPositive(p);
    if events != [] {
      ClosingStepUsesWork(p, events[0]);
      StepKeepsFlags(p, events[0]);
      StepKeepsRotating(p, events[0]);
      ClosingIsShort(Step(p, events[0]), events[1..]);
    }
  }

  // ---- the loops, without interference: each holds the mutex, or runs before the pool is shared ----

  /** The connections that did not answer, in order. */
  function Dead(conns: seq<Conn>, alive: seq<bool>): seq<Conn>
    requires |alive| <= |conns|
  {
    if alive == [] then []
    else
      var n := |alive| - 1;
      Dead(conns, alive[..n]) + (if alive[n] then [] else [conns[n]])
  }

  /** The replies one by one. */
  lemma {:induction false} FirstChecked(conns: seq<Conn>, alive: seq<bool>)
    requires 0 < |alive| <= |conns|
    ensures Live(conns, []) == [] && Dead(conns, []) == []
    ensures Live(conns, alive) == (if alive[0] then [conns[0]] else []) + Live(conns[1..], alive[1..])
    ensures Dead(conns, alive) == (if alive[0] then [] else [conns[0]]) + Dead(conns[1..], alive[1..])
  {
    var n := |alive| - 1;
    if n > 0 {
      FirstChecked(conns, alive[..n]);
      assert alive[..n][1..] == alive[1..][..n - 1] && conns[1..][n - 1] == conns[n];
    }
  }

  function CheckEvents(alive: seq<bool>): seq<Event> {
    seq(|alive|, i requires 0 <= i < |alive| => CheckOne(alive[i]))
  }

  /** The state when the first replies of a check are in. */
  function CheckedSoFar(p: Pool, alive: seq<bool>): Pool
    requires |alive| <= |p.idle|
  {
    p.(lock := Checking(p.idle, alive),
       idle := p.idle[|alive|..] + Live(p.idle, alive), freed := p.freed + Dead(p.idle, alive))
  }

  lemma {:induction false} ChecksSoFar(p: Pool, alive: seq<bool>)
    requires p.lock == Checking(p.idle, []) && |alive| <= |p.idle|
    ensures Run(p, CheckEvents(alive)) == CheckedSoFar(p, alive)
  {
    if alive == [] {
      assert p.idle[0..] + [] == p.idle && p.freed + [] == p.freed;
    } else {
      var front, last := alive[..|alive| - 1], alive[|alive| - 1];
      ChecksSoFar(p, front);
      RunAppends(p, CheckEvents(front), [CheckOne(last)]);
      RunOfOne(CheckedSoFar(p, front), CheckOne(last));
      assert CheckEvents(alive) == CheckEvents(front) + [CheckOne(last)];
      CheckedOneMore(p, alive);
    }
  }

  lemma CheckedOneMore(p: Pool, alive: seq<bool>)
    requires 0 < |alive| <= |p.idle|
    ensures Step(CheckedSoFar(p, alive[..|alive| - 1]), CheckOne(alive[|alive| - 1])) == CheckedSoFar(p, alive)
  {
    var n := |alive| - 1;
    CheckNext(CheckedSoFar(p, alive[..n]), p.idle, p.freed, alive, n);
  }

  /** One connection of a check: what becomes of the queue. */
  lemma QueueAfterOne(conns: seq<Conn>, alive: seq<bool>, n: nat)
    requires n + 1 == |alive| <= |conns|
    ensures var idle := conns[n..] + Live(conns, alive[..n]);
            && idle != [] && idle[0] == conns[n]
            && idle[1..] + (if alive[n] then [conns[n]] else []) == conns[n + 1..] + Live(conns, alive)
  {
    PopOfSum(conns[n..], Live(conns, alive[..n]));
    assert conns[n..][1..] == conns[n + 1..];
    AssocConns(conns[n + 1..], Live(conns, alive[..n]), if alive[n] then [conns[n]] else []);
  }

  lemma PopOfSum(a: seq<Conn>, b: seq<Conn>)
    requires a != []
    ensures (a + b)[0] == a[0] && (a + b)[1..] == a[1..] + b
  {
  }

  lemma AssocConns(a: seq<Conn>, b: seq<Conn>, c: seq<Conn>)
    ensures a + b + c == a + (b + c)
  {
  }

  /** And what is freed. */
  lemma FreedAfterOne(conns: seq<Conn>, alive: seq<bool>, n: nat, freed: seq<Conn>)
    requires n + 1 == |alive| <= |conns|
    ensures freed + Dead(conns, alive[..n]) + (if alive[n] then [] else [conns[n]]) == freed + Dead(conns, alive)
  {
  }

  lemma CheckNext(q: Pool, conns: seq<Conn>, freed: seq<Conn>, alive: seq<bool>, n: nat)
    requires n + 1 == |alive| <= |conns| && q.lock == Checking(conns, alive[..n])
    requires q.idle == conns[n..] + Live(conns, alive[..n]) && q.freed == freed + Dead(conns, alive[..n])
    ensures Enabled(q, CheckOne(alive[n]))
    ensures CheckFront(q, alive[n]) == q.(lock := Checking(conns, alive),
      idle := conns[n + 1..] + Live(conns, alive), freed := freed + Dead(conns, alive))
  {
    QueueAfterOne(conns, alive, n);
    FreedAfterOne(conns, alive, n, freed);
    assert alive[..n] + [alive[n]] == alive;
  }

  /** What redisConnect and AUTH give: no context, a context in error, one whose password is refused, or one to use. */
  datatype Attempt = NoContext | InError(conn: Conn) | Refused(conn: Conn) | Usable(conn: Conn)

  function UsableOnes(attempts: seq<Attempt>): seq<Conn> {
    if attempts == [] then []
    else
      var a := attempts[|attempts| - 1];
      UsableOnes(attempts[..|attempts| - 1]) + (if a.Usable? then [a.conn] else [])
  }

  function Rejected(attempts: seq<Attempt>): seq<Conn> {
    if attempts == [] then []
    else
      var a := attempts[|attempts| - 1];
      Rejected(attempts[..|attempts| - 1]) + (if a.InError? || a.Refused? then [a.conn] else [])
  }

  /** Every context that an attempt opened is pooled if it is usable, and else freed, as often as it was opened. */
  lemma {:induction false} ContextsArePooledOrFreed(attempts: seq<Attempt>, c: Conn)
    ensures multiset(UsableOnes(attempts))[c] == multiset(attempts)[Usable(c)]
    ensures multiset(Rejected(attempts))[c] == multiset(attempts)[InError(c)] + multiset(attempts)[Refused(c)]
  {
    if attempts != [] {
      var front, last := attempts[..|attempts| - 1], attempts[|attempts| - 1];
      ContextsArePooledOrFreed(front, c);
      assert attempts == front + [last];
      AttemptCounts(front, last, c);
      UsableCounts(front, last, c);
      RejectedCounts(front, last, c);
    }
  }

  lemma UsableCounts(front: seq<Attempt>, last: Attempt, c: Conn)
    ensures multiset(UsableOnes(front + [last]))[c] ==
            multiset(UsableOnes(front))[c] + (if last == Usable(c) then 1 else 0)
  {
    assert (front + [last])[..|front|] == front;
  }

  lemma RejectedCounts(front: seq<Attempt>, last: Attempt, c: Conn)
    ensures multiset(Rejected(front + [last]))[c] ==
            multiset(Rejected(front))[c] + (if last == InError(c) || last == Refused(c) then 1 else 0)
  {
    assert (front + [last])[..|front|] == front;
  }

  lemma AttemptCounts(front: seq<Attempt>, last: Attempt, c: Conn)
    ensures var all := multiset(front + [last]);
            && all[Usable(c)] == multiset(front)[Usable(c)] + (if last == Usable(c) then 1 else 0)
            && all[InError(c)] == multiset(front)[InError(c)] + (if last == InError(c) then 1 else 0)
            && all[Refused(c)] == multiset(front)[Refused(c)] + (if last == Refused(c) then 1 else 0)
  {
  }

  ghost predicate PooledOrFreed(attempts: seq<Attempt>, pooled: seq<Conn>, freed: seq<Conn>) {
    forall c: Conn ::
      && multiset(pooled)[c] == multiset(attempts)[Usable(c)]
      && multiset(freed)[c] == multiset(attempts)[InError(c)] + multiset(attempts)[Refused(c)]
  }

  lemma AllArePooledOrFreed(attempts: seq<Attempt>)
    ensures PooledOrFreed(attempts, UsableOnes(attempts), Rejected(attempts))
  {
    forall c: Conn
      ensures multiset(UsableOnes(attempts))[c] == multiset(attempts)[Usable(c)]
      ensures multiset(Rejected(attempts))[c] == multiset(attempts)[InError(c)] + multiset(attempts)[Refused(c)]
    {
      ContextsArePooledOrFreed(attempts, c);
    }
  }

  /** One pass of GetConnection under the mutex, nothing else happening in between. */
  function GetTurn(p: Pool): Pool {
    var q := Step(p, GetLooks);
    match q.lock
    case Getting => Step(q, GetPops)
    case Dozing => Step(q, GetSleeps)
    case _ => q
  }

  /** One pass of the checker's loop up to its wait. */
  function CheckerTurn(p: Pool): Pool {
    var q := Step(p, CheckerLoops);
    if q.lock.Nodding? then Step(q, CheckerSleeps) else q
  }

  function ReturnTurn(p: Pool, conn: Conn, toChecker: bool): Pool {
    Step(Step(p, ReturnLooks(conn)), ReturnActs(toChecker))
  }

  lemma ReturnTurnEnds(p: Pool, conn: Conn, toChecker: bool)
    requires p.lock.Free? && conn in p.borrowed
    ensures var q := p.(borrowed := p.borrowed - multiset{conn});
            ReturnTurn(p, conn, toChecker) == if p.stop then q.(freed := p.freed + [conn])
                                              else NotifyOne(q.(idle := p.idle + [conn]), toChecker)
  {
    var q := p.(borrowed := p.borrowed - multiset{conn});
    assert Step(p, ReturnLooks(conn)) == q.(lock := Returning(conn, p.stop));
  }

  lemma GetTurnTakes(p: Pool)
    requires p.lock.Free? && p.lookers > 0 && !p.stop && p.ready && p.idle != []
    ensures GetTurn(p) ==
            p.(lookers := p.lookers - 1, idle := p.idle[1..], borrowed := p.borrowed + multiset{p.idle[0]})
  {
  }

  function CheckTurn(p: Pool, pings: seq<bool>): Pool {
    Step(Run(Step(p, CheckBegins), CheckEvents(pings)), CheckEnds)
  }

  lemma CheckTurnEnds(p: Pool, pings: seq<bool>)
    requires p.lock.Free? && p.checker.Due? && |pings| == |p.idle|
    ensures CheckTurn(p, pings)
         == p.(checker := Looping, idle := p.idle[|pings|..] + Live(p.idle, pings),
               freed := p.freed + Dead(p.idle, pings))
  {
    CheckRuns(p, pings);
    CheckStops(CheckedSoFar(CheckBegun(p), pings));
  }

  function CheckBegun(p: Pool): Pool {
    p.(checker := Working, lock := Checking(p.idle, []))
  }

  lemma CheckRuns(p: Pool, pings: seq<bool>)
    requires p.lock.Free? && p.checker.Due? && |pings| <= |p.idle|
    ensures CheckTurn(p, pings) == Step(CheckedSoFar(CheckBegun(p), pings), CheckEnds)
  {
    assert Step(p, CheckBegins) == CheckBegun(p);
    ChecksSoFar(CheckBegun(p), pings);
  }

  lemma CheckStops(p: Pool)
    requires p.lock.Checking? && |p.lock.alive| == |p.lock.before|
    ensures Step(p, CheckEnds) == p.(checker := Looping, lock := Free)
  {
  }

  function FreeEvents(n: nat): seq<Event> {
    seq(n, _ => CloseFrees)
  }

  function DrainTurn(p: Pool): Pool {
    Step(Run(Step(p, CloseLocks), FreeEvents(|p.idle|)), CloseEnds)
  }

  lemma {:induction false} FreesAll(p: Pool)
    requires p.lock.Draining?
    ensures Run(p, FreeEvents(|p.idle|)) == p.(idle := [], freed := p.freed + p.idle)
    decreases |p.idle|
  {
    if p.idle == [] {
      assert p.freed + [] == p.freed;
    } else {
      var q := Step(p, CloseFrees);
      assert FreeEvents(|p.idle|)[1..] == FreeEvents(|q.idle|);
      FreesAll(q);
      assert p.idle == [p.idle[0]] + q.idle;
      AssocConns(p.freed, [p.idle[0]], q.idle);
    }
  }

  lemma DrainEnds(p: Pool)
    requires p.closing.Joined? && p.lock.Free?
    ensures DrainTurn(p) == p.(idle := [], freed := p.freed + p.idle, closing := Closed)
  {
    FreesAll(Step(p, CloseLocks));
  }

  lemma CloseBegins(p: Pool)
    requires p.closing.Open?
    ensures Step(Step(p, CloseMarks), CloseNotifies)
         == p.(stop := true, closing := Notified, lookers := p.lookers + p.sleepers, sleepers := 0,
               checker := if p.checker.Waiting? then Exited else p.checker)
  {
  }

  class VarifyRedisConPool {
    var connections: seq<Conn>
    var stop: bool
    var ready: bool

    // The calls of redisFree, the connections lent out, and how far Close has come.
    var freed: seq<Conn>
    ghost var borrowed: multiset<Conn>
    ghost var closing: Closing

    // The mutex, the checker thread, and the calls of GetConnection that look or sleep.
    ghost var lock: Lock
    ghost var checker: Checker
    ghost var lookers: nat
    ghost var sleepers: nat

    ghost function View(): Pool
      reads this
    {
      Pool(ready, stop, connections, borrowed, freed, lock, checker, closing, lookers, sleepers)
    }

    /** One attempt for every connection of the pool; `threadStarts` is whether the checker thread could be started. */
    constructor (attempts: seq<Attempt>, threadStarts: bool)
      ensures Fresh(View())
      ensures connections == UsableOnes(attempts) && freed == Rejected(attempts)
      ensures ready <==> connections != [] && threadStarts
      ensures PooledOrFreed(attempts, connections, freed)
    {
      connections, freed, stop, ready := [], [], false, false;
      borrowed, closing, lock, checker, lookers, sleepers := multiset{}, Open, Lock.Free, Absent, 0, 0;
      new;
      for i := 0 to |attempts|
        invariant connections == UsableOnes(attempts[..i]) && freed == Rejected(attempts[..i])
        invariant View() == Pool(false, false, connections, multiset{}, freed, Lock.Free, Absent, Open, 0, 0)
      {
        assert attempts[..i + 1][..i] == attempts[..i];
        var attempt := attempts[i];
        match attempt
        case NoContext =>
        case InError(conn) => Free(conn);
        case Refused(conn) => Free(conn);
        case Usable(conn) => connections := connections + [conn];
      }
      assert attempts[..|attempts|] == attempts;
      AllArePooledOrFreed(attempts);
      if connections != [] && threadStarts {
        ready := true;
        checker := Looping;
      }
    }

    /** redisFree. */
    method Free(conn: Conn)
      modifies this`freed
      ensures freed == old(freed) + [conn]
    {
      freed := freed + [conn];
    }

    /** A call of GetConnection begins. */
    method EnterGetConnection()
      modifies this`lookers
      ensures lookers == old(lookers) + 1
      ensures View() == Step(old(View()), GetCalls)
    {
      lookers := lookers + 1;
    }

    /** The condition variable lets a sleeping call go without a notification. */
    method WakeSpuriously()
      requires sleepers > 0
      modifies this`sleepers, this`lookers
      ensures sleepers == old(sleepers) - 1 && lookers == old(lookers) + 1
      ensures View() == Step(old(View()), GetterStirs)
    {
      sleepers := sleepers - 1;
      lookers := lookers + 1;
    }

    /** GetConnection each time it has the mutex: `waits` if its condition does not hold, else null or the front. */
    method GetConnection() returns (waits: bool, conn: Option<Conn>)
      requires lock.Free? && lookers > 0
      modifies this`lookers, this`sleepers, this`borrowed, this`connections
      ensures lookers == old(lookers) - 1 && sleepers == old(sleepers) + (if waits then 1 else 0)
      ensures borrowed == if conn.Some? then old(borrowed) + multiset{conn.value} else old(borrowed)
      ensures View() == GetTurn(old(View()))
      ensures waits <==> !stop && ready && old(connections) == []
      ensures conn.Some? <==> !stop && ready && !waits
      ensures if conn.Some? then [conn.value] + connections == old(connections) else connections == old(connections)
    {
      lookers := lookers - 1;
      waits, conn := !(stop || !ready || connections != []), None;
      if waits {
        sleepers := sleepers + 1;
        return;
      }
      if stop || !ready {
        return;
      }
      GetTurnTakes(old(View()));
      conn := Some(connections[0]);
      borrowed := borrowed + multiset{connections[0]};
      connections := connections[1..];
    }

    /** notify_one; `toChecker` is whether it reaches the checker, when both the checker and a call wait. */
    method Notify(toChecker: bool)
      modifies this`checker, this`sleepers, this`lookers
      ensures if old(checker).Waiting? && (toChecker || old(sleepers) == 0)
              then checker == (if stop then Exited else Waiting) && sleepers == old(sleepers) && lookers == old(lookers)
              else checker == old(checker) && sleepers + lookers == old(sleepers + lookers) &&
                   sleepers == if old(sleepers) > 0 then old(sleepers) - 1 else 0
      ensures View() == NotifyOne(old(View()), toChecker)
    {
      if CheckerIsNotified(View(), toChecker) {
        if stop {
          checker := Exited;
        }
      } else if sleepers > 0 {
        sleepers := sleepers - 1;
        lookers := lookers + 1;
      }
    }

    method ReturnConnection(conn: Conn, toChecker: bool)
      requires lock.Free? && conn in borrowed
      modifies this`borrowed, this`freed, this`connections, this`checker, this`sleepers, this`lookers
      ensures borrowed == old(borrowed) - multiset{conn}
      ensures if stop then freed == old(freed) + [conn] && connections == old(connections)
              else connections == old(connections) + [conn] && freed == old(freed)
      ensures !stop && old(sleepers) > 0 && !(old(checker).Waiting? && toChecker) ==>
                sleepers == old(sleepers) - 1 && lookers == old(lookers) + 1
      ensures View() == ReturnTurn(old(View()), conn, toChecker)
    {
      ReturnTurnEnds(View(), conn, toChecker);
      borrowed := borrowed - multiset{conn};
      if stop {
        Free(conn);
        return;
      }
      connections := connections + [conn];
      Notify(toChecker);
    }

    /** The checker's loop up to its wait; it ends instead if the pool has stopped. */
    method CheckerWaits() returns (waits: bool)
      requires lock.Free? && checker.Looping?
      modifies this`checker
      ensures checker == if stop then Exited else Waiting
      ensures View() == CheckerTurn(old(View()))
      ensures waits == !stop
    {
      waits := !stop;
      checker := if stop then Exited else Waiting;
    }

    /** The checker's wait of 60 seconds is over, and a check is due unless the pool has stopped. */
    method CheckerTimesOut() returns (due: bool)
      requires lock.Free? && checker.Waiting?
      modifies this`checker
      ensures checker == if stop then Exited else Due
      ensures View() == Step(old(View()), Event.CheckerTimesOut)
      ensures due == !stop
    {
      due := !stop;
      checker := if stop then Exited else Due;
    }

    /** `pings[i]` is whether the i-th idle connection answers without an error. */
    method CheckThreadProc(pings: seq<bool>)
      requires lock.Free? && checker.Due? && |pings| == |connections|
      modifies this
      ensures View() == CheckTurn(old(View()), pings)
      ensures connections == Live(old(connections), pings)
      ensures freed == old(freed) + Dead(old(connections), pings)
      ensures lock.Free? && checker == Looping
    {
      lock, checker := Checking(connections, []), Working;
      var poolSize := |connections|;
      assert connections[0..] + Live(connections, pings[..0]) == connections;
      assert freed + Dead(connections, pings[..0]) == freed;
      for i := 0 to poolSize
        invariant CheckedUpTo(old(View()), pings, i)
      {
        CheckOneConnection(old(View()), pings, i);
      }
      assert pings[..poolSize] == pings;
      CheckTurnEnds(old(View()), pings);
      lock, checker := Lock.Free, Looping;
    }

    /** The first `n` connections have been checked, since the state `before`. */
    ghost predicate CheckedUpTo(before: Pool, pings: seq<bool>, n: nat)
      reads this
    {
      && n <= |pings| == |before.idle|
      && View() == CheckedSoFar(before, pings[..n]).(checker := Working)
    }

    /** The loop body of the check. */
    method CheckOneConnection(ghost before: Pool, pings: seq<bool>, n: nat)
      requires n < |pings| && CheckedUpTo(before, pings, n)
      modifies this
      ensures CheckedUpTo(before, pings, n + 1)
    {
      CheckNext(View(), before.idle, before.freed, pings[..n + 1], n);
      assert pings[..n + 1][..n] == pings[..n];
      var context := connections[0];
      connections := connections[1..];
      lock := Checking(before.idle, pings[..n + 1]);
      if !pings[n] {
        Free(context);
      } else {
        connections := connections + [context];
      }
      assert connections + [] == connections && freed + [] == freed;
    }

    /** The first part of Close: only the call that sets the flag goes on. */
    method BeginClose() returns (first: bool)
      requires stop <==> !closing.Open?
      modifies this`stop, this`closing, this`lookers, this`sleepers, this`checker
      ensures first == !old(stop) && stop
      ensures if first
              then closing == Notified && sleepers == 0 && lookers == old(lookers) + old(sleepers) &&
                   checker == if old(checker).Waiting? then Exited else old(checker)
              else closing == old(closing) && sleepers == old(sleepers) && lookers == old(lookers) &&
                   checker == old(checker)
      ensures View() == if first then Step(Step(old(View()), CloseMarks), CloseNotifies) else old(View())
    {
      if stop {
        return false;
      }
      CloseBegins(View());
      stop, closing := true, Notified;
      lookers, sleepers := lookers + sleepers, 0;
      checker := if checker.Waiting? then Exited else checker;
      return true;
    }

    /** Close joins the checker, once that has ended. */
    method JoinChecker()
      requires closing.Notified? && (checker.Exited? || checker.Absent?)
      modifies this`closing
      ensures closing == Joined
      ensures View() == Step(old(View()), CloseJoins)
    {
      closing := Joined;
    }

    /** The end of Close, after the checker has been joined. */
    method Drain()
      requires closing.Joined? && lock.Free?
      modifies this`connections, this`freed, this`closing
      ensures View() == DrainTurn(old(View()))
      ensures closing == Closed && connections == [] && freed == old(freed) + old(connections)
    {
      while connections != []
        invariant freed + connections == old(freed) + old(connections)
        invariant View() == old(View()).(idle := connections, freed := freed)
        decreases |connections|
      {
        AssocConns(freed, [connections[0]], connections[1..]);
        assert [connections[0]] + connections[1..] == connections;
        Free(connections[0]);
        connections := connections[1..];
      }
      closing := Closed;
      DrainEnds(old(View()));
    }
  }
}
