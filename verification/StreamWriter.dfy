/** The server-sent-event writer of GateShared/HttpConnection.cpp: posted closures, a write queue, completions. */
module StreamWriter {
  import Text
  import opened ChunkedCoding
  import opened Common
  import opened ResponseHead

  datatype StreamWrite = StreamWrite(data: string, closes: bool)

  /** A closure posted to the socket's executor, which runs them one at a time in posting order. */
  datatype Closure = StartClosure | ChunkClosure(chunk: string) | FinishClosure

  /**
   * The connection's streaming fields, the executor's pending closures, the buffers handed to
   * async_write and not yet completed, and what went out on the socket. The last two fields are
   * history: the chunks that were queued, and whether a write ever failed.
   */
  datatype Stream = Stream(
    header: string,
    streaming: bool,
    headerStarted: bool,
    writing: bool,
    finishRequested: bool,
    closed: bool,
    queue: seq<StreamWrite>,
    posted: seq<Closure>,
    inFlight: seq<string>,
    wire: string,
    finishCalls: nat,
    accepted: seq<string>,
    faulted: bool)

  function Fresh(header: string): Stream {
    Stream(header, false, false, false, false, false, [], [], [], "", 0, [], false)
  }

  // ---- the steps, as functions on the state ----

  predicate Constant(s: Stream, t: Stream) {
    t.header == s.header && t.streaming == s.streaming
  }

  function DoWrite(s: Stream): (t: Stream)
    ensures t == s.(writing := t.writing, inFlight := t.inFlight)
  {
    if s.writing || s.queue == [] || s.closed then s
    else s.(writing := true, inFlight := s.inFlight + [s.queue[0].data])
  }

  function QueueWrite(s: Stream, data: string, closes: bool): (t: Stream)
    ensures t == s.(writing := t.writing, inFlight := t.inFlight, queue := t.queue)
  {
    if s.closed then s else DoWrite(s.(queue := s.queue + [StreamWrite(data, closes)]))
  }

  function EnsureStarted(s: Stream): (t: Stream)
    ensures t == s.(writing := t.writing, inFlight := t.inFlight, queue := t.queue, headerStarted := t.headerStarted)
  {
    if s.closed || s.headerStarted then s
    else QueueWrite(s.(headerStarted := true), s.header, false)
  }

  function RunChunk(s: Stream, chunk: string): (t: Stream)
    ensures Constant(s, t) && t.posted == s.posted && t.faulted == s.faulted
    ensures t.closed == s.closed && |t.queue| <= |s.queue| + 2
  {
    if s.closed || s.finishRequested then s
    else
      var t := EnsureStarted(s);
      if chunk == "" then t
      else QueueWrite(t.(accepted := t.accepted + [chunk]), Frame(chunk), false)
  }

  function RunFinish(s: Stream): (t: Stream)
    ensures Constant(s, t) && t.posted == s.posted && t.faulted == s.faulted
    ensures t.closed == s.closed && |t.queue| <= |s.queue| + 2
  {
    if s.closed || s.finishRequested then s
    else QueueWrite(EnsureStarted(s).(finishRequested := true), TERMINATOR, true)
  }

  function RunPosted(s: Stream): (t: Stream)
    ensures Constant(s, t) && t.faulted == s.faulted && t.closed == s.closed
    ensures s.posted != [] ==> t.posted == s.posted[1..] && |t.queue| <= |s.queue| + 2
  {
    if s.posted == [] then s
    else
      var t := s.(posted := s.posted[1..]);
      match s.posted[0]
      case StartClosure => EnsureStarted(t)
      case ChunkClosure(chunk) => RunChunk(t, chunk)
      case FinishClosure => RunFinish(t)
  }

  /** The socket is done with the buffer in flight; a failed write may have sent any part of it. */
  function Leave(s: Stream, failed: bool, sent: nat): Stream
    requires s.inFlight != []
  {
    var buffer := s.inFlight[0];
    s.(wire := s.wire + (if failed && sent < |buffer| then buffer[..sent] else buffer),
       inFlight := s.inFlight[1..],
       faulted := s.faulted || failed)
  }

  /** The completion handler. */
  function Handle(s: Stream, failed: bool): Stream {
    var closes := s.queue != [] && s.queue[0].closes;
    var t := s.(queue := if s.queue == [] then [] else s.queue[1..], writing := false);
    if failed || closes then t.(closed := true, queue := [], finishCalls := t.finishCalls + 1)
    else DoWrite(t)
  }

  function Complete(s: Stream, failed: bool, sent: nat): (t: Stream)
    ensures Constant(s, t) && t.faulted == (s.faulted || (failed && s.inFlight != []))
    ensures t.posted == s.posted && t.accepted == s.accepted && t.finishRequested == s.finishRequested
  {
    if s.inFlight == [] then s else Handle(Leave(s, failed, sent), failed)
  }

  datatype Event =
    | CallStart
    | CallChunk(chunk: string)
    | CallFinish
    | ClosureRuns
    | WriteCompletes
    | WriteFails(sent: nat)

  function Next(s: Stream, e: Event): (t: Stream)
    ensures t.header == s.header
  {
    match e
    case CallStart => s.(streaming := true, posted := s.posted + [StartClosure])
    case CallChunk(chunk) => if s.streaming then s.(posted := s.posted + [ChunkClosure(chunk)]) else s
    case CallFinish => if s.streaming then s.(posted := s.posted + [FinishClosure]) else s
    case ClosureRuns => RunPosted(s)
    case WriteCompletes => Complete(s, false, 0)
    case WriteFails(sent) => Complete(s, true, sent)
  }

  /** A step that is not possible leaves the state alone, so every event sequence is a run. */
  function Run(s: Stream, events: seq<Event>): (t: Stream)
    ensures t.header == s.header
    decreases |events|
  {
    if events == [] then s else Run(Next(s, events[0]), events[1..])
  }

  // ---- what every step keeps ----

  function QueueBytes(queue: seq<StreamWrite>): string {
    if queue == [] then "" else queue[0].data + QueueBytes(queue[1..])
  }

  lemma {:induction false} QueueBytesLast(queue: seq<StreamWrite>, w: StreamWrite)
    ensures QueueBytes(queue + [w]) == QueueBytes(queue) + w.data
  {
    if queue == [] {
      assert [w][1..] == [];
      assert QueueBytes([w]) == w.data + "";
    } else {
      QueueBytesLast(queue[1..], w);
      assert (queue + [w])[1..] == queue[1..] + [w];
      assert queue[0].data + (QueueBytes(queue[1..]) + w.data) == QueueBytes(queue) + w.data;
    }
  }

  /** All the stream has to send so far: the header, the accepted chunks in order, the terminator. */
  function Encoding(s: Stream): string {
    (if s.headerStarted then s.header else "") + Frames(s.accepted) +
    (if s.finishRequested then TERMINATOR else "")
  }

  /** The flags and the queue. */
  ghost predicate Shape(s: Stream) {
    && (s.writing ==> s.queue != [])
    && s.inFlight == (if s.writing then [s.queue[0].data] else [])
    && (forall i :: 0 <= i < |s.accepted| ==> s.accepted[i] != "")
    && (!s.headerStarted ==> s.accepted == [] && !s.finishRequested)
    && (forall i :: 0 <= i < |s.queue| ==> (s.queue[i].closes <==> s.finishRequested && i == |s.queue| - 1))
    && (if s.closed then
          s.queue == [] && !s.writing && s.finishCalls == 1 && (!s.faulted ==> s.finishRequested)
        else
          && s.writing == (s.queue != []) && s.finishCalls == 0 && !s.faulted
          && (s.finishRequested ==> s.queue != []))
  }

  /** The bytes: sent, in flight and queued make up the encoding; a failure leaves a prefix of it. */
  ghost predicate Bytes(s: Stream) {
    if !s.closed then s.wire + QueueBytes(s.queue) == Encoding(s)
    else if s.faulted then s.wire <= Encoding(s)
    else s.wire == Encoding(s)
  }

  ghost predicate Inv(s: Stream) {
    Shape(s) && Bytes(s)
  }

  /** Queueing exactly what the change of flags adds to the encoding keeps the invariant. */
  lemma QueueWriteKeeps(s: Stream, t: Stream, data: string, closes: bool)
    requires Inv(s) && !s.closed && !s.finishRequested
    requires t == s.(headerStarted := true, accepted := t.accepted, finishRequested := closes)
    requires forall i :: 0 <= i < |t.accepted| ==> t.accepted[i] != ""
    requires Encoding(t) == Encoding(s) + data
    ensures Inv(QueueWrite(t, data, closes)) && !QueueWrite(t, data, closes).closed
  {
    var r := QueueWrite(t, data, closes);
    assert Bytes(r) by {
      QueueBytesLast(s.queue, StreamWrite(data, closes));
      Text.Assoc(s.wire, QueueBytes(s.queue), data);
      assert Encoding(r) == Encoding(t);
    }
  }

  lemma EnsureStartedKeeps(s: Stream)
    requires Inv(s)
    ensures var t := EnsureStarted(s);
            && Inv(t) && t.closed == s.closed && t.finishRequested == s.finishRequested
            && t.accepted == s.accepted && t.posted == s.posted && (!s.closed ==> t.headerStarted)
  {
    if !s.closed && !s.headerStarted {
      var t := s.(headerStarted := true);
      assert Encoding(t) == Encoding(s) + s.header;
      QueueWriteKeeps(s, t, s.header, false);
    }
  }

  lemma EncodingGrows(s: Stream, chunk: string)
    requires s.headerStarted && !s.finishRequested
    ensures Encoding(s.(accepted := s.accepted + [chunk])) == Encoding(s) + Frame(chunk)
  {
    FramesLast(s.accepted, chunk);
    Text.Assoc(s.header, Frames(s.accepted), Frame(chunk));
  }

  lemma RunChunkKeeps(s: Stream, chunk: string)
    requires Inv(s)
    ensures Inv(RunChunk(s, chunk))
  {
    if !s.closed && !s.finishRequested {
      EnsureStartedKeeps(s);
      var t := EnsureStarted(s);
      if chunk != "" {
        EncodingGrows(t, chunk);
        QueueWriteKeeps(t, t.(accepted := t.accepted + [chunk]), Frame(chunk), false);
      }
    }
  }

  lemma EncodingEnds(s: Stream)
    requires s.headerStarted && !s.finishRequested
    ensures Encoding(s.(finishRequested := true)) == Encoding(s) + TERMINATOR
  {
    Text.Assoc(s.header, Frames(s.accepted), TERMINATOR);
  }

  lemma RunFinishKeeps(s: Stream)
    requires Inv(s)
    ensures Inv(RunFinish(s))
  {
    if !s.closed && !s.finishRequested {
      EnsureStartedKeeps(s);
      var t := EnsureStarted(s);
      EncodingEnds(t);
      QueueWriteKeeps(t, t.(finishRequested := true), TERMINATOR, true);
    }
  }

  lemma PrefixOfSum(wire: string, buffer: string, rest: string, sent: nat)
    requires sent < |buffer|
    ensures wire + buffer[..sent] <= wire + (buffer + rest)
  {
  }

  lemma HandleShapes(s: Stream, failed: bool, sent: nat)
    requires Shape(s) && s.inFlight != []
    ensures Shape(Complete(s, failed, sent))
    ensures Complete(s, failed, sent).closed <==> failed || s.queue[0].closes
  {
  }

  lemma CompleteKeeps(s: Stream, failed: bool, sent: nat)
    requires Inv(s)
    ensures Inv(Complete(s, failed, sent))
  {
    if s.inFlight != [] {
      var t, buffer, rest := Complete(s, failed, sent), s.queue[0].data, QueueBytes(s.queue[1..]);
      HandleShapes(s, failed, sent);
      assert Bytes(t) by {
        assert Encoding(t) == Encoding(s) == s.wire + (buffer + rest);
        Text.Assoc(s.wire, buffer, rest);
        if failed {
          if sent < |buffer| {
            PrefixOfSum(s.wire, buffer, rest, sent);
          }
        } else if s.queue[0].closes {
          assert rest == "";
        }
      }
    }
  }

  lemma ClosureKeeps(s: Stream)
    requires Inv(s)
    ensures Inv(RunPosted(s))
  {
    if s.posted != [] {
      var t := s.(posted := s.posted[1..]);
      assert Inv(t) by { PostedIsFree(s, t.posted, s.streaming); }
      match s.posted[0]
      case StartClosure => EnsureStartedKeeps(t);
      case ChunkClosure(chunk) => RunChunkKeeps(t, chunk);
      case FinishClosure => RunFinishKeeps(t);
    }
  }

  /** The pending closures and the streaming flag play no part in the invariant. */
  lemma PostedIsFree(s: Stream, posted: seq<Closure>, streaming: bool)
    requires Inv(s)
    ensures Inv(s.(posted := posted, streaming := streaming))
  {
    assert Encoding(s.(posted := posted, streaming := streaming)) == Encoding(s);
  }

  lemma StepKeeps(s: Stream, e: Event)
    requires Inv(s)
    ensures Inv(Next(s, e))
  {
    match e
    case ClosureRuns => ClosureKeeps(s);
    case WriteCompletes => CompleteKeeps(s, false, 0);
    case WriteFails(sent) => CompleteKeeps(s, true, sent);
    case _ => PostedIsFree(s, Next(s, e).posted, Next(s, e).streaming);
  }

  lemma {:induction false} RunKeeps(s: Stream, events: seq<Event>)
    requires Inv(s)
    ensures Inv(Run(s, events))
    decreases |events|
  {
    if events != [] {
      StepKeeps(s, events[0]);
      RunKeeps(Next(s, events[0]), events[1..]);
    }
  }

  // ---- what a finished stream delivers ----

  /** The chunks that the caller offers: after the first start and before the first finish, empty ones not counted. */
  function Offered(events: seq<Event>, streaming: bool): seq<string>
    decreases |events|
  {
    if events == [] then []
    else
      match events[0]
      case CallStart => Offered(events[1..], true)
      case CallChunk(chunk) => OfferedBy(events[0], streaming) + Offered(events[1..], streaming)
      case CallFinish => if streaming then [] else Offered(events[1..], streaming)
      case _ => Offered(events[1..], streaming)
  }

  function OfferedBy(e: Event, streaming: bool): seq<string> {
    if e.CallChunk? && streaming && e.chunk != "" then [e.chunk] else []
  }

  predicate NoFault(events: seq<Event>) {
    forall i :: 0 <= i < |events| ==> !events[i].WriteFails?
  }

  /** The non-empty chunks among pending closures, up to the first finish. */
  function PendingChunks(posted: seq<Closure>): seq<string> {
    if posted == [] || posted[0].FinishClosure? then [] else ChunkOf(posted[0]) + PendingChunks(posted[1..])
  }

  /** What a closure adds to the chunks. */
  function ChunkOf(c: Closure): seq<string> {
    if c.ChunkClosure? && c.chunk != "" then [c.chunk] else []
  }

  /** The chunks that are queued or will be, should nothing more be called and nothing fail. */
  function Committed(s: Stream): seq<string> {
    s.accepted + (if s.finishRequested then [] else PendingChunks(s.posted))
  }

  predicate Finishing(s: Stream) {
    s.finishRequested || FinishClosure in s.posted
  }

  lemma {:induction false} PendingChunksLast(posted: seq<Closure>, c: Closure)
    ensures PendingChunks(posted + [c]) ==
            PendingChunks(posted) + (if FinishClosure !in posted then ChunkOf(c) else [])
  {
    if posted == [] {
      assert [c][1..] == [];
      assert PendingChunks([]) == [];
    } else if !posted[0].FinishClosure? {
      var rest := posted[1..];
      PendingChunksLast(rest, c);
      assert (posted + [c])[1..] == rest + [c];
      assert FinishClosure in posted <==> FinishClosure in rest by {
        assert posted == [posted[0]] + rest;
      }
      Regroup(ChunkOf(posted[0]), PendingChunks(rest), if FinishClosure !in rest then ChunkOf(c) else []);
    }
  }

  /** Writing never touches what the commitment is made of. */
  predicate SameCommitment(s: Stream, t: Stream) {
    && t.accepted == s.accepted && t.finishRequested == s.finishRequested
    && t.posted == s.posted && t.streaming == s.streaming
  }

  lemma ClosureCommits(s: Stream)
    requires s.closed ==> s.finishRequested
    ensures Committed(RunPosted(s)) == Committed(s)
    ensures Finishing(RunPosted(s)) == Finishing(s)
    ensures RunPosted(s).streaming == s.streaming
  {
    if s.posted != [] {
      var t := s.(posted := s.posted[1..]);
      assert SameCommitment(t, EnsureStarted(t));
      assert s.posted == [s.posted[0]] + t.posted;
      match s.posted[0]
      case StartClosure =>
      case ChunkClosure(chunk) =>
        if !s.finishRequested && chunk != "" {
          assert RunChunk(t, chunk).accepted == s.accepted + [chunk];
          assert PendingChunks(s.posted) == [chunk] + PendingChunks(t.posted);
          assert s.accepted + [chunk] + PendingChunks(t.posted) == s.accepted + PendingChunks(s.posted);
        }
      case FinishClosure =>
        assert RunFinish(t).finishRequested && RunFinish(t).accepted == s.accepted;
    }
  }

  lemma StepCommits(s: Stream, e: Event)
    requires s.closed ==> s.finishRequested
    requires !s.faulted && !e.WriteFails?
    ensures var t := Next(s, e);
            && t.streaming == (s.streaming || e.CallStart?)
            && Finishing(t) == (Finishing(s) || (e.CallFinish? && s.streaming))
            && Committed(t) == Committed(s) + (if Finishing(s) then [] else OfferedBy(e, s.streaming))
  {
    match e
    case CallStart => PendingChunksLast(s.posted, StartClosure);
    case CallChunk(chunk) => PendingChunksLast(s.posted, ChunkClosure(chunk));
    case CallFinish => PendingChunksLast(s.posted, FinishClosure);
    case ClosureRuns => ClosureCommits(s);
    case _ =>
  }

  lemma StepFaults(s: Stream, e: Event)
    requires !e.WriteFails?
    ensures Next(s, e).faulted == s.faulted
  {
  }

  /** What is committed and still offered stays the same over a step from `s` to `t`. */
  lemma OffersCompose(s: Stream, t: Stream, events: seq<Event>)
    requires events != []
    requires t.streaming == (s.streaming || events[0].CallStart?)
    requires Finishing(t) == (Finishing(s) || (events[0].CallFinish? && s.streaming))
    requires Committed(t) == Committed(s) + (if Finishing(s) then [] else OfferedBy(events[0], s.streaming))
    ensures Committed(t) + (if Finishing(t) then [] else Offered(events[1..], t.streaming))
         == Committed(s) + (if Finishing(s) then [] else Offered(events, s.streaming))
  {
    if !Finishing(s) && !Finishing(t) {
      Regroup(Committed(s), OfferedBy(events[0], s.streaming), Offered(events[1..], t.streaming));
    }
  }

  lemma {:induction false} RunCommits(s: Stream, events: seq<Event>)
    requires Inv(s) && !s.faulted && NoFault(events)
    ensures !Run(s, events).faulted
    ensures Committed(Run(s, events)) ==
            Committed(s) + (if Finishing(s) then [] else Offered(events, s.streaming))
    decreases |events|
  {
    if events != [] {
      var t := Next(s, events[0]);
      StepKeeps(s, events[0]);
      StepFaults(s, events[0]);
      OpenOrFinished(s);
      StepCommits(s, events[0]);
      RunCommits(t, events[1..]);
      OffersCompose(s, t, events);
    }
  }

  lemma OpenOrFinished(s: Stream)
    requires Shape(s) && !s.faulted
    ensures s.closed ==> s.finishRequested
  {
  }

  lemma Regroup(a: seq<string>, b: seq<string>, c: seq<string>)
    ensures a + b + c == a + (b + c)
  {
  }

  lemma FreshInv(header: string)
    ensures Inv(Fresh(header))
  {
    assert Encoding(Fresh(header)) == "";
  }

  /** A closed stream takes no further chunk. */
  lemma ClosedAcceptsNothing(s: Stream, e: Event)
    requires s.closed
    ensures Next(s, e).closed && Next(s, e).accepted == s.accepted
  {
  }

  lemma {:induction false} ClosedStaysClosed(s: Stream, events: seq<Event>)
    requires s.closed
    ensures Run(s, events).accepted == s.accepted
    decreases |events|
  {
    if events != [] {
      ClosedAcceptsNothing(s, events[0]);
      ClosedStaysClosed(Next(s, events[0]), events[1..]);
    }
  }

  lemma PrefixOfCommitment(s: Stream, more: seq<string>)
    ensures s.accepted <= Committed(s) + more
  {
  }

  /** In every run, with or without failures, what has been accepted is a prefix of what is committed and offered. */
  lemma {:induction false} RunAcceptsPrefix(s: Stream, events: seq<Event>)
    requires Inv(s)
    ensures Run(s, events).accepted <= Committed(s) + (if Finishing(s) then [] else Offered(events, s.streaming))
    decreases |events|
  {
    PrefixOfCommitment(s, if Finishing(s) then [] else Offered(events, s.streaming));
    if events == [] {
    } else if s.closed || (events[0].WriteFails? && s.inFlight != []) {
      FailureFreezes(s, events);
    } else if events[0].WriteFails? {
      RunAcceptsPrefix(s, events[1..]);
    } else {
      var t := Next(s, events[0]);
      StepKeeps(s, events[0]);
      RunAcceptsPrefix(t, events[1..]);
      OffersStay(s, events);
    }
  }

  lemma OffersStay(s: Stream, events: seq<Event>)
    requires Inv(s) && events != [] && !s.closed && !events[0].WriteFails?
    ensures var t := Next(s, events[0]);
            Committed(t) + (if Finishing(t) then [] else Offered(events[1..], t.streaming))
            == Committed(s) + (if Finishing(s) then [] else Offered(events, s.streaming))
  {
    StepCommits(s, events[0]);
    OffersCompose(s, Next(s, events[0]), events);
  }

  lemma FailureFreezes(s: Stream, events: seq<Event>)
    requires Inv(s) && events != [] && (s.closed || (events[0].WriteFails? && s.inFlight != []))
    ensures Run(s, events).accepted == s.accepted
  {
    if s.closed {
      ClosedStaysClosed(s, events);
    } else {
      HandleShapes(s, true, events[0].sent);
      ClosedStaysClosed(Next(s, events[0]), events[1..]);
    }
  }

  /** In every run the accepted chunks are the first ones that the caller offered. */
  lemma AcceptedWereOffered(header: string, events: seq<Event>)
    ensures Run(Fresh(header), events).accepted <= Offered(events, false)
  {
    FreshInv(header);
    RunAcceptsPrefix(Fresh(header), events);
    NothingCommitted(header, Offered(events, false));
  }

  /** In every run the bytes on the wire are a prefix of the encoding, and at most one write is in flight. */
  lemma WireIsPrefix(header: string, events: seq<Event>)
    ensures var s := Run(Fresh(header), events);
            && s.wire <= Encoding(s)
            && (s.writing ==> s.queue != [])
            && s.inFlight == (if s.writing then [s.queue[0].data] else [])
            && s.finishCalls == (if s.closed then 1 else 0)
            && (s.closed ==> s.queue == [] && s.inFlight == [])
            && (!s.closed ==> s.wire + QueueBytes(s.queue) == Encoding(s))
  {
    FreshInv(header);
    RunKeeps(Fresh(header), events);
  }

  /** Nothing is pending: no closure to run and no write to complete. */
  predicate Quiet(s: Stream) {
    s.posted == [] && s.inFlight == []
  }

  /**
   * A run without write failures that asked for the finish and came to rest has closed the
   * connection once; behind the header the wire holds a chunked body that decodes to exactly
   * the chunks the caller offered.
   */
  lemma FinishedStreamDelivers(header: string, events: seq<Event>)
    requires NoFault(events)
    requires Quiet(Run(Fresh(header), events)) && Finishing(Run(Fresh(header), events))
    ensures var s, chunks := Run(Fresh(header), events), Offered(events, false);
            && s.closed && s.finishCalls == 1
            && s.wire == header + Frames(chunks) + TERMINATOR
            && Decode(s.wire[|header|..]) == Body(Text.Concat(chunks), "")
  {
    var s, chunks := Run(Fresh(header), events), Offered(events, false);
    FreshInv(header);
    RunKeeps(Fresh(header), events);
    RunCommits(Fresh(header), events);
    NothingCommitted(header, chunks);
    QuietFinish(s);
    BodyBehind(header, chunks);
  }

  lemma NothingCommitted(header: string, chunks: seq<string>)
    ensures Committed(Fresh(header)) + chunks == chunks
  {
  }

  lemma QuietFinish(s: Stream)
    requires Inv(s) && !s.faulted && Quiet(s) && Finishing(s)
    ensures s.closed && s.finishCalls == 1 && s.accepted == Committed(s)
    ensures s.wire == s.header + Frames(s.accepted) + TERMINATOR
    ensures forall i :: 0 <= i < |s.accepted| ==> s.accepted[i] != ""
  {
  }

  lemma BodyBehind(header: string, chunks: seq<string>)
    requires forall i :: 0 <= i < |chunks| ==> chunks[i] != ""
    ensures Decode((header + Frames(chunks) + TERMINATOR)[|header|..]) == Body(Text.Concat(chunks), "")
  {
    DropHeader(header, Frames(chunks), TERMINATOR);
    DecodeInvertsFrames(chunks, "");
  }

  lemma DropHeader(a: string, b: string, c: string)
    ensures (a + b + c)[|a|..] == b + c + ""
  {
  }

  // ---- the stream comes to rest ----

  /** Each closure queues at most two writes. */
  function Work(s: Stream): nat {
    3 * |s.posted| + |s.queue|
  }

  lemma ClosureUsesWork(s: Stream)
    requires s.posted != []
    ensures Work(Next(s, ClosureRuns)) < Work(s)
  {
    var t := RunPosted(s);
    assert |t.posted| == |s.posted| - 1 && |t.queue| <= |s.queue| + 2;
  }

  lemma CompletionUsesWork(s: Stream, sent: nat)
    requires Shape(s) && s.inFlight != []
    ensures Work(Next(s, WriteCompletes)) < Work(s)
    ensures Work(Next(s, WriteFails(sent))) < Work(s)
  {
  }

  /** Every event of the run has something to do: a closure to run, or a write to complete. */
  predicate AllEffective(s: Stream, events: seq<Event>)
    decreases |events|
  {
    events == [] ||
    (&& (if events[0].ClosureRuns? then s.posted != []
         else (events[0].WriteCompletes? || events[0].WriteFails?) && s.inFlight != [])
     && AllEffective(Next(s, events[0]), events[1..]))
  }

  /** Once nothing more is called, the stream comes to rest within as many steps as there is work. */
  lemma {:induction false} RestIsNear(s: Stream, events: seq<Event>)
    requires Inv(s) && AllEffective(s, events)
    ensures |events| + Work(Run(s, events)) <= Work(s)
    decreases |events|
  {
    if events != [] {
      var e := events[0];
      StepKeeps(s, e);
      if e.ClosureRuns? {
        ClosureUsesWork(s);
      } else {
        CompletionUsesWork(s, if e.WriteFails? then e.sent else 0);
      }
      RestIsNear(Next(s, e), events[1..]);
    }
  }

  /** A queue always has a write in flight; once the stream is quiet, a requested finish has closed it. */
  lemma QuietIsClosed(s: Stream)
    requires Shape(s)
    ensures s.queue != [] ==> s.inFlight != []
    ensures Quiet(s) && Finishing(s) ==> s.closed
  {
  }

  // ---- the response as a client reads it ----

  /**
   * For every request, whatever its header values: the body starts behind the first blank line of the response,
   * and decodes to exactly the chunks offered.
   */
  lemma HeadedStreamDelivers(request: Request, allowed: string -> bool, events: seq<Event>)
    requires var header := HeadFor(request, allowed);
             NoFault(events) && Quiet(Run(Fresh(header), events)) && Finishing(Run(Fresh(header), events))
    ensures var wire := Run(Fresh(HeadFor(request, allowed)), events).wire;
            && BodyStart(wire) == |HeadFor(request, allowed)| <= |wire|
            && Decode(wire[BodyStart(wire)..]) == Body(Text.Concat(Offered(events, false)), "")
  {
    var header, chunks := HeadFor(request, allowed), Offered(events, false);
    FinishedStreamDelivers(header, events);
    NoLineIsInjected(request, allowed, Frames(chunks) + TERMINATOR);
    Text.Assoc(header, Frames(chunks), TERMINATOR);
  }

  // ---- the class ----

  class HttpConnection {
    // The head is made of request fields that no longer change when a stream can start.
    var header: string

    var streamingResponse: bool
    var streamHeaderStarted: bool
    var streamWriting: bool
    var streamFinishRequested: bool
    var streamClosed: bool
    var streamWriteQueue: seq<StreamWrite>

    // The executor's pending closures, the socket, and the calls of FinishRequest.
    var posted: seq<Closure>
    var inFlight: seq<string>
    var wire: string
    var finishCalls: nat

    ghost var accepted: seq<string>
    ghost var faulted: bool

    ghost function View(): Stream
      reads this
    {
      Stream(header, streamingResponse, streamHeaderStarted,
             streamWriting, streamFinishRequested, streamClosed, streamWriteQueue,
             posted, inFlight, wire, finishCalls, accepted, faulted)
    }

    constructor ()
      ensures View() == Fresh("")
      ensures header == "" && wire == "" && streamWriteQueue == [] && posted == [] && inFlight == [] && finishCalls == 0
      ensures !streamingResponse && !streamHeaderStarted && !streamWriting && !streamFinishRequested && !streamClosed
    {
      header := "";
      streamingResponse, streamHeaderStarted, streamWriting := false, false, false;
      streamFinishRequested, streamClosed, streamWriteQueue := false, false, [];
      posted, inFlight, wire, finishCalls, accepted, faulted := [], [], "", 0, [], false;
    }

    /** What Start does with a request before it is handled; `allowed` is what the configuration says about origins. */
    method TakeRequest(request: Request, allowed: string -> bool)
      requires View() == Fresh("")
      modifies this`header
      ensures View() == Fresh(HeadFor(request, allowed))
    {
      header := BuildHead(request, allowed);
    }

    method StartSseStream()
      modifies this`streamingResponse, this`posted
      ensures streamingResponse && posted == old(posted) + [StartClosure]
      ensures View() == Next(old(View()), CallStart)
    {
      streamingResponse := true;
      posted := posted + [StartClosure];
    }

    method WriteStreamChunk(chunk: string)
      modifies this`posted
      ensures posted == if streamingResponse then old(posted) + [ChunkClosure(chunk)] else old(posted)
      ensures View() == Next(old(View()), CallChunk(chunk))
    {
      if !streamingResponse {
        return;
      }
      posted := posted + [ChunkClosure(chunk)];
    }

    method FinishStream()
      modifies this`posted
      ensures posted == if streamingResponse then old(posted) + [FinishClosure] else old(posted)
      ensures View() == Next(old(View()), CallFinish)
    {
      if !streamingResponse {
        return;
      }
      posted := posted + [FinishClosure];
    }

    /** The executor takes the next closure. */
    method RunNextClosure()
      requires posted != []
      modifies this
      ensures View() == Next(old(View()), ClosureRuns)
    {
      var closure := posted[0];
      posted := posted[1..];
      match closure
      case StartClosure => EnsureSseStreamStarted();
      case ChunkClosure(chunk) => RunChunkClosure(chunk);
      case FinishClosure => RunFinishClosure();
    }

    /** The closure that WriteStreamChunk posts. */
    method RunChunkClosure(chunk: string)
      modifies this`streamHeaderStarted, this`streamWriteQueue, this`streamWriting, this`inFlight, this`accepted
      ensures streamWriteQueue == old(streamWriteQueue) +
                (if streamClosed || streamFinishRequested then []
                 else (if old(streamHeaderStarted) then [] else [StreamWrite(header, false)]) +
                      (if chunk == "" then []
                       else [StreamWrite(PrintHex(|chunk|) + "\r\n" + chunk + "\r\n", false)]))
      ensures View() == RunChunk(old(View()), chunk)
    {
      if streamClosed || streamFinishRequested {
        return;
      }
      EnsureSseStreamStarted();
      if chunk == "" {
        return;
      }
      accepted := accepted + [chunk];
      QueueStreamWrite(PrintHex(|chunk|) + "\r\n" + chunk + "\r\n", false);
    }

    /** The closure that FinishStream posts. */
    method RunFinishClosure()
      modifies this`streamHeaderStarted, this`streamWriteQueue, this`streamWriting, this`inFlight,
               this`streamFinishRequested
      ensures streamWriteQueue == old(streamWriteQueue) +
                (if streamClosed || old(streamFinishRequested) then []
                 else (if old(streamHeaderStarted) then [] else [StreamWrite(header, false)]) +
                      [StreamWrite("0\r\n\r\n", true)])
      ensures streamFinishRequested <==> old(streamFinishRequested) || !streamClosed
      ensures View() == RunFinish(old(View()))
    {
      if streamClosed || streamFinishRequested {
        return;
      }
      EnsureSseStreamStarted();
      streamFinishRequested := true;
      QueueStreamWrite("0\r\n\r\n", true);
    }

    method EnsureSseStreamStarted()
      modifies this`streamHeaderStarted, this`streamWriteQueue, this`streamWriting, this`inFlight
      ensures streamHeaderStarted <==> old(streamHeaderStarted) || !streamClosed
      ensures streamWriteQueue == old(streamWriteQueue) +
                (if streamClosed || old(streamHeaderStarted) then [] else [StreamWrite(header, false)])
      ensures View() == EnsureStarted(old(View()))
    {
      if streamClosed || streamHeaderStarted {
        return;
      }
      streamHeaderStarted := true;
      QueueStreamWrite(header, false);
    }

    method QueueStreamWrite(data: string, closes: bool)
      modifies this`streamWriteQueue, this`streamWriting, this`inFlight
      ensures streamWriteQueue == old(streamWriteQueue) + (if streamClosed then [] else [StreamWrite(data, closes)])
      ensures !streamClosed ==> streamWriting
      ensures View() == QueueWrite(old(View()), data, closes)
    {
      if streamClosed {
        return;
      }
      streamWriteQueue := streamWriteQueue + [StreamWrite(data, closes)];
      DoStreamWrite();
    }

    method DoStreamWrite()
      modifies this`streamWriting, this`inFlight
      ensures if !old(streamWriting) && streamWriteQueue != [] && !streamClosed
              then streamWriting && inFlight == old(inFlight) + [streamWriteQueue[0].data]
              else streamWriting == old(streamWriting) && inFlight == old(inFlight)
      ensures View() == DoWrite(old(View()))
    {
      if streamWriting || streamWriteQueue == [] || streamClosed {
        return;
      }
      streamWriting := true;
      inFlight := inFlight + [streamWriteQueue[0].data];
    }

    /** The socket gives the buffer in flight back; `sent` counts the bytes a failed write got out. */
    method BufferLeaves(failed: bool, sent: nat)
      requires inFlight != []
      modifies this`wire, this`inFlight, this`faulted
      ensures inFlight == old(inFlight)[1..] && old(wire) <= wire <= old(wire) + old(inFlight)[0]
      ensures !failed ==> wire == old(wire) + old(inFlight)[0]
      ensures View() == Leave(old(View()), failed, sent)
    {
      var buffer := inFlight[0];
      wire := wire + (if failed && sent < |buffer| then buffer[..sent] else buffer);
      inFlight := inFlight[1..];
      faulted := faulted || failed;
    }

    /** The completion handler of async_write. */
    method OnWriteComplete(failed: bool)
      modifies this`streamWriteQueue, this`streamWriting, this`streamClosed, this`finishCalls, this`inFlight
      ensures if failed || (old(streamWriteQueue) != [] && old(streamWriteQueue)[0].closes)
              then streamClosed && streamWriteQueue == [] && !streamWriting && finishCalls == old(finishCalls) + 1
              else streamClosed == old(streamClosed) && finishCalls == old(finishCalls) &&
                   streamWriteQueue == (if old(streamWriteQueue) == [] then [] else old(streamWriteQueue)[1..]) &&
                   streamWriting == (streamWriteQueue != [] && !streamClosed)
      ensures View() == Handle(old(View()), failed)
    {
      var closes := false;
      if streamWriteQueue != [] {
        closes := streamWriteQueue[0].closes;
        streamWriteQueue := streamWriteQueue[1..];
      }
      streamWriting := false;
      if failed || closes {
        streamClosed := true;
        streamWriteQueue := [];
        FinishRequest();
        return;
      }
      DoStreamWrite();
    }

    method FinishRequest()
      modifies this`finishCalls
      ensures finishCalls == old(finishCalls) + 1
    {
      finishCalls := finishCalls + 1;
    }
  }
}
