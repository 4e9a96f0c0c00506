/** The chat frames of tools/scripts/dev/runtime_smoke_full_chat.py: two 16-bit numbers, then the payload. */
module ChatFrames {
  import opened Common
  import Text

  /** An id and the bytes of a payload. */
  datatype Frame = Frame(id: nat, body: string)

  /** A frame as its reader sees it; an empty payload stands for an empty object. */
  datatype Message = Message(id: nat, payload: Payload)

  datatype Payload = EmptyObject | Parsed(json: string)

  /** json.loads, with its result in a canonical form. */
  type Decoder = string -> Option<string>

  /** struct.pack's H: sixteen bits, the high byte first. */
  function Pack(n: nat): (s: string)
    requires n <= 0xFFFF
    ensures |s| == 2 && Text.IsByteString(s)
  {
    [(n / 256) as char, (n % 256) as char]
  }

  /** The number that two bytes hold. */
  function Unpack(high: char, low: char): nat {
    high as nat * 256 + low as nat
  }

  lemma UnpackInvertsPack(n: nat)
    requires n <= 0xFFFF
    ensures Unpack(Pack(n)[0], Pack(n)[1]) == n
  {
  }

  lemma PackInvertsUnpack(high: char, low: char)
    requires high as int < 256 && low as int < 256
    ensures Unpack(high, low) <= 0xFFFF && Pack(Unpack(high, low)) == [high, low]
  {
    var hi, lo := high as nat, low as nat;
    assert (hi * 256 + lo) / 256 == hi && (hi * 256 + lo) % 256 == lo;
  }

  predicate Fits(f: Frame) {
    f.id <= 0xFFFF && |f.body| <= 0xFFFF
  }

  function Wire(f: Frame): string
    requires Fits(f)
  {
    Pack(f.id) + Pack(|f.body|) + f.body
  }

  /** encode_frame: a payload that is too large is a ValueError, an id that is too large a struct.error. */
  function EncodeFrame(f: Frame): Option<string> {
    if |f.body| > 0xFFFF || f.id > 0xFFFF then None else Some(Wire(f))
  }

  /** The frame that the bytes begin with, and how many bytes it takes. */
  function FrameAhead(bytes: string): Option<Frame> {
    if |bytes| < 4 then None
    else
      var size := Unpack(bytes[2], bytes[3]);
      if |bytes| - 4 < size then None else Some(Frame(Unpack(bytes[0], bytes[1]), bytes[4..4 + size]))
  }

  /** On the wire: the id and the length in two bytes each, the high byte first, then the payload. */
  lemma WireIs(f: Frame)
    requires f.id <= 0xFFFF && |f.body| <= 0xFFFF
    ensures EncodeFrame(f).Some?
    ensures var w := EncodeFrame(f).value;
            && |w| == 4 + |f.body| && w[4..] == f.body
            && w[0] as int < 256 && w[1] as int < 256 && w[2] as int < 256 && w[3] as int < 256
            && w[0] as int * 256 + w[1] as int == f.id && w[2] as int * 256 + w[3] as int == |f.body|
  {
    var w := Wire(f);
    assert w[0] == Pack(f.id)[0] && w[1] == Pack(f.id)[1] && w[2] == Pack(|f.body|)[0] && w[3] == Pack(|f.body|)[1];
  }

  /** A frame is ahead once its header and as many bytes as that says are there. */
  lemma FrameAheadIs(bytes: string)
    ensures FrameAhead(bytes).Some? <==> |bytes| >= 4 && |bytes| >= 4 + bytes[2] as int * 256 + bytes[3] as int
    ensures FrameAhead(bytes).Some? ==>
              var f := FrameAhead(bytes).value;
              f.id == bytes[0] as int * 256 + bytes[1] as int && |f.body| == bytes[2] as int * 256 + bytes[3] as int &&
              f.body <= bytes[4..]
  {
  }

  /** A frame at the front of the stream is read back, whatever follows it. */
  lemma FrameIsReadBack(f: Frame, rest: string)
    requires Fits(f)
    ensures FrameAhead(Wire(f) + rest) == Some(f)
    ensures (Wire(f) + rest)[4 + |f.body|..] == rest
  {
    var bytes := Wire(f) + rest;
    UnpackInvertsPack(f.id);
    UnpackInvertsPack(|f.body|);
    assert bytes[0] == Pack(f.id)[0] && bytes[1] == Pack(f.id)[1];
    assert bytes[2] == Pack(|f.body|)[0] && bytes[3] == Pack(|f.body|)[1];
    assert bytes[4..4 + |f.body|] == f.body;
  }

  /** encode_frame refuses exactly what a header cannot describe; anything else is read back. */
  lemma EncodedFrameIsReadBack(f: Frame, rest: string)
    ensures EncodeFrame(f).Some? <==> f.id <= 0xFFFF && |f.body| <= 0xFFFF
    ensures EncodeFrame(f).Some? ==> FrameAhead(EncodeFrame(f).value + rest) == Some(f)
  {
    if Fits(f) {
      FrameIsReadBack(f, rest);
    }
  }

  /** What is read is exactly what is at the front of the stream. */
  lemma FrameReadIsOnWire(bytes: string)
    requires Text.IsByteString(bytes) && FrameAhead(bytes).Some?
    ensures var f := FrameAhead(bytes).value;
            Fits(f) && bytes == Wire(f) + bytes[4 + |f.body|..]
  {
    var f := FrameAhead(bytes).value;
    PackInvertsUnpack(bytes[0], bytes[1]);
    PackInvertsUnpack(bytes[2], bytes[3]);
    assert bytes[..4] == [bytes[0], bytes[1]] + [bytes[2], bytes[3]];
  }

  // ---- receiving ----

  datatype Failure = ConnectionClosed | SocketTimedOut | DeadlinePassed | BadJson

  datatype Result<+T> = Ok(value: T) | Failed(failure: Failure)

  /** A socket: the bytes on their way, and whether the peer has closed, as opposed to being silent. */
  class Socket {
    var pending: string
    const closes: bool

    constructor (pending: string, closes: bool)
      ensures this.pending == pending && this.closes == closes
    {
      this.pending, this.closes := pending, closes;
    }

    function Ending(): Failure {
      if closes then ConnectionClosed else SocketTimedOut
    }

    /** socket.recv: any non-empty part of what is there, up to `size` bytes. */
    method Recv(size: nat) returns (chunk: Result<string>)
      requires size > 0
      modifies this
      ensures old(pending) == "" <==> chunk == Failed(Ending())
      ensures old(pending) == "" ==>
                pending == "" && chunk == Failed(if closes then ConnectionClosed else SocketTimedOut)
      ensures old(pending) != "" ==> chunk.Ok? && 0 < |chunk.value| <= size && chunk.value + pending == old(pending)
    {
      if pending == "" {
        return Failed(Ending());
      }
      var available := if size < |pending| then size else |pending|;
      var length: nat :| 0 < length <= available;
      chunk := Ok(pending[..length]);
      pending := pending[length..];
    }

    /** recv_exact: however the bytes are cut, exactly the next `size` of them, or the failure after the last one. */
    method RecvExact(size: nat) returns (bytes: Result<string>)
      modifies this
      ensures if size <= |old(pending)|
              then bytes == Ok(old(pending)[..size]) && pending == old(pending)[size..]
              else bytes == Failed(if closes then ConnectionClosed else SocketTimedOut) && pending == ""
    {
      var chunks := "";
      while |chunks| < size
        invariant |chunks| <= size && chunks + pending == old(pending)
        decreases size - |chunks|
      {
        var chunk := Recv(size - |chunks|);
        if chunk.Failed? {
          return Failed(chunk.failure);
        }
        Text.Assoc(chunks, chunk.value, pending);
        chunks := chunks + chunk.value;
      }
      assert old(pending)[..size] == chunks;
      return Ok(chunks);
    }

    method RecvFrame(decode: Decoder) returns (message: Result<Message>)
      modifies this
      ensures message == Received(old(pending), decode, Ending())
      ensures pending == Behind(old(pending))
    {
      var header := RecvExact(4);
      if header.Failed? {
        return Failed(header.failure);
      }
      var bytes := header.value;
      var id, size := Unpack(bytes[0], bytes[1]), Unpack(bytes[2], bytes[3]);
      var payload := RecvExact(size);
      if payload.Failed? {
        return Failed(payload.failure);
      }
      assert payload.value == old(pending)[4..4 + size];
      assert pending == old(pending)[4 + size..];
      return Decoded(Frame(id, payload.value), decode);
    }

    /** The loop body of recv_matching: a frame, whether it ends the loop, and what has been skipped by then. */
    method RecvRound(expected: set<nat>, accept: Message -> bool, decode: Decoder, ghost left: nat,
                     skipped: seq<Message>)
      returns (message: Result<Message>, ends: bool, longer: seq<Message>)
      requires left > 0
      modifies this
      ensures Onto(skipped, Scan(old(pending), expected, accept, decode, Ending(), left)) ==
              if ends then Scanned(message, longer, pending)
              else Onto(longer, Scan(pending, expected, accept, decode, Ending(), left - 1))
    {
      Round(pending, expected, accept, decode, Ending(), left);
      message := RecvFrame(decode);
      ends, longer := message.Failed? || (message.value.id in expected && accept(message.value)), skipped;
      if ends {
        OntoNothing(skipped, message, pending);
      } else {
        longer := skipped + [message.value];
        OntoOnto(skipped, [message.value], Scan(pending, expected, accept, decode, Ending(), left - 1));
      }
    }

    /** recv_matching; `rounds` is how often the clock is found before the deadline. */
    method RecvMatching(expected: set<nat>, accept: Message -> bool, decode: Decoder, rounds: nat)
      returns (match_: Result<Message>, skipped: seq<Message>)
      modifies this
      ensures Scan(old(pending), expected, accept, decode, Ending(), rounds) == Scanned(match_, skipped, pending)
    {
      skipped := [];
      var left := rounds;
      OntoEmpty(Scan(pending, expected, accept, decode, Ending(), rounds));
      while left > 0
        invariant Scan(old(pending), expected, accept, decode, Ending(), rounds)
               == Onto(skipped, Scan(pending, expected, accept, decode, Ending(), left))
      {
        var ends;
        match_, ends, skipped := RecvRound(expected, accept, decode, left, skipped);
        if ends {
          return match_, skipped;
        }
        left := left - 1;
      }
      OntoNothing(skipped, Failed(DeadlinePassed), pending);
      return Failed(DeadlinePassed), skipped;
    }
  }

  function Decoded(f: Frame, decode: Decoder): Result<Message> {
    if f.body == "" then Ok(Message(f.id, EmptyObject))
    else
      match decode(f.body)
      case None => Failed(BadJson)
      case Some(json) => Ok(Message(f.id, Parsed(json)))
  }

  /** What recv_frame makes of the bytes on their way. */
  function Received(bytes: string, decode: Decoder, ending: Failure): Result<Message> {
    match FrameAhead(bytes)
    case None => Failed(ending)
    case Some(f) => Decoded(f, decode)
  }

  /** What recv_frame leaves; an unfinished frame is lost. */
  function Behind(bytes: string): (rest: string)
    ensures FrameAhead(bytes).Some? ==> |rest| < |bytes|
  {
    match FrameAhead(bytes)
    case None => ""
    case Some(f) => bytes[4 + |f.body|..]
  }

  datatype Scanned = Scanned(result: Result<Message>, skipped: seq<Message>, pending: string)

  /** The same, with more skipped before. */
  function Onto(skipped: seq<Message>, s: Scanned): Scanned {
    s.(skipped := skipped + s.skipped)
  }

  /** What recv_matching makes of the bytes on their way. */
  function Scan(bytes: string, expected: set<nat>, accept: Message -> bool, decode: Decoder, ending: Failure,
                rounds: nat): Scanned
    decreases rounds
  {
    if rounds == 0 then Scanned(Failed(DeadlinePassed), [], bytes)
    else
      var message := Received(bytes, decode, ending);
      if message.Failed? || (message.value.id in expected && accept(message.value))
      then Scanned(message, [], Behind(bytes))
      else Onto([message.value], Scan(Behind(bytes), expected, accept, decode, ending, rounds - 1))
  }

  lemma Round(bytes: string, expected: set<nat>, accept: Message -> bool, decode: Decoder, ending: Failure, rounds: nat)
    requires rounds > 0
    ensures var message := Received(bytes, decode, ending);
            Scan(bytes, expected, accept, decode, ending, rounds) ==
            if message.Failed? || (message.value.id in expected && accept(message.value))
            then Scanned(message, [], Behind(bytes))
            else Onto([message.value], Scan(Behind(bytes), expected, accept, decode, ending, rounds - 1))
  {
  }

  lemma OntoEmpty(s: Scanned)
    ensures Onto([], s) == s
  {
    assert [] + s.skipped == s.skipped;
  }

  lemma OntoNothing(skipped: seq<Message>, result: Result<Message>, pending: string)
    ensures Onto(skipped, Scanned(result, [], pending)) == Scanned(result, skipped, pending)
  {
  }

  lemma OntoOnto(a: seq<Message>, b: seq<Message>, s: Scanned)
    ensures Onto(a, Onto(b, s)) == Onto(a + b, s)
  {
    assert a + (b + s.skipped) == a + b + s.skipped;
  }

  // ---- runs of frames ----

  predicate AllFit(frames: seq<Frame>) {
    forall i :: 0 <= i < |frames| ==> Fits(frames[i])
  }

  function WireOf(frames: seq<Frame>): string
    requires AllFit(frames)
  {
    if frames == [] then "" else Wire(frames[0]) + WireOf(frames[1..])
  }

  predicate Matches(m: Message, expected: set<nat>, accept: Message -> bool) {
    m.id in expected && accept(m)
  }

  /** The frame decodes to this message. */
  predicate Reads(f: Frame, m: Message, decode: Decoder) {
    Decoded(f, decode) == Ok(m)
  }

  /** One round of recv_matching, once its frame has decoded. */
  lemma ScanStep(bytes: string, f: Frame, m: Message, expected: set<nat>, accept: Message -> bool, decode: Decoder,
                 ending: Failure, rounds: nat)
    requires rounds > 0 && FrameAhead(bytes) == Some(f) && Reads(f, m, decode)
    ensures Scan(bytes, expected, accept, decode, ending, rounds)
         == if Matches(m, expected, accept) then Scanned(Ok(m), [], Behind(bytes))
            else Onto([m], Scan(Behind(bytes), expected, accept, decode, ending, rounds - 1))
  {
  }

  /** The stream of frames, and where its first frame ends. */
  lemma WireFirst(frames: seq<Frame>, rest: string)
    requires AllFit(frames) && frames != []
    ensures FrameAhead(WireOf(frames) + rest) == Some(frames[0])
    ensures Behind(WireOf(frames) + rest) == WireOf(frames[1..]) + rest
  {
    var w, later := Wire(frames[0]), WireOf(frames[1..]);
    Text.Assoc(w, later, rest);
    FrameIsReadBack(frames[0], later + rest);
  }

  /** The bytes begin with these frames, and `rest` is behind them. */
  predicate Delivers(bytes: string, frames: seq<Frame>, rest: string)
    decreases |frames|
  {
    if frames == [] then bytes == rest
    else FrameAhead(bytes) == Some(frames[0]) && Delivers(Behind(bytes), frames[1..], rest)
  }

  /** Frames that are encoded back to back are delivered. */
  lemma {:induction false} WireDelivers(frames: seq<Frame>, rest: string)
    requires AllFit(frames)
    ensures Delivers(WireOf(frames) + rest, frames, rest)
  {
    if frames == [] {
      assert "" + rest == rest;
    } else {
      WireFirst(frames, rest);
      WireDelivers(frames[1..], rest);
    }
  }

  /** And whatever is delivered was encoded back to back. */
  lemma {:induction false} DeliveredIsWire(bytes: string, frames: seq<Frame>, rest: string)
    requires Text.IsByteString(bytes) && Delivers(bytes, frames, rest)
    ensures AllFit(frames) && bytes == WireOf(frames) + rest
    decreases |frames|
  {
    if frames == [] {
      assert "" + rest == rest;
    } else {
      FrameReadIsOnWire(bytes);
      DeliveredIsWire(Behind(bytes), frames[1..], rest);
      Text.Assoc(Wire(frames[0]), WireOf(frames[1..]), rest);
    }
  }

  /** The frames read as messages that do not match, and a last one that does. */
  predicate LeadsTo(frames: seq<Frame>, skipped: seq<Message>, m: Message,
                    expected: set<nat>, accept: Message -> bool, decode: Decoder)
    decreases |skipped|
  {
    if skipped == [] then |frames| == 1 && Reads(frames[0], m, decode) && Matches(m, expected, accept)
    else
      && frames != [] && Reads(frames[0], skipped[0], decode) && !Matches(skipped[0], expected, accept)
      && LeadsTo(frames[1..], skipped[1..], m, expected, accept, decode)
  }

  lemma OntoFirst(skipped: seq<Message>, result: Result<Message>, rest: string)
    requires skipped != []
    ensures Onto([skipped[0]], Scanned(result, skipped[1..], rest)) == Scanned(result, skipped, rest)
  {
    assert skipped == [skipped[0]] + skipped[1..];
  }

  /** What is skipped is exactly the frames before the match, and what is consumed exactly the frames up to it. */
  lemma {:induction false} MatchIsFound(bytes: string, frames: seq<Frame>, rest: string, skipped: seq<Message>,
                                        m: Message, expected: set<nat>, accept: Message -> bool, decode: Decoder,
                                        ending: Failure, rounds: nat)
    requires Delivers(bytes, frames, rest) && LeadsTo(frames, skipped, m, expected, accept, decode)
    requires |skipped| < rounds
    ensures Scan(bytes, expected, accept, decode, ending, rounds) == Scanned(Ok(m), skipped, rest)
    decreases |skipped|
  {
    if skipped == [] {
      ScanStep(bytes, frames[0], m, expected, accept, decode, ending, rounds);
    } else {
      MatchIsFound(Behind(bytes), frames[1..], rest, skipped[1..], m, expected, accept, decode, ending, rounds - 1);
      ScanStep(bytes, frames[0], skipped[0], expected, accept, decode, ending, rounds);
      OntoFirst(skipped, Ok(m), rest);
    }
  }

  /** The message has the frame's id, and the empty object for an empty payload, else what it decodes to. */
  predicate Carries(f: Frame, m: Message, decode: Decoder) {
    && m.id == f.id
    && if f.body == "" then m.payload == EmptyObject
       else decode(f.body).Some? && m.payload == Parsed(decode(f.body).value)
  }

  predicate AllCarried(frames: seq<Frame>, messages: seq<Message>, decode: Decoder) {
    |frames| == |messages| && forall i :: 0 <= i < |frames| ==> Carries(frames[i], messages[i], decode)
  }

  predicate NoneMatches(messages: seq<Message>, expected: set<nat>, accept: Message -> bool) {
    forall i :: 0 <= i < |messages| ==> !(messages[i].id in expected && accept(messages[i]))
  }

  lemma CarriedIsRead(f: Frame, m: Message, decode: Decoder)
    ensures Reads(f, m, decode) <==> Carries(f, m, decode)
  {
  }

  lemma {:induction false} CarriedLeadTo(frames: seq<Frame>, messages: seq<Message>, m: Message, expected: set<nat>,
                                         accept: Message -> bool, decode: Decoder)
    requires AllCarried(frames, messages + [m], decode)
    requires NoneMatches(messages, expected, accept) && m.id in expected && accept(m)
    ensures LeadsTo(frames, messages, m, expected, accept, decode)
    decreases |messages|
  {
    CarriedIsRead(frames[0], (messages + [m])[0], decode);
    if messages != [] {
      assert (messages + [m])[1..] == messages[1..] + [m];
      CarriedLeadTo(frames[1..], messages[1..], m, expected, accept, decode);
    }
  }

  /**
   * Encoded frames, the last of which is the first one to match: that is the result, with the id and the payload
   * that were encoded, and what was skipped are the messages of the frames before it.
   */
  lemma EncodedMatchIsFound(frames: seq<Frame>, rest: string, messages: seq<Message>, m: Message, expected: set<nat>,
                            accept: Message -> bool, decode: Decoder, ending: Failure, rounds: nat)
    requires AllFit(frames) && AllCarried(frames, messages + [m], decode)
    requires NoneMatches(messages, expected, accept) && m.id in expected && accept(m)
    requires |messages| < rounds
    ensures Scan(WireOf(frames) + rest, expected, accept, decode, ending, rounds) == Scanned(Ok(m), messages, rest)
  {
    WireDelivers(frames, rest);
    CarriedLeadTo(frames, messages, m, expected, accept, decode);
    MatchIsFound(WireOf(frames) + rest, frames, rest, messages, m, expected, accept, decode, ending, rounds);
  }

  /** What the last round fails with: no whole frame is there, or one whose payload is not JSON. */
  predicate FailsAs(rest: string, failure: Failure, decode: Decoder, ending: Failure) {
    match FrameAhead(rest)
    case None => failure == ending
    case Some(f) => f.body != "" && decode(f.body).None? && failure == BadJson
  }

  /** Frames that do not match are skipped one by one, which leaves `left` of the rounds. */
  lemma {:induction false} AllAreSkipped(bytes: string, frames: seq<Frame>, rest: string, messages: seq<Message>,
                                         expected: set<nat>, accept: Message -> bool, decode: Decoder,
                                         ending: Failure, rounds: nat, left: nat)
    requires Delivers(bytes, frames, rest) && AllCarried(frames, messages, decode) && rounds == |frames| + left
    requires NoneMatches(messages, expected, accept)
    ensures Scan(bytes, expected, accept, decode, ending, rounds) ==
            Onto(messages, Scan(rest, expected, accept, decode, ending, left))
    decreases |frames|
  {
    var tail := Scan(rest, expected, accept, decode, ending, left);
    if frames == [] {
      OntoEmpty(tail);
    } else {
      var behind := DeliveredFirst(bytes, frames, rest);
      var fewer: nat := rounds - 1;
      CarriedRest(frames, messages, expected, accept, decode);
      AllAreSkipped(behind, frames[1..], rest, messages[1..], expected, accept, decode, ending, fewer, left);
      FirstIsSkipped(bytes, behind, frames[0], messages[0], expected, accept, decode, ending, rounds, fewer);
      OntoRest(messages, tail);
    }
  }

  lemma DeliveredFirst(bytes: string, frames: seq<Frame>, rest: string) returns (behind: string)
    requires Delivers(bytes, frames, rest) && frames != []
    ensures FrameAhead(bytes) == Some(frames[0]) && behind == Behind(bytes) && Delivers(behind, frames[1..], rest)
  {
    behind := Behind(bytes);
  }

  lemma CarriedRest(frames: seq<Frame>, messages: seq<Message>, expected: set<nat>, accept: Message -> bool,
                    decode: Decoder)
    requires AllCarried(frames, messages, decode) && NoneMatches(messages, expected, accept) && frames != []
    ensures AllCarried(frames[1..], messages[1..], decode) && NoneMatches(messages[1..], expected, accept)
    ensures Carries(frames[0], messages[0], decode) && !(messages[0].id in expected && accept(messages[0]))
  {
  }

  lemma FirstIsSkipped(bytes: string, behind: string, f: Frame, m: Message, expected: set<nat>,
                       accept: Message -> bool, decode: Decoder, ending: Failure, rounds: nat, fewer: nat)
    requires FrameAhead(bytes) == Some(f) && behind == Behind(bytes) && Carries(f, m, decode)
    requires !(m.id in expected && accept(m)) && rounds == fewer + 1
    ensures Scan(bytes, expected, accept, decode, ending, rounds) ==
            Onto([m], Scan(behind, expected, accept, decode, ending, fewer))
  {
    CarriedIsRead(f, m, decode);
    ScanStep(bytes, f, m, expected, accept, decode, ending, rounds);
  }

  lemma OntoRest(messages: seq<Message>, s: Scanned)
    requires messages != []
    ensures Onto([messages[0]], Onto(messages[1..], s)) == Onto(messages, s)
  {
    OntoOnto([messages[0]], messages[1..], s);
    assert [messages[0]] + messages[1..] == messages;
  }

  /** As many encoded frames that do not match as there are rounds: the deadline passes, and nothing more is read. */
  lemma DeadlinePasses(frames: seq<Frame>, rest: string, messages: seq<Message>, expected: set<nat>,
                       accept: Message -> bool, decode: Decoder, ending: Failure)
    requires AllFit(frames) && AllCarried(frames, messages, decode) && NoneMatches(messages, expected, accept)
    ensures Scan(WireOf(frames) + rest, expected, accept, decode, ending, |frames|)
         == Scanned(Failed(DeadlinePassed), messages, rest)
  {
    WireDelivers(frames, rest);
    AllAreSkipped(WireOf(frames) + rest, frames, rest, messages, expected, accept, decode, ending, |frames|, 0);
    OntoNothing(messages, Failed(DeadlinePassed), rest);
  }

  /** Only encoded frames that do not match, and then a failure: it is reported. */
  lemma FailureIsReported(frames: seq<Frame>, rest: string, messages: seq<Message>, failure: Failure,
                          expected: set<nat>, accept: Message -> bool, decode: Decoder, ending: Failure, rounds: nat)
    requires AllFit(frames) && AllCarried(frames, messages, decode) && NoneMatches(messages, expected, accept)
    requires FailsAs(rest, failure, decode, ending) && |frames| < rounds
    ensures Scan(WireOf(frames) + rest, expected, accept, decode, ending, rounds)
         == Scanned(Failed(failure), messages, Behind(rest))
  {
    WireDelivers(frames, rest);
    AllAreSkipped(WireOf(frames) + rest, frames, rest, messages, expected, accept, decode, ending,
                  rounds, rounds - |frames|);
    OntoNothing(messages, Failed(failure), Behind(rest));
  }

  /** Whatever the bytes are: a match and what was skipped before it are the frames at their front. */
  lemma {:induction false} ConsumedIsPrefix(bytes: string, expected: set<nat>, accept: Message -> bool, decode: Decoder,
                                            ending: Failure, rounds: nat)
    returns (frames: seq<Frame>)
    requires Scan(bytes, expected, accept, decode, ending, rounds).result.Ok?
    ensures var s := Scan(bytes, expected, accept, decode, ending, rounds);
            && Delivers(bytes, frames, s.pending) && |s.skipped| < rounds
            && LeadsTo(frames, s.skipped, s.result.value, expected, accept, decode)
    decreases rounds
  {
    var f, message := FrameAhead(bytes).value, Received(bytes, decode, ending).value;
    ScanStep(bytes, f, message, expected, accept, decode, ending, rounds);
    if Matches(message, expected, accept) {
      frames := [f];
      assert frames[1..] == [];
    } else {
      var fewer: nat := rounds - 1;
      var s := Scan(Behind(bytes), expected, accept, decode, ending, fewer);
      var later := ConsumedIsPrefix(Behind(bytes), expected, accept, decode, ending, fewer);
      frames := [f] + later;
      PrependDelivered(bytes, f, later, s.pending);
      PrependSkipped(f, message, later, s.skipped, s.result.value, expected, accept, decode);
    }
  }

  lemma PrependDelivered(bytes: string, f: Frame, later: seq<Frame>, rest: string)
    requires FrameAhead(bytes) == Some(f) && Delivers(Behind(bytes), later, rest)
    ensures Delivers(bytes, [f] + later, rest)
  {
    assert ([f] + later)[1..] == later;
  }

  lemma PrependSkipped(f: Frame, m: Message, later: seq<Frame>, skipped: seq<Message>, match_: Message,
                       expected: set<nat>, accept: Message -> bool, decode: Decoder)
    requires Reads(f, m, decode) && !Matches(m, expected, accept)
    requires LeadsTo(later, skipped, match_, expected, accept, decode)
    ensures LeadsTo([f] + later, [m] + skipped, match_, expected, accept, decode)
  {
    assert ([f] + later)[1..] == later && ([m] + skipped)[1..] == skipped;
  }
}
