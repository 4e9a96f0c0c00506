/** The event generator of AIOrchestrator/api/chat_router.py, read back by the reader on the other side of the hop. */
module SsePrinter {
  import opened Common
  import Text
  import opened SseReader

  function Frame(payload: string): string {
    PREFIX + payload + "\n\n"
  }

  function FrameList(payloads: seq<string>): seq<string> {
    seq(|payloads|, i requires 0 <= i < |payloads| => Frame(payloads[i]))
  }

  function Print(payloads: seq<string>): string {
    Text.Concat(FrameList(payloads))
  }

  /** The payloads the turn yields, then one error payload when the turn raises. */
  function Payloads(turn: seq<string>, raised: Option<string>): seq<string> {
    turn + (if raised.Some? then [raised.value] else [])
  }

  /** `raised` holds the error payload of the exception that ends the turn, if one does. */
  method EventGenerator(turn: seq<string>, raised: Option<string>) returns (frames: seq<string>, success: bool)
    ensures frames == FrameList(Payloads(turn, raised))
    ensures success == raised.None?
  {
    frames, success := [], false;
    for i := 0 to |turn|
      invariant frames == FrameList(turn[..i])
    {
      frames := frames + [Frame(turn[i])];
    }
    assert turn[..|turn|] == turn;
    if raised.Some? {
      frames := frames + [Frame(raised.value)];
    } else {
      success := true;
    }
  }

  /** A payload that survives the hop: one line that does not end in white space. JSON objects end in '}'. */
  predicate Sendable(payload: string) {
    payload != "" && '\n' !in payload && !IsTrimChar(payload[|payload| - 1])
  }

  /** Reading the payloads themselves, up to and including the first one that ends the stream. */
  function FoldPayloads(c: Client, s: State, payloads: seq<string>): (State, bool)
    decreases |payloads|
  {
    if payloads == [] then (s, false)
    else
      var (t, done) := Absorb(c, s, PREFIX + payloads[0]);
      if done then (t, true) else FoldPayloads(c, t, payloads[1..])
  }

  lemma FrameLines(payload: string, rest: string)
    requires Sendable(payload)
    ensures Text.Split(Frame(payload) + rest, '\n') == [PREFIX + payload, ""] + Text.Split(rest, '\n')
    ensures Trim(PREFIX + payload) == PREFIX + payload && Trim("") == ""
  {
    FrameCuts(payload, rest);
    LineIsWhole(payload);
    SplitLineAndBlank(PREFIX + payload, rest);
  }

  lemma SplitLineAndBlank(line: string, rest: string)
    requires '\n' !in line
    ensures Text.Split(line + ['\n'] + ("" + ['\n'] + rest), '\n') == [line, ""] + Text.Split(rest, '\n')
  {
    Text.SplitAtSeparator(line, '\n', "" + ['\n'] + rest);
    Text.SplitAtSeparator("", '\n', rest);
    Text.AssocParts([line], [""], Text.Split(rest, '\n'));
    assert [line] + [""] == [line, ""];
  }

  lemma LineIsWhole(payload: string)
    requires Sendable(payload)
    ensures '\n' !in PREFIX + payload && Trim(PREFIX + payload) == PREFIX + payload
  {
    assert '\n' !in PREFIX;
    assert (PREFIX + payload)[|PREFIX + payload| - 1] == payload[|payload| - 1];
  }

  lemma FrameCuts(payload: string, rest: string)
    ensures Frame(payload) + rest == PREFIX + payload + ['\n'] + ("" + ['\n'] + rest)
  {
  }

  lemma FoldTwo(c: Client, s: State, line: string, rest: seq<string>)
    requires line != "" && Trim(line) == line
    ensures Fold(c, s, [line, ""] + rest) ==
            var (t, done) := Absorb(c, s, line);
            if done then (t, true) else Fold(c, t, rest)
  {
    assert ([line, ""] + rest)[1..] == [""] + rest && ([""] + rest)[1..] == rest;
  }

  lemma {:induction false} PrintedLinesFold(c: Client, s: State, payloads: seq<string>)
    requires forall i :: 0 <= i < |payloads| ==> Sendable(payloads[i])
    ensures Fold(c, s, Text.Split(Print(payloads), '\n')) == FoldPayloads(c, s, payloads)
    decreases |payloads|
  {
    if payloads == [] {
      Text.SplitNoSeparator("", '\n');
      assert [""][1..] == [];
    } else {
      var rest := payloads[1..];
      assert FrameList(payloads)[1..] == FrameList(rest);
      FrameLines(payloads[0], Print(rest));
      FoldTwo(c, s, PREFIX + payloads[0], Text.Split(Print(rest), '\n'));
      PrintedLinesFold(c, Absorb(c, s, PREFIX + payloads[0]).0, rest);
    }
  }

  /** However the printed stream is cut into reads, the reader folds exactly the payloads. */
  lemma PrintedStreamIsRead(c: Client, payloads: seq<string>, first: string, pieces: seq<Read>)
    requires forall i :: 0 <= i < |payloads| ==> Sendable(payloads[i])
    requires first + Received(pieces) == Print(payloads) && ReadError !in pieces
    ensures Outcome(c, first + Received(pieces), ReadError in pieces) ==
            (Finish(c, FoldPayloads(c, START, payloads).0), Ok)
  {
    OutcomeFoldsAllLines(c, Print(payloads));
    PrintedLinesFold(c, START, payloads);
  }

  // ---- the payloads are recovered ----

  /** Every payload decodes, and none is the end marker of other producers. */
  predicate Decodes(c: Client, payloads: seq<string>) {
    forall i :: 0 <= i < |payloads| ==> payloads[i] != DONE && c.decode(payloads[i]).Some?
  }

  function Chunks(c: Client, payloads: seq<string>): seq<Chunk>
    requires Decodes(c, payloads)
  {
    seq(|payloads|, i requires 0 <= i < |payloads| => c.decode(payloads[i]).value)
  }

  /** The chunks up to and including the first final one. */
  function UpToFinal(ks: seq<Chunk>): (r: seq<Chunk>)
    ensures r <= ks
    ensures forall i :: 0 <= i < |r| - 1 ==> !r[i].isFinal
    ensures |r| < |ks| ==> r != [] && r[|r| - 1].isFinal
  {
    if ks == [] then [] else if ks[0].isFinal then [ks[0]] else [ks[0]] + UpToFinal(ks[1..])
  }

  predicate EndsFinal(ks: seq<Chunk>) {
    ks != [] && ks[|ks| - 1].isFinal
  }

  function TakeAll(c: Client, s: State, ks: seq<Chunk>): State {
    if ks == [] then s else Take(c, TakeAll(c, s, ks[..|ks| - 1]), ks[|ks| - 1])
  }

  lemma {:induction false} TakeAllFirst(c: Client, s: State, k: Chunk, ks: seq<Chunk>)
    ensures TakeAll(c, s, [k] + ks) == TakeAll(c, Take(c, s, k), ks)
  {
    var all := [k] + ks;
    if ks == [] {
      assert all[..0] == [];
    } else {
      assert all[..|all| - 1] == [k] + ks[..|ks| - 1];
      TakeAllFirst(c, s, k, ks[..|ks| - 1]);
    }
  }

  lemma AbsorbPayload(c: Client, s: State, payload: string)
    requires payload != DONE && c.decode(payload).Some?
    ensures Absorb(c, s, PREFIX + payload) == (Take(c, s, c.decode(payload).value), c.decode(payload).value.isFinal)
  {
    assert (PREFIX + payload)[6..] == payload;
  }

  /** Folding the payloads takes exactly the chunks up to the first final one. */
  lemma {:induction false} PayloadsAreTaken(c: Client, s: State, payloads: seq<string>)
    requires Decodes(c, payloads)
    ensures var ks := UpToFinal(Chunks(c, payloads));
            FoldPayloads(c, s, payloads) == (TakeAll(c, s, ks), EndsFinal(ks))
    decreases |payloads|
  {
    if payloads != [] {
      var k, rest := c.decode(payloads[0]).value, Chunks(c, payloads[1..]);
      assert Chunks(c, payloads) == [k] + rest;
      AbsorbPayload(c, s, payloads[0]);
      if k.isFinal {
        TakeAllFirst(c, s, k, []);
      } else {
        PayloadsAreTaken(c, Take(c, s, k), payloads[1..]);
        TakeAllFirst(c, s, k, UpToFinal(rest));
      }
    }
  }

  function Texts(ks: seq<Chunk>): string {
    if ks == [] then "" else Texts(ks[..|ks| - 1]) + ks[|ks| - 1].text
  }

  /** The last id that the chunks give, if any. */
  function IdAfter(id: string, ks: seq<Chunk>): string {
    if ks == [] then id
    else if ks[|ks| - 1].msgId != "" then ks[|ks| - 1].msgId
    else IdAfter(id, ks[..|ks| - 1])
  }

  /** The last positive token count that the chunks give, if any. */
  function TokensAfter(tokens: int, ks: seq<Chunk>): int {
    if ks == [] then tokens
    else if ks[|ks| - 1].tokens > 0 then ks[|ks| - 1].tokens
    else TokensAfter(tokens, ks[..|ks| - 1])
  }

  /** The callback for one chunk of the list, with the id and the token count in force by then. */
  function CallbackAt(s: State, ks: seq<Chunk>, i: nat): Callback
    requires i < |ks|
  {
    var upTo := ks[..i + 1];
    Callback(ks[i].text, ks[i].isFinal, IdAfter(s.msgId, upTo), TokensAfter(s.tokens, upTo), ks[i].detail)
  }

  /** One callback per chunk, in order. */
  lemma {:induction false} TakenChunksAreEmitted(c: Client, s: State, ks: seq<Chunk>)
    requires c.hasCallback
    ensures var t := TakeAll(c, s, ks);
            && t.accumulated == s.accumulated + Texts(ks)
            && t.msgId == IdAfter(s.msgId, ks) && t.tokens == TokensAfter(s.tokens, ks)
            && |t.emitted| == |s.emitted| + |ks| && s.emitted <= t.emitted
            && forall i :: 0 <= i < |ks| ==> t.emitted[|s.emitted| + i] == CallbackAt(s, ks, i)
  {
    if ks != [] {
      var front, k := ks[..|ks| - 1], ks[|ks| - 1];
      TakenChunksAreEmitted(c, s, front);
      Text.Assoc(s.accumulated, Texts(front), k.text);
      forall i | 0 <= i < |front| ensures CallbackAt(s, ks, i) == CallbackAt(s, front, i) {
        assert ks[..i + 1] == front[..i + 1];
      }
      assert ks[..|ks|] == ks;
    }
  }

  lemma {:induction false} FinalIsSeen(c: Client, s: State, ks: seq<Chunk>)
    ensures EndsFinal(ks) ==> TakeAll(c, s, ks).sawFinal
    ensures EndsFinal(ks) && c.hasResult ==>
              var t, detail := TakeAll(c, s, ks), ks[|ks| - 1].detail;
              t.stored == Final(t.accumulated, t.tokens, detail.traceId, detail.skill, detail.feedback)
  {
  }

  /** The text of all the chunks, the last token count, and the details of the final chunk, if that is one. */
  function StoredFrom(ks: seq<Chunk>): Stored {
    if EndsFinal(ks) then
      var detail := ks[|ks| - 1].detail;
      Final(Texts(ks), TokensAfter(0, ks), detail.traceId, detail.skill, detail.feedback)
    else Fallback(Texts(ks), TokensAfter(0, ks))
  }

  /**
   * The whole hop: a printed stream, cut anywhere, makes the callbacks of its chunks up to the first
   * final one, and stores the text of exactly those chunks, with their last token count, and the trace id, the
   * skill and the feedback of the final chunk; without one what is stored has neither.
   */
  lemma HopDeliversChunks(c: Client, payloads: seq<string>, first: string, pieces: seq<Read>)
    requires forall i :: 0 <= i < |payloads| ==>
               payloads[i] != "" && '\n' !in payloads[i] && !IsTrimChar(payloads[i][|payloads[i]| - 1])
    requires forall i :: 0 <= i < |payloads| ==> payloads[i] != "[DONE]" && c.decode(payloads[i]).Some?
    requires c.hasCallback && c.hasResult
    requires first + Received(pieces) == Print(payloads) && ReadError !in pieces
    ensures var (s, status) := Outcome(c, first + Received(pieces), ReadError in pieces);
            var ks := UpToFinal(Chunks(c, payloads));
            && status == Ok && |s.emitted| == |ks|
            && (forall i :: 0 <= i < |ks| ==> s.emitted[i] == CallbackAt(START, ks, i))
            && s.stored == StoredFrom(ks)
  {
    var ks := UpToFinal(Chunks(c, payloads));
    PrintedStreamIsRead(c, payloads, first, pieces);
    PayloadsAreTaken(c, START, payloads);
    FinishedChunks(c, ks);
  }

  lemma FinishedChunks(c: Client, ks: seq<Chunk>)
    requires c.hasCallback && c.hasResult
    requires forall i :: 0 <= i < |ks| - 1 ==> !ks[i].isFinal
    ensures var s := Finish(c, TakeAll(c, START, ks));
            && |s.emitted| == |ks|
            && (forall i :: 0 <= i < |ks| ==> s.emitted[i] == CallbackAt(START, ks, i))
            && s.stored == StoredFrom(ks)
  {
    var t := TakeAll(c, START, ks);
    TakenChunksAreEmitted(c, START, ks);
    assert t.accumulated == Texts(ks) by { assert "" + Texts(ks) == Texts(ks); }
    assert forall i :: 0 <= i < |ks| ==> t.emitted[|START.emitted| + i] == CallbackAt(START, ks, i);
    FinalIsSeen(c, START, ks);
    if !EndsFinal(ks) {
      NoFinalNoMark(c, START, ks);
    }
  }

  lemma {:induction false} NoFinalNoMark(c: Client, s: State, ks: seq<Chunk>)
    requires !s.sawFinal && s.stored.Nothing?
    requires forall i :: 0 <= i < |ks| ==> !ks[i].isFinal
    ensures !TakeAll(c, s, ks).sawFinal && TakeAll(c, s, ks).stored.Nothing?
  {
    if ks != [] {
      NoFinalNoMark(c, s, ks[..|ks| - 1]);
    }
  }

  /**
   * A turn that raises still ends in a final chunk at the reader: the error payload, unless an earlier chunk is final.
   * So no fallback result is made up for it.
   */
  lemma RaisedTurnIsFinal(c: Client, turn: seq<string>, raised: string)
    requires Decodes(c, Payloads(turn, Some(raised))) && c.decode(raised) != None
    requires c.decode(raised).value.isFinal
    ensures FoldPayloads(c, START, Payloads(turn, Some(raised))).1
    ensures FoldPayloads(c, START, Payloads(turn, Some(raised))).0.sawFinal
    ensures var ks := Chunks(c, Payloads(turn, Some(raised)));
            (forall i :: 0 <= i < |turn| ==> !ks[i].isFinal) ==>
              UpToFinal(ks) == ks && ks[|turn|] == c.decode(raised).value
  {
    var all := Payloads(turn, Some(raised));
    PayloadsAreTaken(c, START, all);
    var ks := Chunks(c, all);
    assert ks[|ks| - 1] == c.decode(raised).value;
    FinalIsSeen(c, START, UpToFinal(ks));
  }

  /** A stream that ends with the bare end marker leaves the caller's result object untouched. */
  lemma DoneMarkerStoresNothing(c: Client)
    ensures Outcome(c, PREFIX + DONE + "\n", false).0.stored == Nothing
  {
    var line := PREFIX + DONE;
    assert line + "\n" == line + ['\n'] + "";
    Text.SplitAtSeparator(line, '\n', "");
    Text.SplitNoSeparator("", '\n');
    assert Closed(line + "\n") == [line];
    assert line[6..] == DONE && Trim(line) == line;
    assert [line][1..] == [];
  }
}
