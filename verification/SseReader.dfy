/** The incremental server-sent-event reader of AIServer/AIServiceClient.cpp. */
module SseReader {
  import opened Common
  import Text

  /** What the JSON of one data line says. */
  datatype Chunk = Chunk(text: string, isFinal: bool, msgId: string, tokens: int, detail: Detail)

  datatype Detail = Detail(traceId: string, skill: string, feedback: string, observations: string, events: string)

  datatype Callback = Callback(text: string, isFinal: bool, msgId: string, tokens: int, detail: Detail)

  /** What is written to the caller's result object, if anything. */
  datatype Stored =
    | Nothing
    | Final(content: string, tokens: int, traceId: string, skill: string, feedback: string)
    | Fallback(content: string, tokens: int)

  datatype State = State(
    accumulated: string,
    msgId: string,
    tokens: int,
    sawFinal: bool,
    emitted: seq<Callback>,
    stored: Stored)

  const START := State("", "", 0, false, [], Nothing)

  /** The JSON parser, and whether the caller passed a callback and a result object. */
  datatype Client = Client(decode: string -> Option<Chunk>, hasCallback: bool, hasResult: bool)

  const PREFIX := "data: "
  const DONE := "[DONE]"

  predicate IsTrimChar(c: char) {
    c == ' ' || c == '\t' || c == '\r'
  }

  function Trim(line: string): (r: string)
    ensures r <= line
    ensures r != "" ==> !IsTrimChar(r[|r| - 1])
    ensures forall i :: |r| <= i < |line| ==> IsTrimChar(line[i])
  {
    if line != "" && IsTrimChar(line[|line| - 1]) then Trim(line[..|line| - 1]) else line
  }

  /** One decoded chunk: its effect on the state. */
  function Take(c: Client, s: State, k: Chunk): State {
    var msgId := if k.msgId != "" then k.msgId else s.msgId;
    var tokens := if k.tokens > 0 then k.tokens else s.tokens;
    var text := s.accumulated + k.text;
    State(
      text, msgId, tokens, s.sawFinal || k.isFinal,
      if c.hasCallback then s.emitted + [Callback(k.text, k.isFinal, msgId, tokens, k.detail)] else s.emitted,
      if k.isFinal && c.hasResult then Final(text, tokens, k.detail.traceId, k.detail.skill, k.detail.feedback)
      else s.stored)
  }

  /** One trimmed line: the new state, and whether the stream is over. */
  function Absorb(c: Client, s: State, line: string): (State, bool) {
    if !(PREFIX <= line) then (s, false)
    else if line[6..] == DONE then (s.(sawFinal := true), true)
    else
      match c.decode(line[6..])
      case None => (s, false)
      case Some(k) => (Take(c, s, k), k.isFinal)
  }

  function AbsorbRaw(c: Client, s: State, raw: string): (State, bool) {
    if Trim(raw) == "" then (s, false) else Absorb(c, s, Trim(raw))
  }

  /** The lines in order, up to and including the first one that ends the stream. */
  function Fold(c: Client, s: State, lines: seq<string>): (State, bool)
    decreases |lines|
  {
    if lines == [] then (s, false)
    else
      var (t, done) := AbsorbRaw(c, s, lines[0]);
      if done then (t, true) else Fold(c, t, lines[1..])
  }

  lemma {:induction false} FoldAppend(c: Client, s: State, a: seq<string>, b: seq<string>)
    ensures Fold(c, s, a + b) ==
            if Fold(c, s, a).1 then Fold(c, s, a) else Fold(c, Fold(c, s, a).0, b)
    decreases |a|
  {
    if a == [] {
      assert a + b == b;
    } else {
      assert (a + b)[0] == a[0] && (a + b)[1..] == a[1..] + b;
      FoldAppend(c, AbsorbRaw(c, s, a[0]).0, a[1..], b);
    }
  }

  /** What is left to do once reading is over. */
  function Finish(c: Client, s: State): State {
    if !s.sawFinal && c.hasResult then s.(stored := Fallback(s.accumulated, s.tokens)) else s
  }

  // ---- the specification: the whole body at once ----

  datatype Read = Data(bytes: string) | ReadError
  datatype Status = Ok | Unavailable

  /** The body up to the first read error. */
  function Received(pieces: seq<Read>): string
    decreases |pieces|
  {
    if pieces == [] || pieces[0].ReadError? then "" else pieces[0].bytes + Received(pieces[1..])
  }

  /** The newline-terminated lines and the open one behind them. */
  function Closed(body: string): seq<string> {
    var lines := Text.Split(body, '\n');
    lines[..|lines| - 1]
  }

  function Open(body: string): string {
    var lines := Text.Split(body, '\n');
    lines[|lines| - 1]
  }

  function Outcome(c: Client, body: string, broken: bool): (State, Status) {
    var (s, done) := Fold(c, START, Closed(body));
    if done then (Finish(c, s), Ok)
    else if broken then (s, Unavailable)
    else (Finish(c, AbsorbRaw(c, s, Open(body)).0), Ok)
  }

  /** Without a read error every line counts, the unterminated last one included. */
  lemma OutcomeFoldsAllLines(c: Client, body: string)
    ensures Outcome(c, body, false) == (Finish(c, Fold(c, START, Text.Split(body, '\n')).0), Ok)
  {
    var lines := Text.Split(body, '\n');
    assert lines == Closed(body) + [Open(body)];
    FoldAppend(c, START, Closed(body), [Open(body)]);
    assert [Open(body)][1..] == [];
  }

  predicate IsMarker(raw: string) {
    PREFIX <= Trim(raw) && Trim(raw)[6..] == DONE
  }

  /** The line ends the stream: the end marker, or a final chunk. */
  predicate Ends(c: Client, raw: string) {
    IsMarker(raw) ||
    (PREFIX <= Trim(raw) && c.decode(Trim(raw)[6..]).Some? && c.decode(Trim(raw)[6..]).value.isFinal)
  }

  /** The first line that ends the stream is the bare end marker. */
  predicate EndsInMarker(c: Client, lines: seq<string>)
    decreases |lines|
  {
    lines != [] && (if Ends(c, lines[0]) then IsMarker(lines[0]) else EndsInMarker(c, lines[1..]))
  }

  lemma AbsorbEnds(c: Client, s: State, raw: string)
    ensures var (t, done) := AbsorbRaw(c, s, raw);
            && done == Ends(c, raw)
            && t.sawFinal == (s.sawFinal || done)
            && (c.hasResult && done && !IsMarker(raw) ==> t.stored != Nothing)
            && (!done || IsMarker(raw) ==> t.stored == s.stored)
  {
  }

  lemma {:induction false} FoldStores(c: Client, s: State, lines: seq<string>)
    requires c.hasResult && !s.sawFinal && s.stored == Nothing
    ensures Finish(c, Fold(c, s, lines).0).stored == Nothing <==> EndsInMarker(c, lines)
    decreases |lines|
  {
    if lines != [] {
      AbsorbEnds(c, s, lines[0]);
      if !Ends(c, lines[0]) {
        FoldStores(c, AbsorbRaw(c, s, lines[0]).0, lines[1..]);
      }
    }
  }

  /** The caller's result object stays unwritten if and only if the stream ends in the bare end marker. */
  lemma ResultIsStored(c: Client, body: string)
    requires c.hasResult
    ensures Outcome(c, body, false).0.stored == Nothing <==> EndsInMarker(c, Text.Split(body, '\n'))
  {
    OutcomeFoldsAllLines(c, body);
    FoldStores(c, START, Text.Split(body, '\n'));
  }

  predicate SomeEnds(c: Client, lines: seq<string>) {
    exists i :: 0 <= i < |lines| && Ends(c, lines[i])
  }

  lemma {:induction false} FoldEnds(c: Client, s: State, lines: seq<string>)
    ensures Fold(c, s, lines).1 <==> SomeEnds(c, lines)
    ensures !Fold(c, s, lines).1 ==>
              Fold(c, s, lines).0.stored == s.stored && Fold(c, s, lines).0.sawFinal == s.sawFinal
    decreases |lines|
  {
    if lines != [] {
      AbsorbEnds(c, s, lines[0]);
      if !Ends(c, lines[0]) {
        FoldEnds(c, AbsorbRaw(c, s, lines[0]).0, lines[1..]);
        assert forall i :: 0 < i < |lines| ==> lines[i] == lines[1..][i - 1];
      }
    }
  }

  /**
   * A read error after `body`: unless a complete line has ended the stream the call is unavailable and stores
   * nothing; and if one has, the error makes no difference.
   */
  lemma BrokenReadStoresNothing(c: Client, body: string)
    ensures var (s, status) := Outcome(c, body, true);
            var lines := Text.Split(body, '\n');
            if SomeEnds(c, lines[..|lines| - 1]) then (s, status) == Outcome(c, body, false)
            else status == Unavailable && s.stored == Nothing && !s.sawFinal
  {
    FoldEnds(c, START, Closed(body));
  }

  /** Reading on: what `a` left open is completed by `b`. */
  lemma ConsumeOn(c: Client, s: State, a: string, b: string)
    ensures Fold(c, s, Closed(a + b)) ==
            if Fold(c, s, Closed(a)).1 then Fold(c, s, Closed(a))
            else Fold(c, Fold(c, s, Closed(a)).0, Closed(Open(a) + b))
    ensures Open(a + b) == Open(Open(a) + b)
  {
    Text.SplitResumes(a, b, '\n');
    var lines := Text.Split(Open(a) + b, '\n');
    assert Text.Split(a + b, '\n') == Closed(a) + lines;
    assert Closed(a + b) == Closed(a) + Closed(Open(a) + b);
    FoldAppend(c, s, Closed(a), Closed(Open(a) + b));
  }

  // ---- the reader ----

  class Reader {
    const client: Client
    var accumulated: string
    var currentMsgId: string
    var totalTokens: int
    var sawFinal: bool
    var emitted: seq<Callback>
    var stored: Stored
    var pending: string

    ghost function View(): State
      reads this
    {
      State(accumulated, currentMsgId, totalTokens, sawFinal, emitted, stored)
    }

    constructor (client: Client)
      ensures this.client == client && View() == START && pending == ""
    {
      this.client := client;
      accumulated, currentMsgId, totalTokens, sawFinal := "", "", 0, false;
      emitted, stored, pending := [], Nothing, "";
    }

    method ParseAndEmit(line: string) returns (done: bool)
      modifies this
      ensures (View(), done) == Absorb(client, old(View()), line) && pending == old(pending)
      ensures !("data: " <= line) ==> !done && View() == old(View())
      ensures "data: " <= line && line[6..] == "[DONE]" ==> done && View() == old(View()).(sawFinal := true)
      ensures "data: " <= line && line[6..] != "[DONE]" ==>
                match client.decode(line[6..])
                case None => !done && View() == old(View())
                case Some(k) =>
                  && done == k.isFinal && sawFinal == (old(sawFinal) || k.isFinal)
                  && accumulated == old(accumulated) + k.text
                  && currentMsgId == (if k.msgId != "" then k.msgId else old(currentMsgId))
                  && totalTokens == (if k.tokens > 0 then k.tokens else old(totalTokens))
                  && emitted == old(emitted) +
                       (if client.hasCallback
                        then [Callback(k.text, k.isFinal, currentMsgId, totalTokens, k.detail)] else [])
                  && stored == if k.isFinal && client.hasResult
                               then Final(accumulated, totalTokens, k.detail.traceId, k.detail.skill, k.detail.feedback)
                               else old(stored)
    {
      if !(PREFIX <= line) {
        return false;
      }
      var json := line[6..];
      if json == DONE {
        sawFinal := true;
        return true;
      }
      var parsed := client.decode(json);
      if parsed.None? {
        return false;
      }
      var k := parsed.value;
      if k.msgId != "" {
        currentMsgId := k.msgId;
      }
      if k.tokens > 0 {
        totalTokens := k.tokens;
      }
      accumulated := accumulated + k.text;
      if client.hasCallback {
        emitted := emitted + [Callback(k.text, k.isFinal, currentMsgId, totalTokens, k.detail)];
      }
      if k.isFinal && client.hasResult {
        stored := Final(accumulated, totalTokens, k.detail.traceId, k.detail.skill, k.detail.feedback);
      }
      if k.isFinal {
        sawFinal := true;
      }
      return k.isFinal;
    }

    static method TrimLine(line: string) returns (r: string)
      ensures r == Trim(line)
      ensures r == "" || (r[|r| - 1] != ' ' && r[|r| - 1] != '\t' && r[|r| - 1] != '\r')
      ensures r <= line
      ensures forall i :: |r| <= i < |line| ==> line[i] == ' ' || line[i] == '\t' || line[i] == '\r'
    {
      var end := |line|;
      assert line[..end] == line;
      while end > 0 && IsTrimChar(line[end - 1])
        invariant end <= |line| && Trim(line) == Trim(line[..end])
      {
        assert line[..end][..end - 1] == line[..end - 1];
        end := end - 1;
      }
      return line[..end];
    }

    method ConsumeBody(data: string) returns (done: bool)
      modifies this
      ensures (View(), done) == Fold(client, old(View()), Closed(old(pending) + data))
      ensures !done ==> pending == Open(old(pending) + data)
    {
      pending := pending + data;
      ghost var all, before := pending, View();
      while '\n' in pending
        invariant Fold(client, View(), Closed(pending)) == Fold(client, before, Closed(all))
        invariant Open(pending) == Open(all)
        decreases |pending|
      {
        var eol := Text.Find(pending, '\n');
        var line, rest := pending[..eol], pending[eol + 1..];
        LineAhead(client, View(), line, rest);
        Text.CutAt(pending, eol);
        pending := rest;
        line := TrimLine(line);
        if line != "" {
          done := ParseAndEmit(line);
          if done {
            return true;
          }
        }
      }
      Text.SplitNoSeparator(pending, '\n');
      return false;
    }

    method PostJsonSse(first: string, pieces: seq<Read>) returns (status: Status)
      requires View() == START && pending == ""
      modifies this
      ensures (View(), status) == Outcome(client, first + Received(pieces), ReadError in pieces)
    {
      var done := ConsumeBody(first);
      assert "" + first == first;
      ghost var body := first;
      var i := 0;
      while !done && i < |pieces|
        invariant 0 <= i <= |pieces|
        invariant ReadError !in pieces[..i]
        invariant body + Received(pieces[i..]) == first + Received(pieces)
        invariant (View(), done) == Fold(client, START, Closed(body))
        invariant !done ==> pending == Open(body)
      {
        match pieces[i]
        case ReadError =>
          ReceivedStops(pieces, i);
          assert body + "" == body;
          return Unavailable;
        case Data(bytes) =>
          ConsumeOn(client, START, body, bytes);
          done := ConsumeBody(bytes);
          ReceivedAhead(pieces, i, body);
          body := body + bytes;
          i := i + 1;
      }
      ConsumeOn(client, START, body, Received(pieces[i..]));
      if !done {
        assert pieces[..i] == pieces && pieces[i..] == [];
        assert body + "" == body;
        ConsumePending();
      }
      StoreFallback();
      return Ok;
    }

    /** The unterminated last line. */
    method ConsumePending()
      modifies this
      ensures View() == AbsorbRaw(client, old(View()), old(pending)).0
    {
      if pending != "" {
        pending := TrimLine(pending);
        if pending != "" {
          var ended := ParseAndEmit(pending);
        }
        pending := "";
      }
    }

    /** Without a final chunk or end marker the result is made up from what there is. */
    method StoreFallback()
      modifies this`stored
      ensures View() == Finish(client, old(View()))
      ensures stored == if sawFinal || !client.hasResult then old(stored) else Fallback(accumulated, totalTokens)
    {
      if !sawFinal && client.hasResult {
        stored := Fallback(accumulated, totalTokens);
      }
    }
  }

  lemma LineAhead(c: Client, s: State, line: string, rest: string)
    requires '\n' !in line
    ensures Open(line + ['\n'] + rest) == Open(rest)
    ensures Fold(c, s, Closed(line + ['\n'] + rest)) ==
            var (t, done) := AbsorbRaw(c, s, line);
            if done then (t, true) else Fold(c, t, Closed(rest))
  {
    Text.SplitAtSeparator(line, '\n', rest);
    var lines := Text.Split(rest, '\n');
    assert ([line] + lines)[..|lines|] == [line] + lines[..|lines| - 1];
  }

  lemma ReceivedStops(pieces: seq<Read>, i: nat)
    requires i < |pieces| && pieces[i].ReadError?
    ensures Received(pieces[i..]) == "" && ReadError in pieces
  {
  }

  lemma ReceivedAhead(pieces: seq<Read>, i: nat, body: string)
    requires i < |pieces| && pieces[i].Data?
    ensures body + Received(pieces[i..]) == body + pieces[i].bytes + Received(pieces[i + 1..])
  {
    assert pieces[i..][1..] == pieces[i + 1..];
    Text.Assoc(body, pieces[i].bytes, Received(pieces[i + 1..]));
  }
}
