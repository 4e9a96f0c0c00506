/** The head of the streamed response of GateShared/HttpConnection.cpp, built from raw request header values. */
module ResponseHead {
  import opened Common
  import Text

  // ---- cleaning header values ----

  predicate IsBlank(c: char) {
    c == ' ' || c == '\t' || c == '\r' || c == '\n'
  }

  /** The first position from `i` on that is not blank. */
  function SkipBlanks(s: string, i: nat): (k: nat)
    requires i <= |s|
    ensures i <= k <= |s| && (k < |s| ==> !IsBlank(s[k]))
    ensures forall j :: i <= j < k ==> IsBlank(s[j])
    decreases |s| - i
  {
    if i == |s| || !IsBlank(s[i]) then i else SkipBlanks(s, i + 1)
  }

  /** The end of `s` without the blanks before position `n`. */
  function DropBlanks(s: string, n: nat): (k: nat)
    requires n <= |s|
    ensures k <= n && (k > 0 ==> !IsBlank(s[k - 1]))
    ensures forall j :: k <= j < n ==> IsBlank(s[j])
  {
    if n == 0 || !IsBlank(s[n - 1]) then n else DropBlanks(s, n - 1)
  }

  function TrimStart(s: string): string {
    s[SkipBlanks(s, 0)..]
  }

  function TrimEnd(s: string): string {
    s[..DropBlanks(s, |s|)]
  }

  function TrimAscii(s: string): string {
    TrimEnd(TrimStart(s))
  }

  /** Control characters are dropped; a tab is not one of them, and bytes beyond ASCII stay. */
  predicate IsKept(c: char) {
    (c == '\t' || c as int >= 0x20) && c as int != 0x7f
  }

  predicate AllKept(s: string) {
    forall i :: 0 <= i < |s| ==> IsKept(s[i])
  }

  function Kept(s: string): (r: string)
    ensures AllKept(r)
  {
    if s == "" then ""
    else
      var last := s[|s| - 1];
      Kept(s[..|s| - 1]) + (if IsKept(last) then [last] else [])
  }

  function Sanitize(s: string): string {
    TrimAscii(Kept(s))
  }

  method TrimFront(value: string) returns (r: string)
    ensures r == TrimStart(value)
  {
    r := value;
    ghost var k := 0;
    while r != "" && IsBlank(r[0])
      invariant k <= |value| && r == value[k..] && SkipBlanks(value, k) == SkipBlanks(value, 0)
      decreases |r|
    {
      r, k := r[1..], k + 1;
    }
  }

  method TrimBack(value: string) returns (r: string)
    ensures r == TrimEnd(value)
  {
    r := value;
    while r != "" && IsBlank(r[|r| - 1])
      invariant r <= value && DropBlanks(value, |r|) == DropBlanks(value, |value|)
      decreases |r|
    {
      r := r[..|r| - 1];
    }
  }

  method TrimAsciiLocal(value: string) returns (r: string)
    ensures r == TrimAscii(value)
  {
    r := TrimFront(value);
    r := TrimBack(r);
  }

  method SanitizeHttpHeaderValueLocal(value: string) returns (r: string)
    ensures r == Sanitize(value)
  {
    var sanitized := "";
    for i := 0 to |value|
      invariant sanitized == Kept(value[..i])
    {
      assert value[..i + 1][..i] == value[..i];
      var ch := value[i];
      if ch == '\r' || ch == '\n' {
        continue;
      }
      if (ch as int < 0x20 && ch != '\t') || ch as int == 0x7f {
        continue;
      }
      sanitized := sanitized + [ch];
    }
    assert value[..|value|] == value;
    r := TrimAsciiLocal(sanitized);
  }

  /** A value that may stand in a header line: no control character in it, no blank at its ends. */
  predicate IsHeaderValue(s: string) {
    && AllKept(s)
    && (s != "" ==> !IsBlank(s[0]) && !IsBlank(s[|s| - 1]))
  }

  lemma {:induction false} KeptAll(s: string)
    requires AllKept(s)
    ensures Kept(s) == s
  {
    if s != "" {
      KeptAll(s[..|s| - 1]);
      assert s == s[..|s| - 1] + [s[|s| - 1]];
    }
  }

  /** Whatever the value, the result is fit for a header line; and values that are fit come through as they are. */
  lemma SanitizedIsHeaderValue(s: string)
    ensures IsHeaderValue(Sanitize(s))
    ensures Sanitize(s) == s <==> IsHeaderValue(s)
  {
    TrimmedIsHeaderValue(Kept(s));
    if IsHeaderValue(s) {
      KeptAll(s);
    }
  }

  /** What is kept of one character: a tab stays, all other control characters and DEL go, the rest stays. */
  function KeptOf(c: char): string {
    if c == '\t' || (32 <= c as int && c as int != 127) then [c] else ""
  }

  lemma KeptSingle(c: char)
    ensures Kept([c]) == KeptOf(c) && Kept("") == ""
  {
    assert [c][..0] == "";
  }

  /** And each character is judged by itself. */
  lemma {:induction false} KeptSplits(a: string, b: string)
    ensures Kept(a + b) == Kept(a) + Kept(b)
    decreases |b|
  {
    if b == "" {
      assert a + b == a;
    } else {
      var front, last := b[..|b| - 1], b[|b| - 1];
      KeptLast(a + front, last);
      KeptLast(front, last);
      KeptSplits(a, front);
      assert b == front + [last] && a + b == a + front + [last];
      Text.Assoc(Kept(a), Kept(front), KeptOf(last));
    }
  }

  lemma KeptLast(s: string, last: char)
    ensures Kept(s + [last]) == Kept(s) + KeptOf(last)
  {
    assert (s + [last])[..|s|] == s;
  }

  lemma BlanksAre(c: char)
    ensures IsBlank(c) <==> c == ' ' || c == '\t' || c == '\r' || c == '\n'
  {
  }

  /** Trimming cuts off blanks only, and all of them at both ends. */
  lemma TrimmedParts(s: string) returns (before: string, behind: string)
    ensures s == before + TrimAscii(s) + behind
    ensures forall i :: 0 <= i < |before| ==> IsBlank(before[i])
    ensures forall i :: 0 <= i < |behind| ==> IsBlank(behind[i])
    ensures TrimAscii(s) != "" ==> !IsBlank(TrimAscii(s)[0]) && !IsBlank(TrimAscii(s)[|TrimAscii(s)| - 1])
  {
    var rest := TrimStart(s);
    before := FrontCut(s);
    behind := BackCut(rest);
    Text.Assoc(before, TrimEnd(rest), behind);
    assert TrimAscii(s) != "" ==> rest[0] == TrimAscii(s)[0];
  }

  lemma FrontCut(s: string) returns (before: string)
    ensures s == before + TrimStart(s) && forall i :: 0 <= i < |before| ==> IsBlank(before[i])
    ensures TrimStart(s) != "" ==> !IsBlank(TrimStart(s)[0])
  {
    before := s[..SkipBlanks(s, 0)];
  }

  lemma BackCut(s: string) returns (behind: string)
    ensures s == TrimEnd(s) + behind && forall i :: 0 <= i < |behind| ==> IsBlank(behind[i])
    ensures TrimEnd(s) != "" ==> !IsBlank(TrimEnd(s)[|TrimEnd(s)| - 1])
  {
    behind := s[DropBlanks(s, |s|)..];
  }

  lemma StartKept(s: string)
    requires AllKept(s)
    ensures AllKept(TrimStart(s)) && (TrimStart(s) != "" ==> !IsBlank(TrimStart(s)[0]))
    ensures IsHeaderValue(s) ==> TrimStart(s) == s
  {
  }

  lemma TrimmedIsHeaderValue(s: string)
    requires AllKept(s)
    ensures IsHeaderValue(TrimAscii(s))
    ensures IsHeaderValue(s) ==> TrimAscii(s) == s
  {
    StartKept(s);
    EndKept(TrimStart(s));
  }

  lemma EndKept(s: string)
    requires AllKept(s) && (s != "" ==> !IsBlank(s[0]))
    ensures IsHeaderValue(TrimEnd(s)) && (IsHeaderValue(s) ==> TrimEnd(s) == s)
  {
  }

  lemma HeaderValueHasNoBreak(s: string)
    requires IsHeaderValue(s)
    ensures '\r' !in s && '\n' !in s
  {
  }

  // ---- the values of one response ----

  type Nibble = x: nat | x < 16

  function HexDigit(x: Nibble): (c: char)
    ensures IsKept(c) && !IsBlank(c)
  {
    "0123456789abcdef"[x]
  }

  /** A generated id: the hexadecimal text of random bytes, or of a clock reading and a counter. */
  function NewId(digits: seq<Nibble>): (s: string)
    ensures IsHeaderValue(s)
  {
    seq(|digits|, i requires 0 <= i < |digits| => HexDigit(digits[i]))
  }

  /** An id taken from the request, or a new one when it has none, or none that survives. */
  function IdOr(raw: Option<string>, digits: seq<Nibble>): string {
    var given := if raw.Some? then Sanitize(raw.value) else "";
    if given == "" then NewId(digits) else given
  }

  /** The origin to be allowed, if any; `allowed` is what the configuration says. */
  function OriginOr(raw: Option<string>, allowed: string -> bool): string {
    if raw.Some? && allowed(Sanitize(raw.value)) then TrimAscii(Sanitize(raw.value)) else ""
  }

  /** What a request brings along: raw header values, and what new ids would be made of. */
  datatype Request = Request(
    origin: Option<string>,
    traceId: Option<string>,
    requestId: Option<string>,
    traceDigits: seq<Nibble>,
    requestDigits: seq<Nibble>)

  lemma IdIsHeaderValue(raw: Option<string>, digits: seq<Nibble>)
    ensures IsHeaderValue(IdOr(raw, digits))
  {
    if raw.Some? {
      SanitizedIsHeaderValue(raw.value);
    }
  }

  lemma OriginIsHeaderValue(raw: Option<string>, allowed: string -> bool)
    ensures IsHeaderValue(OriginOr(raw, allowed))
  {
    if raw.Some? {
      SanitizedIsHeaderValue(raw.value);
      TrimmedIsHeaderValue(Sanitize(raw.value));
    }
  }

  // ---- the head ----

  const FIRST_LINES := [
    "HTTP/1.1 200 OK",
    "Server: GateServer",
    "Content-Type: text/event-stream",
    "Cache-Control: no-cache",
    "Connection: close",
    "Transfer-Encoding: chunked"]

  function HeadLines(cors: string, traceId: string, requestId: string): seq<string> {
    FIRST_LINES + (if cors == "" then [] else ["Access-Control-Allow-Origin: " + cors, "Vary: Origin"]) +
    ["X-Accel-Buffering: no"] +
    (if traceId == "" then [] else ["X-Trace-Id: " + traceId]) +
    (if requestId == "" then [] else ["X-Request-Id: " + requestId])
  }

  /** Two characters that tell the lines apart. */
  function Tag(line: string): (char, char) {
    if |line| < 3 then (' ', ' ') else (line[0], line[2])
  }

  lemma FirstTags()
    ensures Tag(FIRST_LINES[0]) == ('H', 'T') && Tag(FIRST_LINES[1]) == ('S', 'r')
    ensures Tag(FIRST_LINES[2]) == ('C', 'n') && Tag(FIRST_LINES[3]) == ('C', 'c')
    ensures Tag(FIRST_LINES[4]) == ('C', 'n') && Tag(FIRST_LINES[5]) == ('T', 'a')
  {
  }

  lemma LastTags()
    ensures Tag("Vary: Origin") == ('V', 'r') && Tag("X-Accel-Buffering: no") == ('X', 'A')
  {
  }

  lemma FieldTags(value: string)
    ensures Tag("Access-Control-Allow-Origin: " + value) == ('A', 'c')
    ensures Tag("X-Trace-Id: " + value) == ('X', 'T') && Tag("X-Request-Id: " + value) == ('X', 'R')
  {
  }

  predicate IsFieldTag(tag: (char, char)) {
    tag == ('A', 'c') || tag == ('X', 'T') || tag == ('X', 'R')
  }

  lemma FixedTags(line: string)
    requires line in FIRST_LINES || line == "Vary: Origin" || line == "X-Accel-Buffering: no"
    ensures !IsFieldTag(Tag(line))
  {
    FirstTags();
    LastTags();
  }

  lemma LinesAre(cors: string, traceId: string, requestId: string, line: string)
    ensures line in HeadLines(cors, traceId, requestId) <==>
              || line in FIRST_LINES || line == "X-Accel-Buffering: no"
              || (cors != "" && (line == "Access-Control-Allow-Origin: " + cors || line == "Vary: Origin"))
              || (traceId != "" && line == "X-Trace-Id: " + traceId)
              || (requestId != "" && line == "X-Request-Id: " + requestId)
  {
  }

  lemma SameValue(name: string, a: string, b: string)
    requires name + a == name + b
    ensures a == b
  {
    assert (name + a)[|name|..] == a && (name + b)[|name|..] == b;
  }

  /** The only lines with these names in a head: one for each value that is not empty. */
  lemma OriginLine(cors: string, traceId: string, requestId: string, x: string)
    ensures "Access-Control-Allow-Origin: " + x in HeadLines(cors, traceId, requestId) <==> x == cors != ""
  {
    var line := "Access-Control-Allow-Origin: " + x;
    FieldTags(x);
    FieldTags(traceId);
    FieldTags(requestId);
    LinesAre(cors, traceId, requestId, line);
    if line in FIRST_LINES || line == "Vary: Origin" || line == "X-Accel-Buffering: no" {
      FixedTags(line);
    } else if line == "Access-Control-Allow-Origin: " + cors {
      SameValue("Access-Control-Allow-Origin: ", x, cors);
    }
  }

  lemma TraceLine(cors: string, traceId: string, requestId: string, x: string)
    ensures "X-Trace-Id: " + x in HeadLines(cors, traceId, requestId) <==> x == traceId != ""
  {
    var line := "X-Trace-Id: " + x;
    FieldTags(x);
    FieldTags(cors);
    FieldTags(requestId);
    LinesAre(cors, traceId, requestId, line);
    if line in FIRST_LINES || line == "Vary: Origin" || line == "X-Accel-Buffering: no" {
      FixedTags(line);
    } else if line == "X-Trace-Id: " + traceId {
      SameValue("X-Trace-Id: ", x, traceId);
    }
  }

  lemma RequestLine(cors: string, traceId: string, requestId: string, x: string)
    ensures "X-Request-Id: " + x in HeadLines(cors, traceId, requestId) <==> x == requestId != ""
  {
    var line := "X-Request-Id: " + x;
    FieldTags(x);
    FieldTags(cors);
    FieldTags(traceId);
    LinesAre(cors, traceId, requestId, line);
    if line in FIRST_LINES || line == "Vary: Origin" || line == "X-Accel-Buffering: no" {
      FixedTags(line);
    } else if line == "X-Request-Id: " + requestId {
      SameValue("X-Request-Id: ", x, requestId);
    }
  }

  function HeadText(lines: seq<string>): string {
    if lines == [] then CRLF else lines[0] + CRLF + HeadText(lines[1..])
  }

  /** The lines of the response to this request. */
  function LinesFor(r: Request, allowed: string -> bool): seq<string> {
    HeadLines(OriginOr(r.origin, allowed), IdOr(r.traceId, r.traceDigits), IdOr(r.requestId, r.requestDigits))
  }

  function HeadFor(r: Request, allowed: string -> bool): string {
    HeadText(LinesFor(r, allowed))
  }

  /** The status line first, then among others the content type and the chunked transfer coding. */
  lemma HeadNamesCoding(r: Request, allowed: string -> bool)
    ensures var lines := LinesFor(r, allowed);
            && lines[0] == "HTTP/1.1 200 OK"
            && "Content-Type: text/event-stream" in lines && "Transfer-Encoding: chunked" in lines
  {
    var (cors, traceId, requestId) :=
      (OriginOr(r.origin, allowed), IdOr(r.traceId, r.traceDigits), IdOr(r.requestId, r.requestDigits));
    LinesAre(cors, traceId, requestId, FIRST_LINES[2]);
    LinesAre(cors, traceId, requestId, FIRST_LINES[5]);
  }

  /** An origin line stands in the head exactly for a request whose origin is allowed, and names it. */
  lemma HeadNamesOrigin(r: Request, allowed: string -> bool, x: string)
    ensures "Access-Control-Allow-Origin: " + x in LinesFor(r, allowed) <==>
              r.origin.Some? && x == Sanitize(r.origin.value) != "" && allowed(x)
  {
    OriginLine(OriginOr(r.origin, allowed), IdOr(r.traceId, r.traceDigits), IdOr(r.requestId, r.requestDigits), x);
    if r.origin.Some? {
      SanitizedIsHeaderValue(r.origin.value);
      TrimmedIsHeaderValue(Sanitize(r.origin.value));
    }
  }

  /** The trace id is the given one, cleaned, when something is left of it, else the new one; it has its own line. */
  lemma HeadNamesTrace(r: Request, allowed: string -> bool, x: string)
    ensures "X-Trace-Id: " + x in LinesFor(r, allowed) <==>
              x != "" && x == if r.traceId.Some? && Sanitize(r.traceId.value) != "" then Sanitize(r.traceId.value)
                              else NewId(r.traceDigits)
  {
    TraceLine(OriginOr(r.origin, allowed), IdOr(r.traceId, r.traceDigits), IdOr(r.requestId, r.requestDigits), x);
  }

  /** So has the request id. */
  lemma HeadNamesRequest(r: Request, allowed: string -> bool, x: string)
    ensures "X-Request-Id: " + x in LinesFor(r, allowed) <==>
              x != "" && x == if r.requestId.Some? && Sanitize(r.requestId.value) != ""
                              then Sanitize(r.requestId.value) else NewId(r.requestDigits)
  {
    RequestLine(OriginOr(r.origin, allowed), IdOr(r.traceId, r.traceDigits), IdOr(r.requestId, r.requestDigits), x);
  }

  /** A new id has one digit for each number, in lower case. */
  lemma NewIdIs(digits: seq<Nibble>, i: nat)
    requires i < |digits|
    ensures |NewId(digits)| == |digits|
    ensures NewId(digits)[i] as int == if digits[i] < 10 then '0' as int + digits[i] else 'a' as int + digits[i] - 10
  {
  }

  predicate Clean(line: string) {
    line != "" && '\r' !in line && '\n' !in line
  }

  lemma FirstLineIsClean()
    ensures Clean("HTTP/1.1 200 OK") && Clean("Server: GateServer")
  {
  }

  lemma TypeLineIsClean()
    ensures Clean("Content-Type: text/event-stream")
  {
  }

  lemma ControlLinesAreClean()
    ensures Clean("Cache-Control: no-cache") && Clean("Connection: close")
  {
  }

  lemma CodingLineIsClean()
    ensures Clean("Transfer-Encoding: chunked") && Clean("Vary: Origin")
  {
  }

  lemma ProxyLineIsClean()
    ensures Clean("X-Accel-Buffering: no")
  {
  }

  lemma OriginNameIsClean()
    ensures Clean("Access-Control-Allow-Origin: ")
  {
  }

  lemma IdNamesAreClean()
    ensures Clean("X-Trace-Id: ") && Clean("X-Request-Id: ")
  {
  }

  lemma FixedLinesAreClean()
    ensures Clean("HTTP/1.1 200 OK") && Clean("Server: GateServer") && Clean("Content-Type: text/event-stream")
    ensures Clean("Cache-Control: no-cache") && Clean("Connection: close") && Clean("Transfer-Encoding: chunked")
    ensures Clean("Vary: Origin") && Clean("X-Accel-Buffering: no")
  {
    FirstLineIsClean();
    TypeLineIsClean();
    ControlLinesAreClean();
    CodingLineIsClean();
    ProxyLineIsClean();
  }

  lemma FieldIsClean(name: string, value: string)
    requires Clean(name) && IsHeaderValue(value)
    ensures Clean(name + value)
  {
    HeaderValueHasNoBreak(value);
  }

  predicate AllClean(lines: seq<string>) {
    forall i :: 0 <= i < |lines| ==> Clean(lines[i])
  }

  lemma HeadLinesAreClean(cors: string, traceId: string, requestId: string)
    requires IsHeaderValue(cors) && IsHeaderValue(traceId) && IsHeaderValue(requestId)
    ensures AllClean(HeadLines(cors, traceId, requestId)) && |HeadLines(cors, traceId, requestId)| >= 1
  {
    FixedLinesAreClean();
    OriginNameIsClean();
    IdNamesAreClean();
    FieldIsClean("Access-Control-Allow-Origin: ", cors);
    FieldIsClean("X-Trace-Id: ", traceId);
    FieldIsClean("X-Request-Id: ", requestId);
  }

  lemma LinesForAreClean(r: Request, allowed: string -> bool)
    ensures AllClean(LinesFor(r, allowed)) && |LinesFor(r, allowed)| >= 1
  {
    OriginIsHeaderValue(r.origin, allowed);
    IdIsHeaderValue(r.traceId, r.traceDigits);
    IdIsHeaderValue(r.requestId, r.requestDigits);
    HeadLinesAreClean(
      OriginOr(r.origin, allowed), IdOr(r.traceId, r.traceDigits), IdOr(r.requestId, r.requestDigits));
  }

  method GivenId(raw: Option<string>, digits: seq<Nibble>) returns (id: string)
    ensures id == IdOr(raw, digits)
  {
    id := "";
    if raw.Some? {
      id := SanitizeHttpHeaderValueLocal(raw.value);
    }
    if id == "" {
      id := NewId(digits);
    }
  }

  method AllowedCorsOrigin(raw: Option<string>, allowed: string -> bool) returns (origin: string)
    ensures origin == OriginOr(raw, allowed)
  {
    if raw.None? {
      return "";
    }
    var value := SanitizeHttpHeaderValueLocal(raw.value);
    if !allowed(value) {
      return "";
    }
    origin := TrimAsciiLocal(value);
  }

  /** The ids that Start gives the request, and the head that the stream begins with. */
  method BuildHead(r: Request, allowed: string -> bool) returns (head: string)
    ensures head == HeadFor(r, allowed)
  {
    var traceId := GivenId(r.traceId, r.traceDigits);
    var requestId := GivenId(r.requestId, r.requestDigits);
    var corsOrigin := AllowedCorsOrigin(r.origin, allowed);
    head := HeadText(HeadLines(corsOrigin, traceId, requestId));
  }

  // ---- how a client reads it ----

  /** The position behind the first blank line, where a client takes the body to start. */
  function BodyStart(s: string): nat {
    if |s| < 4 then |s| else if s[..4] == CRLF + CRLF then 4 else 1 + BodyStart(s[1..])
  }

  lemma {:induction false} BodyStartSkips(text: string, rest: string)
    requires '\r' !in text && |rest| >= 4
    ensures BodyStart(text + rest) == |text| + BodyStart(rest)
  {
    if text == "" {
      assert text + rest == rest;
    } else {
      BodyStartSkips(text[1..], rest);
      assert (text + rest)[1..] == text[1..] + rest;
      assert (text + rest)[..4][0] != (CRLF + CRLF)[0];
    }
  }

  /** The head's only blank line is its end. */
  lemma {:induction false} HeadEndsAtBlankLine(lines: seq<string>, body: string)
    requires |lines| >= 1 && AllClean(lines)
    ensures BodyStart(HeadText(lines) + body) == |HeadText(lines)|
  {
    var line, rest := lines[0], HeadText(lines[1..]) + body;
    assert HeadText(lines) + body == line + (CRLF + rest);
    BodyStartSkips(line, CRLF + rest);
    if |lines| == 1 {
      assert (CRLF + rest)[..4] == CRLF + CRLF;
    } else {
      HeadEndsAtBlankLine(lines[1..], body);
      assert rest[0] == lines[1][0];
      BodyStartSkipsBreak(rest);
    }
  }

  lemma BodyStartSkipsBreak(rest: string)
    requires |rest| >= 4 && rest[0] != '\r'
    ensures BodyStart(CRLF + rest) == 2 + BodyStart(rest)
  {
    assert (CRLF + rest)[..4][2] != (CRLF + CRLF)[2];
    assert (CRLF + rest)[1..] == "\n" + rest;
    BodyStartSkips("\n", rest);
  }

  /** The pieces of the head between line feeds: every line with the carriage return that ends it, then a blank. */
  function LinesOnWire(lines: seq<string>): seq<string> {
    if lines == [] then ["\r", ""] else [lines[0] + "\r"] + LinesOnWire(lines[1..])
  }

  /** So a client sees exactly these lines, whether it ends a line at CR LF or already at a line feed. */
  lemma {:induction false} HeadSplitsIntoLines(lines: seq<string>)
    requires AllClean(lines)
    ensures Text.Split(HeadText(lines), '\n') == LinesOnWire(lines)
  {
    if lines == [] {
      assert CRLF == "\r" + ['\n'] + "";
      Text.SplitAtSeparator("\r", '\n', "");
      Text.SplitNoSeparator("", '\n');
    } else {
      HeadSplitsIntoLines(lines[1..]);
      var line, rest := lines[0] + "\r", HeadText(lines[1..]);
      assert HeadText(lines) == line + ['\n'] + rest;
      Text.SplitAtSeparator(line, '\n', rest);
    }
  }

  /** For every request: no value adds a line to the head, or ends it early. */
  lemma NoLineIsInjected(r: Request, allowed: string -> bool, body: string)
    ensures Text.Split(HeadFor(r, allowed), '\n') == LinesOnWire(LinesFor(r, allowed))
    ensures AllClean(LinesFor(r, allowed))
    ensures BodyStart(HeadFor(r, allowed) + body) == |HeadFor(r, allowed)|
  {
    LinesForAreClean(r, allowed);
    HeadSplitsIntoLines(LinesFor(r, allowed));
    HeadEndsAtBlankLine(LinesFor(r, allowed), body);
  }
}
