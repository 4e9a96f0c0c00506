/** The chunked transfer coding of RFC 9112, section 7.1, as the stream writer prints it, and a decoder for it. */
module ChunkedCoding {
  import opened Common
  import Text

  /** The last chunk and the empty trailer section. */
  const TERMINATOR := "0\r\n\r\n"

  function HexDigit(x: nat): (c: char)
    requires x < 16
    ensures IsHexDigit(c) && DigitValue(c) == x
  {
    "0123456789abcdef"[x]
  }

  predicate IsHexDigit(c: char) {
    '0' <= c <= '9' || 'a' <= c <= 'f' || 'A' <= c <= 'F'
  }

  function DigitValue(c: char): nat
    requires IsHexDigit(c)
  {
    if c <= '9' then c as int - '0' as int
    else if c <= 'F' then c as int - 'A' as int + 10
    else c as int - 'a' as int + 10
  }

  /** A size as an ostream in hex mode prints it: lower case, no leading zeros. */
  function PrintHex(n: nat): (s: string)
    ensures |s| >= 1
    ensures forall i :: 0 <= i < |s| ==> IsHexDigit(s[i])
  {
    if n < 16 then [HexDigit(n)] else PrintHex(n / 16) + [HexDigit(n % 16)]
  }

  function HexValue(s: string): nat
    requires forall i :: 0 <= i < |s| ==> IsHexDigit(s[i])
  {
    if s == "" then 0 else HexValue(s[..|s| - 1]) * 16 + DigitValue(s[|s| - 1])
  }

  lemma {:induction false} HexValueInvertsPrintHex(n: nat)
    ensures HexValue(PrintHex(n)) == n
  {
    var s := PrintHex(n);
    if n < 16 {
      assert s[..0] == "";
    } else {
      HexValueInvertsPrintHex(n / 16);
      assert s[..|s| - 1] == PrintHex(n / 16);
    }
  }

  /** The length of the run of hex digits at the front. */
  function HexRun(s: string): (k: nat)
    ensures k <= |s| && forall i :: 0 <= i < k ==> IsHexDigit(s[i])
    ensures k < |s| ==> !IsHexDigit(s[k])
  {
    if s == "" || !IsHexDigit(s[0]) then 0 else 1 + HexRun(s[1..])
  }

  /** What a chunk adds to the wire. */
  function Frame(chunk: string): string {
    PrintHex(|chunk|) + CRLF + chunk + CRLF
  }

  function FrameList(chunks: seq<string>): seq<string> {
    seq(|chunks|, i requires 0 <= i < |chunks| => Frame(chunks[i]))
  }

  function Frames(chunks: seq<string>): string {
    Text.Concat(FrameList(chunks))
  }

  lemma FramesLast(chunks: seq<string>, chunk: string)
    ensures Frames(chunks + [chunk]) == Frames(chunks) + Frame(chunk)
  {
    assert FrameList(chunks + [chunk]) == FrameList(chunks) + [Frame(chunk)];
    Text.ConcatLast(FrameList(chunks), Frame(chunk));
  }

  lemma FramesFirst(chunks: seq<string>)
    requires chunks != []
    ensures Frames(chunks) == Frame(chunks[0]) + Frames(chunks[1..])
  {
    assert FrameList(chunks)[1..] == FrameList(chunks[1..]);
  }

  datatype Decoded = Malformed | Body(data: string, rest: string)

  /** chunked-body without extensions and trailer fields: the decoded data and the text behind the body. */
  function Decode(s: string): Decoded
    decreases |s|
  {
    var k := HexRun(s);
    if k == 0 || |s| < k + 2 || s[k..k + 2] != CRLF then Malformed
    else
      var size, rest := HexValue(s[..k]), s[k + 2..];
      if |rest| < size + 2 || rest[size..size + 2] != CRLF then Malformed
      else if size == 0 then Body("", rest[2..])
      else
        match Decode(rest[size + 2..])
        case Malformed => Malformed
        case Body(data, behind) => Body(rest[..size] + data, behind)
  }

  lemma {:induction false} HexRunStops(digits: string, rest: string)
    requires forall i :: 0 <= i < |digits| ==> IsHexDigit(digits[i])
    requires rest == "" || !IsHexDigit(rest[0])
    ensures HexRun(digits + rest) == |digits|
  {
    if digits == "" {
      assert digits + rest == rest;
    } else {
      HexRunStops(digits[1..], rest);
      assert (digits + rest)[1..] == digits[1..] + rest;
    }
  }

  lemma DecodeFrame(chunk: string, rest: string)
    ensures Decode(Frame(chunk) + rest) ==
            if chunk == "" then Body("", rest)
            else
              match Decode(rest)
              case Malformed => Malformed
              case Body(data, behind) => Body(chunk + data, behind)
  {
    var size := PrintHex(|chunk|);
    var tail := CRLF + (chunk + CRLF + rest);
    assert Frame(chunk) + rest == size + tail;
    HexRunStops(size, tail);
    HexValueInvertsPrintHex(|chunk|);
    CutFrame(size, chunk, rest);
  }

  /** On the wire: the size, CR LF, the chunk, CR LF; and the terminator is a frame of size zero. */
  lemma FrameIs(chunk: string)
    ensures Frame(chunk) == PrintHex(|chunk|) + "\r\n" + chunk + "\r\n"
    ensures TERMINATOR == "0" + "\r\n" + "\r\n"
  {
  }

  /** The digits of a size are lower case, and a size above fifteen prints its sixteenth part first. */
  lemma PrintHexIs(n: nat)
    ensures n < 10 ==> PrintHex(n) == ['0' + n as char]
    ensures 10 <= n < 16 ==> PrintHex(n) == ['a' + (n - 10) as char]
    ensures n >= 16 ==> PrintHex(n) == PrintHex(n / 16) + PrintHex(n % 16)
  {
  }

  /** Where a frame's parts are. */
  lemma CutFrame(size: string, chunk: string, rest: string)
    ensures var s := size + (CRLF + (chunk + CRLF + rest));
            && |s| >= |size| + 2 && s[..|size|] == size && s[|size|..|size| + 2] == CRLF
            && s[|size| + 2..] == chunk + CRLF + rest
    ensures var body := chunk + CRLF + rest;
            && |body| >= |chunk| + 2 && body[..|chunk|] == chunk && body[|chunk|..|chunk| + 2] == CRLF
            && body[|chunk| + 2..] == rest
  {
  }

  /** The framed chunks and the terminator decode to the chunks put together. */
  lemma {:induction false} DecodeInvertsFrames(chunks: seq<string>, rest: string)
    requires forall i :: 0 <= i < |chunks| ==> chunks[i] != ""
    ensures Decode(Frames(chunks) + TERMINATOR + rest) == Body(Text.Concat(chunks), rest)
  {
    if chunks == [] {
      assert PrintHex(0) == "0";
      assert Frame("") == TERMINATOR;
      DecodeFrame("", rest);
      assert Frames(chunks) + TERMINATOR + rest == Frame("") + rest;
    } else {
      var behind := Frames(chunks[1..]) + TERMINATOR + rest;
      FramesFirst(chunks);
      assert Frames(chunks) + TERMINATOR + rest == Frame(chunks[0]) + behind;
      DecodeFrame(chunks[0], behind);
      DecodeInvertsFrames(chunks[1..], rest);
    }
  }

  /** Why an empty chunk must never be framed: its frame ends the body, whatever follows. */
  lemma EmptyFrameEndsBody(before: seq<string>, after: string)
    requires forall i :: 0 <= i < |before| ==> before[i] != ""
    ensures Decode(Frames(before) + Frame("") + after) == Body(Text.Concat(before), after)
  {
    assert PrintHex(0) == "0";
    assert Frame("") == TERMINATOR;
    DecodeInvertsFrames(before, after);
  }
}
