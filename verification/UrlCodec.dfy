/** The query-string codec and the query parser of GateShared/HttpConnection.cpp. */
module UrlCodec {
  import opened Text

  function ToHex(x: nat): (h: char)
    requires x < 16
    ensures FromHex(h) == x
    ensures '0' <= h <= '9' || 'A' <= h <= 'F'
  {
    if x > 9 then (x + 55) as char else (x + 48) as char
  }

  /** Letters beyond F are accepted too, so the value can reach 35. */
  function FromHex(h: char): (x: nat)
    ensures x < 36
  {
    if 'A' <= h <= 'Z' then h as int - 'A' as int + 10
    else if 'a' <= h <= 'z' then h as int - 'a' as int + 10
    else if '0' <= h <= '9' then h as int - '0' as int
    else 0
  }

  predicate IsPlain(c: char) {
    IsAlnum(c) || c == '-' || c == '_' || c == '.' || c == '~'
  }

  function EncodeByte(c: char): string {
    if IsPlain(c) then [c]
    else if c == ' ' then "+"
    else ['%', ToHex(c as int % 256 / 16), ToHex(c as int % 16)]
  }

  function Encode(s: string): string {
    if s == [] then [] else EncodeByte(s[0]) + Encode(s[1..])
  }

  /** Two hex digits as one unsigned byte; values above 15 wrap around. */
  function HexPair(high: char, low: char): char {
    ((FromHex(high) * 16 + FromHex(low)) % 256) as char
  }

  /** A '%' with fewer than two bytes behind it ends the output. */
  function Decode(s: string): string {
    if s == [] then []
    else if s[0] == '+' then [' '] + Decode(s[1..])
    else if s[0] == '%' then
      if |s| < 3 then [] else [HexPair(s[1], s[2])] + Decode(s[3..])
    else [s[0]] + Decode(s[1..])
  }

  lemma PlainAre(c: char)
    ensures IsPlain(c) <==>
              || 'a' <= c <= 'z' || 'A' <= c <= 'Z' || '0' <= c <= '9'
              || c == '-' || c == '_' || c == '.' || c == '~'
  {
  }

  lemma ToHexIs(x: nat)
    requires x < 16
    ensures IsUpperDigit(ToHex(x), x)
  {
  }

  /** Plain characters stay, a space is a plus, and the rest is two upper-case digits. */
  lemma EncodeByteIs(c: char)
    requires c as int < 256
    ensures IsPlain(c) ==> EncodeByte(c) == [c]
    ensures c == ' ' ==> EncodeByte(c) == ['+']
    ensures !IsPlain(c) && c != ' ' ==>
              && |EncodeByte(c)| == 3 && EncodeByte(c)[0] == '%'
              && IsUpperDigit(EncodeByte(c)[1], c as int / 16) && IsUpperDigit(EncodeByte(c)[2], c as int % 16)
  {
    if !IsPlain(c) && c != ' ' {
      ByteDigits(c as int);
      ToHexIs(c as int / 16);
      ToHexIs(c as int % 16);
      assert EncodeByte(c) == ['%', ToHex(c as int / 16), ToHex(c as int % 16)];
    }
  }

  lemma ByteDigits(x: int)
    requires 0 <= x < 256
    ensures x % 256 == x && 0 <= x / 16 < 16
  {
  }

  predicate IsUpperDigit(c: char, value: int) {
    if value < 10 then c as int == '0' as int + value else c as int == 'A' as int + value - 10
  }

  predicate IsLowerDigit(c: char, value: int) {
    if value < 10 then c as int == '0' as int + value else c as int == 'a' as int + value - 10
  }

  /** An escape stands for its byte, whether its digits are upper or lower case; letters beyond F wrap around. */
  lemma EscapeIsRead(high: char, low: char, h: nat, l: nat, rest: string)
    requires h < 36 && l < 36
    requires IsUpperDigit(high, h) || IsLowerDigit(high, h)
    requires IsUpperDigit(low, l) || IsLowerDigit(low, l)
    ensures Decode(['%', high, low] + rest) == [((16 * h + l) % 256) as char] + Decode(rest)
    ensures h < 16 && l < 16 ==> Decode(['%', high, low] + rest) == [(16 * h + l) as char] + Decode(rest)
  {
    var s := ['%', high, low] + rest;
    assert s[3..] == rest;
  }

  /** A plus is a space, anything else but '%' is itself, and a '%' with too little behind it ends the text. */
  lemma OthersAreRead(c: char, rest: string)
    ensures Decode("") == ""
    ensures c == '+' ==> Decode([c] + rest) == " " + Decode(rest)
    ensures c != '+' && c != '%' ==> Decode([c] + rest) == [c] + Decode(rest)
    ensures c == '%' && |rest| < 2 ==> Decode([c] + rest) == ""
  {
    assert ([c] + rest)[1..] == rest;
  }

  lemma {:induction false} EncodeLast(s: string, c: char)
    ensures Encode(s + [c]) == Encode(s) + EncodeByte(c)
  {
    if s == [] {
      assert s + [c] == [c];
      assert Encode([c]) == EncodeByte(c) + Encode([]);
    } else {
      assert (s + [c])[1..] == s[1..] + [c];
      calc {
        Encode(s + [c]);
        EncodeByte(s[0]) + Encode(s[1..] + [c]);
        { EncodeLast(s[1..], c); }
        EncodeByte(s[0]) + (Encode(s[1..]) + EncodeByte(c));
        { Assoc(EncodeByte(s[0]), Encode(s[1..]), EncodeByte(c)); }
        Encode(s) + EncodeByte(c);
      }
    }
  }

  method UrlEncode(s: string) returns (r: string)
    ensures r == Encode(s)
  {
    r := [];
    for i := 0 to |s|
      invariant r == Encode(s[..i])
    {
      EncodeLast(s[..i], s[i]);
      assert s[..i + 1] == s[..i] + [s[i]];
      if IsPlain(s[i]) {
        r := r + [s[i]];
      } else if s[i] == ' ' {
        r := r + "+";
      } else {
        r := r + ['%'];
        r := r + [ToHex(s[i] as int % 256 / 16)];
        r := r + [ToHex(s[i] as int % 16)];
      }
    }
    assert s[..|s|] == s;
  }

  /** The position behind the text that one round of decoding reads. */
  function NextAt(s: string, i: nat): (j: nat)
    requires i < |s|
    ensures i < j <= |s|
  {
    if s[i] != '%' then i + 1 else if i + 2 < |s| then i + 3 else |s|
  }

  /** The text that one round of decoding writes. */
  function WrittenAt(s: string, i: nat): string
    requires i < |s|
  {
    if s[i] == '+' then [' ']
    else if s[i] != '%' then [s[i]]
    else if i + 2 < |s| then [HexPair(s[i + 1], s[i + 2])]
    else ""
  }

  lemma DecodeAt(s: string, i: nat, written: string)
    requires i < |s|
    ensures written + Decode(s[i..]) == written + WrittenAt(s, i) + Decode(s[NextAt(s, i)..])
  {
    var t := s[i..];
    assert t[1..] == s[i + 1..];
    if i + 2 < |s| {
      assert t[3..] == s[i + 3..];
    }
    assert Decode(t) == WrittenAt(s, i) + Decode(s[NextAt(s, i)..]);
  }

  method UrlDecode(s: string) returns (r: string)
    ensures r == Decode(s)
  {
    r := "";
    var i := 0;
    assert s[0..] == s;
    while i < |s|
      invariant 0 <= i <= |s|
      invariant r + Decode(s[i..]) == Decode(s)
    {
      DecodeAt(s, i, r);
      if s[i] == '+' {
        r := r + [' '];
      } else if s[i] == '%' {
        if i + 2 >= |s| {
          break;
        }
        r := r + [HexPair(s[i + 1], s[i + 2])];
        i := i + 2;
      } else {
        r := r + [s[i]];
      }
      i := i + 1;
    }
  }

  /** Decoding undoes encoding in front of any further text. */
  lemma DecodeEncodedByte(c: char, rest: string)
    requires c as int < 256
    ensures Decode(EncodeByte(c) + rest) == [c] + Decode(rest)
  {
    var e := EncodeByte(c);
    assert (e + rest)[|e|..] == rest;
    if !IsPlain(c) && c != ' ' {
      assert (e + rest)[..3] == e;
      assert (e + rest)[0] == '%' && (e + rest)[1] == e[1] && (e + rest)[2] == e[2];
      HexPairOfByte(c);
    }
  }

  lemma HexPairOfByte(c: char)
    requires c as int < 256
    ensures HexPair(ToHex(c as int % 256 / 16), ToHex(c as int % 16)) == c
  {
  }

  lemma {:induction false} DecodeInvertsEncode(s: string)
    requires IsByteString(s)
    ensures Decode(Encode(s)) == s
  {
    if s != [] {
      DecodeEncodedByte(s[0], Encode(s[1..]));
      DecodeInvertsEncode(s[1..]);
    }
  }

  /** Characters an encoded text consists of: none of the query delimiters is among them. */
  predicate InEncodedAlphabet(c: char) {
    IsPlain(c) || c == '+' || c == '%'
  }

  lemma {:induction false} EncodedAlphabet(s: string)
    ensures forall i :: 0 <= i < |Encode(s)| ==> InEncodedAlphabet(Encode(s)[i])
  {
    if s != [] {
      EncodedAlphabet(s[1..]);
    }
  }

  // ---- PreParseGetParam ----

  /** What one '&'-separated piece adds; a piece without '=' adds nothing. */
  function AddPair(params: map<string, string>, piece: string): map<string, string> {
    var eq := Find(piece, '=');
    if eq == |piece| then params
    else params[Decode(piece[..eq]) := Decode(piece[eq + 1..])]
  }

  function AddPairs(params: map<string, string>, pieces: seq<string>): map<string, string>
    decreases |pieces|
  {
    if pieces == [] then params else AddPairs(AddPair(params, pieces[0]), pieces[1..])
  }

  /** The path of a target and the parameters its query adds to `params`. */
  function ParseTarget(target: string, params: map<string, string>): (string, map<string, string>) {
    var k := Find(target, '?');
    if k == |target| then (target, params)
    else (target[..k], AddPairs(params, Split(target[k + 1..], '&')))
  }

  /** A target without a question mark is the whole path, and adds no parameter. */
  lemma PlainTarget(target: string, params: map<string, string>)
    requires '?' !in target
    ensures ParseTarget(target, params) == (target, params)
  {
    assert target[..|target|] == target;
    FindUnique(target, '?', |target|);
  }

  /** The path ends before the first question mark; what is behind it is split into its pieces. */
  lemma TargetWithQuery(path: string, query: string, params: map<string, string>)
    requires '?' !in path
    ensures ParseTarget(path + ['?'] + query, params) == (path, AddPairs(params, Split(query, '&')))
  {
    var target := path + ['?'] + query;
    assert target[..|path|] == path && target[|path| + 1..] == query;
    FindUnique(target, '?', |path|);
  }

  /** A piece adds what stands before and behind its first '=', decoded; without one it adds nothing. */
  lemma PieceIs(key: string, value: string, params: map<string, string>)
    requires '=' !in key
    ensures AddPair(params, key + ['='] + value) == params[Decode(key) := Decode(value)]
    ensures AddPair(params, key) == params
  {
    var piece := key + ['='] + value;
    assert piece[..|key|] == key && piece[|key| + 1..] == value;
    FindUnique(piece, '=', |key|);
    assert key[..|key|] == key;
    FindUnique(key, '=', |key|);
  }

  /** The pieces add one after the other. */
  lemma {:induction false} PiecesAddInOrder(params: map<string, string>, before: seq<string>, after: seq<string>)
    ensures AddPairs(params, before + after) == AddPairs(AddPairs(params, before), after)
    decreases |before|
  {
    if before == [] {
      assert before + after == after;
    } else {
      assert (before + after)[1..] == before[1..] + after;
      PiecesAddInOrder(AddPair(params, before[0]), before[1..], after);
    }
  }

  class Request {
    const target: string
    var getUrl: string
    var getParams: map<string, string>

    constructor (target: string)
      ensures this.target == target && getUrl == [] && getParams == map[]
    {
      this.target := target;
      getUrl := [];
      getParams := map[];
    }

    method AddParam(pair: string)
      modifies this`getParams
      ensures getParams == AddPair(old(getParams), pair)
    {
      var eqPos := Find(pair, '=');
      if eqPos != |pair| {
        var key := UrlDecode(pair[..eqPos]);
        var value := UrlDecode(pair[eqPos + 1..]);
        getParams := getParams[key := value];
      }
    }

    method PreParseGetParam()
      modifies this
      ensures (getUrl, getParams) == ParseTarget(target, old(getParams))
      ensures '?' !in target ==> getUrl == target && getParams == old(getParams)
    {
      var queryPos := Find(target, '?');
      if queryPos == |target| {
        getUrl := target;
        return;
      }
      getUrl := target[..queryPos];
      var query := target[queryPos + 1..];
      ghost var all := AddPairs(getParams, Split(query, '&'));
      while '&' in query
        invariant getUrl == target[..queryPos]
        invariant AddPairs(getParams, Split(query, '&')) == all
        decreases |query|
      {
        var pos := Find(query, '&');
        AddPairsAhead(getParams, query);
        AddParam(query[..pos]);
        query := query[pos + 1..];
      }
      AddPairsAhead(getParams, query);
      if query != "" {
        AddParam(query);
      }
    }
  }

  /** What a query adds is what its first piece adds, then what the rest adds. */
  lemma AddPairsAhead(params: map<string, string>, query: string)
    ensures var pos := Find(query, '&');
            AddPairs(params, Split(query, '&')) ==
            if pos == |query| then AddPair(params, query)
            else AddPairs(AddPair(params, query[..pos]), Split(query[pos + 1..], '&'))
  {
    var pos := Find(query, '&');
    if pos < |query| {
      assert Split(query, '&')[1..] == Split(query[pos + 1..], '&');
    } else {
      assert [query][1..] == [];
    }
  }

  // ---- the round trip ----

  function EncodePair(pair: (string, string)): string {
    Encode(pair.0) + ['='] + Encode(pair.1)
  }

  function EncodePairs(pairs: seq<(string, string)>): seq<string> {
    seq(|pairs|, i requires 0 <= i < |pairs| => EncodePair(pairs[i]))
  }

  /** The map of the pairs; a later pair wins over an earlier one with the same key. */
  function PairMap(params: map<string, string>, pairs: seq<(string, string)>): map<string, string>
    decreases |pairs|
  {
    if pairs == [] then params else PairMap(params[pairs[0].0 := pairs[0].1], pairs[1..])
  }

  predicate AreByteStrings(pairs: seq<(string, string)>) {
    forall i :: 0 <= i < |pairs| ==> IsByteString(pairs[i].0) && IsByteString(pairs[i].1)
  }

  lemma NoDelimiters(s: string)
    ensures '=' !in Encode(s) && '&' !in Encode(s)
  {
    EncodedAlphabet(s);
  }

  lemma EncodedPairSplits(pair: (string, string))
    ensures var piece, k := EncodePair(pair), |Encode(pair.0)|;
            && Find(piece, '=') == k < |piece|
            && piece[..k] == Encode(pair.0) && piece[k + 1..] == Encode(pair.1)
            && '&' !in piece
  {
    var key, value, piece := Encode(pair.0), Encode(pair.1), EncodePair(pair);
    NoDelimiters(pair.0);
    NoDelimiters(pair.1);
    assert piece[..|key|] == key && piece[|key| + 1..] == value;
    FindUnique(piece, '=', |key|);
  }

  lemma AddEncodedPair(params: map<string, string>, pair: (string, string))
    requires IsByteString(pair.0) && IsByteString(pair.1)
    ensures AddPair(params, EncodePair(pair)) == params[pair.0 := pair.1]
  {
    EncodedPairSplits(pair);
    DecodeInvertsEncode(pair.0);
    DecodeInvertsEncode(pair.1);
  }

  lemma {:induction false} AddEncodedPairs(params: map<string, string>, pairs: seq<(string, string)>)
    requires AreByteStrings(pairs)
    ensures AddPairs(params, EncodePairs(pairs)) == PairMap(params, pairs)
    decreases |pairs|
  {
    if pairs != [] {
      AddEncodedPair(params, pairs[0]);
      AddEncodedPairs(params[pairs[0].0 := pairs[0].1], pairs[1..]);
      assert EncodePairs(pairs)[1..] == EncodePairs(pairs[1..]);
    }
  }

  /** The last pair with a key decides its value, and no other key appears. */
  lemma {:induction false} PairMapLastWins(params: map<string, string>, pairs: seq<(string, string)>, i: nat)
    requires i < |pairs|
    requires forall j :: i < j < |pairs| ==> pairs[j].0 != pairs[i].0
    ensures pairs[i].0 in PairMap(params, pairs) && PairMap(params, pairs)[pairs[i].0] == pairs[i].1
    decreases |pairs|
  {
    if i > 0 {
      PairMapLastWins(params[pairs[0].0 := pairs[0].1], pairs[1..], i - 1);
    } else {
      PairMapKeeps(params[pairs[0].0 := pairs[0].1], pairs[1..], pairs[0].0);
    }
  }

  lemma {:induction false} PairMapKeeps(params: map<string, string>, pairs: seq<(string, string)>, key: string)
    requires forall j :: 0 <= j < |pairs| ==> pairs[j].0 != key
    ensures key in PairMap(params, pairs) <==> key in params
    ensures key in params ==> PairMap(params, pairs)[key] == params[key]
    decreases |pairs|
  {
    if pairs != [] {
      PairMapKeeps(params[pairs[0].0 := pairs[0].1], pairs[1..], key);
    }
  }

  function PrintTarget(path: string, pairs: seq<(string, string)>): string {
    path + ['?'] + Join(EncodePairs(pairs), '&')
  }

  /** A printed target is read back as its path and the map of its pairs. */
  lemma QueryRoundTrip(path: string, pairs: seq<(string, string)>, params: map<string, string>)
    requires '?' !in path
    requires forall i :: 0 <= i < |pairs| ==> IsByteString(pairs[i].0) && IsByteString(pairs[i].1)
    ensures ParseTarget(PrintTarget(path, pairs), params) == (path, PairMap(params, pairs))
  {
    var pieces, target := EncodePairs(pairs), PrintTarget(path, pairs);
    assert target[..|path|] == path;
    FindUnique(target, '?', |path|);
    assert target[|path| + 1..] == Join(pieces, '&');
    AddEncodedPairs(params, pairs);
    if pairs == [] {
      AddPairsAhead(params, "");
    } else {
      forall i | 0 <= i < |pieces| ensures '&' !in pieces[i] {
        EncodedPairSplits(pairs[i]);
      }
      SplitOfJoin(pieces, '&');
    }
  }
}
