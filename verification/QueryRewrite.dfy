/** The trusted-uid rewrite of AIGatewayService/domain/AIRouteModules.cpp: the caller's uid replaces a query's own. */
module QueryRewrite {
  import opened Text

  // ---- keys ----

  function HexDigit(c: char): int {
    if '0' <= c <= '9' then c as int - '0' as int
    else if 'a' <= c <= 'f' then c as int - 'a' as int + 10
    else if 'A' <= c <= 'F' then c as int - 'A' as int + 10
    else -1
  }

  function Lower(c: char): char {
    if 'A' <= c <= 'Z' then (c as int + 32) as char else c
  }

  predicate EscapeAt(s: string, i: nat) {
    i + 2 < |s| && s[i] == '%' && HexDigit(s[i + 1]) >= 0 && HexDigit(s[i + 2]) >= 0
  }

  /** A character of a key: what an escape stands for, or a character as it is. */
  datatype Token = Escaped(byte: char) | Raw(letter: char)

  function TokenAt(s: string, i: nat): Token
    requires i < |s|
  {
    if EscapeAt(s, i) then Escaped((HexDigit(s[i + 1]) * 16 + HexDigit(s[i + 2])) as char) else Raw(s[i])
  }

  function NextAt(s: string, i: nat): (j: nat)
    requires i < |s|
    ensures i < j <= |s|
  {
    if EscapeAt(s, i) then i + 3 else i + 1
  }

  /** The tokens from position `i` on. */
  function Tokens(s: string, i: nat): seq<Token>
    requires i <= |s|
    decreases |s| - i
  {
    if i == |s| then [] else [TokenAt(s, i)] + Tokens(s, NextAt(s, i))
  }

  /** What an exact decoder gives for a token. */
  function Exact(t: Token): char {
    if t.Escaped? then t.byte else t.letter
  }

  /** What the filter makes of a token: only characters that are not escaped are put into lower case. */
  function Folded(t: Token): char {
    if t.Escaped? then t.byte else Lower(t.letter)
  }

  function ExactText(tokens: seq<Token>): (s: string)
    ensures |s| == |tokens|
  {
    seq(|tokens|, i requires 0 <= i < |tokens| => Exact(tokens[i]))
  }

  function FoldedText(tokens: seq<Token>): (s: string)
    ensures |s| == |tokens|
  {
    seq(|tokens|, i requires 0 <= i < |tokens| => Folded(tokens[i]))
  }

  /** The hexadecimal digit with this value, in either case. */
  predicate IsDigitOf(c: char, value: nat) {
    if value < 10 then c as int == '0' as int + value
    else value < 16 && (c as int == 'A' as int + value - 10 || c as int == 'a' as int + value - 10)
  }

  lemma EscapesAreRead(s: string, i: nat, high: nat, low: nat)
    requires i + 2 < |s| && s[i] == '%' && IsDigitOf(s[i + 1], high) && IsDigitOf(s[i + 2], low)
    ensures TokenAt(s, i) == Escaped((16 * high + low) as char) && NextAt(s, i) == i + 3
  {
  }

  predicate IsHex(c: char) {
    '0' <= c <= '9' || 'a' <= c <= 'f' || 'A' <= c <= 'F'
  }

  /** Any other character stands for itself. */
  lemma OthersAreRaw(s: string, i: nat)
    requires i < |s| && (s[i] == '%' && i + 2 < |s| ==> !IsHex(s[i + 1]) || !IsHex(s[i + 2]))
    ensures TokenAt(s, i) == Raw(s[i]) && NextAt(s, i) == i + 1
  {
  }

  /** A key decoded by percent-decoding alone. */
  function DecodeExactly(key: string): string {
    ExactText(Tokens(key, 0))
  }

  /** A key as the filter decodes it. */
  function DecodeKey(key: string): string {
    FoldedText(Tokens(key, 0))
  }

  lemma FoldedFirst(key: string, i: nat)
    requires i < |key|
    ensures FoldedText(Tokens(key, i)) == [Folded(TokenAt(key, i))] + FoldedText(Tokens(key, NextAt(key, i)))
  {
    var t, later := TokenAt(key, i), Tokens(key, NextAt(key, i));
    assert Tokens(key, i) == [t] + later;
    assert FoldedText([t] + later)[0] == Folded(t);
    assert FoldedText([t] + later)[1..] == FoldedText(later);
  }

  method PercentDecodeAsciiKey(encoded: string) returns (result: string)
    ensures result == DecodeKey(encoded)
  {
    result := [];
    var i := 0;
    ghost var rest := DecodeKey(encoded);
    while i < |encoded|
      invariant i <= |encoded| && rest == FoldedText(Tokens(encoded, i))
      invariant DecodeKey(encoded) == result + rest
      decreases |encoded| - i
    {
      FoldedFirst(encoded, i);
      rest := FoldedText(Tokens(encoded, NextAt(encoded, i)));
      Assoc(result, [Folded(TokenAt(encoded, i))], rest);
      if encoded[i] == '%' && i + 2 < |encoded| {
        var hi, lo := HexDigit(encoded[i + 1]), HexDigit(encoded[i + 2]);
        if hi >= 0 && lo >= 0 {
          result := result + [(hi * 16 + lo) as char];
          i := i + 3;
          continue;
        }
      }
      result := result + [Lower(encoded[i])];
      i := i + 1;
    }
  }

  function KeyOf(item: string): string {
    item[..Find(item, '=')]
  }

  predicate IsUidItem(item: string) {
    DecodeKey(KeyOf(item)) == "uid"
  }

  /** No item that an exact decoder reads as uid passes the filter. */
  lemma ExactUidIsCaught(item: string)
    requires DecodeExactly(KeyOf(item)) == "uid"
    ensures IsUidItem(item)
  {
    var tokens := Tokens(KeyOf(item), 0);
    forall i | 0 <= i < |tokens| ensures FoldedText(tokens)[i] == ExactText(tokens)[i] {
      assert ExactText(tokens)[i] in "uid";
      assert FoldedText(tokens)[i] == Folded(tokens[i]) && ExactText(tokens)[i] == Exact(tokens[i]);
    }
    assert FoldedText(tokens) == "uid";
  }

  function LowerAll(s: string): (r: string)
    ensures |r| == |s|
  {
    seq(|s|, i requires 0 <= i < |s| => Lower(s[i]))
  }

  predicate EscapesUpperCase(tokens: seq<Token>) {
    exists i :: 0 <= i < |tokens| && tokens[i].Escaped? && 'A' <= tokens[i].byte <= 'Z'
  }

  /** The filter catches uid in any case, but not when an upper-case letter is written as an escape. */
  lemma UidItemsAre(item: string)
    ensures var tokens := Tokens(KeyOf(item), 0);
            IsUidItem(item) <==> LowerAll(ExactText(tokens)) == "uid" && !EscapesUpperCase(tokens)
  {
    var tokens := Tokens(KeyOf(item), 0);
    var lower, folded := LowerAll(ExactText(tokens)), FoldedText(tokens);
    assert forall i :: 0 <= i < |tokens| ==> lower[i] == Lower(Exact(tokens[i])) && folded[i] == Folded(tokens[i]);
    if folded == "uid" {
      assert forall i :: 0 <= i < |tokens| ==> folded[i] in "uid";
      assert forall i :: 0 <= i < |tokens| ==> lower[i] == folded[i];
      assert lower == folded;
    }
    if lower == "uid" && !EscapesUpperCase(tokens) {
      assert forall i :: 0 <= i < |tokens| ==> lower[i] == folded[i];
      assert lower == folded;
    }
  }

  /** "%55id" decodes to "Uid", and passes, although "Uid" and "%75id" do not. */
  lemma EscapedUpperCasePasses(value: string)
    ensures DecodeExactly(KeyOf("%55id" + ['='] + value)) == "Uid" && !IsUidItem("%55id" + ['='] + value)
  {
    var key := "%55id";
    KeyUpTo(key, value);
    assert TokenAt(key, 0) == Escaped('U') && NextAt(key, 0) == 3;
    assert Tokens(key, 0) == [Escaped('U')] + Tokens(key, 3);
    assert TokenAt(key, 3) == Raw('i') && TokenAt(key, 4) == Raw('d');
    assert Tokens(key, 3) == [Raw('i')] + Tokens(key, 4);
    assert Tokens(key, 4) == [Raw('d')] + Tokens(key, 5);
    assert DecodeExactly(key) == "Uid";
    assert DecodeKey(key)[0] == 'U';
  }

  lemma KeyUpTo(key: string, value: string)
    requires '=' !in key
    ensures KeyOf(key + ['='] + value) == key
  {
    var item := key + ['='] + value;
    assert item[..|key|] == key;
    FindUnique(item, '=', |key|);
  }

  /** Without escapes the filter catches exactly the three letters, in any case. */
  lemma PlainUidIsCaught(key: string, value: string)
    requires '%' !in key && '=' !in key
    ensures IsUidItem(key + ['='] + value) <==>
              |key| == 3 && key[0] in "uU" && key[1] in "iI" && key[2] in "dD"
    ensures IsUidItem(key) <==> |key| == 3 && key[0] in "uU" && key[1] in "iI" && key[2] in "dD"
  {
    KeyUpTo(key, value);
    WholeIsKey(key);
    PlainTokens(key, 0);
    var folded := DecodeKey(key);
    assert |folded| == |key| && forall i :: 0 <= i < |key| ==> folded[i] == Lower(key[i]);
    if |key| == 3 {
      assert folded == [Lower(key[0]), Lower(key[1]), Lower(key[2])];
    }
  }

  /** A key without escapes is only put into lower case. */
  lemma PlainKeyIsLowered(key: string)
    requires '%' !in key
    ensures |DecodeKey(key)| == |key|
    ensures forall i :: 0 <= i < |key| ==>
              DecodeKey(key)[i] as int == key[i] as int + (if 'A' <= key[i] <= 'Z' then 32 else 0)
  {
    PlainTokens(key, 0);
  }

  lemma WholeIsKey(item: string)
    requires '=' !in item
    ensures KeyOf(item) == item
  {
    assert item[..|item|] == item;
    FindUnique(item, '=', |item|);
  }

  lemma {:induction false} PlainTokens(key: string, i: nat)
    requires '%' !in key && i <= |key|
    ensures |Tokens(key, i)| == |key| - i
    ensures forall j :: 0 <= j < |key| - i ==> Tokens(key, i)[j] == Raw(key[i + j])
    decreases |key| - i
  {
    if i < |key| {
      var later := Tokens(key, i + 1);
      PlainTokens(key, i + 1);
      PlainToken(key, i);
      forall j | 0 <= j < |key| - i ensures Tokens(key, i)[j] == Raw(key[i + j]) {
        if j > 0 {
          var k := j - 1;
          assert later[k] == Raw(key[i + 1 + k]);
        }
      }
    }
  }

  lemma PlainToken(key: string, i: nat)
    requires '%' !in key && i < |key|
    ensures Tokens(key, i) == [Raw(key[i])] + Tokens(key, i + 1)
  {
    assert key[i] in key;
  }

  // ---- targets ----

  function PathOf(target: string): string {
    target[..Find(target, '?')]
  }

  function QueryOf(target: string): string {
    var k := Find(target, '?');
    if k == |target| then "" else target[k + 1..]
  }

  predicate Passes(item: string) {
    item != "" && !IsUidItem(item)
  }

  /** The items that pass, in order. */
  function Kept(items: seq<string>): seq<string> {
    if items == [] then []
    else
      var last := items[|items| - 1];
      Kept(items[..|items| - 1]) + (if Passes(last) then [last] else [])
  }

  /** The items one by one from the front. */
  lemma {:induction false} KeptAre(items: seq<string>)
    ensures Kept([]) == []
    ensures items != [] ==>
              Kept(items) ==
              (if items[0] != "" && !IsUidItem(items[0]) then [items[0]] else []) + Kept(items[1..])
  {
    if |items| > 1 {
      var front := items[..|items| - 1];
      KeptAre(front);
      assert front[1..] == items[1..][..|items| - 2];
    }
  }

  function Digits(n: nat): (s: string)
    ensures s != "" && forall i :: 0 <= i < |s| ==> '0' <= s[i] <= '9'
  {
    if n < 10 then [('0' as int + n) as char] else Digits(n / 10) + [('0' as int + n % 10) as char]
  }

  function Decimal(n: int): (s: string)
    ensures '&' !in s
  {
    if n < 0 then "-" + Digits(-n) else Digits(n)
  }

  /** The number that decimal digits stand for. */
  function DigitsRead(s: string): int {
    if s == "" then 0 else 10 * DigitsRead(s[..|s| - 1]) + (s[|s| - 1] as int - '0' as int)
  }

  /** A number as a reader of decimal numbers sees it. */
  function DecimalRead(s: string): int {
    if s != "" && s[0] == '-' then -DigitsRead(s[1..]) else DigitsRead(s)
  }

  lemma {:induction false} DigitsAreRead(n: nat)
    ensures DigitsRead(Digits(n)) == n && (n > 0 ==> Digits(n)[0] != '0') && (n == 0 ==> |Digits(n)| == 1)
  {
    var s := Digits(n);
    if n < 10 {
      assert s[..0] == "";
    } else {
      DigitsAreRead(n / 10);
      assert s[..|s| - 1] == Digits(n / 10);
    }
  }

  /** A printed number reads back as itself: a sign only before negative ones, digits, and no leading zero. */
  lemma DecimalIsRead(n: int)
    ensures var s := Decimal(n);
            && DecimalRead(s) == n && s != "" && (s[0] == '-' <==> n < 0)
            && var digits := if n < 0 then s[1..] else s;
               && digits != "" && (digits[0] == '0' ==> n == 0 && |digits| == 1)
               && forall i :: 0 <= i < |digits| ==> '0' <= digits[i] <= '9'
  {
    DigitsAreRead(if n < 0 then -n else n);
    assert n < 0 ==> Decimal(n)[1..] == Digits(-n);
  }

  function UidItem(uid: int): (item: string)
    ensures '&' !in item
  {
    "uid=" + Decimal(uid)
  }

  /** The query's items after the rewrite. */
  function NewItems(query: string, uid: int): seq<string> {
    Kept(Split(query, '&')) + [UidItem(uid)]
  }

  function Rewrite(target: string, uid: int): string {
    PathOf(target) + ['?'] + Join(NewItems(QueryOf(target), uid), '&')
  }

  lemma KeptLast(items: seq<string>, item: string, passes: bool)
    requires passes == Passes(item)
    ensures Kept(items + [item]) == if passes then Kept(items) + [item] else Kept(items)
  {
    assert (items + [item])[..|items|] == items;
    assert Kept(items) + [] == Kept(items);
  }

  /** The first piece of a text, and the pieces of what is behind it. */
  lemma SplitFirst(text: string, behind: string)
    requires var end := Find(text, '&'); end < |text| ==> behind == text[end + 1..]
    ensures var end := Find(text, '&');
            Split(text, '&') == [text[..end]] + (if end == |text| then [] else Split(behind, '&'))
  {
    var end := Find(text, '&');
    if end == |text| {
      assert text[..end] == text;
    }
  }

  lemma DropTwice(query: string, start: nat, n: nat)
    requires start + n <= |query|
    ensures query[start..][n..] == query[start + n..]
  {
  }

  /** The piece at `start`, and where the next one starts; the last piece has none behind it. */
  method CutItem(query: string, start: nat) returns (item: string, isLast: bool, next: nat)
    requires start <= |query|
    ensures start < next && (!isLast ==> next <= |query|)
    ensures Split(query[start..], '&') == [item] + (if isLast then [] else Split(query[next..], '&'))
  {
    var rest := query[start..];
    var end := Find(rest, '&');
    item, isLast, next := rest[..end], end == |rest|, start + end + 1;
    if !isLast {
      DropTwice(query, start, end + 1);
    }
    SplitFirst(rest, if isLast then "" else query[next..]);
  }

  /** The loop body: an item is kept if it is not empty and not a uid item. */
  method KeepItem(kept: seq<string>, item: string, ghost done: seq<string>) returns (items: seq<string>)
    requires kept == Kept(done)
    ensures items == Kept(done + [item])
  {
    var isUid := IsUidQueryItem(item);
    KeptLast(done, item, item != "" && !isUid);
    items := if item != "" && !isUid then kept + [item] else kept;
  }

  method KeptItems(query: string) returns (items: seq<string>)
    ensures items == Kept(Split(query, '&'))
  {
    items := [];
    var start := 0;
    ghost var done, later := [], Split(query, '&');
    assert query[0..] == query && [] + later == later;
    while start <= |query|
      invariant start <= |query|
      invariant later == Split(query[start..], '&') && done + later == Split(query, '&')
      invariant items == Kept(done)
      decreases |query| - start
    {
      var item, isLast, next := CutItem(query, start);
      ghost var more := if isLast then [] else Split(query[next..], '&');
      items := KeepItem(items, item, done);
      AssocParts(done, [item], more);
      done, later := done + [item], more;
      if isLast {
        assert done + [] == done;
        break;
      }
      start := next;
    }
  }

  method IsUidQueryItem(item: string) returns (isUid: bool)
    ensures isUid == IsUidItem(item)
  {
    var key := PercentDecodeAsciiKey(KeyOf(item));
    isUid := key == "uid";
  }

  method PrefixProxyTargetWithTrustedUid(target: string, authUid: int) returns (next: string)
    ensures next == Rewrite(target, authUid)
    ensures NamesCaller(LastItem(next), authUid)
  {
    next := RewriteTarget(target, authUid);
    LastItemNamesCaller(target, authUid);
  }

  /** The last item of the target's query. */
  function LastItem(target: string): string {
    var items := Split(QueryOf(target), '&');
    items[|items| - 1]
  }

  /** "uid=", and text that reads as this number. */
  predicate NamesCaller(item: string, uid: int) {
    |item| >= 4 && item[..4] == "uid=" && DecimalRead(item[4..]) == uid
  }

  method RewriteTarget(target: string, authUid: int) returns (next: string)
    ensures next == Rewrite(target, authUid)
  {
    var queryPos := Find(target, '?');
    var path := target[..queryPos];
    var query := if queryPos == |target| then "" else target[queryPos + 1..];
    var items := KeptItems(query);
    items := items + [UidItem(authUid)];
    next := AppendItems(path + ['?'], items);
    RewriteJoins(target, authUid, path, query, items);
  }

  lemma RewriteJoins(target: string, uid: int, path: string, query: string, items: seq<string>)
    requires path == PathOf(target) && query == QueryOf(target)
    requires items == Kept(Split(query, '&')) + [UidItem(uid)]
    ensures path + ['?'] + Join(items, '&') == Rewrite(target, uid)
  {
  }

  method AppendItems(prefix: string, items: seq<string>) returns (next: string)
    ensures next == prefix + Join(items, '&')
  {
    next := prefix;
    assert prefix + "" == prefix;
    for index := 0 to |items|
      invariant next == prefix + Join(items[..index], '&')
    {
      JoinedSoFar(prefix, items, index);
      if index > 0 {
        next := next + ['&'];
      }
      next := next + items[index];
    }
    assert items[..|items|] == items;
  }

  lemma JoinedSoFar(prefix: string, items: seq<string>, index: nat)
    requires index < |items|
    ensures prefix + Join(items[..index + 1], '&')
         == if index == 0 then prefix + Join(items[..index], '&') + items[index]
            else prefix + Join(items[..index], '&') + ['&'] + items[index]
  {
    var before := items[..index];
    JoinLast(before, items[index], '&');
    assert items[..index + 1] == before + [items[index]];
    if index > 0 {
      AppendTwo(prefix, Join(before, '&'), items[index]);
    } else {
      assert prefix + Join(before, '&') == prefix;
    }
  }

  lemma AppendTwo(prefix: string, joined: string, item: string)
    ensures prefix + joined + ['&'] + item == prefix + (joined + ['&'] + item)
  {
    Assoc(prefix, joined + ['&'], item);
    Assoc(prefix, joined, ['&']);
  }

  lemma {:induction false} JoinLast(parts: seq<string>, last: string, sep: char)
    ensures Join(parts + [last], sep) == if parts == [] then last else Join(parts, sep) + [sep] + last
  {
    if |parts| > 1 {
      JoinLast(parts[1..], last, sep);
      assert (parts + [last])[1..] == parts[1..] + [last];
    } else if |parts| == 1 {
      assert parts + [last] == [parts[0], last] && [parts[0], last][1..] == [last];
    }
  }

  // ---- what the rewrite keeps ----

  lemma {:induction false} KeptItemsPass(items: seq<string>)
    requires forall i :: 0 <= i < |items| ==> '&' !in items[i]
    ensures forall i :: 0 <= i < |Kept(items)| ==> Passes(Kept(items)[i]) && '&' !in Kept(items)[i]
  {
    if items != [] {
      KeptItemsPass(items[..|items| - 1]);
    }
  }

  lemma PiecesPass(query: string)
    ensures forall i :: 0 <= i < |Kept(Split(query, '&'))| ==>
              Passes(Kept(Split(query, '&'))[i]) && '&' !in Kept(Split(query, '&'))[i]
  {
    PiecesHaveNoSeparator(query, '&');
    KeptItemsPass(Split(query, '&'));
  }

  lemma {:induction false} KeptAgain(items: seq<string>)
    requires forall i :: 0 <= i < |items| ==> Passes(items[i])
    ensures Kept(items) == items
  {
    if items != [] {
      KeptAgain(items[..|items| - 1]);
      assert items == items[..|items| - 1] + [items[|items| - 1]];
    }
  }

  lemma UidItemIsUid(uid: int)
    ensures IsUidItem(UidItem(uid))
  {
    var key := "uid";
    assert UidItem(uid) == key + ['='] + Decimal(uid);
    KeyUpTo(key, Decimal(uid));
    assert TokenAt(key, 0) == Raw('u') && TokenAt(key, 1) == Raw('i') && TokenAt(key, 2) == Raw('d');
    assert Tokens(key, 2) == [Raw('d')] + Tokens(key, 3);
    assert Tokens(key, 1) == [Raw('i')] + Tokens(key, 2);
    assert Tokens(key, 0) == [Raw('u')] + Tokens(key, 1);
    assert DecodeKey(key) == "uid";
  }

  lemma TargetParts(path: string, query: string)
    requires '?' !in path
    ensures PathOf(path + ['?'] + query) == path && QueryOf(path + ['?'] + query) == query
  {
    var target := path + ['?'] + query;
    assert target[..|path|] == path && target[|path| + 1..] == query;
    FindUnique(target, '?', |path|);
  }

  /** A target without a question mark is all path. */
  lemma NoQuery(target: string)
    requires '?' !in target
    ensures PathOf(target) == target && QueryOf(target) == ""
  {
    assert target[..|target|] == target;
    FindUnique(target, '?', |target|);
  }

  /** The path stays, and the new query has the items that pass, in order, and then the caller's uid. */
  lemma RewriteParts(target: string, uid: int)
    ensures PathOf(Rewrite(target, uid)) == PathOf(target)
    ensures Split(QueryOf(Rewrite(target, uid)), '&') == Kept(Split(QueryOf(target), '&')) + [UidItem(uid)]
  {
    var items := NewItems(QueryOf(target), uid);
    TargetParts(PathOf(target), Join(items, '&'));
    PiecesPass(QueryOf(target));
    SplitOfJoin(items, '&');
  }

  /** Only the last item of the new query has the key uid, whether the filter's or an exact decoder reads it. */
  lemma OnlyTrustedUid(target: string, uid: int)
    ensures var items := Split(QueryOf(Rewrite(target, uid)), '&');
            && items[|items| - 1] == UidItem(uid) && IsUidItem(UidItem(uid))
            && forall i :: 0 <= i < |items| - 1 ==>
                 items[i] != "" && !IsUidItem(items[i]) && DecodeExactly(KeyOf(items[i])) != "uid"
  {
    RewriteParts(target, uid);
    UidItemIsUid(uid);
    PiecesPass(QueryOf(target));
    NoExactUid(Kept(Split(QueryOf(target), '&')));
  }

  lemma UidItemNamesCaller(uid: int)
    ensures NamesCaller(UidItem(uid), uid)
  {
    DecimalIsRead(uid);
    assert UidItem(uid)[..4] == "uid=" && UidItem(uid)[4..] == Decimal(uid);
  }

  /** The last item names the caller: behind "uid=" it reads as exactly this number. */
  lemma LastItemNamesCaller(target: string, uid: int)
    ensures NamesCaller(LastItem(Rewrite(target, uid)), uid)
  {
    RewriteParts(target, uid);
    UidItemNamesCaller(uid);
  }

  /** Every other item of the query stays: those whose key is not uid in any case however it is decoded. */
  lemma OtherItemsStay(target: string, uid: int, k: nat)
    requires k < |Split(QueryOf(target), '&')|
    requires var item := Split(QueryOf(target), '&')[k];
             item != "" && LowerAll(DecodeExactly(KeyOf(item))) != "uid"
    ensures Split(QueryOf(target), '&')[k] in Split(QueryOf(Rewrite(target, uid)), '&')
  {
    var items := Split(QueryOf(target), '&');
    RewriteParts(target, uid);
    UidItemsAre(items[k]);
    KeptKeeps(items, k);
  }

  lemma {:induction false} KeptKeeps(items: seq<string>, k: nat)
    requires k < |items| && items[k] != "" && !IsUidItem(items[k])
    ensures items[k] in Kept(items)
  {
    if k < |items| - 1 {
      KeptKeeps(items[..|items| - 1], k);
    }
  }

  lemma NoExactUid(items: seq<string>)
    requires forall i :: 0 <= i < |items| ==> Passes(items[i])
    ensures forall i :: 0 <= i < |items| ==> DecodeExactly(KeyOf(items[i])) != "uid"
  {
    forall i | 0 <= i < |items| ensures DecodeExactly(KeyOf(items[i])) != "uid" {
      if DecodeExactly(KeyOf(items[i])) == "uid" {
        ExactUidIsCaught(items[i]);
      }
    }
  }

  /** Rewriting again replaces the first uid by the second; with the same uid nothing changes. */
  lemma RewriteAgain(target: string, first: int, second: int)
    ensures Rewrite(Rewrite(target, first), second) == Rewrite(target, second)
  {
    var kept := Kept(Split(QueryOf(target), '&'));
    RewriteParts(target, first);
    PiecesPass(QueryOf(target));
    KeptAgain(kept);
    UidItemIsUid(first);
    KeptLast(kept, UidItem(first), false);
  }
}
