/** Byte strings, and the search, split and join that the parsers share. */
module Text {
  /** A C++ string holds bytes: characters below 256. */
  predicate IsByteString(s: string) {
    forall i :: 0 <= i < |s| ==> s[i] as int < 256
  }

  predicate IsLetter(c: char) {
    'A' <= c <= 'Z' || 'a' <= c <= 'z'
  }

  predicate IsAlnum(c: char) {
    IsLetter(c) || '0' <= c <= '9'
  }

  function FindFrom(s: string, c: char, i: nat): (r: nat)
    requires i <= |s|
    ensures i <= r <= |s| && (r < |s| ==> s[r] == c)
    ensures forall j :: i <= j < r ==> s[j] != c
    decreases |s| - i
  {
    if i == |s| || s[i] == c then i else FindFrom(s, c, i + 1)
  }

  /** The first position of `c`, as std::string::find gives it; the length stands for npos. */
  function Find(s: string, c: char): (r: nat)
    ensures r <= |s| && c !in s[..r]
    ensures r < |s| ==> s[r] == c
  {
    FindFrom(s, c, 0)
  }

  lemma FindUnique(s: string, c: char, k: nat)
    requires k <= |s| && c !in s[..k]
    requires k < |s| ==> s[k] == c
    ensures Find(s, c) == k
  {
    forall j | 0 <= j < k ensures s[j] != c {
      assert s[..k][j] == s[j];
    }
  }

  /** The pieces of `s` between separators, the last one included even when empty. */
  function Split(s: string, sep: char): (parts: seq<string>)
    ensures |parts| >= 1
    decreases |s|
  {
    var k := Find(s, sep);
    if k == |s| then [s] else [s[..k]] + Split(s[k + 1..], sep)
  }

  lemma {:induction false} PiecesHaveNoSeparator(s: string, sep: char)
    ensures forall i :: 0 <= i < |Split(s, sep)| ==> sep !in Split(s, sep)[i]
    decreases |s|
  {
    var k := Find(s, sep);
    if k < |s| {
      PiecesHaveNoSeparator(s[k + 1..], sep);
    } else {
      assert s[..k] == s;
    }
  }

  function Join(parts: seq<string>, sep: char): string {
    if |parts| == 0 then ""
    else if |parts| == 1 then parts[0]
    else parts[0] + [sep] + Join(parts[1..], sep)
  }

  lemma CutAt(s: string, k: nat)
    requires k < |s|
    ensures s == s[..k] + [s[k]] + s[k + 1..]
  {
  }

  /** One separator splits off the text before it. */
  lemma SplitAtSeparator(a: string, sep: char, b: string)
    requires sep !in a
    ensures Split(a + [sep] + b, sep) == [a] + Split(b, sep)
  {
    var s := a + [sep] + b;
    assert s[..|a|] == a;
    FindUnique(s, sep, |a|);
    assert s[|a| + 1..] == b;
  }

  lemma SplitNoSeparator(a: string, sep: char)
    requires sep !in a
    ensures Split(a, sep) == [a]
  {
    assert a[..|a|] == a;
    FindUnique(a, sep, |a|);
  }

  lemma {:induction false} SplitOfJoin(parts: seq<string>, sep: char)
    requires |parts| >= 1
    requires forall i :: 0 <= i < |parts| ==> sep !in parts[i]
    ensures Split(Join(parts, sep), sep) == parts
  {
    if |parts| == 1 {
      SplitNoSeparator(parts[0], sep);
    } else {
      SplitOfJoin(parts[1..], sep);
      SplitAtSeparator(parts[0], sep, Join(parts[1..], sep));
    }
  }

  lemma DropLastBehind(head: string, later: seq<string>, more: seq<string>)
    requires later != []
    ensures var open := [head] + later;
            && open[|open| - 1] == later[|later| - 1]
            && open[..|open| - 1] + more == [head] + (later[..|later| - 1] + more)
  {
    var open := [head] + later;
    assert open[..|open| - 1] == [head] + later[..|later| - 1];
    AssocParts([head], later[..|later| - 1], more);
  }

  /** Splitting can be resumed: only the last piece of `a` is still open when `b` arrives. */
  lemma {:induction false} SplitResumes(a: string, b: string, sep: char)
    ensures var open := Split(a, sep);
            Split(a + b, sep) == open[..|open| - 1] + Split(open[|open| - 1] + b, sep)
    decreases |a|
  {
    var k := Find(a, sep);
    if k < |a| {
      var head, rest := a[..k], a[k + 1..];
      CutAt(a, k);
      Assoc(head + [sep], rest, b);
      SplitAtSeparator(head, sep, rest + b);
      SplitResumes(rest, b, sep);
      DropLastBehind(head, Split(rest, sep), Split(Split(rest, sep)[|Split(rest, sep)| - 1] + b, sep));
    } else {
      assert Split(a, sep) == [a];
    }
  }

  /** The concatenation of a list of sequences. */
  function Concat<T>(parts: seq<seq<T>>): seq<T> {
    if |parts| == 0 then [] else parts[0] + Concat(parts[1..])
  }

  lemma {:induction false} ConcatAppend<T>(a: seq<seq<T>>, b: seq<seq<T>>)
    ensures Concat(a + b) == Concat(a) + Concat(b)
  {
    if |a| == 0 {
      assert a + b == b;
    } else {
      assert (a + b)[0] == a[0] && (a + b)[1..] == a[1..] + b;
      calc {
        Concat(a + b);
        a[0] + Concat(a[1..] + b);
        { ConcatAppend(a[1..], b); }
        a[0] + (Concat(a[1..]) + Concat(b));
        (a[0] + Concat(a[1..])) + Concat(b);
        Concat(a) + Concat(b);
      }
    }
  }

  lemma ConcatLast<T>(a: seq<seq<T>>, last: seq<T>)
    ensures Concat(a + [last]) == Concat(a) + last
  {
    ConcatAppend(a, [last]);
    assert Concat([last]) == last + Concat<T>([]);
  }

  lemma Assoc(a: string, b: string, c: string)
    ensures a + b + c == a + (b + c)
  {
  }

  lemma AssocParts(a: seq<string>, b: seq<string>, c: seq<string>)
    ensures a + b + c == a + (b + c)
  {
  }
}
