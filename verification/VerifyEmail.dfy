/** The email recogniser of VarifyServer/VerifyCodePolicy.cpp, and the grammar it decides. */
module VerifyEmail {
  import Text

  /** The last position of `c`, as rfind gives it; the length stands for npos. */
  function FindLast(s: string, c: char): (r: nat)
    ensures r <= |s| && (r < |s| ==> s[r] == c && c !in s[r + 1..]) && (r == |s| ==> c !in s)
  {
    if s == [] then 0
    else
      var later := FindLast(s[1..], c);
      if later < |s| - 1 then later + 1
      else if s[0] == c then 0
      else |s|
  }

  predicate IsLocalChar(c: char) {
    Text.IsAlnum(c) || c == '.' || c == '_' || c == '%' || c == '+' || c == '-'
  }

  predicate IsDomainChar(c: char) {
    Text.IsAlnum(c) || c == '.' || c == '-'
  }

  /** The texts by their characters. */
  lemma TextsAre(s: string)
    ensures AllLetters(s) <==> forall i :: 0 <= i < |s| ==> 'a' <= s[i] <= 'z' || 'A' <= s[i] <= 'Z'
    ensures AllDomain(s) <==>
              forall i :: 0 <= i < |s| ==>
                'a' <= s[i] <= 'z' || 'A' <= s[i] <= 'Z' || '0' <= s[i] <= '9' || s[i] == '.' || s[i] == '-'
    ensures AllLocal(s) <==>
              forall i :: 0 <= i < |s| ==>
                || 'a' <= s[i] <= 'z' || 'A' <= s[i] <= 'Z' || '0' <= s[i] <= '9' || s[i] == '.' || s[i] == '-'
                || s[i] == '_' || s[i] == '%' || s[i] == '+'
  {
  }

  predicate AllLetters(s: string) {
    forall i :: 0 <= i < |s| ==> Text.IsLetter(s[i])
  }

  predicate AllLocal(s: string) {
    forall i :: 0 <= i < |s| ==> IsLocalChar(s[i])
  }

  predicate AllDomain(s: string) {
    forall i :: 0 <= i < |s| ==> IsDomainChar(s[i])
  }

  predicate IsValidDomain(domain: string) {
    var dot := FindLast(domain, '.');
    if dot == |domain| || dot == 0 then false
    else
      var suffix := domain[dot + 1..];
      if |suffix| < 2 || |suffix| > 63 then false
      else if !AllDomain(domain[..dot]) then false
      else AllLetters(suffix)
  }

  predicate IsValidVerifyEmail(email: string) {
    var at := Text.Find(email, '@');
    if at == |email| || at == 0 || Text.Find(email[at + 1..], '@') != |email| - at - 1 then false
    else if !AllLocal(email[..at]) then false
    else IsValidDomain(email[at + 1..])
  }

  /** One or more local characters, '@', one or more domain characters, '.', and 2 to 63 letters. */
  predicate IsAddress(email: string, local: string, host: string, top: string) {
    && email == local + ['@'] + (host + ['.'] + top)
    && local != "" && AllLocal(local)
    && host != "" && AllDomain(host)
    && 2 <= |top| <= 63 && AllLetters(top)
  }

  lemma {:induction false} FindLastUnique(s: string, c: char, k: nat)
    requires k < |s| && s[k] == c && c !in s[k + 1..]
    ensures FindLast(s, c) == k
  {
    if k > 0 {
      FindLastUnique(s[1..], c, k - 1);
    } else {
      assert s[1..] == s[k + 1..];
    }
  }

  lemma LastDotIsFound(host: string, top: string)
    requires AllLetters(top)
    ensures FindLast(host + ['.'] + top, '.') == |host|
  {
    var domain := host + ['.'] + top;
    assert domain[|host| + 1..] == top;
    assert '.' !in top;
    FindLastUnique(domain, '.', |host|);
  }

  /** The scan for the last dot is complete: the letters behind the grammar's dot contain no other. */
  lemma DomainIsAccepted(host: string, top: string)
    requires host != "" && AllDomain(host) && 2 <= |top| <= 63 && AllLetters(top)
    ensures IsValidDomain(host + ['.'] + top)
  {
    var domain := host + ['.'] + top;
    LastDotIsFound(host, top);
    assert domain[..|host|] == host && domain[|host| + 1..] == top;
  }

  lemma DomainHasNoAt(host: string, top: string)
    requires AllDomain(host) && AllLetters(top)
    ensures '@' !in host + ['.'] + top
  {
    assert '@' !in host && '@' !in top;
  }

  lemma DomainHasParts(domain: string)
    requires IsValidDomain(domain)
    ensures var dot := FindLast(domain, '.');
            && dot < |domain| && domain == domain[..dot] + ['.'] + domain[dot + 1..]
            && domain[..dot] != "" && AllDomain(domain[..dot])
            && 2 <= |domain[dot + 1..]| <= 63 && AllLetters(domain[dot + 1..])
  {
    Text.CutAt(domain, FindLast(domain, '.'));
  }

  lemma AddressIsAccepted(email: string, local: string, host: string, top: string)
    requires IsAddress(email, local, host, top)
    ensures IsValidVerifyEmail(email)
  {
    var domain := host + ['.'] + top;
    DomainIsAccepted(host, top);
    DomainHasNoAt(host, top);
    assert email[..|local|] == local && email[|local| + 1..] == domain;
    Text.FindUnique(email, '@', |local|);
    Text.FindUnique(domain, '@', |domain|);
  }

  /** The parts at which the recogniser looks make up an accepted email. */
  lemma AcceptedIsAddress(email: string) returns (local: string, host: string, top: string)
    requires IsValidVerifyEmail(email)
    ensures IsAddress(email, local, host, top)
  {
    var at := Text.Find(email, '@');
    var domain := email[at + 1..];
    var dot := FindLast(domain, '.');
    Text.CutAt(email, at);
    DomainHasParts(domain);
    local, host, top := email[..at], domain[..dot], domain[dot + 1..];
  }

  /** The recogniser accepts exactly the strings of the grammar. */
  lemma AcceptsExactlyAddresses(email: string)
    ensures IsValidVerifyEmail(email) <==> exists local, host, top :: IsAddress(email, local, host, top)
  {
    if IsValidVerifyEmail(email) {
      var local, host, top := AcceptedIsAddress(email);
    } else if local, host, top :| IsAddress(email, local, host, top) {
      AddressIsAccepted(email, local, host, top);
      assert false;
    }
  }

  /** Every such string has only one way to split. */
  lemma AddressPartsAreUnique(email: string, local: string, host: string, top: string)
    requires IsAddress(email, local, host, top)
    ensures local == email[..Text.Find(email, '@')]
    ensures host + ['.'] + top == email[|local| + 1..] && |host| == FindLast(email[|local| + 1..], '.')
  {
    var domain := host + ['.'] + top;
    LastDotIsFound(host, top);
    assert email[..|local|] == local && email[|local| + 1..] == domain;
    Text.FindUnique(email, '@', |local|);
  }
}
