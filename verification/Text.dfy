/** The string operations of Go's standard library that the modelled code leans on. */
module Text {

  /** `sep` occurs in `s` at position `i`. */
  predicate At(s: string, sep: string, i: int) {
    0 <= i && i + |sep| <= |s| && s[i..i + |sep|] == sep
  }

  predicate Contains(s: string, sep: string)
    requires sep != ""
  {
    Find(s, sep) >= 0
  }

  /** The first position at which `sep` occurs, or -1. */
  function Find(s: string, sep: string): (i: int)
    requires sep != ""
    ensures i == -1 || 0 <= i <= |s| - |sep|
  {
    if |s| < |sep| then -1
    else if s[..|sep|] == sep then 0
    else
      var rest := Find(s[1..], sep);
      if rest < 0 then -1 else rest + 1
  }

  lemma Shift(s: string, sep: string, j: int)
    requires s != "" && j >= 1
    ensures At(s, sep, j) <==> At(s[1..], sep, j - 1)
  {
    if j + |sep| <= |s| {
      assert s[1..][j - 1..j - 1 + |sep|] == s[j..j + |sep|];
    }
  }

  lemma {:induction false} FindIsFirst(s: string, sep: string)
    requires sep != ""
    ensures Find(s, sep) >= 0 ==> At(s, sep, Find(s, sep))
    ensures forall j | 0 <= j && (Find(s, sep) < 0 || j < Find(s, sep)) :: !At(s, sep, j)
  {
    FoundThere(s, sep);
    forall j | 0 <= j && (Find(s, sep) < 0 || j < Find(s, sep))
      ensures !At(s, sep, j)
    {
      FoundFirst(s, sep, j);
    }
  }

  lemma {:induction false} FoundThere(s: string, sep: string)
    requires sep != ""
    ensures Find(s, sep) >= 0 ==> At(s, sep, Find(s, sep))
  {
    if |s| >= |sep| && s[..|sep|] != sep {
      FoundThere(s[1..], sep);
      if Find(s[1..], sep) >= 0 {
        Shift(s, sep, Find(s, sep));
      }
    }
  }

  lemma {:induction false} FoundFirst(s: string, sep: string, j: nat)
    requires sep != "" && (Find(s, sep) < 0 || j < Find(s, sep))
    ensures !At(s, sep, j)
  {
    if |s| >= |sep| && j > 0 {
      Shift(s, sep, j);
      FoundFirst(s[1..], sep, j - 1);
    }
  }

  /** A separator that first occurs at `i` is found there. */
  lemma FindIs(s: string, sep: string, i: int)
    requires sep != "" && At(s, sep, i)
    requires forall j | 0 <= j < i :: !At(s, sep, j)
    ensures Find(s, sep) == i
  {
    FindIsFirst(s, sep);
  }

  /** A one-character separator is found after a text that does not contain it. */
  lemma FindAfter(head: string, sep: string, tail: string)
    requires |sep| == 1 && !Contains(head, sep)
    ensures Find(head + sep + tail, sep) == |head|
  {
    var s := head + sep + tail;
    assert s[|head|..|head| + 1] == sep;
    forall j | 0 <= j < |head|
      ensures !At(s, sep, j)
    {
      assert s[j..j + 1] == head[j..j + 1];
      FoundFirst(head, sep, j);
    }
    FindIs(s, sep, |head|);
  }

  /** What precedes the first occurrence of a one-character separator does not contain it. */
  lemma HeadClean(s: string, sep: string, i: nat)
    requires |sep| == 1 && i == Find(s, sep)
    ensures !Contains(s[..i], sep)
  {
    var head := s[..i];
    if Contains(head, sep) {
      var j := Find(head, sep);
      FoundThere(head, sep);
      assert head[j..j + 1] == s[j..j + 1];
      FoundFirst(s, sep, j);
    }
  }

  lemma Rejoin(s: string, sep: string, i: int)
    requires |sep| == 1 && At(s, sep, i)
    ensures s == s[..i] + sep + s[i + 1..]
  {
    assert s[i] == s[i..i + 1][0];
  }

  // ---------- addresses ----------

  datatype Address = Malformed | Address(local: string, domain: string)

  /** directory.ParseAddress. */
  function ParseAddress(text: string): Address {
    var at := Find(text, "@");
    if at <= 0 || at + 1 == |text| then Malformed else Address(text[..at], text[at + 1..])
  }

  /** `text` is local@domain, cut at its first `@`. */
  predicate IsAddress(text: string, local: string, domain: string) {
    local != "" && domain != "" && !Contains(local, "@") && text == local + "@" + domain
  }

  /** Parsing finds the one way to read a text as an address, or says rightly that there is none. */
  lemma ParseAddressIff(text: string, local: string, domain: string)
    ensures ParseAddress(text) == Address(local, domain) <==> IsAddress(text, local, domain)
  {
    var at := Find(text, "@");
    if IsAddress(text, local, domain) {
      FindAfter(local, "@", domain);
      assert text[..|local|] == local && text[|local| + 1..] == domain;
    } else if ParseAddress(text).Address? {
      FoundThere(text, "@");
      HeadClean(text, "@", at);
      Rejoin(text, "@", at);
    }
  }

  /** deliverer.destinationDomain: the whole text when it is not an address. */
  function DestinationDomain(recipient: string): string {
    var address := ParseAddress(recipient);
    if address.Malformed? then recipient else address.domain
  }

  /** `attempt` tells malformed recipients by comparing the domain with the recipient: sound both ways. */
  lemma MalformedIffUnchanged(recipient: string)
    ensures DestinationDomain(recipient) == recipient <==> !exists local, domain :: IsAddress(recipient, local, domain)
    ensures forall local, domain | IsAddress(recipient, local, domain) :: DestinationDomain(recipient) == domain
  {
    var address := ParseAddress(recipient);
    if address.Address? {
      ParseAddressIff(recipient, address.local, address.domain);
      assert |address.domain| < |recipient|;
    }
    forall local, domain | IsAddress(recipient, local, domain)
      ensures address == Address(local, domain)
    {
      ParseAddressIff(recipient, local, domain);
    }
  }
}
