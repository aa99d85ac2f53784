/** One delivery attempt (internal/deliverer/send.go, classify.go): MX lookup, the fallback loop over hosts, and
    the permanent/temporary class every failure carries. The resolver's answer and each host's behaviour are
    inputs. */
module MxRouting {
  import opened RetryQueue
  import opened Text

  // ---------- error classes ----------

  /** One layer of a wrapped error. */
  datatype Layer =
    | Tag(permanent: bool)     // *deliveryError
    | Smtp(code: int)          // *gosmtp.SMTPError
    | Dns(notFound: bool)      // *net.DNSError
    | Note(text: string)       // context added by fmt.Errorf, or any other error

  /** Layers from the outermost in. */
  type Failure = seq<Layer>

  /** errors.As for each of the three kinds. */
  function AsTag(e: Failure): Option<bool> {
    if e == [] then None else if e[0].Tag? then Some(e[0].permanent) else AsTag(e[1..])
  }

  function AsSmtp(e: Failure): Option<int> {
    if e == [] then None else if e[0].Smtp? then Some(e[0].code) else AsSmtp(e[1..])
  }

  function AsDns(e: Failure): Option<bool> {
    if e == [] then None else if e[0].Dns? then Some(e[0].notFound) else AsDns(e[1..])
  }

  /** go-smtp's SMTPError.Temporary. */
  predicate TemporaryCode(code: int) {
    400 <= code < 500
  }

  predicate IsPermanent(e: Failure) {
    if AsTag(e).Some? then AsTag(e).value
    else AsSmtp(e).Some? && !TemporaryCode(AsSmtp(e).value)
  }

  /** The outermost layer of its kind. */
  ghost predicate FirstTag(e: Failure, permanent: bool) {
    exists i :: 0 <= i < |e| && e[i] == Tag(permanent) && forall j | 0 <= j < i :: !e[j].Tag?
  }

  ghost predicate FirstSmtp(e: Failure, code: int) {
    exists i :: 0 <= i < |e| && e[i] == Smtp(code) && forall j | 0 <= j < i :: !e[j].Smtp?
  }

  ghost predicate FirstDns(e: Failure, notFound: bool) {
    exists i :: 0 <= i < |e| && e[i] == Dns(notFound) && forall j | 0 <= j < i :: !e[j].Dns?
  }

  lemma {:induction false} AsTagAt(e: Failure) returns (i: nat)
    ensures AsTag(e).Some? ==> i < |e| && e[i] == Tag(AsTag(e).value) && forall j | 0 <= j < i :: !e[j].Tag?
    ensures AsTag(e).None? ==> forall j | 0 <= j < |e| :: !e[j].Tag?
  {
    i := 0;
    if e != [] && !e[0].Tag? {
      i := AsTagAt(e[1..]);
      assert forall j | 1 <= j < |e| :: e[j] == e[1..][j - 1];
      i := i + 1;
    }
  }

  lemma AsTagIsFirst(e: Failure, permanent: bool)
    ensures AsTag(e) == Some(permanent) <==> FirstTag(e, permanent)
    ensures AsTag(e).None? <==> forall i | 0 <= i < |e| :: !e[i].Tag?
  {
    var i := AsTagAt(e);
    assert forall k | 0 <= k < |e| && e[k].Tag? && (forall j | 0 <= j < k :: !e[j].Tag?) :: k == i;
  }

  lemma {:induction false} AsSmtpAt(e: Failure) returns (i: nat)
    ensures AsSmtp(e).Some? ==> i < |e| && e[i] == Smtp(AsSmtp(e).value) && forall j | 0 <= j < i :: !e[j].Smtp?
    ensures AsSmtp(e).None? ==> forall j | 0 <= j < |e| :: !e[j].Smtp?
  {
    i := 0;
    if e != [] && !e[0].Smtp? {
      i := AsSmtpAt(e[1..]);
      assert forall j | 1 <= j < |e| :: e[j] == e[1..][j - 1];
      i := i + 1;
    }
  }

  lemma AsSmtpIsFirst(e: Failure, code: int)
    ensures AsSmtp(e) == Some(code) <==> FirstSmtp(e, code)
  {
    var i := AsSmtpAt(e);
    assert forall k | 0 <= k < |e| && e[k].Smtp? && (forall j | 0 <= j < k :: !e[j].Smtp?) :: k == i;
  }

  lemma {:induction false} AsDnsAt(e: Failure) returns (i: nat)
    ensures AsDns(e).Some? ==> i < |e| && e[i] == Dns(AsDns(e).value) && forall j | 0 <= j < i :: !e[j].Dns?
    ensures AsDns(e).None? ==> forall j | 0 <= j < |e| :: !e[j].Dns?
  {
    i := 0;
    if e != [] && !e[0].Dns? {
      i := AsDnsAt(e[1..]);
      assert forall j | 1 <= j < |e| :: e[j] == e[1..][j - 1];
      i := i + 1;
    }
  }

  lemma AsDnsIsFirst(e: Failure, notFound: bool)
    ensures AsDns(e) == Some(notFound) <==> FirstDns(e, notFound)
  {
    var i := AsDnsAt(e);
    assert forall k | 0 <= k < |e| && e[k].Dns? && (forall j | 0 <= j < k :: !e[j].Dns?) :: k == i;
  }

  /** The outermost reply code, if any, is outside 400..499. */
  ghost predicate RepliedForGood(e: Failure) {
    exists code :: FirstSmtp(e, code) && !(400 <= code <= 499)
  }

  lemma RepliedForGoodIff(e: Failure)
    ensures RepliedForGood(e) <==> AsSmtp(e).Some? && !TemporaryCode(AsSmtp(e).value)
  {
    forall code
      ensures FirstSmtp(e, code) <==> AsSmtp(e) == Some(code)
    {
      AsSmtpIsFirst(e, code);
    }
    if AsSmtp(e).Some? {
      assert FirstSmtp(e, AsSmtp(e).value);
    }
  }

  /** An error is permanent exactly when its outermost tag says so, or it has no tag and its outermost SMTP reply
      is not a 4xx one. */
  lemma IsPermanentIff(e: Failure)
    ensures IsPermanent(e) <==> FirstTag(e, true) || ((forall i | 0 <= i < |e| :: !e[i].Tag?) && RepliedForGood(e))
  {
    AsTagIsFirst(e, true);
    RepliedForGoodIff(e);
  }

  function PermanentErr(e: Failure): Failure { [Tag(true)] + e }

  function TemporaryErr(e: Failure): Failure { [Tag(false)] + e }

  function Wrap(text: string, e: Failure): Failure { [Note(text)] + e }

  function ClassifySmtp(stage: string, e: Failure): Failure {
    if AsSmtp(e).Some? then
      var code := AsSmtp(e).value;
      var wrapped := Wrap(stage, [Smtp(code)]);
      if TemporaryCode(code) then TemporaryErr(wrapped) else PermanentErr(wrapped)
    else TemporaryErr(Wrap(stage, e))
  }

  /** Context added around an error, however much, leaves its class alone. */
  lemma {:induction false} ContextKeepsClass(notes: Failure, e: Failure)
    requires forall i | 0 <= i < |notes| :: notes[i].Note? || notes[i].Dns?
    ensures IsPermanent(notes + e) == IsPermanent(e)
  {
    if notes == [] {
      assert notes + e == e;
    } else {
      ContextKeepsClass(notes[1..], e);
      assert (notes + e)[1..] == notes[1..] + e;
    }
  }

  /** Tagging keeps the class of an error that came untagged from the SMTP client. On a tagged one it keeps the
      class exactly when the tag agrees with the SMTP code underneath. */
  lemma ClassifyKeepsClassIff(stage: string, e: Failure)
    ensures IsPermanent(ClassifySmtp(stage, e)) <==> RepliedForGood(e)
    ensures IsPermanent(ClassifySmtp(stage, e)) == IsPermanent(e)
       <==> (forall i | 0 <= i < |e| :: !e[i].Tag?) || (FirstTag(e, true) <==> RepliedForGood(e))
  {
    AsTagIsFirst(e, true);
    RepliedForGoodIff(e);
  }

  // ---------- one host ----------

  /** How a conversation with a host goes: accepted, no connection, an error at a stage, or an error
      while the body is written. */
  datatype Conversation =
    | Accepts
    | NoConnection(dialError: Failure)
    | Refuses(stage: string, error: Failure)
    | BodyInterrupted(writeError: Failure)

  function SendToHost(c: Conversation): (failed: Option<Failure>)
    ensures failed.None? <==> c.Accepts?
    ensures failed.Some? ==> (IsPermanent(failed.value) <==> c.Refuses? && RepliedForGood(c.error))
  {
    match c
    case Accepts => None
    case NoConnection(e) => Some(TemporaryErr(Wrap("connect", e)))
    case Refuses(stage, e) =>
      ClassifyKeepsClassIff(stage, e);
      Some(ClassifySmtp(stage, e))
    case BodyInterrupted(e) => Some(TemporaryErr(Wrap("write message body", e)))
  }

  // ---------- MX lookup ----------

  datatype Mx = Mx(host: string, pref: nat)

  datatype Answer = Records(mxs: seq<Mx>) | LookupFailed(error: Failure)

  predicate ByPreference(mxs: seq<Mx>) {
    forall i, j | 0 <= i < j < |mxs| :: mxs[i].pref <= mxs[j].pref
  }

  predicate Rearranged(a: seq<Mx>, b: seq<Mx>) {
    multiset(a) == multiset(b)
  }

  method Insert(sorted: seq<Mx>, mx: Mx) returns (r: seq<Mx>)
    requires ByPreference(sorted)
    ensures ByPreference(r) && Rearranged(r, sorted + [mx])
  {
    var i := |sorted|;
    while i > 0 && mx.pref < sorted[i - 1].pref
      invariant 0 <= i <= |sorted|
      invariant i < |sorted| ==> mx.pref <= sorted[i].pref
    {
      i := i - 1;
    }
    r := sorted[..i] + [mx] + sorted[i..];
    InsertedInOrder(sorted, mx, i, r);
    InsertedRearranges(sorted[..i], mx, sorted[i..]);
    assert sorted[..i] + sorted[i..] == sorted;
  }

  lemma InsertedInOrder(sorted: seq<Mx>, mx: Mx, i: nat, r: seq<Mx>)
    requires ByPreference(sorted) && i <= |sorted| && |r| == |sorted| + 1
    requires i > 0 ==> sorted[i - 1].pref <= mx.pref
    requires i < |sorted| ==> mx.pref <= sorted[i].pref
    requires r[i] == mx && (forall j | 0 <= j < i :: r[j] == sorted[j]) && (forall j | i < j < |r| :: r[j] == sorted[j - 1])
    ensures ByPreference(r)
  {
    forall j, k | 0 <= j < k < |r|
      ensures r[j].pref <= r[k].pref
    {
      if j == i {
        assert i == k - 1 || sorted[i].pref <= sorted[k - 1].pref;
      } else if k == i {
        assert j == i - 1 || sorted[j].pref <= sorted[i - 1].pref;
      }
    }
  }

  lemma InsertedRearranges(a: seq<Mx>, mx: Mx, b: seq<Mx>)
    ensures Rearranged(a + [mx] + b, (a + b) + [mx])
  {
  }

  method Sort(mxs: seq<Mx>) returns (sorted: seq<Mx>)
    ensures ByPreference(sorted) && Rearranged(sorted, mxs)
  {
    sorted := [];
    for i := 0 to |mxs|
      invariant ByPreference(sorted) && Rearranged(sorted, mxs[..i])
    {
      sorted := Insert(sorted, mxs[i]);
      assert mxs[..i + 1] == mxs[..i] + [mxs[i]];
    }
    assert mxs[..|mxs|] == mxs;
  }

  /** No records, or an authoritative answer that the name does not exist. */
  ghost predicate NoRoute(answer: Answer) {
    match answer
    case Records(mxs) => mxs == []
    case LookupFailed(e) => FirstDns(e, true)
  }

  method LookupMx(answer: Answer) returns (mxs: seq<Mx>, failed: Option<Failure>)
    ensures failed.None? <==> answer.Records? && answer.mxs != []
    ensures failed.None? ==> mxs != [] && ByPreference(mxs) && Rearranged(mxs, answer.mxs)
    ensures failed.Some? ==> mxs == [] && (IsPermanent(failed.value) <==> NoRoute(answer))
  {
    mxs := [];
    match answer {
      case LookupFailed(e) =>
        AsDnsIsFirst(e, true);
        if AsDns(e) == Some(true) {
          failed := Some(PermanentErr(Wrap("no MX records", e)));
        } else {
          failed := Some(TemporaryErr(Wrap("MX lookup failed", e)));
        }
      case Records(found) =>
        if found == [] {
          failed := Some(PermanentErr([Note("no MX records")]));
        } else {
          failed := None;
          mxs := Sort(found);
          assert multiset(mxs)[found[0]] > 0;
        }
    }
  }

  // ---------- the fallback loop ----------

  predicate FailsTemporarily(c: Conversation) {
    SendToHost(c).Some? && !IsPermanent(SendToHost(c).value)
  }

  /** Hosts 0..k-1 failed temporarily and host k accepted. */
  predicate AcceptedAt(hosts: nat -> Conversation, k: nat) {
    hosts(k).Accepts? && forall i: nat | i < k :: FailsTemporarily(hosts(i))
  }

  /** `hosts(i)` is how host i of the list behaves if it is tried; `tried` is how many were. An empty list
      would count as delivered, so `Attempt` depends on `LookupMx` never returning one without an error. */
  method Send(mxs: seq<Mx>, hosts: nat -> Conversation) returns (failed: Option<Failure>, tried: nat)
    ensures tried <= |mxs| && forall i: nat | i + 1 < tried :: FailsTemporarily(hosts(i))
    ensures mxs == [] <==> tried == 0
    ensures mxs == [] ==> failed.None?
    ensures tried > 0 ==> failed == SendToHost(hosts(tried - 1))
    ensures tried < |mxs| ==> !FailsTemporarily(hosts(tried - 1))
  {
    failed, tried := None, 0;
    while tried < |mxs|
      invariant tried <= |mxs| && forall i: nat | i < tried :: FailsTemporarily(hosts(i))
      invariant tried == 0 ==> failed.None?
      invariant tried > 0 ==> failed == SendToHost(hosts(tried - 1))
    {
      failed := SendToHost(hosts(tried));
      tried := tried + 1;
      if failed.None? || IsPermanent(failed.value) {
        return;
      }
    }
  }

  /** A whole attempt. `body` is the error of reading the staged body, if any. */
  method Attempt(recipient: string, answer: Answer, body: Option<Failure>, hosts: nat -> Conversation)
    returns (failed: Option<Failure>, order: seq<Mx>, tried: nat)
    ensures tried <= |order| && ByPreference(order) && (tried > 0 ==> answer.Records? && Rearranged(order, answer.mxs))
    ensures failed.None? <==> tried > 0 && AcceptedAt(hosts, tried - 1)
    ensures failed.None?
       <==> DestinationDomain(recipient) != recipient && answer.Records? && body.None?
            && exists k: nat :: k < |answer.mxs| && AcceptedAt(hosts, k)
    ensures failed.Some? && IsPermanent(failed.value)
       <==> DestinationDomain(recipient) == recipient || NoRoute(answer)
            || (tried > 0 && hosts(tried - 1).Refuses? && !FailsTemporarily(hosts(tried - 1)))
    ensures failed.Some? && !IsPermanent(failed.value) && tried > 0
            ==> tried == |answer.mxs| && forall i: nat | i < tried :: FailsTemporarily(hosts(i))
  {
    order, tried := [], 0;
    if DestinationDomain(recipient) == recipient {
      failed := Some(PermanentErr([Note("malformed recipient address")]));
      return;
    }
    order, failed := LookupMx(answer);
    if failed.Some? {
      return;
    }
    SameLength(order, answer.mxs);
    if body.Some? {
      failed := Some(TemporaryErr(Wrap("read staged body", body.value)));
      return;
    }
    failed, tried := Send(order, hosts);
    AcceptedOnce(hosts, tried - 1);
  }

  lemma SameLength(a: seq<Mx>, b: seq<Mx>)
    requires Rearranged(a, b)
    ensures |a| == |b|
  {
    assert |multiset(a)| == |multiset(b)|;
  }

  /** If the loop ended at host k, whether acceptance can be found anywhere is decided there. */
  lemma AcceptedOnce(hosts: nat -> Conversation, k: nat)
    requires forall i: nat | i < k :: FailsTemporarily(hosts(i))
    ensures hosts(k).Accepts? <==> AcceptedAt(hosts, k)
    ensures !FailsTemporarily(hosts(k)) && !hosts(k).Accepts? ==> forall j: nat :: !AcceptedAt(hosts, j)
  {
    forall j: nat | AcceptedAt(hosts, j) && !FailsTemporarily(hosts(k))
      ensures j == k
    {
      assert j < k ==> FailsTemporarily(hosts(j));
      assert k < j ==> FailsTemporarily(hosts(k));
    }
  }
}
