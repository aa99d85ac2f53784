/** How the policies of several recipient vhosts combine into one verdict on an inbound message. Scores and
    thresholds are exact reals; a threshold that is not positive is not configured. */
module Policy {
  import opened Text

  datatype Verdict = Accept | Quarantine | Reject

  /** The policy tag of a DMARC record, section 6.3 of RFC 7489. */
  datatype Tag = None | Quarantine | Reject

  datatype Dmarc = NoRecord | Record(policy: Tag)

  datatype Signals = Signals(record: Dmarc, aligned: bool, score: real, failedOpen: bool)

  datatype Vhost = Vhost(reject: real, quarantine: real, maxBytes: int)

  function Decide(s: Signals, reject: real, quarantine: real): Verdict {
    if !s.failedOpen && reject > 0.0 && s.score >= reject then Verdict.Reject
    else if s.record.Record? && !s.aligned && s.record.policy == Tag.Reject then Verdict.Reject
    else if s.failedOpen then Verdict.Quarantine
    else if quarantine > 0.0 && s.score >= quarantine then Verdict.Quarantine
    else if s.record.Record? && !s.aligned && s.record.policy == Tag.Quarantine then Verdict.Quarantine
    else Verdict.Accept
  }

  function Severity(v: Verdict): nat {
    match v
    case Accept => 0
    case Quarantine => 1
    case Reject => 2
  }

  function VerdictFor(s: Signals, v: Vhost): Verdict {
    Decide(s, v.reject, v.quarantine)
  }

  function MinPositive(current: real, candidate: real): real {
    if candidate <= 0.0 then current
    else if current <= 0.0 || candidate < current then candidate else current
  }

  // ---------- the fold ----------

  /** A threshold is what a list of configured values amounts to: unset if none is positive, else the least
      positive one. */
  ghost predicate LeastPositive(values: seq<real>, threshold: real) {
    if forall i | 0 <= i < |values| :: values[i] <= 0.0 then threshold == 0.0
    else threshold in values && threshold > 0.0 && forall i | 0 <= i < |values| && values[i] > 0.0 :: threshold <= values[i]
  }

  lemma FoldStep(values: seq<real>, threshold: real, candidate: real)
    requires LeastPositive(values, threshold)
    ensures LeastPositive(values + [candidate], MinPositive(threshold, candidate))
  {
    var more := values + [candidate];
    assert more[|values|] == candidate;
    assert forall i | 0 <= i < |values| :: more[i] == values[i];
    assert threshold in values ==> threshold in more;
  }

  function Rejects(vhosts: seq<Vhost>): seq<real> {
    seq(|vhosts|, i requires 0 <= i < |vhosts| => vhosts[i].reject)
  }

  function Quarantines(vhosts: seq<Vhost>): seq<real> {
    seq(|vhosts|, i requires 0 <= i < |vhosts| => vhosts[i].quarantine)
  }

  method EffectiveThresholds(vhosts: seq<Vhost>) returns (reject: real, quarantine: real)
    ensures LeastPositive(Rejects(vhosts), reject) && LeastPositive(Quarantines(vhosts), quarantine)
  {
    reject, quarantine := 0.0, 0.0;
    for i := 0 to |vhosts|
      invariant LeastPositive(Rejects(vhosts[..i]), reject) && LeastPositive(Quarantines(vhosts[..i]), quarantine)
    {
      FoldStep(Rejects(vhosts[..i]), reject, vhosts[i].reject);
      FoldStep(Quarantines(vhosts[..i]), quarantine, vhosts[i].quarantine);
      assert Rejects(vhosts[..i + 1]) == Rejects(vhosts[..i]) + [vhosts[i].reject];
      assert Quarantines(vhosts[..i + 1]) == Quarantines(vhosts[..i]) + [vhosts[i].quarantine];
      reject, quarantine := MinPositive(reject, vhosts[i].reject), MinPositive(quarantine, vhosts[i].quarantine);
    }
    assert vhosts[..|vhosts|] == vhosts;
  }

  const DEFAULT_MAX_BYTES := 25 * 1024 * 1024

  /** The body is within the server's limit and every recipient vhost's configured one. */
  predicate Fits(configured: int, vhosts: seq<Vhost>, size: nat) {
    && size <= (if configured <= 0 then 26_214_400 else configured)
    && forall i | 0 <= i < |vhosts| :: vhosts[i].maxBytes <= 0 || size <= vhosts[i].maxBytes
  }

  /** The one limit stands for all of them. */
  method EffectiveMaxBytes(configured: int, vhosts: seq<Vhost>) returns (limit: int)
    ensures limit > 0 && forall size: nat :: Fits(configured, vhosts, size) <==> size <= limit
  {
    var server := if configured <= 0 then DEFAULT_MAX_BYTES else configured;
    limit := server;
    for i := 0 to |vhosts|
      invariant 0 < limit <= server
      invariant limit == server || exists j | 0 <= j < i :: limit == vhosts[j].maxBytes
      invariant forall j | 0 <= j < i :: vhosts[j].maxBytes <= 0 || limit <= vhosts[j].maxBytes
    {
      if vhosts[i].maxBytes > 0 && vhosts[i].maxBytes < limit {
        limit := vhosts[i].maxBytes;
      }
    }
  }

  // ---------- the verdict is the strictest ----------

  ghost predicate Strictest(verdicts: seq<Verdict>, v: Verdict) {
    v in verdicts && forall w | w in verdicts :: Severity(w) <= Severity(v)
  }

  function VerdictsFor(s: Signals, vhosts: seq<Vhost>): seq<Verdict> {
    seq(|vhosts|, i requires 0 <= i < |vhosts| => VerdictFor(s, vhosts[i]))
  }

  lemma ThresholdMet(values: seq<real>, threshold: real, score: real)
    requires LeastPositive(values, threshold)
    ensures threshold > 0.0 && score >= threshold <==> exists i :: 0 <= i < |values| && values[i] > 0.0 && score >= values[i]
  {
    if threshold > 0.0 && score >= threshold {
      var i :| 0 <= i < |values| && values[i] == threshold;
    }
  }

  /** The verdict from the folded thresholds is the strictest of the verdicts each recipient's vhost would
      give alone. */
  lemma FoldedVerdictIsStrictest(s: Signals, vhosts: seq<Vhost>, reject: real, quarantine: real)
    requires vhosts != [] && LeastPositive(Rejects(vhosts), reject) && LeastPositive(Quarantines(vhosts), quarantine)
    ensures Strictest(VerdictsFor(s, vhosts), Decide(s, reject, quarantine))
  {
    ThresholdMet(Rejects(vhosts), reject, s.score);
    ThresholdMet(Quarantines(vhosts), quarantine, s.score);
    var verdict, verdicts := Decide(s, reject, quarantine), VerdictsFor(s, vhosts);
    assert verdicts[0] == VerdictFor(s, vhosts[0]);
    if reject > 0.0 && s.score >= reject {
      var i :| 0 <= i < |vhosts| && Rejects(vhosts)[i] > 0.0 && s.score >= Rejects(vhosts)[i];
      assert verdicts[i] == VerdictFor(s, vhosts[i]) && verdicts[i] == verdict;
    } else if quarantine > 0.0 && s.score >= quarantine {
      var i :| 0 <= i < |vhosts| && Quarantines(vhosts)[i] > 0.0 && s.score >= Quarantines(vhosts)[i];
      assert Rejects(vhosts)[i] == vhosts[i].reject;
      assert verdicts[i] == VerdictFor(s, vhosts[i]) && verdicts[i] == verdict;
    } else {
      assert Rejects(vhosts)[0] == vhosts[0].reject && Quarantines(vhosts)[0] == vhosts[0].quarantine;
      assert verdicts[0] == verdict;
    }
    forall w | w in verdicts
      ensures Severity(w) <= Severity(verdict)
    {
      var i :| 0 <= i < |verdicts| && verdicts[i] == w;
      assert Rejects(vhosts)[i] == vhosts[i].reject && Quarantines(vhosts)[i] == vhosts[i].quarantine;
    }
  }

  /** The score is at or above some vhost's configured reject threshold. */
  ghost predicate MeetsReject(vhosts: seq<Vhost>, score: real) {
    exists i :: 0 <= i < |vhosts| && vhosts[i].reject > 0.0 && score >= vhosts[i].reject
  }

  ghost predicate MeetsQuarantine(vhosts: seq<Vhost>, score: real) {
    exists i :: 0 <= i < |vhosts| && vhosts[i].quarantine > 0.0 && score >= vhosts[i].quarantine
  }

  /** The verdict in terms of the message and the recipients' own settings. */
  lemma VerdictIff(s: Signals, vhosts: seq<Vhost>, reject: real, quarantine: real)
    requires LeastPositive(Rejects(vhosts), reject) && LeastPositive(Quarantines(vhosts), quarantine)
    ensures Decide(s, reject, quarantine).Reject? <==>
      (!s.failedOpen && MeetsReject(vhosts, s.score)) || (s.record == Record(Tag.Reject) && !s.aligned)
    ensures Decide(s, reject, quarantine).Accept? <==>
      && !s.failedOpen && !MeetsReject(vhosts, s.score) && !MeetsQuarantine(vhosts, s.score)
      && (s.record.NoRecord? || s.aligned || s.record == Record(Tag.None))
  {
    ThresholdMet(Rejects(vhosts), reject, s.score);
    ThresholdMet(Quarantines(vhosts), quarantine, s.score);
    assert forall i | 0 <= i < |vhosts| :: Rejects(vhosts)[i] == vhosts[i].reject && Quarantines(vhosts)[i] == vhosts[i].quarantine;
  }

  /** Only which vhosts the recipients belong to matters, not their order or how often they occur. */
  lemma OrderIrrelevant(vhosts: seq<Vhost>, others: seq<Vhost>, reject: real, quarantine: real, reject': real, quarantine': real)
    requires forall v :: v in vhosts <==> v in others
    requires LeastPositive(Rejects(vhosts), reject) && LeastPositive(Quarantines(vhosts), quarantine)
    requires LeastPositive(Rejects(others), reject') && LeastPositive(Quarantines(others), quarantine')
    ensures reject == reject' && quarantine == quarantine'
  {
    SameValues(vhosts, others);
    SameValues(others, vhosts);
    SameThreshold(Rejects(vhosts), Rejects(others), reject, reject');
    SameThreshold(Quarantines(vhosts), Quarantines(others), quarantine, quarantine');
  }

  lemma SameValues(vhosts: seq<Vhost>, others: seq<Vhost>)
    requires forall v | v in vhosts :: v in others
    ensures forall t | t in Rejects(vhosts) :: t in Rejects(others)
    ensures forall t | t in Quarantines(vhosts) :: t in Quarantines(others)
  {
    forall i | 0 <= i < |vhosts|
      ensures vhosts[i].reject in Rejects(others) && vhosts[i].quarantine in Quarantines(others)
    {
      assert vhosts[i] in others;
      var j :| 0 <= j < |others| && others[j] == vhosts[i];
      assert Rejects(others)[j] == vhosts[i].reject && Quarantines(others)[j] == vhosts[i].quarantine;
    }
  }

  lemma SameThreshold(values: seq<real>, others: seq<real>, t: real, t': real)
    requires (forall x :: x in values <==> x in others) && LeastPositive(values, t) && LeastPositive(others, t')
    ensures t == t'
  {
    assert forall i | 0 <= i < |values| :: values[i] in others;
    assert forall i | 0 <= i < |others| :: others[i] in values;
  }

  /** With the scorer up, a higher score never softens the verdict; with it down, the score is ignored and the
      verdict is never Accept. */
  lemma MonotoneInScore(s: Signals, higher: real, reject: real, quarantine: real)
    requires higher >= s.score
    ensures !s.failedOpen ==> Severity(Decide(s, reject, quarantine)) <= Severity(Decide(s.(score := higher), reject, quarantine))
    ensures s.failedOpen ==> Decide(s, reject, quarantine) == Decide(s.(score := higher), reject, quarantine) != Verdict.Accept
  {
  }

  // ---------- one inbound transaction ----------

  datatype Reply = TooLarge | Judged(verdict: Verdict)

  /** A hosted domain's entry in the directory. */
  datatype Hosted = Hosted(active: bool, vhost: Vhost)

  predicate Accepts(directory: map<string, Hosted>, domain: string) {
    domain in directory && directory[domain].active
  }

  class InboundSession {
    var rcpts: seq<string>
    var vhosts: seq<Vhost>

    constructor ()
      ensures rcpts == [] && vhosts == []
    {
      rcpts, vhosts := [], [];
    }

    method Reset()
      modifies this
      ensures rcpts == [] && vhosts == []
    {
      rcpts, vhosts := [], [];
    }

    /** RCPT TO: 250 exactly for an address of a hosted active domain, whose vhost then joins the transaction;
        501 exactly for a text that is no address; 550 otherwise. */
    method Rcpt(to: string, directory: map<string, Hosted>) returns (code: int)
      requires |rcpts| == |vhosts|
      modifies this
      ensures |rcpts| == |vhosts| && code in {250, 501, 550}
      ensures code == 501 <==> !exists local, domain :: IsAddress(to, local, domain)
      ensures code == 250 <==> exists local, domain :: IsAddress(to, local, domain) && Accepts(directory, domain)
      ensures forall local, domain | IsAddress(to, local, domain) && Accepts(directory, domain) ::
                rcpts == old(rcpts) + [to] && vhosts == old(vhosts) + [directory[domain].vhost]
      ensures code != 250 ==> rcpts == old(rcpts) && vhosts == old(vhosts)
    {
      var address := ParseAddress(to);
      forall local, domain
        ensures address == Address(local, domain) <==> IsAddress(to, local, domain)
      {
        ParseAddressIff(to, local, domain);
      }
      match address {
        case Malformed => code := 501;
        case Address(local, domain) =>
          assert IsAddress(to, local, domain);
          if domain !in directory || !directory[domain].active {
            code := 550;
          } else {
            rcpts, vhosts := rcpts + [to], vhosts + [directory[domain].vhost];
            code := 250;
          }
      }
    }

    /** One reply for the whole transaction, in which no recipient's stricter policy is waived: it is rejected
        when the score meets some recipient's reject threshold or the sender's domain asks for it, and accepted
        only when nothing speaks against it. */
    method Data(configured: int, size: nat, s: Signals) returns (reply: Reply)
      ensures reply.TooLarge? <==> !Fits(configured, vhosts, size)
      ensures reply.Judged? && vhosts != [] ==> Strictest(VerdictsFor(s, vhosts), reply.verdict)
      ensures reply.Judged? ==>
        (reply.verdict.Reject? <==>
           || (!s.failedOpen && MeetsReject(vhosts, s.score))
           || (s.record == Record(Tag.Reject) && !s.aligned))
      ensures reply.Judged? ==>
        (reply.verdict.Accept? <==>
           && !s.failedOpen && !MeetsReject(vhosts, s.score) && !MeetsQuarantine(vhosts, s.score)
           && (s.record.NoRecord? || s.aligned || s.record == Record(Tag.None)))
    {
      var limit := EffectiveMaxBytes(configured, vhosts);
      if size > limit {
        return TooLarge;
      }
      var reject, quarantine := EffectiveThresholds(vhosts);
      VerdictIff(s, vhosts, reject, quarantine);
      if vhosts != [] {
        FoldedVerdictIsStrictest(s, vhosts, reject, quarantine);
      }
      return Judged(Decide(s, reject, quarantine));
    }
  }
}
