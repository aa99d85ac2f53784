/** What `handle` makes of an attempt's outcome, over every run of the deliverer: which decision is taken and
    announced, what is stored of it, when the job is next claimed, and how many workers serve a destination. */
module Outcomes {
  import opened RetryQueue
  import opened Text
  import opened Delivery
  import Backoff

  // ---------- decisions follow outcomes ----------

  /** Every settlement is justified, and every event made or owed is that of a settlement. */
  ghost predicate Reported(cfg: Tuned, s: System) {
    && (forall e | e in s.history :: Justified(cfg, e))
    && (forall w, e | Owes(s, w, e) :: e in s.history)
    && (forall e | e in s.announced :: e in s.history)
  }

  /** Settling records the outcome the attempt had and changes exactly the settled job: a deferral stores the
      error and the time of the next attempt and releases the claim, a final decision removes the job, and a
      lost update changes nothing. */
  lemma SettledExactly(cfg: Tuned, s: System, a: Action)
    requires a.Settle? && Enabled(cfg, s, a)
    ensures var job, outcome, t := s.workers[a.w].job, s.workers[a.w].phase.outcome, Apply(cfg, s, a);
      && |t.history| == |s.history| + 1 && t.history[..|s.history|] == s.history
      && var e := t.history[|s.history|];
         && Justified(cfg, e) && e.id == job.id && e.outcome == outcome && e.attempt == job.attempts + 1 && e.at == a.now
         && t.workers == s.workers[a.w := s.workers[a.w].(phase := Settled(e))]
         && (!a.applied ==> t.queue == s.queue)
         && (a.applied && !e.decision.Deferred? ==> t.queue.jobs == s.queue.jobs - {job.id} && t.queue.claimed == s.queue.claimed - {job.id})
         && (a.applied && e.decision.Deferred? ==>
               && t.queue.claimed == s.queue.claimed - {job.id} && t.queue.jobs.Keys == s.queue.jobs.Keys
               && (forall id | id in s.queue.jobs && id != job.id :: t.queue.jobs[id] == s.queue.jobs[id])
               && t.queue.jobs[job.id] == s.queue.jobs[job.id].(attempts := s.queue.jobs[job.id].attempts + 1, nextAttemptAt := a.now + a.delay, lastError := outcome.cause))
  {
    var t, e := SettleIs(cfg, s, a);
    assert t.history[|s.history|] == e;
  }

  lemma SettleReported(cfg: Tuned, s: System, a: Action)
    requires Reported(cfg, s) && a.Settle? && Enabled(cfg, s, a)
    ensures Reported(cfg, Apply(cfg, s, a))
  {
    var t, e := SettleIs(cfg, s, a);
    assert e in t.history && forall d | d in s.history :: d in t.history;
    assert forall w, d | Owes(t, w, d) :: if w == a.w then d == e else Owes(s, w, d);
  }

  lemma StepReported(cfg: Tuned, s: System, a: Action)
    requires Reported(cfg, s) && Enabled(cfg, s, a)
    ensures Reported(cfg, Apply(cfg, s, a))
  {
    if a.Settle? {
      SettleReported(cfg, s, a);
    } else {
      var t := Apply(cfg, s, a);
      assert a.Announce? ==> Owes(s, a.w, s.workers[a.w].phase.entry);
      assert forall w, e | Owes(t, w, e) :: Owes(s, w, e);
    }
  }

  lemma {:induction false} RunReported(cfg: Tuned, s: System, acts: seq<Action>, t: System)
    requires Reported(cfg, s) && Runs(cfg, s, acts, t)
    ensures Reported(cfg, t)
    decreases |acts|
  {
    if acts != [] {
      StepReported(cfg, s, acts[0]);
      RunReported(cfg, Apply(cfg, s, acts[0]), acts[1..], t);
    }
  }

  /** The outcomes attempts have had so far lie in `outcomes`. */
  ghost predicate Supplied(s: System, outcomes: set<Outcome>) {
    && (forall w | w in s.workers && s.workers[w].phase.Tried? :: s.workers[w].phase.outcome in outcomes)
    && (forall e | e in s.history :: e.outcome in outcomes)
  }

  lemma {:induction false} RunSupplied(cfg: Tuned, s: System, acts: seq<Action>, t: System, outcomes: set<Outcome>)
    requires Supplied(s, outcomes) && Runs(cfg, s, acts, t) && forall a | a in acts && a.Attempt? :: a.outcome in outcomes
    ensures Supplied(t, outcomes)
    decreases |acts|
  {
    if acts != [] {
      assert acts[0] in acts && forall a | a in acts[1..] :: a in acts;
      StepSupplied(cfg, s, acts[0], outcomes);
      RunSupplied(cfg, Apply(cfg, s, acts[0]), acts[1..], t, outcomes);
    }
  }

  lemma StepSupplied(cfg: Tuned, s: System, a: Action, outcomes: set<Outcome>)
    requires Supplied(s, outcomes) && Enabled(cfg, s, a) && (a.Attempt? ==> a.outcome in outcomes)
    ensures Supplied(Apply(cfg, s, a), outcomes)
  {
    if a.Settle? {
      var t, e := SettleIs(cfg, s, a);
      assert forall d | d in t.history :: d in s.history || d == e;
    }
  }

  /** In every run each settlement, and each event announced, is justified by an outcome some attempt of the run
      had. */
  lemma DecisionsFollowOutcomes(cfg: Tuned, acts: seq<Action>, t: System)
    requires Runs(cfg, Initial, acts, t)
    ensures forall e | e in t.history || e in t.announced :: Justified(cfg, e) && exists w :: Attempt(w, e.outcome) in acts
    ensures forall e | e in t.announced :: e in t.history
  {
    RunReported(cfg, Initial, acts, t);
    var outcomes := set a | a in acts && a.Attempt? :: a.outcome;
    RunSupplied(cfg, Initial, acts, t, outcomes);
    forall e | e in t.history
      ensures exists w :: Attempt(w, e.outcome) in acts
    {
      assert e.outcome in outcomes;
      var a :| a in acts && a.Attempt? && a.outcome == e.outcome;
      assert Attempt(a.w, e.outcome) in acts;
    }
  }

  // ---------- malformed recipients ----------

  ghost predicate Unroutable(recipient: string) {
    !exists local, domain :: IsAddress(recipient, local, domain)
  }

  lemma UnroutableUnchanged(recipient: string)
    requires Unroutable(recipient)
    ensures DestinationDomain(recipient) == recipient
  {
    MalformedIffUnchanged(recipient);
  }

  ghost predicate FailsForGood(o: Outcome) {
    o.Failed? && o.permanent
  }

  /** Attempts at mail to `recipient` fail for good. */
  ghost predicate Refused(s: System, recipient: string) {
    && (forall w | w in s.workers && s.workers[w].phase.Tried? && s.workers[w].job.body.recipient == recipient :: FailsForGood(s.workers[w].phase.outcome))
    && (forall e | e in s.history && e.id in s.origin && s.origin[e.id].body.recipient == recipient :: FailsForGood(e.outcome))
  }

  lemma SettleRefused(cfg: Tuned, s: System, a: Action, recipient: string)
    requires Ownership(s) && Ledgers(cfg, s) && Refused(s, recipient) && a.Settle? && Enabled(cfg, s, a)
    ensures Refused(Apply(cfg, s, a), recipient)
  {
    var t, e := SettleIs(cfg, s, a);
    SettledHistory(cfg, s, t, a.w, e, a.delay);
    assert forall d | d in t.history :: d in s.history || d == e;
  }

  lemma SameRefused(s: System, t: System, recipient: string)
    requires Refused(s, recipient) && t.history == s.history && forall e | e in s.history :: e.id in s.origin
    requires forall id | id in s.origin :: id in t.origin && t.origin[id] == s.origin[id]
    requires forall w | w in t.workers && t.workers[w].phase.Tried? ::
      (w in s.workers && t.workers[w] == s.workers[w]) || t.workers[w].job.body.recipient != recipient || FailsForGood(t.workers[w].phase.outcome)
    ensures Refused(t, recipient)
  {
  }

  lemma {:induction false} HistoryKnown(log: seq<Entry>, e: Entry)
    requires e in log
    ensures e in HistoryOf(log, e.id)
  {
    var last := |log| - 1;
    if e in log[..last] {
      HistoryKnown(log[..last], e);
    }
  }

  lemma OtherRefused(cfg: Tuned, s: System, a: Action, recipient: string)
    requires Refused(s, recipient) && !a.Settle? && Enabled(cfg, s, a)
    requires a.Attempt? && s.workers[a.w].job.body.recipient == recipient ==> FailsForGood(a.outcome)
    requires forall e | e in s.history :: e.id in s.origin
    ensures Refused(Apply(cfg, s, a), recipient)
  {
    SameRefused(s, Apply(cfg, s, a), recipient);
  }

  lemma StepRefused(cfg: Tuned, s: System, a: Action, recipient: string)
    requires Ownership(s) && Ledgers(cfg, s) && Refused(s, recipient) && DestinationDomain(recipient) == recipient && Enabled(cfg, s, a)
    ensures Refused(Apply(cfg, s, a), recipient)
  {
    if a.Settle? {
      SettleRefused(cfg, s, a, recipient);
    } else {
      AllKnown(cfg, s);
      AttemptFails(cfg, s, a, recipient);
      OtherRefused(cfg, s, a, recipient);
    }
  }

  lemma AttemptFails(cfg: Tuned, s: System, a: Action, recipient: string)
    requires DestinationDomain(recipient) == recipient && Enabled(cfg, s, a)
    ensures a.Attempt? && s.workers[a.w].job.body.recipient == recipient ==> FailsForGood(a.outcome)
  {
  }

  lemma AllKnown(cfg: Tuned, s: System)
    requires Ledgers(cfg, s)
    ensures forall e | e in s.history :: e.id in s.origin
  {
    forall e | e in s.history
      ensures e.id in s.origin
    {
      HistoryKnown(s.history, e);
    }
  }

  lemma {:induction false} RunRefused(cfg: Tuned, s: System, acts: seq<Action>, t: System, recipient: string)
    requires Inv(cfg, s) && Refused(s, recipient) && DestinationDomain(recipient) == recipient && Runs(cfg, s, acts, t)
    ensures Refused(t, recipient)
    decreases |acts|
  {
    if acts != [] {
      StepRefused(cfg, s, acts[0], recipient);
      StepInv(cfg, s, acts[0]);
      RunRefused(cfg, Apply(cfg, s, acts[0]), acts[1..], t, recipient);
    }
  }

  lemma NoneDeferred(cfg: Tuned, s: System, id: string)
    requires Reported(cfg, s) && id in s.origin && Refused(s, s.origin[id].body.recipient)
    ensures forall e | e in s.history && e.id == id :: e.decision.Bounced?
    ensures forall i | 0 <= i < |HistoryOf(s.history, id)| :: !HistoryOf(s.history, id)[i].decision.Deferred?
  {
    forall e | e in s.history && e.id == id
      ensures e.decision.Bounced?
    {
      assert Justified(cfg, e) && FailsForGood(e.outcome);
    }
    forall i | 0 <= i < |HistoryOf(s.history, id)|
      ensures !HistoryOf(s.history, id)[i].decision.Deferred?
    {
      HistoryFrom(s.history, id, i);
    }
  }

  lemma RunNoneDeferred(cfg: Tuned, acts: seq<Action>, t: System, id: string)
    requires Runs(cfg, Initial, acts, t) && id in t.origin && DestinationDomain(t.origin[id].body.recipient) == t.origin[id].body.recipient
    ensures forall e | e in t.history && e.id == id :: e.decision.Bounced?
    ensures forall i | 0 <= i < |HistoryOf(t.history, id)| :: !HistoryOf(t.history, id)[i].decision.Deferred?
  {
    InitialInv(cfg);
    RunRefused(cfg, Initial, acts, t, t.origin[id].body.recipient);
    RunReported(cfg, Initial, acts, t);
    NoneDeferred(cfg, t, id);
  }

  /** In every run mail whose recipient is no address bounces at its first attempt. */
  lemma MalformedBounces(cfg: Tuned, acts: seq<Action>, t: System, id: string)
    requires Runs(cfg, Initial, acts, t) && id in t.origin && Unroutable(t.origin[id].body.recipient)
    ensures |HistoryOf(t.history, id)| <= 1
    ensures forall e | e in t.history && e.id == id :: e.decision.Bounced?
  {
    UnroutableUnchanged(t.origin[id].body.recipient);
    RunNoneDeferred(cfg, acts, t, id);
    JobHistory(cfg, acts, t, id);
    FirstIsLast(cfg, HistoryOf(t.history, id), id, t.origin[id].attempts);
  }

  lemma FirstIsLast(cfg: Tuned, h: seq<Entry>, id: string, base: int)
    requires WellFormed(cfg, h, id, base) && forall i | 0 <= i < |h| :: !h[i].decision.Deferred?
    ensures |h| <= 1
  {
    if h != [] {
      assert !h[0].decision.Deferred?;
    }
  }

  lemma {:induction false} HistoryFrom(log: seq<Entry>, id: string, i: nat)
    requires i < |HistoryOf(log, id)|
    ensures HistoryOf(log, id)[i] in log && HistoryOf(log, id)[i].id == id
  {
    var before := HistoryOf(log[..|log| - 1], id);
    if i < |before| {
      HistoryFrom(log[..|log| - 1], id, i);
    }
  }

  // ---------- every settlement is announced ----------

  ghost function Owing(s: System): set<nat> {
    set w | w in s.workers && s.workers[w].phase.Settled?
  }

  /** Every settlement has been announced or is owed by its worker, and none twice. */
  ghost predicate Spoken(s: System) {
    && (forall e | e in s.history :: e in s.announced || exists w :: Owes(s, w, e))
    && |s.history| == |s.announced| + |Owing(s)|
  }

  lemma SettleSpoken(cfg: Tuned, s: System, a: Action)
    requires Spoken(s) && a.Settle? && Enabled(cfg, s, a)
    ensures Spoken(Apply(cfg, s, a))
  {
    var t, e := SettleIs(cfg, s, a);
    assert Owing(t) == Owing(s) + {a.w};
    assert Owes(t, a.w, e);
    forall d | d in s.history
      ensures d in t.announced || exists w :: Owes(t, w, d)
    {
      if w :| Owes(s, w, d) {
        assert Owes(t, w, d);
      }
    }
  }

  lemma AnnounceSpoken(cfg: Tuned, s: System, a: Action)
    requires Spoken(s) && a.Announce? && Enabled(cfg, s, a)
    ensures Spoken(Apply(cfg, s, a))
  {
    var t := Apply(cfg, s, a);
    assert Owing(t) == Owing(s) - {a.w};
    forall d | d in t.history
      ensures d in t.announced || exists w :: Owes(t, w, d)
    {
      if w :| Owes(s, w, d) && w != a.w {
        assert Owes(t, w, d);
      }
    }
  }

  lemma OtherSpoken(cfg: Tuned, s: System, a: Action)
    requires Spoken(s) && !a.Settle? && !a.Announce? && !a.Crash? && Enabled(cfg, s, a)
    ensures Spoken(Apply(cfg, s, a))
  {
    var t := Apply(cfg, s, a);
    assert Owing(t) == Owing(s);
    assert forall w, e | Owes(s, w, e) :: Owes(t, w, e);
  }

  lemma {:induction false} RunSpoken(cfg: Tuned, s: System, acts: seq<Action>, t: System)
    requires Spoken(s) && Runs(cfg, s, acts, t) && forall a | a in acts :: !a.Crash?
    ensures Spoken(t)
    decreases |acts|
  {
    if acts != [] {
      assert acts[0] in acts && forall a | a in acts[1..] :: a in acts;
      if acts[0].Settle? {
        SettleSpoken(cfg, s, acts[0]);
      } else if acts[0].Announce? {
        AnnounceSpoken(cfg, s, acts[0]);
      } else {
        OtherSpoken(cfg, s, acts[0]);
      }
      RunSpoken(cfg, Apply(cfg, s, acts[0]), acts[1..], t);
    }
  }

  /** In a run without crashes every settlement is announced once its worker is done: when no worker is left, there
      are as many events as settlements, each settlement among them. */
  lemma AllAnnounced(cfg: Tuned, acts: seq<Action>, t: System)
    requires Runs(cfg, Initial, acts, t) && (forall a | a in acts :: !a.Crash?)
    requires forall w | w in t.workers :: !t.workers[w].phase.Settled?
    ensures |t.announced| == |t.history| && forall e :: e in t.announced <==> e in t.history
  {
    assert Owing(Initial) == {};
    RunSpoken(cfg, Initial, acts, t);
    RunReported(cfg, Initial, acts, t);
    assert Owing(t) == {};
    assert forall w, e :: !Owes(t, w, e);
  }

  // ---------- when a job is claimed ----------

  /** In every run a job is claimed no earlier than the time its last deferral set, or the time it was enqueued
      for; and never after a final decision or a lost update. */
  lemma NotClaimedEarly(cfg: Tuned, acts: seq<Action>, s: System, a: Action)
    requires Runs(cfg, Initial, acts, s) && Enabled(cfg, s, a) && (a.Claim? || a.LoseClaim?)
    ensures a.id in s.origin
    ensures var h := HistoryOf(s.history, a.id);
      if h == [] then s.origin[a.id].nextAttemptAt <= a.now
      else var last := h[|h| - 1]; last.decision.Deferred? && last.applied && last.at + last.delay <= a.now
  {
    QueuedLedger(cfg, acts, s, a.id);
    DueHistory(cfg, s, a.id, a.now);
  }

  lemma QueuedLedger(cfg: Tuned, acts: seq<Action>, s: System, id: string)
    requires Runs(cfg, Initial, acts, s) && id in s.queue.jobs
    ensures id in s.origin && Ledger(cfg, s, id)
  {
    InitialInv(cfg);
    RunKeepsInv(cfg, Initial, acts, s);
  }

  lemma DueHistory(cfg: Tuned, s: System, id: string, now: int)
    requires id in s.origin && Ledger(cfg, s, id) && s.queue.Due(id, now)
    ensures var h := HistoryOf(s.history, id);
      if h == [] then s.origin[id].nextAttemptAt <= now
      else var last := h[|h| - 1]; last.decision.Deferred? && last.applied && last.at + last.delay <= now
  {
    var h := HistoryOf(s.history, id);
    assert !Stuck(h) && !Closed(h);
    assert Retries(h) == |h|;
  }

  // ---------- destinations ----------

  ghost predicate Routed(s: System) {
    forall w | w in s.workers :: s.workers[w].domain == DestinationDomain(s.workers[w].job.body.recipient)
  }

  lemma StepRouted(cfg: Tuned, s: System, a: Action)
    requires Routed(s) && Enabled(cfg, s, a)
    ensures Routed(Apply(cfg, s, a))
  {
  }

  lemma {:induction false} RunRouted(cfg: Tuned, s: System, acts: seq<Action>, t: System)
    requires Routed(s) && Runs(cfg, s, acts, t)
    ensures Routed(t)
    decreases |acts|
  {
    if acts != [] {
      StepRouted(cfg, s, acts[0]);
      RunRouted(cfg, Apply(cfg, s, acts[0]), acts[1..], t);
    }
  }

  ghost predicate AddressedTo(recipient: string, domain: string) {
    exists local :: IsAddress(recipient, local, domain)
  }

  /** The workers of a process past the semaphore with mail for the domain. */
  ghost function Delivering(s: System, process: nat, domain: string): set<nat> {
    set w | w in s.workers && !s.workers[w].phase.Waiting? && s.workers[w].process == process && AddressedTo(s.workers[w].job.body.recipient, domain)
  }

  /** In every run no process delivers to one domain with more workers than the limit. */
  lemma DomainLimit(cfg: Tuned, acts: seq<Action>, t: System, process: nat, domain: string)
    requires Runs(cfg, Initial, acts, t)
    ensures |Delivering(t, process, domain)| <= cfg.perDomain
  {
    InitialInv(cfg);
    RunKeepsInv(cfg, Initial, acts, t);
    RunRouted(cfg, Initial, acts, t);
    var g := Gate(process, domain);
    forall w | w in Delivering(t, process, domain)
      ensures w in Holders(t, g)
    {
      MalformedIffUnchanged(t.workers[w].job.body.recipient);
    }
    Smaller(Delivering(t, process, domain), Holders(t, g));
    assert Used(t, g) == |Holders(t, g)| <= cfg.perDomain;
  }

  lemma {:induction false} Smaller(a: set<nat>, b: set<nat>)
    requires a <= b
    ensures |a| <= |b|
    decreases |a|
  {
    if a != {} {
      var x :| x in a;
      Smaller(a - {x}, b - {x});
    }
  }
}
