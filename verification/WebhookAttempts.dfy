/** How many attempts a webhook event gets, over all runs of the dispatcher and any number of redrives. */
module WebhookAttempts {
  import opened RetryQueue
  import opened Webhook
  import Tally

  /** A limit below one still makes the first attempt. */
  function Limit(max: int): nat {
    if max < 1 then 1 else max
  }

  /** The attempts made for one job, oldest first. */
  function HistoryOf(log: seq<Made>, id: string): seq<Made> {
    if log == [] then []
    else
      var m := log[|log| - 1];
      HistoryOf(log[..|log| - 1], id) + if m.job == id then [m] else []
  }

  lemma HistoryAppend(log: seq<Made>, m: Made, id: string)
    ensures HistoryOf(log + [m], id) == if m.job == id then HistoryOf(log, id) + [m] else HistoryOf(log, id)
  {
    assert (log + [m])[..|log|] == log;
  }

  /** Numbered 1, 2, ... without gaps, and only the last may be a success or reach the limit. */
  ghost predicate WellFormed(max: int, h: seq<Made>, id: string) {
    && (forall j | 0 <= j < |h| :: h[j].job == id && h[j].attempt.number == j + 1)
    && (forall j | 0 <= j < |h| - 1 :: !h[j].attempt.success && h[j].attempt.number < max)
  }

  /** Another attempt may follow. */
  ghost predicate Open(max: int, h: seq<Made>, attempts: int) {
    |h| == attempts && (h != [] ==> !h[|h| - 1].attempt.success && |h| < max)
  }

  ghost predicate On(s: System, w: nat, id: string) {
    w in s.workers && s.workers[w].job.id == id
  }

  ghost predicate Exclusive(s: System) {
    && s.queue.Valid()
    && (forall id | id in s.queue.jobs :: id in s.created)
    && (forall w, id | On(s, w, id) :: id in s.queue.claimed && id in s.queue.jobs && s.queue.jobs[id] == s.workers[w].job)
    && (forall v, w, id | On(s, v, id) && On(s, w, id) :: v == w)
  }

  ghost predicate WorkerFits(max: int, worker: Worker, h: seq<Made>) {
    if worker.phase.Logged?
    then h != [] && Open(max, h[..|h| - 1], worker.job.attempts) && h[|h| - 1].attempt.success == worker.phase.success
    else Open(max, h, worker.job.attempts)
  }

  /** What the attempts made for job `id` say about its stored state and its worker. */
  ghost predicate Ledger(max: int, s: System, id: string) {
    var h := HistoryOf(s.made, id);
    && WellFormed(max, h, id)
    && (id !in s.created ==> h == [])
    && (id in s.queue.jobs && id !in s.queue.claimed ==> Open(max, h, s.queue.jobs[id].attempts))
    && (forall w | On(s, w, id) :: WorkerFits(max, s.workers[w], h))
  }

  ghost predicate Sound(max: int, s: System) {
    Exclusive(s) && forall id :: Ledger(max, s, id)
  }

  /** Steps on subscriptions and fan-outs leave the delivery state alone. */
  ghost predicate SameWork(s: System, t: System) {
    t.queue == s.queue && t.workers == s.workers && t.made == s.made && t.created == s.created
  }

  lemma SameWorkSound(max: int, s: System, t: System)
    requires Sound(max, s) && SameWork(s, t)
    ensures Sound(max, t)
  {
    assert forall w, id | On(t, w, id) :: On(s, w, id);
    forall id
      ensures Ledger(max, t, id)
    {
      assert Ledger(max, s, id);
    }
  }

  lemma PutSound(max: int, s: System, t: System, job: Job<Delivery>)
    requires Sound(max, s) && job.id !in s.created && job.attempts == 0
    requires t.queue == s.queue.Put(job) && t.workers == s.workers && t.made == s.made
    requires t.created == s.created[job.id := job.body]
    ensures Sound(max, t)
  {
    assert job.id !in s.queue.jobs;
    assert forall w, id | On(t, w, id) :: On(s, w, id);
    forall id
      ensures Ledger(max, t, id)
    {
      assert Ledger(max, s, id);
    }
  }

  lemma ClaimSound(max: int, s: System, a: Action)
    requires Sound(max, s) && Enabled(s, a) && (a.Claim? || a.LoseClaim?)
    ensures Sound(max, Apply(max, s, a))
  {
    var t := Apply(max, s, a);
    assert forall v, k | On(t, v, k) && !(a.Claim? && v == a.w) :: On(s, v, k);
    forall id
      ensures Ledger(max, t, id)
    {
      assert Ledger(max, s, id);
    }
  }

  lemma SendSound(max: int, s: System, a: Action)
    requires Sound(max, s) && Enabled(s, a) && (a.Send? || a.Crash?)
    ensures Sound(max, Apply(max, s, a))
  {
    var t := Apply(max, s, a);
    assert t.queue == s.queue && t.made == s.made && t.created == s.created;
    assert forall w | w in t.workers :: w in s.workers && t.workers[w].job == s.workers[w].job;
    assert forall v, k | On(t, v, k) :: On(s, v, k);
    forall id
      ensures Ledger(max, t, id)
    {
      assert Ledger(max, s, id);
    }
  }

  lemma WellFormedAppend(max: int, h: seq<Made>, m: Made, id: string)
    requires WellFormed(max, h, id) && m.job == id && Open(max, h, m.attempt.number - 1)
    ensures WellFormed(max, h + [m], id) && (h + [m])[..|h|] == h
  {
  }

  lemma RecordFits(max: int, job: Job<Delivery>, h: seq<Made>, m: Made)
    requires WellFormed(max, h, job.id) && Open(max, h, job.attempts) && m.job == job.id && m.attempt.number == job.attempts + 1
    ensures WellFormed(max, h + [m], job.id) && WorkerFits(max, Worker(job, Logged(m.attempt.success)), h + [m])
  {
    WellFormedAppend(max, h, m, job.id);
  }

  lemma OwnLedger(max: int, t: System, id: string, w: nat, h: seq<Made>)
    requires HistoryOf(t.made, id) == h && WellFormed(max, h, id) && id in t.created && id in t.queue.claimed
    requires w in t.workers && WorkerFits(max, t.workers[w], h) && forall v | On(t, v, id) :: v == w
    ensures Ledger(max, t, id)
  {
  }

  /** The step from `s` to `t` adds record `m` for worker `w`. */
  ghost predicate Records(s: System, t: System, w: nat, m: Made) {
    && w in s.workers && s.workers[w].phase.Sent?
    && m.job == s.workers[w].job.id && m.attempt.number == s.workers[w].job.attempts + 1
    && t.made == s.made + [m] && t.queue == s.queue && t.created == s.created
    && t.workers == s.workers[w := Worker(s.workers[w].job, Logged(m.attempt.success))]
  }

  lemma RecordIs(max: int, s: System, a: Action) returns (t: System, m: Made)
    requires Enabled(s, a) && a.Record?
    ensures t == Apply(max, s, a) && Records(s, t, a.w, m)
  {
    t := Apply(max, s, a);
    m := t.made[|s.made|];
  }

  /** Recording extends the history of the worker's job by the next number... */
  lemma RecordOwn(max: int, s: System, t: System, w: nat, m: Made)
    requires Records(s, t, w, m) && Exclusive(s) && Ledger(max, s, m.job)
    ensures Ledger(max, t, m.job)
  {
    assert On(s, w, m.job);
    RecordFits(max, s.workers[w].job, HistoryOf(s.made, m.job), m);
    HistoryAppend(s.made, m, m.job);
    assert forall v | On(t, v, m.job) :: On(s, v, m.job);
    OwnLedger(max, t, m.job, w, HistoryOf(s.made, m.job) + [m]);
  }

  /** ... and no other. */
  lemma RecordOther(max: int, s: System, t: System, w: nat, m: Made, id: string)
    requires Records(s, t, w, m) && Ledger(max, s, id) && id != m.job
    ensures Ledger(max, t, id)
  {
    HistoryAppend(s.made, m, id);
    assert forall v | On(t, v, id) :: On(s, v, id) && t.workers[v] == s.workers[v];
    SameLedger(max, s, t, id);
  }

  lemma SameLedger(max: int, s: System, t: System, id: string)
    requires Ledger(max, s, id) && t.queue == s.queue && t.created == s.created
    requires HistoryOf(t.made, id) == HistoryOf(s.made, id)
    requires forall v | On(t, v, id) :: On(s, v, id) && t.workers[v] == s.workers[v]
    ensures Ledger(max, t, id)
  {
  }

  lemma RecordSound(max: int, s: System, a: Action)
    requires Sound(max, s) && Enabled(s, a) && a.Record?
    ensures Sound(max, Apply(max, s, a))
  {
    var t, m := RecordIs(max, s, a);
    assert forall v, k | On(t, v, k) :: On(s, v, k);
    forall id
      ensures Ledger(max, t, id)
    {
      assert Ledger(max, s, id);
      if id == m.job {
        RecordOwn(max, s, t, a.w, m);
      } else {
        RecordOther(max, s, t, a.w, m, id);
      }
    }
  }

  lemma SettleLedger(max: int, s: System, a: Action, id: string)
    requires Sound(max, s) && Enabled(s, a) && a.Settle?
    ensures Ledger(max, Apply(max, s, a), id)
  {
    var t := Apply(max, s, a);
    var own := s.workers[a.w].job.id;
    assert t.made == s.made && t.created == s.created;
    assert Ledger(max, s, id) && On(s, a.w, own);
    assert forall v | On(t, v, id) :: v != a.w && On(s, v, id);
    if id == own {
      assert WorkerFits(max, s.workers[a.w], HistoryOf(s.made, id));
    }
  }

  lemma SettleSound(max: int, s: System, a: Action)
    requires Sound(max, s) && Enabled(s, a) && a.Settle?
    ensures Sound(max, Apply(max, s, a))
  {
    var t := Apply(max, s, a);
    assert On(s, a.w, s.workers[a.w].job.id);
    assert forall v, k | On(t, v, k) :: v != a.w && On(s, v, k);
    forall id
      ensures Ledger(max, t, id)
    {
      SettleLedger(max, s, a, id);
    }
  }

  lemma StepSound(max: int, s: System, a: Action)
    requires Sound(max, s) && Enabled(s, a)
    ensures Sound(max, Apply(max, s, a))
  {
    var t := Apply(max, s, a);
    match a
    case Push(eventId, id, now) =>
      var fan := s.fans[eventId];
      if Matches(fan.rest[0], fan.event.eventType) {
        PutSound(max, s, t, JobFor(id, fan.rest[0], eventId, fan.event, now));
      } else {
        SameWorkSound(max, s, t);
      }
    case Redrive(vhost, sub, eventId, last, id, now) =>
      var m := s.made[last].attempt;
      PutSound(max, s, t, JobFor(id, s.subs[sub], eventId, Event(vhost, m.eventType, m.payload), now));
    case Claim(_, _, _) => ClaimSound(max, s, a);
    case LoseClaim(_, _) => ClaimSound(max, s, a);
    case Send(_, _) => SendSound(max, s, a);
    case Crash(_) => SendSound(max, s, a);
    case Record(_, _) => RecordSound(max, s, a);
    case Settle(_, _, _, _) => SettleSound(max, s, a);
    case _ => SameWorkSound(max, s, t);
  }

  lemma {:induction false} RunSound(max: int, s: System, acts: seq<Action>, t: System)
    requires Sound(max, s) && Runs(max, s, acts, t)
    ensures Sound(max, t)
    decreases |acts|
  {
    if acts != [] {
      StepSound(max, s, acts[0]);
      RunSound(max, Apply(max, s, acts[0]), acts[1..], t);
    }
  }

  /** The attempts of one job are numbered 1..k with k at most the limit, success only last. */
  lemma JobAttempts(max: int, acts: seq<Action>, t: System, id: string)
    requires Runs(max, Initial, acts, t)
    ensures WellFormed(max, HistoryOf(t.made, id), id)
    ensures |HistoryOf(t.made, id)| <= Limit(max)
  {
    RunSound(max, Initial, acts, t);
    assert Ledger(max, t, id);
    var h := HistoryOf(t.made, id);
    if |h| >= 2 {
      assert h[|h| - 2].attempt.number < max;
    }
  }

  // ---------- redrives ----------

  ghost function JobsOf(s: System, p: Pair): set<string> {
    set id | id in s.created && s.created[id].subscription == p.subscription && s.created[id].eventId == p.eventId
  }

  predicate Awaits(fan: Fan, sub: string) {
    exists i :: 0 <= i < |fan.rest| && fan.rest[i].id == sub
  }

  /** 1 while the fan-out of the pair's event has not yet reached its subscription. */
  function Due(s: System, p: Pair): nat {
    if p.eventId in s.fans && Awaits(s.fans[p.eventId], p.subscription) then 1 else 0
  }

  /** Beyond the one job of its fan-out, a pair has one job per redrive. */
  ghost predicate Metered(s: System) {
    && (forall p: Pair :: |JobsOf(s, p)| + Due(s, p) <= 1 + s.redrives[p])
    && (forall p: Pair | p.eventId !in s.events :: JobsOf(s, p) == {})
    && (forall e | e in s.fans :: e in s.events && DistinctSubs(s.fans[e].rest))
  }

  predicate Names(d: Delivery, p: Pair) {
    d.subscription == p.subscription && d.eventId == p.eventId
  }

  lemma JobAdded(s: System, t: System, p: Pair, id: string, d: Delivery)
    requires id !in s.created && t.created == s.created[id := d]
    ensures Names(d, p) ==> |JobsOf(t, p)| == |JobsOf(s, p)| + 1
    ensures !Names(d, p) ==> JobsOf(t, p) == JobsOf(s, p)
  {
    assert JobsOf(t, p) == JobsOf(s, p) + if Names(d, p) then {id} else {};
  }

  lemma FanAdvances(s: System, t: System, e: string, p: Pair)
    requires e in s.fans && s.fans[e].rest != [] && DistinctSubs(s.fans[e].rest)
    requires t.fans == s.fans[e := s.fans[e].(rest := s.fans[e].rest[1..])]
    ensures Due(t, p) <= Due(s, p)
    ensures p == Pair(s.fans[e].rest[0].id, e) ==> Due(s, p) == 1 && Due(t, p) == 0
  {
    var fan := s.fans[e];
    if p == Pair(fan.rest[0].id, e) {
      assert Awaits(fan, p.subscription);
    } else if p.eventId == e && Awaits(t.fans[e], p.subscription) {
      ShorterAwaits(fan, p.subscription);
    }
  }

  lemma PushMetered(max: int, s: System, a: Action, p: Pair)
    requires Metered(s) && Enabled(s, a) && a.Push?
    ensures var t := Apply(max, s, a); |JobsOf(t, p)| + Due(t, p) <= 1 + t.redrives[p]
  {
    var t := Apply(max, s, a);
    var fan := s.fans[a.eventId];
    assert |JobsOf(s, p)| + Due(s, p) <= 1 + s.redrives[p];
    FanAdvances(s, t, a.eventId, p);
    if Matches(fan.rest[0], fan.event.eventType) {
      JobAdded(s, t, p, a.job, JobFor(a.job, fan.rest[0], a.eventId, fan.event, a.now).body);
    } else {
      assert JobsOf(t, p) == JobsOf(s, p);
    }
  }

  lemma ShorterAwaits(fan: Fan, sub: string)
    requires fan.rest != [] && Awaits(fan.(rest := fan.rest[1..]), sub)
    ensures Awaits(fan, sub)
  {
    var i :| 0 <= i < |fan.rest[1..]| && fan.rest[1..][i].id == sub;
    assert fan.rest[i + 1].id == sub;
  }

  lemma RedriveKnown(s: System, a: Action)
    requires Faithful(s) && Enabled(s, a) && a.Redrive?
    ensures a.eventId in s.events && s.subs[a.sub].id == a.sub
  {
    assert FromJob(s, s.made[a.last]) && Genuine(s, s.created[s.made[a.last].job]);
  }

  lemma RedriveMetered(max: int, s: System, a: Action, p: Pair)
    requires Metered(s) && Enabled(s, a) && a.Redrive? && a.eventId in s.events && s.subs[a.sub].id == a.sub
    ensures var t := Apply(max, s, a); |JobsOf(t, p)| + Due(t, p) <= 1 + t.redrives[p]
  {
    var t := Apply(max, s, a);
    assert |JobsOf(s, p)| + Due(s, p) <= 1 + s.redrives[p];
    var m := s.made[a.last].attempt;
    JobAdded(s, t, p, a.job, JobFor(a.job, s.subs[a.sub], a.eventId, Event(a.vhost, m.eventType, m.payload), a.now).body);
  }

  lemma UnknownPair(max: int, s: System, a: Action, p: Pair)
    requires Metered(s) && Enabled(s, a) && ((a.Push? && FanOk(s, a.eventId, s.fans[a.eventId])) || a.Redrive?) && a.eventId in s.events
    ensures p.eventId !in s.events ==> JobsOf(Apply(max, s, a), p) == {}
  {
    if p.eventId !in s.events {
      assert JobsOf(Apply(max, s, a), p) == JobsOf(s, p);
    }
  }

  lemma OtherMetered(max: int, s: System, a: Action, p: Pair)
    requires Metered(s) && Enabled(s, a) && !a.Push? && !a.Redrive?
    ensures var t := Apply(max, s, a); |JobsOf(t, p)| + Due(t, p) <= 1 + t.redrives[p]
    ensures var t := Apply(max, s, a); p.eventId !in t.events ==> JobsOf(t, p) == {}
  {
    var t := Apply(max, s, a);
    assert |JobsOf(s, p)| + Due(s, p) <= 1 + s.redrives[p];
    assert JobsOf(t, p) == JobsOf(s, p);
  }

  lemma StepMetered(max: int, s: System, a: Action)
    requires Faithful(s) && Metered(s) && Enabled(s, a)
    ensures Metered(Apply(max, s, a))
  {
    StepFaithful(max, s, a);
    var t := Apply(max, s, a);
    forall p: Pair
      ensures |JobsOf(t, p)| + Due(t, p) <= 1 + t.redrives[p] && (p.eventId !in t.events ==> JobsOf(t, p) == {})
    {
      if a.Push? {
        PushMetered(max, s, a, p);
        UnknownPair(max, s, a, p);
      } else if a.Redrive? {
        RedriveKnown(s, a);
        RedriveMetered(max, s, a, p);
        UnknownPair(max, s, a, p);
      } else {
        OtherMetered(max, s, a, p);
      }
    }
    forall e | e in t.fans
      ensures e in t.events && DistinctSubs(t.fans[e].rest)
    {
      assert FanOk(t, e, t.fans[e]);
    }
  }

  lemma {:induction false} RunMetered(max: int, s: System, acts: seq<Action>, t: System)
    requires Faithful(s) && Metered(s) && Runs(max, s, acts, t)
    ensures Metered(t)
    decreases |acts|
  {
    if acts != [] {
      StepFaithful(max, s, acts[0]);
      StepMetered(max, s, acts[0]);
      RunMetered(max, Apply(max, s, acts[0]), acts[1..], t);
    }
  }

  function AttemptsOf(log: seq<Made>, p: Pair): seq<Made> {
    if log == [] then []
    else
      var m := log[|log| - 1];
      AttemptsOf(log[..|log| - 1], p)
      + if m.attempt.subscription == p.subscription && m.attempt.eventId == p.eventId then [m] else []
  }

  ghost function Bag(log: seq<Made>): multiset<string> {
    if log == [] then multiset{} else Bag(log[..|log| - 1]) + multiset{log[|log| - 1].job}
  }

  lemma {:induction false} BagOfPair(s: System, log: seq<Made>, p: Pair, id: string)
    requires forall k | 0 <= k < |log| :: FromJob(s, log[k])
    ensures |Bag(AttemptsOf(log, p))| == |AttemptsOf(log, p)|
    ensures Bag(AttemptsOf(log, p))[id] <= |HistoryOf(log, id)|
    ensures id in Bag(AttemptsOf(log, p)) ==> id in JobsOf(s, p)
  {
    if log != [] {
      var last := |log| - 1;
      BagOfPair(s, log[..last], p, id);
      var before := AttemptsOf(log[..last], p);
      if AttemptsOf(log, p) != before {
        assert AttemptsOf(log, p) == before + [log[last]];
        assert AttemptsOf(log, p)[..|before|] == before;
        assert FromJob(s, log[last]);
      }
    }
  }

  /** How many jobs a pair has at most. */
  lemma JobBound(max: int, acts: seq<Action>, t: System, p: Pair)
    requires Runs(max, Initial, acts, t)
    ensures |JobsOf(t, p)| <= t.redrives[p] + 1
  {
    InitialMetered();
    RunMetered(max, Initial, acts, t);
    assert |JobsOf(t, p)| + Due(t, p) <= 1 + t.redrives[p];
  }

  lemma JobShare(max: int, acts: seq<Action>, t: System, p: Pair, id: string)
    requires Runs(max, Initial, acts, t)
    ensures var bag := Bag(AttemptsOf(t.made, p));
      |bag| == |AttemptsOf(t.made, p)| && bag[id] <= Limit(max) && (id in bag ==> id in JobsOf(t, p))
  {
    RunFaithful(max, Initial, acts, t);
    BagOfPair(t, t.made, p, id);
    JobAttempts(max, acts, t, id);
  }

  /** After r redrives of a (subscription, event) pair, at most (r + 1) times the attempt limit attempts
      have been made for it. */
  lemma RedriveBudget(max: int, acts: seq<Action>, t: System, p: Pair)
    requires Runs(max, Initial, acts, t)
    ensures |AttemptsOf(t.made, p)| <= (t.redrives[p] + 1) * Limit(max)
  {
    var bag := Bag(AttemptsOf(t.made, p));
    forall id
      ensures |bag| == |AttemptsOf(t.made, p)| && bag[id] <= Limit(max) && (id in bag ==> id in JobsOf(t, p))
    {
      JobShare(max, acts, t, p, id);
    }
    JobBound(max, acts, t, p);
    Tally.BagBound(bag, JobsOf(t, p), Limit(max));
    Scale(|JobsOf(t, p)|, t.redrives[p] + 1, Limit(max));
  }

  lemma InitialMetered()
    ensures Metered(Initial)
  {
    assert forall p: Pair :: JobsOf(Initial, p) == {};
  }

  lemma Scale(a: nat, b: nat, c: nat)
    requires a <= b
    ensures a * c <= b * c
  {
  }
}
