/** What the dispatcher makes of an attempt's result, step by step and over every run: no webhook is given up before it
    succeeds or its attempts are used up. */
module WebhookOutcomes {
  import opened RetryQueue
  import opened Webhook
  import opened WebhookAttempts

  /** A redrive is for an enabled subscription of the vhost and builds on the newest stored attempt. It queues a new
      job to the subscription's present URL and secret, with that attempt's event type and payload. */
  lemma RedriveCarries(max: int, s: System, a: Action)
    requires Enabled(s, a) && a.Redrive?
    ensures var m, t := s.made[a.last].attempt, Apply(max, s, a);
      && t.queue.jobs.Keys == s.queue.jobs.Keys + {a.job} && t.queue.claimed == s.queue.claimed
      && Carries(t.queue.jobs[a.job], a.job, s.subs[a.sub], a.eventId, Event(a.vhost, m.eventType, m.payload), a.now)
    ensures !s.subs[a.sub].disabled && s.subs[a.sub].vhost == a.vhost
    ensures MostRecentStored(s.made, a.last, a.sub, a.eventId)
  {
  }

  /** Entry `last` is the newest stored attempt of the subscription at the event. */
  ghost predicate MostRecentStored(made: seq<Made>, last: nat, sub: string, eventId: string) {
    && last < |made| && made[last].kept && made[last].attempt.subscription == sub && made[last].attempt.eventId == eventId
    && forall k | last < k < |made| && made[k].kept && made[k].attempt.subscription == sub :: made[k].attempt.eventId != eventId
  }

  /** The record of an attempt carries its result, the next number and everything a redrive needs. */
  lemma RecordedExactly(max: int, s: System, a: Action)
    requires Enabled(s, a) && a.Record?
    ensures var job, t := s.workers[a.w].job, Apply(max, s, a);
      && |t.made| == |s.made| + 1 && t.made[..|s.made|] == s.made
      && var m := t.made[|s.made|];
         && m.job == job.id && m.kept == a.kept && m.attempt.number == job.attempts + 1
         && m.attempt.success == s.workers[a.w].phase.success
         && m.attempt.subscription == job.body.subscription && m.attempt.eventId == job.body.eventId
         && m.attempt.payload == job.body.payload && m.attempt.eventType == job.body.eventType
  {
  }

  /** Settling removes the job after a success or the last attempt allowed, and otherwise reschedules it with the
      error and the next time; a lost update changes nothing. */
  lemma SettledExactly(max: int, s: System, a: Action)
    requires Enabled(s, a) && a.Settle?
    ensures var job, success, t := s.workers[a.w].job, s.workers[a.w].phase.success, Apply(max, s, a);
      && t.workers == s.workers - {a.w} && t.made == s.made
      && (!a.applied ==> t.queue == s.queue)
      && (a.applied ==> t.queue.claimed == s.queue.claimed - {job.id})
      && (a.applied && (success || job.attempts + 1 >= max) ==> t.queue.jobs == s.queue.jobs - {job.id})
      && (a.applied && !success && job.attempts + 1 < max ==>
            && t.queue.jobs.Keys == s.queue.jobs.Keys
            && (forall id | id in s.queue.jobs && id != job.id :: t.queue.jobs[id] == s.queue.jobs[id])
            && t.queue.jobs[job.id] == s.queue.jobs[job.id].(attempts := s.queue.jobs[job.id].attempts + 1, nextAttemptAt := a.next, lastError := a.cause))
  {
  }

  /** The job succeeded or has had all its attempts. */
  predicate Done(max: int, h: seq<Made>) {
    h != [] && (h[|h| - 1].attempt.success || |h| >= max)
  }

  ghost predicate Remain(max: int, s: System) {
    forall id | id in s.created && id !in s.queue.jobs :: Done(max, HistoryOf(s.made, id))
  }

  lemma SettleRemain(max: int, s: System, a: Action)
    requires Sound(max, s) && Remain(max, s) && Enabled(s, a) && a.Settle?
    ensures Remain(max, Apply(max, s, a))
  {
    SettledExactly(max, s, a);
    var t, own := Apply(max, s, a), s.workers[a.w].job.id;
    assert Ledger(max, s, own) && On(s, a.w, own);
    forall id | id in t.created && id !in t.queue.jobs
      ensures Done(max, HistoryOf(t.made, id))
    {
      assert id == own ==> WorkerFits(max, s.workers[a.w], HistoryOf(s.made, own));
    }
  }

  lemma RecordRemain(max: int, s: System, a: Action)
    requires Exclusive(s) && Remain(max, s) && Enabled(s, a) && a.Record?
    ensures Remain(max, Apply(max, s, a))
  {
    var t, own := Apply(max, s, a), s.workers[a.w].job.id;
    assert On(s, a.w, own);
    forall id | id in t.created && id !in t.queue.jobs
      ensures Done(max, HistoryOf(t.made, id))
    {
      HistoryAppend(s.made, t.made[|s.made|], id);
    }
  }

  lemma StepRemain(max: int, s: System, a: Action)
    requires Sound(max, s) && Remain(max, s) && Enabled(s, a)
    ensures Remain(max, Apply(max, s, a))
  {
    if a.Settle? {
      SettleRemain(max, s, a);
    } else if a.Record? {
      RecordRemain(max, s, a);
    } else {
      assert Apply(max, s, a).made == s.made && s.queue.jobs.Keys <= Apply(max, s, a).queue.jobs.Keys;
    }
  }

  lemma {:induction false} RunRemain(max: int, s: System, acts: seq<Action>, t: System)
    requires Sound(max, s) && Remain(max, s) && Runs(max, s, acts, t)
    ensures Remain(max, t)
    decreases |acts|
  {
    if acts != [] {
      StepSound(max, s, acts[0]);
      StepRemain(max, s, acts[0]);
      RunRemain(max, Apply(max, s, acts[0]), acts[1..], t);
    }
  }

  /** In every run a webhook job leaves the queue only after a success or after all its attempts. */
  lemma KeptUntilDone(max: int, acts: seq<Action>, t: System, id: string)
    requires Runs(max, Initial, acts, t) && id in t.created && id !in t.queue.jobs
    ensures var h := HistoryOf(t.made, id); h != [] && (h[|h| - 1].attempt.success || |h| >= max)
  {
    RunRemain(max, Initial, acts, t);
  }

  // ---------- disabled subscriptions ----------

  /** The subscription is disabled, has no job for the event, and no fan-out of the event will make one. */
  ghost predicate Quiet(s: System, sub: string, eventId: string) {
    && sub in s.subs && s.subs[sub].disabled
    && (forall id | id in s.created :: !Names(s.created[id], Pair(sub, eventId)))
    && (eventId in s.fans ==> forall i | 0 <= i < |s.fans[eventId].rest| && s.fans[eventId].rest[i].id == sub :: s.fans[eventId].rest[i].disabled)
  }

  /** Disabling takes effect at once. */
  lemma DisableQuiets(max: int, s: System, a: Action, eventId: string)
    requires Faithful(s) && Enabled(s, a) && a.Disable? && eventId !in s.events
    ensures Quiet(Apply(max, s, a), a.sub, eventId)
  {
    forall id | id in s.created
      ensures s.created[id].eventId != eventId
    {
      assert Genuine(s, s.created[id]);
    }
    assert forall e | e in s.fans :: e in s.events by {
      assert forall e | e in s.fans :: FanOk(s, e, s.fans[e]);
    }
  }

  lemma PushQuiet(max: int, s: System, a: Action, sub: string, eventId: string)
    requires Quiet(s, sub, eventId) && Enabled(s, a) && a.Push?
    ensures Quiet(Apply(max, s, a), sub, eventId)
  {
    var t := Apply(max, s, a);
    if a.eventId == eventId {
      var rest := s.fans[eventId].rest;
      assert t.fans[eventId].rest == rest[1..];
      assert rest[0].id == sub ==> rest[0].disabled;
      assert forall i | 0 <= i < |rest[1..]| :: rest[1..][i] == rest[i + 1];
    }
  }

  lemma StepQuiet(max: int, s: System, a: Action, sub: string, eventId: string)
    requires FansFaithful(s) && Quiet(s, sub, eventId) && Enabled(s, a)
    ensures Quiet(Apply(max, s, a), sub, eventId)
  {
    if a.Push? {
      PushQuiet(max, s, a, sub, eventId);
    }
  }

  lemma {:induction false} RunQuiet(max: int, s: System, acts: seq<Action>, t: System, sub: string, eventId: string)
    requires Faithful(s) && Quiet(s, sub, eventId) && Runs(max, s, acts, t)
    ensures Quiet(t, sub, eventId)
    decreases |acts|
  {
    if acts != [] {
      StepFaithful(max, s, acts[0]);
      StepQuiet(max, s, acts[0], sub, eventId);
      RunQuiet(max, Apply(max, s, acts[0]), acts[1..], t, sub, eventId);
    }
  }

  /** Once a subscription is disabled it stays so, and no event published later ever gets a job for it, by
      fan-out or by redrive. */
  lemma DisabledGetsNothing(max: int, before: seq<Action>, s: System, a: Action, after: seq<Action>, t: System, eventId: string)
    requires Runs(max, Initial, before, s) && Enabled(s, a) && a.Disable? && eventId !in s.events
    requires Runs(max, Apply(max, s, a), after, t)
    ensures a.sub in t.subs && t.subs[a.sub].disabled
    ensures forall id | id in t.created :: !(t.created[id].subscription == a.sub && t.created[id].eventId == eventId)
  {
    RunFaithful(max, Initial, before, s);
    StepFaithful(max, s, a);
    DisableQuiets(max, s, a, eventId);
    RunQuiet(max, Apply(max, s, a), after, t, a.sub, eventId);
  }
}
