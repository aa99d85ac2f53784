/** Webhook dispatch (internal/webhook): fan-out of an event to subscriptions, retried delivery with a
    permanent attempt history, and manual redrive that rebuilds a job from that history. All callers
    and delivery workers interleave step by step over the shared retry queue. */
module Webhook {
  import opened RetryQueue

  datatype Subscription = Subscription(id: string, vhost: string, url: string, secret: string, eventTypes: seq<string>, disabled: bool)

  /** The body of a delivery job. */
  datatype Delivery = Delivery(vhost: string, subscription: string, url: string, secret: string, eventId: string, eventType: string, payload: string)

  datatype Event = Event(vhost: string, eventType: string, payload: string)

  datatype Attempt = Attempt(vhost: string, subscription: string, eventId: string, number: int, success: bool, payload: string, eventType: string)

  /** An attempt made for job `job`; it is in the store only when `kept` (RecordAttempt errors are ignored). */
  datatype Made = Made(job: string, attempt: Attempt, kept: bool)

  predicate Matches(sub: Subscription, eventType: string) {
    !sub.disabled && (sub.eventTypes == [] || eventType in sub.eventTypes)
  }

  method MatchesEventType(sub: Subscription, eventType: string) returns (matches: bool)
    ensures matches <==> sub.eventTypes == [] || eventType in sub.eventTypes
    ensures Matches(sub, eventType) <==> !sub.disabled && matches
  {
    if |sub.eventTypes| == 0 {
      return true;
    }
    for i := 0 to |sub.eventTypes|
      invariant eventType !in sub.eventTypes[..i]
    {
      if sub.eventTypes[i] == eventType {
        return true;
      }
      assert sub.eventTypes[..i + 1] == sub.eventTypes[..i] + [sub.eventTypes[i]];
    }
    assert sub.eventTypes[..|sub.eventTypes|] == sub.eventTypes;
    return false;
  }

  function JobFor(id: string, sub: Subscription, eventId: string, e: Event, now: int): Job<Delivery> {
    Job(id, Delivery(e.vhost, sub.id, sub.url, sub.secret, eventId, e.eventType, e.payload), 0, now, "")
  }

  // ---------- fan-out ----------

  /** The jobs one Enqueue call creates, in listing order; `ids[i]` is the ID drawn for listing[i]. */
  function FanOut(listing: seq<Subscription>, ids: seq<string>, eventId: string, e: Event, now: int): seq<Job<Delivery>>
    requires |ids| == |listing|
  {
    if listing == [] then []
    else
      var last := |listing| - 1;
      FanOut(listing[..last], ids[..last], eventId, e, now)
      + if Matches(listing[last], e.eventType) then [JobFor(ids[last], listing[last], eventId, e, now)] else []
  }

  function PutAll(q: Queue<Delivery>, jobs: seq<Job<Delivery>>): Queue<Delivery> {
    if jobs == [] then q else PutAll(q, jobs[..|jobs| - 1]).Put(jobs[|jobs| - 1])
  }

  lemma FanOutNext(listing: seq<Subscription>, ids: seq<string>, eventId: string, e: Event, now: int, i: nat, q: Queue<Delivery>)
    requires |ids| == |listing| && i < |listing|
    ensures var before, after := FanOut(listing[..i], ids[..i], eventId, e, now), FanOut(listing[..i + 1], ids[..i + 1], eventId, e, now);
      PutAll(q, after) == if Matches(listing[i], e.eventType) then PutAll(q, before).Put(JobFor(ids[i], listing[i], eventId, e, now)) else PutAll(q, before)
  {
    var before := FanOut(listing[..i], ids[..i], eventId, e, now);
    var job := JobFor(ids[i], listing[i], eventId, e, now);
    assert listing[..i + 1][..i] == listing[..i] && ids[..i + 1][..i] == ids[..i];
    assert (before + [job])[..|before|] == before;
    assert before + [] == before;
  }

  /** Dispatcher.Enqueue against the in-memory queue; the context is cancelled by the time listing[i] is reached
      when cancelled(i). It stops at the first job the queue refuses, the one of listing[done], and leaves
      those before it queued. */
  method EnqueueEvent(queue: MemoryQueue<Delivery>, listing: seq<Subscription>, ids: seq<string>, eventId: string, e: Event, now: int, cancelled: nat -> bool)
      returns (ok: bool, done: nat)
    requires queue.Valid() && |ids| == |listing|
    modifies queue
    ensures queue.Valid()
    ensures ok <==> forall i | 0 <= i < |listing| && Matches(listing[i], e.eventType) :: ids[i] != "" && !cancelled(i)
    ensures done <= |listing| && (ok <==> done == |listing|)
    ensures !ok ==> Matches(listing[done], e.eventType) && (ids[done] == "" || cancelled(done))
    ensures queue.Contents() == PutAll(old(queue.Contents()), FanOut(listing[..done], ids[..done], eventId, e, now))
  {
    var i := 0;
    while i < |listing|
      invariant 0 <= i <= |listing|
      invariant queue.Valid()
      invariant queue.Contents() == PutAll(old(queue.Contents()), FanOut(listing[..i], ids[..i], eventId, e, now))
      invariant forall k | 0 <= k < i && Matches(listing[k], e.eventType) :: ids[k] != "" && !cancelled(k)
    {
      FanOutNext(listing, ids, eventId, e, now, i, old(queue.Contents()));
      var matches := MatchesEventType(listing[i], e.eventType);
      if !listing[i].disabled && matches {
        var sent := queue.Enqueue(cancelled(i), JobFor(ids[i], listing[i], eventId, e, now));
        if !sent {
          return false, i;
        }
      }
      i := i + 1;
    }
    return true, i;
  }

  ghost predicate DistinctSubs(listing: seq<Subscription>) {
    forall i, j | 0 <= i < j < |listing| :: listing[i].id != listing[j].id
  }

  /** `job` is the delivery of the event to the enabled, matching subscription listing[i]. */
  ghost predicate Serves(job: Job<Delivery>, listing: seq<Subscription>, ids: seq<string>, i: int, eventId: string, e: Event, now: int)
    requires |ids| == |listing|
  {
    0 <= i < |listing| && Matches(listing[i], e.eventType) && job == JobFor(ids[i], listing[i], eventId, e, now)
  }

  ghost predicate Served(job: Job<Delivery>, listing: seq<Subscription>, ids: seq<string>, eventId: string, e: Event, now: int)
    requires |ids| == |listing|
  {
    exists i :: Serves(job, listing, ids, i, eventId, e, now)
  }

  lemma {:induction false} FanOutSound(listing: seq<Subscription>, ids: seq<string>, eventId: string, e: Event, now: int, job: Job<Delivery>)
    requires |ids| == |listing| && job in FanOut(listing, ids, eventId, e, now)
    ensures Served(job, listing, ids, eventId, e, now)
  {
    var last := |listing| - 1;
    if job in FanOut(listing[..last], ids[..last], eventId, e, now) {
      FanOutSound(listing[..last], ids[..last], eventId, e, now, job);
      var i :| Serves(job, listing[..last], ids[..last], i, eventId, e, now);
      assert Serves(job, listing, ids, i, eventId, e, now);
    } else {
      assert Serves(job, listing, ids, last, eventId, e, now);
    }
  }

  lemma {:induction false} FanOutComplete(listing: seq<Subscription>, ids: seq<string>, eventId: string, e: Event, now: int, i: nat)
    requires |ids| == |listing| && i < |listing| && Matches(listing[i], e.eventType)
    ensures JobFor(ids[i], listing[i], eventId, e, now) in FanOut(listing, ids, eventId, e, now)
  {
    var last := |listing| - 1;
    if i < last {
      FanOutComplete(listing[..last], ids[..last], eventId, e, now, i);
    }
  }

  lemma {:induction false} FanOutDistinct(listing: seq<Subscription>, ids: seq<string>, eventId: string, e: Event, now: int)
    requires |ids| == |listing| && DistinctSubs(listing)
    ensures var jobs := FanOut(listing, ids, eventId, e, now);
      forall j, k | 0 <= j < k < |jobs| :: jobs[j].body.subscription != jobs[k].body.subscription
  {
    if listing != [] {
      var last := |listing| - 1;
      var before := FanOut(listing[..last], ids[..last], eventId, e, now);
      FanOutDistinct(listing[..last], ids[..last], eventId, e, now);
      forall j | 0 <= j < |before|
        ensures before[j].body.subscription != listing[last].id
      {
        FanOutSound(listing[..last], ids[..last], eventId, e, now, before[j]);
      }
    }
  }

  /** Fan-out makes exactly one job per enabled matching subscription, carrying the event unchanged. */
  lemma FanOutExact(listing: seq<Subscription>, ids: seq<string>, eventId: string, e: Event, now: int)
    requires |ids| == |listing| && DistinctSubs(listing)
    ensures var jobs := FanOut(listing, ids, eventId, e, now);
      && (forall job | job in jobs :: exists i :: 0 <= i < |listing| && Wanted(listing[i], e) && Carries(job, ids[i], listing[i], eventId, e, now))
      && (forall i | 0 <= i < |listing| && Wanted(listing[i], e) :: exists job :: job in jobs && Carries(job, ids[i], listing[i], eventId, e, now))
      && (forall j, k | 0 <= j < k < |jobs| :: jobs[j].body.subscription != jobs[k].body.subscription)
  {
    FanOutDistinct(listing, ids, eventId, e, now);
    forall job | job in FanOut(listing, ids, eventId, e, now)
      ensures exists i :: 0 <= i < |listing| && Wanted(listing[i], e) && Carries(job, ids[i], listing[i], eventId, e, now)
    {
      FanOutSound(listing, ids, eventId, e, now, job);
      var i :| Serves(job, listing, ids, i, eventId, e, now);
      assert Carries(job, ids[i], listing[i], eventId, e, now);
    }
    forall i | 0 <= i < |listing| && Wanted(listing[i], e)
      ensures exists job :: job in FanOut(listing, ids, eventId, e, now) && Carries(job, ids[i], listing[i], eventId, e, now)
    {
      FanOutComplete(listing, ids, eventId, e, now, i);
      assert Carries(JobFor(ids[i], listing[i], eventId, e, now), ids[i], listing[i], eventId, e, now);
    }
  }

  /** The subscription is enabled and its filter is empty or names the event's type. */
  predicate Wanted(sub: Subscription, e: Event) {
    !sub.disabled && (|sub.eventTypes| == 0 || exists i :: 0 <= i < |sub.eventTypes| && sub.eventTypes[i] == e.eventType)
  }

  /** A new job, due now, that posts the event's payload to the subscription's URL under its secret. */
  predicate Carries(job: Job<Delivery>, id: string, sub: Subscription, eventId: string, e: Event, now: int) {
    && job.id == id && job.attempts == 0 && job.nextAttemptAt == now && job.lastError == ""
    && job.body.url == sub.url && job.body.secret == sub.secret && job.body.subscription == sub.id
    && job.body.vhost == e.vhost && job.body.eventId == eventId && job.body.eventType == e.eventType && job.body.payload == e.payload
  }

  // ---------- the dispatcher as a state machine ----------

  datatype Pair = Pair(subscription: string, eventId: string)

  /** An Enqueue call in progress: the subscriptions of its listing not yet visited. */
  datatype Fan = Fan(event: Event, rest: seq<Subscription>)

  datatype Phase = Claimed | Sent(success: bool) | Logged(success: bool)

  datatype Worker = Worker(job: Job<Delivery>, phase: Phase)

  /** `events`, `created` and `redrives` record the run. `made` is the attempt history with the entries
      RecordAttempt lost left in. */
  datatype System = System(
    subs: map<string, Subscription>,
    queue: Queue<Delivery>,
    fans: map<string, Fan>,
    workers: map<nat, Worker>,
    made: seq<Made>,
    events: map<string, Event>,
    created: map<string, Delivery>,
    redrives: multiset<Pair>)

  const Initial := System(map[], Queue(map[], {}), map[], map[], [], map[], map[], multiset{})

  datatype Action =
    | Subscribe(subscription: Subscription)
    | Disable(vhost: string, sub: string)
    | Publish(eventId: string, event: Event, listing: seq<Subscription>)
    | Push(eventId: string, job: string, now: int)
    | GiveUp(eventId: string)                            // a queue error ends the fan-out early
    | Redrive(vhost: string, sub: string, eventId: string, last: nat, job: string, now: int)
    | Claim(w: nat, id: string, now: int)
    | LoseClaim(id: string, now: int)
    | Send(w: nat, success: bool)
    | Record(w: nat, kept: bool)
    | Settle(w: nat, cause: string, next: int, applied: bool)
    | Crash(w: nat)

  /** What ListSubscriptions(vhost) returns, in some order. */
  ghost predicate IsListing(subs: map<string, Subscription>, vhost: string, listing: seq<Subscription>) {
    && DistinctSubs(listing)
    && (forall i | 0 <= i < |listing| :: listing[i].id in subs && subs[listing[i].id] == listing[i] && listing[i].vhost == vhost)
    && (forall id | id in subs && subs[id].vhost == vhost :: subs[id] in listing)
  }

  predicate Hit(m: Made, sub: string, eventId: string) {
    m.kept && m.attempt.subscription == sub && m.attempt.eventId == eventId
  }

  /** Redrive's scan of the attempt history, oldest first: it lands on the most recent match. */
  method MostRecent(history: seq<Made>, sub: string, eventId: string) returns (last: Option<nat>)
    ensures last.None? ==> forall k | 0 <= k < |history| :: !Hit(history[k], sub, eventId)
    ensures last.Some? ==> last.value < |history| && Hit(history[last.value], sub, eventId)
    ensures last.Some? ==> forall k | last.value < k < |history| :: !Hit(history[k], sub, eventId)
  {
    last := None;
    for i := 0 to |history|
      invariant last.None? ==> forall k | 0 <= k < i :: !Hit(history[k], sub, eventId)
      invariant last.Some? ==> last.value < i && Hit(history[last.value], sub, eventId)
      invariant last.Some? ==> forall k | last.value < k < i :: !Hit(history[k], sub, eventId)
    {
      if Hit(history[i], sub, eventId) {
        last := Some(i);
      }
    }
  }

  ghost predicate Enabled(s: System, a: Action) {
    match a
    case Subscribe(sub) => sub.id != "" && sub.id !in s.subs
    case Disable(vhost, sub) => sub in s.subs && s.subs[sub].vhost == vhost
    case Publish(eventId, event, listing) => eventId !in s.events && IsListing(s.subs, event.vhost, listing)
    case Push(eventId, job, _) => eventId in s.fans && s.fans[eventId].rest != [] && job != "" && job !in s.created
    case GiveUp(eventId) => eventId in s.fans
    case Redrive(vhost, sub, eventId, last, job, _) =>
      && sub in s.subs && s.subs[sub].vhost == vhost && !s.subs[sub].disabled
      && last < |s.made| && Hit(s.made[last], sub, eventId)
      && (forall k | last < k < |s.made| :: !Hit(s.made[k], sub, eventId))
      && job != "" && job !in s.created
    case Claim(w, id, now) => w !in s.workers && s.queue.EarliestDue(id, now)
    case LoseClaim(id, now) => s.queue.EarliestDue(id, now)
    case Send(w, _) => w in s.workers && s.workers[w].phase.Claimed?
    case Record(w, _) => w in s.workers && s.workers[w].phase.Sent?
    case Settle(w, _, _, applied) =>
      w in s.workers && s.workers[w].phase.Logged? && (applied ==> s.workers[w].job.id in s.queue.jobs)
    case Crash(w) => w in s.workers
  }

  function AttemptOf(s: System, worker: Worker): Attempt
    requires worker.phase.Sent?
  {
    var d := worker.job.body;
    var vhost := if d.subscription in s.subs then s.subs[d.subscription].vhost else d.vhost;
    Attempt(vhost, d.subscription, d.eventId, worker.job.attempts + 1, worker.phase.success, d.payload, d.eventType)
  }

  /** deliverOne's last step: complete on success or exhaustion, otherwise reschedule. */
  function QueueAfter(max: int, q: Queue<Delivery>, job: Job<Delivery>, success: bool, cause: string, next: int): Queue<Delivery>
    requires job.id in q.jobs
  {
    if success || job.attempts + 1 >= max then q.Remove(job.id) else q.Reschedule(job.id, Some(cause), next)
  }

  ghost function Apply(max: int, s: System, a: Action): System
    requires Enabled(s, a)
  {
    match a
    case Subscribe(sub) => s.(subs := s.subs[sub.id := sub])
    case Disable(_, sub) => s.(subs := s.subs[sub := s.subs[sub].(disabled := true)])
    case Publish(eventId, event, listing) => s.(events := s.events[eventId := event], fans := s.fans[eventId := Fan(event, listing)])
    case Push(eventId, id, now) =>
      var fan := s.fans[eventId];
      var job := JobFor(id, fan.rest[0], eventId, fan.event, now);
      var t := s.(fans := s.fans[eventId := fan.(rest := fan.rest[1..])]);
      if Matches(fan.rest[0], fan.event.eventType)
      then t.(queue := s.queue.Put(job), created := s.created[id := job.body])
      else t
    case GiveUp(eventId) => s.(fans := s.fans - {eventId})
    case Redrive(vhost, sub, eventId, last, id, now) =>
      var a := s.made[last].attempt;
      var job := JobFor(id, s.subs[sub], eventId, Event(vhost, a.eventType, a.payload), now);
      s.(queue := s.queue.Put(job), created := s.created[id := job.body], redrives := s.redrives + multiset{Pair(sub, eventId)})
    case Claim(w, id, _) => s.(queue := s.queue.Claim(id), workers := s.workers[w := Worker(s.queue.jobs[id], Claimed)])
    case LoseClaim(id, _) => s.(queue := s.queue.Claim(id))
    case Send(w, success) => s.(workers := s.workers[w := s.workers[w].(phase := Sent(success))])
    case Record(w, kept) =>
      var worker := s.workers[w];
      s.(workers := s.workers[w := worker.(phase := Logged(worker.phase.success))],
         made := s.made + [Made(worker.job.id, AttemptOf(s, worker), kept)])
    case Settle(w, cause, next, applied) =>
      var worker := s.workers[w];
      s.(workers := s.workers - {w},
         queue := if applied then QueueAfter(max, s.queue, worker.job, worker.phase.success, cause, next) else s.queue)
    case Crash(w) => s.(workers := s.workers - {w})
  }

  ghost predicate Runs(max: int, s: System, acts: seq<Action>, t: System)
    decreases |acts|
  {
    if acts == [] then t == s
    else Enabled(s, acts[0]) && Runs(max, Apply(max, s, acts[0]), acts[1..], t)
  }

  // ---------- what every run keeps ----------

  /** The delivery names a known subscription of its vhost, goes to its URL under its secret, and carries its event
      unchanged. */
  ghost predicate Genuine(s: System, d: Delivery) {
    && d.subscription in s.subs && s.subs[d.subscription].vhost == d.vhost
    && s.subs[d.subscription].url == d.url && s.subs[d.subscription].secret == d.secret
    && d.eventId in s.events && s.events[d.eventId] == Event(d.vhost, d.eventType, d.payload)
  }

  ghost predicate JobsFaithful(s: System) {
    && s.queue.Valid()
    && (forall id | id in s.created :: Genuine(s, s.created[id]))
    && (forall id | id in s.queue.jobs :: id in s.created && s.queue.jobs[id].body == s.created[id])
    && (forall w | w in s.workers :: s.workers[w].job.id in s.created && s.workers[w].job.body == s.created[s.workers[w].job.id])
  }

  /** A made attempt repeats its job's event and sits under its subscription's vhost. */
  ghost predicate FromJob(s: System, m: Made) {
    && m.job in s.created
    && var d := s.created[m.job];
       && m.attempt.vhost == d.vhost && m.attempt.subscription == d.subscription && m.attempt.eventId == d.eventId
       && m.attempt.payload == d.payload && m.attempt.eventType == d.eventType
  }

  ghost predicate LogFaithful(s: System) {
    forall k | 0 <= k < |s.made| :: FromJob(s, s.made[k])
  }

  /** The listed subscription is a known one, though it may have been disabled since. */
  ghost predicate Listed(s: System, sub: Subscription) {
    sub.id in s.subs && s.subs[sub.id].vhost == sub.vhost && s.subs[sub.id].url == sub.url && s.subs[sub.id].secret == sub.secret
  }

  ghost predicate FanOk(s: System, e: string, fan: Fan) {
    && e in s.events && s.events[e] == fan.event
    && DistinctSubs(fan.rest)
    && forall i | 0 <= i < |fan.rest| :: fan.rest[i].vhost == fan.event.vhost && Listed(s, fan.rest[i])
  }

  ghost predicate FansFaithful(s: System) {
    && (forall id | id in s.subs :: s.subs[id].id == id)
    && (forall e | e in s.fans :: FanOk(s, e, s.fans[e]))
  }

  ghost predicate Faithful(s: System) {
    JobsFaithful(s) && LogFaithful(s) && FansFaithful(s)
  }

  /** Subscriptions keep their vhost; events and created jobs are never changed. */
  ghost predicate Grows(s: System, t: System) {
    && (forall id | id in s.subs ::
          id in t.subs && t.subs[id].vhost == s.subs[id].vhost && t.subs[id].url == s.subs[id].url && t.subs[id].secret == s.subs[id].secret)
    && (forall e | e in s.events :: e in t.events && t.events[e] == s.events[e])
    && (forall id | id in s.created :: id in t.created && t.created[id] == s.created[id])
  }

  lemma StepGrows(max: int, s: System, a: Action)
    requires Enabled(s, a)
    ensures Grows(s, Apply(max, s, a))
  {
  }

  /** Push and Redrive both add one job, built from a known event for a known subscription. */
  lemma NewJobGenuine(max: int, s: System, a: Action, id: string)
    requires Faithful(s) && Enabled(s, a) && id in Apply(max, s, a).created && id !in s.created
    ensures Genuine(Apply(max, s, a), Apply(max, s, a).created[id])
  {
    if a.Redrive? {
      assert FromJob(s, s.made[a.last]);
      assert Genuine(s, s.created[s.made[a.last].job]);
    } else {
      assert FanOk(s, a.eventId, s.fans[a.eventId]);
    }
  }

  lemma StepJobs(max: int, s: System, a: Action)
    requires Faithful(s) && Enabled(s, a)
    ensures JobsFaithful(Apply(max, s, a))
  {
    var t := Apply(max, s, a);
    StepGrows(max, s, a);
    forall id | id in t.created
      ensures Genuine(t, t.created[id])
    {
      if id in s.created {
        assert Genuine(s, s.created[id]);
      } else {
        NewJobGenuine(max, s, a, id);
      }
    }
    StepQueueBodies(max, s, a);
    StepWorkerBodies(max, s, a);
  }

  ghost predicate Bodies(jobs: map<string, Job<Delivery>>, created: map<string, Delivery>) {
    forall id | id in jobs :: jobs[id].id == id && id in created && jobs[id].body == created[id]
  }

  lemma AddBody(q: Queue<Delivery>, created: map<string, Delivery>, job: Job<Delivery>)
    requires Bodies(q.jobs, created) && q.Valid()
    ensures Bodies(q.Put(job).jobs, created[job.id := job.body]) && q.Put(job).Valid()
  {
  }

  lemma SettleBodies(max: int, q: Queue<Delivery>, created: map<string, Delivery>, job: Job<Delivery>, success: bool, cause: string, next: int)
    requires Bodies(q.jobs, created) && q.Valid() && job.id in q.jobs
    ensures var r := QueueAfter(max, q, job, success, cause, next); Bodies(r.jobs, created) && r.Valid()
  {
  }

  lemma StepQueueBodies(max: int, s: System, a: Action)
    requires Bodies(s.queue.jobs, s.created) && s.queue.Valid() && Enabled(s, a)
    ensures var t := Apply(max, s, a); Bodies(t.queue.jobs, t.created) && t.queue.Valid()
  {
    var t := Apply(max, s, a);
    match a
    case Push(eventId, id, now) =>
      var fan := s.fans[eventId];
      AddBody(s.queue, s.created, JobFor(id, fan.rest[0], eventId, fan.event, now));
    case Redrive(vhost, sub, eventId, last, id, now) =>
      var m := s.made[last].attempt;
      AddBody(s.queue, s.created, JobFor(id, s.subs[sub], eventId, Event(vhost, m.eventType, m.payload), now));
    case Settle(w, cause, next, applied) =>
      if applied {
        SettleBodies(max, s.queue, s.created, s.workers[w].job, s.workers[w].phase.success, cause, next);
      }
    case _ =>
      assert t.created == s.created && t.queue.jobs == s.queue.jobs;
  }

  lemma WorkerBody(max: int, s: System, a: Action, w: nat)
    requires JobsFaithful(s) && Enabled(s, a) && Grows(s, Apply(max, s, a)) && w in Apply(max, s, a).workers
    ensures var t := Apply(max, s, a); t.workers[w].job.id in t.created && t.workers[w].job.body == t.created[t.workers[w].job.id]
  {
    var t := Apply(max, s, a);
    if a.Claim? && w == a.w {
      assert t.workers[w].job == s.queue.jobs[a.id];
    } else {
      WorkerKept(max, s, a, w);
    }
  }

  /** A worker keeps the job snapshot its claim gave it. */
  lemma WorkerKept(max: int, s: System, a: Action, w: nat)
    requires Enabled(s, a) && w in Apply(max, s, a).workers && !(a.Claim? && w == a.w)
    ensures w in s.workers && Apply(max, s, a).workers[w].job == s.workers[w].job
  {
  }

  lemma StepWorkerBodies(max: int, s: System, a: Action)
    requires JobsFaithful(s) && Enabled(s, a)
    ensures var t := Apply(max, s, a);
      forall w | w in t.workers :: t.workers[w].job.id in t.created && t.workers[w].job.body == t.created[t.workers[w].job.id]
  {
    StepGrows(max, s, a);
    forall w | w in Apply(max, s, a).workers
      ensures var t := Apply(max, s, a); t.workers[w].job.id in t.created && t.workers[w].job.body == t.created[t.workers[w].job.id]
    {
      WorkerBody(max, s, a, w);
    }
  }

  /** Growth keeps old attempts faithful; at most one new one has to be. */
  lemma LogGrows(s: System, t: System)
    requires LogFaithful(s) && Grows(s, t) && |s.made| <= |t.made| <= |s.made| + 1 && t.made[..|s.made|] == s.made
    requires |t.made| > |s.made| ==> FromJob(s, t.made[|s.made|])
    ensures LogFaithful(t)
  {
    assert forall k | 0 <= k < |s.made| :: t.made[k] == s.made[k];
    assert forall m | FromJob(s, m) :: FromJob(t, m);
  }

  lemma RecordFromJob(max: int, s: System, a: Action)
    requires JobsFaithful(s) && Enabled(s, a) && a.Record?
    ensures var t := Apply(max, s, a); |t.made| == |s.made| + 1 && t.made[..|s.made|] == s.made && FromJob(s, t.made[|s.made|])
  {
    assert Genuine(s, s.created[s.workers[a.w].job.id]);
  }

  lemma StepLog(max: int, s: System, a: Action)
    requires JobsFaithful(s) && LogFaithful(s) && Enabled(s, a)
    ensures LogFaithful(Apply(max, s, a))
  {
    StepGrows(max, s, a);
    if a.Record? {
      RecordFromJob(max, s, a);
    }
    LogGrows(s, Apply(max, s, a));
  }

  lemma FanStays(s: System, t: System, e: string, fan: Fan)
    requires Grows(s, t) && FanOk(s, e, fan)
    ensures FanOk(t, e, fan)
    ensures fan.rest != [] ==> FanOk(t, e, fan.(rest := fan.rest[1..]))
  {
  }

  lemma FanStep(max: int, s: System, a: Action, e: string)
    requires FansFaithful(s) && Enabled(s, a) && Grows(s, Apply(max, s, a)) && e in Apply(max, s, a).fans
    ensures FanOk(Apply(max, s, a), e, Apply(max, s, a).fans[e])
  {
    if !(a.Publish? && a.eventId == e) {
      FanStays(s, Apply(max, s, a), e, s.fans[e]);
    }
  }

  lemma SubsStep(max: int, s: System, a: Action)
    requires (forall id | id in s.subs :: s.subs[id].id == id) && Enabled(s, a)
    ensures forall id | id in Apply(max, s, a).subs :: Apply(max, s, a).subs[id].id == id
  {
  }

  lemma StepFans(max: int, s: System, a: Action)
    requires FansFaithful(s) && Enabled(s, a)
    ensures FansFaithful(Apply(max, s, a))
  {
    var t := Apply(max, s, a);
    StepGrows(max, s, a);
    SubsStep(max, s, a);
    forall e | e in t.fans
      ensures FanOk(t, e, t.fans[e])
    {
      FanStep(max, s, a, e);
    }
  }

  lemma StepFaithful(max: int, s: System, a: Action)
    requires Faithful(s) && Enabled(s, a)
    ensures Faithful(Apply(max, s, a))
  {
    StepJobs(max, s, a);
    StepLog(max, s, a);
    StepFans(max, s, a);
  }

  lemma {:induction false} RunFaithful(max: int, s: System, acts: seq<Action>, t: System)
    requires Faithful(s) && Runs(max, s, acts, t)
    ensures Faithful(t)
    decreases |acts|
  {
    if acts != [] {
      StepFaithful(max, s, acts[0]);
      RunFaithful(max, Apply(max, s, acts[0]), acts[1..], t);
    }
  }

  /** Over any run, jobs queued or in flight and attempts made for the same event all carry the payload and
      type it was published with, however often it was redriven and whichever attempt a redrive
      picked; every attempt sits under the vhost of its subscription. */
  lemma OnePayloadPerEvent(max: int, acts: seq<Action>, t: System)
    requires Runs(max, Initial, acts, t)
    ensures forall id | id in t.queue.jobs :: Genuine(t, t.queue.jobs[id].body)
    ensures forall w | w in t.workers :: Genuine(t, t.workers[w].job.body)
    ensures forall k | 0 <= k < |t.made| :: var a := t.made[k].attempt;
      && a.subscription in t.subs && a.vhost == t.subs[a.subscription].vhost
      && a.eventId in t.events && t.events[a.eventId] == Event(a.vhost, a.eventType, a.payload)
  {
    RunFaithful(max, Initial, acts, t);
    forall k | 0 <= k < |t.made|
      ensures FromJob(t, t.made[k]) && Genuine(t, t.created[t.made[k].job])
    {
    }
  }
}
