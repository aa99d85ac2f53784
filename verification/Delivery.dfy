/** The outbound deliverer (internal/deliverer/deliverer.go) over a shared retry queue, as a state
    machine: any number of processes, each running any number of workers, interleaved step by step.
    Network outcomes, crashes, cancellation and queue errors are inputs of the steps. */
module Delivery {
  import opened RetryQueue
  import opened Text
  import Backoff
  import Tally

  datatype Mail = Mail(vhost: string, sender: string, recipient: string, bodyRef: string, correlationId: string)

  datatype Config = Config(maxAttempts: int, backoffBase: int, backoffMax: int, perDomain: int)

  /** A configuration after withDefaults. */
  type Tuned = c: Config | c.maxAttempts > 0 && c.backoffBase > 0 && c.backoffMax > 0 && c.perDomain > 0
    witness Config(1, 1, 1, 1)

  function WithDefaults(c: Config): Tuned {
    Config(if c.maxAttempts <= 0 then 8 else c.maxAttempts,
           if c.backoffBase <= 0 then Backoff.DEFAULT_BASE else c.backoffBase,
           if c.backoffMax <= 0 then Backoff.DEFAULT_MAX else c.backoffMax,
           if c.perDomain <= 0 then 5 else c.perDomain)
  }

  /** Only settings that are not positive are replaced, by the documented defaults. */
  lemma DefaultsWhereUnset(c: Config)
    ensures c.maxAttempts > 0 && c.backoffBase > 0 && c.backoffMax > 0 && c.perDomain > 0 ==> WithDefaults(c) == c
    ensures WithDefaults(WithDefaults(c)) == WithDefaults(c)
    ensures WithDefaults(Config(0, 0, 0, 0)) == Config(8, 30_000_000_000, 1_800_000_000_000, 5)
  {
  }

  /** The result of one delivery attempt. */
  datatype Outcome = Accepted | Failed(permanent: bool, cause: string)

  datatype Decision = Delivered | Bounced | Deferred

  /** What `handle` decides from an attempt's outcome and the attempts made before it. */
  function Decide(cfg: Tuned, attempts: int, outcome: Outcome): Decision {
    match outcome
    case Accepted => Delivered
    case Failed(permanent, _) => if permanent || attempts + 1 >= cfg.maxAttempts then Bounced else Deferred
  }

  /** One settled attempt: what came of it, what was decided, and when. `applied` is false when the queue update
      failed without taking effect; `handle` ignores that error. */
  datatype Entry = Entry(id: string, decision: Decision, attempt: int, delay: int, applied: bool, outcome: Outcome, at: int)

  datatype Phase = Waiting | Holding | Tried(outcome: Outcome) | Settled(entry: Entry) | Announced

  /** A goroutine with the job snapshot Dequeue gave it. */
  datatype Worker = Worker(process: nat, domain: string, job: Job<Mail>, phase: Phase)

  /** One counting semaphore: a destination domain within one process. */
  datatype Gate = Gate(process: nat, domain: string)

  function GateOf(w: Worker): Gate {
    Gate(w.process, w.domain)
  }

  /** `origin` (jobs as enqueued), `history` (settlements in queue order) and `announced` (fire* calls in
      the order made) record the run; the code keeps only the other three. */
  datatype System = System(
    queue: Queue<Mail>,
    workers: map<nat, Worker>,
    slots: map<Gate, nat>,
    origin: map<string, Job<Mail>>,
    history: seq<Entry>,
    announced: seq<Entry>)

  const Initial := System(Queue(map[], {}), map[], map[], map[], [], [])

  function Used(s: System, g: Gate): nat {
    if g in s.slots then s.slots[g] else 0
  }

  datatype Action =
    | Enqueue(job: Job<Mail>)
    | Claim(w: nat, process: nat, id: string, now: int, skipped: set<string>)   // rows others hold locked
    | LoseClaim(id: string, now: int, skipped: set<string>)                     // claimed, but Dequeue reports an error
    | Acquire(w: nat)
    | Cancel(w: nat)                         // context done while waiting for a slot
    | Attempt(w: nat, outcome: Outcome)
    | Settle(w: nat, now: int, delay: int, applied: bool)
    | Announce(w: nat)
    | Release(w: nat)
    | Crash(process: nat)

  function EntryFor(cfg: Tuned, job: Job<Mail>, outcome: Outcome, at: int, delay: int, applied: bool): Entry {
    var decision := Decide(cfg, job.attempts, outcome);
    Entry(job.id, decision, job.attempts + 1, if decision.Deferred? then delay else 0, applied, outcome, at)
  }

  ghost predicate Enabled(cfg: Tuned, s: System, a: Action) {
    match a
    case Enqueue(job) => job.id != "" && job.id !in s.origin
    case Claim(w, _, id, now, skipped) => w !in s.workers && s.queue.EarliestExcept(id, now, skipped)
    case LoseClaim(id, now, skipped) => s.queue.EarliestExcept(id, now, skipped)
    case Acquire(w) => w in s.workers && s.workers[w].phase.Waiting? && Used(s, GateOf(s.workers[w])) < cfg.perDomain
    case Cancel(w) => w in s.workers && s.workers[w].phase.Waiting?
    case Attempt(w, outcome) =>
      && w in s.workers && s.workers[w].phase.Holding?
      && (DestinationDomain(s.workers[w].job.body.recipient) == s.workers[w].job.body.recipient ==>
            outcome.Failed? && outcome.permanent)
    case Settle(w, now, delay, applied) =>
      && w in s.workers && s.workers[w].phase.Tried?
      && (applied ==> s.workers[w].job.id in s.queue.jobs)
      && Backoff.InRange(delay, s.workers[w].job.attempts, cfg.backoffBase, cfg.backoffMax)
    case Announce(w) => w in s.workers && s.workers[w].phase.Settled?
    case Release(w) => w in s.workers && s.workers[w].phase.Announced? && Used(s, GateOf(s.workers[w])) > 0
    case Crash(_) => true
  }

  /** The text of the error an attempt ended with. */
  function CauseOf(outcome: Outcome): string {
    if outcome.Failed? then outcome.cause else ""
  }

  function QueueAfter(q: Queue<Mail>, e: Entry): Queue<Mail>
    requires e.applied ==> e.id in q.jobs
  {
    if !e.applied then q
    else if e.decision.Deferred? then q.Reschedule(e.id, Some(CauseOf(e.outcome)), e.at + e.delay)
    else q.Remove(e.id)
  }

  ghost function Apply(cfg: Tuned, s: System, a: Action): System
    requires Enabled(cfg, s, a)
  {
    match a
    case Enqueue(job) => s.(queue := s.queue.Put(job), origin := s.origin[job.id := job])
    case Claim(w, p, id, _, _) =>
      s.(queue := s.queue.Claim(id), workers := s.workers[w := Worker(p, DestinationDomain(s.queue.jobs[id].body.recipient), s.queue.jobs[id], Waiting)])
    case LoseClaim(id, _, _) => s.(queue := s.queue.Claim(id))
    case Acquire(w) =>
      var g := GateOf(s.workers[w]);
      s.(workers := s.workers[w := s.workers[w].(phase := Holding)], slots := s.slots[g := Used(s, g) + 1])
    case Cancel(w) => s.(workers := s.workers - {w})
    case Attempt(w, outcome) => s.(workers := s.workers[w := s.workers[w].(phase := Tried(outcome))])
    case Settle(w, now, delay, applied) =>
      var worker := s.workers[w];
      var e := EntryFor(cfg, worker.job, worker.phase.outcome, now, delay, applied);
      s.(queue := QueueAfter(s.queue, e),
         workers := s.workers[w := worker.(phase := Settled(e))],
         history := s.history + [e])
    case Announce(w) =>
      s.(workers := s.workers[w := s.workers[w].(phase := Announced)],
         announced := s.announced + [s.workers[w].phase.entry])
    case Release(w) =>
      var g := GateOf(s.workers[w]);
      s.(workers := s.workers - {w}, slots := s.slots[g := Used(s, g) - 1])
    case Crash(p) =>
      s.(workers := map w | w in s.workers && s.workers[w].process != p :: s.workers[w],
         slots := map g | g in s.slots && g.process != p :: s.slots[g])
  }

  /** `acts` is a run from `s` to `t`. */
  ghost predicate Runs(cfg: Tuned, s: System, acts: seq<Action>, t: System)
    decreases |acts|
  {
    if acts == [] then t == s
    else Enabled(cfg, s, acts[0]) && Runs(cfg, Apply(cfg, s, acts[0]), acts[1..], t)
  }

  lemma {:induction false} Extend(cfg: Tuned, s: System, acts: seq<Action>, t: System, a: Action)
    requires Runs(cfg, s, acts, t) && Enabled(cfg, t, a)
    ensures Runs(cfg, s, acts + [a], Apply(cfg, t, a))
    decreases |acts|
  {
    if acts == [] {
      assert acts + [a] == [a];
      assert [a][1..] == [];
    } else {
      assert (acts + [a])[0] == acts[0] && (acts + [a])[1..] == acts[1..] + [a];
      Extend(cfg, Apply(cfg, s, acts[0]), acts[1..], t, a);
    }
  }

  // ---------- the history of one job ----------

  /** The settlements of job `id`, oldest first. */
  function HistoryOf(log: seq<Entry>, id: string): seq<Entry> {
    if log == [] then []
    else
      var e := log[|log| - 1];
      HistoryOf(log[..|log| - 1], id) + if e.id == id then [e] else []
  }

  lemma HistoryAppend(log: seq<Entry>, e: Entry, id: string)
    ensures HistoryOf(log + [e], id) == if e.id == id then HistoryOf(log, id) + [e] else HistoryOf(log, id)
  {
    assert (log + [e])[..|log|] == log;
  }

  /** The last settlement removed the job from the queue. */
  predicate Closed(h: seq<Entry>) {
    h != [] && h[|h| - 1].applied && !h[|h| - 1].decision.Deferred?
  }

  /** The last settlement's queue update was lost. */
  predicate Stuck(h: seq<Entry>) {
    h != [] && !h[|h| - 1].applied
  }

  /** The last settlement was final, whether or not the queue heard of it. */
  predicate Final(h: seq<Entry>) {
    h != [] && !h[|h| - 1].decision.Deferred?
  }

  function Retries(h: seq<Entry>): int {
    if Stuck(h) then |h| - 1 else |h|
  }

  // ---------- the invariant ----------

  predicate Active(p: Phase) {
    p.Waiting? || p.Holding? || p.Tried?
  }

  /** Worker `w` is responsible for job `id`. */
  ghost predicate Owns(s: System, w: nat, id: string) {
    w in s.workers && Active(s.workers[w].phase) && s.workers[w].job.id == id
  }

  ghost predicate Ownership(s: System) {
    && s.queue.Valid()
    && (forall w, id | Owns(s, w, id) :: id in s.queue.claimed && id in s.queue.jobs && s.queue.jobs[id] == s.workers[w].job)
    && (forall v, w, id | Owns(s, v, id) && Owns(s, w, id) :: v == w)
  }

  /** Accepted mail is delivered; a temporary failure is deferred while attempts are left; a permanent one, or
      the last attempt allowed, bounces. */
  predicate Justified(cfg: Tuned, e: Entry) {
    && (e.decision.Delivered? <==> e.outcome.Accepted?)
    && (e.decision.Deferred? <==> e.outcome.Failed? && !e.outcome.permanent && e.attempt < cfg.maxAttempts)
    && (e.decision.Bounced? <==> e.outcome.Failed? && (e.outcome.permanent || e.attempt >= cfg.maxAttempts))
  }

  /** `h` is a possible history of a job enqueued with `base` attempts: consecutively numbered, every
      decision justified by its outcome, every entry but the last an applied deferral, and deferrals with a
      delay FullJitter can draw. */
  ghost predicate WellFormed(cfg: Tuned, h: seq<Entry>, id: string, base: int) {
    && (forall j | 0 <= j < |h| :: h[j].id == id && h[j].attempt == base + j + 1)
    && (forall j | 0 <= j < |h| :: Justified(cfg, h[j]))
    && (forall j | 0 <= j < |h| && h[j].decision.Deferred? ::
          Backoff.InRange(h[j].delay, h[j].attempt - 1, cfg.backoffBase, cfg.backoffMax))
    && (forall j | 0 <= j < |h| - 1 :: h[j].decision.Deferred? && h[j].applied)
  }

  /** The stored job is the one enqueued, as the last applied deferral of its history left it. */
  predicate StoredAs(job: Job<Mail>, origin: Job<Mail>, h: seq<Entry>) {
    var n := Retries(h);
    && job.id == origin.id && job.body == origin.body && job.attempts == origin.attempts + n
    && (if n <= 0 then job.nextAttemptAt == origin.nextAttemptAt && job.lastError == origin.lastError
        else job.nextAttemptAt == h[n - 1].at + h[n - 1].delay && job.lastError == CauseOf(h[n - 1].outcome))
  }

  /** What the recorded history of one enqueued job says about its stored state. */
  ghost predicate Ledger(cfg: Tuned, s: System, id: string)
    requires id in s.origin
  {
    var h := HistoryOf(s.history, id);
    && WellFormed(cfg, h, id, s.origin[id].attempts)
    && (id in s.queue.jobs <==> !Closed(h))
    && (id in s.queue.jobs ==> StoredAs(s.queue.jobs[id], s.origin[id], h))
    && (Stuck(h) ==> Stranded(s, id))
  }

  /** Claimed, with nobody left to complete or fail it. */
  ghost predicate Stranded(s: System, id: string) {
    id in s.queue.claimed && forall w :: !Owns(s, w, id)
  }

  ghost predicate Ledgers(cfg: Tuned, s: System) {
    && s.queue.jobs.Keys <= s.origin.Keys
    && (forall id | id !in s.origin :: HistoryOf(s.history, id) == [])
    && (forall id | id in s.origin :: Ledger(cfg, s, id))
  }

  function FinalCount(log: seq<Entry>): nat {
    if log == [] then 0
    else
      var e := log[|log| - 1];
      FinalCount(log[..|log| - 1]) + if e.applied && !e.decision.Deferred? then 1 else 0
  }

  /** Every enqueued job is either still counted or has been settled for good. */
  ghost predicate Conserved(s: System) {
    |s.queue.jobs| + FinalCount(s.history) == |s.origin|
  }

  ghost predicate Owes(s: System, w: nat, e: Entry) {
    w in s.workers && s.workers[w].phase == Settled(e)
  }

  /** At most one final announcement per job exists or is owed. */
  ghost predicate Announcements(s: System) {
    && (forall i, j | 0 <= i < j < |s.announced| && s.announced[i].id == s.announced[j].id ::
          s.announced[i].decision.Deferred? || s.announced[j].decision.Deferred?)
    && (forall i, w, e | 0 <= i < |s.announced| && Owes(s, w, e) && s.announced[i].id == e.id ::
          s.announced[i].decision.Deferred? || e.decision.Deferred?)
    && (forall v, w, d, e | Owes(s, v, d) && Owes(s, w, e) && v != w && d.id == e.id ::
          d.decision.Deferred? || e.decision.Deferred?)
    && FinalsAreFinal(s)
  }

  /** A final announcement, made or owed, is the last settlement of its job. */
  ghost predicate FinalsAreFinal(s: System) {
    && (forall i | 0 <= i < |s.announced| && !s.announced[i].decision.Deferred? :: Final(HistoryOf(s.history, s.announced[i].id)))
    && (forall w, e | Owes(s, w, e) && !e.decision.Deferred? :: Final(HistoryOf(s.history, e.id)))
  }

  ghost function Holders(s: System, g: Gate): set<nat> {
    set w | w in s.workers && !s.workers[w].phase.Waiting? && GateOf(s.workers[w]) == g
  }

  /** Each semaphore counts exactly the workers holding it, and respects the limit. */
  ghost predicate SlotsAgree(cfg: Tuned, s: System) {
    forall g: Gate :: Used(s, g) == |Holders(s, g)| && Used(s, g) <= cfg.perDomain
  }

  ghost predicate Inv(cfg: Tuned, s: System) {
    Ownership(s) && Ledgers(cfg, s) && Conserved(s) && Announcements(s) && SlotsAgree(cfg, s)
  }

  lemma InitialInv(cfg: Tuned)
    ensures Inv(cfg, Initial)
  {
  }

  lemma SettleOwnership(cfg: Tuned, s: System, a: Action)
    requires Ownership(s) && a.Settle? && Enabled(cfg, s, a)
    ensures Ownership(Apply(cfg, s, a))
  {
    var t := Apply(cfg, s, a);
    assert Owns(s, a.w, s.workers[a.w].job.id);
    assert forall v, k | Owns(t, v, k) :: v != a.w && Owns(s, v, k);
  }

  lemma ClaimOwnership(cfg: Tuned, s: System, a: Action)
    requires Ownership(s) && a.Claim? && Enabled(cfg, s, a)
    ensures Ownership(Apply(cfg, s, a))
  {
    var t := Apply(cfg, s, a);
    assert forall v, k | v != a.w && Owns(t, v, k) :: Owns(s, v, k);
  }

  lemma StepOwnership(cfg: Tuned, s: System, a: Action)
    requires Ownership(s) && s.queue.jobs.Keys <= s.origin.Keys && Enabled(cfg, s, a)
    ensures Ownership(Apply(cfg, s, a))
  {
    if a.Settle? {
      SettleOwnership(cfg, s, a);
    } else if a.Claim? {
      ClaimOwnership(cfg, s, a);
    } else {
      var t := Apply(cfg, s, a);
      assert forall v, k | Owns(t, v, k) :: Owns(s, v, k);
    }
  }

  lemma WellFormedAppend(cfg: Tuned, h: seq<Entry>, job: Job<Mail>, outcome: Outcome, at: int, delay: int, applied: bool, base: int)
    requires WellFormed(cfg, h, job.id, base) && job.attempts == base + |h|
    requires h != [] ==> h[|h| - 1].decision.Deferred? && h[|h| - 1].applied
    requires Backoff.InRange(delay, job.attempts, cfg.backoffBase, cfg.backoffMax)
    ensures WellFormed(cfg, h + [EntryFor(cfg, job, outcome, at, delay, applied)], job.id, base)
  {
  }

  /** The settling worker's job has only applied deferrals behind it. */
  lemma OwnedHistory(cfg: Tuned, s: System, w: nat, id: string)
    requires Ownership(s) && Ledgers(cfg, s) && Owns(s, w, id)
    ensures id in s.origin && WellFormed(cfg, HistoryOf(s.history, id), id, s.origin[id].attempts)
    ensures var h := HistoryOf(s.history, id); h != [] ==> h[|h| - 1].decision.Deferred? && h[|h| - 1].applied
    ensures s.workers[w].job.attempts == s.origin[id].attempts + |HistoryOf(s.history, id)|
    ensures s.workers[w].job.body == s.origin[id].body
  {
    assert id in s.origin && Ledger(cfg, s, id);
    OwnedLedger(cfg, s, w, id);
  }

  lemma OwnedLedger(cfg: Tuned, s: System, w: nat, id: string)
    requires id in s.origin && Ledger(cfg, s, id) && Owns(s, w, id) && id in s.queue.jobs && s.queue.jobs[id] == s.workers[w].job
    ensures var h := HistoryOf(s.history, id); h != [] ==> h[|h| - 1].decision.Deferred? && h[|h| - 1].applied
    ensures s.workers[w].job.attempts == s.origin[id].attempts + |HistoryOf(s.history, id)|
    ensures s.workers[w].job.body == s.origin[id].body
  {
    assert !Stuck(HistoryOf(s.history, id)) && !Closed(HistoryOf(s.history, id));
  }

  lemma QueueAfterStores(q: Queue<Mail>, e: Entry, origin: Job<Mail>, h: seq<Entry>)
    requires e.id in q.jobs && StoredAs(q.jobs[e.id], origin, h) && !Stuck(h)
    ensures var r := QueueAfter(q, e);
      && (e.id in r.jobs <==> !Closed(h + [e]))
      && (e.id in r.jobs ==> StoredAs(r.jobs[e.id], origin, h + [e]))
      && (!e.applied ==> r == q)
  {
  }

  /** The step from `s` to `t` records `e` for worker `w`. */
  ghost predicate Settles(cfg: Tuned, s: System, t: System, w: nat, e: Entry, delay: int) {
    && w in s.workers && s.workers[w].phase.Tried?
    && e == EntryFor(cfg, s.workers[w].job, s.workers[w].phase.outcome, e.at, delay, e.applied)
    && Backoff.InRange(delay, s.workers[w].job.attempts, cfg.backoffBase, cfg.backoffMax)
    && t.history == s.history + [e] && t.origin == s.origin && t.announced == s.announced
    && t.workers == s.workers[w := s.workers[w].(phase := Settled(e))]
  }

  ghost predicate SettlesInQueue(s: System, t: System, e: Entry) {
    (e.applied ==> e.id in s.queue.jobs) && t.queue == QueueAfter(s.queue, e)
  }

  lemma SettleIs(cfg: Tuned, s: System, a: Action) returns (t: System, e: Entry)
    requires a.Settle? && Enabled(cfg, s, a)
    ensures t == Apply(cfg, s, a) && Settles(cfg, s, t, a.w, e, a.delay) && SettlesInQueue(s, t, e)
    ensures e.id == s.workers[a.w].job.id && e.applied == a.applied && e.at == a.now
  {
    t := Apply(cfg, s, a);
    e := EntryFor(cfg, s.workers[a.w].job, s.workers[a.w].phase.outcome, a.now, a.delay, a.applied);
  }

  lemma SettledOwners(cfg: Tuned, s: System, t: System, w: nat, e: Entry, delay: int)
    requires Settles(cfg, s, t, w, e, delay) && Ownership(s)
    ensures Owns(s, w, e.id) && e.id in s.queue.claimed && e.id in s.queue.jobs && s.queue.jobs[e.id] == s.workers[w].job
    ensures forall v, k | Owns(t, v, k) :: k != e.id && Owns(s, v, k)
  {
    assert Owns(s, w, e.id);
    assert forall v, k | Owns(t, v, k) :: v != w && Owns(s, v, k);
  }

  lemma SettledHistory(cfg: Tuned, s: System, t: System, w: nat, e: Entry, delay: int)
    requires Settles(cfg, s, t, w, e, delay) && Ownership(s) && Ledgers(cfg, s)
    ensures e.id in s.origin && HistoryOf(t.history, e.id) == HistoryOf(s.history, e.id) + [e]
    ensures WellFormed(cfg, HistoryOf(t.history, e.id), e.id, s.origin[e.id].attempts)
    ensures s.workers[w].job.attempts == s.origin[e.id].attempts + |HistoryOf(s.history, e.id)|
    ensures s.workers[w].job.body == s.origin[e.id].body
  {
    var job, outcome := s.workers[w].job, s.workers[w].phase.outcome;
    assert Owns(s, w, e.id);
    OwnedHistory(cfg, s, w, e.id);
    HistoryAppend(s.history, e, e.id);
    WellFormedAppend(cfg, HistoryOf(s.history, e.id), job, outcome, e.at, delay, e.applied, s.origin[e.id].attempts);
  }

  /** Settling extends the history of the settled job by one entry that fits its ledger... */
  lemma SettledLedger(cfg: Tuned, s: System, t: System, w: nat, e: Entry, delay: int)
    requires Settles(cfg, s, t, w, e, delay) && SettlesInQueue(s, t, e) && Ownership(s) && Ledgers(cfg, s)
    ensures e.id in t.origin && Ledger(cfg, t, e.id)
  {
    SettledOwners(cfg, s, t, w, e, delay);
    SettledHistory(cfg, s, t, w, e, delay);
    assert Ledger(cfg, s, e.id);
    QueueAfterStores(s.queue, e, s.origin[e.id], HistoryOf(s.history, e.id));
  }

  /** ... and leaves every other ledger alone. */
  lemma OtherSettledLedger(cfg: Tuned, s: System, t: System, w: nat, e: Entry, delay: int, id: string)
    requires Settles(cfg, s, t, w, e, delay) && SettlesInQueue(s, t, e) && Ownership(s) && Ledgers(cfg, s)
    requires id in s.origin && id != e.id
    ensures Ledger(cfg, t, id)
  {
    HistoryAppend(s.history, e, id);
    assert Ledger(cfg, s, id);
    SettledOwners(cfg, s, t, w, e, delay);
  }

  lemma SettleLedgers(cfg: Tuned, s: System, a: Action)
    requires Ownership(s) && Ledgers(cfg, s) && a.Settle? && Enabled(cfg, s, a)
    ensures Ledgers(cfg, Apply(cfg, s, a))
  {
    var t, e := SettleIs(cfg, s, a);
    SettledLedger(cfg, s, t, a.w, e, a.delay);
    forall id | id in t.origin && id != e.id
      ensures Ledger(cfg, t, id)
    {
      OtherSettledLedger(cfg, s, t, a.w, e, a.delay, id);
    }
    forall id | id !in t.origin
      ensures HistoryOf(t.history, id) == []
    {
      HistoryAppend(s.history, e, id);
    }
  }

  /** A step that neither settles nor touches the job leaves its ledger as it was. */
  lemma SameLedger(cfg: Tuned, s: System, t: System, id: string)
    requires id in s.origin && id in t.origin && t.origin[id] == s.origin[id] && t.history == s.history
    requires id in t.queue.jobs <==> id in s.queue.jobs
    requires id in s.queue.jobs ==> t.queue.jobs[id] == s.queue.jobs[id]
    requires Stranded(s, id) ==> Stranded(t, id)
    requires Ledger(cfg, s, id)
    ensures Ledger(cfg, t, id)
  {
  }

  lemma OtherLedger(cfg: Tuned, s: System, a: Action, id: string)
    requires Ownership(s) && Ledgers(cfg, s) && !a.Settle? && Enabled(cfg, s, a) && id in Apply(cfg, s, a).origin
    ensures Ledger(cfg, Apply(cfg, s, a), id)
  {
    var t := Apply(cfg, s, a);
    assert t.history == s.history;
    if id in s.origin {
      if Stranded(s, id) {
        StrandedStays(cfg, s, a, id);
      }
      assert Ledger(cfg, s, id);
      SameLedger(cfg, s, t, id);
    }
  }

  lemma StrandedStays(cfg: Tuned, s: System, a: Action, id: string)
    requires s.queue.Valid() && Stranded(s, id) && id in s.origin && !a.Settle? && Enabled(cfg, s, a)
    ensures Stranded(Apply(cfg, s, a), id)
  {
    var t := Apply(cfg, s, a);
    forall v
      ensures !Owns(t, v, id)
    {
      assert !Owns(s, v, id);
    }
  }

  lemma StepLedgers(cfg: Tuned, s: System, a: Action)
    requires Ownership(s) && Ledgers(cfg, s) && Enabled(cfg, s, a)
    ensures Ledgers(cfg, Apply(cfg, s, a))
  {
    if a.Settle? {
      SettleLedgers(cfg, s, a);
    } else {
      var t := Apply(cfg, s, a);
      forall id | id in t.origin
        ensures Ledger(cfg, t, id)
      {
        OtherLedger(cfg, s, a, id);
      }
    }
  }

  lemma StepConserved(cfg: Tuned, s: System, a: Action)
    requires Ownership(s) && s.queue.jobs.Keys <= s.origin.Keys && Conserved(s) && Enabled(cfg, s, a)
    ensures Conserved(Apply(cfg, s, a))
  {
    var t := Apply(cfg, s, a);
    match a
    case Settle(w, _, _, _) =>
      assert t.history[..|s.history|] == s.history;
      assert Owns(s, w, s.workers[w].job.id);
    case Enqueue(job) =>
      assert job.id !in s.queue.jobs;
    case _ =>
  }

  lemma FinalStays(log: seq<Entry>, e: Entry, id: string)
    requires id == e.id ==> !e.decision.Deferred?
    ensures Final(HistoryOf(log, id)) || id == e.id ==> Final(HistoryOf(log + [e], id))
  {
    HistoryAppend(log, e, id);
  }

  lemma SettleKeepsFinals(cfg: Tuned, s: System, t: System, w: nat, e: Entry, delay: int)
    requires Settles(cfg, s, t, w, e, delay) && FinalsAreFinal(s) && !Final(HistoryOf(s.history, e.id))
    ensures FinalsAreFinal(t)
  {
    forall id | id == e.id ==> !e.decision.Deferred?
      ensures Final(HistoryOf(s.history, id)) || id == e.id ==> Final(HistoryOf(t.history, id))
    {
      FinalStays(s.history, e, id);
    }
    assert forall v, d | Owes(t, v, d) :: if v == w then d == e else Owes(s, v, d);
  }

  lemma SettleAnnouncements(cfg: Tuned, s: System, t: System, w: nat, e: Entry, delay: int)
    requires Settles(cfg, s, t, w, e, delay) && Ownership(s) && Ledgers(cfg, s) && Announcements(s)
    ensures Announcements(t)
  {
    assert !Final(HistoryOf(s.history, e.id)) by {
      assert Owns(s, w, e.id);
      OwnedHistory(cfg, s, w, e.id);
    }
    SettleKeepsFinals(cfg, s, t, w, e, delay);
    assert forall v, d | Owes(t, v, d) :: if v == w then d == e else Owes(s, v, d);
  }

  lemma AnnounceAnnouncements(cfg: Tuned, s: System, a: Action)
    requires Announcements(s) && a.Announce? && Enabled(cfg, s, a)
    ensures Announcements(Apply(cfg, s, a))
  {
    var t := Apply(cfg, s, a);
    assert Owes(s, a.w, s.workers[a.w].phase.entry);
    assert forall v, e | Owes(t, v, e) :: v != a.w && Owes(s, v, e);
  }

  lemma OtherAnnouncements(cfg: Tuned, s: System, a: Action)
    requires Announcements(s) && !a.Announce? && !a.Settle? && Enabled(cfg, s, a)
    ensures Announcements(Apply(cfg, s, a))
  {
    var t := Apply(cfg, s, a);
    assert t.history == s.history && t.announced == s.announced;
    assert forall v, e | Owes(t, v, e) :: Owes(s, v, e);
  }

  lemma StepAnnouncements(cfg: Tuned, s: System, a: Action)
    requires Ownership(s) && Ledgers(cfg, s) && Announcements(s) && Enabled(cfg, s, a)
    ensures Announcements(Apply(cfg, s, a))
  {
    if a.Settle? {
      var t, e := SettleIs(cfg, s, a);
      SettleAnnouncements(cfg, s, t, a.w, e, a.delay);
    } else if a.Announce? {
      AnnounceAnnouncements(cfg, s, a);
    } else {
      OtherAnnouncements(cfg, s, a);
    }
  }

  lemma SlotTaken(cfg: Tuned, s: System, a: Action, g: Gate)
    requires SlotsAgree(cfg, s) && a.Acquire? && Enabled(cfg, s, a)
    ensures Used(Apply(cfg, s, a), g) == |Holders(Apply(cfg, s, a), g)| <= cfg.perDomain
  {
    var t := Apply(cfg, s, a);
    assert Used(s, g) == |Holders(s, g)|;
    if GateOf(s.workers[a.w]) == g {
      assert Used(t, g) == Used(s, g) + 1;
      assert a.w !in Holders(s, g);
      assert Holders(t, g) == Holders(s, g) + {a.w};
      assert |Holders(t, g)| == |Holders(s, g)| + 1;
    } else {
      assert Holders(t, g) == Holders(s, g);
    }
  }

  lemma SlotFreed(cfg: Tuned, s: System, a: Action, g: Gate)
    requires SlotsAgree(cfg, s) && a.Release? && Enabled(cfg, s, a)
    ensures Used(Apply(cfg, s, a), g) == |Holders(Apply(cfg, s, a), g)| <= cfg.perDomain
  {
    assert Used(s, g) == |Holders(s, g)|;
    var removed := if GateOf(s.workers[a.w]) == g then {a.w} else {};
    assert Holders(Apply(cfg, s, a), g) == Holders(s, g) - removed;
  }

  lemma SlotKept(cfg: Tuned, s: System, a: Action, g: Gate)
    requires SlotsAgree(cfg, s) && !a.Acquire? && !a.Release? && Enabled(cfg, s, a)
    ensures Used(Apply(cfg, s, a), g) == |Holders(Apply(cfg, s, a), g)| <= cfg.perDomain
  {
    assert Used(s, g) == |Holders(s, g)|;
    var gone := a.Crash? && a.process == g.process;
    assert Holders(Apply(cfg, s, a), g) == if gone then {} else Holders(s, g);
  }

  lemma StepSlots(cfg: Tuned, s: System, a: Action)
    requires SlotsAgree(cfg, s) && Enabled(cfg, s, a)
    ensures SlotsAgree(cfg, Apply(cfg, s, a))
  {
    forall g: Gate
      ensures Used(Apply(cfg, s, a), g) == |Holders(Apply(cfg, s, a), g)| && Used(Apply(cfg, s, a), g) <= cfg.perDomain
    {
      if a.Acquire? {
        SlotTaken(cfg, s, a, g);
      } else if a.Release? {
        SlotFreed(cfg, s, a, g);
      } else {
        SlotKept(cfg, s, a, g);
      }
    }
  }

  lemma StepInv(cfg: Tuned, s: System, a: Action)
    requires Inv(cfg, s) && Enabled(cfg, s, a)
    ensures Inv(cfg, Apply(cfg, s, a))
  {
    StepOwnership(cfg, s, a);
    StepLedgers(cfg, s, a);
    StepConserved(cfg, s, a);
    StepAnnouncements(cfg, s, a);
    StepSlots(cfg, s, a);
  }

  lemma {:induction false} RunKeepsInv(cfg: Tuned, s: System, acts: seq<Action>, t: System)
    requires Inv(cfg, s) && Runs(cfg, s, acts, t)
    ensures Inv(cfg, t)
    decreases |acts|
  {
    if acts != [] {
      StepInv(cfg, s, acts[0]);
      RunKeepsInv(cfg, Apply(cfg, s, acts[0]), acts[1..], t);
    }
  }

  // ---------- safety of every run ----------

  /** No two workers of any processes are ever responsible for the same job. */
  lemma ClaimedOnce(cfg: Tuned, acts: seq<Action>, t: System, v: nat, w: nat, id: string)
    requires Runs(cfg, Initial, acts, t) && Owns(t, v, id) && Owns(t, w, id)
    ensures v == w && id in t.queue.claimed && id in t.queue.jobs && t.queue.jobs[id] == t.workers[w].job
  {
    InitialInv(cfg);
    RunKeepsInv(cfg, Initial, acts, t);
  }

  /** A job is announced as delivered or bounced at most once, whatever faults occur. */
  lemma OneFinalAnnouncement(cfg: Tuned, acts: seq<Action>, t: System, i: nat, j: nat)
    requires Runs(cfg, Initial, acts, t) && i < |t.announced| && j < |t.announced|
    requires t.announced[i].id == t.announced[j].id
    requires !t.announced[i].decision.Deferred? && !t.announced[j].decision.Deferred?
    ensures i == j
  {
    InitialInv(cfg);
    RunKeepsInv(cfg, Initial, acts, t);
  }

  function Max(a: int, b: int): int {
    if a < b then b else a
  }

  /** The settlements of a job are applied deferrals numbered consecutively, then at most one entry of any
      kind; the stored attempt count is the number of applied deferrals; the attempt limit bounds them. */
  lemma JobHistory(cfg: Tuned, acts: seq<Action>, t: System, id: string)
    requires Runs(cfg, Initial, acts, t) && id in t.origin
    ensures var h := HistoryOf(t.history, id);
      && WellFormed(cfg, h, id, t.origin[id].attempts)
      && |h| <= Max(1, cfg.maxAttempts - t.origin[id].attempts)
      && (id in t.queue.jobs <==> !Closed(h))
      && (id in t.queue.jobs ==> StoredAs(t.queue.jobs[id], t.origin[id], h))
  {
    InitialInv(cfg);
    RunKeepsInv(cfg, Initial, acts, t);
    HistoryBound(cfg, t, id);
  }

  lemma HistoryBound(cfg: Tuned, s: System, id: string)
    requires Ledgers(cfg, s) && id in s.origin
    ensures |HistoryOf(s.history, id)| <= Max(1, cfg.maxAttempts - s.origin[id].attempts)
  {
    var h := HistoryOf(s.history, id);
    assert Ledger(cfg, s, id);
    if |h| >= 2 {
      assert h[|h| - 2].decision.Deferred? && h[|h| - 2].attempt < cfg.maxAttempts;
    }
  }

  /** The queue depth is the number of jobs enqueued minus those settled for good: exact in every state
      of every run, faults included. */
  lemma DepthExact(cfg: Tuned, acts: seq<Action>, t: System)
    requires Runs(cfg, Initial, acts, t)
    ensures |t.queue.jobs| == |t.origin| - FinalCount(t.history)
  {
    InitialInv(cfg);
    RunKeepsInv(cfg, Initial, acts, t);
  }

  /** A waiting worker gets a slot exactly when fewer than the limit hold its own domain in its own
      process; other domains never matter. */
  lemma SlotAvailable(cfg: Tuned, acts: seq<Action>, t: System, w: nat)
    requires Runs(cfg, Initial, acts, t) && w in t.workers && t.workers[w].phase.Waiting?
    ensures Enabled(cfg, t, Acquire(w)) <==> |Serving(t, t.workers[w].process, t.workers[w].domain)| < cfg.perDomain
    ensures forall process, domain :: |Serving(t, process, domain)| <= cfg.perDomain
  {
    InitialInv(cfg);
    RunKeepsInv(cfg, Initial, acts, t);
    forall process, domain
      ensures |Serving(t, process, domain)| == Used(t, Gate(process, domain)) <= cfg.perDomain
    {
      assert Serving(t, process, domain) == Holders(t, Gate(process, domain));
    }
  }

  /** The workers past the semaphore in one process with one domain. */
  ghost function Serving(s: System, process: nat, domain: string): set<nat> {
    set w | w in s.workers && !s.workers[w].phase.Waiting? && s.workers[w].process == process && s.workers[w].domain == domain
  }

  // ---------- the number of attempts ----------

  ghost function Bag(log: seq<Entry>): multiset<string> {
    if log == [] then multiset{} else Bag(log[..|log| - 1]) + multiset{log[|log| - 1].id}
  }

  lemma {:induction false} BagCounts(log: seq<Entry>, id: string)
    ensures |Bag(log)| == |log| && Bag(log)[id] == |HistoryOf(log, id)|
  {
    if log != [] {
      BagCounts(log[..|log| - 1], id);
    }
  }

  ghost function Busy(s: System): set<nat> {
    set w | w in s.workers && Active(s.workers[w].phase)
  }

  ghost function Owned(s: System, ws: set<nat>): set<string>
    requires ws <= s.workers.Keys
  {
    set w | w in ws :: s.workers[w].job.id
  }

  lemma {:induction false} OwnedSize(s: System, ws: set<nat>)
    requires Ownership(s) && ws <= Busy(s)
    ensures |Owned(s, ws)| == |ws|
    decreases |ws|
  {
    if ws != {} {
      var w :| w in ws;
      var rest := ws - {w};
      var id := s.workers[w].job.id;
      OwnedSize(s, rest);
      assert Owned(s, ws) == Owned(s, rest) + {id};
      assert id !in Owned(s, rest) by {
        if v :| v in rest && s.workers[v].job.id == id {
          assert Owns(s, v, id) && Owns(s, w, id);
        }
      }
    }
  }

  lemma OwnerHasAttempt(cfg: Tuned, s: System, w: nat, id: string)
    requires Ownership(s) && Ledgers(cfg, s) && Owns(s, w, id) && (id in s.origin ==> s.origin[id].attempts >= 0)
    ensures |HistoryOf(s.history, id)| < cfg.maxAttempts
  {
    OwnedHistory(cfg, s, w, id);
    var h := HistoryOf(s.history, id);
    if h != [] {
      assert Justified(cfg, h[|h| - 1]);
    }
  }

  /** Settled and running attempts together never exceed `maxAttempts` per job. */
  lemma AttemptBudget(cfg: Tuned, s: System)
    requires Inv(cfg, s)
    requires forall id | id in s.origin :: s.origin[id].attempts >= 0
    ensures |s.history| + |Busy(s)| <= |s.origin| * cfg.maxAttempts
  {
    var owned := Owned(s, Busy(s));
    var bag := Bag(s.history) + multiset(owned);
    OwnedSize(s, Busy(s));
    BagCounts(s.history, "");
    forall id
      ensures id in bag ==> id in s.origin.Keys
      ensures id in s.origin.Keys ==> bag[id] <= cfg.maxAttempts
    {
      JobBudget(cfg, s, id);
    }
    Tally.BagBound(bag, s.origin.Keys, cfg.maxAttempts);
  }

  lemma JobBudget(cfg: Tuned, s: System, id: string)
    requires Ownership(s) && Ledgers(cfg, s) && forall k | k in s.origin :: s.origin[k].attempts >= 0
    ensures var bag := Bag(s.history) + multiset(Owned(s, Busy(s)));
      (id in bag ==> id in s.origin) && (id in s.origin ==> bag[id] <= cfg.maxAttempts)
  {
    BagCounts(s.history, id);
    if id in Owned(s, Busy(s)) {
      var w :| w in Busy(s) && s.workers[w].job.id == id;
      assert Owns(s, w, id);
      OwnerHasAttempt(cfg, s, w, id);
    } else if id in s.origin {
      HistoryBound(cfg, s, id);
    }
  }
}
