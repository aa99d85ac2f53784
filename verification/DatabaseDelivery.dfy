/** The deliverer over the database queue: workers interleave with the lock, mark and commit steps of claim
    transactions on the shared table. Every such run is a run of the delivery machine whose queue is the committed
    table, so what holds of all delivery runs holds here. */
module DatabaseDelivery {
  import opened RetryQueue
  import opened Text
  import opened Delivery
  import CT = ClaimTransaction
  import Backoff

  /** `rest` is the deliverer's state apart from the queue; its own queue field is not used. */
  datatype Combined = Combined(table: CT.Table<Mail>, rest: System)

  datatype Step =
    | Insert(job: Job<Mail>)
    | Transaction(step: CT.Step<Mail>)                    // lock, mark or abort
    | Commit(tx: nat, w: nat, process: nat)               // Dequeue hands the job to a new worker
    | CommitLost(tx: nat)                                 // the commit takes effect but Dequeue reports an error
    | Settle(w: nat, now: int, delay: int, applied: bool)
    | Local(action: Action)                               // a step that leaves the table alone

  predicate IsLocal(a: Action) {
    a.Acquire? || a.Cancel? || a.Attempt? || a.Announce? || a.Release? || a.Crash?
  }

  /** Complete or Fail, as `handle` calls them for the entry. */
  function Update(e: Entry): CT.Step<Mail> {
    if e.decision.Deferred? then CT.Fail(e.id, Some(CauseOf(e.outcome)), e.at + e.delay) else CT.Complete(e.id)
  }

  function EntryOf(cfg: Tuned, worker: Worker, now: int, delay: int, applied: bool): Entry
    requires worker.phase.Tried?
  {
    EntryFor(cfg, worker.job, worker.phase.outcome, now, delay, applied)
  }

  ghost predicate Enabled(cfg: Tuned, c: Combined, st: Step) {
    match st
    case Insert(job) => CT.Enabled(c.table, CT.Insert(job))
    case Transaction(step) => (step.Lock? || step.Mark? || step.Abort?) && CT.Enabled(c.table, step)
    case Commit(tx, w, _) => CT.Enabled(c.table, CT.Commit(tx)) && w !in c.rest.workers
    case CommitLost(tx) => CT.Enabled(c.table, CT.Commit(tx))
    case Settle(w, now, delay, applied) =>
      && w in c.rest.workers && c.rest.workers[w].phase.Tried?
      && Backoff.InRange(delay, c.rest.workers[w].job.attempts, cfg.backoffBase, cfg.backoffMax)
      && (applied ==> CT.Enabled(c.table, Update(EntryOf(cfg, c.rest.workers[w], now, delay, applied))))
    case Local(a) => IsLocal(a) && Delivery.Enabled(cfg, c.rest, a)
  }

  ghost function Apply(cfg: Tuned, c: Combined, st: Step): Combined
    requires Enabled(cfg, c, st)
  {
    match st
    case Insert(job) => Combined(CT.Apply(c.table, CT.Insert(job)), c.rest.(origin := c.rest.origin[job.id := job]))
    case Transaction(step) => c.(table := CT.Apply(c.table, step))
    case Commit(tx, w, process) =>
      var job := c.table.rows[c.table.txs[tx].id].job;
      Combined(CT.Apply(c.table, CT.Commit(tx)),
               c.rest.(workers := c.rest.workers[w := Worker(process, DestinationDomain(job.body.recipient), job, Waiting)]))
    case CommitLost(tx) => c.(table := CT.Apply(c.table, CT.Commit(tx)))
    case Settle(w, now, delay, applied) =>
      var worker := c.rest.workers[w];
      var e := EntryOf(cfg, worker, now, delay, applied);
      Combined(if applied then CT.Apply(c.table, Update(e)) else c.table,
               c.rest.(workers := c.rest.workers[w := worker.(phase := Settled(e))], history := c.rest.history + [e]))
    case Local(a) => c.(rest := Delivery.Apply(cfg, c.rest, a))
  }

  ghost predicate Runs(cfg: Tuned, c: Combined, steps: seq<Step>, d: Combined)
    decreases |steps|
  {
    if steps == [] then d == c
    else Enabled(cfg, c, steps[0]) && Runs(cfg, Apply(cfg, c, steps[0]), steps[1..], d)
  }

  ghost function Start(): Combined {
    Combined(CT.Empty(), Initial)
  }

  // ---------- the simulation ----------

  /** The queue as committed: a row locked by an open transaction is not claimed yet. */
  ghost function Committed(table: CT.Table<Mail>): Queue<Mail> {
    Queue(map id | id in table.rows && CT.Live(table, id) :: table.rows[id].job,
          set id | id in table.rows && CT.Live(table, id) && table.rows[id].claimed)
  }

  ghost function View(c: Combined): System {
    c.rest.(queue := Committed(c.table))
  }

  ghost predicate Coupled(c: Combined) {
    CT.LocksMatch(c.table) && c.table.rows.Keys == c.rest.origin.Keys
  }

  lemma TransactionStutters(table: CT.Table<Mail>, step: CT.Step<Mail>)
    requires CT.Enabled(table, step) && (step.Lock? || step.Mark? || step.Abort?)
    ensures Committed(CT.Apply(table, step)) == Committed(table)
  {
    assert CT.Apply(table, step).rows == table.rows;
    assert Committed(CT.Apply(table, step)).jobs == Committed(table).jobs;
  }

  lemma InsertPuts(table: CT.Table<Mail>, job: Job<Mail>)
    requires CT.Enabled(table, CT.Insert(job))
    ensures Committed(CT.Apply(table, CT.Insert(job))) == Committed(table).Put(job)
  {
    var after := CT.Apply(table, CT.Insert(job));
    assert Committed(after).jobs == Committed(table).jobs[job.id := job];
    assert Committed(after).claimed == Committed(table).claimed;
  }

  /** Committing is the claim: the row is still as it was when locked. */
  lemma CommitClaims(table: CT.Table<Mail>, tx: nat)
    requires CT.LocksMatch(table) && CT.Enabled(table, CT.Commit(tx))
    ensures var id := table.txs[tx].id; Committed(table).Due(id, table.rows[id].job.nextAttemptAt)
    ensures Committed(CT.Apply(table, CT.Commit(tx))) == Committed(table).Claim(table.txs[tx].id)
    ensures Committed(table).jobs[table.txs[tx].id] == table.rows[table.txs[tx].id].job
  {
    var after, id := CT.Apply(table, CT.Commit(tx)), table.txs[tx].id;
    assert id in table.locks && CT.Live(table, id) && !table.rows[id].claimed;
    assert Committed(after).jobs == Committed(table).jobs;
    assert Committed(after).claimed == Committed(table).claimed + {id};
  }

  lemma UpdateSettles(table: CT.Table<Mail>, e: Entry)
    requires e.applied && CT.Enabled(table, Update(e))
    ensures e.id in Committed(table).jobs
    ensures Committed(CT.Apply(table, Update(e))) == QueueAfter(Committed(table), e)
  {
    var after := CT.Apply(table, Update(e));
    assert CT.Live(table, e.id);
    if e.decision.Deferred? {
      assert Committed(after).jobs == Committed(table).jobs[e.id := Retried(table.rows[e.id].job, Some(CauseOf(e.outcome)), e.at + e.delay)];
    } else {
      assert Committed(after).jobs == Committed(table).jobs - {e.id};
    }
    assert Committed(after).claimed == Committed(table).claimed - {e.id};
  }

  /** The delivery step a combined step amounts to, if any. */
  ghost function Image(c: Combined, st: Step): Option<Action> {
    match st
    case Insert(job) => Some(Action.Enqueue(job))
    case Transaction(_) => None
    case Commit(tx, w, process) => if tx in c.table.txs then Some(ClaimOf(c, tx, w, process)) else None
    case CommitLost(tx) => if tx in c.table.txs then Some(LoseOf(c, tx)) else None
    case Settle(w, now, delay, applied) => Some(Action.Settle(w, now, delay, applied))
    case Local(a) => Some(a)
  }

  ghost function DueTime(c: Combined, tx: nat): int
    requires tx in c.table.txs
  {
    var id := c.table.txs[tx].id;
    if id in c.table.rows then c.table.rows[id].job.nextAttemptAt else 0
  }

  /** By commit time other rows may have become due earlier; they count as passed over. */
  ghost function ClaimOf(c: Combined, tx: nat, w: nat, process: nat): Action
    requires tx in c.table.txs
  {
    var id := c.table.txs[tx].id;
    Action.Claim(w, process, id, DueTime(c, tx), c.table.rows.Keys - {id})
  }

  ghost function LoseOf(c: Combined, tx: nat): Action
    requires tx in c.table.txs
  {
    var id := c.table.txs[tx].id;
    Action.LoseClaim(id, DueTime(c, tx), c.table.rows.Keys - {id})
  }

  ghost predicate Simulated(cfg: Tuned, c: Combined, st: Step)
    requires Enabled(cfg, c, st)
  {
    match Image(c, st)
    case None => View(Apply(cfg, c, st)) == View(c)
    case Some(a) => Delivery.Enabled(cfg, View(c), a) && Delivery.Apply(cfg, View(c), a) == View(Apply(cfg, c, st))
  }

  lemma CommitSimulates(cfg: Tuned, c: Combined, st: Step)
    requires Coupled(c) && Enabled(cfg, c, st) && (st.Commit? || st.CommitLost?)
    ensures Simulated(cfg, c, st)
  {
    var id := c.table.txs[st.tx].id;
    CommitClaims(c.table, st.tx);
    assert Committed(c.table).EarliestExcept(id, DueTime(c, st.tx), c.table.rows.Keys - {id});
  }

  lemma SettleSimulates(cfg: Tuned, c: Combined, st: Step)
    requires Enabled(cfg, c, st) && st.Settle?
    ensures Simulated(cfg, c, st)
  {
    var worker := c.rest.workers[st.w];
    var e := EntryOf(cfg, worker, st.now, st.delay, st.applied);
    if st.applied {
      UpdateSettles(c.table, e);
    }
  }

  lemma LocalSimulates(cfg: Tuned, c: Combined, st: Step)
    requires Enabled(cfg, c, st) && st.Local?
    ensures Simulated(cfg, c, st)
  {
  }

  lemma StepSimulates(cfg: Tuned, c: Combined, st: Step)
    requires Coupled(c) && Enabled(cfg, c, st)
    ensures Simulated(cfg, c, st)
  {
    match st
    case Insert(job) => InsertPuts(c.table, job);
    case Transaction(step) => TransactionStutters(c.table, step);
    case Commit(_, _, _) => CommitSimulates(cfg, c, st);
    case CommitLost(_) => CommitSimulates(cfg, c, st);
    case Settle(_, _, _, _) => SettleSimulates(cfg, c, st);
    case Local(_) => LocalSimulates(cfg, c, st);
  }

  lemma LocalKeepsOrigin(cfg: Tuned, s: System, a: Action)
    requires IsLocal(a) && Delivery.Enabled(cfg, s, a)
    ensures Delivery.Apply(cfg, s, a).origin == s.origin
  {
  }

  lemma StepCoupled(cfg: Tuned, c: Combined, st: Step)
    requires Coupled(c) && Enabled(cfg, c, st)
    ensures Coupled(Apply(cfg, c, st))
  {
    match st
    case Insert(job) => CT.StepLocks(c.table, CT.Insert(job));
    case Transaction(step) => CT.StepLocks(c.table, step);
    case Commit(tx, _, _) => CT.StepLocks(c.table, CT.Commit(tx));
    case CommitLost(tx) => CT.StepLocks(c.table, CT.Commit(tx));
    case Settle(w, now, delay, applied) =>
      if applied {
        CT.StepLocks(c.table, Update(EntryOf(cfg, c.rest.workers[w], now, delay, applied)));
      }
    case Local(a) => LocalKeepsOrigin(cfg, c.rest, a);
  }

  /** Every run over the database is a run of the delivery machine over the committed table. */
  lemma {:induction false} RunSimulates(cfg: Tuned, c: Combined, steps: seq<Step>, d: Combined) returns (acts: seq<Action>)
    requires Coupled(c) && Runs(cfg, c, steps, d)
    ensures Coupled(d) && Delivery.Runs(cfg, View(c), acts, View(d))
    decreases |steps|
  {
    acts := [];
    if steps != [] {
      var mid := Apply(cfg, c, steps[0]);
      StepSimulates(cfg, c, steps[0]);
      StepCoupled(cfg, c, steps[0]);
      var rest := RunSimulates(cfg, mid, steps[1..], d);
      var a := Image(c, steps[0]);
      acts := if a.None? then rest else [a.value] + rest;
      assert a.Some? ==> acts[0] == a.value && acts[1..] == rest;
    }
  }

  lemma FromStart(cfg: Tuned, steps: seq<Step>, d: Combined) returns (acts: seq<Action>)
    requires Runs(cfg, Start(), steps, d)
    ensures Coupled(d) && Delivery.Runs(cfg, Initial, acts, View(d))
  {
    assert Committed(Start().table).jobs == map[];
    assert View(Start()) == Initial;
    acts := RunSimulates(cfg, Start(), steps, d);
  }

  // ---------- what follows for the table ----------

  /** Over the database too a job is held by at most one worker, and its row is claimed, unlocked and as the
      worker saw it. */
  lemma RowClaimedOnce(cfg: Tuned, steps: seq<Step>, d: Combined, v: nat, w: nat, id: string)
    requires Runs(cfg, Start(), steps, d) && Owns(d.rest, v, id) && Owns(d.rest, w, id)
    ensures v == w && CT.Live(d.table, id) && d.table.rows[id].claimed && id !in d.table.locks
    ensures d.table.rows[id].job == d.rest.workers[w].job
  {
    var acts := FromStart(cfg, steps, d);
    var t := View(d);
    assert Owns(t, v, id) && Owns(t, w, id);
    ClaimedOnce(cfg, acts, t, v, w, id);
  }

  /** A job gets at most one final event. */
  lemma OneFinalEvent(cfg: Tuned, steps: seq<Step>, d: Combined, i: nat, j: nat)
    requires Runs(cfg, Start(), steps, d) && i < |d.rest.announced| && j < |d.rest.announced|
    requires d.rest.announced[i].id == d.rest.announced[j].id
    requires !d.rest.announced[i].decision.Deferred? && !d.rest.announced[j].decision.Deferred?
    ensures i == j
  {
    var acts := FromStart(cfg, steps, d);
    OneFinalAnnouncement(cfg, acts, View(d), i, j);
  }

  /** A row is live exactly while its job's history is open, and stores as many attempts as the history shows. */
  lemma RowHistory(cfg: Tuned, steps: seq<Step>, d: Combined, id: string)
    requires Runs(cfg, Start(), steps, d) && id in d.rest.origin
    ensures var h := HistoryOf(d.rest.history, id);
      && WellFormed(cfg, h, id, d.rest.origin[id].attempts)
      && |h| <= Max(1, cfg.maxAttempts - d.rest.origin[id].attempts)
      && (CT.Live(d.table, id) <==> !Closed(h))
      && (CT.Live(d.table, id) ==> StoredAs(d.table.rows[id].job, d.rest.origin[id], h))
  {
    var acts := FromStart(cfg, steps, d);
    JobHistory(cfg, acts, View(d), id);
    assert id in Committed(d.table).jobs <==> CT.Live(d.table, id);
  }
}
