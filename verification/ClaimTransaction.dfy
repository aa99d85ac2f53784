/** The row-backed Dequeue (internal/queue/postgres.go), split into the steps of concurrent
    transactions: select and lock one row, mark it claimed, commit. The database's row locks are
    assumed as the enabling conditions of the steps: FOR UPDATE SKIP LOCKED selects among committed
    rows no other transaction has locked, and a single-statement update waits for the lock. */
module ClaimTransaction {
  import opened RetryQueue

  datatype Row<B> = Row(job: Job<B>, claimed: bool, deleted: bool)

  datatype Tx = Selected(id: string) | Marked(id: string)

  datatype Event = Claimed(id: string) | Failed(id: string)

  /** `log` records committed claims and failures; the database does not keep it. */
  datatype Table<B> = Table(rows: map<string, Row<B>>, locks: map<string, nat>, txs: map<nat, Tx>, log: seq<Event>)

  datatype Step<B> =
    | Insert(job: Job<B>)
    | Lock(tx: nat, id: string, now: int)
    | Mark(tx: nat)
    | Commit(tx: nat)
    | Abort(tx: nat)
    | Complete(id: string)
    | Fail(id: string, cause: Option<string>, next: int)

  predicate Live<B>(s: Table<B>, id: string) {
    id in s.rows && !s.rows[id].deleted
  }

  predicate Candidate<B>(s: Table<B>, id: string, now: int) {
    Live(s, id) && !s.rows[id].claimed && s.rows[id].job.nextAttemptAt <= now && id !in s.locks
  }

  ghost predicate Enabled<B>(s: Table<B>, a: Step<B>) {
    match a
    case Insert(job) => job.id != "" && job.id !in s.rows
    case Lock(tx, id, now) =>
      && tx !in s.txs && Candidate(s, id, now)
      && forall other | Candidate(s, other, now) :: s.rows[id].job.nextAttemptAt <= s.rows[other].job.nextAttemptAt
    case Mark(tx) => tx in s.txs && s.txs[tx].Selected?
    case Commit(tx) => tx in s.txs && s.txs[tx].Marked? && s.txs[tx].id in s.rows
    case Abort(tx) => tx in s.txs
    case Complete(id) => Live(s, id) && id !in s.locks
    case Fail(id, _, _) => Live(s, id) && id !in s.locks
  }

  ghost function Apply<B>(s: Table<B>, a: Step<B>): Table<B>
    requires Enabled(s, a)
  {
    match a
    case Insert(job) => s.(rows := s.rows[job.id := Row(job, false, false)])
    case Lock(tx, id, _) => s.(locks := s.locks[id := tx], txs := s.txs[tx := Selected(id)])
    case Mark(tx) => s.(txs := s.txs[tx := Marked(s.txs[tx].id)])
    case Commit(tx) =>
      var id := s.txs[tx].id;
      s.(rows := s.rows[id := s.rows[id].(claimed := true)], locks := s.locks - {id}, txs := s.txs - {tx},
         log := s.log + [Claimed(id)])
    case Abort(tx) => s.(locks := s.locks - {s.txs[tx].id}, txs := s.txs - {tx})
    case Complete(id) => s.(rows := s.rows[id := s.rows[id].(deleted := true)])
    case Fail(id, cause, next) => s.(rows := s.rows[id := s.rows[id].(job := Retried(s.rows[id].job, cause, next), claimed := false)], log := s.log + [Failed(id)])
  }

  ghost predicate Runs<B>(s: Table<B>, acts: seq<Step<B>>, t: Table<B>)
    decreases |acts|
  {
    if acts == [] then t == s
    else Enabled(s, acts[0]) && Runs(Apply(s, acts[0]), acts[1..], t)
  }

  ghost function Empty<B>(): Table<B> {
    Table(map[], map[], map[], [])
  }

  // ---------- the atomic queue it implements ----------

  /** The queue the table stands for: a row counts as claimed from the moment it is locked. */
  ghost function Abs<B>(s: Table<B>): Queue<B> {
    Queue(map id | id in s.rows && Live(s, id) :: s.rows[id].job,
          set id | id in s.rows && Live(s, id) && (s.rows[id].claimed || id in s.locks))
  }

  datatype Atomic<B> =
    | Stutter
    | Put(job: Job<B>)
    | Claim(id: string, now: int)
    | Unclaim(id: string)
    | Remove(id: string)
    | Reschedule(id: string, cause: Option<string>, next: int)

  /** One step of the in-memory queue, plus giving a claim back when a Dequeue fails. */
  ghost predicate AtomicStep<B>(q: Queue<B>, a: Atomic<B>, r: Queue<B>) {
    match a
    case Stutter => r == q
    case Put(job) => job.id !in q.jobs && r == q.Put(job)
    case Claim(id, now) => q.EarliestDue(id, now) && r == q.Claim(id)
    case Unclaim(id) => id in q.claimed && r == q.(claimed := q.claimed - {id})
    case Remove(id) => id in q.jobs && r == q.Remove(id)
    case Reschedule(id, cause, next) => id in q.jobs && r == q.Reschedule(id, cause, next)
  }

  ghost function Image<B>(s: Table<B>, a: Step<B>): Atomic<B>
    requires Enabled(s, a)
  {
    match a
    case Insert(job) => Put(job)
    case Lock(_, id, now) => Claim(id, now)
    case Mark(_) => Stutter
    case Commit(_) => Stutter
    case Abort(tx) => Unclaim(s.txs[tx].id)
    case Complete(id) => Remove(id)
    case Fail(id, cause, next) => Reschedule(id, cause, next)
  }

  // ---------- invariant ----------

  /** Locks and open transactions match one to one, and a locked row is stored, live and unclaimed. */
  ghost predicate LocksMatch<B>(s: Table<B>) {
    && (forall tx | tx in s.txs :: s.txs[tx].id in s.locks && s.locks[s.txs[tx].id] == tx)
    && (forall id | id in s.locks :: s.locks[id] in s.txs && s.txs[s.locks[id]].id == id)
    && (forall id | id in s.locks :: Live(s, id) && !s.rows[id].claimed)
    && (forall id | id in s.rows :: s.rows[id].job.id == id)
  }

  ghost predicate FailedSince(log: seq<Event>, i: nat, id: string) {
    exists k :: i < k < |log| && log[k] == Failed(id)
  }

  /** A claim without a later failure shows in the row. */
  ghost predicate ClaimsShow<B>(s: Table<B>) {
    forall i | 0 <= i < |s.log| && s.log[i].Claimed? :: s.log[i].id in s.rows &&
      (FailedSince(s.log, i, s.log[i].id) || s.rows[s.log[i].id].claimed)
  }

  ghost predicate ClaimsAlternate(log: seq<Event>) {
    forall i, j | 0 <= i < j < |log| && log[i].Claimed? && log[j] == log[i] ::
      exists k :: i < k < j && log[k] == Failed(log[i].id)
  }

  ghost predicate Inv<B>(s: Table<B>) {
    LocksMatch(s) && ClaimsShow(s) && ClaimsAlternate(s.log)
  }

  lemma EmptyInv<B>()
    ensures Inv(Empty<B>())
  {
  }

  lemma StepLocks<B>(s: Table<B>, a: Step<B>)
    requires LocksMatch(s) && Enabled(s, a)
    ensures LocksMatch(Apply(s, a))
  {
  }

  lemma LogGrows(log: seq<Event>, e: Event, i: nat, id: string)
    requires FailedSince(log, i, id)
    ensures FailedSince(log + [e], i, id)
  {
    var k :| i < k < |log| && log[k] == Failed(id);
    assert (log + [e])[k] == Failed(id);
  }

  lemma StepShows<B>(s: Table<B>, a: Step<B>)
    requires Inv(s) && Enabled(s, a)
    ensures ClaimsShow(Apply(s, a))
  {
    var t := Apply(s, a);
    forall i | 0 <= i < |t.log| && t.log[i].Claimed?
      ensures t.log[i].id in t.rows && (FailedSince(t.log, i, t.log[i].id) || t.rows[t.log[i].id].claimed)
    {
      if i < |s.log| {
        var id := s.log[i].id;
        if FailedSince(s.log, i, id) && t.log != s.log {
          LogGrows(s.log, t.log[|s.log|], i, id);
        } else if a.Fail? && a.id == id {
          assert t.log[|s.log|] == Failed(id);
        }
      }
    }
  }

  /** A row about to be claimed is unclaimed, so any earlier claim of it has been followed by a failure. */
  lemma CommitAlternates<B>(s: Table<B>, a: Step<B>, i: nat)
    requires Inv(s) && Enabled(s, a) && a.Commit? && i < |s.log| && s.log[i] == Claimed(s.txs[a.tx].id)
    ensures exists k :: i < k < |s.log| && s.log[k] == Failed(s.log[i].id)
  {
    assert FailedSince(s.log, i, s.log[i].id);
  }

  lemma AlternateAppend(log: seq<Event>, e: Event)
    requires ClaimsAlternate(log)
    requires e.Claimed? ==> forall i | 0 <= i < |log| && log[i] == e :: exists k :: i < k < |log| && log[k] == Failed(e.id)
    ensures ClaimsAlternate(log + [e])
  {
    var more := log + [e];
    forall i, j | 0 <= i < j < |more| && more[i].Claimed? && more[j] == more[i]
      ensures exists k :: i < k < j && more[k] == Failed(more[i].id)
    {
      assert more[i] == log[i];
      if j < |log| {
        var k :| i < k < j && log[k] == Failed(log[i].id);
        assert more[k] == log[k];
      } else {
        var k :| i < k < |log| && log[k] == Failed(e.id);
        assert more[k] == log[k];
      }
    }
  }

  lemma StepClaims<B>(s: Table<B>, a: Step<B>)
    requires Inv(s) && Enabled(s, a)
    ensures ClaimsShow(Apply(s, a)) && ClaimsAlternate(Apply(s, a).log)
  {
    StepShows(s, a);
    if a.Commit? {
      forall i | 0 <= i < |s.log| && s.log[i] == Claimed(s.txs[a.tx].id)
        ensures exists k :: i < k < |s.log| && s.log[k] == Failed(s.txs[a.tx].id)
      {
        CommitAlternates(s, a, i);
      }
      AlternateAppend(s.log, Claimed(s.txs[a.tx].id));
    } else if a.Fail? {
      AlternateAppend(s.log, Failed(a.id));
    }
  }

  /** No row is claimed twice without a failed attempt giving it back in between. */
  lemma {:induction false} NoDoubleClaim<B>(s: Table<B>, acts: seq<Step<B>>, t: Table<B>)
    requires Inv(s) && Runs(s, acts, t)
    ensures Inv(t) && ClaimsAlternate(t.log)
    decreases |acts|
  {
    if acts != [] {
      StepLocks(s, acts[0]);
      StepClaims(s, acts[0]);
      NoDoubleClaim(Apply(s, acts[0]), acts[1..], t);
    }
  }

  /** From an empty table, every run's committed claims of a row are separated by failed attempts. */
  lemma ClaimsSeparated<B>(acts: seq<Step<B>>, t: Table<B>, i: nat, j: nat)
    requires Runs(Empty(), acts, t) && i < j < |t.log| && t.log[i].Claimed? && t.log[j] == t.log[i]
    ensures exists k :: i < k < j && t.log[k] == Failed(t.log[i].id)
  {
    EmptyInv<B>();
    NoDoubleClaim(Empty(), acts, t);
  }

  lemma LockRefines<B>(s: Table<B>, a: Step<B>)
    requires LocksMatch(s) && Enabled(s, a) && a.Lock?
    ensures Abs(s).EarliestDue(a.id, a.now) && Abs(Apply(s, a)) == Abs(s).Claim(a.id)
  {
    assert forall other :: Abs(s).Due(other, a.now) <==> Candidate(s, other, a.now);
    assert Abs(Apply(s, a)).jobs == Abs(s).jobs;
    assert Abs(Apply(s, a)).claimed == Abs(s).claimed + {a.id};
  }

  lemma FailRefines<B>(s: Table<B>, a: Step<B>)
    requires LocksMatch(s) && Enabled(s, a) && a.Fail?
    ensures a.id in Abs(s).jobs && Abs(Apply(s, a)) == Abs(s).Reschedule(a.id, a.cause, a.next)
  {
    assert Abs(Apply(s, a)).jobs == Abs(s).jobs[a.id := Retried(s.rows[a.id].job, a.cause, a.next)];
    assert Abs(Apply(s, a)).claimed == Abs(s).claimed - {a.id};
  }

  lemma InsertRefines<B>(s: Table<B>, a: Step<B>)
    requires LocksMatch(s) && Enabled(s, a) && a.Insert?
    ensures a.job.id !in Abs(s).jobs && Abs(Apply(s, a)) == Abs(s).Put(a.job)
  {
    assert Abs(Apply(s, a)).jobs == Abs(s).jobs[a.job.id := a.job];
    assert Abs(Apply(s, a)).claimed == Abs(s).claimed;
  }

  lemma CompleteRefines<B>(s: Table<B>, a: Step<B>)
    requires LocksMatch(s) && Enabled(s, a) && a.Complete?
    ensures a.id in Abs(s).jobs && Abs(Apply(s, a)) == Abs(s).Remove(a.id)
  {
    assert Abs(Apply(s, a)).jobs == Abs(s).jobs - {a.id};
    assert Abs(Apply(s, a)).claimed == Abs(s).claimed - {a.id};
  }

  lemma TxEndRefines<B>(s: Table<B>, a: Step<B>)
    requires LocksMatch(s) && Enabled(s, a) && (a.Mark? || a.Commit? || a.Abort?)
    ensures AtomicStep(Abs(s), Image(s, a), Abs(Apply(s, a)))
  {
    var t := Apply(s, a);
    assert Abs(t).jobs == Abs(s).jobs;
    assert Abs(t).claimed == if a.Abort? then Abs(s).claimed - {s.txs[a.tx].id} else Abs(s).claimed;
  }

  /** Each protocol step is one atomic queue step. In particular selecting a row is an atomic earliest-due
      claim, where rows locked by others count as taken, and commit changes nothing observable. */
  lemma StepRefines<B>(s: Table<B>, a: Step<B>)
    requires LocksMatch(s) && Enabled(s, a)
    ensures AtomicStep(Abs(s), Image(s, a), Abs(Apply(s, a)))
  {
    if a.Lock? {
      LockRefines(s, a);
    } else if a.Fail? {
      FailRefines(s, a);
    } else if a.Insert? {
      InsertRefines(s, a);
    } else if a.Complete? {
      CompleteRefines(s, a);
    } else {
      TxEndRefines(s, a);
    }
  }

  /** The tables a run passes through. */
  ghost predicate Trace<B>(acts: seq<Step<B>>, tables: seq<Table<B>>) {
    && |tables| == |acts| + 1
    && forall i | 0 <= i < |acts| :: Enabled(tables[i], acts[i]) && tables[i + 1] == Apply(tables[i], acts[i])
  }

  /** Every run of the protocol is, table by table and step by step, a run of the atomic queue. */
  lemma {:induction false} RunRefines<B>(s: Table<B>, acts: seq<Step<B>>, t: Table<B>) returns (tables: seq<Table<B>>)
    requires LocksMatch(s) && Runs(s, acts, t)
    ensures Trace(acts, tables) && tables[0] == s && tables[|acts|] == t
    ensures forall i | 0 <= i < |acts| :: AtomicStep(Abs(tables[i]), Image(tables[i], acts[i]), Abs(tables[i + 1]))
    decreases |acts|
  {
    if acts == [] {
      tables := [s];
    } else {
      StepLocks(s, acts[0]);
      StepRefines(s, acts[0]);
      var rest := RunRefines(Apply(s, acts[0]), acts[1..], t);
      tables := [s] + rest;
      TracePrepend(s, acts, rest);
    }
  }

  lemma TracePrepend<B>(s: Table<B>, acts: seq<Step<B>>, rest: seq<Table<B>>)
    requires acts != [] && Enabled(s, acts[0]) && Trace(acts[1..], rest) && rest[0] == Apply(s, acts[0])
    requires AtomicStep(Abs(s), Image(s, acts[0]), Abs(rest[0]))
    requires forall i | 0 <= i < |acts| - 1 :: AtomicStep(Abs(rest[i]), Image(rest[i], acts[1..][i]), Abs(rest[i + 1]))
    ensures Trace(acts, [s] + rest)
    ensures forall i | 0 <= i < |acts| :: AtomicStep(Abs(([s] + rest)[i]), Image(([s] + rest)[i], acts[i]), Abs(([s] + rest)[i + 1]))
  {
    var tables := [s] + rest;
    forall i | 0 <= i < |acts|
      ensures Enabled(tables[i], acts[i]) && tables[i + 1] == Apply(tables[i], acts[i])
      ensures AtomicStep(Abs(tables[i]), Image(tables[i], acts[i]), Abs(tables[i + 1]))
    {
      if i > 0 {
        assert acts[i] == acts[1..][i - 1] && tables[i] == rest[i - 1];
        assert Enabled(rest[i - 1], acts[1..][i - 1]);
      }
    }
  }
}
