/** Progress of the outbound deliverer: what faults strand for good, and that a run without
    faults drains the queue within a bounded number of steps. */
module DeliveryProgress {
  import opened RetryQueue
  import opened Delivery
  import Backoff

  // ---------- stranding ----------

  /** A stranded job stays exactly as it is in every continuation: no step of the code releases the
      claim, whatever restarts happen. */
  lemma {:induction false} StrandedForever(cfg: Tuned, s: System, acts: seq<Action>, t: System, id: string)
    requires Inv(cfg, s) && Stranded(s, id) && Runs(cfg, s, acts, t)
    ensures Stranded(t, id) && id in t.queue.jobs && t.queue.jobs[id] == s.queue.jobs[id]
    ensures HistoryOf(t.history, id) == HistoryOf(s.history, id)
    decreases |acts|
  {
    assert id in s.queue.jobs;
    if acts != [] {
      var mid := Apply(cfg, s, acts[0]);
      StrandedStep(cfg, s, acts[0], id);
      StepInv(cfg, s, acts[0]);
      StrandedForever(cfg, mid, acts[1..], t, id);
    }
  }

  lemma StrandedSettle(cfg: Tuned, s: System, a: Action, id: string)
    requires Ownership(s) && Stranded(s, id) && a.Settle? && Enabled(cfg, s, a)
    ensures var t := Apply(cfg, s, a); Stranded(t, id) && t.queue.jobs[id] == s.queue.jobs[id]
    ensures HistoryOf(Apply(cfg, s, a).history, id) == HistoryOf(s.history, id)
  {
    var t, e := SettleIs(cfg, s, a);
    SettledOwners(cfg, s, t, a.w, e, a.delay);
    HistoryAppend(s.history, e, id);
  }

  lemma StrandedStep(cfg: Tuned, s: System, a: Action, id: string)
    requires Ownership(s) && s.queue.jobs.Keys <= s.origin.Keys && Stranded(s, id) && Enabled(cfg, s, a)
    ensures var t := Apply(cfg, s, a); Stranded(t, id) && t.queue.jobs[id] == s.queue.jobs[id]
    ensures HistoryOf(Apply(cfg, s, a).history, id) == HistoryOf(s.history, id)
  {
    if a.Settle? {
      StrandedSettle(cfg, s, a, id);
    } else {
      StrandedStays(cfg, s, a, id);
    }
  }

  /** Cancelling a waiting worker, or crashing its process, strands the job it had claimed. */
  lemma AbandonedClaim(cfg: Tuned, s: System, a: Action, w: nat, id: string)
    requires Inv(cfg, s) && Enabled(cfg, s, a) && Owns(s, w, id)
    requires a == Cancel(w) || a == Crash(s.workers[w].process)
    ensures Stranded(Apply(cfg, s, a), id)
  {
    var t := Apply(cfg, s, a);
    assert forall v | Owns(t, v, id) :: v != w && Owns(s, v, id);
  }

  // ---------- runs without faults ----------

  predicate FaultFree(a: Action) {
    !a.Cancel? && !a.Crash? && !a.LoseClaim? && (a.Settle? ==> a.applied)
  }

  ghost predicate AllOwned(s: System) {
    forall id | id in s.queue.claimed :: exists w :: Owns(s, w, id)
  }

  lemma StepAllOwned(cfg: Tuned, s: System, a: Action)
    requires Ownership(s) && AllOwned(s) && Enabled(cfg, s, a) && FaultFree(a)
    ensures AllOwned(Apply(cfg, s, a))
  {
    var t := Apply(cfg, s, a);
    forall id | id in t.queue.claimed
      ensures exists w :: Owns(t, w, id)
    {
      if a.Claim? && a.id == id {
        assert Owns(t, a.w, id);
      } else {
        var w :| Owns(s, w, id);
        assert Owns(t, w, id);
      }
    }
  }

  ghost function At(s: System, rank: nat): set<nat> {
    set w | w in s.workers && Rank(s.workers[w].phase) == rank
  }

  function Rank(p: Phase): nat {
    match p
    case Waiting => 1
    case Holding => 2
    case Tried(_) => 3
    case Settled(_) => 4
    case Announced => 5
  }

  /** Worker steps taken so far: six per settled attempt, less those still to come after settling, plus
      those of attempts not yet settled. */
  ghost function Steps(s: System): int {
    6 * |s.history| + |At(s, 1)| + 2 * |At(s, 2)| + 3 * |At(s, 3)| - 2 * |At(s, 4)| - |At(s, 5)|
  }

  lemma Moved(s: System, t: System, w: nat, rank: nat)
    requires w in s.workers && Rank(s.workers[w].phase) == rank
    requires t.workers.Keys == s.workers.Keys && Rank(t.workers[w].phase) == rank + 1
    requires forall v | v in s.workers && v != w :: t.workers[v] == s.workers[v]
    ensures |At(t, rank)| == |At(s, rank)| - 1 && |At(t, rank + 1)| == |At(s, rank + 1)| + 1
    ensures forall k: nat | k != rank && k != rank + 1 :: At(t, k) == At(s, k)
  {
    assert At(t, rank) == At(s, rank) - {w};
    assert At(t, rank + 1) == At(s, rank + 1) + {w};
  }

  lemma Arrived(s: System, t: System, w: nat)
    requires w !in s.workers && w in t.workers && Rank(t.workers[w].phase) == 1
    requires t.workers == s.workers[w := t.workers[w]] && t.history == s.history
    ensures Steps(t) == Steps(s) + 1
  {
    assert At(t, 1) == At(s, 1) + {w};
    assert At(t, 2) == At(s, 2) && At(t, 3) == At(s, 3) && At(t, 4) == At(s, 4) && At(t, 5) == At(s, 5);
  }

  lemma Left(s: System, t: System, w: nat)
    requires w in s.workers && Rank(s.workers[w].phase) == 5
    requires t.workers == s.workers - {w} && t.history == s.history
    ensures Steps(t) == Steps(s) + 1
  {
    assert At(t, 5) == At(s, 5) - {w};
    assert At(t, 1) == At(s, 1) && At(t, 2) == At(s, 2) && At(t, 3) == At(s, 3) && At(t, 4) == At(s, 4);
  }

  lemma Advanced(s: System, t: System, w: nat)
    requires w in s.workers && w in t.workers && t.workers == s.workers[w := t.workers[w]]
    requires Rank(t.workers[w].phase) == Rank(s.workers[w].phase) + 1
    requires |t.history| == |s.history| + if Rank(s.workers[w].phase) == 3 then 1 else 0
    ensures Steps(t) == Steps(s) + 1
  {
    Moved(s, t, w, Rank(s.workers[w].phase));
  }

  /** Every fault-free step other than Enqueue counts exactly once. */
  lemma StepCounts(cfg: Tuned, s: System, a: Action)
    requires Enabled(cfg, s, a) && FaultFree(a)
    ensures Steps(Apply(cfg, s, a)) == Steps(s) + if a.Enqueue? then 0 else 1
  {
    var t := Apply(cfg, s, a);
    match a
    case Enqueue(_) =>
      assert forall k: nat :: At(t, k) == At(s, k);
    case Claim(w, _, _, _, _) => Arrived(s, t, w);
    case Release(w) => Left(s, t, w);
    case Acquire(w) => Advanced(s, t, w);
    case Attempt(w, _) => Advanced(s, t, w);
    case Settle(w, _, _, _) => Advanced(s, t, w);
    case Announce(w) => Advanced(s, t, w);
  }

  ghost predicate Clean(acts: seq<Action>) {
    forall a | a in acts :: FaultFree(a)
  }

  lemma {:induction false} CleanRun(cfg: Tuned, s: System, acts: seq<Action>, t: System)
    requires Inv(cfg, s) && AllOwned(s) && Runs(cfg, s, acts, t) && Clean(acts)
    ensures Inv(cfg, t) && AllOwned(t)
    ensures |acts| == Steps(t) - Steps(s) + |t.origin| - |s.origin|
    decreases |acts|
  {
    if acts != [] {
      var mid := Apply(cfg, s, acts[0]);
      StepInv(cfg, s, acts[0]);
      StepAllOwned(cfg, s, acts[0]);
      StepCounts(cfg, s, acts[0]);
      assert forall a | a in acts[1..] :: a in acts;
      CleanRun(cfg, mid, acts[1..], t);
    }
  }

  lemma StepsBound(s: System)
    ensures Steps(s) <= 6 * |s.history| + 3 * |Busy(s)|
    ensures s.workers == map[] && s.history == [] ==> Steps(s) == 0
  {
    var waiting, holding, tried := At(s, 1), At(s, 2), At(s, 3);
    assert Busy(s) == waiting + holding + tried;
    assert |waiting + holding| == |waiting| + |holding|;
    assert |waiting + holding + tried| == |waiting + holding| + |tried|;
    if s.workers == map[] {
      assert waiting == {} && holding == {} && tried == {} && At(s, 4) == {} && At(s, 5) == {};
    }
  }

  /** A fault-free run that enqueues n jobs takes at most n + 6 * n * maxAttempts steps in all and makes at
      most n * maxAttempts attempts. */
  lemma BoundedRun(cfg: Tuned, acts: seq<Action>, t: System)
    requires Runs(cfg, Initial, acts, t) && Clean(acts)
    requires forall id | id in t.origin :: t.origin[id].attempts >= 0
    ensures |t.history| <= |t.origin| * cfg.maxAttempts
    ensures |acts| <= |t.origin| + 6 * (|t.origin| * cfg.maxAttempts)
  {
    InitialInv(cfg);
    CleanRun(cfg, Initial, acts, t);
    AttemptBudget(cfg, t);
    StepsBound(t);
    StepsBound(Initial);
    assert Initial.workers == map[];
  }

  /** A worker past the semaphore always has a fault-free step. */
  lemma HolderMoves(cfg: Tuned, s: System, w: nat) returns (a: Action)
    requires Inv(cfg, s) && w in s.workers && !s.workers[w].phase.Waiting?
    ensures FaultFree(a) && Enabled(cfg, s, a) && (a.Attempt? || a.Settle? || a.Announce? || a.Release?) && a.w == w
    ensures (a.Settle? <==> s.workers[w].phase.Tried?) && (a.Release? <==> s.workers[w].phase.Announced?)
  {
    var worker := s.workers[w];
    match worker.phase
    case Holding => a := Attempt(w, Failed(true, ""));
    case Tried(_) =>
      assert Owns(s, w, worker.job.id);
      Backoff.CeilingPositive(worker.job.attempts, cfg.backoffBase, cfg.backoffMax);
      a := Settle(w, 0, 0, true);
    case Settled(_) => a := Announce(w);
    case Announced =>
      assert w in Holders(s, GateOf(worker));
      assert Used(s, GateOf(worker)) == |Holders(s, GateOf(worker))|;
      a := Release(w);
  }

  /** A fault-free run never deadlocks: while a job is queued or a worker is alive, some worker step is
      possible, at the latest once the clock reaches a queued job's due time. Hence a fault-free run
      that can make no worker step at any time has emptied the queue. */
  lemma NeverStuck(cfg: Tuned, acts: seq<Action>, t: System) returns (a: Action)
    requires Runs(cfg, Initial, acts, t) && Clean(acts)
    requires t.queue.jobs != map[] || t.workers != map[]
    ensures FaultFree(a) && !a.Enqueue? && Enabled(cfg, t, a)
  {
    InitialInv(cfg);
    CleanRun(cfg, Initial, acts, t);
    if t.workers == map[] {
      var id :| id in t.queue.jobs;
      assert id !in t.queue.claimed;
      var now := t.queue.jobs[id].nextAttemptAt;
      var first := EarliestExists(t.queue, now, id);
      a := Claim(0, 0, first, now, {});
    } else {
      var w :| w in t.workers;
      if !t.workers[w].phase.Waiting? {
        a := HolderMoves(cfg, t, w);
      } else if Used(t, GateOf(t.workers[w])) < cfg.perDomain {
        a := Acquire(w);
      } else {
        var holders := Holders(t, GateOf(t.workers[w]));
        assert |holders| == Used(t, GateOf(t.workers[w])) > 0;
        var v :| v in holders;
        a := HolderMoves(cfg, t, v);
      }
    }
  }

  /** A fault-free run that has come to rest has settled every job it enqueued. */
  lemma Drained(cfg: Tuned, acts: seq<Action>, t: System)
    requires Runs(cfg, Initial, acts, t) && Clean(acts)
    requires forall a | FaultFree(a) && !a.Enqueue? :: !Enabled(cfg, t, a)
    ensures t.queue.jobs == map[] && t.workers == map[]
    ensures FinalCount(t.history) == |t.origin|
  {
    if t.queue.jobs != map[] || t.workers != map[] {
      var a := NeverStuck(cfg, acts, t);
    }
    DepthExact(cfg, acts, t);
  }

  // ---------- how long a job waits ----------

  /** The delays of a job's deferrals, oldest first. */
  function Delays(h: seq<Entry>): seq<int> {
    if h == [] then []
    else Delays(h[..|h| - 1]) + if h[|h| - 1].decision.Deferred? then [h[|h| - 1].delay] else []
  }

  lemma {:induction false} AllDeferred(h: seq<Entry>)
    requires forall j | 0 <= j < |h| :: h[j].decision.Deferred?
    ensures |Delays(h)| == |h| && forall j | 0 <= j < |h| :: Delays(h)[j] == h[j].delay
  {
    if h != [] {
      AllDeferred(h[..|h| - 1]);
    }
  }

  /** Deferral n of a new job waits what FullJitter draws for attempt n, and there are fewer than maxAttempts. */
  lemma DelaysDrawn(cfg: Tuned, h: seq<Entry>, id: string)
    requires WellFormed(cfg, h, id, 0)
    ensures |Delays(h)| < cfg.maxAttempts
    ensures forall i | 0 <= i < |Delays(h)| :: Backoff.InRange(Delays(h)[i], i, cfg.backoffBase, cfg.backoffMax)
  {
    if h != [] {
      var before := h[..|h| - 1];
      AllDeferred(before);
      if h[|h| - 1].decision.Deferred? {
        assert h[|h| - 1].attempt == |h| < cfg.maxAttempts;
      } else if before != [] {
        assert h[|h| - 2].decision.Deferred? && h[|h| - 2].attempt == |h| - 1 < cfg.maxAttempts;
      }
      forall i | 0 <= i < |Delays(h)|
        ensures Backoff.InRange(Delays(h)[i], i, cfg.backoffBase, cfg.backoffMax)
      {
        assert Delays(h)[i] == h[i].delay && h[i].decision.Deferred? && h[i].attempt == i + 1;
      }
    }
  }

  /** Over a job's whole life, in any run, the delays of its deferrals add up to less than the ceilings of the
      attempts before the last one allowed. */
  lemma TotalWait(cfg: Tuned, acts: seq<Action>, t: System, id: string)
    requires Runs(cfg, Initial, acts, t) && id in t.origin && t.origin[id].attempts == 0
    ensures var waited, bound := Backoff.Sum(Delays(HistoryOf(t.history, id))), Backoff.CeilingSum(cfg.maxAttempts - 1, cfg.backoffBase, cfg.backoffMax);
      0 <= waited <= bound && (cfg.maxAttempts > 1 ==> waited < bound)
  {
    JobHistory(cfg, acts, t, id);
    var h := HistoryOf(t.history, id);
    DelaysDrawn(cfg, h, id);
    Backoff.TotalBelowCeilings(Delays(h), cfg.backoffBase, cfg.backoffMax);
    Backoff.CeilingSumMonotone(|Delays(h)|, cfg.maxAttempts - 1, cfg.backoffBase, cfg.backoffMax);
    if cfg.maxAttempts > 1 {
      Backoff.CeilingSumMonotone(1, cfg.maxAttempts - 1, cfg.backoffBase, cfg.backoffMax);
      Backoff.CeilingPositive(0, cfg.backoffBase, cfg.backoffMax);
    }
  }

  /** A deliverer whose retry settings are left unset makes no job wait 3690 seconds in all. */
  lemma DefaultWait(c: Config, acts: seq<Action>, t: System, id: string)
    requires c.maxAttempts <= 0 && c.backoffBase <= 0 && c.backoffMax <= 0
    requires Runs(WithDefaults(c), Initial, acts, t) && id in t.origin && t.origin[id].attempts == 0
    ensures 0 <= Backoff.Sum(Delays(HistoryOf(t.history, id))) < 3690 * Backoff.SECOND
  {
    TotalWait(WithDefaults(c), acts, t, id);
    Backoff.DefaultTotal();
  }
}
