/** The order in which a job's outcomes are announced. `handle` updates the queue first and fires the
    event afterwards, so a rescheduled job can be claimed, delivered and announced by another worker
    before the first worker announces its deferral. */
module AnnouncementOrder {
  import opened RetryQueue
  import opened Text
  import opened Delivery
  import Backoff

  /** Announcements of the same job come in the order of its attempts. */
  ghost predicate InOrder(announced: seq<Entry>) {
    forall i, j | 0 <= i < j < |announced| && announced[i].id == announced[j].id :: announced[i].attempt < announced[j].attempt
  }

  // ---------- when order is kept ----------

  /** The step does not claim a job whose previous outcome is still to be announced. */
  ghost predicate Leased(s: System, a: Action) {
    a.Claim? ==> forall w | w in s.workers && s.workers[w].phase.Settled? :: s.workers[w].job.id != a.id
  }

  ghost predicate LeasedRun(cfg: Tuned, s: System, acts: seq<Action>, t: System)
    decreases |acts|
  {
    if acts == [] then t == s
    else Enabled(cfg, s, acts[0]) && Leased(s, acts[0]) && LeasedRun(cfg, Apply(cfg, s, acts[0]), acts[1..], t)
  }

  ghost predicate Pending(s: System, w: nat, id: string) {
    w in s.workers && !s.workers[w].phase.Announced? && s.workers[w].job.id == id
  }

  ghost predicate Reached(s: System, e: Entry) {
    e.id in s.origin && e.attempt <= s.origin[e.id].attempts + |HistoryOf(s.history, e.id)|
  }

  ghost predicate Tidy(s: System) {
    && (forall v, w, id | Pending(s, v, id) && Pending(s, w, id) :: v == w)
    && InOrder(s.announced)
    && (forall i | 0 <= i < |s.announced| :: Reached(s, s.announced[i]))
    && (forall w, e | Owes(s, w, e) :: Pending(s, w, e.id) && Reached(s, e))
    && (forall i, w, e | Owes(s, w, e) && 0 <= i < |s.announced| && s.announced[i].id == e.id :: s.announced[i].attempt < e.attempt)
  }

  lemma ReachedStays(s: System, t: System, e: Entry, d: Entry)
    requires t.origin == s.origin && t.history == s.history + [e] && Reached(s, d)
    ensures Reached(t, d)
  {
    HistoryAppend(s.history, e, d.id);
  }

  lemma SettleTidy(cfg: Tuned, s: System, a: Action)
    requires Inv(cfg, s) && Tidy(s) && Enabled(cfg, s, a) && a.Settle?
    ensures Tidy(Apply(cfg, s, a))
  {
    var t := Apply(cfg, s, a);
    var e := t.history[|s.history|];
    var n := |HistoryOf(s.history, e.id)|;
    assert e.id in s.origin && e.attempt == s.origin[e.id].attempts + n + 1 by {
      assert Owns(s, a.w, e.id);
      OwnedHistory(cfg, s, a.w, e.id);
    }
    assert Reached(t, e) by {
      HistoryAppend(s.history, e, e.id);
    }
    forall d: Entry | Reached(s, d)
      ensures Reached(t, d)
    {
      ReachedStays(s, t, e, d);
    }
    Settling(cfg, s, a, t, e);
  }

  lemma Settling(cfg: Tuned, s: System, a: Action, t: System, e: Entry)
    requires Tidy(s) && Enabled(cfg, s, a) && a.Settle? && t == Apply(cfg, s, a) && e == t.history[|s.history|]
    requires e.id in s.origin && e.attempt == s.origin[e.id].attempts + |HistoryOf(s.history, e.id)| + 1
    requires Reached(t, e) && forall d: Entry | Reached(s, d) :: Reached(t, d)
    ensures Tidy(t)
  {
    assert t.announced == s.announced;
    assert forall v, id | Pending(t, v, id) :: Pending(s, v, id);
    assert forall v, d | Owes(t, v, d) :: if v == a.w then d == e else Owes(s, v, d);
    assert forall v, d | Owes(s, v, d) && Owes(t, v, d) :: Pending(s, v, d.id);
  }

  lemma ClaimTidy(cfg: Tuned, s: System, a: Action)
    requires Ownership(s) && Tidy(s) && Enabled(cfg, s, a) && Leased(s, a) && a.Claim?
    ensures Tidy(Apply(cfg, s, a))
  {
    var t := Apply(cfg, s, a);
    assert forall d: Entry | Reached(s, d) :: Reached(t, d);
    assert forall v | Pending(s, v, a.id) :: Owns(s, v, a.id);
    assert forall v, k | v != a.w && Pending(t, v, k) :: Pending(s, v, k);
    assert forall v, e | Owes(t, v, e) :: Owes(s, v, e);
  }

  lemma AnnounceTidy(cfg: Tuned, s: System, a: Action)
    requires Tidy(s) && Enabled(cfg, s, a) && a.Announce?
    ensures Tidy(Apply(cfg, s, a))
  {
    var t := Apply(cfg, s, a);
    assert forall d: Entry | Reached(s, d) :: Reached(t, d);
    assert Owes(s, a.w, s.workers[a.w].phase.entry);
    assert forall v, k | Pending(t, v, k) :: v != a.w && Pending(s, v, k);
    assert forall v, d | Owes(t, v, d) :: v != a.w && Owes(s, v, d);
  }

  lemma OtherTidy(cfg: Tuned, s: System, a: Action)
    requires Tidy(s) && Enabled(cfg, s, a) && !a.Settle? && !a.Claim? && !a.Announce?
    ensures Tidy(Apply(cfg, s, a))
  {
    var t := Apply(cfg, s, a);
    assert forall v | v in t.workers :: v in s.workers && t.workers[v].job == s.workers[v].job;
    assert forall v, k | Pending(t, v, k) :: Pending(s, v, k);
    assert forall v, e | Owes(t, v, e) :: Owes(s, v, e) && Pending(s, v, e.id);
    FewerOwed(s, t);
  }

  lemma FewerOwed(s: System, t: System)
    requires Tidy(s) && t.announced == s.announced && t.history == s.history
    requires forall id | id in s.origin :: id in t.origin && t.origin[id] == s.origin[id]
    requires forall v, k | Pending(t, v, k) :: Pending(s, v, k)
    requires forall v, e | Owes(t, v, e) :: Owes(s, v, e) && Pending(t, v, e.id)
    ensures Tidy(t)
  {
    assert forall d: Entry | Reached(s, d) :: Reached(t, d);
  }

  /** If no job is claimed while its last outcome is still unannounced, announcements are in order,
      whatever other faults occur. */
  lemma {:induction false} LeasedInOrder(cfg: Tuned, s: System, acts: seq<Action>, t: System)
    requires Inv(cfg, s) && Tidy(s) && LeasedRun(cfg, s, acts, t)
    ensures InOrder(t.announced)
    decreases |acts|
  {
    if acts != [] {
      StepInv(cfg, s, acts[0]);
      if acts[0].Settle? {
        SettleTidy(cfg, s, acts[0]);
      } else if acts[0].Claim? {
        ClaimTidy(cfg, s, acts[0]);
      } else if acts[0].Announce? {
        AnnounceTidy(cfg, s, acts[0]);
      } else {
        OtherTidy(cfg, s, acts[0]);
      }
      LeasedInOrder(cfg, Apply(cfg, s, acts[0]), acts[1..], t);
    }
  }

  // ---------- when it is not ----------

  const Letter := Mail("v", "f", "a@b", "r", "c")
  const First := Job("j", Letter, 0, 0, "")

  lemma LetterRoutable()
    ensures DestinationDomain("a@b") != "a@b"
  {
    assert "a@b"[1..2] == "@" && "a@b"[0..1] == "a";
    assert At("a@b", "@", 1) && !At("a@b", "@", 0);
    FindIs("a@b", "@", 1);
  }

  /** One worker has claimed the job and got its slot. */
  lemma FirstHolding(cfg: Tuned) returns (acts: seq<Action>, s: System)
    ensures Runs(cfg, Initial, acts, s)
    ensures s.queue == Queue(map["j" := First], {"j"}) && s.origin == map["j" := First]
    ensures s.workers.Keys == {0} && s.workers[0].phase == Holding && s.workers[0].process == 0 && s.workers[0].job == First
    ensures s.announced == [] && s.history == [] && forall g | g in s.slots :: g.process == 0
  {
    acts, s := [], Initial;
    var next := Enqueue(First);
    Extend(cfg, Initial, acts, s, next);
    acts, s := acts + [next], Apply(cfg, s, next);
    assert s.queue.Due("j", 0);
    next := Claim(0, 0, "j", 0, {});
    Extend(cfg, Initial, acts, s, next);
    acts, s := acts + [next], Apply(cfg, s, next);
    next := Acquire(0);
    Extend(cfg, Initial, acts, s, next);
    acts, s := acts + [next], Apply(cfg, s, next);
  }

  /** It defers the job and has not announced that yet. */
  lemma DeferredUnannounced(cfg: Tuned) returns (acts: seq<Action>, s: System)
    requires cfg.maxAttempts >= 2
    ensures Runs(cfg, Initial, acts, s)
    ensures s.queue == Queue(map["j" := Job("j", Letter, 1, 0, "")], {}) && s.origin == map["j" := First]
    ensures s.workers.Keys == {0} && s.workers[0].phase == Settled(Entry("j", Deferred, 1, 0, true, Failed(false, ""), 0))
    ensures s.workers[0].process == 0 && s.announced == [] && forall g | g in s.slots :: g.process == 0
  {
    LetterRoutable();
    Backoff.CeilingPositive(0, cfg.backoffBase, cfg.backoffMax);
    acts, s := FirstHolding(cfg);
    var next := Attempt(0, Failed(false, ""));
    Extend(cfg, Initial, acts, s, next);
    acts, s := acts + [next], Apply(cfg, s, next);
    next := Settle(0, 0, 0, true);
    Extend(cfg, Initial, acts, s, next);
    acts, s := acts + [next], Apply(cfg, s, next);
  }

  /** A second process claims it and tries again. */
  lemma SecondHolding(cfg: Tuned) returns (acts: seq<Action>, s: System)
    requires cfg.maxAttempts >= 2
    ensures Runs(cfg, Initial, acts, s)
    ensures "j" in s.queue.jobs && s.origin == map["j" := First] && s.announced == []
    ensures 0 in s.workers && s.workers[0].phase == Settled(Entry("j", Deferred, 1, 0, true, Failed(false, ""), 0))
    ensures 1 in s.workers && s.workers[1].phase == Holding && s.workers[1].job == Job("j", Letter, 1, 0, "")
  {
    acts, s := DeferredUnannounced(cfg);
    assert s.queue.Due("j", 0);
    var next := Claim(1, 1, "j", 0, {});
    Extend(cfg, Initial, acts, s, next);
    acts, s := acts + [next], Apply(cfg, s, next);
    next := Acquire(1);
    Extend(cfg, Initial, acts, s, next);
    acts, s := acts + [next], Apply(cfg, s, next);
  }

  /** It succeeds and announces the delivery first. */
  lemma DeliveredFirst(cfg: Tuned) returns (acts: seq<Action>, s: System)
    requires cfg.maxAttempts >= 2
    ensures Runs(cfg, Initial, acts, s) && s.origin == map["j" := First]
    ensures 0 in s.workers && s.workers[0].phase == Settled(Entry("j", Deferred, 1, 0, true, Failed(false, ""), 0))
    ensures s.announced == [Entry("j", Delivered, 2, 0, true, Accepted, 0)]
  {
    LetterRoutable();
    Backoff.CeilingPositive(1, cfg.backoffBase, cfg.backoffMax);
    acts, s := SecondHolding(cfg);
    var next := Attempt(1, Accepted);
    Extend(cfg, Initial, acts, s, next);
    acts, s := acts + [next], Apply(cfg, s, next);
    next := Settle(1, 0, 0, true);
    Extend(cfg, Initial, acts, s, next);
    acts, s := acts + [next], Apply(cfg, s, next);
    next := Announce(1);
    Extend(cfg, Initial, acts, s, next);
    acts, s := acts + [next], Apply(cfg, s, next);
  }

  /** Jobs are enqueued with a non-negative attempt count; submission always enqueues 0. */
  ghost predicate NewJobs(t: System) {
    forall id | id in t.origin :: t.origin[id].attempts >= 0
  }

  /** Whenever retries are configured at all, some run announces a delivery before the deferral that
      preceded it. */
  lemma OvertakingRun(cfg: Tuned) returns (acts: seq<Action>, t: System)
    requires cfg.maxAttempts >= 2
    ensures Runs(cfg, Initial, acts, t) && NewJobs(t) && !InOrder(t.announced)
  {
    acts, t := DeliveredFirst(cfg);
    var next := Announce(0);
    Extend(cfg, Initial, acts, t, next);
    acts, t := acts + [next], Apply(cfg, t, next);
    assert t.announced[0].id == t.announced[1].id;
  }

  /** With a single attempt nothing is ever deferred, so at most one announcement per job exists. */
  lemma SingleAttemptInOrder(cfg: Tuned, acts: seq<Action>, t: System)
    requires cfg.maxAttempts == 1 && Runs(cfg, Initial, acts, t)
    requires forall id | id in t.origin :: t.origin[id].attempts >= 0
    ensures InOrder(t.announced)
  {
    InitialInv(cfg);
    NoDeferrals(cfg, Initial, acts, t);
    RunKeepsInv(cfg, Initial, acts, t);
  }

  ghost predicate OnlyFinal(s: System) {
    && (forall i | 0 <= i < |s.announced| :: !s.announced[i].decision.Deferred?)
    && (forall w, e | Owes(s, w, e) :: !e.decision.Deferred?)
  }

  lemma {:induction false} OriginGrows(cfg: Tuned, s: System, acts: seq<Action>, t: System)
    requires Runs(cfg, s, acts, t)
    ensures forall id | id in s.origin :: id in t.origin && t.origin[id] == s.origin[id]
    decreases |acts|
  {
    if acts != [] {
      OriginGrows(cfg, Apply(cfg, s, acts[0]), acts[1..], t);
    }
  }

  lemma StepOnlyFinal(cfg: Tuned, s: System, a: Action)
    requires cfg.maxAttempts == 1 && Ownership(s) && Ledgers(cfg, s) && OnlyFinal(s) && Enabled(cfg, s, a)
    requires forall id | id in s.origin :: s.origin[id].attempts >= 0
    ensures OnlyFinal(Apply(cfg, s, a))
  {
    if a.Settle? {
      var t, e := SettleIs(cfg, s, a);
      SettledHistory(cfg, s, t, a.w, e, a.delay);
      assert forall v, d | Owes(t, v, d) && v != a.w :: Owes(s, v, d);
    } else {
      var t := Apply(cfg, s, a);
      assert a.Announce? ==> Owes(s, a.w, s.workers[a.w].phase.entry);
      assert forall v, e | Owes(t, v, e) :: Owes(s, v, e);
    }
  }

  lemma {:induction false} NoDeferrals(cfg: Tuned, s: System, acts: seq<Action>, t: System)
    requires cfg.maxAttempts == 1 && Inv(cfg, s) && OnlyFinal(s) && Runs(cfg, s, acts, t)
    requires forall id | id in t.origin :: t.origin[id].attempts >= 0
    ensures OnlyFinal(t)
    decreases |acts|
  {
    if acts != [] {
      OriginGrows(cfg, s, acts, t);
      StepOnlyFinal(cfg, s, acts[0]);
      StepInv(cfg, s, acts[0]);
      NoDeferrals(cfg, Apply(cfg, s, acts[0]), acts[1..], t);
    }
  }

  ghost predicate Possible(cfg: Tuned, acts: seq<Action>, t: System) {
    Runs(cfg, Initial, acts, t) && NewJobs(t)
  }

  /** Announcements are in order in every run exactly when the configuration allows a single attempt. */
  lemma AlwaysInOrderIff(cfg: Tuned)
    ensures (forall acts, t | Possible(cfg, acts, t) :: InOrder(t.announced)) <==> cfg.maxAttempts == 1
  {
    if cfg.maxAttempts == 1 {
      forall acts, t | Possible(cfg, acts, t)
        ensures InOrder(t.announced)
      {
        SingleAttemptInOrder(cfg, acts, t);
      }
    } else {
      var acts, t := OvertakingRun(cfg);
      assert Possible(cfg, acts, t);
    }
  }
}
