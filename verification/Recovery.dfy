/** Which queued mail can still be settled. The code has no step that takes back a claim, so the answer depends on
    whether some worker still holds it. */
module Recovery {
  import opened RetryQueue
  import opened Delivery
  import opened DeliveryProgress

  /** The run records a further outcome for the job. */
  ghost predicate Touches(cfg: Tuned, s: System, acts: seq<Action>, t: System, id: string) {
    Runs(cfg, s, acts, t) && HistoryOf(t.history, id) != HistoryOf(s.history, id)
  }

  /** A worker step without faults, where Dequeue passes over no due job. */
  predicate InTurn(a: Action) {
    FaultFree(a) && !a.Enqueue? && (a.Claim? ==> a.skipped == {})
  }

  ghost predicate SettlesBy(cfg: Tuned, s: System, acts: seq<Action>, t: System, id: string) {
    && Runs(cfg, s, acts, t) && (forall a | a in acts :: InTurn(a))
    && |HistoryOf(t.history, id)| > |HistoryOf(s.history, id)|
  }

  lemma StepHistory(cfg: Tuned, s: System, a: Action, id: string)
    requires Enabled(cfg, s, a)
    ensures |HistoryOf(Apply(cfg, s, a).history, id)| >= |HistoryOf(s.history, id)|
    ensures a.Settle? && s.workers[a.w].job.id == id ==> |HistoryOf(Apply(cfg, s, a).history, id)| > |HistoryOf(s.history, id)|
  {
    if a.Settle? {
      HistoryAppend(s.history, Apply(cfg, s, a).history[|s.history|], id);
    }
  }

  lemma Prepend(cfg: Tuned, s: System, a: Action, acts: seq<Action>, t: System, id: string)
    requires Enabled(cfg, s, a) && InTurn(a) && SettlesBy(cfg, Apply(cfg, s, a), acts, t, id)
    ensures SettlesBy(cfg, s, [a] + acts, t, id)
  {
    StepHistory(cfg, s, a, id);
    assert ([a] + acts)[0] == a && ([a] + acts)[1..] == acts;
  }

  predicate Blocked(cfg: Tuned, s: System, w: nat)
    requires w in s.workers
  {
    s.workers[w].phase.Waiting? && Used(s, GateOf(s.workers[w])) >= cfg.perDomain
  }

  lemma OwnerMoves(cfg: Tuned, s: System, w: nat, id: string) returns (a: Action)
    requires Owns(s, w, id) && !Blocked(cfg, s, w) && !s.workers[w].phase.Tried?
    ensures Enabled(cfg, s, a) && InTurn(a)
    ensures var t := Apply(cfg, s, a);
      Owns(t, w, id) && !t.workers[w].phase.Waiting? && Rank(t.workers[w].phase) == Rank(s.workers[w].phase) + 1
  {
    a := if s.workers[w].phase.Waiting? then Acquire(w) else Attempt(w, Failed(true, ""));
  }

  /** A worker with a free way moves on towards settling its job... */
  lemma OwnerStep(cfg: Tuned, s: System, w: nat, id: string) returns (a: Action, t: System)
    requires Inv(cfg, s) && Owns(s, w, id) && !Blocked(cfg, s, w) && !s.workers[w].phase.Tried?
    ensures Enabled(cfg, s, a) && InTurn(a) && t == Apply(cfg, s, a) && Inv(cfg, t)
    ensures Owns(t, w, id) && !Blocked(cfg, t, w) && Rank(t.workers[w].phase) == Rank(s.workers[w].phase) + 1
  {
    a := OwnerMoves(cfg, s, w, id);
    t := Apply(cfg, s, a);
    StepInv(cfg, s, a);
  }

  lemma HolderMoved(cfg: Tuned, s: System, w: nat, id: string, a: Action)
    requires Owns(s, w, id) && s.workers[w].phase.Waiting? && Enabled(cfg, s, a)
    requires a.Attempt? || a.Settle? || a.Announce? || a.Release?
    requires GateOf(s.workers[a.w]) == GateOf(s.workers[w])
    ensures var t := Apply(cfg, s, a); Owns(t, w, id) && t.workers[w] == s.workers[w]
    ensures var t := Apply(cfg, s, a);
      if a.Release? then Used(t, GateOf(s.workers[w])) < Used(s, GateOf(s.workers[w]))
      else a.w in Holders(t, GateOf(s.workers[w])) && Rank(t.workers[a.w].phase) == Rank(s.workers[a.w].phase) + 1
  {
  }

  /** ... and a worker in its way moves on towards giving up its slot. */
  lemma HolderStep(cfg: Tuned, s: System, w: nat, v: nat, id: string) returns (a: Action, t: System)
    requires Inv(cfg, s) && Owns(s, w, id) && s.workers[w].phase.Waiting? && v in Holders(s, GateOf(s.workers[w]))
    ensures Enabled(cfg, s, a) && InTurn(a) && t == Apply(cfg, s, a) && Inv(cfg, t)
    ensures Owns(t, w, id) && t.workers[w].phase.Waiting?
    ensures if s.workers[v].phase.Announced? then !Blocked(cfg, t, w)
            else v in Holders(t, GateOf(t.workers[w])) && Rank(t.workers[v].phase) == Rank(s.workers[v].phase) + 1
  {
    a := HolderMoves(cfg, s, v);
    HolderMoved(cfg, s, w, id, a);
    assert Used(s, GateOf(s.workers[w])) <= cfg.perDomain;
    t := Apply(cfg, s, a);
    StepInv(cfg, s, a);
  }

  lemma SomeHolder(cfg: Tuned, s: System, w: nat) returns (v: nat)
    requires SlotsAgree(cfg, s) && w in s.workers && Blocked(cfg, s, w)
    ensures v in Holders(s, GateOf(s.workers[w]))
  {
    assert |Holders(s, GateOf(s.workers[w]))| == Used(s, GateOf(s.workers[w])) > 0;
    v :| v in Holders(s, GateOf(s.workers[w]));
  }

  lemma OneStepSettles(cfg: Tuned, s: System, a: Action, id: string)
    requires Enabled(cfg, s, a) && a.Settle? && InTurn(a) && s.workers[a.w].job.id == id
    ensures SettlesBy(cfg, s, [a], Apply(cfg, s, a), id)
  {
    StepHistory(cfg, s, a, id);
    assert [a][1..] == [];
  }

  lemma TriedSettles(cfg: Tuned, s: System, w: nat, id: string) returns (acts: seq<Action>, t: System)
    requires Inv(cfg, s) && Owns(s, w, id) && s.workers[w].phase.Tried?
    ensures SettlesBy(cfg, s, acts, t, id)
  {
    var a := HolderMoves(cfg, s, w);
    OneStepSettles(cfg, s, a, id);
    acts, t := [a], Apply(cfg, s, a);
  }

  lemma {:induction false} OpenSettles(cfg: Tuned, s: System, w: nat, id: string) returns (acts: seq<Action>, t: System)
    requires Inv(cfg, s) && Owns(s, w, id) && !Blocked(cfg, s, w)
    ensures SettlesBy(cfg, s, acts, t, id)
    decreases 4 - Rank(s.workers[w].phase)
  {
    if s.workers[w].phase.Tried? {
      acts, t := TriedSettles(cfg, s, w, id);
    } else {
      var a, mid := OwnerStep(cfg, s, w, id);
      var rest: seq<Action>;
      rest, t := OpenSettles(cfg, mid, w, id);
      Prepend(cfg, s, a, rest, t, id);
      acts := [a] + rest;
    }
  }

  lemma SlotGivenUp(cfg: Tuned, s: System, w: nat, v: nat, id: string) returns (acts: seq<Action>, t: System)
    requires Inv(cfg, s) && Owns(s, w, id) && s.workers[w].phase.Waiting? && v in Holders(s, GateOf(s.workers[w]))
    requires s.workers[v].phase.Announced?
    ensures SettlesBy(cfg, s, acts, t, id)
  {
    var a, mid := HolderStep(cfg, s, w, v, id);
    var rest: seq<Action>;
    rest, t := OpenSettles(cfg, mid, w, id);
    Prepend(cfg, s, a, rest, t, id);
    acts := [a] + rest;
  }

  lemma {:induction false} HolderFirst(cfg: Tuned, s: System, w: nat, v: nat, id: string) returns (acts: seq<Action>, t: System)
    requires Inv(cfg, s) && Owns(s, w, id) && s.workers[w].phase.Waiting? && v in Holders(s, GateOf(s.workers[w]))
    ensures SettlesBy(cfg, s, acts, t, id)
    decreases 5 - Rank(s.workers[v].phase)
  {
    if s.workers[v].phase.Announced? {
      acts, t := SlotGivenUp(cfg, s, w, v, id);
      return;
    }
    var a, mid := HolderStep(cfg, s, w, v, id);
    var rest: seq<Action>;
    rest, t := HolderFirst(cfg, mid, w, v, id);
    Prepend(cfg, s, a, rest, t, id);
    acts := [a] + rest;
  }

  /** The worker holding a job gets its slot, once others have given theirs up, tries and settles. */
  lemma OwnerSettles(cfg: Tuned, s: System, w: nat, id: string) returns (acts: seq<Action>, t: System)
    requires Inv(cfg, s) && Owns(s, w, id)
    ensures SettlesBy(cfg, s, acts, t, id)
  {
    if Blocked(cfg, s, w) {
      var v := SomeHolder(cfg, s, w);
      acts, t := HolderFirst(cfg, s, w, v, id);
    } else {
      acts, t := OpenSettles(cfg, s, w, id);
    }
  }

  lemma {:induction false} Above(ws: set<nat>) returns (n: nat)
    ensures forall w | w in ws :: w < n
    decreases |ws|
  {
    n := 0;
    if ws != {} {
      var w :| w in ws;
      var m := Above(ws - {w});
      assert forall v | v in ws :: v == w || v in ws - {w};
      n := if m > w then m else w + 1;
    }
  }

  lemma ClaimMoves(cfg: Tuned, s: System, id: string) returns (a: Action)
    requires s.queue.Valid() && id in s.queue.jobs && id !in s.queue.claimed
    ensures a.Claim? && Enabled(cfg, s, a) && InTurn(a)
    ensures var t := Apply(cfg, s, a); if a.id == id then Owns(t, a.w, id) else id in t.queue.jobs && id !in t.queue.claimed
    ensures var t := Apply(cfg, s, a); |t.queue.jobs.Keys - t.queue.claimed| < |s.queue.jobs.Keys - s.queue.claimed|
  {
    var now := s.queue.jobs[id].nextAttemptAt;
    var first := EarliestExists(s.queue, now, id);
    var w := Above(s.workers.Keys);
    a := Claim(w, 0, first, now, {});
    var t := Apply(cfg, s, a);
    assert t.queue.jobs.Keys - t.queue.claimed == s.queue.jobs.Keys - s.queue.claimed - {first};
  }

  /** A new worker claims a job due no later than this one. */
  lemma ClaimStep(cfg: Tuned, s: System, id: string) returns (a: Action, t: System)
    requires Inv(cfg, s) && id in s.queue.jobs && id !in s.queue.claimed
    ensures a.Claim? && Enabled(cfg, s, a) && InTurn(a) && t == Apply(cfg, s, a) && Inv(cfg, t)
    ensures if a.id == id then Owns(t, a.w, id) else id in t.queue.jobs && id !in t.queue.claimed
    ensures |t.queue.jobs.Keys - t.queue.claimed| < |s.queue.jobs.Keys - s.queue.claimed|
  {
    a := ClaimMoves(cfg, s, id);
    t := Apply(cfg, s, a);
    StepInv(cfg, s, a);
  }

  /** An unclaimed job is claimed once the jobs due before it have been. */
  lemma {:induction false} QueuedSettles(cfg: Tuned, s: System, id: string) returns (acts: seq<Action>, t: System)
    requires Inv(cfg, s) && id in s.queue.jobs && id !in s.queue.claimed
    ensures SettlesBy(cfg, s, acts, t, id)
    decreases |s.queue.jobs.Keys - s.queue.claimed|
  {
    var a, mid := ClaimStep(cfg, s, id);
    if a.id == id {
      acts, t := OwnerSettles(cfg, mid, a.w, id);
    } else {
      acts, t := QueuedSettles(cfg, mid, id);
    }
    Prepend(cfg, s, a, acts, t, id);
    acts := [a] + acts;
  }

  /** A queued job can get a further outcome exactly when it is not stranded; and then a run without faults
      gives it one. */
  lemma SettledAgainIff(cfg: Tuned, s: System, id: string)
    requires Inv(cfg, s) && id in s.queue.jobs
    ensures (exists acts, t :: Touches(cfg, s, acts, t, id)) <==> !Stranded(s, id)
    ensures (exists acts, t :: SettlesBy(cfg, s, acts, t, id)) <==> !Stranded(s, id)
  {
    if Stranded(s, id) {
      forall acts, t | Runs(cfg, s, acts, t)
        ensures HistoryOf(t.history, id) == HistoryOf(s.history, id)
      {
        StrandedForever(cfg, s, acts, t, id);
      }
    } else {
      var acts, t;
      if id in s.queue.claimed {
        var w :| Owns(s, w, id);
        acts, t := OwnerSettles(cfg, s, w, id);
      } else {
        acts, t := QueuedSettles(cfg, s, id);
      }
      assert SettlesBy(cfg, s, acts, t, id) && Touches(cfg, s, acts, t, id);
    }
  }

  /** Whatever the configuration, three steps strand a job: it is enqueued, claimed, and the context is
      cancelled while its worker waits for a slot. */
  lemma StrandingRun(cfg: Tuned, job: Job<Mail>) returns (acts: seq<Action>, t: System)
    requires job.id != ""
    ensures acts == [Enqueue(job), Claim(0, 0, job.id, job.nextAttemptAt, {}), Cancel(0)]
    ensures Runs(cfg, Initial, acts, t) && job.id in t.queue.jobs && Stranded(t, job.id)
  {
    t := Initial;
    acts := [];
    var next := Enqueue(job);
    Extend(cfg, Initial, acts, t, next);
    acts, t := acts + [next], Apply(cfg, t, next);
    assert t.queue.Due(job.id, job.nextAttemptAt);
    next := Claim(0, 0, job.id, job.nextAttemptAt, {});
    Extend(cfg, Initial, acts, t, next);
    acts, t := acts + [next], Apply(cfg, t, next);
    next := Cancel(0);
    Extend(cfg, Initial, acts, t, next);
    acts, t := acts + [next], Apply(cfg, t, next);
    assert t.workers == map[];
  }
}
