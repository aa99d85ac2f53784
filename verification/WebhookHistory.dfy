/** What the store keeps of a webhook job's attempts. Recording an attempt may fail, and the dispatcher ignores the
    error (internal/webhook/dispatcher.go:279), so the stored numbers can have gaps. */
module WebhookHistory {
  import opened RetryQueue
  import opened Webhook
  import opened WebhookAttempts

  /** The attempts that reached the store. */
  function Kept(h: seq<Made>): seq<Made> {
    if h == [] then []
    else Kept(h[..|h| - 1]) + if h[|h| - 1].kept then [h[|h| - 1]] else []
  }

  /** Numbered 1, 2, ... without gaps. */
  predicate Numbered(h: seq<Made>) {
    forall j | 0 <= j < |h| :: h[j].attempt.number == j + 1
  }

  /** No record that was kept follows one that was lost. */
  predicate LossesLast(h: seq<Made>) {
    forall i, j | 0 <= i < j < |h| && h[j].kept :: h[i].kept
  }

  predicate AllKept(h: seq<Made>) {
    forall j | 0 <= j < |h| :: h[j].kept
  }

  lemma KeptAppend(h: seq<Made>, m: Made)
    ensures Kept(h + [m]) == if m.kept then Kept(h) + [m] else Kept(h)
    ensures AllKept(h + [m]) <==> AllKept(h) && m.kept
  {
    assert (h + [m])[..|h|] == h;
    assert (h + [m])[|h|] == m && forall j | 0 <= j < |h| :: (h + [m])[j] == h[j];
  }

  lemma LossesAppend(h: seq<Made>, m: Made)
    ensures LossesLast(h + [m]) <==> LossesLast(h) && (m.kept ==> AllKept(h))
  {
    assert (h + [m])[|h|] == m && forall j | 0 <= j < |h| :: (h + [m])[j] == h[j];
  }

  lemma NumberedAppend(h: seq<Made>, m: Made)
    ensures Numbered(h + [m]) <==> Numbered(h) && m.attempt.number == |h| + 1
  {
    assert (h + [m])[|h|] == m && forall j | 0 <= j < |h| :: (h + [m])[j] == h[j];
  }

  lemma {:induction false} KeptAll(h: seq<Made>)
    ensures |Kept(h)| <= |h| && (|Kept(h)| == |h| <==> AllKept(h))
  {
    if h != [] {
      var before, m := h[..|h| - 1], h[|h| - 1];
      assert h == before + [m];
      KeptAll(before);
      KeptAppend(before, m);
    }
  }

  lemma {:induction false} KeptNumberedIff(h: seq<Made>)
    requires Numbered(h)
    ensures Numbered(Kept(h)) <==> LossesLast(h)
  {
    if h != [] {
      var before, m := h[..|h| - 1], h[|h| - 1];
      assert h == before + [m];
      NumberedAppend(before, m);
      KeptNumberedIff(before);
      KeptAll(before);
      KeptAppend(before, m);
      LossesAppend(before, m);
      NumberedAppend(Kept(before), m);
    }
  }

  /** In every run, what is stored of a job is numbered 1, 2, ... without gaps exactly when no kept record
      follows a lost one. */
  lemma StoredNumberedIff(max: int, acts: seq<Action>, t: System, id: string)
    requires Runs(max, Initial, acts, t)
    ensures var h := HistoryOf(t.made, id); Numbered(Kept(h)) <==> LossesLast(h)
  {
    JobAttempts(max, acts, t, id);
    KeptNumberedIff(HistoryOf(t.made, id));
  }

  // ---------- a run with a gap ----------

  lemma {:induction false} Extend(max: int, s: System, acts: seq<Action>, t: System, a: Action)
    requires Runs(max, s, acts, t) && Enabled(t, a)
    ensures Runs(max, s, acts + [a], Apply(max, t, a))
    decreases |acts|
  {
    if acts == [] {
      assert acts + [a] == [a];
      assert [a][1..] == [];
    } else {
      assert (acts + [a])[0] == acts[0] && (acts + [a])[1..] == acts[1..] + [a];
      Extend(max, Apply(max, s, acts[0]), acts[1..], t, a);
    }
  }

  /** Exactly this job is queued, unclaimed and due, and nobody is at work. */
  predicate Ready(s: System, job: Job<Delivery>) {
    s.queue == Queue(map[job.id := job], {}) && job.nextAttemptAt <= 0 && s.workers == map[]
  }

  const Sub := Subscription("s", "v", "u", "k", [], false)
  const Published := Event("v", "t", "p")

  lemma OneJobQueued(max: int) returns (acts: seq<Action>, s: System)
    ensures Runs(max, Initial, acts, s) && s.made == [] && Ready(s, JobFor("j", Sub, "e", Published, 0))
  {
    acts, s := [], Initial;
    var next := Subscribe(Sub);
    Extend(max, Initial, acts, s, next);
    acts, s := acts + [next], Apply(max, s, next);
    next := Publish("e", Published, [Sub]);
    assert s.subs == map["s" := Sub];
    assert IsListing(s.subs, "v", [Sub]);
    Extend(max, Initial, acts, s, next);
    acts, s := acts + [next], Apply(max, s, next);
    next := Push("e", "j", 0);
    Extend(max, Initial, acts, s, next);
    acts, s := acts + [next], Apply(max, s, next);
    assert Matches(Sub, "t");
  }

  lemma Claimed(max: int, before: seq<Action>, s: System, job: Job<Delivery>) returns (acts: seq<Action>, t: System)
    requires Runs(max, Initial, before, s) && Ready(s, job)
    ensures Runs(max, Initial, acts, t) && t.made == s.made
    ensures t.queue == Queue(map[job.id := job], {job.id}) && t.workers == map[0 := Worker(job, Phase.Claimed)]
  {
    assert s.queue.Due(job.id, 0);
    var next := Claim(0, job.id, 0);
    Extend(max, Initial, before, s, next);
    acts, t := before + [next], Apply(max, s, next);
  }

  lemma Unanswered(max: int, before: seq<Action>, s: System, job: Job<Delivery>) returns (acts: seq<Action>, t: System)
    requires Runs(max, Initial, before, s) && s.workers == map[0 := Worker(job, Phase.Claimed)]
    ensures Runs(max, Initial, acts, t) && t.made == s.made && t.queue == s.queue && t.workers == map[0 := Worker(job, Sent(false))]
  {
    var next := Send(0, false);
    Extend(max, Initial, before, s, next);
    acts, t := before + [next], Apply(max, s, next);
  }

  lemma Recorded(max: int, before: seq<Action>, s: System, job: Job<Delivery>, kept: bool) returns (acts: seq<Action>, t: System)
    requires Runs(max, Initial, before, s) && s.workers == map[0 := Worker(job, Sent(false))]
    ensures Runs(max, Initial, acts, t) && t.queue == s.queue && t.workers == map[0 := Worker(job, Logged(false))]
    ensures |t.made| == |s.made| + 1 && t.made[..|s.made|] == s.made
    ensures var m := t.made[|s.made|]; m.job == job.id && m.attempt.number == job.attempts + 1 && m.kept == kept
  {
    var next := Record(0, kept);
    Extend(max, Initial, before, s, next);
    acts, t := before + [next], Apply(max, s, next);
  }

  /** One failed attempt at the job, whose record is kept or lost. */
  lemma FailedAttempt(max: int, before: seq<Action>, s: System, job: Job<Delivery>, kept: bool) returns (acts: seq<Action>, t: System)
    requires Runs(max, Initial, before, s) && Ready(s, job)
    ensures Runs(max, Initial, acts, t)
    ensures t.queue == Queue(map[job.id := job], {job.id}) && t.workers == map[0 := Worker(job, Logged(false))]
    ensures |t.made| == |s.made| + 1 && t.made[..|s.made|] == s.made
    ensures var m := t.made[|s.made|]; m.job == job.id && m.attempt.number == job.attempts + 1 && m.kept == kept
  {
    acts, t := Claimed(max, before, s, job);
    acts, t := Unanswered(max, acts, t, job);
    acts, t := Recorded(max, acts, t, job, kept);
  }

  lemma Rescheduled(max: int, before: seq<Action>, s: System, job: Job<Delivery>) returns (acts: seq<Action>, t: System)
    requires Runs(max, Initial, before, s) && job.attempts + 1 < max
    requires s.queue == Queue(map[job.id := job], {job.id}) && s.workers == map[0 := Worker(job, Logged(false))]
    ensures Runs(max, Initial, acts, t) && t.made == s.made && Ready(t, Retried(job, Some(""), 0))
  {
    var next := Settle(0, "", 0, true);
    Extend(max, Initial, before, s, next);
    acts, t := before + [next], Apply(max, s, next);
    assert t.queue.jobs == map[job.id := Retried(job, Some(""), 0)] && t.workers == map[];
  }

  lemma SecondOnly(lost: Made, kept: Made)
    requires lost.job == kept.job && !lost.kept && kept.kept && kept.attempt.number == 2
    ensures !Numbered(Kept(HistoryOf([lost, kept], lost.job)))
  {
    HistoryAppend([], lost, lost.job);
    HistoryAppend([lost], kept, lost.job);
    assert [] + [lost] == [lost] && [lost] + [kept] == [lost, kept];
    KeptAppend([], lost);
    KeptAppend([lost], kept);
    assert Kept([lost, kept]) == [kept];
  }

  /** Whenever a job may be retried, some run stores attempt 2 without attempt 1. */
  lemma GapRun(max: int) returns (acts: seq<Action>, t: System)
    requires max >= 2
    ensures Runs(max, Initial, acts, t) && !Numbered(Kept(HistoryOf(t.made, "j")))
  {
    var job := JobFor("j", Sub, "e", Published, 0);
    acts, t := OneJobQueued(max);
    acts, t := FailedAttempt(max, acts, t, job, false);
    var lost := t.made[0];
    acts, t := Rescheduled(max, acts, t, job);
    acts, t := FailedAttempt(max, acts, t, Retried(job, Some(""), 0), true);
    assert t.made == [lost, t.made[1]];
    SecondOnly(lost, t.made[1]);
  }

  ghost predicate Possible(max: int, acts: seq<Action>, t: System) {
    Runs(max, Initial, acts, t)
  }

  /** Stored attempts are numbered without gaps in all runs exactly when no job is retried. */
  lemma AlwaysNumberedIff(max: int)
    ensures (forall acts, t, id | Possible(max, acts, t) :: Numbered(Kept(HistoryOf(t.made, id)))) <==> max <= 1
  {
    if max <= 1 {
      forall acts, t, id | Possible(max, acts, t)
        ensures Numbered(Kept(HistoryOf(t.made, id)))
      {
        JobAttempts(max, acts, t, id);
        StoredNumberedIff(max, acts, t, id);
      }
    } else {
      var acts, t := GapRun(max);
      assert Possible(max, acts, t);
    }
  }
}
