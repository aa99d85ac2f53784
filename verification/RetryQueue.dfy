/** The claim-and-retry queue that outbound mail (internal/queue) and webhook delivery
    (internal/webhook) both use. `Queue` is the abstract value every later module reasons about;
    `MemoryQueue` is the in-memory implementation, proved against it. Times are integer nanoseconds. */
module RetryQueue {

  datatype Option<+T> = None | Some(value: T)

  /** A queued unit of work. `body` holds the fields that differ between mail and webhook jobs. */
  datatype Job<B> = Job(id: string, body: B, attempts: int, nextAttemptAt: int, lastError: string)

  /** A job after one more failed attempt. */
  function Retried<B>(job: Job<B>, cause: Option<string>, next: int): Job<B> {
    job.(attempts := job.attempts + 1, nextAttemptAt := next,
         lastError := if cause.Some? then cause.value else job.lastError)
  }

  datatype Queue<B> = Queue(jobs: map<string, Job<B>>, claimed: set<string>) {

    /** Every job sits under its own ID, and only stored jobs are claimed. */
    ghost predicate Valid() {
      && (forall id | id in jobs :: jobs[id].id == id)
      && claimed <= jobs.Keys
    }

    predicate Due(id: string, now: int) {
      id in jobs && id !in claimed && jobs[id].nextAttemptAt <= now
    }

    /** The job a Dequeue at `now` may hand out: due, unclaimed, and none due earlier. */
    ghost predicate EarliestDue(id: string, now: int) {
      && Due(id, now)
      && forall other | Due(other, now) :: jobs[id].nextAttemptAt <= jobs[other].nextAttemptAt
    }

    /** The same where Dequeue passes over the rows in `skipped`; the in-memory queue skips none. */
    ghost predicate EarliestExcept(id: string, now: int, skipped: set<string>) {
      && Due(id, now) && id !in skipped
      && forall other | Due(other, now) && other !in skipped :: jobs[id].nextAttemptAt <= jobs[other].nextAttemptAt
    }

    /** Jobs nobody has claimed. */
    function Waiting(): set<string> {
      jobs.Keys - claimed
    }

    function Put(job: Job<B>): Queue<B> {
      this.(jobs := jobs[job.id := job])
    }

    function Claim(id: string): Queue<B> {
      this.(claimed := claimed + {id})
    }

    function Remove(id: string): Queue<B> {
      Queue(jobs - {id}, claimed - {id})
    }

    function Reschedule(id: string, cause: Option<string>, next: int): Queue<B>
      requires id in jobs
    {
      Queue(jobs[id := Retried(jobs[id], cause, next)], claimed - {id})
    }
  }

  /** Whenever some unclaimed job is due, Dequeue has an earliest one to hand out. */
  lemma EarliestExists<B>(q: Queue<B>, now: int, due: string) returns (id: string)
    requires q.Due(due, now)
    ensures q.EarliestDue(id, now)
  {
    var all := set k | k in q.jobs && q.Due(k, now);
    assert due in all;
    id := EarliestAmong(q, now, all);
    forall other | q.Due(other, now)
      ensures q.jobs[id].nextAttemptAt <= q.jobs[other].nextAttemptAt
    {
      assert other in all;
    }
  }

  lemma {:induction false} EarliestAmong<B>(q: Queue<B>, now: int, among: set<string>) returns (id: string)
    requires among != {}
    requires forall k | k in among :: q.Due(k, now)
    ensures id in among && id in q.jobs
    ensures forall k | k in among && k in q.jobs :: q.jobs[id].nextAttemptAt <= q.jobs[k].nextAttemptAt
    ensures q.Due(id, now)
    decreases |among|
  {
    var first :| first in among;
    var rest := among - {first};
    assert forall k | k in among :: k == first || k in rest;
    id := first;
    if rest != {} {
      var best := EarliestAmong(q, now, rest);
      if q.jobs[best].nextAttemptAt < q.jobs[id].nextAttemptAt {
        id := best;
      }
    }
  }

  /** The process-local queue. `cancelled` stands for a context that is already done. */
  class MemoryQueue<B> {
    var jobs: map<string, Job<B>>
    var claimed: set<string>

    ghost function Contents(): Queue<B>
      reads this
    {
      Queue(jobs, claimed)
    }

    ghost predicate Valid()
      reads this
    {
      Contents().Valid()
    }

    constructor ()
      ensures Valid() && Contents() == Queue(map[], {})
    {
      jobs, claimed := map[], {};
    }

    method Enqueue(cancelled: bool, job: Job<B>) returns (ok: bool)
      requires Valid()
      modifies this
      ensures Valid()
      ensures ok <==> !cancelled && job.id != ""
      ensures Contents() == if ok then old(Contents()).Put(job) else old(Contents())
      ensures ok ==> jobs == old(jobs)[job.id := job] && claimed == old(claimed)
    {
      if cancelled || job.id == "" {
        return false;
      }
      jobs := jobs[job.id := job];
      return true;
    }

    /** Hands out an earliest due unclaimed job exactly when one exists, and claims it. */
    method Dequeue(cancelled: bool, now: int) returns (got: Option<Job<B>>)
      requires Valid()
      modifies this
      ensures Valid()
      ensures got.None? ==> Contents() == old(Contents())
      ensures got.None? ==> cancelled || forall id :: !old(Contents()).Due(id, now)
      ensures got.Some? ==> !cancelled && old(Contents()).EarliestDue(got.value.id, now)
      ensures got.Some? ==> got.value == old(jobs)[got.value.id] && Contents() == old(Contents()).Claim(got.value.id)
      ensures jobs == old(jobs) && claimed == if got.Some? then old(claimed) + {got.value.id} else old(claimed)
      ensures got.None? && !cancelled ==> forall id | id in jobs && id !in claimed :: jobs[id].nextAttemptAt > now
      ensures got.Some? ==>
        && got.value.id !in old(claimed) && got.value.nextAttemptAt <= now
        && forall id | id in jobs && id !in old(claimed) :: got.value.nextAttemptAt <= jobs[id].nextAttemptAt
    {
      if cancelled {
        return None;
      }
      var best: Option<Job<B>> := None;
      var rest := jobs.Keys;
      while rest != {}
        invariant rest <= jobs.Keys
        invariant best.None? ==> forall id | id in jobs.Keys - rest :: !Contents().Due(id, now)
        invariant best.Some? ==> best.value.id in jobs && jobs[best.value.id] == best.value && Contents().Due(best.value.id, now)
        invariant best.Some? ==>
          forall id | id in jobs.Keys - rest && Contents().Due(id, now) :: best.value.nextAttemptAt <= jobs[id].nextAttemptAt
        decreases rest
      {
        var id :| id in rest;
        rest := rest - {id};
        if id in claimed || now < jobs[id].nextAttemptAt {
          continue;
        }
        if best.None? || jobs[id].nextAttemptAt < best.value.nextAttemptAt {
          best := Some(jobs[id]);
        }
      }
      assert best.None? ==> forall id | id in jobs && id !in claimed :: !Contents().Due(id, now);
      if best.Some? {
        claimed := claimed + {best.value.id};
      }
      return best;
    }

    /** The depth sampled for metrics: jobs under way as well as jobs waiting. */
    method Count(cancelled: bool) returns (count: Option<nat>)
      requires Valid()
      ensures count.None? <==> cancelled
      ensures count.Some? ==> count.value == |Contents().claimed| + |Contents().Waiting()|
    {
      if cancelled {
        return None;
      }
      assert jobs.Keys == claimed + Contents().Waiting();
      return Some(|jobs|);
    }

    method Complete(cancelled: bool, id: string) returns (ok: bool)
      requires Valid()
      modifies this
      ensures Valid()
      ensures ok <==> !cancelled && id in old(jobs)
      ensures Contents() == if ok then old(Contents()).Remove(id) else old(Contents())
      ensures ok ==> jobs == old(jobs) - {id} && claimed == old(claimed) - {id}
    {
      if cancelled || id !in jobs {
        return false;
      }
      jobs := jobs - {id};
      claimed := claimed - {id};
      return true;
    }

    method Fail(cancelled: bool, id: string, cause: Option<string>, next: int) returns (ok: bool)
      requires Valid()
      modifies this
      ensures Valid()
      ensures ok <==> !cancelled && id in old(jobs)
      ensures Contents() == if ok then old(Contents()).Reschedule(id, cause, next) else old(Contents())
      ensures ok ==> jobs.Keys == old(jobs).Keys && claimed == old(claimed) - {id}
      ensures ok ==> forall k | k in jobs && k != id :: jobs[k] == old(jobs)[k]
      ensures ok ==>
        && jobs[id].id == id && jobs[id].body == old(jobs)[id].body
        && jobs[id].attempts == old(jobs)[id].attempts + 1 && jobs[id].nextAttemptAt == next
        && jobs[id].lastError == if cause.Some? then cause.value else old(jobs)[id].lastError
    {
      if cancelled || id !in jobs {
        return false;
      }
      var job := jobs[id];
      job := job.(attempts := job.attempts + 1, nextAttemptAt := next);
      if cause.Some? {
        job := job.(lastError := cause.value);
      }
      jobs := jobs[id := job];
      claimed := claimed - {id};
      return true;
    }
  }
}
