/** The retention sweep: pages through every vhost and deletes the messages that have outlived its window.
    A day is 24 hours; times are nanoseconds. Listing or deleting may fail, and the sweep may stop before
    any page. */
module Retention {
  import opened RetryQueue
  import opened Paging

  const DEFAULT_RETENTION_DAYS := 90
  const VHOST_PAGE := 100
  const DAY := 86_400_000_000_000

  datatype Vhost = Vhost(domain: string, retentionDays: int)

  datatype Ref = Ref(vhost: string, mailbox: string, key: string)

  /** What one sweep meets: the time, the operator's default, domains whose listing fails, and messages whose
      deletion fails. */
  datatype Conditions = Conditions(now: int, defaultDays: int, unlistable: set<string>, undeletable: set<Ref>)

  /** createdAt is None where the backend does not know the age. */
  type Store = map<Ref, Option<int>>

  function Days(c: Conditions, v: Vhost): (d: int)
    ensures d > 0
    ensures v.retentionDays > 0 ==> d == v.retentionDays
    ensures v.retentionDays <= 0 && c.defaultDays > 0 ==> d == c.defaultDays
    ensures v.retentionDays <= 0 && c.defaultDays <= 0 ==> d == 90
  {
    if v.retentionDays > 0 then v.retentionDays
    else if c.defaultDays > 0 then c.defaultDays else DEFAULT_RETENTION_DAYS
  }

  predicate Expired(c: Conditions, v: Vhost, created: Option<int>) {
    created.Some? && created.value <= c.now - Days(c, v) * DAY
  }

  predicate Purges(c: Conditions, v: Vhost, r: Ref, created: Option<int>) {
    r.vhost == v.domain && v.domain !in c.unlistable && r !in c.undeletable && Expired(c, v, created)
  }

  /** What is left of a store once the vhosts in `vs` have been purged, in whatever order. */
  function Survivors(c: Conditions, vs: set<Vhost>, store: Store): Store {
    map r | r in store && (forall v | v in vs :: !Purges(c, v, r, store[r])) :: store[r]
  }

  ghost function Visited<I>(directory: map<I, Vhost>, ids: seq<I>): set<Vhost>
    requires forall id | id in ids :: id in directory
  {
    set id | id in ids :: directory[id]
  }

  class Purger {
    var messages: Store

    constructor (messages: Store)
      ensures this.messages == messages
    {
      this.messages := messages;
    }

    method PurgeVhost(c: Conditions, v: Vhost)
      modifies this
      ensures messages == Survivors(c, {v}, old(messages))
    {
      var cutoff := c.now - Days(c, v) * DAY;
      if v.domain in c.unlistable {
        return;
      }
      ghost var before := messages;
      var listed := set r | r in messages && r.vhost == v.domain;
      while listed != {}
        invariant listed <= before.Keys && forall r | r in listed :: r.vhost == v.domain
        invariant messages == map r | r in before && (r in listed || !Purges(c, v, r, before[r])) :: before[r]
        decreases listed
      {
        var r :| r in listed;
        if messages[r].None? || messages[r].value > cutoff || r in c.undeletable {
          assert !Purges(c, v, r, before[r]);
        } else {
          messages := messages - {r};
        }
        listed := listed - {r};
      }
    }

    /** `stop(n)` says that the context is cancelled, or listing the vhosts fails, before page n. */
    method Sweep<I(==,!new)>(less: (I, I) -> bool, directory: map<I, Vhost>, c: Conditions, stop: nat -> bool) returns (visited: seq<I>, complete: bool)
      requires TotalOrder(less)
      modifies this
      ensures Ascending(less, visited) && forall id | id in visited :: id in directory
      ensures forall id, done | id in directory && id !in visited && done in visited :: less(done, id)
      ensures complete ==> forall id | id in directory :: id in visited
      ensures (forall n :: !stop(n)) ==> complete
      ensures messages == Survivors(c, Visited(directory, visited), old(messages))
    {
      var cursor: Option<I>, n := None, 0;
      visited, complete := [], false;
      ghost var before := messages;
      while true
        invariant Reached(less, directory.Keys, cursor, visited)
        invariant messages == Survivors(c, Visited(directory, visited), before)
        decreases |Eligible(less, directory.Keys, cursor)|
      {
        if stop(n) {
          return;
        }
        var page := ListPage(less, directory.Keys, cursor, VHOST_PAGE);
        ghost var upTo := visited;
        var i := 0;
        while i < |page|
          invariant 0 <= i <= |page| && visited == upTo + page[..i]
          invariant forall id | id in visited :: id in directory
          invariant messages == Survivors(c, Visited(directory, visited), before)
        {
          PurgeVhost(c, directory[page[i]]);
          PurgeOneMore(c, directory, visited, page[i], before);
          visited := visited + [page[i]];
          i := i + 1;
        }
        ReachedNext(less, directory.Keys, cursor, upTo, page, VHOST_PAGE);
        assert visited == upTo + page;
        if |page| < VHOST_PAGE {
          complete := true;
          return;
        }
        cursor, n := Some(page[|page| - 1]), n + 1;
      }
    }
  }

  /** The vhosts visited so far are those up to the cursor, in order. */
  ghost predicate Reached<I(!new)>(less: (I, I) -> bool, ids: set<I>, cursor: Option<I>, visited: seq<I>) {
    && Ascending(less, visited)
    && (forall id :: id in visited <==> id in ids && !After(less, cursor, id))
  }

  lemma ReachedNext<I(!new)>(less: (I, I) -> bool, ids: set<I>, cursor: Option<I>, visited: seq<I>, page: seq<I>, limit: nat)
    requires TotalOrder(less) && Reached(less, ids, cursor, visited) && IsPage(less, ids, cursor, limit, page)
    ensures Ascending(less, visited + page)
    ensures forall id, done | id in ids && id !in visited + page && done in visited + page :: less(done, id)
    ensures |page| < limit ==> forall id | id in ids :: id in visited + page
    ensures |page| == limit > 0 ==> Reached(less, ids, Some(page[limit - 1]), visited + page)
    ensures |page| == limit > 0 ==> |Eligible(less, ids, Some(page[limit - 1]))| < |Eligible(less, ids, cursor)|
  {
    forall a, b | a in visited && After(less, cursor, b)
      ensures less(a, b)
    {
      assert !After(less, cursor, a);
      assert cursor.Some? && (a == cursor.value || less(a, cursor.value));
    }
    if |page| < limit {
      ShortPageHasAll(less, ids, cursor, limit, page);
      assert forall id | id in ids && id !in visited :: id in Eligible(less, ids, cursor);
    } else if limit > 0 {
      var last := page[limit - 1];
      assert last in page;
      assert forall id | id in page :: id == last || less(id, last);
      assert forall id | id in visited :: less(id, last);
      assert last in Eligible(less, ids, cursor) && last !in Eligible(less, ids, Some(last));
      forall id | id in Eligible(less, ids, Some(last))
        ensures id in Eligible(less, ids, cursor)
      {
        assert cursor.Some? ==> less(cursor.value, last);
      }
      ProperSubset(Eligible(less, ids, Some(last)), Eligible(less, ids, cursor), last);
    }
  }

  lemma PurgeOneMore<I>(c: Conditions, directory: map<I, Vhost>, visited: seq<I>, id: I, store: Store)
    requires (forall x | x in visited :: x in directory) && id in directory
    ensures forall x | x in visited + [id] :: x in directory
    ensures Survivors(c, {directory[id]}, Survivors(c, Visited(directory, visited), store)) == Survivors(c, Visited(directory, visited + [id]), store)
  {
    assert Visited(directory, visited + [id]) == Visited(directory, visited) + {directory[id]};
    PurgeUnion(c, {directory[id]}, Visited(directory, visited), store);
  }

  lemma PurgeUnion(c: Conditions, vs: set<Vhost>, ws: set<Vhost>, store: Store)
    ensures Survivors(c, vs, Survivors(c, ws, store)) == Survivors(c, ws + vs, store)
  {
  }

  // ---------- what a complete sweep leaves ----------

  predicate DomainsUnique<I>(directory: map<I, Vhost>) {
    forall i, j | i in directory && j in directory && directory[i].domain == directory[j].domain :: i == j
  }

  predicate Clean(c: Conditions) {
    c.unlistable == {} && c.undeletable == {}
  }

  /** A complete sweep without failures leaves a message exactly when its domain is not listed, its age is
      unknown, or it is younger than its own vhost's window. */
  lemma LeftExactly<I(!new)>(c: Conditions, directory: map<I, Vhost>, visited: seq<I>, store: Store, r: Ref)
    requires Clean(c) && DomainsUnique(directory) && (forall id :: id in visited <==> id in directory) && r in store
    ensures (forall id | id in directory :: directory[id].domain != r.vhost) ==> r in Survivors(c, Visited(directory, visited), store)
    ensures forall id | id in directory && directory[id].domain == r.vhost ::
              r in Survivors(c, Visited(directory, visited), store)
              <==> store[r].None? || store[r].value > c.now - Days(c, directory[id]) * 86_400_000_000_000
  {
    forall id | id in directory && directory[id].domain == r.vhost
      ensures r in Survivors(c, Visited(directory, visited), store) <==> !Expired(c, directory[id], store[r])
    {
      assert id in visited && directory[id] in Visited(directory, visited);
      assert Purges(c, directory[id], r, store[r]) <==> Expired(c, directory[id], store[r]);
      forall v | v in Visited(directory, visited) && v.domain == r.vhost
        ensures v == directory[id]
      {
        var j :| j in visited && directory[j] == v;
      }
    }
  }

  /** A sweep that met failures or stopped early is made good by a later clean one with the same defaults: the
      result is as if only the later one had run. In particular a sweep repeated at once deletes nothing. */
  lemma LaterSweepAbsorbs(c: Conditions, later: Conditions, vs: set<Vhost>, all: set<Vhost>, store: Store)
    requires c.now <= later.now && c.defaultDays == later.defaultDays && Clean(later) && vs <= all
    ensures Survivors(later, all, Survivors(c, vs, store)) == Survivors(later, all, store)
  {
    forall r, v | r in store && v in vs && Purges(c, v, r, store[r])
      ensures Purges(later, v, r, store[r])
    {
    }
  }

  lemma RepeatDeletesNothing(c: Conditions, vs: set<Vhost>, store: Store)
    ensures Survivors(c, vs, Survivors(c, vs, store)) == Survivors(c, vs, store)
  {
    PurgeUnion(c, vs, vs, store);
    assert vs + vs == vs;
  }
}
