/** Keyset pagination: a page holds the first `limit` keys after the cursor, and the last key of a full page is the
    next cursor. Used for vhosts, tokens, subscriptions, delivery attempts and audit entries. Keys are
    compared only through a strict total order. */
module Paging {
  import opened RetryQueue

  ghost predicate TotalOrder<K(!new)>(less: (K, K) -> bool) {
    && (forall a :: !less(a, a))
    && (forall a, b, c :: less(a, b) && less(b, c) ==> less(a, c))
    && (forall a, b :: a == b || less(a, b) || less(b, a))
  }

  predicate Ascending<K>(less: (K, K) -> bool, s: seq<K>) {
    forall i, j | 0 <= i < j < |s| :: less(s[i], s[j])
  }

  predicate After<K(==)>(less: (K, K) -> bool, cursor: Option<K>, k: K) {
    cursor.None? || less(cursor.value, k)
  }

  ghost function Eligible<K>(less: (K, K) -> bool, table: set<K>, cursor: Option<K>): set<K> {
    set k | k in table && After(less, cursor, k)
  }

  /** The first `limit` rows after the cursor, in order. */
  ghost predicate IsPage<K>(less: (K, K) -> bool, table: set<K>, cursor: Option<K>, limit: nat, page: seq<K>) {
    && Ascending(less, page)
    && (forall k | k in page :: k in table && After(less, cursor, k))
    && |page| == (if |Eligible(less, table, cursor)| < limit then |Eligible(less, table, cursor)| else limit)
    && (forall k, p | k in table && After(less, cursor, k) && k !in page && p in page :: less(p, k))
  }

  // ---------- the in-memory listing ----------

  method Least<K(==)>(less: (K, K) -> bool, keys: set<K>) returns (least: K)
    requires keys != {} && forall a, b, c | a in keys && b in keys && c in keys && less(a, b) && less(b, c) :: less(a, c)
    requires forall a, b | a in keys && b in keys :: a == b || less(a, b) || less(b, a)
    ensures least in keys && forall k | k in keys && k != least :: less(least, k)
  {
    least :| least in keys;
    var rest := keys - {least};
    while rest != {}
      invariant rest <= keys && least in keys && least !in rest
      invariant forall k | k in keys - rest && k != least :: less(least, k)
      decreases rest
    {
      var k :| k in rest;
      if less(k, least) {
        least := k;
      }
      rest := rest - {k};
    }
  }

  /** ListTokens, ListSubscriptions: collect and sort by ID. */
  method SortedKeys<K(==)>(less: (K, K) -> bool, keys: set<K>) returns (all: seq<K>)
    requires forall a, b, c | a in keys && b in keys && c in keys && less(a, b) && less(b, c) :: less(a, c)
    requires forall a, b | a in keys && b in keys :: a == b || less(a, b) || less(b, a)
    ensures Ascending(less, all) && forall k :: k in all <==> k in keys
  {
    all := [];
    var rest := keys;
    while rest != {}
      invariant rest <= keys && Ascending(less, all)
      invariant forall k :: k in all <==> k in keys - rest
      invariant forall a, k | a in all && k in rest :: less(a, k)
      decreases rest
    {
      var k := Least(less, rest);
      all, rest := all + [k], rest - {k};
    }
  }

  /** ListTokensPage: scan for the first ID after the cursor and cut the window out of the sorted list. */
  method Window<K(==)>(less: (K, K) -> bool, all: seq<K>, cursor: Option<K>, limit: nat) returns (page: seq<K>, ghost start: nat)
    requires Ascending(less, all)
    ensures start <= |all| && page == all[start..if start + limit < |all| then start + limit else |all|]
    ensures forall i | 0 <= i < start :: !After(less, cursor, all[i])
    ensures start < |all| ==> After(less, cursor, all[start])
  {
    var from := |all|;
    if cursor.None? {
      from := 0;
    } else {
      var i := 0;
      while i < |all|
        invariant 0 <= i <= |all| && from == |all|
        invariant forall j | 0 <= j < i :: !less(cursor.value, all[j])
      {
        if less(cursor.value, all[i]) {
          from := i;
          break;
        }
        i := i + 1;
      }
    }
    var end := from + limit;
    if end > |all| {
      end := |all|;
    }
    page, start := all[from..end], from;
  }

  lemma {:induction false} ElementCount<K>(less: (K, K) -> bool, s: seq<K>, elements: set<K>)
    requires Ascending(less, s) && (forall k :: k in s <==> k in elements) && forall i | 0 <= i < |s| :: !less(s[i], s[i])
    ensures |s| == |elements|
    decreases |s|
  {
    if s != [] {
      var last := |s| - 1;
      assert s == s[..last] + [s[last]];
      assert forall i | 0 <= i < last :: s[i] != s[last];
      ElementCount(less, s[..last], elements - {s[last]});
    } else {
      assert elements == {};
    }
  }

  /** The window cut from the sorted list is the page of the table it lists. */
  lemma WindowIsPage<K(!new)>(less: (K, K) -> bool, table: set<K>, all: seq<K>, cursor: Option<K>, limit: nat, start: nat)
    requires TotalOrder(less) && Ascending(less, all) && (forall k :: k in all <==> k in table)
    requires start <= |all| && (forall i | 0 <= i < start :: !After(less, cursor, all[i]))
    requires start < |all| ==> After(less, cursor, all[start])
    ensures IsPage(less, table, cursor, limit, all[start..if start + limit < |all| then start + limit else |all|])
  {
    var end := if start + limit < |all| then start + limit else |all|;
    var page, tail := all[start..end], all[start..];
    forall i | start <= i < |all|
      ensures After(less, cursor, all[i])
    {
      assert i == start || less(all[start], all[i]);
    }
    forall k
      ensures k in tail <==> k in Eligible(less, table, cursor)
    {
      if k in Eligible(less, table, cursor) {
        var i :| 0 <= i < |all| && all[i] == k;
        assert tail[i - start] == k;
      }
    }
    ElementCount(less, tail, Eligible(less, table, cursor));
    forall k, p | k in table && After(less, cursor, k) && k !in page && p in page
      ensures less(p, k)
    {
      assert k in tail;
      var i :| 0 <= i < |tail| && tail[i] == k;
      var j :| 0 <= j < |page| && page[j] == p;
      assert forall x | 0 <= x < |page| :: page[x] == tail[x] && page[x] in page;
      assert i >= |page|;
      assert all[start + j] == p && all[start + i] == k;
    }
  }

  function TokensOf<K>(tokens: map<K, string>, account: string): set<K> {
    set id | id in tokens && tokens[id] == account
  }

  /** ListTokensPage over the tokens map (each ID with its account): its pages are the pages of that account's
      table, under the clamp `ControllerLimit`. */
  method ListTokensPage<K(==,!new)>(less: (K, K) -> bool, tokens: map<K, string>, account: string, cursor: Option<K>, limit: int) returns (page: seq<K>)
    requires TotalOrder(less)
    ensures IsPage(less, TokensOf(tokens, account), cursor, ControllerLimit(limit), page)
    ensures IsPage(less, TokensOf(tokens, account), cursor, if 1 <= limit <= 500 then limit else 100, page)
    ensures forall id | id in page :: id in tokens && tokens[id] == account
  {
    var size := if limit <= 0 || limit > MAX_PAGE then DEFAULT_PAGE else limit;
    page := ListPage(less, TokensOf(tokens, account), cursor, size);
  }

  method ListPage<K(==,!new)>(less: (K, K) -> bool, table: set<K>, cursor: Option<K>, limit: nat) returns (page: seq<K>)
    requires TotalOrder(less)
    ensures IsPage(less, table, cursor, limit, page)
  {
    var all := SortedKeys(less, table);
    ghost var start: nat;
    page, start := Window(less, all, cursor, limit);
    WindowIsPage(less, table, all, cursor, limit, start);
  }

  // ---------- sweeping a changing table ----------

  /** Successive pages of a sweep; tables[i] is the table when page i is read. Every page but the last is full,
      since the sweep goes on exactly from full pages. */
  ghost predicate Sweep<K>(less: (K, K) -> bool, limit: nat, cursor: Option<K>, tables: seq<set<K>>, pages: seq<seq<K>>)
    decreases |pages|
  {
    && |tables| == |pages| > 0
    && IsPage(less, tables[0], cursor, limit, pages[0])
    && (|pages| > 1 ==> |pages[0]| == limit > 0 && Sweep(less, limit, Some(pages[0][limit - 1]), tables[1..], pages[1..]))
  }

  /** The sweep ended because its last page was short. */
  predicate Finished<K>(limit: nat, pages: seq<seq<K>>) {
    |pages| > 0 && |pages[|pages| - 1]| < limit
  }

  function Flatten<K>(pages: seq<seq<K>>): seq<K>
    decreases |pages|
  {
    if pages == [] then [] else pages[0] + Flatten(pages[1..])
  }

  /** Whatever happens to the table meanwhile, the sweep returns keys in strict order, hence without repeats. */
  lemma {:induction false} SweepAscending<K(!new)>(less: (K, K) -> bool, limit: nat, cursor: Option<K>, tables: seq<set<K>>, pages: seq<seq<K>>)
    requires TotalOrder(less) && Sweep(less, limit, cursor, tables, pages)
    ensures Ascending(less, Flatten(pages)) && forall k | k in Flatten(pages) :: After(less, cursor, k)
    decreases |pages|
  {
    var first := pages[0];
    assert first + [] == first;
    if |pages| > 1 {
      var last := first[limit - 1];
      SweepAscending(less, limit, Some(last), tables[1..], pages[1..]);
      var rest := Flatten(pages[1..]);
      forall i, j | 0 <= i < j < |first + rest|
        ensures less((first + rest)[i], (first + rest)[j])
      {
        if i < |first| <= j {
          assert rest[j - |first|] in rest;
          assert first[i] == last || less(first[i], last);
        }
      }
      forall k | k in rest
        ensures After(less, cursor, k)
      {
        assert last in first;
      }
    } else {
      assert Flatten(pages) == first;
    }
  }

  /** A finished sweep returns every key that was there throughout, even if others came and went. */
  lemma {:induction false} SweepCovers<K(!new)>(less: (K, K) -> bool, limit: nat, cursor: Option<K>, tables: seq<set<K>>, pages: seq<seq<K>>, k: K)
    requires TotalOrder(less) && Sweep(less, limit, cursor, tables, pages) && Finished(limit, pages)
    requires After(less, cursor, k) && forall i | 0 <= i < |tables| :: k in tables[i]
    ensures k in Flatten(pages)
    decreases |pages|
  {
    assert k in Eligible(less, tables[0], cursor);
    if |pages| == 1 {
      ShortPageHasAll(less, tables[0], cursor, limit, pages[0]);
    } else if k !in pages[0] {
      var last := pages[0][limit - 1];
      assert last in pages[0];
      assert less(last, k);
      SweepCovers(less, limit, Some(last), tables[1..], pages[1..], k);
    }
  }

  lemma ShortPageHasAll<K(!new)>(less: (K, K) -> bool, table: set<K>, cursor: Option<K>, limit: nat, page: seq<K>)
    requires TotalOrder(less) && IsPage(less, table, cursor, limit, page) && |Eligible(less, table, cursor)| <= limit
    ensures forall k | k in Eligible(less, table, cursor) :: k in page
  {
    var elements := set k | k in page;
    ElementCount(less, page, elements);
    var eligible := Eligible(less, table, cursor);
    assert elements <= eligible;
    if k :| k in eligible && k !in page {
      ProperSubset(elements, eligible, k);
    }
  }

  lemma {:induction false} ProperSubset<K>(a: set<K>, b: set<K>, k: K)
    requires a <= b && k in b && k !in a
    ensures |a| < |b|
    decreases |a|
  {
    if a != {} {
      var x :| x in a;
      ProperSubset(a - {x}, b - {x}, k);
    } else {
      assert |b - {k}| == |b| - 1;
    }
  }

  lemma SmallerMisses<K>(a: set<K>, b: set<K>)
    requires |a| < |b|
    ensures exists k :: k in b && k !in a
  {
    if b <= a {
      SubsetSmaller(b, a);
    }
  }

  lemma {:induction false} SubsetSmaller<K>(a: set<K>, b: set<K>)
    requires a <= b
    ensures |a| <= |b|
    decreases a
  {
    if a != {} {
      var x :| x in a;
      SubsetSmaller(a - {x}, b - {x});
    }
  }

  /** On a table that does not change, a sweep takes at most |table| / limit full pages, and once finished it
      has returned exactly the rows. */
  lemma StaticSweepExact<K(!new)>(less: (K, K) -> bool, limit: nat, table: set<K>, tables: seq<set<K>>, pages: seq<seq<K>>)
    requires TotalOrder(less) && Sweep(less, limit, None, tables, pages) && forall i | 0 <= i < |tables| :: tables[i] == table
    ensures (|pages| - 1) * limit <= |Flatten(pages)| <= |table|
    ensures Finished(limit, pages) ==> |Flatten(pages)| == |table| && forall k :: k in Flatten(pages) <==> k in table
  {
    SweepFromTable(less, limit, None, table, tables, pages);
    SweepAscending(less, limit, None, tables, pages);
    var elements := set k | k in Flatten(pages);
    ElementCount(less, Flatten(pages), elements);
    SubsetSmaller(elements, table);
    if Finished(limit, pages) {
      forall k | k in table
        ensures k in Flatten(pages)
      {
        SweepCovers(less, limit, None, tables, pages, k);
      }
      assert elements == table;
    }
  }

  lemma {:induction false} SweepFromTable<K>(less: (K, K) -> bool, limit: nat, cursor: Option<K>, table: set<K>, tables: seq<set<K>>, pages: seq<seq<K>>)
    requires Sweep(less, limit, cursor, tables, pages) && forall i | 0 <= i < |tables| :: tables[i] == table
    ensures forall k | k in Flatten(pages) :: k in table
    ensures (|pages| - 1) * limit <= |Flatten(pages)|
    decreases |pages|
  {
    if |pages| > 1 {
      SweepFromTable(less, limit, Some(pages[0][limit - 1]), table, tables[1..], pages[1..]);
      assert (|pages| - 1) * limit == (|pages| - 2) * limit + limit;
    } else {
      assert Flatten(pages) == pages[0];
    }
  }

  // ---------- the audit log: newest first, cursor resolved by lookup ----------

  datatype Stamp<I> = Stamp(at: int, id: I)

  datatype Logged = Logged(at: int, target: string)

  /** ORDER BY at DESC, id DESC. */
  function Newer<I>(idLess: (I, I) -> bool): (Stamp<I>, Stamp<I>) -> bool {
    (a: Stamp<I>, b: Stamp<I>) => a.at > b.at || (a.at == b.at && idLess(b.id, a.id))
  }

  lemma NewerIsTotal<I(!new)>(idLess: (I, I) -> bool)
    requires TotalOrder(idLess)
    ensures TotalOrder(Newer(idLess))
  {
    var less := Newer(idLess);
    forall a, b, c | less(a, b) && less(b, c)
      ensures less(a, c)
    {
      assert idLess(c.id, b.id) && idLess(b.id, a.id) ==> idLess(c.id, a.id);
    }
    forall a, b
      ensures a == b || less(a, b) || less(b, a)
    {
      assert a == Stamp(a.at, a.id) && b == Stamp(b.at, b.id);
      assert a.id == b.id || idLess(a.id, b.id) || idLess(b.id, a.id);
    }
  }

  ghost function Entries<I>(log: map<I, Logged>, target: string): set<Stamp<I>> {
    set id | id in log && log[id].target == target :: Stamp(log[id].at, id)
  }

  /** ListPage: an unknown cursor gives an empty page. */
  ghost predicate IsAuditPage<I>(idLess: (I, I) -> bool, log: map<I, Logged>, target: string, cursor: Option<I>, limit: nat, page: seq<Stamp<I>>) {
    if cursor.None? then IsPage(Newer(idLess), Entries(log, target), None, limit, page)
    else if cursor.value in log
    then IsPage(Newer(idLess), Entries(log, target), Some(Stamp(log[cursor.value].at, cursor.value)), limit, page)
    else page == []
  }

  ghost predicate AuditSweep<I>(idLess: (I, I) -> bool, limit: nat, target: string, cursor: Option<I>, logs: seq<map<I, Logged>>, pages: seq<seq<Stamp<I>>>)
    decreases |pages|
  {
    && |logs| == |pages| > 0
    && IsAuditPage(idLess, logs[0], target, cursor, limit, pages[0])
    && (|pages| > 1 ==> |pages[0]| == limit > 0 && AuditSweep(idLess, limit, target, Some(pages[0][limit - 1].id), logs[1..], pages[1..]))
  }

  ghost predicate AppendOnly<I>(logs: seq<map<I, Logged>>) {
    forall i, j, id | 0 <= i < j < |logs| && id in logs[i] :: id in logs[j] && logs[j][id] == logs[i][id]
  }

  ghost function EntriesOf<I>(logs: seq<map<I, Logged>>, target: string): seq<set<Stamp<I>>> {
    seq(|logs|, i requires 0 <= i < |logs| => Entries(logs[i], target))
  }

  /** On an append-only log, looking the cursor's (at, id) up again always finds what the previous page
      showed, so an audit sweep is a keyset sweep over (at, id) pairs and inherits its guarantees. */
  lemma {:induction false} AuditSweepIsSweep<I>(idLess: (I, I) -> bool, limit: nat, target: string, cursor: Option<Stamp<I>>, logs: seq<map<I, Logged>>, pages: seq<seq<Stamp<I>>>)
    requires AppendOnly(logs)
    requires AuditSweep(idLess, limit, target, if cursor.Some? then Some(cursor.value.id) else None, logs, pages)
    requires cursor.Some? ==> cursor.value.id in logs[0] && logs[0][cursor.value.id].at == cursor.value.at
    ensures Sweep(Newer(idLess), limit, cursor, EntriesOf(logs, target), pages)
    decreases |pages|
  {
    if |pages| > 1 {
      var last := pages[0][limit - 1];
      assert last in pages[0] && last in Entries(logs[0], target);
      assert last.id in logs[1] && logs[1][last.id] == logs[0][last.id];
      AuditSweepIsSweep(idLess, limit, target, Some(last), logs[1..], pages[1..]);
      assert EntriesOf(logs, target)[1..] == EntriesOf(logs[1..], target);
    }
  }

  /** Sweeping a growing audit log: strictly newest first, no repeats, and once finished no entry that was
      there at the start is missing. */
  lemma AuditSweepComplete<I(!new)>(idLess: (I, I) -> bool, limit: nat, target: string, logs: seq<map<I, Logged>>, pages: seq<seq<Stamp<I>>>)
    requires TotalOrder(idLess) && AppendOnly(logs) && AuditSweep(idLess, limit, target, None, logs, pages)
    ensures Ascending(Newer(idLess), Flatten(pages))
    ensures var shown := Flatten(pages);
      forall i, j | 0 <= i < j < |shown| :: shown[i].at > shown[j].at || (shown[i].at == shown[j].at && idLess(shown[j].id, shown[i].id))
    ensures forall e | e in Flatten(pages) :: exists i :: 0 <= i < |logs| && e.id in logs[i] && logs[i][e.id] == Logged(e.at, target)
    ensures Finished(limit, pages) ==> forall id | id in logs[0] && logs[0][id].target == target :: Stamp(logs[0][id].at, id) in Flatten(pages)
  {
    var tables := EntriesOf(logs, target);
    NewerIsTotal(idLess);
    AuditSweepIsSweep(idLess, limit, target, None, logs, pages);
    SweepAscending(Newer(idLess), limit, None, tables, pages);
    forall e | e in Flatten(pages)
      ensures exists i :: 0 <= i < |logs| && e.id in logs[i] && logs[i][e.id] == Logged(e.at, target)
    {
      var i := SweepShows(Newer(idLess), limit, None, tables, pages, e);
      assert e in Entries(logs[i], target);
    }
    if Finished(limit, pages) {
      forall e | e in Entries(logs[0], target)
        ensures e in Flatten(pages)
      {
        forall i | 0 <= i < |tables|
          ensures e in tables[i]
        {
          assert e.id in logs[0] && (i == 0 || logs[i][e.id] == logs[0][e.id]);
        }
        SweepCovers(Newer(idLess), limit, None, tables, pages, e);
      }
      assert forall id | id in logs[0] && logs[0][id].target == target :: Stamp(logs[0][id].at, id) in Entries(logs[0], target);
    }
  }

  /** Whatever a sweep returns was in the table when its page was read. */
  lemma {:induction false} SweepShows<K>(less: (K, K) -> bool, limit: nat, cursor: Option<K>, tables: seq<set<K>>, pages: seq<seq<K>>, k: K) returns (i: nat)
    requires Sweep(less, limit, cursor, tables, pages) && k in Flatten(pages)
    ensures i < |tables| && k in tables[i] && k in pages[i]
    decreases |pages|
  {
    i := 0;
    if k !in pages[0] {
      assert k in Flatten(pages[1..]);
      assert pages[1..] != [];
      i := SweepShows(less, limit, Some(pages[0][limit - 1]), tables[1..], pages[1..], k);
      i := i + 1;
    }
  }

  /** Every page of an audit sweep but the last is full, and each starts after the last entry of the one before. */
  lemma {:induction false} AuditPageAt<I>(idLess: (I, I) -> bool, limit: nat, target: string, cursor: Option<I>, logs: seq<map<I, Logged>>, pages: seq<seq<Stamp<I>>>, k: nat)
    requires AuditSweep(idLess, limit, target, cursor, logs, pages) && k < |pages|
    ensures k + 1 < |pages| ==> |pages[k]| == limit > 0
    ensures k > 0 ==> |pages[k - 1]| == limit > 0 && IsAuditPage(idLess, logs[k], target, Some(pages[k - 1][limit - 1].id), limit, pages[k])
    decreases k
  {
    if k > 0 {
      AuditPageAt(idLess, limit, target, Some(pages[0][limit - 1].id), logs[1..], pages[1..], k - 1);
    }
  }

  lemma {:induction false} AuditPrefix<I>(idLess: (I, I) -> bool, limit: nat, target: string, cursor: Option<I>, logs: seq<map<I, Logged>>, pages: seq<seq<Stamp<I>>>, k: nat)
    requires AuditSweep(idLess, limit, target, cursor, logs, pages) && 0 < k <= |pages|
    ensures AuditSweep(idLess, limit, target, cursor, logs[..k], pages[..k])
    decreases k
  {
    if k > 1 {
      AuditPrefix(idLess, limit, target, Some(pages[0][limit - 1].id), logs[1..], pages[1..], k - 1);
      assert logs[..k][1..] == logs[1..][..k - 1] && pages[..k][1..] == pages[1..][..k - 1];
    }
  }

  lemma {:induction false} FlattenEnd<K>(pages: seq<seq<K>>, page: seq<K>)
    ensures Flatten(pages + [page]) == Flatten(pages) + page
    decreases |pages|
  {
    if pages == [] {
      assert (pages + [page])[1..] == [];
    } else {
      FlattenEnd(pages[1..], page);
      assert (pages + [page])[1..] == pages[1..] + [page];
    }
  }

  /** Append-only is needed: if the entry a page ended with is gone when the next page is read, that page is
      empty, the sweep ends there as if finished, and every older entry still in the log is missed. */
  lemma RemovedCursorEndsSweep<I(!new)>(idLess: (I, I) -> bool, limit: nat, target: string, logs: seq<map<I, Logged>>, pages: seq<seq<Stamp<I>>>, k: nat, last: Stamp<I>)
    requires TotalOrder(idLess) && AuditSweep(idLess, limit, target, None, logs, pages) && 0 < k < |pages| && AppendOnly(logs[..k])
    requires pages[k - 1] != [] && last == pages[k - 1][|pages[k - 1]| - 1] && last.id !in logs[k]
    ensures |pages| == k + 1 && pages[k] == [] && Finished(limit, pages)
    ensures forall e | e in Entries(logs[k], target) && Newer(idLess)(last, e) :: e !in Flatten(pages)
  {
    AuditPageAt(idLess, limit, target, None, logs, pages, k);
    AuditPrefix(idLess, limit, target, None, logs, pages, k);
    var shown := pages[..k];
    AuditSweepIsSweep(idLess, limit, target, None, logs[..k], shown);
    NewerIsTotal(idLess);
    SweepAscending(Newer(idLess), limit, None, EntriesOf(logs[..k], target), shown);
    assert shown == shown[..k - 1] + [pages[k - 1]] && pages == shown + [pages[k]];
    FlattenEnd(shown[..k - 1], pages[k - 1]);
    FlattenEnd(shown, pages[k]);
    var all := Flatten(pages);
    assert all == Flatten(shown) && all[|all| - 1] == last;
    forall e | e in Entries(logs[k], target) && Newer(idLess)(last, e)
      ensures e !in all
    {
      assert forall i | 0 <= i < |all| :: all[i] == last || Newer(idLess)(all[i], last);
    }
  }

  /** It does happen: an entry present throughout is missed. */
  lemma RemovedCursorMisses(target: string)
    ensures var idLess := (a: int, b: int) => a < b;
            var older, later := Logged(0, target), Logged(1, target);
            var logs := [map[1 := older, 2 := later], map[1 := older]];
            var pages := [[Stamp(1, 2)], []];
            AuditSweep(idLess, 1, target, None, logs, pages) && Finished(1, pages) && Stamp(0, 1) !in Flatten(pages)
  {
    var idLess := (a: int, b: int) => a < b;
    var older, later := Logged(0, target), Logged(1, target);
    var logs := [map[1 := older, 2 := later], map[1 := older]];
    var pages := [[Stamp(1, 2)], []];
    var entries := Entries(logs[0], target);
    assert older == logs[0][1] && later == logs[0][2];
    assert entries == {Stamp(0, 1), Stamp(1, 2)};
    assert Eligible(Newer(idLess), entries, None) == entries;
    assert IsPage(Newer(idLess), entries, None, 1, pages[0]);
    assert AuditSweep(idLess, 1, target, Some(2), logs[1..], pages[1..]);
    assert pages[1..] == [[]] && Flatten(pages[1..]) == [] + Flatten([]);
  }

  // ---------- the API's next cursor ----------

  const DEFAULT_PAGE := 100
  const MAX_PAGE := 500

  /** directory.ListVhosts and the other database listings. */
  function ServiceLimit(limit: int): nat {
    if limit <= 0 then DEFAULT_PAGE else if limit > MAX_PAGE then MAX_PAGE else limit
  }

  /** The API controllers, and the in-memory token store. */
  function ControllerLimit(limit: int): nat {
    if limit <= 0 || limit > MAX_PAGE then DEFAULT_PAGE else limit
  }

  function NextCursor<K>(page: seq<K>, limit: int): Option<K> {
    if |page| == ControllerLimit(limit) then Some(page[|page| - 1]) else None
  }

  /** A client following nextCursor to its end over a table that does not change. */
  ghost predicate ApiSweep<K>(less: (K, K) -> bool, limit: int, cursor: Option<K>, table: set<K>, pages: seq<seq<K>>)
    decreases |pages|
  {
    && |pages| > 0
    && IsPage(less, table, cursor, ServiceLimit(limit), pages[0])
    && (if NextCursor(pages[0], limit).None? then |pages| == 1
        else |pages| > 1 && ApiSweep(less, limit, NextCursor(pages[0], limit), table, pages[1..]))
  }

  lemma {:induction false} ApiSweepIsSweep<K>(less: (K, K) -> bool, limit: int, cursor: Option<K>, table: set<K>, pages: seq<seq<K>>)
    requires limit <= MAX_PAGE && ApiSweep(less, limit, cursor, table, pages)
    ensures Sweep(less, ServiceLimit(limit), cursor, seq(|pages|, _ => table), pages) && Finished(ServiceLimit(limit), pages)
    decreases |pages|
  {
    if |pages| > 1 {
      ApiSweepIsSweep(less, limit, NextCursor(pages[0], limit), table, pages[1..]);
      assert seq(|pages|, _ => table)[1..] == seq(|pages| - 1, _ => table);
    }
  }

  /** Following nextCursor lists the whole table exactly when the requested limit is within the maximum, where
      the two clamps agree, or the table fits one maximal page. */
  lemma ApiListsAllIff<K(!new)>(less: (K, K) -> bool, limit: int, table: set<K>, pages: seq<seq<K>>)
    requires TotalOrder(less) && ApiSweep(less, limit, None, table, pages)
    ensures (forall k | k in table :: k in Flatten(pages)) <==> limit <= MAX_PAGE || |table| <= MAX_PAGE
  {
    assert Eligible(less, table, None) == table;
    assert pages[0] + [] == pages[0];
    if limit <= MAX_PAGE {
      ApiSweepIsSweep(less, limit, None, table, pages);
      StaticSweepExact(less, ServiceLimit(limit), table, seq(|pages|, _ => table), pages);
    } else if |table| <= MAX_PAGE {
      ShortPageHasAll(less, table, None, MAX_PAGE, pages[0]);
    } else {
      assert |pages[0]| == MAX_PAGE && Flatten(pages) == pages[0];
      var elements := set k | k in pages[0];
      ElementCount(less, pages[0], elements);
      assert |elements| < |table|;
      SmallerMisses(elements, table);
    }
  }
}
