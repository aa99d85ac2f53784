/** Re-encrypting stored secrets under a new master key (RotateDKIMKeys in internal/directory/service.go and
    RotateSecrets in internal/webhook/postgres.go). The cipher is abstract: what it seals opens only under the
    sealing key, and then gives the plaintext. */
module KeyRotation {
  import opened RetryQueue

  type Key = int

  /** A stored column: a ciphertext of `plain` under `key`, or something no key opens. */
  datatype Cipher = Sealed(key: Key, plain: string, nonce: int) | Garbage

  function Decrypt(key: Key, c: Cipher): Option<string> {
    if c.Sealed? && c.key == key then Some(c.plain) else None
  }

  type Rows = map<string, Cipher>

  function Under(rows: Rows, key: Key): set<string> {
    set id | id in rows && Decrypt(key, rows[id]).Some?
  }

  /** What any number of completed or interrupted runs may have made of the rows: some of those under the
      old key are now under the new one, with the same plaintext; all others are untouched. */
  ghost predicate Progress(before: Rows, after: Rows, oldKey: Key, newKey: Key) {
    && after.Keys == before.Keys
    && forall id | id in before :: after[id] == before[id] || Rewritten(before[id], after[id], oldKey, newKey)
  }

  predicate Rewritten(b: Cipher, a: Cipher, oldKey: Key, newKey: Key) {
    Decrypt(oldKey, b).Some? && a.Sealed? && a.key == newKey && a.plain == b.plain
  }

  class SecretTable {
    var rows: Rows

    constructor (rows: Rows)
      ensures this.rows == rows
    {
      this.rows := rows;
    }

    /** One run over the rows listed at its start, in any order. It ends early, after `writes` row writes, when
        the process dies or a write fails, and with an error at the first row neither key opens. Given the
        same key twice it rewrites every row on every run. */
    method Rotate(oldKey: Key, newKey: Key, writes: nat, nonce: int) returns (rotated: nat, finished: bool)
      modifies this
      ensures Progress(old(rows), rows, oldKey, newKey) && rotated <= writes
      ensures oldKey != newKey ==> |Under(rows, oldKey)| == |Under(old(rows), oldKey)| - rotated
      ensures oldKey != newKey && finished ==> Under(rows, oldKey) == {}
      ensures finished ==> Under(rows, newKey) == rows.Keys
      ensures oldKey == newKey && finished ==> rotated == |rows|
      ensures oldKey != newKey ==> (finished <==> |Under(old(rows), oldKey)| <= writes && Readable(old(rows), oldKey, newKey))
      ensures Readable(old(rows), oldKey, newKey) && !finished ==> rotated == writes
    {
      ghost var initial := rows;
      rotated := 0;
      var todo := rows.Keys;
      while todo != {}
        invariant Halfway(initial, rows, todo, rotated, oldKey, newKey) && rotated <= writes
        decreases todo
      {
        var id :| id in todo;
        var plain := Decrypt(oldKey, rows[id]);
        if plain.None? {
          if Decrypt(newKey, rows[id]).None? {
            assert !Openable(initial[id], oldKey, newKey);
            return rotated, false;
          }
          SkipRow(initial, rows, todo, rotated, oldKey, newKey, id);
        } else {
          if rotated == writes {
            SomeLeft(Under(rows, oldKey), id);
            return rotated, false;
          }
          RewriteRow(initial, rows, todo, rotated, oldKey, newKey, id, nonce);
          rows := rows[id := Sealed(newKey, plain.value, nonce)];
          rotated := rotated + 1;
        }
        todo := todo - {id};
      }
      AllVisited(initial, rows, rotated, oldKey, newKey);
      finished := true;
    }

    /** Run after run, each allowed its number of row writes. Nothing but the key of old rows ever changes; the
        rows rewritten and the rows still under the old key are the rows first under it; the run that
        finishes leaves every row under the new key with its first plaintext, and any run after it rewrites
        nothing. If every row opens under one of the keys, the runs finish the job exactly when their writes
        suffice for it together. */
    method RotateRepeatedly(oldKey: Key, newKey: Key, budgets: seq<nat>, nonce: int) returns (counts: seq<nat>, finished: seq<bool>)
      requires oldKey != newKey
      modifies this
      ensures |counts| == |finished| == |budgets|
      ensures Progress(old(rows), rows, oldKey, newKey)
      ensures Sum(counts) + |Under(rows, oldKey)| == |Under(old(rows), oldKey)|
      ensures forall i, j | 0 <= i < j < |counts| && finished[i] :: counts[j] == 0 && finished[j]
      ensures (exists i :: 0 <= i < |finished| && finished[i]) ==> Rotated(old(rows), rows, oldKey, newKey) && Sum(counts) == |Under(old(rows), oldKey)|
      ensures Readable(old(rows), oldKey, newKey) && budgets != [] ==>
        (finished[|budgets| - 1] <==> Sum(budgets) >= |Under(old(rows), oldKey)|)
    {
      counts, finished := [], [];
      ghost var initial := rows;
      for n := 0 to |budgets|
        invariant |counts| == |finished| == n
        invariant Resumed(initial, rows, oldKey, newKey, budgets[..n], counts, finished)
      {
        ghost var before := rows;
        var rotated, done := Rotate(oldKey, newKey, budgets[n], nonce);
        ResumedNext(initial, before, rows, oldKey, newKey, budgets, counts, finished, rotated, done);
        counts, finished := counts + [rotated], finished + [done];
      }
      assert budgets[..|budgets|] == budgets;
      if i :| 0 <= i < |finished| && finished[i] {
        AllRotated(initial, rows, oldKey, newKey);
      }
    }
  }

  /** The state of a run with the rows in `todo` still to visit. */
  ghost predicate Halfway(initial: Rows, rows: Rows, todo: set<string>, rotated: nat, oldKey: Key, newKey: Key) {
    && todo <= rows.Keys == initial.Keys
    && Progress(initial, rows, oldKey, newKey)
    && (forall id | id in todo :: rows[id] == initial[id])
    && (forall id | id in rows && id !in todo :: Decrypt(newKey, rows[id]).Some? && Openable(initial[id], oldKey, newKey))
    && if oldKey == newKey then rotated == |rows.Keys - todo| else |Under(rows, oldKey)| == |Under(initial, oldKey)| - rotated
  }

  lemma SkipRow(initial: Rows, rows: Rows, todo: set<string>, rotated: nat, oldKey: Key, newKey: Key, id: string)
    requires Halfway(initial, rows, todo, rotated, oldKey, newKey) && id in todo
    requires Decrypt(oldKey, rows[id]).None? && Decrypt(newKey, rows[id]).Some?
    ensures Halfway(initial, rows, todo - {id}, rotated, oldKey, newKey)
  {
  }

  lemma RewriteRow(initial: Rows, rows: Rows, todo: set<string>, rotated: nat, oldKey: Key, newKey: Key, id: string, nonce: int)
    requires Halfway(initial, rows, todo, rotated, oldKey, newKey) && id in todo && Decrypt(oldKey, rows[id]).Some?
    ensures Halfway(initial, rows[id := Sealed(newKey, Decrypt(oldKey, rows[id]).value, nonce)], todo - {id}, rotated + 1, oldKey, newKey)
  {
    var rows' := rows[id := Sealed(newKey, Decrypt(oldKey, rows[id]).value, nonce)];
    if oldKey == newKey {
      assert rows'.Keys - (todo - {id}) == (rows.Keys - todo) + {id};
    } else {
      assert Under(rows', oldKey) == Under(rows, oldKey) - {id};
    }
  }

  lemma AllVisited(initial: Rows, rows: Rows, rotated: nat, oldKey: Key, newKey: Key)
    requires Halfway(initial, rows, {}, rotated, oldKey, newKey)
    ensures Under(rows, newKey) == rows.Keys
    ensures oldKey != newKey ==> Under(rows, oldKey) == {}
    ensures oldKey == newKey ==> rotated == |rows|
  {
    assert rows.Keys - {} == rows.Keys;
  }

  lemma SomeLeft(s: set<string>, id: string)
    requires id in s
    ensures |s| >= 1
  {
    assert |s - {id}| == |s| - 1;
  }

  predicate Openable(c: Cipher, oldKey: Key, newKey: Key) {
    Decrypt(oldKey, c).Some? || Decrypt(newKey, c).Some?
  }

  /** What a row holds, whichever of the two keys opens it. */
  function Plaintext(c: Cipher, oldKey: Key, newKey: Key): Option<string> {
    if Decrypt(oldKey, c).Some? then Decrypt(oldKey, c) else Decrypt(newKey, c)
  }

  lemma ProgressTrans(a: Rows, b: Rows, c: Rows, oldKey: Key, newKey: Key)
    requires oldKey != newKey && Progress(a, b, oldKey, newKey) && Progress(b, c, oldKey, newKey)
    ensures Progress(a, c, oldKey, newKey)
  {
    forall id | id in a
      ensures c[id] == a[id] || Rewritten(a[id], c[id], oldKey, newKey)
    {
      assert b[id] == a[id] || Rewritten(a[id], b[id], oldKey, newKey);
      assert c[id] == b[id] || Rewritten(b[id], c[id], oldKey, newKey);
    }
  }

  /** Where the runs made so far have got to. */
  ghost predicate Resumed(initial: Rows, rows: Rows, oldKey: Key, newKey: Key, budgets: seq<nat>, counts: seq<nat>, finished: seq<bool>) {
    && |counts| == |finished| == |budgets|
    && Progress(initial, rows, oldKey, newKey)
    && Sum(counts) + |Under(rows, oldKey)| == |Under(initial, oldKey)|
    && (forall i, j | 0 <= i < j < |counts| && finished[i] :: counts[j] == 0 && finished[j])
    && (forall i | 0 <= i < |finished| && finished[i] :: Under(rows, oldKey) == {} && Under(rows, newKey) == rows.Keys)
    && (Readable(initial, oldKey, newKey) && budgets != [] ==> (finished[|budgets| - 1] <==> Sum(budgets) >= |Under(initial, oldKey)|))
    && (Readable(initial, oldKey, newKey) && (budgets == [] || !finished[|budgets| - 1]) ==> Sum(counts) == Sum(budgets))
  }

  lemma ResumedNext(initial: Rows, before: Rows, after: Rows, oldKey: Key, newKey: Key, budgets: seq<nat>, counts: seq<nat>, finished: seq<bool>, rotated: nat, done: bool)
    requires oldKey != newKey && |counts| < |budgets| && Resumed(initial, before, oldKey, newKey, budgets[..|counts|], counts, finished)
    requires Progress(before, after, oldKey, newKey) && |Under(after, oldKey)| == |Under(before, oldKey)| - rotated
    requires done ==> Under(after, oldKey) == {} && Under(after, newKey) == after.Keys
    requires done <==> |Under(before, oldKey)| <= budgets[|counts|] && Readable(before, oldKey, newKey)
    requires Readable(before, oldKey, newKey) && !done ==> rotated == budgets[|counts|]
    ensures Resumed(initial, after, oldKey, newKey, budgets[..|counts| + 1], counts + [rotated], finished + [done])
  {
    var n := |counts|;
    ProgressTrans(initial, before, after, oldKey, newKey);
    ReadableStays(initial, before, oldKey, newKey);
    SumAppend(counts, rotated);
    SumAppend(budgets[..n], budgets[n]);
    assert budgets[..n + 1] == budgets[..n] + [budgets[n]];
    if i :| 0 <= i < n && finished[i] {
      NothingLeft(before, after, oldKey, newKey);
    }
  }

  /** After a finished run every row is under the new key, so the next run rewrites none and finishes. */
  lemma NothingLeft(before: Rows, after: Rows, oldKey: Key, newKey: Key)
    requires oldKey != newKey && Under(before, oldKey) == {} && Under(before, newKey) == before.Keys
    requires Progress(before, after, oldKey, newKey)
    ensures after == before && Readable(before, oldKey, newKey)
  {
    forall id | id in before
      ensures after[id] == before[id] && Openable(before[id], oldKey, newKey)
    {
      assert id !in Under(before, oldKey) && id in Under(before, newKey);
      assert !Rewritten(before[id], after[id], oldKey, newKey);
    }
  }

  /** The rows hold what they first held and the new key opens them all. */
  ghost predicate Rotated(before: Rows, after: Rows, oldKey: Key, newKey: Key) {
    && after.Keys == before.Keys
    && forall id | id in before :: Decrypt(newKey, after[id]).Some? && Decrypt(newKey, after[id]) == Plaintext(before[id], oldKey, newKey)
  }

  lemma AllRotated(before: Rows, after: Rows, oldKey: Key, newKey: Key)
    requires oldKey != newKey && Progress(before, after, oldKey, newKey) && Under(after, newKey) == after.Keys
    ensures Rotated(before, after, oldKey, newKey)
  {
    forall id | id in before
      ensures Decrypt(newKey, after[id]).Some? && Decrypt(newKey, after[id]) == Plaintext(before[id], oldKey, newKey)
    {
      assert id in Under(after, newKey);
      assert after[id] == before[id] || Rewritten(before[id], after[id], oldKey, newKey);
    }
  }

  /** Rows stay readable under one of the two keys, whatever the runs did. */
  ghost predicate Readable(rows: Rows, oldKey: Key, newKey: Key) {
    forall id | id in rows :: Openable(rows[id], oldKey, newKey)
  }

  lemma ReadableStays(before: Rows, after: Rows, oldKey: Key, newKey: Key)
    requires Progress(before, after, oldKey, newKey)
    ensures Readable(after, oldKey, newKey) <==> Readable(before, oldKey, newKey)
  {
    forall id | id in before
      ensures Openable(after[id], oldKey, newKey) <==> Openable(before[id], oldKey, newKey)
    {
      assert after[id] == before[id] || Rewritten(before[id], after[id], oldKey, newKey);
    }
  }

  function Sum(counts: seq<nat>): nat {
    if counts == [] then 0 else Sum(counts[..|counts| - 1]) + counts[|counts| - 1]
  }

  lemma SumAppend(counts: seq<nat>, n: nat)
    ensures Sum(counts + [n]) == Sum(counts) + n
  {
    assert (counts + [n])[..|counts|] == counts;
  }
}
