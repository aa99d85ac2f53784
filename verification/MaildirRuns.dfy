/** Any interleaving of maildir writers, flag updates and deletions, file step by file step. A writer may fail or its
    process may stop between any two of its steps; an update or deletion first searches for its file and acts on
    what it found later, when others may have moved or removed it. */
module MaildirRuns {
  import opened Text
  import opened Maildir
  import FI = FileIndex

  /** A Write call in progress and how much of the body it has written to tmp/. */
  datatype Writer = Writer(body: Body, written: nat)

  /** The file an UpdateFlags or Delete call has found for its key. */
  datatype Hit = Hit(name: string, place: Place)

  /** `given` records the body each Write call was asked to store; `messages` and `at` are the map the
      directories must stand for. No step looks at these three except to update them. */
  datatype Store = Store(
    tmp: map<string, Body>,
    dir: Dir,
    writers: map<string, Writer>,
    hits: map<nat, Hit>,
    given: map<string, Body>,
    messages: map<string, Message>,
    at: map<string, Place>)

  const Empty := Store(map[], FI.Dir(map[], map[]), map[], map[], map[], map[], map[])

  datatype Action =
    | Begin(name: string, body: Body)        // create tmp/name, exclusively
    | Append(name: string, n: nat)           // the next n bytes
    | Deliver(name: string)                  // rename tmp/name to new/name
    | Fail(name: string)                     // an error: remove tmp/name and give up
    | Stop(name: string)                     // the process dies, tmp/name stays
    | Search(op: nat, name: string, place: Place)
    | Rename(op: nat, flags: seq<string>)    // UpdateFlags moves the file it found
    | Remove(op: nat)                        // Delete removes the file it found
    | Miss(op: nat)                          // the file found is gone, or the caller gives up

  /** What searching new/ and then cur/ for `name` can come upon. */
  predicate Found(d: Dir, name: string, p: Place) {
    match p
    case New => name in d.arrived
    case Cur(n) => name !in d.arrived && n in d.current && Base(n) == name
  }

  predicate StillThere(d: Dir, hit: Hit) {
    if hit.place.New? then hit.name in d.arrived else hit.place.name in d.current
  }

  ghost predicate Enabled(s: Store, a: Action) {
    match a
    case Begin(name, _) => name !in s.given && !Contains(name, InfoSep)
    case Append(name, n) => name in s.writers && s.writers[name].written + n <= |s.writers[name].body|
    case Deliver(name) => name in s.writers && name in s.tmp && s.writers[name].written == |s.writers[name].body|
    case Fail(name) => name in s.writers
    case Stop(name) => name in s.writers
    case Search(op, name, p) => op !in s.hits && Found(s.dir, name, p)
    case Rename(op, _) => op in s.hits && StillThere(s.dir, s.hits[op])
    case Remove(op) => op in s.hits && StillThere(s.dir, s.hits[op])
    case Miss(op) => op in s.hits
  }

  ghost function Apply(s: Store, a: Action): Store
    requires Enabled(s, a)
  {
    match a
    case Begin(name, body) =>
      s.(tmp := s.tmp[name := []], writers := s.writers[name := Writer(body, 0)], given := s.given[name := body])
    case Append(name, n) =>
      var w := s.writers[name];
      s.(tmp := s.tmp[name := w.body[..w.written + n]], writers := s.writers[name := w.(written := w.written + n)])
    case Deliver(name) =>
      s.(tmp := s.tmp - {name}, writers := s.writers - {name},
         dir := FI.Dir(s.dir.arrived[name := s.tmp[name]], s.dir.current),
         messages := s.messages[name := FI.Message(s.tmp[name], {})], at := s.at[name := FI.New])
    case Fail(name) => s.(tmp := s.tmp - {name}, writers := s.writers - {name})
    case Stop(name) => s.(writers := s.writers - {name})
    case Search(op, name, p) => s.(hits := s.hits[op := Hit(name, p)])
    case Rename(op, flags) =>
      var hit := s.hits[op];
      s.(hits := s.hits - {op},
         dir := FI.Moved(s.dir, hit.name, hit.place, CurName(hit.name, flags)),
         messages := if hit.name in s.messages then Reflagged(s.messages, hit.name, flags) else s.messages,
         at := s.at[hit.name := FI.Cur(CurName(hit.name, flags))])
    case Remove(op) =>
      var hit := s.hits[op];
      s.(hits := s.hits - {op}, dir := FI.Removed(s.dir, hit.name, hit.place), messages := s.messages - {hit.name}, at := s.at - {hit.name})
    case Miss(op) => s.(hits := s.hits - {op})
  }

  ghost predicate Runs(s: Store, acts: seq<Action>, t: Store)
    decreases |acts|
  {
    if acts == [] then t == s
    else Enabled(s, acts[0]) && Runs(Apply(s, acts[0]), acts[1..], t)
  }

  ghost predicate WriterOk(s: Store, name: string)
    requires name in s.writers
  {
    var w := s.writers[name];
    && w.written <= |w.body| && name in s.tmp && s.tmp[name] == w.body[..w.written]
    && name in s.given && s.given[name] == w.body && name !in s.messages && !Contains(name, InfoSep)
  }

  ghost predicate Bookkeeping(s: Store) {
    && (forall name | name in s.writers :: WriterOk(s, name))
    && (forall key | key in s.messages :: key in s.given && s.messages[key].body == s.given[key])
  }

  /** What was found carries the key it was searched for, even if it is gone by now. */
  ghost predicate HitsNamed(s: Store) {
    forall op | op in s.hits && s.hits[op].place.Cur? :: Base(s.hits[op].place.name) == s.hits[op].name
  }

  ghost predicate Inv(s: Store) {
    Represents(s.dir, s.messages, s.at) && Bookkeeping(s) && HitsNamed(s)
  }

  /** A file found earlier and still there is the one file of its key. */
  lemma HitIsCurrent(s: Store, op: nat)
    requires Represents(s.dir, s.messages, s.at) && HitsNamed(s) && op in s.hits && StillThere(s.dir, s.hits[op])
    ensures s.hits[op].name in s.messages && s.hits[op].name in s.at && s.at[s.hits[op].name] == s.hits[op].place
  {
    if s.hits[op].place.Cur? {
      assert Names.base(s.hits[op].place.name) == s.hits[op].name;
    }
  }

  lemma StepBooks(s: Store, a: Action)
    requires Bookkeeping(s) && Enabled(s, a)
    ensures Bookkeeping(Apply(s, a))
  {
    var t := Apply(s, a);
    forall name | name in t.writers
      ensures WriterOk(t, name)
    {
      if name in s.writers {
        assert WriterOk(s, name);
      }
    }
    if a.Deliver? {
      assert WriterOk(s, a.name);
      var w := s.writers[a.name];
      assert w.body[..w.written] == w.body;
    }
  }

  lemma StepRepresents(s: Store, a: Action)
    requires Inv(s) && Enabled(s, a)
    ensures var t := Apply(s, a); Represents(t.dir, t.messages, t.at)
  {
    match a
    case Deliver(name) =>
      assert WriterOk(s, name);
      WriteRefines(s.dir, s.messages, s.at, name, s.tmp[name]);
    case Rename(op, flags) =>
      HitIsCurrent(s, op);
      FlagRefines(s.dir, s.messages, s.at, s.hits[op].name, flags);
    case Remove(op) =>
      HitIsCurrent(s, op);
      DeleteRefines(s.dir, s.messages, s.at, s.hits[op].name);
    case _ =>
  }

  lemma StepHits(s: Store, a: Action)
    requires HitsNamed(s) && Enabled(s, a)
    ensures HitsNamed(Apply(s, a))
  {
  }

  lemma StepInv(s: Store, a: Action)
    requires Inv(s) && Enabled(s, a)
    ensures Inv(Apply(s, a))
  {
    StepRepresents(s, a);
    StepBooks(s, a);
    StepHits(s, a);
  }

  /** In every reachable state each delivered key sits in exactly one place, reading it back gives the whole
      body its writer was given, and its flags are those last set. */
  lemma {:induction false} RunKeepsInv(s: Store, acts: seq<Action>, t: Store)
    requires Inv(s) && Runs(s, acts, t)
    ensures Inv(t)
    decreases |acts|
  {
    if acts != [] {
      StepInv(s, acts[0]);
      RunKeepsInv(Apply(s, acts[0]), acts[1..], t);
    }
  }

  /** No reader ever sees a partial message: any file found in new/ or cur/, in any reachable state, holds
      the complete body given for its key. */
  lemma OnlyWholeMessages(acts: seq<Action>, t: Store)
    requires Runs(Empty, acts, t)
    ensures forall key | key in t.dir.arrived :: key in t.given && t.dir.arrived[key] == t.given[key]
    ensures forall n | n in t.dir.current :: Base(n) in t.given && t.dir.current[n] == t.given[Base(n)]
  {
    RunKeepsInv(Empty, acts, t);
    forall key | key in t.dir.arrived
      ensures key in t.given && t.dir.arrived[key] == t.given[key]
    {
      FI.Stored(Names, t.dir, t.messages, t.at, key);
    }
    forall n | n in t.dir.current
      ensures Base(n) in t.given && t.dir.current[n] == t.given[Base(n)]
    {
      assert Names.base(n) == Base(n);
      FI.Stored(Names, t.dir, t.messages, t.at, Base(n));
    }
  }

  /** A search comes upon a file exactly for the keys of the map, can come upon only one, and that one holds
      the message of the map. */
  lemma OperationsFindTheirFile(acts: seq<Action>, t: Store, key: string)
    requires Runs(Empty, acts, t)
    ensures (exists p :: Found(t.dir, key, p)) <==> key in t.messages
    ensures forall p, q | Found(t.dir, key, p) && Found(t.dir, key, q) :: p == q
    ensures forall p | Found(t.dir, key, p) :: key in t.at && t.at[key] == p
    ensures forall p | Found(t.dir, key, p) :: t.messages[key].body == FI.BodyAt(t.dir, key, p) && t.messages[key].flags == if p.New? then {} else FlagsIn(p.name)
  {
    RunKeepsInv(Empty, acts, t);
    if key in t.messages {
      FI.Stored(Names, t.dir, t.messages, t.at, key);
      assert Found(t.dir, key, t.at[key]);
    }
    forall p | Found(t.dir, key, p)
      ensures key in t.at && t.at[key] == p
    {
      if p.Cur? {
        assert Names.base(p.name) == key;
      }
    }
  }

  /** However long ago the search was, the file it found is either gone or still the one file of its key: an
      update or deletion fails or acts on its own message, never on another. */
  lemma LateOperationsSafe(acts: seq<Action>, t: Store, op: nat)
    requires Runs(Empty, acts, t) && op in t.hits
    ensures StillThere(t.dir, t.hits[op]) <==> Found(t.dir, t.hits[op].name, t.hits[op].place)
    ensures StillThere(t.dir, t.hits[op]) ==> t.hits[op].name in t.messages
  {
    RunKeepsInv(Empty, acts, t);
    var hit := t.hits[op];
    if StillThere(t.dir, hit) {
      HitIsCurrent(t, op);
      FI.Stored(Names, t.dir, t.messages, t.at, hit.name);
    }
  }
}
