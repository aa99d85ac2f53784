/** Messages kept in two directories: under their bare key in the first, and in the second under a name
    from which the key and some attributes are parsed back. Stated for any way of parsing names. */
module FileIndex {

  datatype Dir<K, N, B> = Dir(arrived: map<K, B>, current: map<N, B>)

  datatype Message<B, F> = Message(body: B, flags: F)

  datatype Place<N> = New | Cur(name: N)

  /** How names of the second directory parse, and the attributes of messages in the first. */
  datatype Naming<!N, !K, !F> = Naming(base: N -> K, flags: N -> F, none: F)

  /** `key` sits at `p` and nowhere in the other directory, and reads back as `message` from there. */
  ghost predicate Sits<K, N, B, F>(nm: Naming<N, K, F>, d: Dir<K, N, B>, key: K, p: Place<N>, message: Message<B, F>) {
    match p
    case New => key in d.arrived && message == Message(d.arrived[key], nm.none)
    case Cur(n) => key !in d.arrived && n in d.current && nm.base(n) == key && message == Message(d.current[n], nm.flags(n))
  }

  /** `at` gives each key its one place, every file is accounted for, and `m` is what reads back. */
  ghost predicate Represents<K, N, B, F>(nm: Naming<N, K, F>, d: Dir<K, N, B>, m: map<K, Message<B, F>>, at: map<K, Place<N>>) {
    && at.Keys == m.Keys
    && (forall k | k in at :: Sits(nm, d, k, at[k], m[k]))
    && (forall k | k in d.arrived :: k in at && at[k] == New)
    && (forall n | n in d.current :: nm.base(n) in at && at[nm.base(n)] == Cur(n))
  }

  function BodyAt<K, N, B>(d: Dir<K, N, B>, key: K, p: Place<N>): B
    requires if p.New? then key in d.arrived else p.name in d.current
  {
    if p.New? then d.arrived[key] else d.current[p.name]
  }

  function Removed<K, N, B>(d: Dir<K, N, B>, key: K, p: Place<N>): Dir<K, N, B> {
    if p.New? then d.(arrived := d.arrived - {key}) else d.(current := d.current - {p.name})
  }

  /** The file at `p` moved to `name` in the second directory, replacing what was there. */
  function Moved<K, N, B>(d: Dir<K, N, B>, key: K, p: Place<N>, name: N): Dir<K, N, B>
    requires if p.New? then key in d.arrived else p.name in d.current
  {
    var gone := Removed(d, key, p);
    gone.(current := gone.current[name := BodyAt(d, key, p)])
  }

  lemma RemoveRefines<K, N, B, F>(nm: Naming<N, K, F>, d: Dir<K, N, B>, m: map<K, Message<B, F>>, at: map<K, Place<N>>, key: K)
    requires Represents(nm, d, m, at) && key in at
    ensures Represents(nm, Removed(d, key, at[key]), m - {key}, at - {key})
  {
    var e := Removed(d, key, at[key]);
    assert Sits(nm, d, key, at[key], m[key]);
    forall k | k in at - {key}
      ensures Sits(nm, e, k, at[k], m[k])
    {
      assert Sits(nm, d, k, at[k], m[k]);
    }
  }

  lemma PlaceRefines<K, N, B, F>(nm: Naming<N, K, F>, d: Dir<K, N, B>, m: map<K, Message<B, F>>, at: map<K, Place<N>>, name: N, body: B)
    requires Represents(nm, d, m, at) && nm.base(name) !in m
    ensures var key := nm.base(name);
      Represents(nm, d.(current := d.current[name := body]), m[key := Message(body, nm.flags(name))], at[key := Cur(name)])
  {
    var e, key := d.(current := d.current[name := body]), nm.base(name);
    var r, at' := m[key := Message(body, nm.flags(name))], at[key := Cur(name)];
    forall k | k in at'
      ensures Sits(nm, e, k, at'[k], r[k])
    {
      if k != key {
        assert Sits(nm, d, k, at[k], m[k]);
      }
    }
  }

  /** A new file for an absent key in the first directory. */
  lemma ArriveRefines<K, N, B, F>(nm: Naming<N, K, F>, d: Dir<K, N, B>, m: map<K, Message<B, F>>, at: map<K, Place<N>>, key: K, body: B)
    requires Represents(nm, d, m, at) && key !in m
    ensures Represents(nm, d.(arrived := d.arrived[key := body]), m[key := Message(body, nm.none)], at[key := New])
  {
    var e := d.(arrived := d.arrived[key := body]);
    forall k | k in at
      ensures Sits(nm, e, k, at[k], m[k])
    {
      assert Sits(nm, d, k, at[k], m[k]);
    }
  }

  lemma Reinsert<K, T>(m: map<K, T>, key: K, value: T)
    ensures (m - {key})[key := value] == m[key := value]
  {
  }

  lemma TakenOut<K, T>(m: map<K, T>, key: K, value: T)
    requires key !in m
    ensures m[key := value] - {key} == m
  {
  }

  /** Renaming a message's file changes its attributes to those of the new name and nothing else, provided
      the new name still parses to the key. */
  lemma MoveRefines<K, N, B, F>(nm: Naming<N, K, F>, d: Dir<K, N, B>, m: map<K, Message<B, F>>, at: map<K, Place<N>>, key: K, name: N)
    requires Represents(nm, d, m, at) && key in at && nm.base(name) == key
    ensures if at[key].New? then key in d.arrived else at[key].name in d.current
    ensures Represents(nm, Moved(d, key, at[key], name), m[key := Message(m[key].body, nm.flags(name))], at[key := Cur(name)])
  {
    assert Sits(nm, d, key, at[key], m[key]);
    RemoveRefines(nm, d, m, at, key);
    PlaceRefines(nm, Removed(d, key, at[key]), m - {key}, at - {key}, name, m[key].body);
    Reinsert(m, key, Message(m[key].body, nm.flags(name)));
    Reinsert(at, key, Cur(name));
  }

  /** Every indexed key has a file. */
  lemma Findable<K, N, B, F>(nm: Naming<N, K, F>, d: Dir<K, N, B>, m: map<K, Message<B, F>>, at: map<K, Place<N>>, key: K)
    requires Represents(nm, d, m, at)
    ensures key in at ==> key in d.arrived || exists n :: n in d.current && nm.base(n) == key
  {
    if key in at {
      assert Sits(nm, d, key, at[key], m[key]);
    }
  }

  lemma Stored<K, N, B, F>(nm: Naming<N, K, F>, d: Dir<K, N, B>, m: map<K, Message<B, F>>, at: map<K, Place<N>>, key: K)
    requires Represents(nm, d, m, at) && key in at
    ensures if at[key].New? then key in d.arrived else at[key].name in d.current
    ensures m[key].body == BodyAt(d, key, at[key])
    ensures m[key].flags == if at[key].New? then nm.none else nm.flags(at[key].name)
    ensures at[key].Cur? ==> key !in d.arrived && nm.base(at[key].name) == key
  {
    assert Sits(nm, d, key, at[key], m[key]);
  }
}
