/** The maildir backend (internal/storage/maildir/maildir.go): a message's state lives in the directory it
    sits in and in its file name. One mailbox is modelled; `arrived` and `current` stand for its new/
    and cur/ directories. */
module Maildir {
  import opened RetryQueue
  import opened Text
  import FI = FileIndex

  type Body = seq<bv8>

  // ---------- flags in file names ----------

  const Seen := "\\Seen"
  const Answered := "\\Answered"
  const Flagged := "\\Flagged"
  const Deleted := "\\Deleted"
  const Draft := "\\Draft"
  const SystemFlags := {Seen, Answered, Flagged, Deleted, Draft}

  function LetterOf(flag: string): Option<char> {
    if flag == Draft then Some('D')
    else if flag == Flagged then Some('F')
    else if flag == Answered then Some('R')
    else if flag == Seen then Some('S')
    else if flag == Deleted then Some('T')
    else None
  }

  function FlagOf(letter: char): Option<string> {
    match letter
    case 'D' => Some(Draft)
    case 'F' => Some(Flagged)
    case 'R' => Some(Answered)
    case 'S' => Some(Seen)
    case 'T' => Some(Deleted)
    case _ => None
  }

  lemma LettersInvert(flag: string, letter: char)
    ensures LetterOf(flag) == Some(letter) <==> FlagOf(letter) == Some(flag)
    ensures LetterOf(flag).Some? <==> flag in SystemFlags
  {
  }

  function Letters(flags: seq<string>): string {
    if flags == [] then ""
    else
      var last := LetterOf(flags[|flags| - 1]);
      Letters(flags[..|flags| - 1]) + if last.Some? then [last.value] else []
  }

  predicate Ascending(s: string) {
    forall i, j | 0 <= i < j < |s| :: s[i] <= s[j]
  }

  function Insert(s: string, c: char): (r: string)
    ensures multiset(r) == multiset(s) + multiset{c}
  {
    if s == "" || c <= s[0] then [c] + s
    else
      assert s == [s[0]] + s[1..];
      [s[0]] + Insert(s[1..], c)
  }

  function Sort(s: string): (r: string)
    ensures multiset(r) == multiset(s)
  {
    if s == "" then ""
    else
      assert s == [s[0]] + s[1..];
      Insert(Sort(s[1..]), s[0])
  }

  lemma {:induction false} InsertAscending(s: string, c: char)
    requires Ascending(s)
    ensures Ascending(Insert(s, c))
  {
    if s != "" && s[0] < c {
      InsertAscending(s[1..], c);
      var r := Insert(s[1..], c);
      forall i | 0 <= i < |r|
        ensures s[0] <= r[i]
      {
        assert r[i] in multiset(r);
        assert r[i] == c || r[i] in s[1..];
      }
    }
  }

  /** The letters of a name are in ascending order, as the maildir format asks. */
  lemma {:induction false} SortAscending(s: string)
    ensures Ascending(Sort(s))
  {
    if s != "" {
      SortAscending(s[1..]);
      InsertAscending(Sort(s[1..]), s[0]);
    }
  }

  function EncodeFlags(flags: seq<string>): string {
    Sort(Letters(flags))
  }

  function DecodeFlags(info: string): seq<string> {
    if info == "" then []
    else
      var last := FlagOf(info[|info| - 1]);
      DecodeFlags(info[..|info| - 1]) + if last.Some? then [last.value] else []
  }

  function AsSet(flags: seq<string>): set<string> {
    set f | f in flags
  }

  lemma {:induction false} LettersHold(flags: seq<string>, flag: string)
    requires LetterOf(flag).Some?
    ensures LetterOf(flag).value in Letters(flags) <==> flag in flags
  {
    if flags != [] {
      var last := |flags| - 1;
      LettersHold(flags[..last], flag);
      assert flags == flags[..last] + [flags[last]];
      if LetterOf(flags[last]).Some? {
        LettersInvert(flags[last], LetterOf(flags[last]).value);
        LettersInvert(flag, LetterOf(flag).value);
      }
    }
  }

  lemma {:induction false} DecodeHolds(info: string, flag: string)
    ensures flag in DecodeFlags(info) <==> LetterOf(flag).Some? && LetterOf(flag).value in info
  {
    if info != "" {
      var last := |info| - 1;
      DecodeHolds(info[..last], flag);
      assert info == info[..last] + [info[last]];
      LettersInvert(flag, info[last]);
    }
  }

  /** Encoding and decoding flags keeps exactly the system flags, whatever their order or repetition. */
  lemma FlagsRoundTrip(flags: seq<string>)
    ensures AsSet(DecodeFlags(EncodeFlags(flags))) == AsSet(flags) * SystemFlags
  {
    var letters, info := Letters(flags), EncodeFlags(flags);
    forall flag
      ensures flag in DecodeFlags(info) <==> flag in flags && flag in SystemFlags
    {
      DecodeHolds(info, flag);
      LettersInvert(flag, 'D');
      if LetterOf(flag).Some? {
        LettersHold(flags, flag);
        var c := LetterOf(flag).value;
        assert c in info <==> c in multiset(info);
        assert c in letters <==> c in multiset(letters);
      }
    }
  }

  /** The letters of the maildir format for the five system flags. */
  ghost predicate Spells(info: string, flags: seq<string>) {
    && ('D' in info <==> "\\Draft" in flags) && ('F' in info <==> "\\Flagged" in flags) && ('R' in info <==> "\\Answered" in flags)
    && ('S' in info <==> "\\Seen" in flags) && ('T' in info <==> "\\Deleted" in flags)
  }

  lemma EncodeSpells(flags: seq<string>)
    ensures Spells(EncodeFlags(flags), flags) && Ascending(EncodeFlags(flags))
  {
    SortAscending(Letters(flags));
    forall flag | LetterOf(flag).Some?
      ensures LetterOf(flag).value in EncodeFlags(flags) <==> flag in flags
    {
      LettersHold(flags, flag);
      assert multiset(EncodeFlags(flags)) == multiset(Letters(flags));
      assert LetterOf(flag).value in multiset(EncodeFlags(flags)) <==> LetterOf(flag).value in EncodeFlags(flags);
      assert LetterOf(flag).value in multiset(Letters(flags)) <==> LetterOf(flag).value in Letters(flags);
    }
    assert LetterOf(Draft) == Some('D') && LetterOf(Flagged) == Some('F') && LetterOf(Answered) == Some('R');
    assert LetterOf(Seen) == Some('S') && LetterOf(Deleted) == Some('T');
  }

  lemma DecodeSpells(info: string)
    ensures Spells(info, DecodeFlags(info)) && AsSet(DecodeFlags(info)) <= SystemFlags
  {
    forall flag
      ensures flag in DecodeFlags(info) <==> LetterOf(flag).Some? && LetterOf(flag).value in info
      ensures LetterOf(flag).Some? <==> flag in SystemFlags
    {
      DecodeHolds(info, flag);
      LettersInvert(flag, 'D');
    }
    assert LetterOf(Draft) == Some('D') && LetterOf(Flagged) == Some('F') && LetterOf(Answered) == Some('R');
    assert LetterOf(Seen) == Some('S') && LetterOf(Deleted) == Some('T');
  }

  /** encodeFlags as written: collect the known letters, then sort them. */
  method Encode(flags: seq<string>) returns (info: string)
    ensures info == EncodeFlags(flags) && Spells(info, flags) && Ascending(info)
  {
    var letters := "";
    for i := 0 to |flags|
      invariant letters == Letters(flags[..i])
    {
      assert flags[..i + 1][..i] == flags[..i];
      if LetterOf(flags[i]).Some? {
        letters := letters + [LetterOf(flags[i]).value];
      }
    }
    assert flags[..|flags|] == flags;
    info := Sort(letters);
    EncodeSpells(flags);
  }

  method Decode(info: string) returns (flags: seq<string>)
    ensures flags == DecodeFlags(info) && Spells(info, flags) && AsSet(flags) <= SystemFlags
  {
    flags := [];
    for i := 0 to |info|
      invariant flags == DecodeFlags(info[..i])
    {
      assert info[..i + 1][..i] == info[..i];
      if FlagOf(info[i]).Some? {
        flags := flags + [FlagOf(info[i]).value];
      }
    }
    assert info[..|info|] == info;
    DecodeSpells(info);
  }

  // ---------- names ----------

  const InfoSep := ":2,"

  function Base(name: string): string {
    var i := Find(name, InfoSep);
    if i < 0 then name else name[..i]
  }

  function Info(name: string): string {
    var i := Find(name, InfoSep);
    if i < 0 then "" else name[i + |InfoSep|..]
  }

  function FlagsIn(name: string): set<string> {
    AsSet(DecodeFlags(Info(name)))
  }

  function CurName(key: string, flags: seq<string>): string {
    key + InfoSep + EncodeFlags(flags)
  }

  /** Where the separator occurs at or before its own place in key + separator + info: there, and wherever
      the key already contained it, since it cannot overlap itself. */
  lemma SeparatorPlaces(key: string, info: string, j: nat)
    requires j <= |key|
    ensures At(key + InfoSep + info, InfoSep, j) <==> j == |key| || At(key, InfoSep, j)
  {
    var name, k := key + InfoSep + info, |key|;
    assert name[k] == ':' && name[k + 1] == '2' && name[k + 2] == ',';
    assert |name[j..j + 3]| == 3;
    if j == k {
      assert name[k..k + 3] == InfoSep;
    } else if j + 3 <= k {
      assert key[j..j + 3] == name[j..j + 3];
    } else {
      assert name[j..j + 3][1] == name[j + 1] && name[j..j + 3][2] == name[j + 2];
    }
  }

  /** A key survives being given an info suffix exactly when it does not contain the separator itself. */
  lemma NameRoundTripIff(key: string, info: string)
    ensures Base(key + ":2," + info) == key <==> !Contains(key, ":2,")
    ensures !Contains(key, ":2,") ==> Info(key + ":2," + info) == info
  {
    var name, k := key + InfoSep + info, |key|;
    SeparatorPlaces(key, info, k);
    FindIsFirst(key, InfoSep);
    FindIsFirst(name, InfoSep);
    if Contains(key, InfoSep) {
      SeparatorPlaces(key, info, Find(key, InfoSep));
      assert |Base(name)| < k;
    } else {
      forall j | 0 <= j < k
        ensures !At(name, InfoSep, j)
      {
        SeparatorPlaces(key, info, j);
      }
      FindIs(name, InfoSep, k);
      assert name[..k] == key && name[k + 3..] == info;
    }
  }

  // ---------- the directory and the map it stands for ----------

  /** The two directories readers look at; tmp/ is never searched. */
  type Dir = FI.Dir<string, string, Body>

  type Message = FI.Message<Body, set<string>>

  type Place = FI.Place<string>

  const Names := FI.Naming((n: string) => Base(n), (n: string) => FlagsIn(n), {})

  /** No key contains the separator, each key sits under exactly one name in exactly one of new/ and cur/,
      namely the place `at` gives it, and `m` is what reads back. */
  ghost predicate Represents(d: Dir, m: map<string, Message>, at: map<string, Place>) {
    FI.Represents(Names, d, m, at) && forall k | k in m :: !Contains(k, InfoSep)
  }

  /** The name UpdateFlags gives a file carries the key and exactly the system flags asked for. */
  lemma CurNameCarries(key: string, flags: seq<string>)
    requires !Contains(key, InfoSep)
    ensures Base(CurName(key, flags)) == key && FlagsIn(CurName(key, flags)) == AsSet(flags) * SystemFlags
  {
    NameRoundTripIff(key, EncodeFlags(flags));
    FlagsRoundTrip(flags);
  }

  /** UpdateFlags on the map: the body stays, the flags become the system flags asked for. */
  function Reflagged(m: map<string, Message>, key: string, flags: seq<string>): map<string, Message>
    requires key in m
  {
    m[key := FI.Message(m[key].body, AsSet(flags) * SystemFlags)]
  }

  /** os.Rename into cur/ under the name carrying the new flags. */
  lemma FlagRefines(d: Dir, m: map<string, Message>, at: map<string, Place>, key: string, flags: seq<string>)
    requires Represents(d, m, at) && key in at
    ensures if at[key].New? then key in d.arrived else at[key].name in d.current
    ensures Represents(FI.Moved(d, key, at[key], CurName(key, flags)), Reflagged(m, key, flags), at[key := FI.Cur(CurName(key, flags))])
  {
    CurNameCarries(key, flags);
    FI.MoveRefines(Names, d, m, at, key, CurName(key, flags));
  }

  lemma WriteRefines(d: Dir, m: map<string, Message>, at: map<string, Place>, key: string, body: Body)
    requires Represents(d, m, at) && key !in m && !Contains(key, InfoSep)
    ensures Represents(FI.Dir(d.arrived[key := body], d.current), m[key := FI.Message(body, {})], at[key := FI.New])
  {
    FI.ArriveRefines(Names, d, m, at, key, body);
  }

  lemma DeleteRefines(d: Dir, m: map<string, Message>, at: map<string, Place>, key: string)
    requires Represents(d, m, at) && key in at
    ensures Represents(FI.Removed(d, key, at[key]), m - {key}, at - {key})
  {
    FI.RemoveRefines(Names, d, m, at, key);
  }

  // ---------- the backend as written ----------

  datatype Meta = Meta(key: string, size: nat, flags: seq<string>)

  /** One mailbox on disk. `Messages` is the map it must stand for, `Index` where each key sits. */
  class Mailbox {
    var tmp: map<string, Body>
    var arrived: map<string, Body>
    var current: map<string, Body>
    ghost var Messages: map<string, Message>
    ghost var Index: map<string, Place>

    ghost function Files(): Dir
      reads this
    {
      FI.Dir(arrived, current)
    }

    ghost predicate Valid()
      reads this
    {
      Represents(Files(), Messages, Index)
    }

    constructor ()
      ensures Valid() && Messages == map[] && tmp == map[]
    {
      tmp, arrived, current, Messages, Index := map[], map[], map[], map[], map[];
    }

    /** Both directories after a rename or removal, with the map they then stand for. */
    method Install(arrived': map<string, Body>, current': map<string, Body>, ghost messages: map<string, Message>, ghost index: map<string, Place>)
      requires Represents(FI.Dir(arrived', current'), messages, index)
      modifies this`arrived, this`current, this`Messages, this`Index
      ensures Valid() && arrived == arrived' && current == current' && Messages == messages && Index == index
    {
      arrived, current, Messages, Index := arrived', current', messages, index;
    }

    /** Deliver by way of tmp/: create, write the body piece by piece, then rename into new/. `name` is the
        unique name drawn for it. */
    method Write(name: string, pieces: seq<Body>)
      requires Valid() && name !in tmp && name !in Messages && !Contains(name, InfoSep)
      modifies this
      ensures Valid() && tmp == old(tmp)
      ensures Messages == old(Messages)[name := FI.Message(Joined(pieces), {})]
    {
      WriteTmp(name, pieces);
      var body := tmp[name];
      FI.TakenOut(old(tmp), name, body);
      tmp := tmp - {name};
      WriteRefines(Files(), Messages, Index, name, body);
      Install(arrived[name := body], current, Messages[name := FI.Message(body, {})], Index[name := FI.New]);
    }

    method WriteTmp(name: string, pieces: seq<Body>)
      modifies this`tmp
      ensures tmp == old(tmp)[name := Joined(pieces)]
    {
      tmp := tmp[name := []];
      for i := 0 to |pieces|
        invariant tmp == old(tmp)[name := Joined(pieces[..i])]
      {
        assert pieces[..i + 1][..i] == pieces[..i];
        tmp := tmp[name := tmp[name] + pieces[i]];
      }
      assert pieces[..|pieces|] == pieces;
    }

    /** Search new/, then every entry of cur/. */
    method Locate(key: string) returns (place: Option<Place>)
      requires Valid()
      ensures place == if key in Index then Some(Index[key]) else None
    {
      if key in arrived {
        return Some(FI.New);
      }
      var entries := current.Keys;
      while entries != {}
        invariant entries <= current.Keys
        invariant forall n | n in current.Keys - entries :: Base(n) != key
        decreases entries
      {
        var n :| n in entries;
        if Base(n) == key {
          return Some(FI.Cur(n));
        }
        entries := entries - {n};
      }
      FI.Findable(Names, Files(), Messages, Index, key);
      return None;
    }

    method Read(key: string) returns (body: Option<Body>)
      requires Valid()
      ensures body == if key in Messages then Some(Messages[key].body) else None
    {
      var place := Locate(key);
      if place.None? {
        return None;
      }
      FI.Stored(Names, Files(), Messages, Index, key);
      return Some(if place.value.New? then arrived[key] else current[place.value.name]);
    }

    method UpdateFlags(key: string, flags: seq<string>) returns (ok: bool)
      requires Valid()
      modifies this
      ensures Valid() && tmp == old(tmp)
      ensures ok <==> key in old(Messages)
      ensures Messages == if ok then Reflagged(old(Messages), key, flags) else old(Messages)
    {
      var place := Locate(key);
      if place.None? {
        return false;
      }
      var info := Encode(flags);
      FlagRefines(Files(), Messages, Index, key, flags);
      Rename(key, place.value, key + InfoSep + info, Reflagged(Messages, key, flags), Index[key := FI.Cur(CurName(key, flags))]);
      return true;
    }

    method Rename(key: string, place: Place, name: string, ghost messages: map<string, Message>, ghost index: map<string, Place>)
      requires if place.New? then key in arrived else place.name in current
      requires Represents(FI.Moved(Files(), key, place, name), messages, index)
      modifies this`arrived, this`current, this`Messages, this`Index
      ensures Valid() && Messages == messages && Index == index
    {
      if place.New? {
        Install(arrived - {key}, current[name := arrived[key]], messages, index);
      } else if place.name != name {
        Install(arrived, (current - {place.name})[name := current[place.name]], messages, index);
      } else {
        FI.Reinsert(current, name, current[name]);
        assert current[name := current[name]] == current;
        Install(arrived, current, messages, index);
      }
    }

    method Delete(key: string) returns (ok: bool)
      requires Valid()
      modifies this
      ensures Valid() && tmp == old(tmp)
      ensures ok <==> key in old(Messages)
      ensures Messages == old(Messages) - {key}
    {
      var place := Locate(key);
      if place.None? {
        assert Messages == Messages - {key};
        return false;
      }
      DeleteRefines(Files(), Messages, Index, key);
      if place.value.New? {
        Install(arrived - {key}, current, Messages - {key}, Index - {key});
      } else {
        Install(arrived, current - {place.value.name}, Messages - {key}, Index - {key});
      }
      return true;
    }

    /** The listing names every message once, with its size and flags. */
    method List() returns (metas: seq<Meta>)
      requires Valid()
      ensures Lists(metas, Messages, Messages.Keys)
    {
      metas := ListNew();
      ghost var done := arrived.Keys;
      forall n | n in current
        ensures Base(n) !in done
      {
        Listed(n);
      }
      var names := current.Keys;
      while names != {}
        invariant names <= current.Keys
        invariant forall n | n in current :: Base(n) in done <==> n !in names
        invariant arrived.Keys <= done && Lists(metas, Messages, done)
        decreases names
      {
        var n :| n in names;
        var flags := Decode(Info(n));
        Listed(n);
        AddMeta(metas, Messages, done, Meta(Base(n), |current[n]|, flags));
        metas := metas + [Meta(Base(n), |current[n]|, flags)];
        names, done := names - {n}, done + {Base(n)};
      }
      forall k | k in Messages
        ensures k in done
      {
        FI.Stored(Names, Files(), Messages, Index, k);
      }
      assert done == Messages.Keys;
    }

    method ListNew() returns (metas: seq<Meta>)
      requires Valid()
      ensures Lists(metas, Messages, arrived.Keys)
    {
      metas := [];
      var names := arrived.Keys;
      while names != {}
        invariant names <= arrived.Keys
        invariant Lists(metas, Messages, arrived.Keys - names)
        decreases names
      {
        var n :| n in names;
        ghost var listed := arrived.Keys - names;
        ListedNew(n);
        AddMeta(metas, Messages, listed, Meta(n, |arrived[n]|, []));
        metas := metas + [Meta(n, |arrived[n]|, [])];
        names := names - {n};
        assert arrived.Keys - names == listed + {n};
      }
      assert arrived.Keys - names == arrived.Keys;
    }

    /** Stored messages only ever carry system flags. */
    lemma OnlySystemFlags(key: string)
      requires Valid() && key in Messages
      ensures Messages[key].flags <= SystemFlags
    {
      FI.Stored(Names, Files(), Messages, Index, key);
      if Index[key].Cur? {
        var info := Info(Index[key].name);
        forall f | f in DecodeFlags(info)
          ensures f in SystemFlags
        {
          DecodeHolds(info, f);
          LettersInvert(f, 'D');
        }
      }
    }

    lemma ListedNew(n: string)
      requires Valid() && n in arrived
      ensures n in Messages && Messages[n] == FI.Message(arrived[n], {})
    {
      FI.Stored(Names, Files(), Messages, Index, n);
    }

    lemma Listed(n: string)
      requires Valid() && n in current
      ensures Base(n) in Messages && Base(n) !in arrived
      ensures Messages[Base(n)] == FI.Message(current[n], FlagsIn(n))
      ensures forall n' | n' in current && Base(n') == Base(n) :: n' == n
    {
      assert Names.base(n) == Base(n);
      FI.Stored(Names, Files(), Messages, Index, Base(n));
    }
  }

  function Joined(pieces: seq<Body>): Body {
    if pieces == [] then [] else Joined(pieces[..|pieces| - 1]) + pieces[|pieces| - 1]
  }

  /** The body is its pieces one after the other. */
  lemma {:induction false} JoinedConcat(a: seq<Body>, b: seq<Body>)
    ensures Joined(a + b) == Joined(a) + Joined(b)
    ensures |a| == 1 ==> Joined(a) == a[0]
    decreases |b|
  {
    if b == [] {
      assert a + b == a;
    } else {
      assert (a + b)[..|a + b| - 1] == a + b[..|b| - 1];
      JoinedConcat(a, b[..|b| - 1]);
    }
  }

  /** `metas` describes exactly the messages under `keys`, each once. */
  ghost predicate Lists(metas: seq<Meta>, m: map<string, Message>, keys: set<string>) {
    && keys <= m.Keys
    && (forall i | 0 <= i < |metas| :: metas[i].key in keys && Describes(metas[i], m[metas[i].key]))
    && (forall i, j | 0 <= i < j < |metas| :: metas[i].key != metas[j].key)
    && (forall k | k in keys :: exists i :: 0 <= i < |metas| && metas[i].key == k)
  }

  predicate Describes(meta: Meta, message: Message) {
    meta.size == |message.body| && AsSet(meta.flags) == message.flags
  }

  lemma AddMeta(metas: seq<Meta>, m: map<string, Message>, keys: set<string>, meta: Meta)
    requires Lists(metas, m, keys) && meta.key in m && meta.key !in keys && Describes(meta, m[meta.key])
    ensures Lists(metas + [meta], m, keys + {meta.key})
  {
    var longer := metas + [meta];
    forall k | k in keys + {meta.key}
      ensures exists i :: 0 <= i < |longer| && longer[i].key == k
    {
      if k == meta.key {
        assert longer[|metas|].key == k;
      } else {
        var i :| 0 <= i < |metas| && metas[i].key == k;
        assert longer[i].key == k;
      }
    }
  }
}
