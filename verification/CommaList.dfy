/** Lists stored as comma-joined text: message flags in internal/storage/postgres and event types in
    internal/webhook/postgres.go. */
module CommaList {
  import opened Text

  const Comma := ","

  /** strings.Join(parts, ",") */
  function Join(parts: seq<string>): string
    decreases |parts|
  {
    if parts == [] then ""
    else if |parts| == 1 then parts[0]
    else parts[0] + Comma + Join(parts[1..])
  }

  /** strings.Split(s, ",") */
  function Split(s: string): (parts: seq<string>)
    ensures parts != []
    decreases |s|
  {
    var i := Find(s, Comma);
    if i < 0 then [s] else [s[..i]] + Split(s[i + 1..])
  }

  /** decodeFlags and decodeEventTypes. */
  function Decode(s: string): seq<string> {
    if s == "" then [] else Split(s)
  }

  predicate Clean(parts: seq<string>) {
    forall i | 0 <= i < |parts| :: !Contains(parts[i], ",")
  }

  lemma {:induction false} SplitJoin(parts: seq<string>)
    requires parts != [] && Clean(parts)
    ensures Split(Join(parts)) == parts
    decreases |parts|
  {
    CleanTail(parts);
    if |parts| > 1 {
      var tail := Join(parts[1..]);
      SplitHead(parts[0], tail);
      SplitJoin(parts[1..]);
      assert Join(parts) == parts[0] + Comma + tail;
    }
  }

  lemma CleanTail(parts: seq<string>)
    requires parts != [] && Clean(parts)
    ensures !Contains(parts[0], Comma) && Clean(parts[1..])
  {
  }

  lemma SplitHead(head: string, tail: string)
    requires !Contains(head, Comma)
    ensures Split(head + Comma + tail) == [head] + Split(tail)
  {
    var s := head + Comma + tail;
    FindAfter(head, Comma, tail);
    assert s[..|head|] == head && s[|head| + 1..] == tail;
  }

  lemma SplitClean(s: string)
    ensures Clean(Split(s))
  {
    forall k | 0 <= k < |Split(s)|
      ensures !Contains(Split(s)[k], Comma)
    {
      PartClean(s, k);
    }
  }

  lemma {:induction false} PartClean(s: string, k: nat)
    requires k < |Split(s)|
    ensures !Contains(Split(s)[k], Comma)
    decreases |s|
  {
    var i := Find(s, Comma);
    var part := Split(s)[k];
    if i < 0 {
      assert part == s;
    } else if k == 0 {
      HeadClean(s, Comma, i);
      assert part == s[..i];
    } else {
      PartClean(s[i + 1..], k - 1);
      assert part == Split(s[i + 1..])[k - 1];
    }
  }

  /** Splitting loses nothing: joining gives the text back. */
  lemma {:induction false} JoinSplit(s: string)
    ensures Join(Split(s)) == s
    decreases |s|
  {
    var i := Find(s, Comma);
    if i >= 0 {
      FoundThere(s, Comma);
      Rejoin(s, Comma, i);
      JoinSplit(s[i + 1..]);
      assert Split(s)[1..] == Split(s[i + 1..]);
    }
  }

  lemma JoinEmptyIff(parts: seq<string>)
    ensures Join(parts) == "" <==> parts == [] || parts == [""]
  {
    if |parts| > 1 {
      assert Join(parts) == parts[0] + Comma + Join(parts[1..]);
      assert |Join(parts)| >= 1;
    }
  }

  /** A list survives being stored exactly when no element contains a comma and it is not the list holding one
      empty string. */
  lemma RoundTripIff(parts: seq<string>)
    ensures Decode(Join(parts)) == parts <==> Clean(parts) && parts != [""]
  {
    JoinEmptyIff(parts);
    SplitClean(Join(parts));
    if parts != [] && parts != [""] && Clean(parts) {
      SplitJoin(parts);
    }
  }

  /** A filter list matches an event type when it is empty or names it. */
  predicate Accepts(types: seq<string>, eventType: string) {
    types == [] || eventType in types
  }

  /** A subscription to the empty event type comes back from the database subscribed to everything. */
  lemma EmptyTypeBecomesAll(eventType: string)
    requires eventType != ""
    ensures !Accepts([""], eventType) && Accepts(Decode(Join([""])), eventType)
  {
    JoinEmptyIff([""]);
  }

  /** A stored filter matches the same events exactly when it survives storage. */
  lemma StoredFilterSameIff(types: seq<string>)
    ensures (forall e :: Accepts(Decode(Join(types)), e) <==> Accepts(types, e)) <==> Clean(types) && types != [""]
  {
    var stored := Decode(Join(types));
    RoundTripIff(types);
    if types == [""] {
      EmptyTypeBecomesAll("a");
    } else if !Clean(types) {
      JoinEmptyIff(types);
      SplitClean(Join(types));
      var i :| 0 <= i < |types| && Contains(types[i], Comma);
      assert Accepts(types, types[i]) && !Accepts(stored, types[i]);
    }
  }
}
