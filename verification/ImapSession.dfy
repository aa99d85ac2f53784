/** Flag changes through an IMAP session (internal/platform/imap/session.go): the session caches a snapshot of
    the mailbox at SELECT and must stay in step with the maildir behind it. */
module ImapSession {
  import opened Maildir

  datatype StoreOp = SetFlags | AddFlags | RemoveFlags

  /** STORE on flag sets (section 6.4.6 of RFC 9051): replace, union or difference. */
  function StoreResult(op: StoreOp, current: set<string>, flags: set<string>): set<string> {
    match op
    case SetFlags => flags
    case AddFlags => current + flags
    case RemoveFlags => current - flags
  }

  /** applyStoreOp: whatever the order and repetition of either list, the result lists each flag of
      StoreResult exactly once. */
  method ApplyStoreOp(current: seq<string>, op: StoreOp, flags: seq<string>) returns (out: seq<string>)
    ensures AsSet(out) == StoreResult(op, AsSet(current), AsSet(flags))
    ensures forall i, j | 0 <= i < j < |out| :: out[i] != out[j]
    ensures op == SetFlags ==> forall f :: f in out <==> f in flags
    ensures op == AddFlags ==> forall f :: f in out <==> f in current || f in flags
    ensures op == RemoveFlags ==> forall f :: f in out <==> f in current && f !in flags
  {
    var flagSet := Collect({}, current, true);
    match op {
      case SetFlags => flagSet := Collect({}, flags, true);
      case AddFlags => flagSet := Collect(flagSet, flags, true);
      case RemoveFlags => flagSet := Collect(flagSet, flags, false);
    }
    out := [];
    var rest := flagSet;
    while rest != {}
      invariant AsSet(out) !! rest && AsSet(out) + rest == flagSet
      invariant forall i, j | 0 <= i < j < |out| :: out[i] != out[j]
      decreases rest
    {
      var f :| f in rest;
      assert AsSet(out + [f]) == AsSet(out) + {f};
      assert f !in AsSet(out);
      out, rest := out + [f], rest - {f};
    }
    assert forall f :: (f in out <==> f in AsSet(out)) && (f in current <==> f in AsSet(current)) && (f in flags <==> f in AsSet(flags));
  }

  /** The loops that put flags into, or take them out of, the set being built. */
  method Collect(start: set<string>, flags: seq<string>, adding: bool) returns (result: set<string>)
    ensures result == if adding then start + AsSet(flags) else start - AsSet(flags)
  {
    result := start;
    for i := 0 to |flags|
      invariant result == if adding then start + AsSet(flags[..i]) else start - AsSet(flags[..i])
    {
      assert flags[..i + 1] == flags[..i] + [flags[i]];
      assert AsSet(flags[..i + 1]) == AsSet(flags[..i]) + {flags[i]};
      result := if adding then result + {flags[i]} else result - {flags[i]};
    }
    assert flags[..|flags|] == flags;
  }

  ghost predicate DistinctKeys(view: seq<Meta>) {
    forall i, j | 0 <= i < j < |view| :: view[i].key != view[j].key
  }

  /** The view entry names a stored message whose flags are the entry's system flags. */
  ghost predicate InStep(meta: Meta, messages: map<string, Message>) {
    meta.key in messages && messages[meta.key].flags == AsSet(meta.flags) * SystemFlags
  }

  ghost predicate AllInStep(view: seq<Meta>, messages: map<string, Message>) {
    DistinctKeys(view) && forall i | 0 <= i < |view| :: InStep(view[i], messages)
  }

  /** What STORE makes of a view entry. */
  ghost predicate Updated(before: Meta, after: Meta, op: StoreOp, flags: set<string>) {
    after.key == before.key && after.size == before.size && AsSet(after.flags) == StoreResult(op, AsSet(before.flags), flags)
  }

  /** The first `n` entries have been through STORE where selected; the rest are untouched. */
  ghost predicate Processed(before: seq<Meta>, after: seq<Meta>, n: nat, selected: set<nat>, op: StoreOp, flags: set<string>) {
    && |after| == |before|
    && forall i | 0 <= i < |after| ::
      if i < n && i + 1 in selected then Updated(before[i], after[i], op, flags) else after[i] == before[i]
  }

  ghost predicate SameBodies(before: map<string, Message>, after: map<string, Message>) {
    after.Keys == before.Keys && forall k | k in after :: after[k].body == before[k].body
  }

  /** Writing the same new flags to one view entry and to its message keeps everything in step. */
  lemma OneStore(view: seq<Meta>, messages: map<string, Message>, i: nat, newFlags: seq<string>)
    requires AllInStep(view, messages) && i < |view|
    ensures view[i].key in messages
    ensures AllInStep(view[i := view[i].(flags := newFlags)], Reflagged(messages, view[i].key, newFlags))
    ensures SameBodies(messages, Reflagged(messages, view[i].key, newFlags))
  {
    assert InStep(view[i], messages);
    var view', messages' := view[i := view[i].(flags := newFlags)], Reflagged(messages, view[i].key, newFlags);
    forall j | 0 <= j < |view'|
      ensures InStep(view'[j], messages')
    {
      assert InStep(view[j], messages);
    }
  }

  lemma ProcessedNext(before: seq<Meta>, mid: seq<Meta>, after: seq<Meta>, n: nat, selected: set<nat>, op: StoreOp, flags: set<string>)
    requires Processed(before, mid, n, selected, op, flags) && n < |before| && |after| == |mid|
    requires if n + 1 in selected then Updated(mid[n], after[n], op, flags) && after == mid[n := after[n]] else after == mid
    ensures Processed(before, after, n + 1, selected, op, flags)
  {
  }

  /** View and store agree on every entry. */
  ghost predicate Agree(view: seq<Meta>, messages: map<string, Message>) {
    forall i | 0 <= i < |view| :: view[i].key in messages && AsSet(view[i].flags) == messages[view[i].key].flags
  }

  /** Some entry of the view is selected; sequence numbers start at 1. */
  ghost predicate Hits(view: seq<Meta>, selected: set<nat>) {
    exists n :: n in selected && 1 <= n <= |view|
  }

  /** An entry in step agrees with the store exactly when it shows system flags only. */
  lemma AgreeIff(view: seq<Meta>, messages: map<string, Message>)
    requires AllInStep(view, messages)
    ensures Agree(view, messages) <==> forall i | 0 <= i < |view| :: AsSet(view[i].flags) <= SystemFlags
  {
    forall i | 0 <= i < |view|
      ensures AsSet(view[i].flags) == messages[view[i].key].flags <==> AsSet(view[i].flags) <= SystemFlags
    {
      assert InStep(view[i], messages);
    }
    if Agree(view, messages) {
      forall i | 0 <= i < |view|
        ensures AsSet(view[i].flags) <= SystemFlags
      {
        assert AsSet(view[i].flags) == messages[view[i].key].flags;
      }
    }
  }

  /** Which STORE commands keep a view of system flags one of system flags. */
  lemma SystemFlagsKeptIff(before: seq<Meta>, after: seq<Meta>, selected: set<nat>, op: StoreOp, flags: set<string>)
    requires Processed(before, after, |before|, selected, op, flags)
    requires forall i | 0 <= i < |before| :: AsSet(before[i].flags) <= SystemFlags
    ensures (forall i | 0 <= i < |after| :: AsSet(after[i].flags) <= SystemFlags)
       <==> op == RemoveFlags || flags <= SystemFlags || !Hits(before, selected)
  {
    if op != RemoveFlags && !(flags <= SystemFlags) && Hits(before, selected) {
      var n :| n in selected && 1 <= n <= |before|;
      var i := n - 1;
      var f :| f in flags && f !in SystemFlags;
      assert Updated(before[i], after[i], op, flags) && f in AsSet(after[i].flags);
    }
  }

  lemma StillAgreeIff(before: seq<Meta>, messages: map<string, Message>, after: seq<Meta>, messages': map<string, Message>, selected: set<nat>, op: StoreOp, flags: set<string>)
    requires AllInStep(before, messages) && AllInStep(after, messages') && Processed(before, after, |after|, selected, op, flags)
    ensures Agree(before, messages) ==> (Agree(after, messages') <==> op == RemoveFlags || flags <= SystemFlags || !Hits(after, selected))
  {
    AgreeIff(before, messages);
    AgreeIff(after, messages');
    if Agree(before, messages) {
      SystemFlagsKeptIff(before, after, selected, op, flags);
    }
  }

  /** The only session on its mailbox. */
  class Session {
    const mailbox: Mailbox
    var view: seq<Meta>

    constructor (mailbox: Mailbox)
      ensures this.mailbox == mailbox && view == []
    {
      this.mailbox, view := mailbox, [];
    }

    ghost predicate Valid()
      reads this, mailbox
    {
      mailbox.Valid() && AllInStep(view, mailbox.Messages)
    }

    /** SELECT snapshots every message with exactly its stored flags. */
    method Select()
      requires mailbox.Valid()
      modifies this
      ensures Valid()
      ensures Agree(view, mailbox.Messages)
      ensures (set i | 0 <= i < |view| :: view[i].key) == mailbox.Messages.Keys
    {
      var metas := mailbox.List();
      view := metas;
      forall i | 0 <= i < |view|
        ensures InStep(view[i], mailbox.Messages)
      {
        mailbox.OnlySystemFlags(view[i].key);
      }
      assert AllInStep(view, mailbox.Messages);
    }

    method Unselect()
      requires mailbox.Valid()
      modifies this
      ensures Valid() && view == []
    {
      view := [];
    }

    /** STORE updates the selected entries, in the view and in the mailbox alike, and nothing else. It never
        fails for a sole session. Where view and store agreed they still do exactly when the command removes
        flags, names system flags only or selects nothing: other keywords stay in the view but never reach
        the maildir. */
    method Store(selected: set<nat>, op: StoreOp, flags: seq<string>) returns (ok: bool)
      requires Valid() && this as object != mailbox
      modifies this, mailbox
      ensures ok && Valid()
      ensures Processed(old(view), view, |view|, selected, op, AsSet(flags))
      ensures SameBodies(old(mailbox.Messages), mailbox.Messages)
      ensures Agree(old(view), old(mailbox.Messages)) ==>
        (Agree(view, mailbox.Messages) <==> op == RemoveFlags || AsSet(flags) <= SystemFlags || !Hits(view, selected))
    {
      StoreEach(selected, op, flags);
      StillAgreeIff(old(view), old(mailbox.Messages), view, mailbox.Messages, selected, op, AsSet(flags));
      return true;
    }

    method StoreEach(selected: set<nat>, op: StoreOp, flags: seq<string>)
      requires Valid() && this as object != mailbox
      modifies this, mailbox
      ensures Valid() && Processed(old(view), view, |view|, selected, op, AsSet(flags))
      ensures SameBodies(old(mailbox.Messages), mailbox.Messages)
    {
      var i := 0;
      while i < |view|
        invariant 0 <= i <= |view|
        invariant Valid()
        invariant Processed(old(view), view, i, selected, op, AsSet(flags))
        invariant SameBodies(old(mailbox.Messages), mailbox.Messages)
        decreases |view| - i
      {
        ghost var mid := view;
        if i + 1 in selected {
          StoreOne(i, op, flags);
        }
        ProcessedNext(old(view), mid, view, i, selected, op, AsSet(flags));
        i := i + 1;
      }
    }

    /** Any sequence of STORE commands. Each message ends up with the flags the commands make of those it was
        shown with: all of them in the view, the system flags among them in the store. */
    method StoreAll(commands: seq<Command>)
      requires Valid() && this as object != mailbox
      modifies this, mailbox
      ensures Valid() && |view| == |old(view)|
      ensures SameBodies(old(mailbox.Messages), mailbox.Messages)
      ensures forall i | 0 <= i < |view| :: view[i].key == old(view)[i].key && InStep(view[i], mailbox.Messages)
      ensures forall i | 0 <= i < |view| :: AsSet(view[i].flags) == FlagsAfter(AsSet(old(view)[i].flags), i, commands)
      ensures Agree(view, mailbox.Messages) <==> forall i | 0 <= i < |view| :: FlagsAfter(AsSet(old(view)[i].flags), i, commands) <= SystemFlags
      ensures Agree(old(view), old(mailbox.Messages)) && (forall c | c in commands :: SystemOnly(c)) ==> Agree(view, mailbox.Messages)
    {
      var n := 0;
      while n < |commands|
        invariant 0 <= n <= |commands| && Valid() && Advanced(old(view), view, commands[..n])
        invariant SameBodies(old(mailbox.Messages), mailbox.Messages)
      {
        var c := commands[n];
        ghost var mid := view;
        var ok := Store(c.selected, c.op, c.flags);
        AdvancedNext(old(view), mid, view, commands, n);
        n := n + 1;
      }
      assert commands[..n] == commands;
      AgreeAtEnd(old(view), old(mailbox.Messages), view, mailbox.Messages, commands);
    }

    method StoreOne(i: nat, op: StoreOp, flags: seq<string>)
      requires Valid() && this as object != mailbox && i < |view|
      modifies this, mailbox
      ensures Valid() && i < |view| == |old(view)|
      ensures view == old(view)[i := view[i]] && Updated(old(view)[i], view[i], op, AsSet(flags))
      ensures SameBodies(old(mailbox.Messages), mailbox.Messages)
    {
      var newFlags := ApplyStoreOp(view[i].flags, op, flags);
      OneStore(view, mailbox.Messages, i, newFlags);
      var ok := mailbox.UpdateFlags(view[i].key, newFlags);
      view := view[i := view[i].(flags := newFlags)];
    }
  }

  // ---------- any sequence of commands ----------

  datatype Command = Command(selected: set<nat>, op: StoreOp, flags: seq<string>)

  /** What the commands, in order, make of the flags shown for entry `i`. */
  ghost function FlagsAfter(current: set<string>, i: nat, commands: seq<Command>): set<string> {
    if commands == [] then current
    else
      var last := commands[|commands| - 1];
      var before := FlagsAfter(current, i, commands[..|commands| - 1]);
      if i + 1 in last.selected then StoreResult(last.op, before, AsSet(last.flags)) else before
  }

  ghost predicate SystemOnly(c: Command) {
    c.op == RemoveFlags || AsSet(c.flags) <= SystemFlags
  }

  ghost predicate Advanced(before: seq<Meta>, after: seq<Meta>, commands: seq<Command>) {
    && |after| == |before|
    && forall i | 0 <= i < |after| :: after[i].key == before[i].key && AsSet(after[i].flags) == FlagsAfter(AsSet(before[i].flags), i, commands)
  }

  lemma AdvancedNext(before: seq<Meta>, mid: seq<Meta>, after: seq<Meta>, commands: seq<Command>, n: nat)
    requires n < |commands| && Advanced(before, mid, commands[..n])
    requires Processed(mid, after, |after|, commands[n].selected, commands[n].op, AsSet(commands[n].flags))
    ensures Advanced(before, after, commands[..n + 1])
  {
    assert commands[..n + 1][..n] == commands[..n];
  }

  lemma {:induction false} SystemOnlyKeeps(current: set<string>, i: nat, commands: seq<Command>)
    requires current <= SystemFlags && forall c | c in commands :: SystemOnly(c)
    ensures FlagsAfter(current, i, commands) <= SystemFlags
  {
    if commands != [] {
      assert SystemOnly(commands[|commands| - 1]);
      SystemOnlyKeeps(current, i, commands[..|commands| - 1]);
    }
  }

  lemma AgreeAtEnd(before: seq<Meta>, messages: map<string, Message>, after: seq<Meta>, messages': map<string, Message>, commands: seq<Command>)
    requires AllInStep(before, messages) && AllInStep(after, messages') && Advanced(before, after, commands)
    ensures Agree(after, messages') <==> forall i | 0 <= i < |after| :: FlagsAfter(AsSet(before[i].flags), i, commands) <= SystemFlags
    ensures Agree(before, messages) && (forall c | c in commands :: SystemOnly(c)) ==> Agree(after, messages')
  {
    AgreeIff(before, messages);
    AgreeIff(after, messages');
    assert forall i | 0 <= i < |after| :: AsSet(after[i].flags) == FlagsAfter(AsSet(before[i].flags), i, commands);
    if Agree(before, messages) && forall c | c in commands :: SystemOnly(c) {
      forall i | 0 <= i < |after|
        ensures FlagsAfter(AsSet(before[i].flags), i, commands) <= SystemFlags
      {
        SystemOnlyKeeps(AsSet(before[i].flags), i, commands);
      }
    }
  }

  /** A replacing STORE on an entry makes everything before it irrelevant to that entry. */
  lemma {:induction false} LastSetDecides(current: set<string>, i: nat, before: seq<Command>, c: Command, after: seq<Command>)
    requires c.op == SetFlags && i + 1 in c.selected
    ensures FlagsAfter(current, i, before + [c] + after) == FlagsAfter(AsSet(c.flags), i, after)
    decreases |after|
  {
    var all := before + [c] + after;
    var last := |all| - 1;
    if after == [] {
      assert all[last] == c;
    } else {
      assert all[..last] == before + [c] + after[..|after| - 1] && all[last] == after[|after| - 1];
      LastSetDecides(current, i, before, c, after[..|after| - 1]);
    }
  }
}
