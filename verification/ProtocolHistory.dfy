/** The message history of the tool loop, and what makes it closed. */
module ProtocolHistory {
  // The history is kept by the loop and validated again by a resumed run. A message is reduced to what the protocol
  // depends on: whether it is free text, an assistant turn with its tool calls, or a tool result that answers one call
  // id, and which engine prefix its content starts with.

  /** The engine-controlled content prefix that a message starts with, if any. */
  datatype Tag = Untagged | Profile | Memory | Team | WorkingMemory | Pinned | Reminder

  datatype ToolCall = ToolCall(id: string, name: string, arguments: string, target: string)

  datatype Message =
    | Note(tag: Tag)                          // system or user text
    | Assistant(tag: Tag, calls: seq<ToolCall>)
    | Reply(tag: Tag, id: string)             // role "tool"

  function Ids(calls: seq<ToolCall>): (r: seq<string>)
    ensures |r| == |calls|
    ensures forall i :: 0 <= i < |calls| ==> r[i] == calls[i].id
  {
    seq(|calls|, i requires 0 <= i < |calls| => calls[i].id)
  }

  predicate DistinctIds(calls: seq<ToolCall>) {
    forall i, j :: 0 <= i < j < |calls| ==> calls[i].id != calls[j].id
  }

  // ----- running protocol state -------------------------------------------------------------

  /** Ids still waiting for a result, or Broken once the history cannot be completed any more. */
  datatype Pending = Broken | Open(ids: multiset<string>)

  function Step(p: Pending, m: Message): Pending {
    match p
    case Broken => Broken
    case Open(ids) =>
      match m
      case Note(_) => p
      case Assistant(_, calls) => if ids == multiset{} then Open(multiset(Ids(calls))) else Broken
      case Reply(_, id) => if id in ids then Open(ids - multiset{id}) else Broken
  }

  function ScanFrom(p: Pending, ms: seq<Message>): Pending {
    if ms == [] then p else Step(ScanFrom(p, ms[..|ms| - 1]), ms[|ms| - 1])
  }

  function Scan(ms: seq<Message>): Pending {
    ScanFrom(Open(multiset{}), ms)
  }

  predicate Closed(ms: seq<Message>) {
    Scan(ms) == Open(multiset{})
  }

  predicate DistinctTurns(ms: seq<Message>) {
    forall m :: m in ms && m.Assistant? ==> DistinctIds(m.calls)
  }

  lemma {:induction false} ScanAppend(p: Pending, a: seq<Message>, b: seq<Message>)
    ensures ScanFrom(p, a + b) == ScanFrom(ScanFrom(p, a), b)
  {
    if b == [] {
      assert a + b == a;
    } else {
      var init := b[..|b| - 1];
      assert (a + b)[..|a + b| - 1] == a + init;
      ScanAppend(p, a, init);
    }
  }

  lemma ScanOne(p: Pending, m: Message)
    ensures ScanFrom(p, [m]) == Step(p, m)
  {
    assert [m][..0] == [];
  }

  lemma ScanPush(ms: seq<Message>, m: Message)
    ensures Scan(ms + [m]) == Step(Scan(ms), m)
  {
    assert (ms + [m])[..|ms|] == ms;
  }

  lemma {:induction false} BrokenStays(ms: seq<Message>)
    ensures ScanFrom(Broken, ms) == Broken
  {
    if ms != [] {
      BrokenStays(ms[..|ms| - 1]);
    }
  }

  predicate AllNotes(ms: seq<Message>) {
    forall m :: m in ms ==> m.Note?
  }

  lemma {:induction false} NotesKeepPending(p: Pending, ms: seq<Message>)
    requires AllNotes(ms)
    ensures ScanFrom(p, ms) == p
  {
    if ms != [] {
      NotesKeepPending(p, ms[..|ms| - 1]);
      assert ms[|ms| - 1] in ms;
    }
  }

  // ----- an independent reading of "closed" --------------------------------------------------

  /** Ids answered since the last assistant turn. */
  function AnsweredSince(ms: seq<Message>): multiset<string> {
    if ms == [] then multiset{}
    else
      var m := ms[|ms| - 1];
      if m.Assistant? then multiset{}
      else if m.Reply? then AnsweredSince(ms[..|ms| - 1]) + multiset{m.id}
      else AnsweredSince(ms[..|ms| - 1])
  }

  /** Ids called by the last assistant turn. */
  function CalledLast(ms: seq<Message>): multiset<string> {
    if ms == [] then multiset{}
    else
      var m := ms[|ms| - 1];
      if m.Assistant? then multiset(Ids(m.calls)) else CalledLast(ms[..|ms| - 1])
  }

  /** Each tool call is answered exactly once before the next assistant turn, and nothing else is answered:
      wherever an assistant turn begins, and at the end, the results received since the previous turn are
      exactly the calls of that turn. */
  ghost predicate AnsweredExactlyOnce(ms: seq<Message>) {
    forall n :: 0 <= n <= |ms| && (n == |ms| || ms[n].Assistant?) ==> AnsweredSince(ms[..n]) == CalledLast(ms[..n])
  }

  ghost predicate EarlierTurnsAnswered(ms: seq<Message>) {
    forall n :: 0 <= n < |ms| && ms[n].Assistant? ==> AnsweredSince(ms[..n]) == CalledLast(ms[..n])
  }

  lemma TakeOne(a: multiset<string>, b: multiset<string>, x: string)
    ensures a + multiset{x} <= b <==> a <= b && x in b - a
    ensures a <= b && x in b - a ==> b - (a + multiset{x}) == (b - a) - multiset{x}
  {
    if a + multiset{x} <= b {
      assert a[x] + 1 == (a + multiset{x})[x] <= b[x];
      forall y ensures a[y] <= b[y] { assert a[y] <= (a + multiset{x})[y] <= b[y]; }
    }
  }

  lemma NothingLeft(a: multiset<string>, b: multiset<string>)
    requires a <= b
    ensures b - a == multiset{} <==> a == b
  {
    assert b == (b - a) + a;
  }

  lemma EarlierTurnsPush(p: seq<Message>, m: Message)
    ensures EarlierTurnsAnswered(p + [m]) <==>
            EarlierTurnsAnswered(p) && (m.Assistant? ==> AnsweredSince(p) == CalledLast(p))
  {
    var ms := p + [m];
    assert forall n :: 0 <= n <= |p| ==> p[..n] == ms[..n];
    assert p[..|p|] == p;
    assert m.Assistant? ==> ms[|p|].Assistant?;
  }

  lemma {:induction false} ScanMeaning(ms: seq<Message>)
    ensures Scan(ms) ==
            if EarlierTurnsAnswered(ms) && AnsweredSince(ms) <= CalledLast(ms)
            then Open(CalledLast(ms) - AnsweredSince(ms)) else Broken
  {
    if ms != [] {
      var p, m := ms[..|ms| - 1], ms[|ms| - 1];
      assert ms == p + [m];
      ScanMeaning(p);
      EarlierTurnsPush(p, m);
      if m.Assistant? {
        if AnsweredSince(p) <= CalledLast(p) { NothingLeft(AnsweredSince(p), CalledLast(p)); }
      } else if m.Reply? {
        TakeOne(AnsweredSince(p), CalledLast(p), m.id);
      }
    }
  }

  /** The running scan accepts exactly the histories in which every call is answered exactly once before the
      next assistant turn. */
  lemma ClosedMeansAnsweredExactlyOnce(ms: seq<Message>)
    ensures Closed(ms) <==> AnsweredExactlyOnce(ms)
  {
    ScanMeaning(ms);
    assert ms[..|ms|] == ms;
    assert AnsweredExactlyOnce(ms) <==> EarlierTurnsAnswered(ms) && AnsweredSince(ms) == CalledLast(ms);
    if AnsweredSince(ms) <= CalledLast(ms) { NothingLeft(AnsweredSince(ms), CalledLast(ms)); }
  }

  // ----- the check made on resume ------------------------------------------------------------

  /** The history part of the resume validation: a set of pending ids, rejected at the first violation. */
  method ValidateHistory(messages: seq<Message>) returns (ok: bool)
    ensures ok <==> Closed(messages) && DistinctTurns(messages)
  {
    var pending: set<string> := {};
    for n := 0 to |messages|
      invariant DistinctTurns(messages[..n])
      invariant Scan(messages[..n]) == Open(multiset(pending))
    {
      var m := messages[n];
      assert messages[..n + 1] == messages[..n] + [m];
      ScanPush(messages[..n], m);
      assert messages == messages[..n + 1] + messages[n + 1..];
      if m.Assistant? {
        if pending != {} {
          assert pending != {} ==> multiset(pending) != multiset{} by {
            var x :| x in pending;
            assert x in multiset(pending);
          }
          RejectedPrefix(messages, n + 1);
          return false;
        }
        var ids := set c | c in m.calls :: c.id;
        var duplicate := HasDuplicate(m.calls);
        if duplicate {
          assert m in messages;
          return false;
        }
        DistinctIdsAsSet(m.calls);
        pending := ids;
      } else if m.Reply? {
        if m.id !in pending {
          RejectedPrefix(messages, n + 1);
          return false;
        }
        assert multiset(pending) - multiset{m.id} == multiset(pending - {m.id});
        pending := pending - {m.id};
      }
    }
    assert messages[..|messages|] == messages;
    if pending != {} {
      var x :| x in pending;
      assert x in multiset(pending);
    }
    return pending == {};
  }

  method HasDuplicate(calls: seq<ToolCall>) returns (duplicate: bool)
    ensures duplicate <==> !DistinctIds(calls)
  {
    var seen: set<string> := {};
    for i := 0 to |calls|
      invariant seen == set k | 0 <= k < i :: calls[k].id
      invariant DistinctIds(calls[..i])
    {
      if calls[i].id in seen {
        return true;
      }
      seen := seen + {calls[i].id};
    }
    assert calls[..|calls|] == calls;
    return false;
  }

  lemma RejectedPrefix(ms: seq<Message>, n: nat)
    requires n <= |ms| && Scan(ms[..n]) == Broken
    ensures !Closed(ms)
  {
    assert ms == ms[..n] + ms[n..];
    ScanAppend(Open(multiset{}), ms[..n], ms[n..]);
    BrokenStays(ms[n..]);
  }

  lemma {:induction false} DistinctIdsAsSet(calls: seq<ToolCall>)
    requires DistinctIds(calls)
    ensures multiset(Ids(calls)) == multiset(set c | c in calls :: c.id)
  {
    if calls == [] {
      assert (set c | c in calls :: c.id) == {};
    } else {
      var init, last := calls[..|calls| - 1], calls[|calls| - 1];
      DistinctIdsAsSet(init);
      assert Ids(calls) == Ids(init) + [last.id];
      var before := set c | c in init :: c.id;
      assert calls == init + [last];
      assert (set c | c in calls :: c.id) == before + {last.id};
      assert last.id !in before;
    }
  }

  // ----- context refresh ---------------------------------------------------------------------

  function Drop(ms: seq<Message>, tags: set<Tag>): (r: seq<Message>)
    ensures forall m :: m in r <==> m in ms && m.tag !in tags
  {
    if ms == [] then []
    else if ms[0].tag in tags then Drop(ms[1..], tags)
    else [ms[0]] + Drop(ms[1..], tags)
  }

  /** Index of the first assistant or tool message; notes about the current state go in front of it. */
  function HeadEnd(ms: seq<Message>): (n: nat)
    ensures n <= |ms|
    ensures AllNotes(ms[..n])
    ensures n < |ms| ==> !ms[n].Note?
  {
    if ms == [] then 0
    else if ms[0].Note? then
      assert ms[..1 + HeadEnd(ms[1..])] == [ms[0]] + ms[1..][..HeadEnd(ms[1..])];
      1 + HeadEnd(ms[1..])
    else 0
  }

  function InsertNote(ms: seq<Message>, tag: Tag): seq<Message> {
    ms[..HeadEnd(ms)] + [Note(tag)] + ms[HeadEnd(ms)..]
  }

  function InsertNotes(ms: seq<Message>, tags: seq<Tag>): seq<Message>
    decreases |tags|
  {
    if tags == [] then ms else InsertNotes(InsertNote(ms, tags[0]), tags[1..])
  }

  /** Only free-text messages start with one of the engine prefixes that the refresh strips. */
  predicate ProtocolUntagged(ms: seq<Message>) {
    forall m :: m in ms && !m.Note? ==> m.tag == Untagged
  }

  lemma {:induction false} InsertKeepsPending(p: Pending, ms: seq<Message>, tags: seq<Tag>)
    ensures ScanFrom(p, InsertNotes(ms, tags)) == ScanFrom(p, ms)
    ensures ProtocolUntagged(ms) ==> ProtocolUntagged(InsertNotes(ms, tags))
    ensures DistinctTurns(ms) ==> DistinctTurns(InsertNotes(ms, tags))
    ensures AllNotes(ms) ==> AllNotes(InsertNotes(ms, tags))
    decreases |tags|
  {
    if tags != [] {
      var k := HeadEnd(ms);
      var a, b := ms[..k], ms[k..];
      assert ms == a + b;
      assert InsertNote(ms, tags[0]) == (a + [Note(tags[0])]) + b;
      ScanAppend(p, a, b);
      ScanAppend(p, a + [Note(tags[0])], b);
      ScanAppend(p, a, [Note(tags[0])]);
      ScanOne(ScanFrom(p, a), Note(tags[0]));
      InsertKeepsPending(p, InsertNote(ms, tags[0]), tags[1..]);
      assert ScanFrom(p, InsertNote(ms, tags[0])) == ScanFrom(p, ms) by {
        NotesKeepPending(ScanFrom(p, a), [Note(tags[0])]);
      }
    }
  }

  lemma {:induction false} DropKeepsPending(p: Pending, ms: seq<Message>, tags: set<Tag>)
    requires Untagged !in tags && ProtocolUntagged(ms)
    ensures ScanFrom(p, Drop(ms, tags)) == ScanFrom(p, ms)
    decreases |ms|
  {
    if ms != [] {
      assert ms == [ms[0]] + ms[1..];
      ScanAppend(p, [ms[0]], ms[1..]);
      ScanOne(p, ms[0]);
      assert ms[0] in ms;
      DropKeepsPending(Step(p, ms[0]), ms[1..], tags);
      if ms[0].tag in tags {
        assert Step(p, ms[0]) == p;
      } else {
        ScanAppend(p, [ms[0]], Drop(ms[1..], tags));
      }
    }
  }

  // ----- exactly when the refresh keeps a history closed -------------------------------------

  function ReplyIds(ms: seq<Message>): set<string> {
    set m | m in ms && m.Reply? :: m.id
  }

  function CallIds(ms: seq<Message>): set<string> {
    set m, c | m in ms && m.Assistant? && c in m.calls :: c.id
  }

  /** One assistant turn followed by everything up to the next assistant turn. */
  datatype Turn = Turn(assistant: Message, rest: seq<Message>)

  ghost predicate WellFormedTurn(t: Turn) {
    && t.assistant.Assistant?
    && (forall m :: m in t.rest ==> !m.Assistant?)
    && ScanFrom(Open(multiset{}), [t.assistant] + t.rest) == Open(multiset{})
  }

  function Flatten(turns: seq<Turn>): seq<Message> {
    if turns == [] then [] else [turns[0].assistant] + turns[0].rest + Flatten(turns[1..])
  }

  /** The turn is kept whole or dropped whole (a turn without calls may lose its assistant text). */
  predicate KeptOrDroppedWhole(t: Turn, tags: set<Tag>) {
    !t.assistant.Assistant? || t.assistant.calls == [] ||
    forall m :: m in t.rest && m.Reply? ==> (m.tag in tags <==> t.assistant.tag in tags)
  }

  /** Call ids are not reused by later turns. */
  ghost predicate FreshIds(turns: seq<Turn>) {
    forall i, j :: 0 <= i < j < |turns| ==>
      CallIds([turns[i].assistant]) !! CallIds([turns[j].assistant])
  }

  lemma {:induction false} NoAssistantScan(p: multiset<string>, ms: seq<Message>)
    requires forall m :: m in ms ==> !m.Assistant?
    ensures ScanFrom(Open(p), ms) == if AnsweredSince(ms) <= p then Open(p - AnsweredSince(ms)) else Broken
  {
    if ms != [] {
      NoAssistantScan(p, ms[..|ms| - 1]);
      assert ms[|ms| - 1] in ms;
    }
  }

  lemma {:induction false} AnsweredAreReplies(ms: seq<Message>)
    requires forall m :: m in ms ==> !m.Assistant?
    ensures forall x :: x in AnsweredSince(ms) <==> x in ReplyIds(ms)
  {
    if ms != [] {
      var init, m := ms[..|ms| - 1], ms[|ms| - 1];
      AnsweredAreReplies(init);
      assert ms == init + [m];
      assert m in ms;
      assert ReplyIds(ms) == ReplyIds(init) + (if m.Reply? then {m.id} else {});
    }
  }

  lemma {:induction false} AnsweredAfterDrop(ms: seq<Message>, tags: set<Tag>)
    requires forall m :: m in ms ==> !m.Assistant?
    ensures AnsweredSince(Drop(ms, tags)) <= AnsweredSince(ms)
    ensures (forall m :: m in ms && m.Reply? ==> m.tag in tags) <==> AnsweredSince(Drop(ms, tags)) == multiset{}
    ensures (forall m :: m in ms && m.Reply? ==> m.tag !in tags) <==> AnsweredSince(Drop(ms, tags)) == AnsweredSince(ms)
  {
    if ms != [] {
      var init, m := ms[..|ms| - 1], ms[|ms| - 1];
      assert ms == init + [m];
      assert m in ms;
      AnsweredAfterDrop(init, tags);
      DropAppend(init, [m], tags);
      var dropped := AnsweredSince(Drop(init, tags));
      if m.tag in tags {
        assert Drop(ms, tags) == Drop(init, tags) + [] == Drop(init, tags);
        if m.Reply? {
          SmallerStays(dropped, AnsweredSince(init), m.id);
        }
      } else {
        assert Drop([m], tags) == [m];
        assert (Drop(init, tags) + [m])[..|Drop(init, tags)|] == Drop(init, tags);
        if m.Reply? {
          SameMore(dropped, AnsweredSince(init), m.id);
          assert AnsweredSince(Drop(ms, tags)) == dropped + multiset{m.id};
        }
      }
    }
  }

  lemma SmallerStays(a: multiset<string>, b: multiset<string>, id: string)
    requires a <= b
    ensures a <= b + multiset{id} && a != b + multiset{id}
  {
    assert (b + multiset{id})[id] > a[id];
  }

  lemma SameMore(a: multiset<string>, b: multiset<string>, id: string)
    requires a <= b
    ensures a + multiset{id} <= b + multiset{id} && a + multiset{id} != multiset{}
    ensures a + multiset{id} == b + multiset{id} <==> a == b
  {
    assert id in a + multiset{id};
    if a + multiset{id} == b + multiset{id} {
      assert a == (a + multiset{id}) - multiset{id};
      assert b == (b + multiset{id}) - multiset{id};
    }
  }

  lemma {:induction false} DropAppend(a: seq<Message>, b: seq<Message>, tags: set<Tag>)
    ensures Drop(a + b, tags) == Drop(a, tags) + Drop(b, tags)
  {
    if a == [] {
      assert a + b == b;
    } else {
      assert (a + b)[1..] == a[1..] + b;
      DropAppend(a[1..], b, tags);
    }
  }

  lemma IdsAreCallIds(a: Message)
    requires a.Assistant?
    ensures forall x :: x in multiset(Ids(a.calls)) <==> x in CallIds([a])
  {
    assert a in [a];
    forall x | x in CallIds([a]) ensures x in multiset(Ids(a.calls)) {
      var m, c :| m in [a] && m.Assistant? && c in m.calls && c.id == x;
      var i :| 0 <= i < |a.calls| && a.calls[i] == c;
      assert Ids(a.calls)[i] == x;
    }
    forall x | x in multiset(Ids(a.calls)) ensures x in CallIds([a]) {
      assert x in Ids(a.calls);
      var i :| 0 <= i < |a.calls| && Ids(a.calls)[i] == x;
      assert a.calls[i] in a.calls;
    }
  }

  lemma TurnShape(t: Turn)
    requires WellFormedTurn(t)
    ensures AnsweredSince(t.rest) == multiset(Ids(t.assistant.calls))
    ensures ReplyIds(t.rest) == CallIds([t.assistant])
  {
    var ids := multiset(Ids(t.assistant.calls));
    ScanAppend(Open(multiset{}), [t.assistant], t.rest);
    ScanOne(Open(multiset{}), t.assistant);
    NoAssistantScan(ids, t.rest);
    NothingLeft(AnsweredSince(t.rest), ids);
    AnsweredAreReplies(t.rest);
    IdsAreCallIds(t.assistant);
  }

  /** A single turn: closed after the filter exactly when kept whole or dropped whole. Otherwise the scan is
      either broken or left waiting only for ids of this turn. */
  lemma TurnAfterDrop(t: Turn, tags: set<Tag>)
    requires WellFormedTurn(t)
    ensures var r := ScanFrom(Open(multiset{}), Drop([t.assistant] + t.rest, tags));
            && (KeptOrDroppedWhole(t, tags) <==> r == Open(multiset{}))
            && (r.Open? ==> forall x :: x in r.ids ==> x in CallIds([t.assistant]))
  {
    var a, rest := t.assistant, t.rest;
    var ids, kept := multiset(Ids(a.calls)), Drop(rest, tags);
    TurnShape(t);
    AnsweredAfterDrop(rest, tags);
    DropAppend([a], rest, tags);
    SomeReply(t);
    if a.tag in tags {
      assert Drop([a], tags) == [];
      assert Drop([a] + rest, tags) == kept;
      NoAssistantScan(multiset{}, kept);
    } else {
      assert Drop([a], tags) == [a];
      ScanAppend(Open(multiset{}), [a], kept);
      ScanOne(Open(multiset{}), a);
      NoAssistantScan(ids, kept);
      NothingLeft(AnsweredSince(kept), ids);
      IdsAreCallIds(a);
    }
  }

  lemma SomeReply(t: Turn)
    requires WellFormedTurn(t)
    ensures t.assistant.calls != [] <==> exists m :: m in t.rest && m.Reply?
    ensures t.assistant.calls == [] <==> AnsweredSince(t.rest) == multiset{}
  {
    TurnShape(t);
    var a := t.assistant;
    assert a in [a];
    if a.calls != [] {
      assert a.calls[0] in a.calls && a.calls[0].id in ReplyIds(t.rest);
      IdsAreCallIds(a);
    } else {
      assert Ids(a.calls) == [];
      RepliesById(t.rest);
    }
  }

  lemma RepliesById(ms: seq<Message>)
    ensures ReplyIds(ms) != {} <==> exists m :: m in ms && m.Reply?
  {
    if m :| m in ms && m.Reply? {
      assert m.id in ReplyIds(ms);
    }
  }

  /** Once a result is missing, later turns with fresh ids cannot supply it. */
  lemma {:induction false} MissingStaysMissing(p: multiset<string>, ms: seq<Message>)
    requires p != multiset{}
    requires forall x :: x in p ==> x !in ReplyIds(ms)
    ensures ScanFrom(Open(p), ms) != Open(multiset{})
  {
    if ms != [] {
      assert ms == [ms[0]] + ms[1..];
      ScanAppend(Open(p), [ms[0]], ms[1..]);
      ScanOne(Open(p), ms[0]);
      if ms[0].Note? {
        MissingStaysMissing(p, ms[1..]);
      } else {
        if ms[0].Reply? {
          assert ms[0] in ms;
          assert ms[0].id in ReplyIds(ms);
        }
        BrokenStays(ms[1..]);
      }
    }
  }

  lemma ReplyIdsConcat(a: seq<Message>, b: seq<Message>)
    ensures ReplyIds(a + b) == ReplyIds(a) + ReplyIds(b)
  {
    assert forall m :: m in a + b <==> m in a || m in b;
  }

  lemma {:induction false} FlattenReplies(turns: seq<Turn>)
    requires forall t :: t in turns ==> WellFormedTurn(t)
    ensures forall x :: x in ReplyIds(Flatten(turns)) ==> exists t :: t in turns && x in CallIds([t.assistant])
  {
    if turns != [] {
      var t := turns[0];
      FlattenReplies(turns[1..]);
      assert t in turns;
      TurnShape(t);
      ReplyIdsConcat([t.assistant] + t.rest, Flatten(turns[1..]));
      ReplyIdsConcat([t.assistant], t.rest);
      assert ReplyIds([t.assistant]) == {};
      assert forall u :: u in turns[1..] ==> u in turns;
    }
  }

  lemma LaterIdsAreFresh(turns: seq<Turn>)
    requires turns != [] && FreshIds(turns)
    requires forall t :: t in turns ==> WellFormedTurn(t)
    ensures ReplyIds(Flatten(turns[1..])) !! CallIds([turns[0].assistant])
  {
    FlattenReplies(turns[1..]);
    forall x | x in ReplyIds(Flatten(turns[1..])) ensures x !in CallIds([turns[0].assistant]) {
      var u :| u in turns[1..] && x in CallIds([u.assistant]);
      var j :| 1 <= j < |turns| && turns[j] == u;
      assert CallIds([turns[0].assistant]) !! CallIds([turns[j].assistant]);
    }
  }

  /** A refresh that keeps every turn whole or drops it whole keeps the history closed, also where ids are used again. */
  lemma {:induction false} WholeTurnsStayClosed(head: seq<Message>, turns: seq<Turn>, tags: set<Tag>)
    requires AllNotes(head)
    requires forall t :: t in turns ==> WellFormedTurn(t) && KeptOrDroppedWhole(t, tags)
    ensures Closed(Drop(head + Flatten(turns), tags))
    decreases |turns|
  {
    hide KeptOrDroppedWhole, WellFormedTurn;
    var start := Open(multiset{});
    DropAppend(head, Flatten(turns), tags);
    assert AllNotes(Drop(head, tags));
    ScanAppend(start, Drop(head, tags), Drop(Flatten(turns), tags));
    NotesKeepPending(start, Drop(head, tags));
    if turns == [] {
      assert Drop(Flatten(turns), tags) == [];
    } else {
      var t, later := turns[0], turns[1..];
      assert turns == [t] + later && t in turns;
      DropAppend([t.assistant] + t.rest, Flatten(later), tags);
      ScanAppend(start, Drop([t.assistant] + t.rest, tags), Drop(Flatten(later), tags));
      TurnAfterDrop(t, tags);
      WholeTurnsStayClosed([], later, tags);
      assert [] + Flatten(later) == Flatten(later);
    }
  }

  /** What a cut turn has left open, the later turns do not close. */
  lemma CutTurnStaysOpen(turns: seq<Turn>, tags: set<Tag>)
    requires turns != [] && FreshIds(turns)
    requires forall t :: t in turns ==> WellFormedTurn(t)
    requires !KeptOrDroppedWhole(turns[0], tags)
    ensures var mid := ScanFrom(Open(multiset{}), Drop([turns[0].assistant] + turns[0].rest, tags));
            ScanFrom(mid, Drop(Flatten(turns[1..]), tags)) != Open(multiset{})
  {
    var t, later := turns[0], Drop(Flatten(turns[1..]), tags);
    TurnAfterDrop(t, tags);
    var mid := ScanFrom(Open(multiset{}), Drop([t.assistant] + t.rest, tags));
    hide KeptOrDroppedWhole, WellFormedTurn, ScanFrom;
    if mid.Open? {
      LaterIdsAreFresh(turns);
      assert ReplyIds(later) <= ReplyIds(Flatten(turns[1..]));
      MissingStaysMissing(mid.ids, later);
    } else {
      BrokenStays(later);
    }
  }

  /** The context refresh strips messages by content prefix whatever their role. If no id is used by two turns, it keeps
      a closed history closed exactly when no turn is cut in two. */
  lemma {:induction false} RefreshClosedIff(head: seq<Message>, turns: seq<Turn>, tags: set<Tag>)
    requires AllNotes(head)
    requires forall t :: t in turns ==> WellFormedTurn(t)
    requires FreshIds(turns)
    ensures Closed(Drop(head + Flatten(turns), tags)) <==> forall t :: t in turns ==> KeptOrDroppedWhole(t, tags)
    decreases |turns|
  {
    hide KeptOrDroppedWhole, WellFormedTurn;
    var start := Open(multiset{});
    DropAppend(head, Flatten(turns), tags);
    assert AllNotes(Drop(head, tags));
    ScanAppend(start, Drop(head, tags), Drop(Flatten(turns), tags));
    NotesKeepPending(start, Drop(head, tags));
    if turns != [] {
      var t, later := turns[0], turns[1..];
      assert turns == [t] + later;
      DropAppend([t.assistant] + t.rest, Flatten(later), tags);
      var mid := ScanFrom(start, Drop([t.assistant] + t.rest, tags));
      ScanAppend(start, Drop([t.assistant] + t.rest, tags), Drop(Flatten(later), tags));
      TurnAfterDrop(t, tags);
      assert t in turns;
      if mid == start {
        RefreshClosedIff([], later, tags);
        assert [] + Flatten(later) == Flatten(later);
      } else {
        CutTurnStaysOpen(turns, tags);
      }
    } else {
      assert Drop(Flatten(turns), tags) == [];
    }
  }

  /** A tool that prints text starting with the working-memory prefix makes the next refresh drop its result
      and leaves the call unanswered. */
  lemma RefreshCanOrphanACall()
    ensures var call := ToolCall("c1", "run_command", "{}", "");
            var turn := [Assistant(Untagged, [call]), Reply(WorkingMemory, "c1")];
            Closed(turn) && Drop(turn, {WorkingMemory}) == turn[..1] && !Closed(turn[..1])
  {
    var call := ToolCall("c1", "run_command", "{}", "");
    var a, r := Assistant(Untagged, [call]), Reply(WorkingMemory, "c1");
    assert Ids([call]) == ["c1"];
    ScanOne(Open(multiset{}), a);
    ScanPush([a], r);
    assert [a] + [r] == [a, r] && [a, r][..1] == [a];
    assert [a, r][1..] == [r] && Drop([r], {WorkingMemory}) == [];
    assert "c1" in multiset{"c1"};
  }

  /** With an id used by two turns, two cuts can make up for each other: what is left of one turn is answered by what is
      left of the other. */
  lemma ReusedIdHealsTwoCuts(call: ToolCall)
    ensures var first := Turn(Assistant(Untagged, [call]), [Reply(WorkingMemory, call.id)]);
            var second := Turn(Assistant(WorkingMemory, [call]), [Reply(Untagged, call.id)]);
            && !KeptOrDroppedWhole(first, {WorkingMemory}) && !KeptOrDroppedWhole(second, {WorkingMemory})
            && Closed(Flatten([first, second])) && Closed(Drop(Flatten([first, second]), {WorkingMemory}))
  {
    hide Flatten, Drop, ScanFrom;
    var a, r := Assistant(Untagged, [call]), Reply(WorkingMemory, call.id);
    var a', r' := Assistant(WorkingMemory, [call]), Reply(Untagged, call.id);
    var first, second := Turn(a, [r]), Turn(a', [r']);
    assert first.rest[0] == r && second.rest[0] == r';
    FlattenTwo(first, second);
    assert [a] + [r] == [a, r] && [a'] + [r'] == [a', r'] && [a] + [r'] == [a, r'];
    OneTurnCloses(a, r);
    OneTurnCloses(a', r');
    OneTurnCloses(a, r');
    ScanAppend(Open(multiset{}), [a, r], [a', r']);
    DropOneOfTwo(a, r, {WorkingMemory});
    DropOneOfTwo(a', r', {WorkingMemory});
    DropAppend([a, r], [a', r'], {WorkingMemory});
    assert [a] + [] + ([] + [r']) == [a, r'];
  }

  lemma FlattenTwo(t: Turn, u: Turn)
    ensures Flatten([t, u]) == [t.assistant] + t.rest + ([u.assistant] + u.rest)
  {
    assert [t, u][1..] == [u] && [u][1..] == [];
    assert Flatten([]) == [];
    assert Flatten([u]) == [u.assistant] + u.rest + [];
  }

  lemma DropOneOfTwo(m: Message, n: Message, tags: set<Tag>)
    ensures Drop([m, n], tags) == (if m.tag in tags then [] else [m]) + (if n.tag in tags then [] else [n])
  {
    assert [m, n][1..] == [n] && [n][1..] == [];
    assert Drop([], tags) == [];
  }

  lemma OneTurnCloses(a: Message, r: Message)
    requires a.Assistant? && r.Reply? && |a.calls| == 1 && a.calls[0].id == r.id
    ensures ScanFrom(Open(multiset{}), [a, r]) == Open(multiset{})
  {
    assert Ids(a.calls) == [r.id];
    ScanOne(Open(multiset{}), a);
    ScanPush([a], r);
    assert [a] + [r] == [a, r] && r.id in multiset{r.id};
  }
}
