/** Capture and import together: each message once, with all its parts, whatever order
    the events were stored or sent in. */
module OpencodeReplay {
  import opened Wrappers
  import opened Lex
  import opened Opencode
  import opened OpencodeImport
  import opened Sequences
  import Sorting

  datatype Message = Message(row: MessageRow, parts: seq<PartRow>)

  predicate Hoisted(blobId: string, column: string) {
    column != "" && (blobId == "" || blobId == column)
  }

  ghost predicate GoodParts(m: Message) {
    && (forall i {:trigger m.parts[i]} :: 0 <= i < |m.parts| ==>
          Hoisted(m.parts[i].data.id, m.parts[i].id) && Hoisted(m.parts[i].data.messageID, m.row.id))
    && (forall i, j :: 0 <= i < j < |m.parts| ==> m.parts[i].id != m.parts[j].id)
  }

  ghost predicate GoodMessage(m: Message) {
    && Hoisted(m.row.data.id, m.row.id) && KnownRole(m.row)
    && (if m.row.data.created == 0 then m.row.timeCreated else m.row.data.created) > 0
    && GoodParts(m)
  }

  ghost predicate GoodMessages(ms: seq<Message>) {
    && (forall i {:trigger ms[i]} :: 0 <= i < |ms| ==> GoodMessage(ms[i]))
    && (forall i, j :: 0 <= i < j < |ms| ==> ms[i].row.id != ms[j].row.id)
  }

  function Flatten(chunks: seq<seq<Event>>): seq<Event>
    decreases |chunks|
  {
    if chunks == [] then [] else Flatten(chunks[..|chunks| - 1]) + chunks[|chunks| - 1]
  }

  /** The events of each message. */
  function Captured(ms: seq<Message>, now: int): (r: seq<seq<Event>>)
    ensures |r| == |ms|
    ensures forall i :: 0 <= i < |r| ==> r[i] == EventsOf(ms[i].row, ms[i].parts, now)
  {
    seq(|ms|, i requires 0 <= i < |ms| => EventsOf(ms[i].row, ms[i].parts, now))
  }

  // --- the events that name one message ---

  function For(events: seq<Event>, id: string): seq<Event>
    decreases |events|
  {
    if events == [] then []
    else
      var init, last := For(events[..|events| - 1], id), events[|events| - 1];
      if TargetOf(last) == id then init + [last] else init
  }

  function Gather(events: seq<Event>): seq<Payload>
    decreases |events|
  {
    if events == [] then [] else Gather(events[..|events| - 1]) + PartsFrom(events[|events| - 1])
  }

  function FirstInfo(events: seq<Event>): Option<Info>
    decreases |events|
  {
    if events == [] then None
    else
      var before := FirstInfo(events[..|events| - 1]);
      if before.Some? then before else InfoFrom(events[|events| - 1])
  }

  lemma {:induction false} EntryIsGathered(events: seq<Event>, id: string)
    ensures Entry(events, id) == ImportMessage(FirstInfo(For(events, id)), Gather(For(events, id)))
    decreases |events|
  {
    if events != [] {
      var init, last := events[..|events| - 1], events[|events| - 1];
      EntryIsGathered(init, id);
      if TargetOf(last) == id {
        assert (For(init, id) + [last])[..|For(init, id)|] == For(init, id);
      }
    }
  }

  lemma {:induction false} ForConcat(a: seq<Event>, b: seq<Event>, id: string)
    ensures For(a + b, id) == For(a, id) + For(b, id)
    decreases |b|
  {
    if b == [] {
      assert a + b == a;
    } else {
      ForConcat(a, b[..|b| - 1], id);
      assert (a + b)[..|a + b| - 1] == a + b[..|b| - 1];
    }
  }

  lemma {:induction false} ForNone(events: seq<Event>, id: string)
    requires forall i :: 0 <= i < |events| ==> TargetOf(events[i]) != id
    ensures For(events, id) == []
    decreases |events|
  {
    if events != [] {
      ForNone(events[..|events| - 1], id);
    }
  }

  lemma {:induction false} ForCounts(events: seq<Event>, id: string, e: Event)
    ensures multiset(For(events, id))[e] == if TargetOf(e) == id then multiset(events)[e] else 0
    decreases |events|
  {
    if events != [] {
      ForCounts(events[..|events| - 1], id, e);
      assert events == events[..|events| - 1] + [events[|events| - 1]];
    }
  }

  lemma {:induction false} ForPermuted(a: seq<Event>, b: seq<Event>, id: string)
    requires multiset(a) == multiset(b)
    ensures multiset(For(a, id)) == multiset(For(b, id))
  {
    forall e ensures multiset(For(a, id))[e] == multiset(For(b, id))[e] {
      ForCounts(a, id, e);
      ForCounts(b, id, e);
    }
  }

  lemma {:induction false} ForKeepsOrder(events: seq<Event>, id: string)
    requires Sorting.InOrder(EventBefore, events)
    ensures Sorting.InOrder(EventBefore, For(events, id))
    ensures forall e :: e in For(events, id) ==> e in events
    decreases |events|
  {
    if events != [] {
      var init, last := events[..|events| - 1], events[|events| - 1];
      ForKeepsOrder(init, id);
      var kept := For(init, id);
      forall i | 0 <= i < |kept| ensures !EventBefore(last, kept[i]) {
        assert kept[i] in kept && kept[i] in init;
        var j :| 0 <= j < |init| && init[j] == kept[i];
        assert events[j] == init[j];
      }
    }
  }

  lemma {:induction false} EventOrder()
    ensures Sorting.WeakOrder(EventBefore)
  {
    StrictTotalOrder();
  }

  // --- one message's events ---

  function Calls(m: MessageRow, ranked: seq<PartRow>, parts: seq<PartRow>, now: int): seq<Event>
    decreases |parts|
  {
    if parts == [] then []
    else
      var init, last := Calls(m, ranked, parts[..|parts| - 1], now), parts[|parts| - 1];
      if last.data.kind.Tool? then init + [CallEvent(m, ranked, last, now)] else init
  }

  lemma {:induction false} PartTargets(m: Message, ranked: seq<PartRow>, i: nat, now: int, id: string)
    requires GoodParts(m) && i < |m.parts| && id != ""
    ensures For(PartEvents(m.row, ranked, m.parts[i], now), id) ==
            if m.parts[i].data.kind.Tool? && id == m.row.id then [CallEvent(m.row, ranked, m.parts[i], now)] else []
  {
    var p := m.parts[i];
    var events := PartEvents(m.row, ranked, p, now);
    assert PartPayload(m.row, p).messageID == m.row.id;
    hide PartPayload, PartSeq, Uuid;
    if p.data.kind.Tool? {
      var call := CallEvent(m.row, ranked, p, now);
      var rest := events[1..];
      assert events == [call] + rest;
      ForConcat([call], rest, id);
      ForNone(rest, id);
      ForOne(call, id);
    } else {
      ForNone(events, id);
    }
  }

  lemma {:induction false} MessageTargets(m: Message, ranked: seq<PartRow>, n: nat, now: int, id: string)
    requires GoodParts(m) && n <= |m.parts| && id != ""
    ensures For(AllPartEvents(m.row, ranked, m.parts[..n], now), id) ==
            if id == m.row.id then Calls(m.row, ranked, m.parts[..n], now) else []
  {
    if n > 0 {
      MessageTargets(m, ranked, n - 1, now, id);
      PartTargets(m, ranked, n - 1, now, id);
      PartTaken(m.row, ranked, m.parts, n - 1, now);
      hide PartEvents, AllPartEvents, CallEvent, For;
      assert m.parts[..n][..n - 1] == m.parts[..n - 1];
      ForConcat(AllPartEvents(m.row, ranked, m.parts[..n - 1], now), PartEvents(m.row, ranked, m.parts[n - 1], now), id);
    }
  }

  lemma {:induction false} EnvelopeTarget(m: Message, now: int)
    requires GoodMessage(m)
    ensures TargetOf(EnvelopeEvent(m.row, m.parts, now)) == m.row.id
    ensures EventsOf(m.row, m.parts, now) ==
            AllPartEvents(m.row, Ranked(m.parts), m.parts, now) + [EnvelopeEvent(m.row, m.parts, now)]
  {
  }

  lemma {:induction false} ForLast(events: seq<Event>, e: Event, id: string)
    ensures For(events + [e], id) == if TargetOf(e) == id then For(events, id) + [e] else For(events, id)
  {
    assert (events + [e])[..|events|] == events;
  }

  lemma {:induction false} EventsTargets(m: Message, now: int, id: string)
    requires GoodMessage(m) && id != ""
    ensures For(EventsOf(m.row, m.parts, now), id) ==
            if id == m.row.id then Calls(m.row, Ranked(m.parts), m.parts, now) + [EnvelopeEvent(m.row, m.parts, now)] else []
  {
    TakeAll(m.parts);
    MessageTargets(m, Ranked(m.parts), |m.parts|, now, id);
    EnvelopeTarget(m, now);
    ForLast(AllPartEvents(m.row, Ranked(m.parts), m.parts, now), EnvelopeEvent(m.row, m.parts, now), id);
  }

  lemma {:induction false} ForOne(e: Event, id: string)
    ensures For([e], id) == if TargetOf(e) == id then [e] else []
  {
    assert [e][..0] == [];
  }

  lemma {:induction false} ForFlatten(chunks: seq<seq<Event>>, n: nat, k: nat, id: string)
    requires n <= |chunks| && k < |chunks|
    requires forall i :: 0 <= i < |chunks| && i != k ==> For(chunks[i], id) == []
    ensures For(Flatten(chunks[..n]), id) == if k < n then For(chunks[k], id) else []
  {
    if n > 0 {
      ForFlatten(chunks, n - 1, k, id);
      TakeTake(chunks, n - 1);
      ForConcat(Flatten(chunks[..n - 1]), chunks[n - 1], id);
      JoinNone(For(Flatten(chunks[..n - 1]), id), For(chunks[n - 1], id));
    }
  }

  /** Among all events, those that name a message are its own. */
  lemma {:induction false} OwnEvents(ms: seq<Message>, now: int, k: nat)
    requires GoodMessages(ms) && k < |ms|
    ensures For(Flatten(Captured(ms, now)), ms[k].row.id) == For(EventsOf(ms[k].row, ms[k].parts, now), ms[k].row.id)
  {
    var chunks, id := Captured(ms, now), ms[k].row.id;
    assert GoodMessage(ms[k]);
    forall i | 0 <= i < |chunks| && i != k ensures For(chunks[i], id) == [] {
      assert GoodMessage(ms[i]) && ms[i].row.id != id;
      EventsTargets(ms[i], now, id);
    }
    ForFlatten(chunks, |chunks|, k, id);
    TakeAll(chunks);
  }

  // --- in order ---

  lemma {:induction false} RankIsPosition(ranked: seq<PartRow>, n: nat, i: nat)
    requires i < n <= |ranked|
    requires forall i, j :: 0 <= i < j < |ranked| ==> ranked[i].id != ranked[j].id
    ensures Rank(ranked[..n], ranked[i].id) == i
  {
    if i < n - 1 {
      RankIsPosition(ranked, n - 1, i);
      TakeTake(ranked, n - 1);
    }
  }

  ghost predicate SeqsWithin(events: seq<Event>, base: int, top: int) {
    && (forall i :: 0 <= i < |events| ==> base < events[i].seqNo <= top)
    && (forall i, j :: 0 <= i < j < |events| ==> events[i].seqNo < events[j].seqNo)
  }

  lemma {:induction false} CallsInOrder(m: MessageRow, ranked: seq<PartRow>, n: nat, now: int)
    requires n <= |ranked|
    requires forall i, j :: 0 <= i < j < |ranked| ==> ranked[i].id != ranked[j].id
    ensures SeqsWithin(Calls(m, ranked, ranked[..n], now), BaseTime(m, now), BaseTime(m, now) + n)
  {
    if n > 0 {
      CallsInOrder(m, ranked, n - 1, now);
      TakeTake(ranked, n - 1);
      RankIsPosition(ranked, |ranked|, n - 1);
      TakeAll(ranked);
    }
  }

  /** The envelope, then the calls in id order: the events of a message in the order
      the import reads them. */
  function InReadingOrder(m: Message, now: int): seq<Event> {
    var ranked := Ranked(m.parts);
    [EnvelopeEvent(m.row, m.parts, now)] + Calls(m.row, ranked, ranked, now)
  }

  lemma {:induction false} RankedIds(m: Message)
    requires GoodParts(m)
    ensures Sorting.Increasing(IdBefore, Ranked(m.parts))
    ensures forall i, j :: 0 <= i < j < |Ranked(m.parts)| ==> Ranked(m.parts)[i].id != Ranked(m.parts)[j].id
  {
    StrictTotalOrder();
    assert Sorting.StrictOrder(IdBefore);
    forall i | 0 <= i < |m.parts| ensures Sorting.Comparable(IdBefore, m.parts[i], m.parts[..i]) {
      forall y | y in m.parts[..i] ensures IdBefore(m.parts[i], y) || IdBefore(y, m.parts[i]) {
        var j :| 0 <= j < i && m.parts[j] == y;
        LessTotal(m.parts[i].id, y.id);
      }
    }
    Sorting.SortIsIncreasing(IdBefore, m.parts);
    var ranked := Ranked(m.parts);
    forall i, j | 0 <= i < j < |ranked| ensures ranked[i].id != ranked[j].id {
      assert IdBefore(ranked[i], ranked[j]);
      LessIrreflexive(ranked[i].id);
    }
  }

  lemma {:induction false} ReadingOrderIncreases(m: Message, now: int)
    requires GoodParts(m)
    ensures Sorting.Increasing(EventBefore, InReadingOrder(m, now))
  {
    RankedIds(m);
    var ranked := Ranked(m.parts);
    CallsInOrder(m.row, ranked, |ranked|, now);
    TakeAll(ranked);
  }

  lemma {:induction false} CallsConcat(m: MessageRow, ranked: seq<PartRow>, a: seq<PartRow>, b: seq<PartRow>, now: int)
    ensures Calls(m, ranked, a + b, now) == Calls(m, ranked, a, now) + Calls(m, ranked, b, now)
    decreases |b|
  {
    if b == [] {
      JoinNone(a, b);
    } else {
      CallsConcat(m, ranked, a, b[..|b| - 1], now);
      assert (a + b)[..|a + b| - 1] == a + b[..|b| - 1];
    }
  }

  lemma {:induction false} RemoveOne<T>(b: seq<T>, x: T) returns (j: nat)
    requires x in multiset(b)
    ensures j < |b| && b[j] == x && multiset(b[..j] + b[j + 1..]) == multiset(b) - multiset{x}
    ensures b == b[..j] + [x] + b[j + 1..]
  {
    assert x in b;
    j :| 0 <= j < |b| && b[j] == x;
    assert b == b[..j] + [x] + b[j + 1..];
  }

  lemma {:induction false} CallsPermuted(m: MessageRow, ranked: seq<PartRow>, a: seq<PartRow>, b: seq<PartRow>, now: int)
    requires multiset(a) == multiset(b)
    ensures multiset(Calls(m, ranked, a, now)) == multiset(Calls(m, ranked, b, now))
    decreases |a|
  {
    Sorting.SameMembers(a, b);
    if a != [] {
      var init, x := a[..|a| - 1], a[|a| - 1];
      assert a == init + [x];
      var j := RemoveOne(b, x);
      var rest := b[..j] + b[j + 1..];
      CallsPermuted(m, ranked, init, rest, now);
      CallsConcat(m, ranked, b[..j], b[j + 1..], now);
      CallsConcat(m, ranked, b[..j] + [x], b[j + 1..], now);
      CallsConcat(m, ranked, b[..j], [x], now);
      CallsConcat(m, ranked, init, [x], now);
    }
  }

  // --- the transcript ---

  lemma {:induction false} GatherLast(events: seq<Event>, e: Event)
    ensures Gather(events + [e]) == Gather(events) + PartsFrom(e)
    ensures FirstInfo(events + [e]) == if FirstInfo(events).Some? then FirstInfo(events) else InfoFrom(e)
  {
    assert (events + [e])[..|events|] == events;
  }

  lemma {:induction false} WrappedLast(parts: seq<PartData>, part: PartData)
    ensures Wrapped(parts + [part]) == Wrapped(parts) + [OnePart(part)]
  {
  }

  lemma {:induction false} GatherCalls(m: MessageRow, ranked: seq<PartRow>, parts: seq<PartRow>, now: int)
    ensures Gather(Calls(m, ranked, parts, now)) == Wrapped(Tools(m, parts))
    ensures FirstInfo(Calls(m, ranked, parts, now)) == None
    decreases |parts|
  {
    if parts != [] {
      var init, last := parts[..|parts| - 1], parts[|parts| - 1];
      GatherCalls(m, ranked, init, now);
      if last.data.kind.Tool? {
        GatherLast(Calls(m, ranked, init, now), CallEvent(m, ranked, last, now));
        CallHolds(m, ranked, last, now);
        WrappedLast(Tools(m, init), PartPayload(m, last));
      } else {
        JoinNone(Tools(m, init), []);
      }
    }
  }

  lemma {:induction false} CallHolds(m: MessageRow, ranked: seq<PartRow>, p: PartRow, now: int)
    ensures PartsFrom(CallEvent(m, ranked, p, now)) == [OnePart(PartPayload(m, p))] && InfoFrom(CallEvent(m, ranked, p, now)) == None
  {
  }

  lemma {:induction false} GatherConcat(a: seq<Event>, b: seq<Event>)
    ensures Gather(a + b) == Gather(a) + Gather(b)
    ensures FirstInfo(a + b) == if FirstInfo(a).Some? then FirstInfo(a) else FirstInfo(b)
    decreases |b|
  {
    if b == [] {
      JoinNone(a, b);
      JoinNone(Gather(a), []);
    } else {
      var init, last := b[..|b| - 1], b[|b| - 1];
      GatherConcat(a, init);
      SplitLast(a, b);
      GatherLast(a + init, last);
      GatherLast(init, last);
      Regroup(Gather(a), Gather(init), PartsFrom(last));
    }
  }

  /** A message as the import file should hold it: its info, its non-tool parts in the
      order given, then its tool parts in id order. */
  function Imported(m: Message): ImportMessage {
    ImportMessage(Some(MessagePayload(m.row)), Wrapped(NonTools(m.row, m.parts)) + Wrapped(Tools(m.row, Ranked(m.parts))))
  }

  lemma {:induction false} ReadingGathers(m: Message, now: int)
    requires GoodMessage(m)
    ensures ImportMessage(FirstInfo(InReadingOrder(m, now)), Gather(InReadingOrder(m, now))) == Imported(m)
  {
    var env, ranked := EnvelopeEvent(m.row, m.parts, now), Ranked(m.parts);
    GatherConcat([env], Calls(m.row, ranked, ranked, now));
    GatherCalls(m.row, ranked, ranked, now);
    GatherOne(env);
    EnvelopeHolds(m, now);
  }

  lemma {:induction false} GatherOne(e: Event)
    ensures Gather([e]) == PartsFrom(e) && FirstInfo([e]) == InfoFrom(e)
  {
    assert [e][..0] == [];
    JoinNone([], PartsFrom(e));
  }

  lemma {:induction false} EnvelopeHolds(m: Message, now: int)
    requires GoodMessage(m)
    ensures PartsFrom(EnvelopeEvent(m.row, m.parts, now)) == Wrapped(NonTools(m.row, m.parts))
    ensures InfoFrom(EnvelopeEvent(m.row, m.parts, now)) == Some(MessagePayload(m.row))
  {
  }

  /** The events of a message, whatever their order, are read in its reading order. */
  lemma {:induction false} ReadInOrder(m: Message, now: int, found: seq<Event>)
    requires GoodMessage(m) && Sorting.InOrder(EventBefore, found)
    requires multiset(found) == multiset(For(EventsOf(m.row, m.parts, now), m.row.id))
    ensures found == InReadingOrder(m, now)
  {
    var env, ranked := EnvelopeEvent(m.row, m.parts, now), Ranked(m.parts);
    EventsTargets(m, now, m.row.id);
    CallsPermuted(m.row, ranked, m.parts, ranked, now);
    EventOrder();
    ReadingOrderIncreases(m, now);
    SwapEnds(Calls(m.row, ranked, m.parts, now), [env]);
    Sorting.IncreasingIsUnique(EventBefore, InReadingOrder(m, now), found);
  }

  lemma {:induction false} SwapEnds(a: seq<Event>, b: seq<Event>)
    ensures multiset(a + b) == multiset(b) + multiset(a)
  {
  }

  ghost predicate SilentEvents(extra: seq<Event>) {
    forall i :: 0 <= i < |extra| ==> TargetOf(extra[i]) == ""
  }

  /** The given events, in any order, are those of the messages and others that name
      no message (a session start, for one). */
  ghost predicate Shuffled(ms: seq<Message>, now: int, extra: seq<Event>, events: seq<Event>) {
    multiset(events) == multiset(Flatten(Captured(ms, now)) + extra)
  }

  /** The sorted events that name a message are it in its reading order. */
  lemma {:induction false} ReadOf(ms: seq<Message>, now: int, extra: seq<Event>, events: seq<Event>, k: nat)
    requires GoodMessages(ms) && k < |ms| && SilentEvents(extra) && Shuffled(ms, now, extra, events)
    ensures For(Sorting.Sort(EventBefore, events), ms[k].row.id) == InReadingOrder(ms[k], now)
  {
    var sorted, m := Sorting.Sort(EventBefore, events), ms[k];
    var id, all := m.row.id, Flatten(Captured(ms, now));
    assert GoodMessage(m);
    EventOrder();
    Sorting.SortIsInOrder(EventBefore, events);
    ForKeepsOrder(sorted, id);
    ForPermuted(sorted, all + extra, id);
    ForConcat(all, extra, id);
    ForNone(extra, id);
    JoinNone(For(all, id), []);
    OwnEvents(ms, now, k);
    ReadInOrder(m, now, For(sorted, id));
  }

  lemma {:induction false} EntryOf(ms: seq<Message>, now: int, extra: seq<Event>, events: seq<Event>, k: nat)
    requires GoodMessages(ms) && k < |ms| && SilentEvents(extra) && Shuffled(ms, now, extra, events)
    ensures Entry(Sorting.Sort(EventBefore, events), ms[k].row.id) == Imported(ms[k])
  {
    assert GoodMessage(ms[k]);
    ReadOf(ms, now, extra, events, k);
    EntryIsGathered(Sorting.Sort(EventBefore, events), ms[k].row.id);
    ReadingGathers(ms[k], now);
  }

  ghost predicate AllDiffer(ids: seq<string>) {
    forall i, j :: 0 <= i < j < |ids| ==> ids[i] != ids[j]
  }

  lemma {:induction false} DistinctCount(ids: seq<string>)
    requires AllDiffer(ids)
    ensures |Elements(ids)| == |ids|
  {
    if ids != [] {
      DistinctCount(ids[1..]);
      assert ids[0] !in ids[1..];
      assert Elements(ids) == {ids[0]} + Elements(ids[1..]);
    }
  }

  function MessageIds(ms: seq<Message>): (r: seq<string>)
    ensures |r| == |ms| && forall i :: 0 <= i < |r| ==> r[i] == ms[i].row.id
  {
    seq(|ms|, i requires 0 <= i < |ms| => ms[i].row.id)
  }

  lemma {:induction false} InChunks(chunks: seq<seq<Event>>, n: nat, e: Event)
    requires n <= |chunks| && e in Flatten(chunks[..n])
    ensures exists k :: 0 <= k < n && e in chunks[k]
  {
    if n > 0 {
      TakeTake(chunks, n - 1);
      if e in Flatten(chunks[..n - 1]) {
        InChunks(chunks, n - 1, e);
      } else {
        assert e in chunks[n - 1];
      }
    }
  }

  lemma {:induction false} OnlyMessagesNamed(m: Message, now: int, e: Event)
    requires GoodMessage(m) && e in EventsOf(m.row, m.parts, now) && TargetOf(e) != ""
    ensures TargetOf(e) == m.row.id
  {
    var own := EventsOf(m.row, m.parts, now);
    ForCounts(own, TargetOf(e), e);
    EventsTargets(m, now, TargetOf(e));
    assert e in multiset(own);
  }

  lemma {:induction false} NamedIds(ms: seq<Message>, now: int, extra: seq<Event>, events: seq<Event>, id: string)
    requires GoodMessages(ms) && SilentEvents(extra) && Shuffled(ms, now, extra, events)
    ensures id in Ids(events) <==> id in MessageIds(ms)
  {
    var all := Flatten(Captured(ms, now));
    IdsDiffer(events);
    Sorting.SameMembers(events, all + extra);
    if id in Ids(events) {
      var i :| 0 <= i < |events| && TargetOf(events[i]) == id;
      assert events[i] in all + extra && events[i] in all;
      TakeAll(Captured(ms, now));
      InChunks(Captured(ms, now), |ms|, events[i]);
      var k :| 0 <= k < |ms| && events[i] in Captured(ms, now)[k];
      assert GoodMessage(ms[k]);
      OnlyMessagesNamed(ms[k], now, events[i]);
      assert MessageIds(ms)[k] == id;
    }
    if k: nat :| k < |ms| && MessageIds(ms)[k] == id {
      EntryNamed(ms, now, extra, events, k);
    }
  }

  lemma {:induction false} EntryNamed(ms: seq<Message>, now: int, extra: seq<Event>, events: seq<Event>, k: nat)
    requires GoodMessages(ms) && k < |ms| && Shuffled(ms, now, extra, events)
    ensures ms[k].row.id in Ids(events)
  {
    var m, all := ms[k], Flatten(Captured(ms, now));
    var env := EnvelopeEvent(m.row, m.parts, now);
    assert GoodMessage(m);
    OwnEvents(ms, now, k);
    EventsTargets(m, now, m.row.id);
    EnvelopeTarget(m, now);
    ForCounts(all, m.row.id, env);
    var own := For(all, m.row.id);
    assert own[|own| - 1] == env && env in multiset(own);
    assert env in multiset(all) && env in multiset(all + extra) && env in multiset(events);
    IdsDiffer(events);
    var i :| 0 <= i < |events| && events[i] == env;
  }

  lemma {:induction false} NothingPruned(messages: seq<ImportMessage>)
    requires forall i :: 0 <= i < |messages| ==> messages[i].info.Some?
    ensures Pruned(messages) == messages
    decreases |messages|
  {
    if messages != [] {
      NothingPruned(messages[..|messages| - 1]);
    }
  }

  lemma {:induction false} BuiltAt(ms: seq<Message>, now: int, extra: seq<Event>, events: seq<Event>, i: nat) returns (k: nat)
    requires GoodMessages(ms) && SilentEvents(extra) && Shuffled(ms, now, extra, events)
    requires i < |Ids(Sorting.Sort(EventBefore, events))|
    ensures k < |ms| && Ids(Sorting.Sort(EventBefore, events))[i] == ms[k].row.id
    ensures Built(Sorting.Sort(EventBefore, events))[i] == Imported(ms[k])
  {
    var sorted := Sorting.Sort(EventBefore, events);
    assert Ids(sorted)[i] in Ids(sorted);
    NamedIds(ms, now, extra, sorted, Ids(sorted)[i]);
    k :| 0 <= k < |ms| && MessageIds(ms)[k] == Ids(sorted)[i];
    EntryOf(ms, now, extra, events, k);
  }

  lemma {:induction false} AsManyMessages(ms: seq<Message>, now: int, extra: seq<Event>, events: seq<Event>)
    requires GoodMessages(ms) && SilentEvents(extra) && Shuffled(ms, now, extra, events)
    ensures |Ids(events)| == |ms|
  {
    var ids := Ids(events);
    IdsDiffer(events);
    DistinctCount(ids);
    DistinctCount(MessageIds(ms));
    forall id ensures id in Elements(ids) <==> id in Elements(MessageIds(ms)) {
      NamedIds(ms, now, extra, events, id);
    }
    assert Elements(ids) == Elements(MessageIds(ms));
  }

  lemma {:induction false} MessageBuilt(ms: seq<Message>, now: int, extra: seq<Event>, events: seq<Event>, k: nat)
    requires GoodMessages(ms) && SilentEvents(extra) && Shuffled(ms, now, extra, events) && k < |ms|
    ensures Imported(ms[k]) in Built(Sorting.Sort(EventBefore, events))
  {
    var sorted := Sorting.Sort(EventBefore, events);
    EntryNamed(ms, now, extra, sorted, k);
    EntryOf(ms, now, extra, events, k);
    var ids := Ids(sorted);
    var i :| 0 <= i < |ids| && ids[i] == ms[k].row.id;
    assert Built(sorted)[i] == Imported(ms[k]);
  }

  ghost predicate IsOneOf(ms: seq<Message>, x: ImportMessage) {
    exists k :: 0 <= k < |ms| && x == Imported(ms[k])
  }

  /** The transcript holds each message once and nothing else. */
  ghost predicate HoldsEach(ms: seq<Message>, out: seq<ImportMessage>) {
    && |out| == |ms|
    && (forall k {:trigger ms[k]} :: 0 <= k < |ms| ==> Imported(ms[k]) in out)
    && (forall i {:trigger out[i]} :: 0 <= i < |out| ==> IsOneOf(ms, out[i]))
  }

  lemma {:induction false} BuiltHoldsEach(ms: seq<Message>, now: int, extra: seq<Event>, events: seq<Event>)
    requires GoodMessages(ms) && SilentEvents(extra) && Shuffled(ms, now, extra, events)
    ensures HoldsEach(ms, Built(Sorting.Sort(EventBefore, events)))
  {
    var built := Built(Sorting.Sort(EventBefore, events));
    AsManyMessages(ms, now, extra, Sorting.Sort(EventBefore, events));
    forall i | 0 <= i < |built| ensures IsOneOf(ms, built[i]) {
      var k := BuiltAt(ms, now, extra, events, i);
    }
    forall k | 0 <= k < |ms| ensures Imported(ms[k]) in built {
      MessageBuilt(ms, now, extra, events, k);
    }
  }

  // --- the order of the messages ---

  function CreatedAt(m: MessageRow): int {
    if m.data.created == 0 then m.timeCreated else m.data.created
  }

  /** By creation time, then by the uuid the message is captured under. */
  predicate CreatedBefore(a: Message, b: Message) {
    if CreatedAt(a.row) != CreatedAt(b.row) then CreatedAt(a.row) < CreatedAt(b.row)
    else Less(Uuid(a.row.session, a.row.id), Uuid(b.row.session, b.row.id))
  }

  lemma {:induction false} EnvelopesOrder(a: Message, b: Message, now: int)
    requires GoodMessage(a) && GoodMessage(b)
    ensures EventBefore(EnvelopeEvent(a.row, a.parts, now), EnvelopeEvent(b.row, b.parts, now)) <==> CreatedBefore(a, b)
  {
  }

  /** The position of the first event that names a message. */
  function FirstAt(events: seq<Event>, id: string): (p: nat)
    ensures p <= |events|
    ensures p < |events| ==> TargetOf(events[p]) == id
    decreases |events|
  {
    if events == [] then 0
    else
      var p := FirstAt(events[..|events| - 1], id);
      if p == |events| - 1 && TargetOf(events[p]) != id then |events| else p
  }

  lemma {:induction false} FirstIsFirst(events: seq<Event>, id: string)
    ensures FirstAt(events, id) == |events| ==> For(events, id) == []
    ensures FirstAt(events, id) < |events| ==> For(events, id) != [] && For(events, id)[0] == events[FirstAt(events, id)]
    decreases |events|
  {
    if events != [] {
      FirstIsFirst(events[..|events| - 1], id);
    }
  }

  /** Messages are listed in the order they are first named. */
  lemma {:induction false} IdsByFirst(events: seq<Event>)
    ensures forall id :: id in Ids(events) ==> FirstAt(events, id) < |events|
    ensures forall i, j :: 0 <= i < j < |Ids(events)| ==> FirstAt(events, Ids(events)[i]) < FirstAt(events, Ids(events)[j])
    decreases |events|
  {
    if events != [] {
      var init, last := events[..|events| - 1], events[|events| - 1];
      IdsByFirst(init);
      IdsDiffer(init);
      var ids := Ids(init);
      assert forall i :: 0 <= i < |ids| ==> ids[i] in ids && FirstAt(events, ids[i]) == FirstAt(init, ids[i]);
      if TargetOf(last) != "" && TargetOf(last) !in ids {
        UnnamedYet(init, TargetOf(last));
      }
    }
  }

  lemma {:induction false} UnnamedYet(events: seq<Event>, id: string)
    requires id != "" && id !in Ids(events)
    ensures FirstAt(events, id) == |events|
  {
    IdsDiffer(events);
  }

  function WithId(ms: seq<Message>, id: string): (m: Message)
    requires id in MessageIds(ms)
    ensures m in ms && m.row.id == id
  {
    if ms[0].row.id == id then ms[0]
    else
      assert MessageIds(ms)[1..] == MessageIds(ms[1..]);
      WithId(ms[1..], id)
  }

  /** The messages in the order of these ids. */
  function Arranged(ms: seq<Message>, ids: seq<string>): (r: seq<Message>)
    requires forall id :: id in ids ==> id in MessageIds(ms)
    ensures |r| == |ids| && forall i :: 0 <= i < |r| ==> r[i] == WithId(ms, ids[i])
  {
    seq(|ids|, i requires 0 <= i < |ids| => WithId(ms, ids[i]))
  }

  function ImportedAll(ms: seq<Message>): (r: seq<ImportMessage>)
    ensures |r| == |ms| && forall i :: 0 <= i < |r| ==> r[i] == Imported(ms[i])
  {
    seq(|ms|, i requires 0 <= i < |ms| => Imported(ms[i]))
  }

  lemma {:induction false} CountOfDistinct<T>(s: seq<T>, x: T)
    requires forall i, j :: 0 <= i < j < |s| ==> s[i] != s[j]
    ensures multiset(s)[x] == if x in s then 1 else 0
    decreases |s|
  {
    if s != [] {
      CountOfDistinct(s[1..], x);
      assert s == [s[0]] + s[1..];
    }
  }

  lemma {:induction false} ArrangedIsAll(ms: seq<Message>, ids: seq<string>)
    requires forall i, j :: 0 <= i < j < |ms| ==> ms[i].row.id != ms[j].row.id
    requires AllDiffer(ids) && forall id :: id in ids <==> id in MessageIds(ms)
    ensures multiset(Arranged(ms, ids)) == multiset(ms)
  {
    var order := Arranged(ms, ids);
    forall m: Message ensures multiset(order)[m] == multiset(ms)[m] {
      CountOfDistinct(order, m);
      CountOfDistinct(ms, m);
      if m in order {
        var i :| 0 <= i < |order| && order[i] == m;
        assert WithId(ms, ids[i]) in ms;
      }
      if m in ms {
        var k :| 0 <= k < |ms| && ms[k] == m;
        assert MessageIds(ms)[k] == m.row.id && m.row.id in ids;
        var i :| 0 <= i < |ids| && ids[i] == m.row.id;
        assert order[i].row.id == m.row.id && order[i] in ms;
        assert order[i] == m;
      }
    }
  }

  /** The transcript is these messages, by creation time. */
  ghost predicate HoldsInOrder(ms: seq<Message>, out: seq<ImportMessage>) {
    exists order: seq<Message> :: out == ImportedAll(order) && multiset(order) == multiset(ms) && Sorting.InOrder(CreatedBefore, order)
  }

  /** The first event that names a message is its envelope. */
  lemma {:induction false} FirstIsEnvelope(ms: seq<Message>, now: int, extra: seq<Event>, events: seq<Event>, m: Message)
    requires GoodMessages(ms) && SilentEvents(extra) && Shuffled(ms, now, extra, events) && m in ms
    ensures var sorted := Sorting.Sort(EventBefore, events);
            FirstAt(sorted, m.row.id) < |sorted| && sorted[FirstAt(sorted, m.row.id)] == EnvelopeEvent(m.row, m.parts, now)
  {
    var k: nat :| k < |ms| && ms[k] == m;
    var sorted := Sorting.Sort(EventBefore, events);
    ReadOf(ms, now, extra, events, k);
    FirstIsFirst(sorted, m.row.id);
  }

  lemma {:induction false} EnvelopesInOrder(ms: seq<Message>, now: int, extra: seq<Event>, events: seq<Event>,
          a: Message, b: Message)
    requires GoodMessages(ms) && SilentEvents(extra) && Shuffled(ms, now, extra, events) && a in ms && b in ms
    requires FirstAt(Sorting.Sort(EventBefore, events), a.row.id) < FirstAt(Sorting.Sort(EventBefore, events), b.row.id)
    ensures !CreatedBefore(b, a)
  {
    FirstIsEnvelope(ms, now, extra, events, a);
    FirstIsEnvelope(ms, now, extra, events, b);
    EventOrder();
    Sorting.SortIsInOrder(EventBefore, events);
    EnvelopesOrder(b, a, now);
  }

  /** The transcript built is the messages in the order in which events first name them. */
  lemma {:induction false} BuiltIsArranged(ms: seq<Message>, now: int, extra: seq<Event>, events: seq<Event>)
    returns (order: seq<Message>)
    requires GoodMessages(ms) && SilentEvents(extra) && Shuffled(ms, now, extra, events)
    ensures var sorted := Sorting.Sort(EventBefore, events);
            && Built(sorted) == ImportedAll(order) && multiset(order) == multiset(ms) && |order| == |Ids(sorted)|
            && forall i :: 0 <= i < |order| ==> order[i] in ms && order[i].row.id == Ids(sorted)[i]
  {
    var sorted := Sorting.Sort(EventBefore, events);
    var ids := Ids(sorted);
    NamedIdsAre(ms, now, extra, sorted);
    IdsDiffer(sorted);
    hide Sorting.Sort, Built, Ids, SilentEvents, Shuffled, Imported, GoodMessages, MessageIds;
    order := Arranging(ms, ids);
    forall i | 0 <= i < |ids| ensures Built(sorted)[i] == Imported(order[i]) {
      ArrangedAt(ms, now, extra, events, order[i], i);
    }
    assert Built(sorted) == ImportedAll(order);
  }

  lemma {:induction false} Arranging(ms: seq<Message>, ids: seq<string>) returns (order: seq<Message>)
    requires GoodMessages(ms) && AllDiffer(ids) && forall id :: id in ids <==> id in MessageIds(ms)
    ensures |order| == |ids| && multiset(order) == multiset(ms)
    ensures forall i :: 0 <= i < |order| ==> order[i] in ms && order[i].row.id == ids[i]
  {
    order := Arranged(ms, ids);
    ArrangedIsAll(ms, ids);
  }

  lemma {:induction false} NamedIdsAre(ms: seq<Message>, now: int, extra: seq<Event>, events: seq<Event>)
    requires GoodMessages(ms) && SilentEvents(extra) && Shuffled(ms, now, extra, events)
    ensures forall id :: id in Ids(events) <==> id in MessageIds(ms)
  {
    hide Ids, GoodMessages, SilentEvents, Shuffled;
    forall id ensures id in Ids(events) <==> id in MessageIds(ms) {
      NamedIds(ms, now, extra, events, id);
    }
  }

  lemma {:induction false} ArrangedAt(ms: seq<Message>, now: int, extra: seq<Event>, events: seq<Event>, m: Message, i: nat)
    requires GoodMessages(ms) && SilentEvents(extra) && Shuffled(ms, now, extra, events)
    requires i < |Ids(Sorting.Sort(EventBefore, events))| && m in ms && m.row.id == Ids(Sorting.Sort(EventBefore, events))[i]
    ensures Built(Sorting.Sort(EventBefore, events))[i] == Imported(m)
  {
    hide Sorting.Sort, Built, Ids, SilentEvents, Shuffled, Imported;
    var k := BuiltAt(ms, now, extra, events, i);
    assert m == ms[k];
  }

  lemma {:induction false} BuiltInOrder(ms: seq<Message>, now: int, extra: seq<Event>, events: seq<Event>)
    requires GoodMessages(ms) && SilentEvents(extra) && Shuffled(ms, now, extra, events)
    ensures HoldsInOrder(ms, Built(Sorting.Sort(EventBefore, events)))
  {
    hide Sorting.Sort, Built, Ids, FirstAt, GoodMessages, SilentEvents, Shuffled, Imported, CreatedBefore;
    var order := BuiltIsArranged(ms, now, extra, events);
    IdsByFirst(Sorting.Sort(EventBefore, events));
    forall i, j | 0 <= i < j < |order| ensures !CreatedBefore(order[j], order[i]) {
      EnvelopesInOrder(ms, now, extra, events, order[i], order[j]);
    }
  }

  /** The import file holds each message once, by creation time: its info, its non-tool
      parts in the order they were captured, then its tool parts in id order, for every
      order of the events. */
  lemma {:induction false} ImportConserves(ms: seq<Message>, now: int, extra: seq<Event>, events: seq<Event>)
    requires GoodMessages(ms) && SilentEvents(extra) && Shuffled(ms, now, extra, events)
    ensures HoldsEach(ms, Pruned(Built(Sorting.Sort(EventBefore, events))))
    ensures HoldsInOrder(ms, Pruned(Built(Sorting.Sort(EventBefore, events))))
  {
    var built := Built(Sorting.Sort(EventBefore, events));
    BuiltHoldsEach(ms, now, extra, events);
    BuiltInOrder(ms, now, extra, events);
    forall i | 0 <= i < |built| ensures built[i].info.Some? {
      assert IsOneOf(ms, built[i]);
    }
    NothingPruned(built);
  }

  // --- no part dropped or repeated ---

  function Payloads(m: MessageRow, parts: seq<PartRow>): seq<PartData>
    decreases |parts|
  {
    if parts == [] then [] else Payloads(m, parts[..|parts| - 1]) + [PartPayload(m, parts[|parts| - 1])]
  }

  lemma {:induction false} SplitByTool(m: MessageRow, parts: seq<PartRow>)
    ensures multiset(NonTools(m, parts)) + multiset(Tools(m, parts)) == multiset(Payloads(m, parts))
    decreases |parts|
  {
    if parts != [] {
      SplitByTool(m, parts[..|parts| - 1]);
    }
  }

  lemma {:induction false} ToolsConcat(m: MessageRow, a: seq<PartRow>, b: seq<PartRow>)
    ensures Tools(m, a + b) == Tools(m, a) + Tools(m, b)
    decreases |b|
  {
    if b == [] {
      JoinNone(a, b);
    } else {
      ToolsConcat(m, a, b[..|b| - 1]);
      assert (a + b)[..|a + b| - 1] == a + b[..|b| - 1];
    }
  }

  lemma {:induction false} ToolsPermuted(m: MessageRow, a: seq<PartRow>, b: seq<PartRow>)
    requires multiset(a) == multiset(b)
    ensures multiset(Tools(m, a)) == multiset(Tools(m, b))
    decreases |a|
  {
    Sorting.SameMembers(a, b);
    if a != [] {
      var init, x := a[..|a| - 1], a[|a| - 1];
      assert a == init + [x];
      var j := RemoveOne(b, x);
      var rest := b[..j] + b[j + 1..];
      ToolsPermuted(m, init, rest);
      ToolsConcat(m, b[..j], b[j + 1..]);
      ToolsConcat(m, b[..j] + [x], b[j + 1..]);
      ToolsConcat(m, b[..j], [x]);
      ToolsConcat(m, init, [x]);
    }
  }

  ghost predicate IdsIncrease(parts: seq<PartData>) {
    forall i, j :: 0 <= i < j < |parts| ==> Less(parts[i].id, parts[j].id)
  }

  ghost predicate FromRows(parts: seq<PartData>, rows: seq<PartRow>) {
    forall p :: p in parts ==> exists r :: r in rows && r.id == p.id
  }

  /** Rows in id order give both groups in id order. */
  lemma {:induction false} GroupsInOrder(m: MessageRow, rows: seq<PartRow>)
    requires Sorting.Increasing(IdBefore, rows)
    requires forall i {:trigger rows[i]} :: 0 <= i < |rows| ==> Hoisted(rows[i].data.id, rows[i].id)
    ensures IdsIncrease(NonTools(m, rows)) && FromRows(NonTools(m, rows), rows)
    ensures IdsIncrease(Tools(m, rows)) && FromRows(Tools(m, rows), rows)
    decreases |rows|
  {
    if rows != [] {
      var init, last := rows[..|rows| - 1], rows[|rows| - 1];
      Sorting.LastIsGreatest(IdBefore, rows);
      assert PartPayload(m, last).id == last.id;
      hide IdsIncrease, FromRows, PartPayload, Sorting.Increasing, Hoisted;
      GroupsInOrder(m, init);
      GroupGrows(NonTools(m, init), init, last, PartPayload(m, last));
      GroupGrows(Tools(m, init), init, last, PartPayload(m, last));
    }
  }

  lemma {:induction false} GroupGrows(group: seq<PartData>, init: seq<PartRow>, last: PartRow, part: PartData)
    requires IdsIncrease(group) && FromRows(group, init) && part.id == last.id
    requires Sorting.Increasing(IdBefore, init + [last])
    ensures IdsIncrease(group + [part]) && FromRows(group + [part], init + [last])
    ensures group + [] == group && FromRows(group, init + [last])
  {
    forall p | p in group ensures (exists r :: r in init + [last] && r.id == p.id) && Less(p.id, part.id) {
      var r :| r in init && r.id == p.id;
      var i :| 0 <= i < |init| && init[i] == r;
      assert (init + [last])[i] == r && (init + [last])[|init|] == last && IdBefore(r, last);
    }
    forall i | 0 <= i < |group| ensures Less((group + [part])[i].id, part.id) {
      assert group[i] in group;
    }
    assert last in init + [last];
  }

  /** The imported parts of a message are its parts, each exactly once; and read from the
      database, in id order, both groups come out in id order. */
  lemma {:induction false} PartsConserved(m: Message)
    requires GoodParts(m)
    ensures multiset(NonTools(m.row, m.parts)) + multiset(Tools(m.row, Ranked(m.parts))) == multiset(Payloads(m.row, m.parts))
    ensures Sorting.Increasing(IdBefore, Ranked(m.parts)) && IdsIncrease(Tools(m.row, Ranked(m.parts)))
    ensures Sorting.Increasing(IdBefore, m.parts) ==> Ranked(m.parts) == m.parts && IdsIncrease(NonTools(m.row, m.parts))
  {
    SplitByTool(m.row, m.parts);
    ToolsPermuted(m.row, m.parts, Ranked(m.parts));
    RankedIds(m);
    RankedHoisted(m);
    GroupsInOrder(m.row, Ranked(m.parts));
    StrictTotalOrder();
    if Sorting.Increasing(IdBefore, m.parts) {
      Sorting.SortOfIncreasing(IdBefore, m.parts);
      GroupsInOrder(m.row, m.parts);
    }
  }

  lemma {:induction false} RankedHoisted(m: Message)
    requires GoodParts(m)
    ensures forall i {:trigger Ranked(m.parts)[i]} :: 0 <= i < |Ranked(m.parts)| ==>
              Hoisted(Ranked(m.parts)[i].data.id, Ranked(m.parts)[i].id)
  {
    var ranked := Ranked(m.parts);
    Sorting.SameMembers(ranked, m.parts);
    forall i | 0 <= i < |ranked| ensures Hoisted(ranked[i].data.id, ranked[i].id) {
      assert ranked[i] in m.parts;
      var j :| 0 <= j < |m.parts| && m.parts[j] == ranked[i];
    }
  }
}
