/** The import transcript: events in (sequence, uuid) order, each added to the message
    it names, messages without any info dropped. */
module OpencodeImport {
  import opened Wrappers
  import opened Lex
  import opened Opencode
  import opened Sequences
  import Sorting

  datatype ImportMessage = ImportMessage(info: Option<Info>, parts: seq<Payload>)

  predicate EventBefore(a: Event, b: Event) {
    if a.seqNo != b.seqNo then a.seqNo < b.seqNo else Less(a.uuid, b.uuid)
  }

  /** unwrapMessagePayload: anything that is no {info, parts} wrapper is the info itself. */
  function InfoOf(p: Payload): Option<Info> {
    match p
    case NoPayload => None
    case Envelope(info, _) => Some(info)
    case Bare(info) => Some(info)
    case OnePart(part) => Some(Info(part.id, "", 0, part.body))
  }

  function PartsOf(p: Payload): seq<Payload> {
    match p
    case Envelope(_, parts) => Wrapped(parts)
    case _ => []
  }

  function Wrapped(parts: seq<PartData>): (r: seq<Payload>)
    ensures |r| == |parts| && forall i :: 0 <= i < |r| ==> r[i] == OnePart(parts[i])
  {
    seq(|parts|, i requires 0 <= i < |parts| => OnePart(parts[i]))
  }

  /** messageIDForEvent */
  function OwnerOf(p: Payload): string {
    match p
    case NoPayload => ""
    case Envelope(_, _) => ""
    case Bare(info) => info.id
    case OnePart(part) => if part.messageID != "" then part.messageID else part.id
  }

  predicate IsMessage(e: Event) {
    e.kind.UserMessage? || e.kind.AssistantMessage?
  }

  /** The message an event adds to, "" for none. */
  function TargetOf(e: Event): string {
    if IsMessage(e) then match InfoOf(e.payload) case None => "" case Some(info) => info.id
    else if e.kind.ToolCall? then OwnerOf(e.payload)
    else ""
  }

  function InfoFrom(e: Event): Option<Info> {
    if IsMessage(e) then InfoOf(e.payload) else None
  }

  function PartsFrom(e: Event): seq<Payload> {
    if IsMessage(e) then PartsOf(e.payload) else if e.payload.NoPayload? then [] else [e.payload]
  }

  // --- what the transcript should hold ---

  /** The messages named, in the order they are first named. */
  function Ids(events: seq<Event>): seq<string>
    decreases |events|
  {
    if events == [] then []
    else
      var init, id := Ids(events[..|events| - 1]), TargetOf(events[|events| - 1]);
      if id == "" || id in init then init else init + [id]
  }

  function InfoFor(events: seq<Event>, id: string): Option<Info>
    decreases |events|
  {
    if events == [] then None
    else
      var before, last := InfoFor(events[..|events| - 1], id), events[|events| - 1];
      if before.Some? || TargetOf(last) != id then before else InfoFrom(last)
  }

  function PartsFor(events: seq<Event>, id: string): seq<Payload>
    decreases |events|
  {
    if events == [] then []
    else
      var before, last := PartsFor(events[..|events| - 1], id), events[|events| - 1];
      if TargetOf(last) != id then before else before + PartsFrom(last)
  }

  function Built(events: seq<Event>): (r: seq<ImportMessage>)
    ensures |r| == |Ids(events)|
    ensures forall i :: 0 <= i < |r| ==> r[i] == ImportMessage(InfoFor(events, Ids(events)[i]), PartsFor(events, Ids(events)[i]))
  {
    var ids := Ids(events);
    seq(|ids|, i requires 0 <= i < |ids| => ImportMessage(InfoFor(events, ids[i]), PartsFor(events, ids[i])))
  }

  function Pruned(messages: seq<ImportMessage>): seq<ImportMessage>
    decreases |messages|
  {
    if messages == [] then []
    else Pruned(messages[..|messages| - 1]) + if messages[|messages| - 1].info.Some? then [messages[|messages| - 1]] else []
  }

  /** Out of these messages, those at these positions: in order, and all that have an info. */
  ghost predicate Picks(messages: seq<ImportMessage>, at: seq<nat>, out: seq<ImportMessage>) {
    && |at| == |out|
    && (forall j :: 0 <= j < |at| ==> at[j] < |messages| && out[j] == messages[at[j]] && out[j].info.Some?)
    && (forall i, j :: 0 <= i < j < |at| ==> at[i] < at[j])
    && (forall i: nat :: i < |messages| && messages[i].info.Some? ==> i in at)
  }

  lemma {:induction false} PicksMore(messages: seq<ImportMessage>, at: seq<nat>, out: seq<ImportMessage>)
    requires messages != [] && Picks(messages[..|messages| - 1], at, out)
    ensures var n := |messages| - 1;
            if messages[n].info.Some? then Picks(messages, at + [n], out + [messages[n]]) else Picks(messages, at, out)
  {
    var n := |messages| - 1;
    forall i: nat | i < n && messages[i].info.Some? ensures i in at {
      assert messages[..n][i] == messages[i];
    }
    forall j | 0 <= j < |at| ensures messages[..n][at[j]] == messages[at[j]] {
    }
  }

  /** The transcript keeps the messages that have an info, all of them, as they are and in
      order. */
  lemma {:induction false} PrunedKeeps(messages: seq<ImportMessage>) returns (at: seq<nat>)
    ensures Picks(messages, at, Pruned(messages))
    decreases |messages|
  {
    if messages == [] {
      at := [];
    } else {
      var n := |messages| - 1;
      var before := PrunedKeeps(messages[..n]);
      PicksMore(messages, before, Pruned(messages[..n]));
      hide Picks;
      at := if messages[n].info.Some? then before + [n] else before;
      assert Pruned(messages[..n]) + [] == Pruned(messages[..n]);
    }
  }

  /** A tool call whose part names no message is gathered under the part's own id, and
      dropped with it: nothing else gives that message an info. */
  lemma {:induction false} OrphanIsDropped(events: seq<Event>, e: Event)
    requires e.kind.ToolCall? && e.payload.OnePart? && e.payload.part.messageID == "" && e in events
    requires forall i :: 0 <= i < |events| && TargetOf(events[i]) == e.payload.part.id ==> InfoFrom(events[i]).None?
    ensures TargetOf(e) == e.payload.part.id
    ensures InfoFor(events, e.payload.part.id) == None
  {
    NoInfo(events, e.payload.part.id);
  }

  lemma {:induction false} NoInfo(events: seq<Event>, id: string)
    requires forall i :: 0 <= i < |events| && TargetOf(events[i]) == id ==> InfoFrom(events[i]).None?
    ensures InfoFor(events, id) == None
    decreases |events|
  {
    if events != [] {
      NoInfo(events[..|events| - 1], id);
    }
  }

  // --- the loop ---

  lemma {:induction false} IdsDiffer(events: seq<Event>)
    ensures forall i, j :: 0 <= i < j < |Ids(events)| ==> Ids(events)[i] != Ids(events)[j]
    ensures forall id :: id in Ids(events) <==> id != "" && exists i :: 0 <= i < |events| && TargetOf(events[i]) == id
    decreases |events|
  {
    if events != [] {
      var init, last := events[..|events| - 1], events[|events| - 1];
      IdsDiffer(init);
      forall id ensures id in Ids(events) <==> id != "" && exists i :: 0 <= i < |events| && TargetOf(events[i]) == id {
        if i :| 0 <= i < |events| && TargetOf(events[i]) == id && id != "" {
          assert i < |init| ==> init[i] == events[i];
        }
        if id in Ids(init) {
          var i :| 0 <= i < |init| && TargetOf(init[i]) == id;
          assert events[i] == init[i];
        } else if id in Ids(events) {
          assert TargetOf(events[|init|]) == id;
        }
      }
    }
  }

  /** A message named for the first time has nothing yet. */
  lemma {:induction false} NothingYet(events: seq<Event>, id: string)
    requires forall i :: 0 <= i < |events| ==> TargetOf(events[i]) != id
    ensures InfoFor(events, id) == None && PartsFor(events, id) == []
    decreases |events|
  {
    if events != [] {
      NothingYet(events[..|events| - 1], id);
    }
  }

  lemma {:induction false} OneMore(events: seq<Event>, i: nat)
    requires i < |events|
    ensures var init, last := events[..i], events[i];
            && Ids(events[..i + 1]) == (if TargetOf(last) == "" || TargetOf(last) in Ids(init) then Ids(init)
                else Ids(init) + [TargetOf(last)])
            && (forall id :: InfoFor(events[..i + 1], id) ==
                  if InfoFor(init, id).Some? || TargetOf(last) != id then InfoFor(init, id) else InfoFrom(last))
            && (forall id :: PartsFor(events[..i + 1], id) ==
                  if TargetOf(last) != id then PartsFor(init, id) else PartsFor(init, id) + PartsFrom(last))
  {
    assert events[..i + 1][..i] == events[..i];
  }

  function Entry(events: seq<Event>, id: string): ImportMessage {
    ImportMessage(InfoFor(events, id), PartsFor(events, id))
  }

  lemma {:induction false} EntryMore(seen: seq<Event>, e: Event, id: string)
    ensures Entry(seen + [e], id) ==
            if TargetOf(e) != id then Entry(seen, id)
            else ImportMessage(if InfoFor(seen, id).None? then InfoFrom(e) else InfoFor(seen, id), PartsFor(seen, id) + PartsFrom(e))
  {
    TakeBack(seen, e);
    OneMore(seen + [e], |seen|);
  }

  lemma {:induction false} IdsMore(seen: seq<Event>, e: Event)
    ensures Ids(seen + [e]) == if TargetOf(e) == "" || TargetOf(e) in Ids(seen) then Ids(seen) else Ids(seen) + [TargetOf(e)]
  {
    TakeBack(seen, e);
    OneMore(seen + [e], |seen|);
  }

  /** What one more event does to the transcript: nothing, a new message, or an addition
      to the message it names. */
  lemma {:induction false} NothingAdded(seen: seq<Event>, e: Event)
    requires TargetOf(e) == ""
    ensures Ids(seen + [e]) == Ids(seen) && Built(seen + [e]) == Built(seen)
  {
    IdsMore(seen, e);
    IdsDiffer(seen);
    forall i | 0 <= i < |Ids(seen)| ensures Built(seen + [e])[i] == Built(seen)[i] {
      EntryMore(seen, e, Ids(seen)[i]);
      assert Ids(seen)[i] in Ids(seen);
    }
  }

  lemma {:induction false} NotNamed(seen: seq<Event>, id: string)
    requires id != "" && id !in Ids(seen)
    ensures Entry(seen, id) == ImportMessage(None, [])
  {
    IdsDiffer(seen);
    NothingYet(seen, id);
  }

  lemma {:induction false} MessageAdded(seen: seq<Event>, e: Event)
    requires TargetOf(e) != "" && TargetOf(e) !in Ids(seen)
    ensures Ids(seen + [e]) == Ids(seen) + [TargetOf(e)]
    ensures Built(seen + [e]) == Built(seen) + [ImportMessage(InfoFrom(e), PartsFrom(e))]
  {
    IdsMore(seen, e);
    forall i | 0 <= i < |Ids(seen)| ensures Built(seen + [e])[i] == Built(seen)[i] {
      assert Ids(seen)[i] in Ids(seen);
      EntryMore(seen, e, Ids(seen)[i]);
    }
    EntryMore(seen, e, TargetOf(e));
    NotNamed(seen, TargetOf(e));
    JoinNone([], PartsFrom(e));
    assert Built(seen + [e])[|Ids(seen)|] == Entry(seen + [e], TargetOf(e));
  }

  lemma {:induction false} MessageExtended(seen: seq<Event>, e: Event, at: nat)
    requires at < |Ids(seen)| && Ids(seen)[at] == TargetOf(e) != ""
    ensures Ids(seen + [e]) == Ids(seen)
    ensures var was := Built(seen)[at];
            Built(seen + [e]) == Built(seen)[at := ImportMessage(if was.info.None? then InfoFrom(e)
                else was.info, was.parts + PartsFrom(e))]
  {
    IdsMore(seen, e);
    IdsDiffer(seen);
    forall i | 0 <= i < |Ids(seen)| ensures i != at ==> Built(seen + [e])[i] == Built(seen)[i] {
      EntryMore(seen, e, Ids(seen)[i]);
    }
    EntryMore(seen, e, TargetOf(e));
  }

  /** The message index agrees with the list: the position of each id. */
  ghost predicate Indexed(ids: seq<string>, index: map<string, nat>) {
    && (forall id :: id in index <==> id in ids)
    && (forall id :: id in index ==> index[id] < |ids| && ids[index[id]] == id)
  }

  class Transcript {
    var messages: seq<ImportMessage>
    var index: map<string, nat>

    constructor ()
      ensures messages == [] && index == map[]
    {
      messages, index := [], map[];
    }

    ghost predicate Mirrors(events: seq<Event>)
      reads this
    {
      messages == Built(events) && Indexed(Ids(events), index)
    }

    method EnsureMessage(id: string, info: Option<Info>) returns (at: nat)
      requires forall k :: k in index ==> index[k] < |messages|
      modifies this
      ensures at < |messages|
      ensures if id in old(index)
              then index == old(index) && at == index[id] &&
                   var m := old(messages)[at];
                   messages == old(messages)[at := m.(info := if m.info.None? then info else m.info)]
              else at == |old(messages)| && index == old(index)[id := at] && messages == old(messages) + [ImportMessage(info, [])]
    {
      if id in index {
        at := index[id];
        if messages[at].info.None? && info.Some? {
          messages := messages[at := messages[at].(info := info)];
        }
        return;
      }
      messages := messages + [ImportMessage(info, [])];
      at := |messages| - 1;
      index := index[id := at];
    }

    /** One event of the sorted list. */
    method AddEvent(e: Event, ghost seen: seq<Event>)
      requires Mirrors(seen)
      modifies this
      ensures Mirrors(seen + [e])
    {
      var id, parts, info := TargetOf(e), PartsFrom(e), InfoFrom(e);
      if id == "" {
        NothingAdded(seen, e);
      } else {
        if id in index {
          MessageExtended(seen, e, index[id]);
        } else {
          MessageAdded(seen, e);
        }
        var at := EnsureMessage(id, info);
        messages := messages[at := messages[at].(parts := messages[at].parts + parts)];
      }
    }
  }

  /** buildImportJSON, down to the list of messages. */
  method BuildImport(events: seq<Event>) returns (out: seq<ImportMessage>)
    ensures out == Pruned(Built(Sorting.Sort(EventBefore, events)))
  {
    var sorted := Sorting.Sort(EventBefore, events);
    var t := new Transcript();
    var i := 0;
    assert t.Mirrors(sorted[..0]);
    hide Sorting.Sort, Pruned, Ids, Built;
    while i < |sorted|
      invariant 0 <= i <= |sorted| && t.Mirrors(sorted[..i])
    {
      assert sorted[..i + 1] == sorted[..i] + [sorted[i]];
      t.AddEvent(sorted[i], sorted[..i]);
      i := i + 1;
    }
    assert sorted[..i] == sorted;
    out := Prune(t.messages);
  }

  /** Drops the messages no info was found for. */
  method Prune(messages: seq<ImportMessage>) returns (out: seq<ImportMessage>)
    ensures out == Pruned(messages)
  {
    out := [];
    var i := 0;
    while i < |messages|
      invariant 0 <= i <= |messages| && out == Pruned(messages[..i])
    {
      assert messages[..i + 1][..i] == messages[..i];
      if messages[i].info.Some? {
        out := out + [messages[i]];
      }
      i := i + 1;
    }
    assert messages[..i] == messages;
  }
}
