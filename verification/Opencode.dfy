/** Capturing opencode messages and rebuilding them: a message becomes an envelope
    event with its non-tool parts and one call event per tool part; the import file is
    rebuilt from the events, whatever order they come in. Sequence numbers are unbounded
    here. Session info and normalized content are not looked at. */
module Opencode {
  import opened Lex
  import Sorting

  datatype PartType = Text | Reasoning | Tool | Other

  /** A part's blob; opencode moves the ids into columns, so they are usually empty. */
  datatype PartData = PartData(id: string, messageID: string, kind: PartType, callID: string, resolved: bool, body: string)

  datatype PartRow = PartRow(id: string, data: PartData)

  datatype Info = Info(id: string, role: string, created: int, body: string)

  datatype MessageRow = MessageRow(id: string, session: string, timeCreated: int, data: Info)

  datatype Kind = SessionStart | UserMessage | AssistantMessage | Thinking | ToolCall | ToolResult | System

  datatype Payload = NoPayload | Envelope(info: Info, parts: seq<PartData>) | Bare(bareInfo: Info) | OnePart(part: PartData)

  datatype Event = Event(uuid: string, seqNo: int, kind: Kind, payload: Payload)

  const NANOS_PER_MS: int := 1_000_000

  function Uuid(session: string, key: string): string {
    session + "|" + key
  }

  function IfEmpty(s: string, other: string): string {
    if s == "" then other else s
  }

  /** mergeRowIDs: a column fills an id the blob leaves empty. */
  function PartPayload(m: MessageRow, p: PartRow): PartData {
    p.data.(id := IfEmpty(p.data.id, p.id), messageID := IfEmpty(p.data.messageID, m.id))
  }

  function MessagePayload(m: MessageRow): Info {
    m.data.(id := IfEmpty(m.data.id, m.id))
  }

  predicate IdBefore(a: PartRow, b: PartRow) {
    Less(a.id, b.id)
  }

  function Ranked(parts: seq<PartRow>): seq<PartRow> {
    Sorting.Sort(IdBefore, parts)
  }

  /** The last position of an id, as the rank map ends up holding it. */
  function Rank(ranked: seq<PartRow>, id: string): nat
    decreases |ranked|
  {
    if ranked == [] then 0
    else if ranked[|ranked| - 1].id == id then |ranked| - 1
    else Rank(ranked[..|ranked| - 1], id)
  }

  /** The message's time in nanoseconds; a non-positive one is read off the clock. */
  function BaseTime(m: MessageRow, now: int): int {
    var created := if m.data.created == 0 then m.timeCreated else m.data.created;
    if created <= 0 then now else created * NANOS_PER_MS
  }

  function PartSeq(m: MessageRow, ranked: seq<PartRow>, p: PartRow, now: int): int {
    BaseTime(m, now) + Rank(ranked, p.id) + 1
  }

  function CallEvent(m: MessageRow, ranked: seq<PartRow>, p: PartRow, now: int): Event {
    Event(Uuid(m.session, "call:" + IfEmpty(p.data.callID, p.id)), PartSeq(m, ranked, p, now), ToolCall, OnePart(PartPayload(m, p)))
  }

  function ToolEvents(m: MessageRow, ranked: seq<PartRow>, p: PartRow, now: int): seq<Event> {
    var call := CallEvent(m, ranked, p, now);
    if !p.data.resolved then [call]
    else [call, Event(Uuid(m.session, "result:" + IfEmpty(p.data.callID, p.id)), call.seqNo + 1, ToolResult, OnePart(PartPayload(m, p)))]
  }

  function PartEvents(m: MessageRow, ranked: seq<PartRow>, p: PartRow, now: int): seq<Event> {
    match p.data.kind
    case Text => []
    case Reasoning => [Event(Uuid(m.session, p.id), PartSeq(m, ranked, p, now), Thinking, OnePart(PartPayload(m, p)))]
    case Tool => ToolEvents(m, ranked, p, now)
    case Other => [Event(Uuid(m.session, p.id), PartSeq(m, ranked, p, now), System, OnePart(PartPayload(m, p)))]
  }

  function AllPartEvents(m: MessageRow, ranked: seq<PartRow>, parts: seq<PartRow>, now: int): seq<Event>
    decreases |parts|
  {
    if parts == [] then []
    else AllPartEvents(m, ranked, parts[..|parts| - 1], now) + PartEvents(m, ranked, parts[|parts| - 1], now)
  }

  function NonTools(m: MessageRow, parts: seq<PartRow>): seq<PartData>
    decreases |parts|
  {
    if parts == [] then []
    else
      var last := parts[|parts| - 1];
      NonTools(m, parts[..|parts| - 1]) + if last.data.kind.Tool? then [] else [PartPayload(m, last)]
  }

  function Tools(m: MessageRow, parts: seq<PartRow>): seq<PartData>
    decreases |parts|
  {
    if parts == [] then []
    else
      var last := parts[|parts| - 1];
      Tools(m, parts[..|parts| - 1]) + if last.data.kind.Tool? then [PartPayload(m, last)] else []
  }

  predicate KnownRole(m: MessageRow) {
    m.data.role == "user" || m.data.role == "assistant"
  }

  function EnvelopeEvent(m: MessageRow, parts: seq<PartRow>, now: int): Event {
    Event(Uuid(m.session, m.id), BaseTime(m, now), if m.data.role == "user" then UserMessage else AssistantMessage,
          Envelope(MessagePayload(m), NonTools(m, parts)))
  }

  function EventsOf(m: MessageRow, parts: seq<PartRow>, now: int): seq<Event> {
    AllPartEvents(m, Ranked(parts), parts, now) + if KnownRole(m) then [EnvelopeEvent(m, parts, now)] else []
  }

  // --- which events the rows should give, kind by kind ---

  function OfKind(events: seq<Event>, kind: Kind): seq<Event>
    decreases |events|
  {
    if events == [] then []
    else OfKind(events[..|events| - 1], kind) + if events[|events| - 1].kind == kind then [events[|events| - 1]] else []
  }

  /** The parts that give an event of this kind of their own. */
  predicate Emits(kind: Kind, p: PartRow) {
    match kind
    case Thinking => p.data.kind.Reasoning?
    case System => p.data.kind.Other?
    case ToolCall => p.data.kind.Tool?
    case ToolResult => p.data.kind.Tool? && p.data.resolved
    case _ => false
  }

  function Emitting(kind: Kind, parts: seq<PartRow>): seq<PartRow>
    decreases |parts|
  {
    if parts == [] then []
    else Emitting(kind, parts[..|parts| - 1]) + if Emits(kind, parts[|parts| - 1]) then [parts[|parts| - 1]] else []
  }

  /** How many parts there are whose id does not sort after this one. */
  function UpTo(parts: seq<PartRow>, id: string): nat
    decreases |parts|
  {
    if parts == [] then 0 else UpTo(parts[..|parts| - 1], id) + if Less(id, parts[|parts| - 1].id) then 0 else 1
  }

  /** The message's own time, or the row's where it has none, in nanoseconds; else the clock's. */
  predicate IsBase(m: MessageRow, now: int, base: int) {
    && (m.data.created > 0 ==> base == 1_000_000 * m.data.created)
    && (m.data.created == 0 && m.timeCreated > 0 ==> base == 1_000_000 * m.timeCreated)
    && (m.data.created < 0 || (m.data.created == 0 && m.timeCreated <= 0) ==> base == now)
  }

  /** The blob with the columns put in where it leaves an id empty, and nowhere else. */
  predicate Filled(m: MessageRow, p: PartRow, part: PartData) {
    && part.id == (if p.data.id != "" then p.data.id else p.id)
    && part.messageID == (if p.data.messageID != "" then p.data.messageID else m.id)
    && part.kind == p.data.kind && part.callID == p.data.callID && part.resolved == p.data.resolved && part.body == p.data.body
  }

  predicate InfoFilled(m: MessageRow, info: Info) {
    && info.id == (if m.data.id != "" then m.data.id else m.id)
    && info.role == m.data.role && info.created == m.data.created && info.body == m.data.body
  }

  function NonToolRows(parts: seq<PartRow>): seq<PartRow>
    decreases |parts|
  {
    if parts == [] then []
    else NonToolRows(parts[..|parts| - 1]) + if parts[|parts| - 1].data.kind.Tool? then [] else [parts[|parts| - 1]]
  }

  /** This is the part's event of this kind: named after the part, or after the call; as
      far above the message as there are parts up to it, a result one further. */
  predicate IsEventOf(m: MessageRow, parts: seq<PartRow>, base: int, kind: Kind, p: PartRow, e: Event) {
    && e.kind == kind && e.payload.OnePart? && Filled(m, p, e.payload.part)
    && e.seqNo == base + UpTo(parts, p.id) + (if kind.ToolResult? then 1 else 0)
    && var callID := if p.data.callID == "" then p.id else p.data.callID;
       e.uuid == m.session + "|" + if kind.ToolCall? then "call:" + callID else if kind.ToolResult? then "result:" + callID else p.id
  }

  ghost predicate EventsEach(m: MessageRow, parts: seq<PartRow>, base: int, kind: Kind, from: seq<PartRow>, events: seq<Event>) {
    |events| == |from| && forall i :: 0 <= i < |events| ==> IsEventOf(m, parts, base, kind, from[i], events[i])
  }

  /** The message's own event: one, under its id and at its time, with its info and its
      parts but for the tools'. */
  ghost predicate Enveloped(m: MessageRow, parts: seq<PartRow>, base: int, events: seq<Event>) {
    && |events| == 1 && events[0].uuid == m.session + "|" + m.id && events[0].seqNo == base
    && events[0].payload.Envelope? && InfoFilled(m, events[0].payload.info)
    && var rows, carried := NonToolRows(parts), events[0].payload.parts;
       |carried| == |rows| && forall i :: 0 <= i < |rows| ==> Filled(m, rows[i], carried[i])
  }

  predicate ByUser(m: MessageRow) {
    m.data.role == "user"
  }

  predicate ByAssistant(m: MessageRow) {
    m.data.role == "assistant"
  }

  /** A user's message gives a UserMessage and an assistant's an AssistantMessage; each part
      gives the events of its type, in the order of the parts; and that is all. */
  ghost predicate Gives(m: MessageRow, parts: seq<PartRow>, now: int, out: seq<Event>) {
    exists base :: IsBase(m, now, base) && GivesFrom(m, parts, base, out)
  }

  ghost predicate GivesFrom(m: MessageRow, parts: seq<PartRow>, base: int, out: seq<Event>) {
    && (if ByUser(m) then Enveloped(m, parts, base, OfKind(out, UserMessage)) else OfKind(out, UserMessage) == [])
    && (if ByAssistant(m) then Enveloped(m, parts, base, OfKind(out, AssistantMessage)) else OfKind(out, AssistantMessage) == [])
    && (forall kind: Kind :: !kind.UserMessage? && !kind.AssistantMessage? ==>
          EventsEach(m, parts, base, kind, Emitting(kind, parts), OfKind(out, kind)))
  }

  lemma {:induction false} OfKindConcat(a: seq<Event>, b: seq<Event>, kind: Kind)
    ensures OfKind(a + b, kind) == OfKind(a, kind) + OfKind(b, kind)
    decreases |b|
  {
    if b == [] {
      assert a + b == a;
    } else {
      OfKindConcat(a, b[..|b| - 1], kind);
      assert (a + b)[..|a + b| - 1] == a + b[..|b| - 1];
    }
  }

  lemma {:induction false} OfKindOne(e: Event, kind: Kind)
    ensures OfKind([e], kind) == if e.kind == kind then [e] else []
  {
    assert [e][..0] == [];
  }

  lemma {:induction false} UpToConcat(a: seq<PartRow>, b: seq<PartRow>, id: string)
    ensures UpTo(a + b, id) == UpTo(a, id) + UpTo(b, id)
    decreases |b|
  {
    if b == [] {
      assert a + b == a;
    } else {
      UpToConcat(a, b[..|b| - 1], id);
      assert (a + b)[..|a + b| - 1] == a + b[..|b| - 1];
    }
  }

  lemma {:induction false} UpToOne(p: PartRow, id: string)
    ensures UpTo([p], id) == if Less(id, p.id) then 0 else 1
  {
    assert [p][..0] == [];
  }

  lemma {:induction false} UpToInserted(s: seq<PartRow>, x: PartRow, id: string)
    ensures UpTo(Sorting.Insert(IdBefore, x, s), id) == UpTo(s, id) + if Less(id, x.id) then 0 else 1
    decreases |s|
  {
    hide UpTo, Less;
    UpToOne(x, id);
    if s == [] {
      UpToConcat(s, [x], id);
      assert s + [x] == [x];
    } else {
      assert s == [s[0]] + s[1..];
      UpToConcat([s[0]], s[1..], id);
      UpToConcat([x], s, id);
      UpToInserted(s[1..], x, id);
      UpToConcat([s[0]], Sorting.Insert(IdBefore, x, s[1..]), id);
    }
  }

  lemma {:induction false} UpToSorted(parts: seq<PartRow>, id: string)
    ensures UpTo(Ranked(parts), id) == UpTo(parts, id)
    decreases |parts|
  {
    if parts != [] {
      UpToSorted(parts[..|parts| - 1], id);
      UpToInserted(Ranked(parts[..|parts| - 1]), parts[|parts| - 1], id);
    }
  }

  /** In id order the last position of an id is how many parts there are up to it. */
  lemma {:induction false} RankCounts(ranked: seq<PartRow>, p: PartRow)
    requires Sorting.InOrder(IdBefore, ranked) && p in ranked
    ensures Rank(ranked, p.id) + 1 == UpTo(ranked, p.id)
    decreases |ranked|
  {
    var init, last := ranked[..|ranked| - 1], ranked[|ranked| - 1];
    var i :| 0 <= i < |ranked| && ranked[i] == p;
    if last.id == p.id {
      AllUpTo(ranked, |ranked|, p.id);
      assert ranked[..|ranked|] == ranked;
    } else {
      assert !IdBefore(last, ranked[i]) && init[i] == p;
      LessTotal(p.id, last.id);
      RankCounts(init, p);
    }
  }

  lemma {:induction false} AllUpTo(ranked: seq<PartRow>, n: nat, id: string)
    requires Sorting.InOrder(IdBefore, ranked) && n <= |ranked| != 0 && ranked[|ranked| - 1].id == id
    ensures UpTo(ranked[..n], id) == n
  {
    if n > 0 {
      AllUpTo(ranked, n - 1, id);
      assert ranked[..n][..n - 1] == ranked[..n - 1];
      if n == |ranked| {
        LessIrreflexive(id);
      } else {
        assert !IdBefore(ranked[|ranked| - 1], ranked[n - 1]);
      }
    }
  }

  lemma {:induction false} IdOrder()
    ensures Sorting.WeakOrder(IdBefore)
  {
    StrictTotalOrder();
  }

  /** A part's number, by counting. */
  lemma {:induction false} RankIsCount(parts: seq<PartRow>, p: PartRow)
    requires p in parts
    ensures Rank(Ranked(parts), p.id) + 1 == UpTo(parts, p.id)
  {
    IdOrder();
    Sorting.SortIsInOrder(IdBefore, parts);
    Sorting.SameMembers(Ranked(parts), parts);
    RankCounts(Ranked(parts), p);
    UpToSorted(parts, p.id);
  }

  lemma {:induction false} BaseIs(m: MessageRow, now: int)
    ensures IsBase(m, now, BaseTime(m, now))
  {
  }

  /** The events of one part, sorted by kind. */
  lemma {:induction false} PartGives(m: MessageRow, parts: seq<PartRow>, p: PartRow, now: int, kind: Kind)
    requires p in parts
    ensures EventsEach(m, parts, BaseTime(m, now), kind, if Emits(kind, p) then [p] else [],
                       OfKind(PartEvents(m, Ranked(parts), p, now), kind))
  {
    var events := PartEvents(m, Ranked(parts), p, now);
    PartEventsAre(m, parts, p, now);
    hide PartEvents, Ranked, BaseTime, IsPartEvent, EventsEach, OfKind;
    match p.data.kind
    case Text => NothingGives(m, parts, BaseTime(m, now), kind);
    case Reasoning => OneGives(m, parts, p, now, kind, events);
    case Other => OneGives(m, parts, p, now, kind, events);
    case Tool =>
      if !p.data.resolved {
        OneGives(m, parts, p, now, kind, events);
      } else {
        CallAndResultGive(m, parts, p, now, kind, events);
      }
  }

  lemma {:induction false} NothingGives(m: MessageRow, parts: seq<PartRow>, base: int, kind: Kind)
    ensures EventsEach(m, parts, base, kind, [], OfKind([], kind))
  {
  }

  lemma {:induction false} CallAndResultGive(m: MessageRow, parts: seq<PartRow>, p: PartRow, now: int, kind: Kind, events: seq<Event>)
    requires |events| == 2 && IsPartEvent(m, parts, now, p, events[0]) && IsPartEvent(m, parts, now, p, events[1])
    requires events[0].kind == ToolCall && events[1].kind == ToolResult
    ensures EventsEach(m, parts, BaseTime(m, now), kind, if kind.ToolCall? || kind.ToolResult? then [p] else [], OfKind(events, kind))
  {
    hide IsPartEvent, EventsEach, OfKind;
    var call, result := events[..1], events[1..];
    assert events == call + result;
    OneGives(m, parts, p, now, kind, call);
    OneGives(m, parts, p, now, kind, result);
    OfKindConcat(call, result, kind);
    var none: seq<PartRow> := [];
    assert none + [p] == [p] && [p] + none == [p] && none + none == none;
    EachConcat(m, parts, BaseTime(m, now), kind, if kind.ToolCall? then [p] else [], OfKind(call, kind),
               if kind.ToolResult? then [p] else [], OfKind(result, kind));
  }

  lemma {:induction false} OneGives(m: MessageRow, parts: seq<PartRow>, p: PartRow, now: int, kind: Kind, events: seq<Event>)
    requires |events| == 1 && IsPartEvent(m, parts, now, p, events[0])
    ensures EventsEach(m, parts, BaseTime(m, now), kind, if events[0].kind == kind then [p] else [], OfKind(events, kind))
  {
    OfKindOne(events[0], kind);
    assert events == [events[0]];
    hide BaseTime, IsEventOf, OfKind;
  }

  predicate IsPartEvent(m: MessageRow, parts: seq<PartRow>, now: int, p: PartRow, e: Event) {
    IsEventOf(m, parts, BaseTime(m, now), e.kind, p, e)
  }

  lemma {:induction false} PartEventsAre(m: MessageRow, parts: seq<PartRow>, p: PartRow, now: int)
    requires p in parts
    ensures var events := PartEvents(m, Ranked(parts), p, now);
            match p.data.kind
            case Text => events == []
            case Reasoning => |events| == 1 && events[0].kind == Thinking && IsPartEvent(m, parts, now, p, events[0])
            case Other => |events| == 1 && events[0].kind == System && IsPartEvent(m, parts, now, p, events[0])
            case Tool =>
              && |events| == (if p.data.resolved then 2 else 1)
              && events[0].kind == ToolCall && IsPartEvent(m, parts, now, p, events[0])
              && (p.data.resolved ==> events[1].kind == ToolResult && IsPartEvent(m, parts, now, p, events[1]))
  {
    RankIsCount(parts, p);
    hide UpTo, Rank, Ranked, BaseTime, PartPayload;
  }

  lemma {:induction false} PartsGive(m: MessageRow, parts: seq<PartRow>, n: nat, now: int, kind: Kind)
    requires n <= |parts|
    ensures EventsEach(m, parts, BaseTime(m, now), kind, Emitting(kind, parts[..n]),
                       OfKind(AllPartEvents(m, Ranked(parts), parts[..n], now), kind))
  {
    if n > 0 {
      PartsGive(m, parts, n - 1, now, kind);
      PartGives(m, parts, parts[n - 1], now, kind);
      assert parts[..n][..n - 1] == parts[..n - 1];
      var before := AllPartEvents(m, Ranked(parts), parts[..n - 1], now);
      var own := PartEvents(m, Ranked(parts), parts[n - 1], now);
      assert AllPartEvents(m, Ranked(parts), parts[..n], now) == before + own;
      assert Emitting(kind, parts[..n]) == Emitting(kind, parts[..n - 1]) + if Emits(kind, parts[n - 1]) then [parts[n - 1]] else [];
      hide *;
      OfKindConcat(before, own, kind);
      EachConcat(m, parts, BaseTime(m, now), kind, Emitting(kind, parts[..n - 1]), OfKind(before, kind),
                 if Emits(kind, parts[n - 1]) then [parts[n - 1]] else [], OfKind(own, kind));
    } else {
      NothingGives(m, parts, BaseTime(m, now), kind);
      assert parts[..n] == [];
    }
  }

  lemma {:induction false} EachConcat(m: MessageRow, parts: seq<PartRow>, base: int, kind: Kind,
          from: seq<PartRow>, events: seq<Event>, from': seq<PartRow>, events': seq<Event>)
    requires EventsEach(m, parts, base, kind, from, events) && EventsEach(m, parts, base, kind, from', events')
    ensures EventsEach(m, parts, base, kind, from + from', events + events')
  {
    hide IsEventOf;
  }

  lemma {:induction false} NoMessageKind(parts: seq<PartRow>, kind: Kind)
    requires kind.UserMessage? || kind.AssistantMessage?
    ensures Emitting(kind, parts) == []
    decreases |parts|
  {
    if parts != [] {
      NoMessageKind(parts[..|parts| - 1], kind);
    }
  }

  lemma {:induction false} EventsOfKind(m: MessageRow, parts: seq<PartRow>, now: int, kind: Kind)
    ensures var own := EnvelopeEvent(m, parts, now);
            var found := OfKind(EventsOf(m, parts, now), kind);
            if KnownRole(m) && kind == own.kind then found == [own]
            else EventsEach(m, parts, BaseTime(m, now), kind, Emitting(kind, parts), found)
  {
    var own, events := EnvelopeEvent(m, parts, now), AllPartEvents(m, Ranked(parts), parts, now);
    assert parts[..|parts|] == parts;
    PartsGive(m, parts, |parts|, now, kind);
    var last := if KnownRole(m) then [own] else [];
    OfKindConcat(events, last, kind);
    OfKindOne(own, kind);
    if KnownRole(m) && kind == own.kind {
      NoMessageKind(parts, kind);
    } else {
      assert OfKind(last, kind) == [] && OfKind(events, kind) + [] == OfKind(events, kind);
    }
  }

  lemma {:induction false} NonToolsFilled(m: MessageRow, parts: seq<PartRow>)
    ensures |NonTools(m, parts)| == |NonToolRows(parts)|
    ensures forall i :: 0 <= i < |NonToolRows(parts)| ==> Filled(m, NonToolRows(parts)[i], NonTools(m, parts)[i])
    decreases |parts|
  {
    if parts != [] {
      NonToolsFilled(m, parts[..|parts| - 1]);
      PayloadFilled(m, parts[|parts| - 1]);
      hide Filled, PartPayload;
    }
  }

  lemma {:induction false} PayloadFilled(m: MessageRow, p: PartRow)
    ensures Filled(m, p, PartPayload(m, p))
  {
  }

  lemma {:induction false} EnvelopeIs(m: MessageRow, parts: seq<PartRow>, now: int)
    ensures KnownRole(m) ==> Enveloped(m, parts, BaseTime(m, now), [EnvelopeEvent(m, parts, now)])
    ensures KnownRole(m) && EnvelopeEvent(m, parts, now).kind == UserMessage <==> ByUser(m)
    ensures KnownRole(m) && EnvelopeEvent(m, parts, now).kind == AssistantMessage <==> ByAssistant(m)
  {
    NonToolsFilled(m, parts);
    hide NonTools, NonToolRows, BaseTime, Filled;
  }

  lemma {:induction false} NoneOfKind(m: MessageRow, parts: seq<PartRow>, now: int, kind: Kind)
    requires kind.UserMessage? || kind.AssistantMessage?
    ensures var own := EnvelopeEvent(m, parts, now);
            OfKind(EventsOf(m, parts, now), kind) == if KnownRole(m) && kind == own.kind then [own] else []
  {
    EventsOfKind(m, parts, now, kind);
    NoMessageKind(parts, kind);
  }

  lemma {:induction false} OthersOfKind(m: MessageRow, parts: seq<PartRow>, now: int)
    ensures forall kind: Kind :: !kind.UserMessage? && !kind.AssistantMessage? ==>
              EventsEach(m, parts, BaseTime(m, now), kind, Emitting(kind, parts), OfKind(EventsOf(m, parts, now), kind))
  {
    hide EventsOf, BaseTime, EventsEach, OfKind, Emitting;
    forall kind: Kind | !kind.UserMessage? && !kind.AssistantMessage?
      ensures EventsEach(m, parts, BaseTime(m, now), kind, Emitting(kind, parts), OfKind(EventsOf(m, parts, now), kind))
    {
      EventsOfKind(m, parts, now, kind);
    }
  }

  /** What messageEvents gives is what the rows should give. */
  lemma {:induction false} MessageGives(m: MessageRow, parts: seq<PartRow>, now: int)
    ensures Gives(m, parts, now, EventsOf(m, parts, now))
  {
    var out, base := EventsOf(m, parts, now), BaseTime(m, now);
    BaseIs(m, now);
    NoneOfKind(m, parts, now, UserMessage);
    NoneOfKind(m, parts, now, AssistantMessage);
    OthersOfKind(m, parts, now);
    EnvelopeIs(m, parts, now);
    hide KnownRole, ByUser, ByAssistant, EnvelopeEvent, Enveloped, EventsOf, BaseTime, IsBase, EventsEach, OfKind, Emitting;
    assert GivesFrom(m, parts, base, out);
  }

  /** One part: the events it gives, and itself if the envelope carries it. */
  method FromPart(m: MessageRow, ghost ranked: seq<PartRow>, p: PartRow, seqNo: int, ghost now: int)
    returns (events: seq<Event>, carried: seq<PartData>)
    requires seqNo == PartSeq(m, ranked, p, now)
    ensures events == PartEvents(m, ranked, p, now)
    ensures carried == if p.data.kind.Tool? then [] else [PartPayload(m, p)]
  {
    var payload := PartPayload(m, p);
    match p.data.kind {
      case Text =>
        return [], [payload];
      case Reasoning =>
        return [Event(Uuid(m.session, p.id), seqNo, Thinking, OnePart(payload))], [payload];
      case Tool =>
        var callID := IfEmpty(p.data.callID, p.id);
        events := [Event(Uuid(m.session, "call:" + callID), seqNo, ToolCall, OnePart(payload))];
        if p.data.resolved {
          events := events + [Event(Uuid(m.session, "result:" + callID), seqNo + 1, ToolResult, OnePart(payload))];
        }
        return events, [];
      case Other =>
        return [Event(Uuid(m.session, p.id), seqNo, System, OnePart(payload))], [payload];
    }
  }

  /** messageEvents */
  method MessageEvents(m: MessageRow, parts: seq<PartRow>, now: int) returns (out: seq<Event>)
    ensures out == EventsOf(m, parts, now) && Gives(m, parts, now, out)
  {
    MessageGives(m, parts, now);
    hide Gives, AllPartEvents, NonTools, Sorting.Sort, Rank;
    var ranked := Sorting.Sort(IdBefore, parts);
    var envParts: seq<PartData>;
    out, envParts := AllParts(m, ranked, parts, BaseTime(m, now), now);
    if m.data.role == "user" || m.data.role == "assistant" {
      var kind := if m.data.role == "user" then UserMessage else AssistantMessage;
      out := out + [Event(Uuid(m.session, m.id), BaseTime(m, now), kind, Envelope(MessagePayload(m), envParts))];
    }
  }

  /** The loop over the parts: their events, and what the envelope carries. */
  method AllParts(m: MessageRow, ranked: seq<PartRow>, parts: seq<PartRow>, base: int, ghost now: int)
    returns (out: seq<Event>, envParts: seq<PartData>)
    requires multiset(ranked) == multiset(parts) && base == BaseTime(m, now)
    ensures out == AllPartEvents(m, ranked, parts, now) && envParts == NonTools(m, parts)
  {
    var rankOf: map<string, nat> := RankMap(ranked);
    Sorting.SameMembers(ranked, parts);
    out, envParts := [], [];
    var i := 0;
    while i < |parts|
      invariant 0 <= i <= |parts|
      invariant out == AllPartEvents(m, ranked, parts[..i], now) && envParts == NonTools(m, parts[..i])
    {
      PartTaken(m, ranked, parts, i, now);
      var p := parts[i];
      assert p in ranked;
      var events, carried := FromPart(m, ranked, p, base + rankOf[p.id] + 1, now);
      envParts := envParts + carried;
      out := out + events;
      i := i + 1;
    }
    assert parts[..i] == parts;
  }

  lemma {:induction false} PartTaken(m: MessageRow, ranked: seq<PartRow>, parts: seq<PartRow>, i: nat, now: int)
    requires i < |parts|
    ensures AllPartEvents(m, ranked, parts[..i + 1], now) ==
            AllPartEvents(m, ranked, parts[..i], now) + PartEvents(m, ranked, parts[i], now)
    ensures NonTools(m, parts[..i + 1]) == NonTools(m, parts[..i]) + if parts[i].data.kind.Tool? then [] else [PartPayload(m, parts[i])]
  {
    assert parts[..i + 1][..i] == parts[..i];
  }

  method RankMap(ranked: seq<PartRow>) returns (rankOf: map<string, nat>)
    ensures forall p :: p in ranked ==> p.id in rankOf && rankOf[p.id] == Rank(ranked, p.id)
  {
    rankOf := map[];
    var i := 0;
    while i < |ranked|
      invariant 0 <= i <= |ranked|
      invariant forall p :: p in ranked[..i] ==> p.id in rankOf
      invariant forall id :: id in rankOf ==> rankOf[id] == Rank(ranked[..i], id)
    {
      assert ranked[..i + 1][..i] == ranked[..i];
      rankOf := rankOf[ranked[i].id := i];
      i := i + 1;
    }
    assert ranked[..i] == ranked;
  }
}
