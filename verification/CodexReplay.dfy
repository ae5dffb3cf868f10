/** What capture, store and replay of a Codex rollout file add up to: the lines come
    back, once each, in order; and reading a file while it grows changes nothing. */
module CodexReplay {
  import opened Wrappers
  import opened EventStore
  import opened Codex
  import opened Sequences
  import opened Words
  import Lex
  import Sorting

  predicate ReplayBefore(a: Event, b: Event) {
    if a.seqNo != b.seqNo then a.seqNo < b.seqNo else Lex.Less(a.uuid, b.uuid)
  }

  /** One event's line: the native one, or the best one that can be made (none: ""). */
  function Rendered(e: Event, synth: Event -> string): string {
    var payload := if e.payload == "" then synth(e) else e.payload;
    if payload == "" || payload[|payload| - 1] == '\n' then payload else payload + "\n"
  }

  function RenderAll(events: seq<Event>, synth: Event -> string): string
    decreases |events|
  {
    if events == [] then "" else RenderAll(events[..|events| - 1], synth) + Rendered(events[|events| - 1], synth)
  }

  /** The line of an event: its own payload or the one made up for it, ended by one newline
      where it has none, and nothing if there is neither. */
  predicate IsLineOf(e: Event, synth: Event -> string, piece: string) {
    var raw := if |e.payload| > 0 then e.payload else synth(e);
    if |raw| == 0 then piece == ""
    else if raw[|raw| - 1] == '\n' then piece == raw
    else piece == raw + "\n"
  }

  function Pieced(pieces: seq<string>): string
    decreases |pieces|
  {
    if pieces == [] then "" else Pieced(pieces[..|pieces| - 1]) + pieces[|pieces| - 1]
  }

  /** By sequence number, and by uuid where these are equal. */
  ghost predicate InReplayOrder(events: seq<Event>) {
    forall i, j :: 0 <= i < j < |events| ==>
      events[i].seqNo < events[j].seqNo || (events[i].seqNo == events[j].seqNo && !Lex.Less(events[j].uuid, events[i].uuid))
  }

  /** The text is the lines of all the events, in replay order. */
  ghost predicate Replays(events: seq<Event>, synth: Event -> string, out: string) {
    exists sorted: seq<Event>, pieces: seq<string> {:trigger InReplayOrder(sorted), Pieced(pieces)} ::
      && multiset(sorted) == multiset(events) && InReplayOrder(sorted)
      && |pieces| == |sorted| && (forall i :: 0 <= i < |pieces| ==> IsLineOf(sorted[i], synth, pieces[i]))
      && out == Pieced(pieces)
  }

  lemma {:induction false} RenderedIsLine(e: Event, synth: Event -> string)
    ensures IsLineOf(e, synth, Rendered(e, synth))
  {
  }

  lemma {:induction false} RenderedPieces(sorted: seq<Event>, synth: Event -> string) returns (pieces: seq<string>)
    ensures |pieces| == |sorted| && forall i :: 0 <= i < |pieces| ==> IsLineOf(sorted[i], synth, pieces[i])
    ensures RenderAll(sorted, synth) == Pieced(pieces)
    decreases |sorted|
  {
    if sorted == [] {
      pieces := [];
    } else {
      var n := |sorted| - 1;
      var before := RenderedPieces(sorted[..n], synth);
      RenderedIsLine(sorted[n], synth);
      assert RenderAll(sorted, synth) == RenderAll(sorted[..n], synth) + Rendered(sorted[n], synth);
      pieces := before + [Rendered(sorted[n], synth)];
      assert pieces[..n] == before && pieces[n] == Rendered(sorted[n], synth);
      assert Pieced(pieces) == Pieced(before) + pieces[n];
      hide *;
      forall i | 0 <= i < |pieces| ensures IsLineOf(sorted[i], synth, pieces[i]) {
        assert i < n ==> sorted[..n][i] == sorted[i];
      }
    }
  }

  lemma {:induction false} TieOrder()
    ensures Sorting.WeakOrder(ReplayBefore)
  {
    Lex.StrictTotalOrder();
  }

  /** What toNativeReplay writes. */
  lemma {:induction false} RenderReplays(events: seq<Event>, synth: Event -> string)
    ensures Replays(events, synth, RenderAll(Sorting.Sort(ReplayBefore, events), synth))
  {
    var sorted := Sorting.Sort(ReplayBefore, events);
    TieOrder();
    Sorting.SortIsInOrder(ReplayBefore, events);
    forall i, j | 0 <= i < j < |sorted|
      ensures sorted[i].seqNo < sorted[j].seqNo || (sorted[i].seqNo == sorted[j].seqNo && !Lex.Less(sorted[j].uuid, sorted[i].uuid))
    {
      assert !ReplayBefore(sorted[j], sorted[i]);
    }
    hide Sorting.Sort, RenderAll;
    var pieces := RenderedPieces(sorted, synth);
    assert InReplayOrder(sorted);
  }

  /** toNativeReplay */
  method ToNativeReplay(events: seq<Event>, synth: Event -> string) returns (out: string)
    ensures out == RenderAll(Sorting.Sort(ReplayBefore, events), synth) && Replays(events, synth, out)
  {
    RenderReplays(events, synth);
    var sorted := Sorting.Sort(ReplayBefore, events);
    hide Sorting.Sort, Replays;
    out := "";
    var i := 0;
    assert RenderAll(sorted[..0], synth) == "";
    hide *;
    while i < |sorted|
      invariant 0 <= i <= |sorted| && out == RenderAll(sorted[..i], synth)
    {
      RenderNext(sorted, i, synth);
      var payload := NativeLine(sorted[i], synth);
      out := out + payload;
      i := i + 1;
    }
    assert sorted[..i] == sorted;
  }

  method NativeLine(e: Event, synth: Event -> string) returns (payload: string)
    ensures payload == Rendered(e, synth)
  {
    payload := e.payload;
    if |payload| == 0 {
      payload := synth(e);
    }
    if |payload| != 0 && payload[|payload| - 1] != '\n' {
      payload := payload + "\n";
    }
  }

  lemma {:induction false} RenderNext(events: seq<Event>, i: nat, synth: Event -> string)
    requires i < |events|
    ensures RenderAll(events[..i + 1], synth) == RenderAll(events[..i], synth) + Rendered(events[i], synth)
  {
    assert events[..i + 1][..i] == events[..i];
  }

  // --- what a file says ---

  /** The dedup key of a line that carries an event. */
  function KeyOf(line: Line): Option<string> {
    match line.item
    case NoEvent => None
    case Meta(id, _) => if id == "" then None else Some(START_KEY)
    case Entry(key, _) => Some(key)
  }

  predicate Keyed(lines: seq<Line>, key: string) {
    exists i :: 0 <= i < |lines| && KeyOf(lines[i]) == Some(key)
  }

  /** The event-bearing lines, the first of each dedup key, in file order. */
  function FirstLines(lines: seq<Line>): seq<Line>
    decreases |lines|
  {
    if lines == [] then []
    else
      var init, last := lines[..|lines| - 1], lines[|lines| - 1];
      FirstLines(init) + if KeyOf(last).Some? && !Keyed(init, KeyOf(last).value) then [last] else []
  }

  function Text(lines: seq<Line>): string
    decreases |lines|
  {
    if lines == [] then "" else Text(lines[..|lines| - 1]) + lines[|lines| - 1].raw + "\n"
  }

  /** The file starts with its session_meta and names no other session. */
  ghost predicate LedBy(lines: seq<Line>, session: string) {
    && session != "" && lines != []
    && lines[0].item.Meta? && lines[0].item.id == session
    && (forall i :: 0 <= i < |lines| && lines[i].item.Meta? ==> lines[i].item.id == "" || lines[i].item.id == session)
  }

  /** Lines as a scanner splits them: no newline inside, and one that decodes is not empty. */
  ghost predicate Scanned(lines: seq<Line>) {
    forall i {:trigger lines[i]} :: 0 <= i < |lines| ==> '\n' !in lines[i].raw && (!lines[i].item.NoEvent? ==> lines[i].raw != "")
  }

  /** Time stamps leave room for a bump per line below the int64 limit. */
  ghost predicate TimestampsFit(lines: seq<Line>) {
    && |lines| <= MAX_INT64
    && (forall i {:trigger lines[i]} :: 0 <= i < |lines| && !lines[i].item.NoEvent? ==> lines[i].item.ts <= MAX_INT64 - |lines|)
  }

  // --- sequence numbers ---

  /** Positive and strictly increasing, up to the last one given. */
  ghost predicate Ascends(p: Pass) {
    && (forall i, j :: 0 <= i < j < |p.events| ==> p.events[i].seqNo < p.events[j].seqNo)
    && (forall i :: 0 <= i < |p.events| ==> p.events[i].seqNo > 0)
    && p.lastSeq == (if p.events == [] then 0 else p.events[|p.events| - 1].seqNo)
  }

  lemma {:induction false} BumpGrows(lastSeq: int, ts: int, cap: int)
    requires 0 <= lastSeq <= cap < MAX_INT64 && ts <= cap + 1
    ensures lastSeq < Bump(lastSeq, ts) <= cap + 1
  {
    WrapFits(lastSeq + 1);
  }

  lemma {:induction false} OneMoreAscends(p: Pass, q: Pass, e: Event)
    requires Ascends(p) && q.events == p.events + [e] && q.lastSeq == e.seqNo > p.lastSeq >= 0
    ensures Ascends(q)
  {
    forall i, j | 0 <= i < j < |q.events| ensures q.events[i].seqNo < q.events[j].seqNo {
      assert j == |p.events| ==> p.events[i].seqNo <= p.lastSeq;
    }
  }

  lemma {:induction false} FeedAscends(p: Pass, line: Line, cap: int)
    requires Ascends(p) && 0 <= p.lastSeq <= cap < MAX_INT64
    requires !line.item.NoEvent? ==> line.item.ts <= cap + 1
    ensures Ascends(Feed(p, line)) && 0 <= Feed(p, line).lastSeq <= cap + 1
  {
    var q := Feed(p, line);
    if EventOf(SessionAfter(p.session, line), line).Some? {
      BumpGrows(p.lastSeq, line.item.ts, cap);
      OneMoreAscends(p, q, q.events[|p.events|]);
    }
  }

  /** Across the whole file, flushes or not, the numbers given are positive and strictly
      increasing in file order. */
  lemma {:induction false} SeqsIncrease(fromName: string, lines: seq<Line>, n: nat)
    requires TimestampsFit(lines) && n <= |lines|
    ensures Ascends(Scan(fromName, lines[..n])) && 0 <= Scan(fromName, lines[..n]).lastSeq <= MAX_INT64 - |lines| + n
  {
    if n > 0 {
      SeqsIncrease(fromName, lines, n - 1);
      ScanStep(fromName, lines, n - 1);
      FeedAscends(Scan(fromName, lines[..n - 1]), lines[n - 1], MAX_INT64 - |lines| + n - 1);
    }
  }

  // --- one session ---

  ghost predicate AllOf(events: seq<Event>, session: string) {
    forall i :: 0 <= i < |events| ==> events[i].session == session
  }

  /** Batches make no difference to a file of one session. */
  lemma {:induction false} DeliverOne(db: Db, events: seq<Event>, session: string)
    requires AllOf(events, session) && events != []
    ensures Deliver(db, events) == Db(db.sessions + {session}, InsertAll(db.rows, events))
    decreases |events|
  {
    var n := Flushed(|events| - 1);
    DeliverLast(db, events, n);
    var before := Deliver(db, events[..n]);
    InsertAllConcat(db.rows, events[..n], events[n..]);
    assert events[..n] + events[n..] == events;
    if n > 0 {
      DeliverOne(db, events[..n], session);
      assert db.sessions + {session} + {session} == db.sessions + {session};
    } else {
      assert events[..n] == [];
    }
  }

  lemma {:induction false} FeedLed(p: Pass, line: Line, session: string)
    requires session != "" && AllOf(p.events, session)
    requires line.item.Meta? ==> line.item.id == "" || line.item.id == session
    requires SessionAfter(p.session, line) == session && (p.started || NamesSession(line))
    ensures var q := Feed(p, line);
            AllOf(q.events, session) && q.session == session && q.started && (p.events != [] || NamesSession(line) ==> q.events != [])
  {
  }

  lemma {:induction false} ScanLed(fromName: string, lines: seq<Line>, n: nat, session: string)
    requires LedBy(lines, session) && n <= |lines|
    ensures var p := Scan(fromName, lines[..n]);
            && AllOf(p.events, session)
            && (if n == 0 then p.events == [] else p.session == session && p.started && p.events != [] && Submitted(p) == p.events)
  {
    if n == 0 {
      assert lines[..0] == [];
    } else {
      ScanLed(fromName, lines, n - 1, session);
      ScanStep(fromName, lines, n - 1);
      FeedLed(Scan(fromName, lines[..n - 1]), lines[n - 1], session);
    }
  }

  /** The store after reconciling a session_meta-led file. */
  lemma {:induction false} Reconciled(db: Db, fromName: string, lines: seq<Line>, session: string)
    requires LedBy(lines, session)
    ensures Deliver(db, Submitted(Scan(fromName, lines))) ==
            Db(db.sessions + {session}, InsertAll(db.rows, Scan(fromName, lines).events))
  {
    assert lines[..|lines|] == lines;
    ScanLed(fromName, lines, |lines|, session);
    DeliverOne(db, Scan(fromName, lines).events, session);
  }

  ghost predicate HasStart(events: seq<Event>) {
    exists i :: 0 <= i < |events| && events[i].start
  }

  predicate NamesSession(line: Line) {
    line.item.Meta? && line.item.id != ""
  }

  lemma {:induction false} FeedStart(p: Pass, line: Line)
    requires p.started <==> HasStart(p.events)
    ensures Feed(p, line).started <==> HasStart(Feed(p, line).events)
    ensures Feed(p, line).started <==> p.started || NamesSession(line)
  {
    var q := Feed(p, line);
    if |q.events| > |p.events| {
      assert q.events[..|p.events|] == p.events;
      assert forall i :: 0 <= i < |p.events| ==> q.events[i] == p.events[i];
      assert q.events[|p.events|].start <==> NamesSession(line);
    }
  }

  lemma {:induction false} NothingSeen(fromName: string, lines: seq<Line>)
    ensures !Scan(fromName, lines[..0]).started && !HasStart(Scan(fromName, lines[..0]).events)
  {
    assert lines[..0] == [];
  }

  lemma {:induction false} StartSeen(fromName: string, lines: seq<Line>, n: nat)
    requires n <= |lines|
    ensures var p := Scan(fromName, lines[..n]);
            (p.started <==> HasStart(p.events)) && (p.started <==> exists i :: 0 <= i < n && NamesSession(lines[i]))
  {
    hide *;
    if n == 0 {
      NothingSeen(fromName, lines);
    } else {
      StartSeen(fromName, lines, n - 1);
      ScanStep(fromName, lines, n - 1);
      FeedStart(Scan(fromName, lines[..n - 1]), lines[n - 1]);
    }
  }

  /** When a start is handed to the store: the file names its session, or else its events
      do not fill the last batch to the brim. */
  lemma {:induction false} StartSubmitted(fromName: string, lines: seq<Line>)
    requires Scan(fromName, lines).events != []
    ensures HasStart(Submitted(Scan(fromName, lines))) <==>
            (exists i :: 0 <= i < |lines| && NamesSession(lines[i])) || |Scan(fromName, lines).events| % 100 != 0
  {
    var p := Scan(fromName, lines);
    assert lines[..|lines|] == lines;
    StartSeen(fromName, lines, |lines|);
    ScanLast(fromName, lines);
    var n := Flushed(|p.events|);
    if !p.started && n < |p.events| {
      assert Submitted(p)[n].start;
    }
  }

  // --- what is stored ---

  predicate Known(rows: seq<Event>, session: string, key: string) {
    exists i :: 0 <= i < |rows| && rows[i].session == session && rows[i].uuid == Uuid(session, key)
  }

  lemma {:induction false} UuidIsInjective(session: string, a: string, b: string)
    requires Uuid(session, a) == Uuid(session, b)
    ensures a == b
  {
    assert Uuid(session, a)[|session| + 1..] == a;
    assert Uuid(session, b)[|session| + 1..] == b;
  }

  /** The rows carry exactly these lines, for one session. */
  ghost predicate Carry(rows: seq<Event>, firsts: seq<Line>, session: string) {
    |rows| == |firsts| && forall i :: 0 <= i < |rows| ==> rows[i].payload == firsts[i].raw && rows[i].session == session
  }

  ghost predicate KnowsKeys(rows: seq<Event>, lines: seq<Line>, session: string) {
    forall key :: Known(rows, session, key) <==> Keyed(lines, key)
  }

  /** The event of a line of the file. */
  lemma {:induction false} EventIs(session: string, line: Line)
    requires session != "" && (line.item.Meta? ==> line.item.id == "" || line.item.id == session)
    ensures KeyOf(line).None? <==> EventOf(session, line).None?
    ensures EventOf(session, line).Some? ==>
              var e := EventOf(session, line).value;
              e.session == session && e.uuid == Uuid(session, KeyOf(line).value) && e.payload == line.raw
  {
  }

  lemma {:induction false} KeyedStep(lines: seq<Line>, line: Line, key: string)
    ensures Keyed(lines + [line], key) <==> Keyed(lines, key) || KeyOf(line) == Some(key)
  {
    if Keyed(lines, key) {
      var i :| 0 <= i < |lines| && KeyOf(lines[i]) == Some(key);
      assert (lines + [line])[i] == lines[i];
    }
    if KeyOf(line) == Some(key) {
      assert (lines + [line])[|lines|] == line;
    }
  }

  lemma {:induction false} KnownStep(rows: seq<Event>, e: Event, session: string, key: string)
    ensures Known(rows + [e], session, key) <==> Known(rows, session, key) || (e.session == session && e.uuid == Uuid(session, key))
  {
    if Known(rows, session, key) {
      var i :| 0 <= i < |rows| && rows[i].session == session && rows[i].uuid == Uuid(session, key);
      assert (rows + [e])[i] == rows[i];
    }
    if e.session == session && e.uuid == Uuid(session, key) {
      assert (rows + [e])[|rows|] == e;
    }
  }

  /** One event inserted: it is kept exactly when its line is the first of its key. */
  lemma {:induction false} InsertStep(rows: seq<Event>, lines: seq<Line>, session: string, line: Line, e: Event)
    requires Carry(rows, FirstLines(lines), session) && KnowsKeys(rows, lines, session)
    requires KeyOf(line).Some? && e.session == session && e.uuid == Uuid(session, KeyOf(line).value) && e.payload == line.raw
    ensures Carry(InsertOrIgnore(rows, e), FirstLines(lines + [line]), session)
    ensures KnowsKeys(InsertOrIgnore(rows, e), lines + [line], session)
  {
    var key := KeyOf(line).value;
    assert (lines + [line])[..|lines|] == lines;
    assert HasKey(rows, e) <==> Known(rows, session, key) by {
      if HasKey(rows, e) {
        var i :| 0 <= i < |rows| && SameKey(rows[i], e);
      }
      if Known(rows, session, key) {
        var i :| 0 <= i < |rows| && rows[i].session == session && rows[i].uuid == Uuid(session, key);
        assert SameKey(rows[i], e);
      }
    }
    assert Known(rows, session, key) <==> Keyed(lines, key);
    forall k ensures Known(InsertOrIgnore(rows, e), session, k) <==> Keyed(lines + [line], k) {
      KeyedStep(lines, line, k);
      KnownStep(rows, e, session, k);
      assert Known(rows, session, k) <==> Keyed(lines, k);
      if e.uuid == Uuid(session, k) {
        UuidIsInjective(session, key, k);
      }
    }
  }

  lemma {:induction false} SkipStep(rows: seq<Event>, lines: seq<Line>, session: string, line: Line)
    requires Carry(rows, FirstLines(lines), session) && KnowsKeys(rows, lines, session) && KeyOf(line).None?
    ensures Carry(rows, FirstLines(lines + [line]), session) && KnowsKeys(rows, lines + [line], session)
  {
    assert (lines + [line])[..|lines|] == lines;
    assert FirstLines(lines + [line]) == FirstLines(lines);
    forall k ensures Known(rows, session, k) <==> Keyed(lines + [line], k) {
      KeyedStep(lines, line, k);
      assert Known(rows, session, k) <==> Keyed(lines, k);
    }
  }

  lemma {:induction false} CarryStep(p: Pass, lines: seq<Line>, session: string, line: Line)
    requires session != "" && (line.item.Meta? ==> line.item.id == "" || line.item.id == session)
    requires SessionAfter(p.session, line) == session
    requires Carry(InsertAll([], p.events), FirstLines(lines), session) && KnowsKeys(InsertAll([], p.events), lines, session)
    ensures Carry(InsertAll([], Feed(p, line).events), FirstLines(lines + [line]), session)
    ensures KnowsKeys(InsertAll([], Feed(p, line).events), lines + [line], session)
  {
    var rows, q := InsertAll([], p.events), Feed(p, line);
    EventIs(session, line);
    if KeyOf(line).None? {
      SkipStep(rows, lines, session, line);
    } else {
      var e := q.events[|p.events|];
      assert q.events[..|p.events|] == p.events;
      InsertStep(rows, lines, session, line, e);
    }
  }

  lemma {:induction false} LedLine(fromName: string, lines: seq<Line>, n: nat, session: string)
    requires LedBy(lines, session) && n < |lines|
    ensures session != "" && (lines[n].item.Meta? ==> lines[n].item.id == "" || lines[n].item.id == session)
    ensures SessionAfter(Scan(fromName, lines[..n]).session, lines[n]) == session
  {
    ScanLed(fromName, lines, n, session);
    hide Scan;
  }

  /** What a file's events leave in an empty table: its first lines. */
  lemma {:induction false} RowsAreFirstLines(fromName: string, lines: seq<Line>, n: nat, session: string)
    requires LedBy(lines, session) && n <= |lines|
    ensures var rows := InsertAll([], Scan(fromName, lines[..n]).events);
            Carry(rows, FirstLines(lines[..n]), session) && KnowsKeys(rows, lines[..n], session)
  {
    hide *;
    if n == 0 {
      NothingCarried(fromName, lines, session);
    } else {
      RowsAreFirstLines(fromName, lines, n - 1, session);
      ScanStep(fromName, lines, n - 1);
      LedLine(fromName, lines, n - 1, session);
      TakeOneMore(lines, n - 1);
      CarryStep(Scan(fromName, lines[..n - 1]), lines[..n - 1], session, lines[n - 1]);
    }
  }

  lemma {:induction false} NothingCarried(fromName: string, lines: seq<Line>, session: string)
    ensures var rows := InsertAll([], Scan(fromName, lines[..0]).events);
            Carry(rows, FirstLines(lines[..0]), session) && KnowsKeys(rows, lines[..0], session)
  {
    assert lines[..0] == [];
  }

  /** Strictly increasing events stay so when repeats are dropped. */
  lemma {:induction false} RowsAscend(events: seq<Event>)
    requires Sorting.Increasing(SeqBefore, events)
    ensures Sorting.Increasing(SeqBefore, InsertAll([], events))
    ensures forall e :: e in InsertAll([], events) ==> e in events
    decreases |events|
  {
    if events != [] {
      var init, last := events[..|events| - 1], events[|events| - 1];
      RowsAscend(init);
      var before := InsertAll([], init);
      forall i | 0 <= i < |before| ensures SeqBefore(before[i], last) {
        assert before[i] in before && before[i] in init;
        var j :| 0 <= j < |init| && init[j] == before[i];
        assert SeqBefore(events[j], events[|init|]);
      }
    }
  }

  lemma {:induction false} SessionRowsAll(rows: seq<Event>, session: string)
    requires AllOf(rows, session)
    ensures SessionRows(rows, session) == rows
    decreases |rows|
  {
    if rows != [] {
      SessionRowsAll(rows[..|rows| - 1], session);
    }
  }

  lemma {:induction false} RenderCarried(rows: seq<Event>, lines: seq<Line>, session: string, synth: Event -> string)
    requires Carry(rows, lines, session)
    requires forall i :: 0 <= i < |lines| ==> '\n' !in lines[i].raw && lines[i].raw != ""
    ensures RenderAll(rows, synth) == Text(lines)
    decreases |rows|
  {
    if rows != [] {
      var n := |rows| - 1;
      RenderCarried(rows[..n], lines[..n], session, synth);
      assert lines[n].raw[|lines[n].raw| - 1] in lines[n].raw;
    }
  }

  lemma {:induction false} FirstLinesScanned(lines: seq<Line>)
    requires Scanned(lines)
    ensures forall i :: 0 <= i < |FirstLines(lines)| ==> '\n' !in FirstLines(lines)[i].raw && FirstLines(lines)[i].raw != ""
    decreases |lines|
  {
    if lines != [] {
      FirstLinesScanned(lines[..|lines| - 1]);
      assert lines[|lines| - 1] == lines[|lines| - 1];
    }
  }

  /** Reconcile into an empty store, page the session back, render it: what comes out is
      the file's event-bearing lines in file order, the first of each dedup key, each
      ended by a newline. The paging is complete whatever the number of lines. */
  lemma {:induction false} RoundTrip(fromName: string, lines: seq<Line>, session: string, synth: Event -> string)
    requires LedBy(lines, session) && TimestampsFit(lines) && Scanned(lines)
    ensures var stored := Ordered(Deliver(Db({}, []), Submitted(Scan(fromName, lines))).rows, session);
            && AllPositive(stored) && !BoundaryTie(stored)
            && RenderAll(Sorting.Sort(ReplayBefore, stored), synth) == Text(FirstLines(lines))
  {
    hide Scan, Deliver, Submitted, LedBy, TimestampsFit, Scanned, RenderAll, FirstLines;
    var events := Scan(fromName, lines).events;
    var rows := InsertAll([], events);
    assert lines[..|lines|] == lines;
    Reconciled(Db({}, []), fromName, lines, session);
    SeqsIncrease(fromName, lines, |lines|);
    RowsAscend(events);
    RowsAreFirstLines(fromName, lines, |lines|, session);
    SessionRowsAll(rows, session);
    Sorting.SortOfIncreasing(SeqBefore, rows);
    assert Ordered(rows, session) == rows;
    forall i | 0 <= i < |rows| ensures rows[i].seqNo > 0 {
      assert rows[i] in rows && rows[i] in events;
    }
    assert !BoundaryTie(rows) by {
      forall n: nat ensures !TieAt(rows, n) {
        assert 0 < n < |rows| ==> SeqBefore(rows[n - 1], rows[n]);
      }
    }
    ReplayOrder(rows);
    FirstLinesScanned(lines);
    RenderCarried(rows, FirstLines(lines), session, synth);
  }

  lemma {:induction false} ReplayOrder(rows: seq<Event>)
    requires Sorting.Increasing(SeqBefore, rows)
    ensures Sorting.Sort(ReplayBefore, rows) == rows
  {
    Lex.StrictTotalOrder();
    assert Sorting.StrictOrder(ReplayBefore);
    assert Sorting.Increasing(ReplayBefore, rows) by {
      forall i, j | 0 <= i < j < |rows| ensures ReplayBefore(rows[i], rows[j]) {
        assert SeqBefore(rows[i], rows[j]);
      }
    }
    Sorting.SortOfIncreasing(ReplayBefore, rows);
  }

  /** The same as one run of the program. */
  method CaptureAndReplay(fromName: string, lines: seq<Line>, session: string, synth: Event -> string) returns (out: string)
    requires LedBy(lines, session) && TimestampsFit(lines) && Scanned(lines)
    ensures out == Text(FirstLines(lines))
  {
    var store := new Store();
    IngestFile(store, fromName, lines);
    RoundTrip(fromName, lines, session, synth);
    var events := store.LoadAll(session);
    out := ToNativeReplay(events, synth);
  }

  // --- a file that grows ---

  /** The file as one reading finds it: its first `cut` lines, perhaps with the next one
      half written, which does not parse. */
  datatype Reading = Reading(cut: nat, torn: Option<string>)

  function FileAt(lines: seq<Line>, r: Reading): seq<Line>
    requires r.cut <= |lines|
  {
    lines[..r.cut] + match r.torn case None => [] case Some(raw) => [Line(raw, NoEvent)]
  }

  ghost predicate ReadingsOf(lines: seq<Line>, readings: seq<Reading>) {
    forall i :: 0 <= i < |readings| ==> readings[i].cut <= |lines|
  }

  ghost function ReconcileAll(db: Db, fromName: string, lines: seq<Line>, readings: seq<Reading>): Db
    requires ReadingsOf(lines, readings)
    decreases |readings|
  {
    if readings == [] then db
    else
      var last := readings[|readings| - 1];
      Deliver(ReconcileAll(db, fromName, lines, readings[..|readings| - 1]), Submitted(Scan(fromName, FileAt(lines, last))))
  }

  lemma {:induction false} TornIsNothing(fromName: string, lines: seq<Line>, r: Reading)
    requires r.cut <= |lines|
    ensures Scan(fromName, FileAt(lines, r)) == Scan(fromName, lines[..r.cut])
  {
    match r.torn
    case None => assert FileAt(lines, r) == lines[..r.cut];
    case Some(raw) => assert FileAt(lines, r)[..r.cut] == lines[..r.cut];
  }

  lemma {:induction false} ScanGrows(fromName: string, lines: seq<Line>, n: nat)
    requires n <= |lines|
    ensures Scan(fromName, lines[..n]).events <= Scan(fromName, lines).events
    decreases |lines| - n
  {
    if n == |lines| {
      assert lines[..n] == lines;
    } else {
      ScanStep(fromName, lines, n);
      ScanGrows(fromName, lines, n + 1);
    }
  }

  lemma {:induction false} MostOf(rows: seq<Event>, all: seq<Event>, m: nat, k: nat)
    requires m <= |all| && k <= |all|
    ensures InsertAll(InsertAll(rows, all[..m]), all[..k]) == InsertAll(rows, all[..if m < k then k else m])
  {
    var lo, hi := if m < k then m else k, if m < k then k else m;
    InsertAllKeeps(rows, all[..m]);
    if k <= m {
      forall i | 0 <= i < k ensures HasKey(InsertAll(rows, all[..m]), all[..k][i]) {
        assert all[..m][i] == all[..k][i];
      }
      InsertKnown(InsertAll(rows, all[..m]), all[..k]);
    } else {
      assert all[..k] == all[..m] + all[m..k];
      InsertAgain(rows, all[..m], all[m..k]);
    }
  }

  /** After any readings the store holds some first part of the file's events. */
  lemma {:induction false} HoldsAPrefix(db: Db, fromName: string, lines: seq<Line>, readings: seq<Reading>,
          session: string) returns (m: nat)
    requires LedBy(lines, session) && ReadingsOf(lines, readings)
    ensures m <= |Scan(fromName, lines).events|
    ensures var after := ReconcileAll(db, fromName, lines, readings);
            && after.rows == InsertAll(db.rows, Scan(fromName, lines).events[..m])
            && (after.sessions == db.sessions || after.sessions == db.sessions + {session})
    decreases |readings|
  {
    if readings == [] {
      m := 0;
    } else {
      var last := readings[|readings| - 1];
      assert ReadingsOf(lines, readings[..|readings| - 1]);
      var before := ReconcileAll(db, fromName, lines, readings[..|readings| - 1]);
      var m' := HoldsAPrefix(db, fromName, lines, readings[..|readings| - 1], session);
      TornIsNothing(fromName, lines, last);
      ScanLed(fromName, lines, last.cut, session);
      ScanGrows(fromName, lines, last.cut);
      var all, part := Scan(fromName, lines).events, Scan(fromName, lines[..last.cut]).events;
      if part == [] {
        assert Submitted(Scan(fromName, lines[..last.cut])) == [];
        m := m';
      } else {
        DeliverOne(before, part, session);
        assert part == all[..|part|];
        MostOf(db.rows, all, m', |part|);
        m := if m' < |part| then |part| else m';
      }
    }
  }

  /** Reading a growing file any number of times and then once in full leaves what one
      full reading leaves: the same rows, with the same sequence numbers. */
  lemma {:induction false} GrowthIsStable(db: Db, fromName: string, lines: seq<Line>, readings: seq<Reading>, session: string)
    requires LedBy(lines, session) && ReadingsOf(lines, readings)
    ensures Deliver(ReconcileAll(db, fromName, lines, readings), Submitted(Scan(fromName, lines))) ==
            Deliver(db, Submitted(Scan(fromName, lines)))
  {
    hide *;
    var all := Scan(fromName, lines).events;
    var before := ReconcileAll(db, fromName, lines, readings);
    var m := HoldsAPrefix(db, fromName, lines, readings, session);
    Reconciled(before, fromName, lines, session);
    Reconciled(db, fromName, lines, session);
    MostOf(db.rows, all, m, |all|);
    assert all[..|all|] == all;
    assert db.sessions + {session} + {session} == db.sessions + {session};
  }
}
