/** Reading Codex rollout files into the event store, and rendering a session back.
    Each line gives at most one event. A time stamp is the line's own: a line whose
    stamp cannot be read is stamped by the clock and is not covered here. */
module Codex {
  import opened Wrappers
  import opened EventStore
  import opened Words

  const FLUSH_SIZE: nat := 100

  /** What a line decodes to: a session_meta, a line of any other type that carries an
      event under its dedup key, or nothing. */
  datatype Item = NoEvent | Meta(id: string, ts: int) | Entry(key: string, ts: int)

  datatype Line = Line(raw: string, item: Item)

  /** The hash a uuid is made with is taken to be its input. */
  function Uuid(session: string, key: string): string {
    session + "|" + key
  }

  const START_KEY: string := "session_start"

  datatype Pass = Pass(session: string, lastSeq: int, started: bool, events: seq<Event>)

  function Bump(lastSeq: int, ts: int): int {
    if ts <= lastSeq then Wrap64(lastSeq + 1) else ts
  }

  function SessionAfter(session: string, line: Line): string {
    if line.item.Meta? && line.item.id != "" then line.item.id else session
  }

  /** FromNative for one line, given the session it belongs to. A session_meta names
      its own. */
  function EventOf(session: string, line: Line): Option<Event> {
    match line.item
    case NoEvent => None
    case Meta(id, ts) => if id == "" then None else Some(Event(id, Uuid(id, START_KEY), ts, true, line.raw))
    case Entry(key, ts) => if session == "" then None else Some(Event(session, Uuid(session, key), ts, false, line.raw))
  }

  function Feed(p: Pass, line: Line): Pass {
    var session := SessionAfter(p.session, line);
    match EventOf(session, line)
    case None => p.(session := session)
    case Some(e) =>
      var n := Bump(p.lastSeq, e.seqNo);
      Pass(session, n, p.started || e.start, p.events + [e.(seqNo := n)])
  }

  /** The events of a file, in file order, with the sequence numbers they are given. */
  function Scan(fromName: string, lines: seq<Line>): Pass
    decreases |lines|
  {
    if lines == [] then Pass(fromName, 0, false, [])
    else Feed(Scan(fromName, lines[..|lines| - 1]), lines[|lines| - 1])
  }

  function StartOf(session: string, firstSeq: int): Event {
    Event(session, Uuid(session, START_KEY), Wrap64(firstSeq - 1), true, "")
  }

  function Flushed(n: nat): nat {
    n - n % FLUSH_SIZE
  }

  /** What goes to the store: the events, and for a file without a session_meta a start
      of our own ahead of the last batch — unless that batch is empty. */
  function Submitted(p: Pass): seq<Event> {
    var n := Flushed(|p.events|);
    if !p.started && p.session != "" && n < |p.events|
    then p.events[..n] + [StartOf(p.session, p.events[n].seqNo)] + p.events[n..]
    else p.events
  }

  /** The store after the events were ingested in batches, each under the session of
      its last event. */
  function Deliver(db: Db, events: seq<Event>): Db
    decreases |events|
  {
    if events == [] then db
    else
      var n := Flushed(|events| - 1);
      AfterBatch(Deliver(db, events[..n]), events[|events| - 1].session, events[n..])
  }

  // --- the loop ---

  ghost predicate LastIsCurrent(p: Pass) {
    p.events != [] ==> p.events[|p.events| - 1].session == p.session && p.session != ""
  }

  lemma {:induction false} ScanLast(fromName: string, lines: seq<Line>)
    ensures LastIsCurrent(Scan(fromName, lines))
    decreases |lines|
  {
    if lines != [] {
      ScanLast(fromName, lines[..|lines| - 1]);
    }
  }

  lemma {:induction false} ScanStep(fromName: string, lines: seq<Line>, i: nat)
    requires i < |lines|
    ensures Scan(fromName, lines[..i + 1]) == Feed(Scan(fromName, lines[..i]), lines[i])
  {
    assert lines[..i + 1][..i] == lines[..i];
  }

  lemma {:induction false} FlushedIs(n: nat, flushed: nat)
    requires flushed % FLUSH_SIZE == 0 && flushed <= n < flushed + FLUSH_SIZE
    ensures Flushed(n) == flushed
  {
  }

  /** The loop's variables: the batch holds what has not been flushed. */
  ghost predicate Midway(p: Pass, session: string, lastSeq: int, started: bool, batch: seq<Event>, flushed: nat) {
    && p.session == session && p.lastSeq == lastSeq && p.started == started
    && flushed % FLUSH_SIZE == 0 && flushed <= |p.events|
    && batch == p.events[flushed..]
  }

  lemma {:induction false} NextBoundary(flushed: nat, n: nat)
    requires flushed % FLUSH_SIZE == 0 && n == flushed + FLUSH_SIZE
    ensures n % FLUSH_SIZE == 0
  {
  }

  lemma {:induction false} DeliverLast(db: Db, events: seq<Event>, n: nat)
    requires events != [] && n == Flushed(|events| - 1)
    ensures Deliver(db, events) == AfterBatch(Deliver(db, events[..n]), events[|events| - 1].session, events[n..])
  {
  }

  lemma {:induction false} DeliverBatch(db: Db, events: seq<Event>, flushed: nat)
    requires flushed % FLUSH_SIZE == 0 && flushed < |events| <= flushed + FLUSH_SIZE
    ensures Deliver(db, events) == AfterBatch(Deliver(db, events[..flushed]), events[|events| - 1].session, events[flushed..])
  {
    FlushedIs(|events| - 1, flushed);
    DeliverLast(db, events, flushed);
  }

  lemma {:induction false} Captured(p: Pass, line: Line, e: Event, batch: seq<Event>, flushed: nat)
    requires Midway(p, p.session, p.lastSeq, p.started, batch, flushed)
    requires var session := SessionAfter(p.session, line);
             EventOf(session, line).Some? && e ==
                 EventOf(session, line).value.(seqNo := Bump(p.lastSeq, EventOf(session, line).value.seqNo))
    ensures var q := Feed(p, line);
            && Midway(q, SessionAfter(p.session, line), e.seqNo, p.started || e.start, batch + [e], flushed)
            && q.events[..flushed] == p.events[..flushed] && |q.events| == |p.events| + 1
            && q.events[|q.events| - 1] == e && q.events[..|q.events|] == q.events
  {
  }

  lemma {:induction false} NotCaptured(p: Pass, line: Line)
    requires EventOf(SessionAfter(p.session, line), line).None?
    ensures Feed(p, line) == p && SessionAfter(p.session, line) == p.session
  {
  }

  /** A full batch goes to the store and leaves an empty one. */
  lemma {:induction false} BatchFull(db: Db, p: Pass, lastSeq: int, started: bool, batch: seq<Event>, flushed: nat)
    requires LastIsCurrent(p) && Midway(p, p.session, lastSeq, started, batch, flushed) && |batch| == FLUSH_SIZE
    ensures p.session != ""
    ensures Deliver(db, p.events[..|p.events|]) == AfterBatch(Deliver(db, p.events[..flushed]), p.session, batch)
    ensures Midway(p, p.session, lastSeq, started, [], |p.events|)
  {
    NextBoundary(flushed, |p.events|);
    assert p.events[..|p.events|] == p.events;
    DeliverBatch(db, p.events, flushed);
  }

  /** Between lines: the batch is what has been captured and not yet handed over. */
  ghost predicate Reading(db: Db, p: Pass, flushed: nat, now: Db) {
    LastIsCurrent(p) && flushed <= |p.events| && now == Deliver(db, p.events[..flushed])
  }

  lemma {:induction false} ReadingOn(db: Db, p: Pass, q: Pass, flushed: nat, now: Db)
    requires Reading(db, p, flushed, now) && LastIsCurrent(q)
    requires flushed <= |q.events| && q.events[..flushed] == p.events[..flushed]
    ensures Reading(db, q, flushed, now)
  {
  }

  lemma {:induction false} Handed(db: Db, p: Pass, lastSeq: int, started: bool, batch: seq<Event>, flushed: nat, now: Db)
    requires Reading(db, p, flushed, now) && Midway(p, p.session, lastSeq, started, batch, flushed) && |batch| == FLUSH_SIZE
    ensures p.session != "" && Reading(db, p, |p.events|, AfterBatch(now, p.session, batch))
    ensures Midway(p, p.session, lastSeq, started, [], |p.events|)
  {
    BatchFull(db, p, lastSeq, started, batch, flushed);
  }

  /** One line of the file. */
  method TakeLine(store: Store, line: Line, session: string, lastSeq: int, started: bool, batch: seq<Event>,
                  ghost db: Db, ghost p: Pass, ghost flushed: nat)
    returns (session': string, lastSeq': int, started': bool, batch': seq<Event>, ghost flushed': nat)
    requires Midway(p, session, lastSeq, started, batch, flushed) && |batch| < FLUSH_SIZE
    requires Reading(db, p, flushed, store.State()) && LastIsCurrent(Feed(p, line))
    modifies store
    ensures Midway(Feed(p, line), session', lastSeq', started', batch', flushed') && |batch'| < FLUSH_SIZE
    ensures Reading(db, Feed(p, line), flushed', store.State())
  {
    session', lastSeq', started', batch', flushed' := session, lastSeq, started, batch, flushed;
    if line.item.Meta? && line.item.id != "" {
      session' := line.item.id;
    }
    var event := EventOf(session', line);
    if event.None? {
      NotCaptured(p, line);
      return;
    }
    var e := event.value;
    if e.start {
      started' := true;
    }
    if e.seqNo <= lastSeq {
      e := e.(seqNo := Wrap64(lastSeq + 1));
    }
    Captured(p, line, e, batch, flushed);
    ReadingOn(db, p, Feed(p, line), flushed, store.State());
    lastSeq' := e.seqNo;
    batch' := batch + [e];
    if |batch'| >= FLUSH_SIZE {
      Handed(db, Feed(p, line), lastSeq', started', batch', flushed, store.State());
      store.IngestBatch(session', batch');
      batch' := [];
      flushed' := |Feed(p, line).events|;
    }
  }

  /** ingestFile */
  method IngestFile(store: Store, fromName: string, lines: seq<Line>)
    modifies store
    ensures store.State() == Deliver(old(store.State()), Submitted(Scan(fromName, lines)))
  {
    var session, started, lastSeq := fromName, false, 0;
    var batch: seq<Event> := [];
    ghost var db := store.State();
    ghost var flushed: nat := 0;
    var i := 0;
    assert lines[..0] == [] && Scan(fromName, []).events[..0] == [];
    while i < |lines|
      invariant 0 <= i <= |lines|
      invariant Midway(Scan(fromName, lines[..i]), session, lastSeq, started, batch, flushed) && |batch| < FLUSH_SIZE
      invariant Reading(db, Scan(fromName, lines[..i]), flushed, store.State())
    {
      ScanStep(fromName, lines, i);
      ScanLast(fromName, lines[..i + 1]);
      session, lastSeq, started, batch, flushed :=
        TakeLine(store, lines[i], session, lastSeq, started, batch, db, Scan(fromName, lines[..i]), flushed);
      i := i + 1;
    }
    assert lines[..i] == lines;
    FinalBatch(db, Scan(fromName, lines), flushed, batch);
    if !started && session != "" && |batch| > 0 {
      batch := [StartOf(session, batch[0].seqNo)] + batch;
    }
    if session != "" && |batch| > 0 {
      store.IngestBatch(session, batch);
    }
  }

  lemma {:induction false} FinalBatch(db: Db, p: Pass, flushed: nat, batch: seq<Event>)
    requires LastIsCurrent(p) && Midway(p, p.session, p.lastSeq, p.started, batch, flushed) && |batch| < FLUSH_SIZE
    ensures var last := if !p.started && p.session != "" && |batch| > 0 then [StartOf(p.session, batch[0].seqNo)] + batch else batch;
            var delivered := Deliver(db, p.events[..flushed]);
            Deliver(db, Submitted(p)) ==
            if p.session != "" && |batch| > 0 then AfterBatch(delivered, p.session, last) else delivered
  {
    var last := if !p.started && p.session != "" && |batch| > 0 then [StartOf(p.session, batch[0].seqNo)] + batch else batch;
    var all := p.events[..flushed] + last;
    SubmittedIs(p, flushed, batch);
    JoinThenSplit(p.events[..flushed], last);
    if |batch| > 0 {
      DeliverBatch(db, all, flushed);
    }
  }

  lemma {:induction false} JoinThenSplit(a: seq<Event>, b: seq<Event>)
    ensures (a + b)[..|a|] == a && (a + b)[|a|..] == b && (b == [] ==> a + b == a)
    ensures b != [] ==> (a + b)[|a + b| - 1] == b[|b| - 1]
  {
  }

  lemma {:induction false} SubmittedIs(p: Pass, flushed: nat, batch: seq<Event>)
    requires Midway(p, p.session, p.lastSeq, p.started, batch, flushed) && |batch| < FLUSH_SIZE
    ensures Submitted(p) == p.events[..flushed] +
                            if !p.started && p.session != "" && |batch| > 0 then [StartOf(p.session, batch[0].seqNo)] + batch else batch
  {
    FlushedIs(|p.events|, flushed);
    assert p.events == p.events[..flushed] + batch;
  }
}
