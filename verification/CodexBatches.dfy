/** What of a Codex file's events the store takes. Batches go in whole or not at all: one
    that names a session neither known nor its own last event's is refused. */
module CodexBatches {
  import opened Wrappers
  import opened EventStore
  import opened Codex
  import opened CodexReplay
  import opened Sequences

  /** The sessions there are once these events have been delivered: each batch creates
      that of its last event, refused or not. */
  function KnownAfter(sessions: set<string>, events: seq<Event>): set<string>
    decreases |events|
  {
    if events == [] then sessions
    else KnownAfter(sessions, events[..Flushed(|events| - 1)]) + {events[|events| - 1].session}
  }

  /** A batch with an event of a session that is neither known nor its last event's. */
  predicate Refused(known: set<string>, batch: seq<Event>)
    requires batch != []
  {
    exists i :: 0 <= i < |batch| && batch[i].session !in known && batch[i].session != batch[|batch| - 1].session
  }

  /** The batches that are not refused, end to end. */
  function Admitted(sessions: set<string>, events: seq<Event>): seq<Event>
    decreases |events|
  {
    if events == [] then []
    else
      var n := Flushed(|events| - 1);
      Admitted(sessions, events[..n]) + if Refused(KnownAfter(sessions, events[..n]), events[n..]) then [] else events[n..]
  }

  ghost predicate NoneRefused(sessions: set<string>, events: seq<Event>)
    decreases |events|
  {
    events != [] ==>
      var n := Flushed(|events| - 1);
      NoneRefused(sessions, events[..n]) && !Refused(KnownAfter(sessions, events[..n]), events[n..])
  }

  /** The store gets the admitted batches and nothing else, for every file. */
  lemma {:induction false} StoreGetsAdmitted(db: Db, events: seq<Event>)
    ensures Deliver(db, events) == Db(KnownAfter(db.sessions, events), InsertAll(db.rows, Admitted(db.sessions, events)))
    decreases |events|
  {
    if events != [] {
      var n := Flushed(|events| - 1);
      var before, batch := events[..n], events[n..];
      StoreGetsAdmitted(db, before);
      DeliverLast(db, events, n);
      assert batch[|batch| - 1] == events[|events| - 1];
      InsertAllConcat(db.rows, Admitted(db.sessions, before), batch);
      JoinNone(Admitted(db.sessions, before), []);
      BatchTaken(Deliver(db, before), batch);
    }
  }

  lemma {:induction false} BatchTaken(db: Db, batch: seq<Event>)
    requires batch != []
    ensures AfterBatch(db, batch[|batch| - 1].session, batch) ==
            Db(db.sessions + {batch[|batch| - 1].session},
               if Refused(db.sessions, batch) then db.rows else InsertAll(db.rows, batch))
  {
    var sessions := db.sessions + {batch[|batch| - 1].session};
    if Refused(db.sessions, batch) {
      var i :| 0 <= i < |batch| && batch[i].session !in db.sessions && batch[i].session != batch[|batch| - 1].session;
      assert batch[i].session !in sessions;
    }
  }

  lemma {:induction false} AdmittedBound(sessions: set<string>, events: seq<Event>)
    ensures |Admitted(sessions, events)| <= |events|
    ensures NoneRefused(sessions, events) ==> Admitted(sessions, events) == events
    ensures !NoneRefused(sessions, events) ==> |Admitted(sessions, events)| < |events|
    decreases |events|
  {
    if events != [] {
      var n := Flushed(|events| - 1);
      AdmittedBound(sessions, events[..n]);
      CutRejoins(events, n);
    }
  }

  /** Of events none of which is there yet, or twice, all arrive exactly when no batch is
      refused. */
  lemma {:induction false} AllArriveIff(db: Db, events: seq<Event>)
    requires AllNew(db.rows, events)
    ensures Deliver(db, events).rows == db.rows + events <==> NoneRefused(db.sessions, events)
  {
    StoreGetsAdmitted(db, events);
    AdmittedBound(db.sessions, events);
    NewAreAppended(db.rows, events);
    InsertAllGrows(db.rows, Admitted(db.sessions, events));
  }

  lemma {:induction false} InsertAllGrows(rows: seq<Event>, events: seq<Event>)
    ensures |InsertAll(rows, events)| <= |rows| + |events|
    decreases |events|
  {
    if events != [] {
      InsertAllGrows(rows, events[..|events| - 1]);
    }
  }

  /** The smallest file that loses everything: two session_meta lines of two sessions. */
  lemma {:induction false} TwoSessionsLost(a: string, b: string, r1: string, r2: string)
    requires a != b && a != "" && b != ""
    ensures var p := Scan("", [Line(r1, Meta(a, 1)), Line(r2, Meta(b, 2))]);
            HasStart(Submitted(p)) && Deliver(Db({}, []), Submitted(p)).rows == []
  {
    var l1, l2 := Line(r1, Meta(a, 1)), Line(r2, Meta(b, 2));
    assert [l1, l2][..1] == [l1] && [l1][..0] == [];
    assert Scan("", []) == Pass("", 0, false, []);
    assert Scan("", [l1]) == Feed(Scan("", []), l1);
    assert Feed(Pass("", 0, false, []), l1) == Pass(a, 1, true, [] + [Event(a, Uuid(a, START_KEY), 1, true, r1)]);
    var p := Scan("", [l1, l2]);
    assert p == Feed(Scan("", [l1]), l2);
    var events := [Event(a, Uuid(a, START_KEY), 1, true, r1), Event(b, Uuid(b, START_KEY), 2, true, r2)];
    assert p == Pass(b, 2, true, events);
    assert Submitted(p) == events && events[0].start;
    StoreGetsAdmitted(Db({}, []), events);
    assert events[..0] == [] && events[0..] == events && KnownAfter({}, []) == {};
    assert Refused({}, events) by { assert events[0].session !in {} && events[0].session != events[1].session; }
  }

  // --- the start of a file of one session ---

  /** No line but a session_meta has its dedup key: every other key names its line type. */
  ghost predicate KeysApart(lines: seq<Line>) {
    forall i {:trigger lines[i]} :: 0 <= i < |lines| && lines[i].item.Entry? ==> lines[i].item.key != START_KEY
  }

  ghost predicate StartsApart(events: seq<Event>) {
    forall i {:trigger events[i]} :: 0 <= i < |events| ==> (events[i].start <==> events[i].uuid == Uuid(events[i].session, START_KEY))
  }

  lemma {:induction false} FeedApart(p: Pass, line: Line)
    requires StartsApart(p.events) && (line.item.Entry? ==> line.item.key != START_KEY)
    ensures StartsApart(Feed(p, line).events)
  {
    var session := SessionAfter(p.session, line);
    if line.item.Entry? && session != "" && Uuid(session, line.item.key) == Uuid(session, START_KEY) {
      UuidIsInjective(session, line.item.key, START_KEY);
    }
  }

  lemma {:induction false} ScanApart(fromName: string, lines: seq<Line>, n: nat)
    requires KeysApart(lines) && n <= |lines|
    ensures StartsApart(Scan(fromName, lines[..n]).events)
  {
    if n == 0 {
      TakeNone(lines);
    } else {
      ScanApart(fromName, lines, n - 1);
      ScanStep(fromName, lines, n - 1);
      FeedApart(Scan(fromName, lines[..n - 1]), lines[n - 1]);
    }
  }

  lemma {:induction false} SubmittedAre(p: Pass, session: string)
    requires LastIsCurrent(p) && p.events != [] && AllOf(p.events, session) && StartsApart(p.events)
    ensures Submitted(p) != [] && AllOf(Submitted(p), session) && StartsApart(Submitted(p))
  {
    var n := Flushed(|p.events|);
    assert p.events[|p.events| - 1].session == session;
  }

  /** The start of a session is stored after a delivery exactly when it was, or is among
      what was delivered. */
  lemma {:induction false} StartStored(rows: seq<Event>, events: seq<Event>, session: string)
    requires AllOf(events, session) && StartsApart(events)
    ensures Known(InsertAll(rows, events), session, START_KEY) <==> Known(rows, session, START_KEY) || HasStart(events)
    decreases |events|
  {
    if events != [] {
      var init, last := events[..|events| - 1], events[|events| - 1];
      StartStored(rows, init, session);
      KnownStep(InsertAll(rows, init), last, session, START_KEY);
      StartLast(init, last, events);
      KnownKey(InsertAll(rows, init), last, session);
    }
  }

  lemma {:induction false} StartLast(init: seq<Event>, last: Event, events: seq<Event>)
    requires events != [] && init == events[..|events| - 1] && last == events[|events| - 1]
    ensures HasStart(events) <==> HasStart(init) || last.start
  {
    if HasStart(init) {
      var i :| 0 <= i < |init| && init[i].start;
      assert events[i].start;
    }
  }

  lemma {:induction false} KnownKey(rows: seq<Event>, e: Event, session: string)
    requires e.session == session
    ensures e.uuid == Uuid(session, START_KEY) && HasKey(rows, e) ==> Known(rows, session, START_KEY)
  {
    if e.uuid == Uuid(session, START_KEY) && HasKey(rows, e) {
      var i :| 0 <= i < |rows| && SameKey(rows[i], e);
      assert rows[i].session == session && rows[i].uuid == Uuid(session, START_KEY);
    }
  }

  /** For a file whose events are of one session the store has that session's start
      afterwards exactly when it had it before, or the file names the session, or its
      events do not fill the last batch to the brim. */
  lemma {:induction false} StartArrives(db: Db, fromName: string, lines: seq<Line>, session: string)
    requires Scan(fromName, lines).events != [] && AllOf(Scan(fromName, lines).events, session) && KeysApart(lines)
    ensures Known(Deliver(db, Submitted(Scan(fromName, lines))).rows, session, START_KEY) <==>
            || Known(db.rows, session, START_KEY)
            || (exists i :: 0 <= i < |lines| && NamesSession(lines[i]))
            || |Scan(fromName, lines).events| % 100 != 0
  {
    var p := Scan(fromName, lines);
    TakeAll(lines);
    ScanApart(fromName, lines, |lines|);
    ScanLast(fromName, lines);
    SubmittedAre(p, session);
    DeliverOne(db, Submitted(p), session);
    StartStored(db.rows, Submitted(p), session);
    StartSubmitted(fromName, lines);
  }
}
