/** The same by way of the event store: captured events inserted, paged back and imported.
    A tool result has the sequence number of the next part, so equal numbers are common;
    what matters is that none sit on both sides of a page boundary. */
module OpencodeStore {
  import opened Opencode
  import opened OpencodeImport
  import opened OpencodeReplay
  import EventStore
  import Sorting

  /** How an event is written to its payload column and read back. */
  datatype Codec = Codec(pack: Event -> string, unpack: string -> Event) {
    ghost predicate Good() {
      forall e {:trigger pack(e)} :: unpack(pack(e)) == e
    }

    function Row(session: string, e: Event): EventStore.Event {
      EventStore.Event(session, e.uuid, e.seqNo, e.kind.SessionStart?, pack(e))
    }

    function Rows(session: string, events: seq<Event>): (r: seq<EventStore.Event>)
      ensures |r| == |events| && forall i :: 0 <= i < |r| ==> r[i] == Row(session, events[i])
    {
      seq(|events|, i requires 0 <= i < |events| => Row(session, events[i]))
    }

    function Unpacked(rows: seq<EventStore.Event>): (r: seq<Event>)
      ensures |r| == |rows| && forall i :: 0 <= i < |r| ==> r[i] == unpack(rows[i].payload)
    {
      seq(|rows|, i requires 0 <= i < |rows| => unpack(rows[i].payload))
    }

    ghost predicate AllRows(session: string, rows: seq<EventStore.Event>) {
      forall r :: r in rows ==> r == Row(session, unpack(r.payload))
    }

    lemma {:induction false} UnpackCounts(rows: seq<EventStore.Event>, session: string, e: Event)
      requires Good() && AllRows(session, rows)
      ensures multiset(Unpacked(rows))[e] == multiset(rows)[Row(session, e)]
      decreases |rows|
    {
      if rows != [] {
        var init, last := rows[..|rows| - 1], rows[|rows| - 1];
        assert last in rows && forall r :: r in init ==> r in rows;
        UnpackCounts(init, session, e);
        UnpackedLast(rows);
        RowIsItsEvent(session, last, e);
      }
    }

    lemma {:induction false} UnpackedLast(rows: seq<EventStore.Event>)
      requires rows != []
      ensures var init, last := rows[..|rows| - 1], rows[|rows| - 1];
              rows == init + [last] && Unpacked(rows) == Unpacked(init) + [unpack(last.payload)]
    {
    }

    lemma {:induction false} RowIsItsEvent(session: string, r: EventStore.Event, e: Event)
      requires Good() && r == Row(session, unpack(r.payload))
      ensures r == Row(session, e) <==> unpack(r.payload) == e
    {
      assert unpack(pack(e)) == e;
    }

    lemma {:induction false} RowsCount(events: seq<Event>, session: string, e: Event)
      requires Good()
      ensures multiset(Rows(session, events))[Row(session, e)] == multiset(events)[e]
      decreases |events|
    {
      if events != [] {
        var init, last := events[..|events| - 1], events[|events| - 1];
        RowsCount(init, session, e);
        assert events == init + [last] && Rows(session, events) == Rows(session, init) + [Row(session, last)];
        assert Row(session, last) == Row(session, e) ==> unpack(pack(last)) == unpack(pack(e));
      }
    }

    /** Whatever order the rows come back in, they are the events. */
    lemma {:induction false} SameEvents(events: seq<Event>, session: string, rows: seq<EventStore.Event>)
      requires Good() && multiset(rows) == multiset(Rows(session, events))
      ensures multiset(Unpacked(rows)) == multiset(events)
    {
      Sorting.SameMembers(rows, Rows(session, events));
      forall r | r in rows ensures r == Row(session, unpack(r.payload)) {
        var i :| 0 <= i < |events| && Rows(session, events)[i] == r;
        assert unpack(pack(events[i])) == events[i];
      }
      forall e ensures multiset(Unpacked(rows))[e] == multiset(events)[e] {
        UnpackCounts(rows, session, e);
        RowsCount(events, session, e);
      }
    }
  }

  lemma {:induction false} AllOfSession(rows: seq<EventStore.Event>, session: string)
    requires forall i :: 0 <= i < |rows| ==> rows[i].session == session
    ensures EventStore.SessionRows(rows, session) == rows
    decreases |rows|
  {
    if rows != [] {
      AllOfSession(rows[..|rows| - 1], session);
    }
  }

  ghost predicate DistinctUuids(events: seq<Event>) {
    forall i, j :: 0 <= i < j < |events| ==> events[i].uuid != events[j].uuid
  }

  lemma {:induction false} FreshBatch(rows: seq<EventStore.Event>, session: string)
    requires EventStore.AllNew([], rows) && forall i :: 0 <= i < |rows| ==> rows[i].session == session
    ensures EventStore.AfterBatch(EventStore.Db({}, []), session, rows).rows == rows
  {
    EventStore.NewAreAppended([], rows);
    assert [] + rows == rows;
  }

  lemma {:induction false} RowsAreNew(rows: seq<EventStore.Event>)
    requires forall i, j :: 0 <= i < j < |rows| ==> rows[i].uuid != rows[j].uuid
    ensures EventStore.AllNew([], rows)
  {
  }

  /** Under their own uuids all events go in. */
  lemma {:induction false} AllInserted(c: Codec, session: string, events: seq<Event>)
    requires DistinctUuids(events)
    ensures EventStore.AfterBatch(EventStore.Db({}, []), session, c.Rows(session, events)).rows == c.Rows(session, events)
    ensures EventStore.SessionRows(c.Rows(session, events), session) == c.Rows(session, events)
  {
    var rows := c.Rows(session, events);
    assert forall i :: 0 <= i < |rows| ==> rows[i].session == session && rows[i].uuid == events[i].uuid;
    hide EventStore.AllNew, EventStore.AfterBatch, EventStore.SessionRows;
    RowsAreNew(rows);
    FreshBatch(rows, session);
    AllOfSession(rows, session);
  }

  lemma {:induction false} LoadedConserves(c: Codec, ms: seq<Message>, now: int, extra: seq<Event>,
          events: seq<Event>, session: string, loaded: seq<EventStore.Event>)
    requires c.Good() && GoodMessages(ms) && SilentEvents(extra) && Shuffled(ms, now, extra, events)
    requires multiset(loaded) == multiset(c.Rows(session, events))
    ensures var out := Pruned(Built(Sorting.Sort(EventBefore, c.Unpacked(loaded)))); HoldsEach(ms, out) && HoldsInOrder(ms, out)
  {
    c.SameEvents(events, session, loaded);
    ImportConserves(ms, now, extra, c.Unpacked(loaded));
  }

  /** Inserted into an empty table under their own uuids, paged back as the reader does, and
      imported: each message is there once with all its parts, if every sequence number is
      positive and no two equal ones straddle a page boundary. */
  method ImportFromStore(c: Codec, ms: seq<Message>, now: int, extra: seq<Event>, events: seq<Event>, session: string)
    returns (out: seq<ImportMessage>)
    requires c.Good() && session != "" && DistinctUuids(events)
    requires GoodMessages(ms) && SilentEvents(extra) && Shuffled(ms, now, extra, events)
    ensures var ordered := EventStore.Ordered(c.Rows(session, events), session);
            EventStore.AllPositive(ordered) && !EventStore.BoundaryTie(ordered) ==> HoldsEach(ms, out) && HoldsInOrder(ms, out)
  {
    var store := new EventStore.Store();
    var rows := c.Rows(session, events);
    AllInserted(c, session, events);
    store.IngestBatch(session, rows);
    assert store.rows == rows;
    var loaded := store.LoadAll(session);
    out := BuildImport(c.Unpacked(loaded));
    hide EventStore.AfterBatch, EventStore.AllPositive, EventStore.BoundaryTie, Shuffled, GoodMessages, HoldsEach,
        HoldsInOrder, Pruned, Built;
    if loaded == EventStore.Ordered(rows, session) {
      LoadedConserves(c, ms, now, extra, events, session, loaded);
    }
  }
}
