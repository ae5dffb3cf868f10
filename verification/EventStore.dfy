/** The events table: inserts ignore a (session, uuid) already there, reads page by
    an exclusive sequence cursor, and a reader collects pages until one is short. */
module EventStore {
  import Sorting

  const LOAD_PAGE: nat := 1000

  /** `payload` is the native line the event was captured from, "" if there is none. */
  datatype Event = Event(session: string, uuid: string, seqNo: int, start: bool, payload: string)

  datatype Db = Db(sessions: set<string>, rows: seq<Event>)

  predicate SameKey(a: Event, b: Event) {
    a.session == b.session && a.uuid == b.uuid
  }

  predicate HasKey(rows: seq<Event>, e: Event) {
    exists i :: 0 <= i < |rows| && SameKey(rows[i], e)
  }

  function InsertOrIgnore(rows: seq<Event>, e: Event): seq<Event> {
    if HasKey(rows, e) then rows else rows + [e]
  }

  function InsertAll(rows: seq<Event>, events: seq<Event>): seq<Event>
    decreases |events|
  {
    if events == [] then rows
    else InsertOrIgnore(InsertAll(rows, events[..|events| - 1]), events[|events| - 1])
  }

  /** The batch names its session; an event of a session that is not there fails the
      whole transaction. */
  function AfterBatch(db: Db, session: string, events: seq<Event>): Db {
    var sessions := db.sessions + {session};
    Db(sessions, if forall i :: 0 <= i < |events| ==> events[i].session in sessions then InsertAll(db.rows, events) else db.rows)
  }

  lemma {:induction false} InsertAllConcat(rows: seq<Event>, a: seq<Event>, b: seq<Event>)
    ensures InsertAll(rows, a + b) == InsertAll(InsertAll(rows, a), b)
    decreases |b|
  {
    if b == [] {
      assert a + b == a;
    } else {
      InsertAllConcat(rows, a, b[..|b| - 1]);
      assert (a + b)[..|a + b| - 1] == a + b[..|b| - 1];
    }
  }

  lemma {:induction false} InsertAllKeeps(rows: seq<Event>, events: seq<Event>)
    ensures rows <= InsertAll(rows, events)
    ensures forall i :: 0 <= i < |events| ==> HasKey(InsertAll(rows, events), events[i])
    decreases |events|
  {
    if events != [] {
      var init, last := events[..|events| - 1], events[|events| - 1];
      InsertAllKeeps(rows, init);
      var before, after := InsertAll(rows, init), InsertAll(rows, events);
      forall i | 0 <= i < |events| ensures HasKey(after, events[i]) {
        if i < |init| {
          assert HasKey(before, init[i]);
          KeyStays(before, after, init[i]);
        } else if !HasKey(before, last) {
          assert after[|before|] == last;
        }
      }
    }
  }

  lemma {:induction false} KeyStays(rows: seq<Event>, longer: seq<Event>, e: Event)
    requires rows <= longer && HasKey(rows, e)
    ensures HasKey(longer, e)
  {
    var i :| 0 <= i < |rows| && SameKey(rows[i], e);
    assert longer[i] == rows[i];
  }

  lemma {:induction false} InsertKnown(rows: seq<Event>, events: seq<Event>)
    requires forall i :: 0 <= i < |events| ==> HasKey(rows, events[i])
    ensures InsertAll(rows, events) == rows
    decreases |events|
  {
    if events != [] {
      InsertKnown(rows, events[..|events| - 1]);
    }
  }

  /** Inserting the same events again changes nothing. */
  lemma {:induction false} InsertAgain(rows: seq<Event>, a: seq<Event>, b: seq<Event>)
    ensures InsertAll(InsertAll(rows, a), a + b) == InsertAll(rows, a + b)
  {
    InsertAllConcat(rows, a, b);
    InsertAllConcat(InsertAll(rows, a), a, b);
    InsertAllKeeps(rows, a);
    InsertKnown(InsertAll(rows, a), a);
  }

  /** No event is there already, or twice. */
  ghost predicate AllNew(rows: seq<Event>, events: seq<Event>) {
    && (forall i :: 0 <= i < |events| ==> !HasKey(rows, events[i]))
    && (forall i, j :: 0 <= i < j < |events| ==> !SameKey(events[i], events[j]))
  }

  lemma {:induction false} NewAreAppended(rows: seq<Event>, events: seq<Event>)
    requires AllNew(rows, events)
    ensures InsertAll(rows, events) == rows + events
    decreases |events|
  {
    if events == [] {
      assert rows + [] == rows;
    } else {
      var init, last := events[..|events| - 1], events[|events| - 1];
      NewAreAppended(rows, init);
      forall i | 0 <= i < |rows + init| ensures !SameKey((rows + init)[i], last) {
        assert i < |rows| ==> !SameKey(rows[i], last);
        assert i >= |rows| ==> (rows + init)[i] == events[i - |rows|];
      }
      assert rows + events == (rows + init) + [last];
    }
  }

  predicate SeqBefore(a: Event, b: Event) {
    a.seqNo < b.seqNo
  }

  function SessionRows(rows: seq<Event>, session: string): seq<Event>
    decreases |rows|
  {
    if rows == [] then []
    else
      var last := rows[|rows| - 1];
      SessionRows(rows[..|rows| - 1], session) + if last.session == session then [last] else []
  }

  function After(rows: seq<Event>, since: int): seq<Event> {
    if rows == [] then []
    else (if rows[0].seqNo > since then [rows[0]] else []) + After(rows[1..], since)
  }

  /** A session's events by sequence number, ties in insertion order. */
  function Ordered(rows: seq<Event>, session: string): seq<Event> {
    Sorting.Sort(SeqBefore, SessionRows(rows, session))
  }

  function Take(rows: seq<Event>, limit: nat): seq<Event> {
    if limit < |rows| then rows[..limit] else rows
  }

  lemma {:induction false} OrderedIsInOrder(rows: seq<Event>, session: string)
    ensures NonDecreasing(Ordered(rows, session))
  {
    Sorting.SortIsInOrder(SeqBefore, SessionRows(rows, session));
    var r := Ordered(rows, session);
    forall i, j | 0 <= i < j < |r| ensures r[i].seqNo <= r[j].seqNo {
      assert !SeqBefore(r[j], r[i]);
    }
  }

  lemma {:induction false} AllAfter(rows: seq<Event>, since: int)
    requires forall i :: 0 <= i < |rows| ==> rows[i].seqNo > since
    ensures After(rows, since) == rows
  {
    if rows != [] {
      AllAfter(rows[1..], since);
    }
  }

  /** In sequence order, what lies after a cursor is a suffix. */
  lemma {:induction false} AfterIsSuffix(rows: seq<Event>, since: int, pos: nat)
    requires NonDecreasing(rows) && AtCursor(rows, since, pos)
    ensures After(rows, since) == rows[pos..]
  {
    if pos == 0 {
      AllAfter(rows, since);
      assert rows[0..] == rows;
    } else {
      AfterIsSuffix(rows[1..], since, pos - 1);
      assert rows[1..][pos - 1..] == rows[pos..];
    }
  }

  lemma {:induction false} Cut(rows: seq<Event>, since: int, from: nat) returns (pos: nat)
    requires from <= |rows| && forall i :: 0 <= i < from ==> rows[i].seqNo <= since
    ensures from <= pos && AtCursor(rows, since, pos)
    decreases |rows| - from
  {
    if from < |rows| && rows[from].seqNo <= since {
      pos := Cut(rows, since, from + 1);
    } else {
      pos := from;
    }
  }

  predicate Qualifies(rows: seq<Event>, session: string, since: int, e: Event) {
    e in rows && e.session == session && e.seqNo > since
  }

  /** A page: rows of the session after the cursor, none more often than it is stored, by
      sequence number; one that qualifies is left out only when the page is full and
      nothing on it comes later. */
  ghost predicate IsListed(rows: seq<Event>, session: string, since: int, limit: nat, page: seq<Event>) {
    && |page| <= limit && NonDecreasing(page) && multiset(page) <= multiset(rows)
    && (forall e :: e in page ==> Qualifies(rows, session, since, e))
    && (forall e :: Qualifies(rows, session, since, e) && e !in page ==>
          |page| == limit && forall p :: p in page ==> p.seqNo <= e.seqNo)
  }

  lemma {:induction false} SessionRowsAre(rows: seq<Event>, session: string)
    ensures multiset(SessionRows(rows, session)) <= multiset(rows)
    ensures forall e :: e in SessionRows(rows, session) <==> e in rows && e.session == session
    decreases |rows|
  {
    if rows != [] {
      var init, last := rows[..|rows| - 1], rows[|rows| - 1];
      SessionRowsAre(init, session);
      assert rows == init + [last];
    }
  }

  lemma {:induction false} OrderedAre(rows: seq<Event>, session: string)
    ensures multiset(Ordered(rows, session)) <= multiset(rows)
    ensures forall e :: e in Ordered(rows, session) <==> e in rows && e.session == session
  {
    SessionRowsAre(rows, session);
    Sorting.SortIsInOrder(SeqBefore, SessionRows(rows, session));
    Sorting.SameMembers(Ordered(rows, session), SessionRows(rows, session));
  }

  /** What a slice that starts at the cursor leaves out comes after it. */
  lemma {:induction false} LeftOut(ordered: seq<Event>, since: int, pos: nat, end: nat, e: Event)
    requires NonDecreasing(ordered) && AtCursor(ordered, since, pos) && pos <= end <= |ordered|
    requires e in ordered && e.seqNo > since && e !in ordered[pos..end]
    ensures end < |ordered| && forall p :: p in ordered[pos..end] ==> p.seqNo <= e.seqNo
  {
    var i :| 0 <= i < |ordered| && ordered[i] == e;
    assert end <= i;
    forall p | p in ordered[pos..end] ensures p.seqNo <= e.seqNo {
      var j :| 0 <= j < end - pos && ordered[pos..end][j] == p;
      assert ordered[pos + j] == p;
    }
  }

  lemma {:induction false} InSlice(ordered: seq<Event>, since: int, pos: nat, end: nat)
    requires NonDecreasing(ordered) && AtCursor(ordered, since, pos) && pos <= end <= |ordered|
    ensures NonDecreasing(ordered[pos..end]) && multiset(ordered[pos..end]) <= multiset(ordered)
    ensures forall e :: e in ordered[pos..end] ==> e in ordered && e.seqNo > since
  {
    assert ordered == ordered[..pos] + ordered[pos..end] + ordered[end..];
    forall e | e in ordered[pos..end] ensures e in ordered && e.seqNo > since {
      var j :| 0 <= j < end - pos && ordered[pos..end][j] == e;
      assert ordered[pos + j] == e;
      assert j > 0 ==> ordered[pos].seqNo <= ordered[pos + j].seqNo;
    }
  }

  lemma {:induction false} SliceIsListed(rows: seq<Event>, session: string, since: int, limit: nat,
          ordered: seq<Event>, pos: nat, end: nat)
    requires NonDecreasing(ordered) && AtCursor(ordered, since, pos)
    requires multiset(ordered) <= multiset(rows) && forall e :: e in ordered <==> e in rows && e.session == session
    requires pos <= end <= |ordered| && end - pos <= limit && (end < |ordered| ==> end - pos == limit)
    ensures IsListed(rows, session, since, limit, ordered[pos..end])
  {
    InSlice(ordered, since, pos, end);
    var page := ordered[pos..end];
    forall e | Qualifies(rows, session, since, e) && e !in page
      ensures |page| == limit && forall p :: p in page ==> p.seqNo <= e.seqNo
    {
      LeftOut(ordered, since, pos, end, e);
    }
  }

  lemma {:induction false} TakeIsSlice(rows: seq<Event>, pos: nat, limit: nat)
    requires pos <= |rows|
    ensures Take(rows[pos..], limit) == rows[pos..if limit < |rows| - pos then pos + limit else |rows|]
  {
  }

  lemma {:induction false} PageIsListed(rows: seq<Event>, session: string, since: int, limit: nat)
    ensures IsListed(rows, session, since, limit, Take(After(Ordered(rows, session), since), limit))
  {
    var ordered := Ordered(rows, session);
    OrderedIsInOrder(rows, session);
    OrderedAre(rows, session);
    var pos := Cut(ordered, since, 0);
    AfterIsSuffix(ordered, since, pos);
    var end := if limit < |ordered| - pos then pos + limit else |ordered|;
    SliceIsListed(rows, session, since, limit, ordered, pos, end);
    TakeIsSlice(ordered, pos, limit);
  }

  /** Two events with one sequence number on either side of a page boundary. */
  predicate TieAt(rows: seq<Event>, n: nat) {
    0 < n < |rows| && n % 1000 == 0 && rows[n - 1].seqNo == rows[n].seqNo
  }

  ghost predicate BoundaryTie(rows: seq<Event>) {
    exists n: nat :: TieAt(rows, n)
  }

  ghost predicate AllPositive(rows: seq<Event>) {
    forall i :: 0 <= i < |rows| ==> rows[i].seqNo > 0
  }

  /** The m-th event ties with the last one of a full page before it. */
  ghost predicate TiedOut(ordered: seq<Event>, all: seq<Event>, at: seq<nat>, m: nat)
    requires |at| == |all| && m < |ordered|
  {
    exists k: nat {:trigger PageEnd(k)} ::
      0 < PageEnd(k) <= |all| && at[PageEnd(k) - 1] < m && all[PageEnd(k) - 1].seqNo == ordered[m].seqNo
  }

  function PageEnd(k: nat): nat {
    1000 * k
  }

  /** Of the first `pos` events these, at these positions in order: those that have a
      positive number and are not tied out. */
  ghost predicate Found(ordered: seq<Event>, pos: nat, all: seq<Event>, at: seq<nat>) {
    && |at| == |all| && pos <= |ordered|
    && Positions(ordered, pos, all, at)
    && (forall m: nat :: m < pos ==> FoundIff(ordered, all, at, m))
  }

  ghost predicate FoundIff(ordered: seq<Event>, all: seq<Event>, at: seq<nat>, m: nat)
    requires |at| == |all| && m < |ordered|
  {
    m in at <==> ordered[m].seqNo > 0 && !TiedOut(ordered, all, at, m)
  }

  ghost predicate Positions(ordered: seq<Event>, pos: nat, all: seq<Event>, at: seq<nat>)
    requires pos <= |ordered|
  {
    && |at| == |all|
    && (forall i, j :: 0 <= i < j < |at| ==> at[i] < at[j])
    && (forall j :: 0 <= j < |at| ==> at[j] < pos && all[j] == ordered[at[j]])
  }

  class Store {
    var sessions: set<string>
    var rows: seq<Event>

    ghost function State(): Db
      reads this
    {
      Db(sessions, rows)
    }

    constructor ()
      ensures State() == Db({}, [])
    {
      sessions, rows := {}, [];
    }

    method Append(events: seq<Event>) returns (ok: bool)
      modifies this
      ensures sessions == old(sessions)
      ensures ok <==> forall i :: 0 <= i < |events| ==> events[i].session in sessions
      ensures rows == if ok then InsertAll(old(rows), events) else old(rows)
    {
      var updated := rows;
      var i := 0;
      while i < |events|
        invariant 0 <= i <= |events| && rows == old(rows) && sessions == old(sessions)
        invariant updated == InsertAll(old(rows), events[..i])
        invariant forall j :: 0 <= j < i ==> events[j].session in sessions
      {
        if events[i].session !in sessions {
          return false;
        }
        assert events[..i + 1][..i] == events[..i];
        updated := InsertOrIgnore(updated, events[i]);
        i := i + 1;
      }
      assert events[..i] == events;
      rows := updated;
      return true;
    }

    method IngestBatch(session: string, events: seq<Event>)
      requires session != ""
      modifies this
      ensures State() == if events == [] then old(State()) else AfterBatch(old(State()), session, events)
    {
      if |events| == 0 {
        return;
      }
      sessions := sessions + {session};
      var _ := Append(events);
    }

    /** The session's first events after the cursor; rows with one sequence number in
        insertion order. */
    method List(session: string, since: int, limit: int) returns (page: seq<Event>)
      ensures IsListed(rows, session, since, if limit <= 0 then 100 else limit, page)
      ensures page == Take(After(Ordered(rows, session), since), if limit <= 0 then 100 else limit)
    {
      PageIsListed(rows, session, since, if limit <= 0 then 100 else limit);
      page := Take(After(Ordered(rows, session), since), if limit <= 0 then 100 else limit);
    }

    /** loadAllEvents. It returns the session's events, all of them and in order,
        exactly when every sequence number is positive and no two equal ones sit on
        the two sides of a page boundary. */
    method LoadAll(session: string) returns (all: seq<Event>)
      ensures all == Ordered(rows, session) <==>
                AllPositive(Ordered(rows, session)) && !BoundaryTie(Ordered(rows, session))
      ensures exists at :: Found(Ordered(rows, session), |Ordered(rows, session)|, all, at)
    {
      all := [];
      var since := 0;
      ghost var ordered := Ordered(rows, session);
      OrderedIsInOrder(rows, session);
      ghost var pos, at := ReadNone(ordered);
      ghost var first := pos;
      hide Standing, Reached, Ordered, NonDecreasing, Take, After, AllPositive, BoundaryTie, Found;
      while true
        invariant Standing(ordered, first, since, pos, all, at)
        decreases |ordered| - pos
      {
        var page := List(session, since, LOAD_PAGE);
        if |page| == 0 {
          ReadAll(ordered, first, since, pos, all, at, page);
          break;
        }
        ghost var next, at' := ReadOn(ordered, first, since, pos, all, at, page);
        all := all + page;
        var last := page[|page| - 1].seqNo;
        if last <= since {
          assert false;
          break;
        }
        since, pos, at := last, next, at';
        if |page| < LOAD_PAGE {
          ReadEnds(ordered, first, since, pos, all, at);
          break;
        }
      }
    }
  }

  /** What a reader has after some pages, and before one that follows full ones. */
  ghost predicate Reached(ordered: seq<Event>, first: nat, since: int, pos: nat, all: seq<Event>, at: seq<nat>) {
    Walked(ordered, first, since, pos, all) && Found(ordered, pos, all, at)
  }

  ghost predicate Standing(ordered: seq<Event>, first: nat, since: int, pos: nat, all: seq<Event>, at: seq<nat>) {
    && Reached(ordered, first, since, pos, all, at)
    && |all| % 1000 == 0 && (first == 0 && |all| == pos ==> pos % 1000 == 0)
  }

  lemma {:induction false} ReadNone(ordered: seq<Event>) returns (pos: nat, at: seq<nat>)
    requires NonDecreasing(ordered)
    ensures Standing(ordered, pos, 0, pos, [], at) && pos <= |ordered|
  {
    pos := Cut(ordered, 0, 0);
    at := [];
    WalkStart(ordered, pos);
    FoundNone(ordered, pos);
  }

  lemma {:induction false} ReadOn(ordered: seq<Event>, first: nat, since: int, pos: nat, all: seq<Event>, at: seq<nat>,
          page: seq<Event>) returns (next: nat, at': seq<nat>)
    requires NonDecreasing(ordered) && Standing(ordered, first, since, pos, all, at)
    requires page == Take(After(ordered, since), LOAD_PAGE) && page != []
    ensures pos < next <= |ordered| && page[|page| - 1].seqNo > since
    ensures Reached(ordered, first, page[|page| - 1].seqNo, next, all + page, at')
    ensures |page| < LOAD_PAGE ==> next == |ordered|
    ensures |page| >= LOAD_PAGE ==> Standing(ordered, first, page[|page| - 1].seqNo, next, all + page, at')
  {
    PageAtCursor(ordered, since, pos, page);
    hide Found, After, NonDecreasing, BoundaryTie, AllPositive, NoTieUpTo;
    next := Cut(ordered, page[|page| - 1].seqNo, pos + |page|);
    at' := at + Between(pos, pos + |page|);
    WalkStep(ordered, first, since, pos, all, page, next);
    FoundMore(ordered, since, pos, all, at, page, next);
    assert |page| <= LOAD_PAGE;
  }

  lemma {:induction false} ReadEnds(ordered: seq<Event>, first: nat, since: int, pos: nat, all: seq<Event>, at: seq<nat>)
    requires NonDecreasing(ordered) && Reached(ordered, first, since, pos, all, at) && pos == |ordered|
    ensures all == ordered <==> AllPositive(ordered) && !BoundaryTie(ordered)
    ensures Found(ordered, |ordered|, all, at)
  {
    WalkEnd(ordered, first, since, pos, all);
  }

  lemma {:induction false} ReadAll(ordered: seq<Event>, first: nat, since: int, pos: nat, all: seq<Event>, at: seq<nat>, page: seq<Event>)
    requires NonDecreasing(ordered) && Standing(ordered, first, since, pos, all, at)
    requires page == Take(After(ordered, since), LOAD_PAGE) && page == []
    ensures all == ordered <==> AllPositive(ordered) && !BoundaryTie(ordered)
    ensures Found(ordered, |ordered|, all, at)
  {
    PageAtCursor(ordered, since, pos, page);
    ReadEnds(ordered, first, since, pos, all, at);
  }

  function Between(m: nat, n: nat): (r: seq<nat>)
    requires m <= n
    ensures |r| == n - m && forall i :: 0 <= i < |r| ==> r[i] == m + i
  {
    seq(n - m, i requires 0 <= i < n - m => m + i)
  }

  lemma {:induction false} FoundNone(ordered: seq<Event>, pos: nat)
    requires AtCursor(ordered, 0, pos)
    ensures Found(ordered, pos, [], [])
  {
  }

  lemma {:induction false} PageNotTied(ordered: seq<Event>, since: int, pos: nat, all: seq<Event>, at: seq<nat>,
          page: seq<Event>, m: nat)
    requires AtCursor(ordered, since, pos) && since >= 0 && Found(ordered, pos, all, at) && |all| % 1000 == 0
    requires NonDecreasing(ordered) && page != [] && |page| <= 1000 && pos <= m < pos + |page| <= |ordered|
    ensures FoundIff(ordered, all + page, at + Between(pos, pos + |page|), m)
  {
    assert ordered[pos].seqNo <= ordered[m].seqNo || pos == m;
    var more := at + Between(pos, pos + |page|);
    assert more[|at| + (m - pos)] == m;
    forall k: nat | |all| < PageEnd(k) <= |all + page| ensures more[PageEnd(k) - 1] >= m {
      OneFullPage(k, |all|, |page|);
    }
    forall k: nat | 0 < PageEnd(k) <= |all| ensures (all + page)[PageEnd(k) - 1].seqNo <= since {
      assert all[PageEnd(k) - 1] == ordered[at[PageEnd(k) - 1]];
    }
  }

  lemma {:induction false} OneFullPage(k: nat, before: nat, size: nat)
    requires before % 1000 == 0 && size <= 1000 && before < PageEnd(k) <= before + size
    ensures PageEnd(k) == before + size
  {
  }

  lemma {:induction false} BeforeSame(ordered: seq<Event>, pos: nat, all: seq<Event>, at: seq<nat>, page: seq<Event>, m: nat)
    requires Found(ordered, pos, all, at) && m < pos && pos + |page| <= |ordered|
    ensures FoundIff(ordered, all + page, at + Between(pos, pos + |page|), m)
  {
    assert FoundIff(ordered, all, at, m);
    var more, longer := at + Between(pos, pos + |page|), all + page;
    forall k: nat | 0 < PageEnd(k) <= |all|
      ensures more[PageEnd(k) - 1] == at[PageEnd(k) - 1] && longer[PageEnd(k) - 1] == all[PageEnd(k) - 1]
    {
    }
    forall k: nat | |all| < PageEnd(k) <= |longer| ensures more[PageEnd(k) - 1] >= m {
    }
  }

  lemma {:induction false} PositionsMore(ordered: seq<Event>, pos: nat, all: seq<Event>, at: seq<nat>, page: seq<Event>, next: nat)
    requires pos + |page| <= next <= |ordered| && Positions(ordered, pos, all, at) && page == Take(ordered[pos..], 1000)
    ensures Positions(ordered, next, all + page, at + Between(pos, pos + |page|))
  {
    var end := pos + |page|;
    var longer, more := all + page, at + Between(pos, end);
    forall j | 0 <= j < |more| ensures more[j] < end && longer[j] == ordered[more[j]] {
      if j >= |at| {
        assert page[j - |at|] == ordered[pos + (j - |at|)];
      }
    }
    forall i, j | 0 <= i < j < |more| ensures more[i] < more[j] {
    }
  }

  lemma {:induction false} FoundMore(ordered: seq<Event>, since: int, pos: nat, all: seq<Event>, at: seq<nat>,
          page: seq<Event>, next: nat)
    requires AtCursor(ordered, since, pos) && since >= 0 && Found(ordered, pos, all, at) && |all| % 1000 == 0
    requires NonDecreasing(ordered) && page != [] && page == Take(ordered[pos..], 1000)
    requires AtCursor(ordered, page[|page| - 1].seqNo, next) && pos + |page| <= next
    ensures Found(ordered, next, all + page, at + Between(pos, pos + |page|))
    ensures |page| == 1000 ==> |all + page| % 1000 == 0
  {
    var end := pos + |page|;
    var longer, more := all + page, at + Between(pos, end);
    assert end <= next <= |ordered|;
    PositionsMore(ordered, pos, all, at, page, next);
    hide FoundIff, Positions, NonDecreasing, AtCursor, Take;
    forall m: nat | m < next ensures FoundIff(ordered, longer, more, m) {
      if m < pos {
        BeforeSame(ordered, pos, all, at, page, m);
      } else if m < end {
        PageNotTied(ordered, since, pos, all, at, page, m);
      } else {
        LastTies(ordered, pos, all, at, page, next, m);
      }
    }
  }

  /** What comes after a page with the number of its last event: the page was full. */
  lemma {:induction false} LastTies(ordered: seq<Event>, pos: nat, all: seq<Event>, at: seq<nat>, page: seq<Event>, next: nat, m: nat)
    requires Found(ordered, pos, all, at) && |all| % 1000 == 0
    requires NonDecreasing(ordered) && page != [] && page == Take(ordered[pos..], 1000)
    requires AtCursor(ordered, page[|page| - 1].seqNo, next) && pos + |page| <= m < next
    ensures FoundIff(ordered, all + page, at + Between(pos, pos + |page|), m)
  {
    var end := pos + |page|;
    var longer, more := all + page, at + Between(pos, end);
    var k := |longer| / 1000;
    assert |page| == 1000 && PageEnd(k) == |longer|;
    assert longer[PageEnd(k) - 1] == ordered[end - 1] && more[PageEnd(k) - 1] == end - 1;
    assert ordered[end - 1].seqNo <= ordered[m].seqNo;
  }

  /** Where a reader stands: `pos` events lie at or before its cursor, `first` of them
      before it began; what it has is all of them, or it lost some to a boundary tie. */
  ghost predicate Walked(ordered: seq<Event>, first: nat, since: int, pos: nat, all: seq<Event>) {
    && AtCursor(ordered, since, pos)
    && first <= pos && since >= 0
    && (first > 0 <==> !AllPositive(ordered))
    && |all| <= pos - first
    && (first == 0 && |all| == pos ==> all == ordered[..pos] && NoTieUpTo(ordered, pos))
    && (first == 0 && |all| < pos ==> BoundaryTie(ordered))
  }

  ghost predicate AtCursor(ordered: seq<Event>, since: int, pos: nat) {
    && pos <= |ordered|
    && (forall i :: 0 <= i < pos ==> ordered[i].seqNo <= since)
    && (pos < |ordered| ==> ordered[pos].seqNo > since)
  }

  ghost predicate NoTieUpTo(ordered: seq<Event>, pos: nat) {
    forall n: nat :: n <= pos ==> !TieAt(ordered, n)
  }

  ghost predicate NonDecreasing(ordered: seq<Event>) {
    forall i, j :: 0 <= i < j < |ordered| ==> ordered[i].seqNo <= ordered[j].seqNo
  }

  lemma {:induction false} WalkStart(ordered: seq<Event>, pos: nat)
    requires NonDecreasing(ordered) && AtCursor(ordered, 0, pos)
    ensures Walked(ordered, pos, 0, pos, [])
  {
    if pos == 0 {
      assert ordered[..0] == [];
      assert AllPositive(ordered) by {
        forall i | 0 <= i < |ordered| ensures ordered[i].seqNo > 0 {
          assert i > 0 ==> ordered[0].seqNo <= ordered[i].seqNo;
        }
      }
    } else {
      assert ordered[0].seqNo <= 0;
    }
  }

  /** A page read at a cursor, as a slice of the whole. */
  lemma {:induction false} PageAtCursor(ordered: seq<Event>, since: int, pos: nat, page: seq<Event>)
    requires NonDecreasing(ordered) && AtCursor(ordered, since, pos)
    requires page == Take(After(ordered, since), LOAD_PAGE)
    ensures page == Take(ordered[pos..], LOAD_PAGE)
    ensures page == [] ==> pos == |ordered|
    ensures page != [] ==>
              && pos + |page| <= |ordered| && page[|page| - 1].seqNo > since
              && forall i :: 0 <= i < pos + |page| ==> ordered[i].seqNo <= page[|page| - 1].seqNo
  {
    AfterIsSuffix(ordered, since, pos);
    if page != [] {
      assert page[|page| - 1] == ordered[pos + |page| - 1];
      assert ordered[pos].seqNo <= ordered[pos + |page| - 1].seqNo || |page| == 1;
    }
  }

  lemma {:induction false} WalkStep(ordered: seq<Event>, first: nat, since: int, pos: nat, all: seq<Event>,
          page: seq<Event>, next: nat)
    requires NonDecreasing(ordered) && Walked(ordered, first, since, pos, all) && page != []
    requires first == 0 && |all| == pos ==> pos % LOAD_PAGE == 0
    requires page == Take(ordered[pos..], LOAD_PAGE)
    requires AtCursor(ordered, page[|page| - 1].seqNo, next) && pos + |page| <= next
    ensures Walked(ordered, first, page[|page| - 1].seqNo, next, all + page)
    ensures |page| == LOAD_PAGE && first == 0 && |all + page| == next ==> next % LOAD_PAGE == 0
    ensures |page| < LOAD_PAGE ==> next == |ordered|
  {
    var end := pos + |page|;
    assert page == ordered[pos..end] && (|page| < LOAD_PAGE ==> end == |ordered|);
    hide AllPositive, Take;
    assert page[|page| - 1] == ordered[end - 1];
    assert page[0] == ordered[pos];
    if end < next {
      assert ordered[end - 1].seqNo <= ordered[end].seqNo <= ordered[end - 1].seqNo;
      if first == 0 && |all| == pos {
        assert TieAt(ordered, end);
      }
    } else if first == 0 && |all| == pos {
      assert all + page == ordered[..end];
      forall n: nat | pos < n <= end ensures !TieAt(ordered, n) {
        if n % LOAD_PAGE == 0 {
          NextMultiple(pos, n);
        }
      }
    }
  }

  lemma {:induction false} NextMultiple(pos: nat, n: nat)
    requires pos % LOAD_PAGE == 0 && pos < n && n % LOAD_PAGE == 0
    ensures n >= pos + LOAD_PAGE
  {
  }

  lemma {:induction false} WalkEnd(ordered: seq<Event>, first: nat, since: int, pos: nat, all: seq<Event>)
    requires NonDecreasing(ordered) && Walked(ordered, first, since, pos, all) && pos == |ordered|
    ensures all == ordered <==> AllPositive(ordered) && !BoundaryTie(ordered)
  {
    assert ordered[..pos] == ordered;
    if n: nat :| TieAt(ordered, n) {
      assert n <= pos;
    }
  }
}
