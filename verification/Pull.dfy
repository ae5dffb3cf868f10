/** The client's pull of one kind: ask for pages after the cursor, ingest the rows,
    persist the cursor after every page. Other writers may add keys between pages. */
module Pull {
  import opened Wrappers
  import opened Lex
  import Serve

  const PULL_PAGE: nat := 500

  /** What request number i is answered when it asks after `since`. */
  type Answers<!B> = (nat, string) -> Serve.PullReply<B>

  /** Every page answered is a correct page of what the server held when it listed
      (`held(i)`), and the server only gains keys. */
  ghost predicate HonestServer<B(!new)>(ask: Answers<B>, held: nat -> set<string>) {
    && (forall i: nat, since: string {:trigger ask(i, since)} :: ask(i, since).Page? ==>
          IsPage(held(i), since, PULL_PAGE, Serve.KeysOf(ask(i, since).rows), ask(i, since).nextCursor))
    && (forall i: nat, j: nat {:trigger held(i), held(j)} :: i <= j ==> held(i) <= held(j))
  }

  // --- the answers are what the pull handler gives ---

  /** Each answer, if it is a page, is the handler's for what its store held then, and
      the stores only gain keys: such a server is honest. */
  lemma {:induction false} HandlerIsHonest<B(!new)>(ask: Answers<B>, stores: nat -> map<string, B>, brain: string, kind: string)
    requires forall i: nat, since: string {:trigger ask(i, since)} :: ask(i, since).Page? ==>
               Serve.AnswersPull(stores(i), brain, kind, since, Some(PULL_PAGE), ask(i, since))
    requires forall i: nat, j: nat {:trigger stores(i), stores(j)} :: i <= j ==> stores(i).Keys <= stores(j).Keys
    ensures HonestServer(ask, i requires i >= 0 => Serve.ClientKeys(stores(i), brain, kind))
  {
    forall i: nat, j: nat | i <= j ensures Serve.ClientKeys(stores(i), brain, kind) <= Serve.ClientKeys(stores(j), brain, kind) {
      Serve.ClientKeysAre(stores(i), brain, kind);
      Serve.ClientKeysAre(stores(j), brain, kind);
      assert stores(i).Keys <= stores(j).Keys;
    }
  }

  /** Keys after the cursor. */
  ghost function After(keys: set<string>, cursor: string): set<string> {
    set k | k in keys && Less(cursor, k)
  }

  lemma {:induction false} AfterShrinks(keys: set<string>, cursor: string, later: string)
    requires later in keys && Less(cursor, later)
    ensures |After(keys, later)| < |After(keys, cursor)|
  {
    StrictTotalOrder();
    assert later in After(keys, cursor) && later !in After(keys, later);
    SubsetSize(After(keys, later), After(keys, cursor) - {later});
  }

  // --- what a pull leaves behind ---

  /** One page dealt with: its rows, and the cursor persisted after it. */
  datatype Visit<+B> = Visit(rows: seq<Serve.PushRow<B>>, cursor: string)

  /** The rows of a page whose ingest works in this round, in order. */
  function Kept<B>(ok: (nat, string) -> bool, round: nat, rows: seq<Serve.PushRow<B>>): seq<Serve.PushRow<B>>
    decreases |rows|
  {
    if rows == [] then []
    else
      var last := rows[|rows| - 1];
      Kept(ok, round, rows[..|rows| - 1]) + if ok(round, last.key) then [last] else []
  }

  /** The cursor behind the last row that went in. */
  function CursorAfter<B>(since: string, kept: seq<Serve.PushRow<B>>): string {
    if kept == [] then since else kept[|kept| - 1].key
  }

  /** Everything ingested: page by page, the rows whose ingest worked. */
  function Ingested<B>(ok: (nat, string) -> bool, visits: seq<Visit<B>>): seq<Serve.PushRow<B>>
    decreases |visits|
  {
    if visits == [] then []
    else Ingested(ok, visits[..|visits| - 1]) + Kept(ok, |visits| - 1, visits[|visits| - 1].rows)
  }

  /** The cursor the next request asks after. */
  function Asked<B>(from: string, visits: seq<Visit<B>>): string {
    if visits == [] then from else visits[|visits| - 1].cursor
  }

  /** Visit number i is the page answered to request number i, which asked after the
      cursor of the visit before; its own cursor is behind the last row that went in. */
  ghost predicate Asks<B(!new)>(ask: Answers<B>, ok: (nat, string) -> bool, from: string, visits: seq<Visit<B>>, i: nat)
    requires i < |visits|
  {
    var since := Asked(from, visits[..i]);
    && ask(i, since).Page? && ask(i, since).rows == visits[i].rows != []
    && visits[i].cursor == CursorAfter(since, Kept(ok, i, visits[i].rows))
  }

  /** The cursors written to the table. The empty one is not. */
  function Persisted<B>(kind: string, visits: seq<Visit<B>>): seq<(string, string)>
    decreases |visits|
  {
    if visits == [] then []
    else
      var last := visits[|visits| - 1];
      Persisted(kind, visits[..|visits| - 1]) + if last.cursor == "" then [] else [(kind, last.cursor)]
  }

  /** Every key of `keys` between the first cursor and this one was on some page. */
  ghost predicate Offered<B>(keys: set<string>, from: string, upto: string, visits: seq<Visit<B>>) {
    forall k :: k in keys && Less(from, k) && AtMost(k, upto) ==> OnSomePage(visits, k)
  }

  ghost predicate OnSomePage<B>(visits: seq<Visit<B>>, k: string) {
    exists i :: 0 <= i < |visits| && k in Serve.KeysOf(visits[i].rows)
  }

  ghost predicate AllOffered<B>(keys: set<string>, from: string, visits: seq<Visit<B>>) {
    forall k :: k in keys && Less(from, k) ==> OnSomePage(visits, k)
  }

  ghost predicate OfferedAtEach<B>(keys: set<string>, from: string, visits: seq<Visit<B>>) {
    forall n: nat {:trigger visits[..n]} :: n <= |visits| ==> Offered(keys, from, Asked(from, visits[..n]), visits[..n])
  }

  /** The key went in: some page held it in a round in which its ingest worked. */
  ghost predicate WentIn<B>(ok: (nat, string) -> bool, visits: seq<Visit<B>>, k: string) {
    exists i :: 0 <= i < |visits| && k in Serve.KeysOf(visits[i].rows) && ok(i, k)
  }

  lemma {:induction false} KeysOfConcat<B>(a: seq<Serve.PushRow<B>>, b: seq<Serve.PushRow<B>>)
    ensures Serve.KeysOf(a + b) == Serve.KeysOf(a) + Serve.KeysOf(b)
  {
  }

  lemma {:induction false} KeptAre<B>(ok: (nat, string) -> bool, round: nat, rows: seq<Serve.PushRow<B>>)
    ensures forall k :: k in Serve.KeysOf(Kept(ok, round, rows)) <==> k in Serve.KeysOf(rows) && ok(round, k)
    ensures forall r :: r in Kept(ok, round, rows) ==> r in rows
    decreases |rows|
  {
    if rows != [] {
      var init, last := rows[..|rows| - 1], rows[|rows| - 1];
      KeptAre(ok, round, init);
      assert rows == init + [last];
      KeysOfConcat(init, [last]);
      KeysOfConcat(Kept(ok, round, init), if ok(round, last.key) then [last] else []);
    }
  }

  /** A key is in the log exactly when its ingest worked in a round whose page held it. */
  lemma {:induction false} IngestedAre<B>(ok: (nat, string) -> bool, visits: seq<Visit<B>>, k: string)
    ensures k in Serve.KeysOf(Ingested(ok, visits)) <==> WentIn(ok, visits, k)
    decreases |visits|
  {
    if visits != [] {
      var init, last := visits[..|visits| - 1], visits[|visits| - 1];
      IngestedAre(ok, init, k);
      KeptAre(ok, |init|, last.rows);
      KeysOfConcat(Ingested(ok, init), Kept(ok, |init|, last.rows));
      if WentIn(ok, init, k) {
        var i :| 0 <= i < |init| && k in Serve.KeysOf(init[i].rows) && ok(i, k);
        assert visits[i] == init[i];
      }
      if WentIn(ok, visits, k) {
        var i :| 0 <= i < |visits| && k in Serve.KeysOf(visits[i].rows) && ok(i, k);
        assert i < |init| ==> visits[i] == init[i];
      }
    }
  }

  /** Ingesting this key works whenever it is tried. */
  ghost predicate Ingestible(ok: (nat, string) -> bool, key: string) {
    forall i: nat {:trigger ok(i, key)} :: ok(i, key)
  }

  /** Everything ingestible in `keys` between two cursors is among the rows. */
  ghost predicate Covered<B>(keys: set<string>, from: string, upto: string, ok: (nat, string) -> bool,
          log: seq<Serve.PushRow<B>>) {
    forall k :: k in keys && Less(from, k) && AtMost(k, upto) && Ingestible(ok, k) ==> k in Serve.KeysOf(log)
  }

  ghost predicate AllCovered<B>(keys: set<string>, from: string, ok: (nat, string) -> bool, log: seq<Serve.PushRow<B>>) {
    forall k :: k in keys && Less(from, k) && Ingestible(ok, k) ==> k in Serve.KeysOf(log)
  }

  /** What was on a page and is ingestible went in. */
  lemma {:induction false} IngestibleWentIn<B>(ok: (nat, string) -> bool, visits: seq<Visit<B>>, k: string)
    requires OnSomePage(visits, k) && Ingestible(ok, k)
    ensures k in Serve.KeysOf(Ingested(ok, visits))
  {
    var i :| 0 <= i < |visits| && k in Serve.KeysOf(visits[i].rows);
    assert ok(i, k);
    IngestedAre(ok, visits, k);
  }

  /** At every persisted cursor everything ingestible up to it had been ingested. */
  ghost predicate CoveredAtEach<B>(keys: set<string>, from: string, ok: (nat, string) -> bool, visits: seq<Visit<B>>) {
    forall n: nat {:trigger visits[..n]} :: n <= |visits| ==>
      Covered(keys, from, Asked(from, visits[..n]), ok, Ingested(ok, visits[..n]))
  }

  lemma {:induction false} OfferedIsCovered<B>(keys: set<string>, from: string, ok: (nat, string) -> bool, visits: seq<Visit<B>>)
    requires OfferedAtEach(keys, from, visits)
    ensures CoveredAtEach(keys, from, ok, visits)
  {
    forall n: nat, k | n <= |visits| && k in keys && Less(from, k) && AtMost(k, Asked(from, visits[..n])) && Ingestible(ok, k)
      ensures k in Serve.KeysOf(Ingested(ok, visits[..n]))
    {
      assert Offered(keys, from, Asked(from, visits[..n]), visits[..n]);
      IngestibleWentIn(ok, visits[..n], k);
    }
  }

  /** Whether ingesting a key works does not depend on when it is tried. */
  ghost predicate RoundFree(ok: (nat, string) -> bool) {
    forall i: nat, k: string {:trigger ok(i, k)} :: ok(i, k) == ok(0, k)
  }

  /** The keys lost are exactly those whose ingest fails. */
  ghost predicate LostAre<B>(keys: set<string>, from: string, ok: (nat, string) -> bool, log: seq<Serve.PushRow<B>>) {
    forall k :: k in keys && Less(from, k) ==> (k in Serve.KeysOf(log) <==> ok(0, k))
  }

  /** The log is ascending, lies after the first cursor, and ends at the current one. */
  ghost predicate LogOk<B>(from: string, cursor: string, log: seq<Serve.PushRow<B>>) {
    var keys := Serve.KeysOf(log);
    && Ascending(keys)
    && (forall k :: k in keys ==> Less(from, k) && AtMost(k, cursor))
    && (if log == [] then cursor == from else cursor == keys[|keys| - 1])
  }

  lemma {:induction false} LogStep<B>(from: string, cursor: string, log: seq<Serve.PushRow<B>>, row: Serve.PushRow<B>)
    requires LogOk(from, cursor, log) && Less(cursor, row.key)
    ensures LogOk(from, row.key, log + [row])
  {
    var keys := Serve.KeysOf(log);
    StrictTotalOrder();
    assert log != [] ==> keys[|keys| - 1] in keys;
    assert Serve.KeysOf(log + [row]) == keys + [row.key];
    AscendingAppend(keys, row.key);
  }

  function CursorOf(cursors: map<string, string>, kind: string): string {
    if kind in cursors then cursors[kind] else ""
  }

  /** sync_state: the persisted cursor of every kind; `history` lists every write. */
  class CursorTable {
    var cursors: map<string, string>
    ghost var history: seq<(string, string)>

    constructor ()
      ensures cursors == map[] && history == []
    {
      cursors := map[];
      history := [];
    }

    method Get(kind: string) returns (cursor: string)
      ensures cursor == CursorOf(cursors, kind)
    {
      cursor := if kind in cursors then cursors[kind] else "";
    }

    /** The empty cursor is never written: it is what an absent row reads as. */
    method Persist(kind: string, cursor: string)
      requires cursor == "" ==> CursorOf(cursors, kind) == ""
      modifies this
      ensures CursorOf(cursors, kind) == cursor && cursors - {kind} == old(cursors) - {kind}
      ensures history == old(history) + if cursor == "" then [] else [(kind, cursor)]
    {
      if cursor != "" {
        cursors := cursors[kind := cursor];
        history := history + [(kind, cursor)];
      }
    }
  }

  // --- one page ---

  /** One page being ingested: `keys` must all be offered, `held` is what the server
      listed from, `from` the cursor at the start of the pull, `before` the visits so far. */
  datatype PageRun<B> = PageRun(keys: set<string>, held: set<string>, from: string, rows: seq<Serve.PushRow<B>>, next: string,
                                ok: (nat, string) -> bool, before: seq<Visit<B>>)
  {
    ghost function Since(): string {
      Asked(from, before)
    }

    ghost predicate Start() {
      && keys <= held && IsPage(held, Since(), PULL_PAGE, Serve.KeysOf(rows), next)
      && LogOk(from, Since(), Ingested(ok, before)) && OfferedAtEach(keys, from, before)
    }

    /** The first j rows have been handled: those whose ingest works are in the log, in
        order, and the cursor is behind the last of them. */
    ghost predicate Handled(j: nat, cursor: string, log: seq<Serve.PushRow<B>>) {
      && j <= |rows|
      && log == Ingested(ok, before) + Kept(ok, |before|, rows[..j])
      && cursor == CursorAfter(Since(), Kept(ok, |before|, rows[..j]))
      && LogOk(from, cursor, log)
    }

    lemma {:induction false} CursorIsOnPage(j: nat, cursor: string, log: seq<Serve.PushRow<B>>)
      requires Start() && Handled(j, cursor, log)
      ensures cursor == Since() || (Less(Since(), cursor) && exists t: nat :: t < j && cursor == rows[t].key)
    {
      var kept := Kept(ok, |before|, rows[..j]);
      if kept != [] {
        KeptAre(ok, |before|, rows[..j]);
        assert kept[|kept| - 1] in rows[..j];
        var t: nat :| t < j && rows[t] == kept[|kept| - 1];
        assert Serve.KeysOf(rows)[t] in Serve.KeysOf(rows);
      }
    }

    lemma {:induction false} KeptStep(j: nat)
      requires j < |rows|
      ensures Kept(ok, |before|, rows[..j + 1]) ==
              Kept(ok, |before|, rows[..j]) + if ok(|before|, rows[j].key) then [rows[j]] else []
    {
      assert rows[..j + 1][..j] == rows[..j];
    }

    lemma {:induction false} HandleNext(j: nat, cursor: string, log: seq<Serve.PushRow<B>>)
      requires Start() && Handled(j, cursor, log) && j < |rows|
      ensures if ok(|before|, rows[j].key) then Handled(j + 1, rows[j].key, log + [rows[j]]) else Handled(j + 1, cursor, log)
    {
      hide LogOk, Ingested, Asked, OfferedAtEach;
      KeptStep(j);
      var kept := Kept(ok, |before|, rows[..j]);
      assert kept + [] == kept;
      if ok(|before|, rows[j].key) {
        CursorIsOnPage(j, cursor, log);
        var page := Serve.KeysOf(rows);
        assert page[j] in page && page[j] == rows[j].key;
        if cursor != Since() {
          var t: nat :| t < j && cursor == rows[t].key;
          assert page[t] == cursor;
        }
        LogStep(from, cursor, log, rows[j]);
        assert log + [rows[j]] == Ingested(ok, before) + (kept + [rows[j]]);
      }
    }

    ghost function Visits(cursor: string): seq<Visit<B>> {
      before + [Visit(rows, cursor)]
    }

    lemma {:induction false} StaysOffered(cursor: string, k: string)
      requires OnSomePage(before, k) || k in Serve.KeysOf(rows)
      ensures OnSomePage(Visits(cursor), k)
    {
      if OnSomePage(before, k) {
        var i :| 0 <= i < |before| && k in Serve.KeysOf(before[i].rows);
        assert Visits(cursor)[i] == before[i];
      } else {
        assert Visits(cursor)[|before|].rows == rows;
      }
    }

    /** What the server held up to the cursor is on this page or an earlier one. */
    lemma {:induction false} OfferedNow(cursor: string, log: seq<Serve.PushRow<B>>)
      requires Start() && Handled(|rows|, cursor, log)
      ensures Offered(keys, from, cursor, Visits(cursor))
    {
      var page := Serve.KeysOf(rows);
      CursorIsOnPage(|rows|, cursor, log);
      assert before[..|before|] == before;
      forall k | k in keys && Less(from, k) && AtMost(k, cursor) ensures OnSomePage(Visits(cursor), k) {
        LessTotal(k, Since());
        if Less(Since(), k) {
          LessAsymmetric(Since(), k);
          var t: nat :| t < |rows| && cursor == rows[t].key;
          assert page[t] == cursor && cursor in page;
          if k != cursor {
            PageHasNoHoles(held, Since(), PULL_PAGE, page, next, cursor, k);
          }
        }
        StaysOffered(cursor, k);
      }
    }

    /** The page handled and its cursor persisted. */
    lemma {:induction false} Visited(cursor: string, log: seq<Serve.PushRow<B>>)
      requires Start() && Handled(|rows|, cursor, log)
      ensures Asked(from, Visits(cursor)) == cursor && log == Ingested(ok, Visits(cursor))
      ensures OfferedAtEach(keys, from, Visits(cursor))
    {
      var visits := Visits(cursor);
      assert visits[..|before|] == before && rows[..|rows|] == rows;
      OfferedNow(cursor, log);
      forall n: nat | n <= |visits| ensures Offered(keys, from, Asked(from, visits[..n]), visits[..n]) {
        if n <= |before| {
          assert visits[..n] == before[..n];
        } else {
          assert visits[..n] == visits;
        }
      }
    }

    /** A last page leaves nothing that was not offered. */
    lemma {:induction false} LastPageOffersAll(cursor: string)
      requires Start() && (rows == [] || next == "")
      ensures forall k :: k in keys && Less(from, k) ==> OnSomePage(if rows == [] then before else Visits(cursor), k)
    {
      var page := Serve.KeysOf(rows);
      assert before[..|before|] == before;
      forall k | k in keys && Less(from, k) ensures OnSomePage(if rows == [] then before else Visits(cursor), k) {
        LessTotal(k, Since());
        if Less(Since(), k) {
          LastPageHolds(k);
        }
        if rows != [] {
          StaysOffered(cursor, k);
        }
      }
    }

    lemma {:induction false} LastPageHolds(k: string)
      requires Start() && (rows == [] || next == "") && k in keys && Less(Since(), k)
      ensures k in Serve.KeysOf(rows)
    {
      var page := Serve.KeysOf(rows);
      if page != [] && k !in page {
        assert page[|page| - 1] in page;
        LessAsymmetric(Since(), page[|page| - 1]);
      }
    }
  }

  /** Ingests one page. A row that fails is skipped and the cursor stays behind it. */
  method IngestPage<B>(ghost p: PageRun<B>, rows: seq<Serve.PushRow<B>>, round: nat, ok: (nat, string) -> bool,
                       since: string, before: seq<Serve.PushRow<B>>)
    returns (cursor: string, log: seq<Serve.PushRow<B>>)
    requires p.Start() && p.rows == rows && |p.before| == round && p.ok == ok && p.Since() == since && Ingested(ok, p.before) == before
    ensures p.Handled(|rows|, cursor, log)
  {
    cursor, log := since, before;
    assert rows[..0] == [];
    var j := 0;
    while j < |rows|
      invariant 0 <= j <= |rows|
      invariant p.Handled(j, cursor, log)
    {
      p.HandleNext(j, cursor, log);
      if ok(round, rows[j].key) {
        cursor, log := rows[j].key, log + [rows[j]];
      }
      j := j + 1;
    }
  }

  datatype Outcome<+B> = Outcome(log: seq<Serve.PushRow<B>>, done: bool)

  datatype RoundEnd = More | Finished | Failed

  /** Where a pull of `keys` stands after these visits. */
  ghost predicate Stands<B>(keys: set<string>, from: string, ok: (nat, string) -> bool, visits: seq<Visit<B>>,
                            cursor: string, log: seq<Serve.PushRow<B>>) {
    && cursor == Asked(from, visits) && log == Ingested(ok, visits)
    && LogOk(from, cursor, log) && OfferedAtEach(keys, from, visits)
  }

  /** One request's worth of a pull: ingest the page, persist the cursor, and see
      whether there is more. */
  method PullRound<B>(table: CursorTable, kind: string, reply: Serve.PullReply<B>, round: nat, ok: (nat, string) -> bool,
                      since: string, before: seq<Serve.PushRow<B>>,
                      ghost keys: set<string>, ghost held: set<string>, ghost from: string, ghost visits: seq<Visit<B>>)
    returns (end: RoundEnd, cursor: string, log: seq<Serve.PushRow<B>>, ghost visits': seq<Visit<B>>)
    requires since == CursorOf(table.cursors, kind) && |visits| == round
    requires Stands(keys, from, ok, visits, since, before)
    requires reply.Page? ==> PageRun(keys, held, from, reply.rows, reply.nextCursor, ok, visits).Start()
    modifies table
    ensures cursor == CursorOf(table.cursors, kind) && table.cursors - {kind} == old(table.cursors) - {kind}
    ensures visits' == visits + if reply.Page? && reply.rows != []
                                then [Visit(reply.rows, CursorAfter(since, Kept(ok, round, reply.rows)))] else []
    ensures table.history == old(table.history) + if reply.Page? && reply.rows != [] && cursor != "" then [(kind, cursor)] else []
    ensures Stands(keys, from, ok, visits', cursor, log)
    ensures end.Failed? <==> reply.PullFailed?
    ensures end.More? <==> reply.Page? && reply.rows != [] && reply.nextCursor != ""
    ensures end.Finished? ==> AllOffered(keys, from, visits')
  {
    cursor, log, visits' := since, before, visits;
    assert visits + [] == visits && table.history + [] == table.history;
    if reply.PullFailed? {
      return Failed, cursor, log, visits';
    }
    ghost var p := PageRun(keys, held, from, reply.rows, reply.nextCursor, ok, visits);
    if |reply.rows| == 0 {
      p.LastPageOffersAll(cursor);
      return Finished, cursor, log, visits';
    }
    cursor, log := IngestPage(p, reply.rows, round, ok, since, before);
    p.Visited(cursor, log);
    assert reply.rows[..|reply.rows|] == reply.rows;
    assert cursor == "" ==> since == "" by {
      p.CursorIsOnPage(|reply.rows|, cursor, log);
    }
    table.Persist(kind, cursor);
    visits' := p.Visits(cursor);
    if reply.nextCursor == "" {
      p.LastPageOffersAll(cursor);
      return Finished, cursor, log, visits';
    }
    return More, cursor, log, visits';
  }

  /** Everything a pull has done: what it asked, ingested and persisted. */
  ghost predicate Tells<B(!new)>(ask: Answers<B>, ok: (nat, string) -> bool, from: string, visits: seq<Visit<B>>) {
    forall i: nat {:trigger Asks(ask, ok, from, visits, i)} :: i < |visits| ==> Asks(ask, ok, from, visits, i)
  }

  lemma {:induction false} TellsMore<B(!new)>(ask: Answers<B>, ok: (nat, string) -> bool, from: string,
          visits: seq<Visit<B>>, reply: Serve.PullReply<B>)
    requires Tells(ask, ok, from, visits) && reply == ask(|visits|, Asked(from, visits)) && reply.Page? && reply.rows != []
    ensures Tells(ask, ok, from, visits + [Visit(reply.rows, CursorAfter(Asked(from, visits), Kept(ok, |visits|, reply.rows)))])
  {
    var longer := visits + [Visit(reply.rows, CursorAfter(Asked(from, visits), Kept(ok, |visits|, reply.rows)))];
    forall i: nat | i < |longer| ensures Asks(ask, ok, from, longer, i) {
      if i < |visits| {
        assert longer[..i] == visits[..i] && longer[i] == visits[i];
        assert Asks(ask, ok, from, visits, i);
      } else {
        assert longer[..i] == visits;
      }
    }
  }

  /** pullKind. `rounds` bounds the requests before the caller's context ends; `ask` may
      also fail. `visits` are the pages it dealt with, one a request, and determine the
      rest: what was ingested and in which order, and the cursors written. For every set
      of rows whose ingest fails and every growth of the server between pages:
      the rows ingested are ascending, each once; at every persisted cursor every earlier
      key has been on a page, so everything ingestible before it is in the log; a pull
      that completes has tried every key present at the start, and where it does not
      matter when a key is tried it has lost exactly those whose ingest fails. On a steady
      server it completes; behind a page on which nothing can be ingested it never does. */
  method PullKind<B(!new)>(table: CursorTable, kind: string, ask: Answers<B>, ghost held: nat -> set<string>,
                     ok: (nat, string) -> bool, rounds: nat)
    returns (out: Outcome<B>, ghost visits: seq<Visit<B>>)
    requires HonestServer(ask, held)
    modifies table
    ensures var from := CursorOf(old(table.cursors), kind);
            && Tells(ask, ok, from, visits) && CursorOf(table.cursors, kind) == Asked(from, visits)
            && out.log == Ingested(ok, visits) && LogOk(from, Asked(from, visits), out.log)
            && OfferedAtEach(held(0), from, visits) && CoveredAtEach(held(0), from, ok, visits)
    ensures table.history == old(table.history) + Persisted(kind, visits)
    ensures table.cursors - {kind} == old(table.cursors) - {kind}
    ensures forall k :: k in Serve.KeysOf(out.log) <==> WentIn(ok, visits, k)
    ensures out.done ==> AllOffered(held(0), CursorOf(old(table.cursors), kind), visits)
    ensures out.done ==> AllCovered(held(0), CursorOf(old(table.cursors), kind), ok, out.log)
    ensures out.done && RoundFree(ok) ==> LostAre(held(0), CursorOf(old(table.cursors), kind), ok, out.log)
    ensures Steady(ask, held, ok) && rounds > |After(held(0), CursorOf(old(table.cursors), kind))| ==> out.done
    ensures Stuck(ask, ok, CursorOf(old(table.cursors), kind)) ==>
              !out.done && out.log == [] && CursorOf(table.cursors, kind) == CursorOf(old(table.cursors), kind)
  {
    var cursor := table.Get(kind);
    ghost var from := cursor;
    var log: seq<Serve.PushRow<B>> := [];
    visits := [];
    NothingOfferedYet<B>(held(0), from);
    assert Stands(held(0), from, ok, visits, cursor, log) && Tells(ask, ok, from, visits);
    assert table.history == table.history + Persisted(kind, visits);
    hide Asked, AllOffered, LostAre, Kept, CursorAfter, HonestServer, Steady, Stuck, Tells, LogOk, OfferedAtEach,
        CoveredAtEach, AllCovered, Persisted, Ingested, WentIn, OnSomePage, RoundFree, After;
    var round := 0;
    var end := More;
    while round < rounds && end.More?
      invariant Stands(held(0), from, ok, visits, cursor, log) && Tells(ask, ok, from, visits)
      invariant cursor == CursorOf(table.cursors, kind) && table.cursors - {kind} == old(table.cursors) - {kind}
      invariant table.history == old(table.history) + Persisted(kind, visits)
      invariant end.More? ==> |visits| == round
      invariant end.Finished? ==> AllOffered(held(0), from, visits)
      invariant Steady(ask, held, ok) ==> !end.Failed? && (end.More? ==> round + |After(held(0), cursor)| <= |After(held(0), from)|)
      invariant Stuck(ask, ok, from) ==> log == [] && cursor == from && !end.Finished?
    {
      var reply := ask(round, cursor);
      ghost var since, past, history := cursor, visits, table.history;
      HonestPage(ask, held, ok, from, visits, log);
      end, cursor, log, visits := PullRound(table, kind, reply, round, ok, cursor, log, held(0), held(round), from, visits);
      RoundDone(table.history, history, old(table.history), kind, ask, ok, from, past, visits, reply);
      if Steady(ask, held, ok) {
        SteadyMoves(ask, held, ok, from, past, reply);
      }
      if Stuck(ask, ok, from) {
        StuckStays(ask, ok, from, past, reply);
      }
      round := round + 1;
    }
    OfferedIsCovered(held(0), from, ok, visits);
    forall k ensures k in Serve.KeysOf(log) <==> WentIn(ok, visits, k) {
      IngestedAre(ok, visits, k);
    }
    if end.Finished? {
      LostExactly(held(0), from, ok, visits);
    }
    return Outcome(log, end.Finished?), visits;
  }

  lemma {:induction false} HonestPage<B(!new)>(ask: Answers<B>, held: nat -> set<string>, ok: (nat, string) -> bool,
          from: string, visits: seq<Visit<B>>, log: seq<Serve.PushRow<B>>)
    requires HonestServer(ask, held) && Stands(held(0), from, ok, visits, Asked(from, visits), log)
    ensures var reply := ask(|visits|, Asked(from, visits));
            reply.Page? ==> PageRun(held(0), held(|visits|), from, reply.rows, reply.nextCursor, ok, visits).Start()
  {
    assert held(0) <= held(|visits|);
  }

  lemma {:induction false} NothingOfferedYet<B>(keys: set<string>, from: string)
    ensures OfferedAtEach<B>(keys, from, []) && LogOk<B>(from, from, [])
  {
    forall k | Less(from, k) ensures !AtMost(k, from) {
      LessAsymmetric(from, k);
    }
  }

  lemma {:induction false} RoundDone<B(!new)>(history: seq<(string, string)>, before: seq<(string, string)>,
          start: seq<(string, string)>, kind: string, ask: Answers<B>, ok: (nat, string) -> bool, from: string,
          past: seq<Visit<B>>, visits: seq<Visit<B>>, reply: Serve.PullReply<B>)
    requires Tells(ask, ok, from, past) && reply == ask(|past|, Asked(from, past)) && before == start + Persisted(kind, past)
    requires var cursor := Asked(from, visits);
             && visits == past + (if reply.Page? && reply.rows != []
                                  then [Visit(reply.rows, CursorAfter(Asked(from, past), Kept(ok, |past|, reply.rows)))] else [])
             && history == before + if reply.Page? && reply.rows != [] && cursor != "" then [(kind, cursor)] else []
    ensures Tells(ask, ok, from, visits) && history == start + Persisted(kind, visits)
  {
    if reply.Page? && reply.rows != [] {
      TellsMore(ask, ok, from, past, reply);
      assert visits[..|visits| - 1] == past;
      var added := if Asked(from, visits) == "" then [] else [(kind, Asked(from, visits))];
      assert (start + Persisted(kind, past)) + added == start + (Persisted(kind, past) + added);
    } else {
      assert visits == past && history == before;
    }
  }

  /** A completed pull has tried every key, and lost those that never worked. */
  lemma {:induction false} LostExactly<B>(keys: set<string>, from: string, ok: (nat, string) -> bool, visits: seq<Visit<B>>)
    requires AllOffered(keys, from, visits)
    ensures AllCovered(keys, from, ok, Ingested(ok, visits))
    ensures RoundFree(ok) ==> LostAre(keys, from, ok, Ingested(ok, visits))
  {
    forall k | k in keys && Less(from, k)
      ensures Ingestible(ok, k) ==> k in Serve.KeysOf(Ingested(ok, visits))
      ensures RoundFree(ok) ==> (k in Serve.KeysOf(Ingested(ok, visits)) <==> ok(0, k))
    {
      IngestedAre(ok, visits, k);
      var i :| 0 <= i < |visits| && k in Serve.KeysOf(visits[i].rows);
      assert Ingestible(ok, k) ==> ok(i, k);
    }
  }

  /** The cursor never moves back. */
  lemma {:induction false} CursorGrows<B(!new)>(ask: Answers<B>, held: nat -> set<string>,
          ok: (nat, string) -> bool, from: string, visits: seq<Visit<B>>, n: nat, i: nat)
    requires HonestServer(ask, held) && Tells(ask, ok, from, visits) && n <= i <= |visits|
    ensures AtMost(Asked(from, visits[..n]), Asked(from, visits[..i]))
    decreases i
  {
    if n < i {
      CursorGrows(ask, held, ok, from, visits, n, i - 1);
      assert Asks(ask, ok, from, visits, i - 1);
      var since, rows := Asked(from, visits[..i - 1]), visits[i - 1].rows;
      var kept := Kept(ok, i - 1, rows);
      KeptAre(ok, i - 1, rows);
      if kept != [] {
        assert Serve.KeysOf(kept)[|kept| - 1] in Serve.KeysOf(kept);
        assert Less(since, kept[|kept| - 1].key);
        if n < i - 1 && Asked(from, visits[..n]) != since {
          LessTransitive(Asked(from, visits[..n]), since, kept[|kept| - 1].key);
        }
      }
      assert visits[..i][|visits[..i]| - 1] == visits[i - 1];
    }
  }

  /** A key at or before the cursor is on no later page: one put there once the cursor has
      passed is never offered. */
  lemma {:induction false} BehindIsNeverOffered<B(!new)>(ask: Answers<B>, held: nat -> set<string>,
          ok: (nat, string) -> bool, from: string, visits: seq<Visit<B>>, n: nat, i: nat, k: string)
    requires HonestServer(ask, held) && Tells(ask, ok, from, visits) && n <= i < |visits|
    requires AtMost(k, Asked(from, visits[..n]))
    ensures k !in Serve.KeysOf(visits[i].rows)
  {
    CursorGrows(ask, held, ok, from, visits, n, i);
    assert Asks(ask, ok, from, visits, i);
    var since := Asked(from, visits[..i]);
    if k in Serve.KeysOf(visits[i].rows) {
      StrictTotalOrder();
      assert false;
    }
  }

  /** A fixed, reachable server and an ingest that always works. */
  ghost predicate Steady<B(!new)>(ask: Answers<B>, held: nat -> set<string>, ok: (nat, string) -> bool) {
    && (forall i: nat :: held(i) == held(0))
    && (forall i: nat, since: string {:trigger ask(i, since)} :: ask(i, since).Page?)
    && (forall k: string {:trigger Ingestible(ok, k)} :: Ingestible(ok, k))
  }

  /** On a steady server every page moves the cursor on. */
  lemma {:induction false} SteadyMoves<B(!new)>(ask: Answers<B>, held: nat -> set<string>,
          ok: (nat, string) -> bool, from: string, past: seq<Visit<B>>, reply: Serve.PullReply<B>)
    requires HonestServer(ask, held) && Steady(ask, held, ok) && reply == ask(|past|, Asked(from, past))
    ensures reply.Page?
    ensures var cursor := CursorAfter(Asked(from, past), Kept(ok, |past|, reply.rows));
            reply.rows != [] ==> |After(held(0), cursor)| < |After(held(0), Asked(from, past))|
  {
    var page, kept := Serve.KeysOf(reply.rows), Kept(ok, |past|, reply.rows);
    if page != [] {
      KeptAre(ok, |past|, reply.rows);
      assert Ingestible(ok, page[0]) && ok(|past|, page[0]) && page[0] in page;
      assert Serve.KeysOf(kept)[|kept| - 1] in Serve.KeysOf(kept);
      assert held(|past|) == held(0);
      AfterShrinks(held(0), Asked(from, past), kept[|kept| - 1].key);
    }
  }

  /** Every answer after this cursor is a page with a successor on which nothing can
      be ingested. */
  ghost predicate Stuck<B(!new)>(ask: Answers<B>, ok: (nat, string) -> bool, cursor: string) {
    forall i: nat {:trigger ask(i, cursor)} ::
      ask(i, cursor).Page? ==>
        ask(i, cursor).nextCursor != "" && ask(i, cursor).rows != [] &&
        forall j: nat :: j < |ask(i, cursor).rows| ==> !ok(i, ask(i, cursor).rows[j].key)
  }

  lemma {:induction false} FirstKey<B>(rows: seq<Serve.PushRow<B>>)
    ensures rows != [] ==> rows[0].key in Serve.KeysOf(rows)
  {
    assert rows != [] ==> Serve.KeysOf(rows)[0] == rows[0].key;
  }

  lemma {:induction false} StuckStays<B(!new)>(ask: Answers<B>, ok: (nat, string) -> bool, from: string,
          past: seq<Visit<B>>, reply: Serve.PullReply<B>)
    requires Stuck(ask, ok, from) && Asked(from, past) == from && Ingested(ok, past) == [] && reply == ask(|past|, from)
    ensures reply.Page? ==>
              && reply.nextCursor != "" && reply.rows != []
              && Kept(ok, |past|, reply.rows) == []
              && Ingested(ok, past + [Visit(reply.rows, from)]) == []
    ensures past + [] == past
  {
    if reply.Page? {
      FirstKey(Kept(ok, |past|, reply.rows));
      KeptAre(ok, |past|, reply.rows);
      assert (past + [Visit(reply.rows, from)])[..|past|] == past;
    }
  }
}
