/** Re-encrypting upstream rows in place: pull a page, open each row under the old
    key, seal it under the new one, push the rows back under their own keys. A run
    may die at any request or at any single row of a push. */
module MigrateKey {
  import opened Wrappers
  import opened Lex
  import opened Tenancy
  import opened Aead
  import KeyFiles
  import Serve

  const MIGRATE_PAGE: int := 200

  type Row = Serve.PushRow<Blob>
  type Store = map<string, Blob>

  /** What happens to one page of a run. */
  datatype Luck = Fine | PullFails | SealFails(row: nat) | PushStops(row: nat) | ReplyLost

  datatype Keys = Keys(oldKey: Key, newKey: Key)

  // --- the page as the client rewrites it ---

  /** The rows of a page that open under the old key, sealed again under the new. */
  function Rewrap(rows: seq<Row>, k: Keys, nonce: string -> nat): seq<Row> {
    if rows == [] then []
    else
      var last := rows[|rows| - 1];
      match Open(k.oldKey, last.blob)
      case None => Rewrap(rows[..|rows| - 1], k, nonce)
      case Some(plain) =>
        Rewrap(rows[..|rows| - 1], k, nonce) + [Serve.PushRow(last.key, Seal(k.newKey, plain, nonce(last.key)))]
  }

  predicate Opens(k: Keys, row: Row) {
    Open(k.oldKey, row.blob).Some?
  }

  /** How many rows open under the old key. */
  function Opened(rows: seq<Row>, k: Keys): nat {
    if rows == [] then 0
    else Opened(rows[..|rows| - 1], k) + if Opens(k, rows[|rows| - 1]) then 1 else 0
  }

  /** The batch row re-seals the page row i. */
  predicate Reseals(k: Keys, row: Row, b: Row) {
    row.key == b.key && Opens(k, row) && Open(k.newKey, b.blob) == Open(k.oldKey, row.blob)
  }

  ghost predicate FromPage(k: Keys, rows: seq<Row>, b: Row) {
    exists i :: 0 <= i < |rows| && Reseals(k, rows[i], b)
  }

  ghost predicate HasKey(batch: seq<Row>, key: string) {
    exists j :: 0 <= j < |batch| && batch[j].key == key
  }

  lemma {:induction false} RewrapFromPage(rows: seq<Row>, k: Keys, nonce: string -> nat)
    ensures |Rewrap(rows, k, nonce)| == Opened(rows, k)
    ensures forall b :: b in Rewrap(rows, k, nonce) ==> FromPage(k, rows, b)
    decreases |rows|
  {
    if rows != [] {
      var init, last := rows[..|rows| - 1], rows[|rows| - 1];
      RewrapFromPage(init, k, nonce);
      forall b | b in Rewrap(rows, k, nonce) ensures FromPage(k, rows, b) {
        if b in Rewrap(init, k, nonce) {
          var i :| 0 <= i < |init| && Reseals(k, init[i], b);
          assert rows[i] == init[i];
        } else {
          assert Reseals(k, rows[|rows| - 1], b);
        }
      }
    }
  }

  lemma {:induction false} RewrapHasAll(rows: seq<Row>, k: Keys, nonce: string -> nat, i: nat)
    requires i < |rows| && Opens(k, rows[i])
    ensures HasKey(Rewrap(rows, k, nonce), rows[i].key)
    decreases |rows|
  {
    var init := rows[..|rows| - 1];
    var all := Rewrap(rows, k, nonce);
    if i < |init| {
      RewrapHasAll(init, k, nonce, i);
      var part := Rewrap(init, k, nonce);
      var j :| 0 <= j < |part| && part[j].key == rows[i].key;
      assert all[j] == part[j];
    } else {
      assert all[|all| - 1].key == rows[i].key;
    }
  }

  lemma {:induction false} RewrapAscending(rows: seq<Row>, k: Keys, nonce: string -> nat)
    requires Ascending(Serve.KeysOf(rows))
    ensures Ascending(Serve.KeysOf(Rewrap(rows, k, nonce)))
    decreases |rows|
  {
    if rows != [] {
      var init, last := rows[..|rows| - 1], rows[|rows| - 1];
      assert Serve.KeysOf(init) == Serve.KeysOf(rows)[..|init|];
      RewrapAscending(init, k, nonce);
      var part := Rewrap(init, k, nonce);
      if Opens(k, last) {
        if part != [] {
          RewrapFromPage(init, k, nonce);
          assert FromPage(k, init, part[|part| - 1]);
          var i :| 0 <= i < |init| && Reseals(k, init[i], part[|part| - 1]);
          assert Less(Serve.KeysOf(rows)[i], Serve.KeysOf(rows)[|init|]);
        }
        AscendingAppend(Serve.KeysOf(part), last.key);
        var all := Rewrap(rows, k, nonce);
        assert Serve.KeysOf(all) == Serve.KeysOf(part) + [last.key];
      }
    }
  }

  // --- what a push of rewrapped rows does to the store ---

  /** A stored row after part of a migration: as it was, or re-sealed. */
  ghost predicate KeptOrMoved(k: Keys, before: Blob, after: Blob) {
    after == before || (Open(k.oldKey, before).Some? && Open(k.newKey, after) == Open(k.oldKey, before))
  }

  /** One store follows from another by re-sealing some rows of one kind: the key set
      and every other row stay. */
  ghost predicate Migrates(brain: string, kind: string, k: Keys, before: Store, after: Store) {
    && after.Keys == before.Keys
    && (forall s :: s in before ==> KeptOrMoved(k, before[s], after[s]))
    && (forall s :: s in before && !(ScopePrefix(brain, kind) + "/" <= s) ==> after[s] == before[s])
  }

  /** Every row of the kind that opened under the old key has moved. */
  ghost predicate FullyMigrated(brain: string, kind: string, k: Keys, before: Store, after: Store) {
    && Migrates(brain, kind, k, before, after)
    && (forall s :: s in before && ScopePrefix(brain, kind) + "/" <= s && Open(k.oldKey, before[s]).Some? ==>
          Open(k.newKey, after[s]) == Open(k.oldKey, before[s]))
  }

  /** Interrupted runs add up: re-sealing twice is re-sealing. */
  lemma {:induction false} MigratesTwice(brain: string, kind: string, k: Keys, a: Store, b: Store, c: Store)
    requires Migrates(brain, kind, k, a, b) && Migrates(brain, kind, k, b, c)
    ensures Migrates(brain, kind, k, a, c)
  {
    forall s | s in a ensures KeptOrMoved(k, a[s], c[s]) {
      assert s in b && KeptOrMoved(k, a[s], b[s]) && KeptOrMoved(k, b[s], c[s]);
    }
  }

  /** Any number of runs cut off anywhere, then one that completes, leave what one
      complete run leaves: every row that opened under the old key at the start opens
      under the new key to the same plaintext, and nothing else changed. */
  lemma {:induction false} InterruptedRunsComplete(brain: string, kind: string, k: Keys, stores: seq<Store>)
    requires |stores| >= 2
    requires forall i :: 0 < i < |stores| - 1 ==> Migrates(brain, kind, k, stores[i - 1], stores[i])
    requires FullyMigrated(brain, kind, k, stores[|stores| - 2], stores[|stores| - 1])
    ensures FullyMigrated(brain, kind, k, stores[0], stores[|stores| - 1])
    decreases |stores|
  {
    if |stores| > 2 {
      var rest := stores[1..];
      forall i | 0 < i < |rest| - 1 ensures Migrates(brain, kind, k, rest[i - 1], rest[i]) {
        assert Migrates(brain, kind, k, stores[i + 1 - 1], stores[i + 1]);
      }
      InterruptedRunsComplete(brain, kind, k, rest);
      var a, b, c := stores[0], stores[1], stores[|stores| - 1];
      assert Migrates(brain, kind, k, stores[1 - 1], stores[1]);
      MigratesTwice(brain, kind, k, a, b, c);
      forall s | s in a && ScopePrefix(brain, kind) + "/" <= s && Open(k.oldKey, a[s]).Some?
        ensures Open(k.newKey, c[s]) == Open(k.oldKey, a[s])
      {
        assert s in b && KeptOrMoved(k, a[s], b[s]) && KeptOrMoved(k, b[s], c[s]);
      }
    }
  }

  /** The client keys whose row opens under the old key. */
  ghost function OldKeyRows(store: Store, brain: string, kind: string, k: Keys): set<string> {
    set c | c in Serve.ClientKeys(store, brain, kind) && ScopeKey(brain, c) in store &&
            Open(k.oldKey, store[ScopeKey(brain, c)]).Some?
  }

  /** After a complete run a further run finds nothing to migrate, unless the two keys
      are the same key and there were rows under it. */
  lemma {:induction false} NothingLeft(brain: string, kind: string, k: Keys, before: Store, after: Store)
    requires FullyMigrated(brain, kind, k, before, after)
    ensures OldKeyRows(after, brain, kind, k) == {} <==> k.oldKey != k.newKey || OldKeyRows(before, brain, kind, k) == {}
  {
    Serve.ClientKeysAre(before, brain, kind);
    Serve.ClientKeysAre(after, brain, kind);
    forall c | OfKind(kind, c) && ScopeKey(brain, c) in before
      ensures Open(k.oldKey, after[ScopeKey(brain, c)]).Some? <==>
              k.oldKey == k.newKey && Open(k.oldKey, before[ScopeKey(brain, c)]).Some?
    {
      UnderPrefix(brain, kind, c);
      assert KeptOrMoved(k, before[ScopeKey(brain, c)], after[ScopeKey(brain, c)]);
    }
    if k.oldKey == k.newKey {
      assert OldKeyRows(after, brain, kind, k) == OldKeyRows(before, brain, kind, k);
    } else {
      assert OldKeyRows(after, brain, kind, k) == {};
    }
  }

  // --- one run over one kind ---

  /** The page rows are what the store holds for client keys of the kind. */
  ghost predicate PageOf(store: Store, brain: string, kind: string, rows: seq<Row>) {
    && Ascending(Serve.KeysOf(rows))
    && (forall i :: 0 <= i < |rows| ==>
          OfKind(kind, rows[i].key) && ScopeKey(brain, rows[i].key) in store &&
          rows[i].blob == store[ScopeKey(brain, rows[i].key)])
  }

  ghost predicate InPage(brain: string, rows: seq<Row>, s: string) {
    exists i :: 0 <= i < |rows| && ScopeKey(brain, rows[i].key) == s
  }

  lemma {:induction false} BatchKeysDiffer(brain: string, batch: seq<Row>, i: nat, j: nat)
    requires Ascending(Serve.KeysOf(batch)) && i < j < |batch|
    ensures ScopeKey(brain, batch[i].key) != ScopeKey(brain, batch[j].key)
  {
    assert Less(Serve.KeysOf(batch)[i], Serve.KeysOf(batch)[j]);
    LessIrreflexive(batch[i].key);
    UnscopeUndoesScope(brain, batch[i].key);
    UnscopeUndoesScope(brain, batch[j].key);
  }

  /** Pushing the first n rewrapped rows re-seals those rows and touches nothing else. */
  lemma {:induction false} PushedRow(brain: string, kind: string, k: Keys, store: Store, rows: seq<Row>,
          nonce: string -> nat, n: nat, s: string)
    requires PageOf(store, brain, kind, rows) && n <= |Rewrap(rows, k, nonce)|
    ensures var after := Serve.PutRows(store, brain, Rewrap(rows, k, nonce)[..n]);
            && (s in after <==> s in store)
            && (s in store ==> KeptOrMoved(k, store[s], after[s]))
            && (s in store && !InPage(brain, rows, s) ==> after[s] == store[s])
  {
    var batch := Rewrap(rows, k, nonce);
    var part := batch[..n];
    RewrapAscending(rows, k, nonce);
    RewrapFromPage(rows, k, nonce);
    if j: nat :| j < |part| && ScopeKey(brain, part[j].key) == s {
      forall m | j < m < |part| ensures ScopeKey(brain, part[m].key) != ScopeKey(brain, part[j].key) {
        BatchKeysDiffer(brain, batch, j, m);
      }
      Serve.PutRowsStores(store, brain, part, j);
      assert part[j] == batch[j] && batch[j] in batch;
      var i :| 0 <= i < |rows| && Reseals(k, rows[i], part[j]);
    } else {
      Serve.PutRowsFrame(store, brain, part, s);
    }
  }

  /** Pushing the whole page moves every row of it that opened. */
  lemma {:induction false} PushedPage(brain: string, kind: string, k: Keys, store: Store, rows: seq<Row>,
          nonce: string -> nat, i: nat)
    requires PageOf(store, brain, kind, rows) && i < |rows| && Opens(k, rows[i])
    ensures var after := Serve.PutRows(store, brain, Rewrap(rows, k, nonce));
            ScopeKey(brain, rows[i].key) in after && Open(k.newKey, after[ScopeKey(brain, rows[i].key)]) == Open(k.oldKey, rows[i].blob)
  {
    var batch := Rewrap(rows, k, nonce);
    RewrapAscending(rows, k, nonce);
    RewrapFromPage(rows, k, nonce);
    RewrapHasAll(rows, k, nonce, i);
    var j :| 0 <= j < |batch| && batch[j].key == rows[i].key;
    forall m | j < m < |batch| ensures ScopeKey(brain, batch[m].key) != ScopeKey(brain, batch[j].key) {
      BatchKeysDiffer(brain, batch, j, m);
    }
    Serve.PutRowsStores(store, brain, batch, j);
    assert batch[j] in batch;
    var i' :| 0 <= i' < |rows| && Reseals(k, rows[i'], batch[j]);
    AscendingIsInjective(Serve.KeysOf(rows), i, i');
  }

  lemma {:induction false} PushMigrates(brain: string, kind: string, k: Keys, store: Store, rows: seq<Row>,
          nonce: string -> nat, n: nat)
    requires PageOf(store, brain, kind, rows) && n <= |Rewrap(rows, k, nonce)|
    ensures Migrates(brain, kind, k, store, Serve.PutRows(store, brain, Rewrap(rows, k, nonce)[..n]))
  {
    var after := Serve.PutRows(store, brain, Rewrap(rows, k, nonce)[..n]);
    forall s ensures s in after <==> s in store {
      PushedRow(brain, kind, k, store, rows, nonce, n, s);
    }
    forall s | s in store
      ensures KeptOrMoved(k, store[s], after[s])
      ensures !(ScopePrefix(brain, kind) + "/" <= s) ==> after[s] == store[s]
    {
      PushedRow(brain, kind, k, store, rows, nonce, n, s);
      if InPage(brain, rows, s) {
        var i :| 0 <= i < |rows| && ScopeKey(brain, rows[i].key) == s;
        UnderPrefix(brain, kind, rows[i].key);
      }
    }
  }

  /** Midway through a run: `seen` are the rows at or before the cursor as they were
      at the start; they have all been handled, the rows after it not at all. */
  datatype Run = Run(brain: string, kind: string, k: Keys, start: Store, dryRun: bool) {
    ghost function Keys(): set<string> {
      Serve.ClientKeys(start, brain, kind)
    }

    ghost predicate Seen(cursor: string, seen: seq<Row>) {
      && PageOf(start, brain, kind, seen)
      && (forall c :: c in Serve.KeysOf(seen) <==> c in Keys() && AtMost(c, cursor))
    }

    ghost predicate Passed(cursor: string) {
      forall c :: c in Keys() ==> AtMost(c, cursor)
    }

    ghost predicate Untouched(cursor: string, store: Store) {
      forall c :: c in Keys() && Less(cursor, c) ==>
        ScopeKey(brain, c) in start && ScopeKey(brain, c) in store && store[ScopeKey(brain, c)] == start[ScopeKey(brain, c)]
    }

    ghost predicate AllMoved(seen: seq<Row>, store: Store) {
      forall i :: 0 <= i < |seen| && Opens(k, seen[i]) ==>
        ScopeKey(brain, seen[i].key) in store && Open(k.newKey, store[ScopeKey(brain, seen[i].key)]) == Open(k.oldKey, seen[i].blob)
    }

    ghost predicate Moved(cursor: string, seen: seq<Row>, store: Store) {
      && Migrates(brain, kind, k, start, store)
      && (if dryRun then store == start else Untouched(cursor, store) && AllMoved(seen, store))
    }

    ghost predicate Mid(cursor: string, seen: seq<Row>, store: Store, migrated: nat, skipped: nat) {
      && Seen(cursor, seen)
      && Moved(cursor, seen, store)
      && migrated == Opened(seen, k) && migrated + skipped == |seen|
    }
  }

  lemma {:induction false} OpenedConcat(a: seq<Row>, b: seq<Row>, k: Keys)
    ensures Opened(a + b, k) == Opened(a, k) + Opened(b, k)
    decreases |b|
  {
    if b == [] {
      assert a + b == a;
    } else {
      OpenedConcat(a, b[..|b| - 1], k);
      assert (a + b)[..|a + b| - 1] == a + b[..|b| - 1];
    }
  }

  ghost function OpenedKeys(rows: seq<Row>, k: Keys): set<string> {
    set i | 0 <= i < |rows| && Opens(k, rows[i]) :: rows[i].key
  }

  lemma {:induction false} OpenedCounts(rows: seq<Row>, k: Keys)
    requires Ascending(Serve.KeysOf(rows))
    ensures Opened(rows, k) == |OpenedKeys(rows, k)|
    decreases |rows|
  {
    if rows != [] {
      var init, last := rows[..|rows| - 1], rows[|rows| - 1];
      assert Serve.KeysOf(init) == Serve.KeysOf(rows)[..|init|];
      OpenedCounts(init, k);
      assert forall i :: 0 <= i < |init| ==> init[i] == rows[i];
      if Opens(k, last) {
        forall i | 0 <= i < |init| ensures rows[i].key != last.key {
          assert Less(Serve.KeysOf(rows)[i], Serve.KeysOf(rows)[|init|]);
          LessIrreflexive(last.key);
        }
        assert last.key !in OpenedKeys(init, k);
        assert OpenedKeys(rows, k) == OpenedKeys(init, k) + {last.key};
      } else {
        assert OpenedKeys(rows, k) == OpenedKeys(init, k);
      }
    }
  }

  /** One answered page of the run. */
  ghost predicate Answered(r: Run, cursor: string, store: Store, rows: seq<Row>, next: string) {
    && IsPage(Serve.ClientKeys(store, r.brain, r.kind), cursor, MIGRATE_PAGE, Serve.KeysOf(rows), next)
    && Serve.RowsAreStored(store, r.brain, rows)
  }

  lemma {:induction false} SameKeys(r: Run, store: Store)
    requires store.Keys == r.start.Keys
    ensures Serve.ClientKeys(store, r.brain, r.kind) == r.Keys()
  {
    Serve.ClientKeysAre(store, r.brain, r.kind);
    Serve.ClientKeysAre(r.start, r.brain, r.kind);
  }

  /** The rows of an answered page are still as they were at the start. */
  lemma {:induction false} PageIsFresh(r: Run, cursor: string, seen: seq<Row>, store: Store, migrated: nat, skipped: nat,
                    rows: seq<Row>, next: string)
    requires r.Mid(cursor, seen, store, migrated, skipped) && Answered(r, cursor, store, rows, next)
    ensures PageOf(store, r.brain, r.kind, rows) && PageOf(r.start, r.brain, r.kind, rows)
    ensures forall i :: 0 <= i < |rows| ==> Less(cursor, rows[i].key)
  {
    SameKeys(r, store);
    Serve.ClientKeysAre(store, r.brain, r.kind);
    forall i | 0 <= i < |rows|
      ensures OfKind(r.kind, rows[i].key) && Less(cursor, rows[i].key)
      ensures ScopeKey(r.brain, rows[i].key) in r.start && rows[i].blob == r.start[ScopeKey(r.brain, rows[i].key)]
    {
      assert Serve.KeysOf(rows)[i] == rows[i].key && rows[i].key in Serve.KeysOf(rows);
    }
  }

  lemma {:induction false} SeenGrows(r: Run, cursor: string, seen: seq<Row>, rows: seq<Row>, next: string)
    requires r.Seen(cursor, seen) && rows != [] && PageOf(r.start, r.brain, r.kind, rows)
    requires IsPage(r.Keys(), cursor, MIGRATE_PAGE, Serve.KeysOf(rows), next)
    ensures r.Seen(rows[|rows| - 1].key, seen + rows)
  {
    var page, all := Serve.KeysOf(rows), Serve.KeysOf(seen + rows);
    var last := rows[|rows| - 1].key;
    assert all == Serve.KeysOf(seen) + page && page[|page| - 1] == last && last in page;
    AscendingConcat(Serve.KeysOf(seen), page, cursor);
    forall c ensures c in all <==> c in r.Keys() && AtMost(c, last) {
      SeenUpToLast(r, cursor, page, next, c);
      assert c in all <==> c in Serve.KeysOf(seen) || c in page;
    }
    PagesJoin(r.start, r.brain, r.kind, seen, rows);
  }

  lemma {:induction false} PagesJoin(store: Store, brain: string, kind: string, a: seq<Row>, b: seq<Row>)
    requires PageOf(store, brain, kind, a) && PageOf(store, brain, kind, b)
    requires Ascending(Serve.KeysOf(a + b))
    ensures PageOf(store, brain, kind, a + b)
  {
    forall i | 0 <= i < |a + b|
      ensures OfKind(kind, (a + b)[i].key) && ScopeKey(brain, (a + b)[i].key) in store
      ensures (a + b)[i].blob == store[ScopeKey(brain, (a + b)[i].key)]
    {
      assert (a + b)[i] == if i < |a| then a[i] else b[i - |a|];
    }
  }

  lemma {:induction false} SeenUpToLast(r: Run, cursor: string, page: seq<string>, next: string, c: string)
    requires page != [] && IsPage(r.Keys(), cursor, MIGRATE_PAGE, page, next)
    ensures c in r.Keys() && AtMost(c, page[|page| - 1]) <==> (c in r.Keys() && AtMost(c, cursor)) || c in page
  {
    var last := page[|page| - 1];
    assert last in page;
    StrictTotalOrder();
    if c in page {
      LastIsGreatest(page, c);
    }
    if c in r.Keys() && Less(cursor, c) && Less(c, last) {
      PageHasNoHoles(r.Keys(), cursor, MIGRATE_PAGE, page, next, last, c);
    }
  }

  /** A row off the page is as it was. */
  lemma {:induction false} OffPageKept(r: Run, cursor: string, store: Store, rows: seq<Row>, nonce: string -> nat, c: string)
    requires PageOf(store, r.brain, r.kind, rows) && rows != [] && Ascending(Serve.KeysOf(rows))
    requires forall i :: 0 <= i < |rows| ==> Less(cursor, rows[i].key)
    requires (Less(rows[|rows| - 1].key, c) || AtMost(c, cursor)) && ScopeKey(r.brain, c) in store
    ensures var after := Serve.PutRows(store, r.brain, Rewrap(rows, r.k, nonce));
            ScopeKey(r.brain, c) in after && after[ScopeKey(r.brain, c)] == store[ScopeKey(r.brain, c)]
  {
    var batch := Rewrap(rows, r.k, nonce);
    assert batch[..|batch|] == batch;
    OffPage(r.brain, rows, cursor, c);
    PushedRow(r.brain, r.kind, r.k, store, rows, nonce, |batch|, ScopeKey(r.brain, c));
  }

  lemma {:induction false} StaysUntouched(r: Run, cursor: string, store: Store, rows: seq<Row>, nonce: string -> nat)
    requires r.Untouched(cursor, store)
    requires PageOf(store, r.brain, r.kind, rows) && rows != [] && Ascending(Serve.KeysOf(rows))
    requires forall i :: 0 <= i < |rows| ==> Less(cursor, rows[i].key)
    ensures r.Untouched(rows[|rows| - 1].key, Serve.PutRows(store, r.brain, Rewrap(rows, r.k, nonce)))
  {
    hide PageOf, Serve.PutRows, Rewrap;
    forall c | c in r.Keys() && Less(rows[|rows| - 1].key, c)
      ensures ScopeKey(r.brain, c) in store && Less(cursor, c)
      ensures var after := Serve.PutRows(store, r.brain, Rewrap(rows, r.k, nonce));
              ScopeKey(r.brain, c) in after && after[ScopeKey(r.brain, c)] == store[ScopeKey(r.brain, c)]
    {
      LessTransitive(cursor, rows[|rows| - 1].key, c);
      OffPageKept(r, cursor, store, rows, nonce, c);
    }
  }

  lemma {:induction false} StaysMoved(r: Run, cursor: string, seen: seq<Row>, store: Store, rows: seq<Row>, nonce: string -> nat)
    requires r.AllMoved(seen, store) && forall i :: 0 <= i < |seen| ==> AtMost(seen[i].key, cursor)
    requires PageOf(store, r.brain, r.kind, rows) && rows != [] && Ascending(Serve.KeysOf(rows))
    requires forall i :: 0 <= i < |rows| ==> Less(cursor, rows[i].key)
    ensures r.AllMoved(seen + rows, Serve.PutRows(store, r.brain, Rewrap(rows, r.k, nonce)))
  {
    hide PageOf, Serve.PutRows, Rewrap;
    var all, after := seen + rows, Serve.PutRows(store, r.brain, Rewrap(rows, r.k, nonce));
    forall i | 0 <= i < |all| && Opens(r.k, all[i])
      ensures ScopeKey(r.brain, all[i].key) in after
      ensures Open(r.k.newKey, after[ScopeKey(r.brain, all[i].key)]) == Open(r.k.oldKey, all[i].blob)
    {
      if i < |seen| {
        assert all[i] == seen[i];
        OffPageKept(r, cursor, store, rows, nonce, seen[i].key);
      } else {
        assert all[i] == rows[i - |seen|];
        PushedPage(r.brain, r.kind, r.k, store, rows, nonce, i - |seen|);
      }
    }
  }

  lemma {:induction false} NotThisRow(brain: string, page: seq<string>, cursor: string, c: string, i: nat)
    requires i < |page| && Ascending(page) && Less(cursor, page[i])
    requires Less(page[|page| - 1], c) || AtMost(c, cursor)
    ensures ScopeKey(brain, page[i]) != ScopeKey(brain, c)
  {
    assert page[i] in page;
    LastIsGreatest(page, page[i]);
    if page[i] == c {
      LessIrreflexive(c);
      if c != page[|page| - 1] {
        LessAsymmetric(c, page[|page| - 1]);
      }
      LessAsymmetric(cursor, c);
      assert false;
    }
    UnscopeUndoesScope(brain, page[i]);
    UnscopeUndoesScope(brain, c);
  }

  lemma {:induction false} OffPage(brain: string, rows: seq<Row>, cursor: string, c: string)
    requires rows != [] && Ascending(Serve.KeysOf(rows))
    requires forall i :: 0 <= i < |rows| ==> Less(cursor, rows[i].key)
    requires Less(rows[|rows| - 1].key, c) || AtMost(c, cursor)
    ensures !InPage(brain, rows, ScopeKey(brain, c))
  {
    forall i | 0 <= i < |rows| ensures ScopeKey(brain, rows[i].key) != ScopeKey(brain, c) {
      NotThisRow(brain, Serve.KeysOf(rows), cursor, c, i);
    }
  }

  lemma {:induction false} PushMovesOn(r: Run, store: Store, rows: seq<Row>, nonce: string -> nat)
    requires Migrates(r.brain, r.kind, r.k, r.start, store) && PageOf(store, r.brain, r.kind, rows)
    ensures Migrates(r.brain, r.kind, r.k, r.start, Serve.PutRows(store, r.brain, Rewrap(rows, r.k, nonce)))
  {
    var batch := Rewrap(rows, r.k, nonce);
    hide Migrates, PageOf, Serve.PutRows, Rewrap;
    PushMigrates(r.brain, r.kind, r.k, store, rows, nonce, |batch|);
    assert batch[..|batch|] == batch;
    MigratesTwice(r.brain, r.kind, r.k, r.start, store, Serve.PutRows(store, r.brain, batch));
  }

  lemma {:induction false} SeenAreBefore(r: Run, cursor: string, seen: seq<Row>)
    requires r.Seen(cursor, seen)
    ensures forall i :: 0 <= i < |seen| ==> AtMost(seen[i].key, cursor)
  {
    forall i | 0 <= i < |seen| ensures AtMost(seen[i].key, cursor) {
      assert Serve.KeysOf(seen)[i] in Serve.KeysOf(seen);
    }
  }

  lemma {:induction false} PageMoved(r: Run, cursor: string, seen: seq<Row>, store: Store, rows: seq<Row>, nonce: string -> nat)
    requires r.Moved(cursor, seen, store) && forall i :: 0 <= i < |seen| ==> AtMost(seen[i].key, cursor)
    requires PageOf(store, r.brain, r.kind, rows) && rows != [] && Ascending(Serve.KeysOf(rows))
    requires forall i :: 0 <= i < |rows| ==> Less(cursor, rows[i].key)
    ensures r.Moved(rows[|rows| - 1].key, seen + rows, if r.dryRun then store else Serve.PutRows(store, r.brain, Rewrap(rows, r.k, nonce)))
  {
    hide PageOf, Migrates, Run.Untouched, Run.AllMoved, Rewrap, Serve.PutRows;
    if !r.dryRun {
      StaysUntouched(r, cursor, store, rows, nonce);
      StaysMoved(r, cursor, seen, store, rows, nonce);
      PushMovesOn(r, store, rows, nonce);
    }
  }

  lemma {:induction false} PageCounted(r: Run, seen: seq<Row>, rows: seq<Row>, nonce: string -> nat)
    ensures |Rewrap(rows, r.k, nonce)| <= |rows|
    ensures Opened(seen + rows, r.k) == Opened(seen, r.k) + |Rewrap(rows, r.k, nonce)|
  {
    OpenedConcat(seen, rows, r.k);
    RewrapFromPage(rows, r.k, nonce);
    OpenedBound(rows, r.k);
  }

  /** A page pushed in full moves the run on to the page's last key. */
  lemma {:induction false} PageDone(r: Run, cursor: string, seen: seq<Row>, store: Store, migrated: nat, skipped: nat,
                 rows: seq<Row>, next: string, nonce: string -> nat)
    requires r.Mid(cursor, seen, store, migrated, skipped) && Answered(r, cursor, store, rows, next) && rows != []
    ensures var batch := Rewrap(rows, r.k, nonce);
            && |batch| <= |rows|
            && r.Mid(rows[|rows| - 1].key, seen + rows, if r.dryRun then store else Serve.PutRows(store, r.brain, batch),
                     migrated + |batch|, skipped + |rows| - |batch|)
  {
    var last, batch := rows[|rows| - 1].key, Rewrap(rows, r.k, nonce);
    var after := if r.dryRun then store else Serve.PutRows(store, r.brain, batch);
    PageSeen(r, cursor, seen, store, migrated, skipped, rows, next);
    PageMoved(r, cursor, seen, store, rows, nonce);
    PageCounted(r, seen, rows, nonce);
    MidHolds(r, last, seen + rows, after, migrated + |batch|, skipped + |rows| - |batch|);
  }

  lemma {:induction false} MidHolds(r: Run, cursor: string, seen: seq<Row>, store: Store, migrated: nat, skipped: nat)
    requires r.Seen(cursor, seen) && r.Moved(cursor, seen, store) && migrated == Opened(seen, r.k) && migrated + skipped == |seen|
    ensures r.Mid(cursor, seen, store, migrated, skipped)
  {
  }

  lemma {:induction false} PageSeen(r: Run, cursor: string, seen: seq<Row>, store: Store, migrated: nat,
          skipped: nat, rows: seq<Row>, next: string)
    requires r.Mid(cursor, seen, store, migrated, skipped) && Answered(r, cursor, store, rows, next) && rows != []
    ensures r.Seen(rows[|rows| - 1].key, seen + rows)
    ensures PageOf(store, r.brain, r.kind, rows) && Ascending(Serve.KeysOf(rows))
    ensures forall i :: 0 <= i < |rows| ==> Less(cursor, rows[i].key)
    ensures forall i :: 0 <= i < |seen| ==> AtMost(seen[i].key, cursor)
  {
    PageIsFresh(r, cursor, seen, store, migrated, skipped, rows, next);
    SameStoreKeys(r, cursor, seen, store);
    PageIsInOrder(r, cursor, store, rows, next);
    hide PageOf, Answered, Run.Keys, IsPage;
    SeenGrows(r, cursor, seen, rows, next);
    SeenAreBefore(r, cursor, seen);
  }

  lemma {:induction false} SameStoreKeys(r: Run, cursor: string, seen: seq<Row>, store: Store)
    requires r.Moved(cursor, seen, store)
    ensures store.Keys == r.start.Keys
  {
  }

  lemma {:induction false} PageIsInOrder(r: Run, cursor: string, store: Store, rows: seq<Row>, next: string)
    requires Answered(r, cursor, store, rows, next) && store.Keys == r.start.Keys
    ensures Ascending(Serve.KeysOf(rows)) && IsPage(r.Keys(), cursor, MIGRATE_PAGE, Serve.KeysOf(rows), next)
  {
    SameKeys(r, store);
  }

  lemma {:induction false} OpenedBound(rows: seq<Row>, k: Keys)
    ensures Opened(rows, k) <= |rows|
    decreases |rows|
  {
    if rows != [] {
      OpenedBound(rows[..|rows| - 1], k);
    }
  }

  /** The last page handled: everything has been seen, moved and counted. */
  lemma {:induction false} RunDone(r: Run, cursor: string, seen: seq<Row>, store: Store, migrated: nat, skipped: nat)
    requires r.Mid(cursor, seen, store, migrated, skipped)
    requires r.Passed(cursor)
    ensures migrated == |OldKeyRows(r.start, r.brain, r.kind, r.k)|
    ensures migrated + skipped == |r.Keys()|
    ensures !r.dryRun ==> FullyMigrated(r.brain, r.kind, r.k, r.start, store)
  {
    var keys := Serve.KeysOf(seen);
    assert Elements(keys) == r.Keys();
    ElementsCount(keys);
    OpenedCounts(seen, r.k);
    Serve.ClientKeysAre(r.start, r.brain, r.kind);
    forall c ensures c in OpenedKeys(seen, r.k) <==> c in OldKeyRows(r.start, r.brain, r.kind, r.k) {
      if c in r.Keys() {
        var i :| 0 <= i < |keys| && keys[i] == c;
        assert seen[i].key == c;
      }
      if c in OpenedKeys(seen, r.k) {
        var i :| 0 <= i < |seen| && Opens(r.k, seen[i]) && seen[i].key == c;
        assert keys[i] in keys;
      }
    }
    assert OpenedKeys(seen, r.k) == OldKeyRows(r.start, r.brain, r.kind, r.k);
    if !r.dryRun {
      forall s | s in r.start && ScopePrefix(r.brain, r.kind) + "/" <= s && Open(r.k.oldKey, r.start[s]).Some?
        ensures Open(r.k.newKey, store[s]) == Open(r.k.oldKey, r.start[s])
      {
        Serve.StoredIsScoped(r.brain, r.kind, s);
        var c := UnscopeKey(r.brain, s);
        assert c in r.Keys() && c in keys;
        var i :| 0 <= i < |keys| && keys[i] == c;
        assert seen[i].key == c;
      }
    }
  }

  datatype Tally = Tally(migrated: nat, skipped: nat, complete: bool)

  /** Opens and re-seals one page; `stop` is the row whose sealing fails, if any. */
  method BuildBatch(rows: seq<Row>, k: Keys, nonce: string -> nat, stop: nat)
    returns (ok: bool, batch: seq<Row>, skipped: nat, cursor: string)
    requires rows != []
    ensures ok ==> batch == Rewrap(rows, k, nonce) && |batch| + skipped == |rows| && cursor == rows[|rows| - 1].key
    ensures stop >= |rows| ==> ok
  {
    batch, skipped, cursor := [], 0, "";
    var j := 0;
    while j < |rows|
      invariant 0 <= j <= |rows|
      invariant batch == Rewrap(rows[..j], k, nonce) && |batch| + skipped == j
      invariant j > 0 ==> cursor == rows[j - 1].key
    {
      assert rows[..j + 1][..j] == rows[..j];
      match Open(k.oldKey, rows[j].blob) {
        case None =>
          skipped := skipped + 1;
        case Some(plain) =>
          if j == stop {
            return false, batch, skipped, cursor;
          }
          batch := batch + [Serve.PushRow(rows[j].key, Seal(k.newKey, plain, nonce(rows[j].key)))];
      }
      cursor := rows[j].key;
      j := j + 1;
    }
    assert rows[..j] == rows;
    ok := true;
  }

  /** A page read by the run is answered from the server's store. */
  lemma {:induction false} BatchIsAccepted(server: Serve.Server<Blob>, brain: string, kind: string, k: Keys,
          rows: seq<Row>, nonce: string -> nat)
    requires server.Valid() && ValidKind(kind) && PageOf(server.backend.blobs, brain, kind, rows)
    ensures Serve.AcceptedPrefix(brain, Rewrap(rows, k, nonce)) == |Rewrap(rows, k, nonce)|
  {
    var batch := Rewrap(rows, k, nonce);
    RewrapFromPage(rows, k, nonce);
    Serve.AcceptedPrefixIs(brain, batch);
    forall i | 0 <= i < |batch| ensures Serve.PushAccepts(brain, batch[i]) {
      assert batch[i] in batch;
      var j :| 0 <= j < |rows| && Reseals(k, rows[j], batch[i]);
      assert KeyFiles.ValidKey(ScopeKey(brain, rows[j].key));
    }
  }

  ghost function Pending(r: Run, cursor: string): set<string> {
    set c | c in r.Keys() && Less(cursor, c)
  }

  lemma {:induction false} PendingShrinks(r: Run, cursor: string, last: string)
    requires last in r.Keys() && Less(cursor, last)
    ensures |Pending(r, last)| < |Pending(r, cursor)|
  {
    StrictTotalOrder();
    assert last in Pending(r, cursor) && last !in Pending(r, last);
    SubsetSize(Pending(r, last), Pending(r, cursor) - {last});
  }

  lemma {:induction false} StartMid(r: Run)
    ensures r.Mid("", [], r.start, 0, 0)
  {
    Serve.ClientKeysAre(r.start, r.brain, r.kind);
    forall c | c in r.Keys() ensures !AtMost(c, "") {
      assert c != "";
    }
  }

  /** A short page leaves nothing behind it. */
  lemma {:induction false} LastPage(r: Run, cursor: string, page: seq<string>, next: string)
    requires IsPage(r.Keys(), cursor, MIGRATE_PAGE, page, next)
    ensures page == [] ==> forall c :: c in r.Keys() ==> AtMost(c, cursor)
    ensures page != [] ==> page[|page| - 1] in r.Keys() && Less(cursor, page[|page| - 1])
    ensures page != [] && next == "" ==> forall c :: c in r.Keys() ==> AtMost(c, page[|page| - 1])
  {
    if page == [] {
      forall c | c in r.Keys() ensures AtMost(c, cursor) {
        LessTotal(c, cursor);
      }
    } else {
      var last := page[|page| - 1];
      assert last in page;
      forall c | c in r.Keys() && next == "" ensures AtMost(c, last) {
        LessTotal(c, cursor);
        if Less(cursor, c) {
          LastIsGreatest(page, c);
        } else if c != cursor {
          LessTransitive(c, cursor, last);
        }
      }
    }
  }

  /** A cut-off push is a step of the migration, whichever row it stops at. */
  lemma {:induction false} PushKeepsMigrating(r: Run, cursor: string, seen: seq<Row>, store: Store, migrated: nat, skipped: nat,
                           rows: seq<Row>, next: string, nonce: string -> nat, n: nat)
    requires r.Mid(cursor, seen, store, migrated, skipped) && Answered(r, cursor, store, rows, next)
    requires n <= |Rewrap(rows, r.k, nonce)|
    ensures Migrates(r.brain, r.kind, r.k, r.start, Serve.PutRows(store, r.brain, Rewrap(rows, r.k, nonce)[..n]))
  {
    PageIsFresh(r, cursor, seen, store, migrated, skipped, rows, next);
    PushMigrates(r.brain, r.kind, r.k, store, rows, nonce, n);
    MigratesTwice(r.brain, r.kind, r.k, r.start, store, Serve.PutRows(store, r.brain, Rewrap(rows, r.k, nonce)[..n]));
  }

  ghost predicate Pushed(brain: string, store: Store, batch: seq<Row>, dryRun: bool, ok: bool, after: Store) {
    if dryRun then after == store
    else exists n :: 0 <= n <= |batch| && (ok ==> n == |batch|) && after == Serve.PutRows(store, brain, batch[..n])
  }

  lemma {:induction false} PushEffect(r: Run, cursor: string, seen: seq<Row>, store: Store, migrated: nat, skipped: nat,
                   rows: seq<Row>, next: string, nonce: string -> nat, after: Store, ok: bool)
    requires r.Mid(cursor, seen, store, migrated, skipped) && Answered(r, cursor, store, rows, next) && rows != []
    requires Pushed(r.brain, store, Rewrap(rows, r.k, nonce), r.dryRun, ok, after)
    ensures Migrates(r.brain, r.kind, r.k, r.start, after)
    ensures ok ==> |Rewrap(rows, r.k, nonce)| <= |rows| &&
                   r.Mid(rows[|rows| - 1].key, seen + rows, after, migrated + |Rewrap(rows, r.k, nonce)|,
                         skipped + |rows| - |Rewrap(rows, r.k, nonce)|)
  {
    var batch := Rewrap(rows, r.k, nonce);
    PageDone(r, cursor, seen, store, migrated, skipped, rows, next, nonce);
    if !r.dryRun {
      var n :| 0 <= n <= |batch| && (ok ==> n == |batch|) && after == Serve.PutRows(store, r.brain, batch[..n]);
      PushKeepsMigrating(r, cursor, seen, store, migrated, skipped, rows, next, nonce, n);
      assert batch[..|batch|] == batch;
    }
  }

  /** The cursor moves on, and past the last page nothing is pending. */
  lemma {:induction false} CursorMoves(r: Run, cursor: string, store: Store, rows: seq<Row>, next: string)
    requires store.Keys == r.start.Keys && Answered(r, cursor, store, rows, next)
    ensures rows == [] ==> r.Passed(cursor)
    ensures rows != [] ==> |Pending(r, rows[|rows| - 1].key)| < |Pending(r, cursor)|
    ensures rows != [] && next == "" ==> r.Passed(rows[|rows| - 1].key)
  {
    hide Serve.ClientKeys, Pending, IsPage, Less, r.Keys;
    SameKeys(r, store);
    LastPage(r, cursor, Serve.KeysOf(rows), next);
    if rows != [] {
      PendingShrinks(r, cursor, rows[|rows| - 1].key);
    }
  }

  /** pushBatch, skipped when there is nothing to push and on a dry run. */
  method PushBatch(server: Serve.Server<Blob>, brain: string, batch: seq<Row>, dryRun: bool, luck: Luck) returns (ok: bool)
    requires server.Valid() && Serve.AcceptedPrefix(brain, batch) == |batch|
    modifies server.backend, server.hub
    ensures server.Valid()
    ensures Pushed(brain, old(server.backend.blobs), batch, dryRun, ok, server.backend.blobs)
    ensures luck.Fine? ==> ok
  {
    if |batch| == 0 || dryRun {
      assert |batch| == 0 ==> batch[..0] == batch;
      return true;
    }
    var stop := if luck.PushStops? then luck.row else |batch|;
    var pushed := server.HandlePush(brain, batch, stop);
    return pushed.status == 200 && !luck.ReplyLost?;
  }

  datatype PageEnd = More | Finished | Cut

  /** One page of a run. */
  method MigratePage(server: Serve.Server<Blob>, ghost single: bool, ghost r: Run, ghost seen: seq<Row>,
                     brain: string, kind: string, k: Keys, dryRun: bool, nonce: string -> nat, luck: Luck,
                     cursor: string, migrated: nat, skipped: nat)
    returns (end: PageEnd, cursor': string, migrated': nat, skipped': nat, ghost seen': seq<Row>)
    requires server.Valid() && BrainId(single, brain) && ValidKind(kind)
    requires r == Run(brain, kind, k, r.start, dryRun) && r.Mid(cursor, seen, server.backend.blobs, migrated, skipped)
    modifies server.backend, server.hub
    ensures server.Valid()
    ensures Migrates(brain, kind, k, r.start, server.backend.blobs)
    ensures dryRun ==> server.backend.blobs == old(server.backend.blobs)
    ensures !end.Cut? ==> r.Mid(cursor', seen', server.backend.blobs, migrated', skipped')
    ensures end.Finished? ==> r.Passed(cursor')
    ensures end.More? ==> |Pending(r, cursor')| < |Pending(r, cursor)|
    ensures luck.Fine? ==> !end.Cut?
  {
    cursor', migrated', skipped', seen' := cursor, migrated, skipped, seen;
    var reply := server.HandlePull(single, brain, kind, cursor, Some(MIGRATE_PAGE));
    if luck.PullFails? {
      return Cut, cursor', migrated', skipped', seen';
    }
    ghost var store := server.backend.blobs;
    var rows, next := reply.rows, reply.nextCursor;
    CursorMoves(r, cursor, store, rows, next);
    if |rows| == 0 {
      return Finished, cursor', migrated', skipped', seen';
    }
    var ok, batch, skip, last := BuildBatch(rows, k, nonce, if luck.SealFails? then luck.row else |rows|);
    if !ok {
      return Cut, cursor', migrated', skipped + skip, seen';
    }
    PageIsFresh(r, cursor, seen, store, migrated, skipped, rows, next);
    BatchIsAccepted(server, brain, kind, k, rows, nonce);
    var pushed := PushBatch(server, brain, batch, dryRun, luck);
    PushEffect(r, cursor, seen, store, migrated, skipped, rows, next, nonce, server.backend.blobs, pushed);
    if !pushed {
      return Cut, cursor', migrated', skipped + skip, seen';
    }
    return if next == "" then Finished else More, last, migrated + |batch|, skipped + skip, seen + rows;
  }

  /** migrateKind. However a run ends, the store has only had rows of the kind
      re-sealed. A run that completes has moved every row that opened under the old
      key, and its two counts are the rows that did and did not. A dry run counts the
      same and writes nothing. */
  method MigrateKind(server: Serve.Server<Blob>, ghost single: bool, brain: string, kind: string, k: Keys,
                     dryRun: bool, nonce: string -> nat, luck: nat -> Luck) returns (t: Tally)
    requires server.Valid() && BrainId(single, brain) && ValidKind(kind)
    modifies server.backend, server.hub
    ensures server.Valid()
    ensures Migrates(brain, kind, k, old(server.backend.blobs), server.backend.blobs)
    ensures dryRun ==> server.backend.blobs == old(server.backend.blobs)
    ensures t.complete && !dryRun ==> FullyMigrated(brain, kind, k, old(server.backend.blobs), server.backend.blobs)
    ensures t.complete ==>
              && t.migrated == |OldKeyRows(old(server.backend.blobs), brain, kind, k)|
              && t.migrated + t.skipped == |Serve.ClientKeys(old(server.backend.blobs), brain, kind)|
    ensures (forall i :: luck(i).Fine?) ==> t.complete
  {
    ghost var r := Run(brain, kind, k, server.backend.blobs, dryRun);
    ghost var seen: seq<Row> := [];
    var cursor := "";
    var migrated: nat, skipped: nat, page: nat := 0, 0, 0;
    var end := More;
    StartMid(r);
    while end.More?
      invariant server.Valid()
      invariant Migrates(brain, kind, k, r.start, server.backend.blobs)
      invariant dryRun ==> server.backend.blobs == r.start
      invariant !end.Cut? ==> r.Mid(cursor, seen, server.backend.blobs, migrated, skipped)
      invariant end.Finished? ==> r.Passed(cursor)
      invariant (forall i :: luck(i).Fine?) ==> !end.Cut?
      decreases end.More?, |Pending(r, cursor)|
    {
      end, cursor, migrated, skipped, seen :=
        MigratePage(server, single, r, seen, brain, kind, k, dryRun, nonce, luck(page), cursor, migrated, skipped);
      page := page + 1;
    }
    if end.Finished? {
      RunDone(r, cursor, seen, server.backend.blobs, migrated, skipped);
    }
    return Tally(migrated, skipped, end.Finished?);
  }
}
