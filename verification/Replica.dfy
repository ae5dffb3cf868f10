/** A fresh machine rebuilding its memory from the server: every memory row goes to
    the table its key names, in key order. The order of the keys is what puts a scope
    before its plans and a plan's versions in sequence. */
module Replica {
  import opened Wrappers
  import opened Lex
  import opened PlanLog
  import opened MemoryStore
  import opened Segments
  import opened Sequences
  import opened Words
  import Pull
  import Serve

  /** What a memory blob decodes to. */
  datatype Row = ScopeRow(sc: Scope) | PlanRow(plan: Plan) | LearningRow(entry: Learning)

  // --- keys ---

  /** encodeScopePath */
  function Encoded(path: string): (e: string)
    ensures |e| == |path| && '/' !in e
  {
    if path == "" then "" else [if path[0] == '/' then ':' else path[0]] + Encoded(path[1..])
  }

  predicate Slashed(c: char) {
    c == '/' || c == ':'
  }

  /** Slashes become colons and all else stays. */
  lemma {:induction false} EncodedAt(path: string, i: nat)
    requires i < |path|
    ensures Encoded(path)[i] == if path[i] == '/' then ':' else path[i]
  {
    if i > 0 {
      EncodedAt(path[1..], i - 1);
    }
  }

  /** Two scope paths share a key segment exactly when they differ in nothing but slashes
      against colons. */
  lemma {:induction false} EncodedAlike(a: string, b: string)
    ensures Encoded(a) == Encoded(b) <==>
            |a| == |b| && forall i :: 0 <= i < |a| ==> a[i] == b[i] || (Slashed(a[i]) && Slashed(b[i]))
  {
    forall i | 0 <= i < |a| ensures Encoded(a)[i] == if a[i] == '/' then ':' else a[i] {
      EncodedAt(a, i);
    }
    forall i | 0 <= i < |b| ensures Encoded(b)[i] == if b[i] == '/' then ':' else b[i] {
      EncodedAt(b, i);
    }
  }

  function DigitChar(d: nat): char
    requires d < 10
  {
    '0' + d as char
  }

  /** n in decimal, zero-padded to a width it fits in. */
  function Padded(n: nat, width: nat): (s: string)
    ensures |s| == width
  {
    if width == 0 then "" else Padded(n / 10, width - 1) + [DigitChar(n % 10)]
  }

  function ReadDecimal(s: string): int
    decreases |s|
  {
    if s == "" then 0 else 10 * ReadDecimal(s[..|s| - 1]) + (s[|s| - 1] as int - '0' as int)
  }

  /** A padded number is written in decimal digits and reads back. */
  lemma {:induction false} PaddedReads(n: nat, width: nat)
    requires n < Pow10(width)
    ensures ReadDecimal(Padded(n, width)) == n
    ensures forall i :: 0 <= i < width ==> '0' <= Padded(n, width)[i] <= '9'
  {
    if width > 0 {
      PaddedReads(n / 10, width - 1);
      var s := Padded(n, width);
      assert s[..|s| - 1] == Padded(n / 10, width - 1);
    }
  }

  const VERSION_DIGITS: nat := 20

  const MEMORY: string := "memory/"
  const PLANS: string := "/plans/"
  const LEARNINGS: string := "/learnings/"

  /** Every version an int64 holds has 20 digits in its key, which read back as it. */
  lemma {:induction false} VersionReads(v: nat)
    requires v <= MAX_INT64
    ensures |Padded(v, VERSION_DIGITS)| == 20 && ReadDecimal(Padded(v, VERSION_DIGITS)) == v
    ensures forall i :: 0 <= i < 20 ==> '0' <= Padded(v, VERSION_DIGITS)[i] <= '9'
  {
    VersionsFit(v);
    PaddedReads(v, VERSION_DIGITS);
  }

  /** The key of a row below "memory/". A version is zero-padded to 20 digits. */
  function RestOf(row: Row): string {
    match row
    case ScopeRow(sc) => Encoded(sc.path)
    case PlanRow(p) => Encoded(p.scope) + (PLANS + (p.name + "/" + Padded(if p.version < 0 then 0 else p.version, VERSION_DIGITS)))
    case LearningRow(l) => Encoded(l.scope) + (LEARNINGS + l.id)
  }

  function KeyOf(row: Row): string {
    MEMORY + RestOf(row)
  }

  lemma {:induction false} LessBeforeSuffix(a: string, b: string, x: string, y: string)
    requires |a| == |b| && Less(a, b)
    ensures Less(a + x, b + y)
  {
    assert (a + x)[1..] == a[1..] + x && (b + y)[1..] == b[1..] + y;
    if a[0] == b[0] {
      LessBeforeSuffix(a[1..], b[1..], x, y);
    }
  }

  /** Zero-padded numbers sort as numbers. */
  lemma {:induction false} PaddedKeepsOrder(m: nat, n: nat, width: nat)
    requires m < n < Pow10(width)
    ensures Less(Padded(m, width), Padded(n, width))
  {
    var a, b := Padded(m / 10, width - 1), Padded(n / 10, width - 1);
    if m / 10 < n / 10 {
      PaddedKeepsOrder(m / 10, n / 10, width - 1);
      LessBeforeSuffix(a, b, [DigitChar(m % 10)], [DigitChar(n % 10)]);
    } else {
      assert m / 10 == n / 10 && m % 10 < n % 10;
      LessUnderPrefix(a, [DigitChar(m % 10)], [DigitChar(n % 10)]);
    }
  }

  function Pow10(n: nat): nat {
    if n == 0 then 1 else 10 * Pow10(n - 1)
  }

  lemma {:induction false} VersionsFit(v: int)
    requires v <= MAX_INT64
    ensures v < Pow10(VERSION_DIGITS)
  {
    assert Pow10(4) == 10000;
    assert Pow10(8) == 10000 * 10000 by { assert Pow10(6) == 1000000; }
    assert Pow10(12) == 1000000000000 by { assert Pow10(10) == 10000000000; }
    assert Pow10(16) == 10000000000000000 by { assert Pow10(14) == 100000000000000; }
    assert Pow10(20) == 100000000000000000000 by { assert Pow10(18) == 1000000000000000000; }
  }

  // --- dispatch ---

  datatype Table = Scopes | Plans | Learnings

  function TableOf(rest: string): Table {
    if Contains(rest, PLANS) then Plans
    else if Contains(rest, LEARNINGS) then Learnings
    else Scopes
  }

  /** A row the sync client can have enqueued: the store accepted it, and learning ids
      are generated without a slash. */
  predicate Enqueued(row: Row) {
    match row
    case ScopeRow(sc) => sc.path != "" && KnownKind(sc.kind)
    case PlanRow(p) => p.scope != "" && p.name != "" && 1 <= p.version <= MAX_INT64
    case LearningRow(l) => l.scope != "" && l.id != "" && '/' !in l.id
  }

  lemma {:induction false} StartsAt(s: string, sub: string, i: nat)
    requires i <= |s|
    ensures sub <= s[i..] <==> i + |sub| <= |s| && forall t {:trigger sub[t]} :: 0 <= t < |sub| ==> s[i + t] == sub[t]
  {
    assert forall t :: 0 <= t < |sub| && i + |sub| <= |s| ==> s[i..][t] == s[i + t];
  }

  lemma {:induction false} NoSlashNoMarker(s: string, marker: string)
    requires '/' !in s && marker != "" && marker[0] == '/'
    ensures !Contains(s, marker)
  {
    ContainsAt(s, marker);
    forall i: nat | i <= |s| ensures !(marker <= s[i..]) {
      StartsAt(s, marker, i);
      assert i < |s| ==> s[i] in s;
    }
  }

  lemma {:induction false} HasMarker(a: string, marker: string, b: string)
    ensures Contains(a + (marker + b), marker)
  {
    assert (a + (marker + b))[|a|..] == marker + b;
    ContainsAt(a + (marker + b), marker);
  }

  /** The only slashes of a learning key are those around "learnings". */
  lemma {:induction false} LearningSlashes(e: string, id: string, j: nat)
    requires '/' !in e && '/' !in id && j < |e + (LEARNINGS + id)|
    ensures (e + (LEARNINGS + id))[j] == '/' <==> j == |e| || j == |e| + 10
  {
    if j < |e| {
      assert e[j] in e;
    } else if j >= |e| + 11 {
      assert id[j - |e| - 11] in id;
    }
  }

  lemma {:induction false} LearningIsNoPlan(e: string, id: string)
    requires '/' !in e && '/' !in id
    ensures !Contains(e + (LEARNINGS + id), PLANS)
  {
    var rest := e + (LEARNINGS + id);
    ContainsAt(rest, PLANS);
    forall i: nat | i <= |rest| ensures !(PLANS <= rest[i..]) {
      StartsAt(rest, PLANS, i);
      if i + 6 < |rest| {
        LearningSlashes(e, id, i);
        LearningSlashes(e, id, i + 6);
        assert PLANS[0] == PLANS[6] == '/' && PLANS[1] == 'p';
      }
    }
  }

  /** A key is dispatched to the table its row belongs to. */
  lemma {:induction false} DispatchIsRight(row: Row)
    requires Enqueued(row)
    ensures TableOf(RestOf(row)) == match row case ScopeRow(_) => Scopes case PlanRow(_) => Plans case LearningRow(_) => Learnings
  {
    match row
    case ScopeRow(sc) =>
      NoSlashNoMarker(Encoded(sc.path), PLANS);
      NoSlashNoMarker(Encoded(sc.path), LEARNINGS);
    case PlanRow(p) =>
      HasMarker(Encoded(p.scope), PLANS, p.name + "/" + Padded(p.version, VERSION_DIGITS));
    case LearningRow(l) =>
      LearningIsNoPlan(Encoded(l.scope), l.id);
      HasMarker(Encoded(l.scope), LEARNINGS, l.id);
  }

  // --- ingest ---

  datatype IngestError = NotMemory | Malformed | Refused

  /** The tables after one row. A row that is refused leaves them as they were. */
  function Ingest(db: Tables, key: string, row: Row): Tables {
    if !(MEMORY <= key) then db
    else
      match TableOf(key[|MEMORY|..])
      case Plans =>
        if row.PlanRow? then db.AfterAppend(ForcedAppend(db, row.plan)) else db
      case Learnings =>
        if row.LearningRow? then db.AfterLearning(row.entry) else db
      case Scopes =>
        if row.ScopeRow? then db.AfterScope(row.sc) else db
  }

  /** A pulled plan row goes in on top of whatever HEAD is here. */
  function ForcedAppend(db: Tables, p: Plan): Result<Plan, AppendError> {
    db.AppendResult(p.scope, p.name, p.content, p.author, p.parent, true)
  }

  lemma {:induction false} IngestKeepsValid(db: Tables, key: string, row: Row)
    requires db.Valid()
    ensures Ingest(db, key, row).Valid()
  {
    match row
    case ScopeRow(sc) => db.WritesKeepValid(sc, Learning("", "", "", "", None));
    case PlanRow(p) => db.AppendKeepsValid(p.scope, p.name, p.content, p.author, p.parent, true);
    case LearningRow(l) => db.WritesKeepValid(Scope("", "", ""), l);
  }

  /** The blob is of the kind its key's shape says. */
  predicate Fits(rest: string, row: Row) {
    if Contains(rest, "/plans/") then row.PlanRow?
    else if Contains(rest, "/learnings/") then row.LearningRow?
    else row.ScopeRow?
  }

  /** The plan's content and author in a new version on top of its slot's history. */
  ghost predicate AddsHead(db: Tables, p: Plan, after: Tables) {
    var slot := if p.name == "" then "_default" else p.name;
    var n := |SlotRows(db.plans, p.scope, slot)|;
    after == db.(plans := db.plans + [Plan(p.scope, slot, n + 1, p.content, p.author, n)])
  }

  lemma {:induction false} ForcedMeans(db: Tables, p: Plan)
    requires db.Valid()
    ensures ForcedAppend(db, p).Ok? ==> AddsHead(db, p, db.AfterAppend(ForcedAppend(db, p)))
  {
    LinearHead(db.plans, p.scope, SlotName(p.name));
  }

  method IngestMemoryRow(store: Store, key: string, row: Row) returns (r: Result<(), IngestError>)
    requires store.Valid()
    modifies store
    ensures store.Valid() && store.State() == Ingest(old(store.State()), key, row)
    ensures r.Err? ==> store.State() == old(store.State())
    ensures r == Err(NotMemory) <==> !("memory/" <= key)
    ensures r == Err(Malformed) <==> "memory/" <= key && !Fits(key[|"memory/"|..], row)
    ensures r.Ok? ==>
              match row
              case ScopeRow(sc) => store.State() == old(store.State()).(scopes := old(store.scopes)[sc.path := sc])
              case LearningRow(l) => store.State() == old(store.State()).(learnings := old(store.learnings)[l.id := l])
              case PlanRow(p) => AddsHead(old(store.State()), p, store.State())
  {
    if row.PlanRow? {
      ForcedMeans(store.State(), row.plan);
    }
    if !(MEMORY <= key) {
      return Err(NotMemory);
    }
    var rest := key[|MEMORY|..];
    if Contains(rest, PLANS) {
      if !row.PlanRow? {
        return Err(Malformed);
      }
      var p := row.plan;
      var appended := store.AppendPlanVersion(p.scope, p.name, p.content, p.author, p.parent, true);
      return if appended.Ok? then Ok(()) else Err(Refused);
    } else if Contains(rest, LEARNINGS) {
      if !row.LearningRow? {
        return Err(Malformed);
      }
      var added := store.AppendLearning(row.entry);
      return if added.Ok? then Ok(()) else Err(Refused);
    } else {
      if !row.ScopeRow? {
        return Err(Malformed);
      }
      var put := store.UpdateScope(row.sc);
      return if put.Ok? then Ok(()) else Err(Refused);
    }
  }

  // --- a complete pull into an empty store ---

  /** What the server holds: every row under its own key. */
  ghost predicate WellFiled(server: map<string, Row>) {
    forall k {:trigger server[k]} :: k in server ==> KeyOf(server[k]) == k && Enqueued(server[k])
  }

  /** The keys of a complete pull: all of the server's, ascending. */
  ghost predicate CompletePull(server: map<string, Row>, keys: seq<string>) {
    Ascending(keys) && forall k :: k in keys <==> k in server
  }

  ghost predicate AllHeld(server: map<string, Row>, keys: seq<string>) {
    forall i :: 0 <= i < |keys| ==> keys[i] in server
  }

  ghost function Replay(server: map<string, Row>, keys: seq<string>): Tables
    requires AllHeld(server, keys)
    decreases |keys|
  {
    if keys == [] then EMPTY
    else
      var last := keys[|keys| - 1];
      Ingest(Replay(server, keys[..|keys| - 1]), last, server[last])
  }

  function PlanIn(row: Row, scope: string, name: string): seq<Plan> {
    if row.PlanRow? && InSlot(row.plan, scope, name) then [row.plan] else []
  }

  /** The plan rows of one slot among the given keys. */
  ghost function Published(server: map<string, Row>, keys: seq<string>, scope: string, name: string): seq<Plan>
    requires AllHeld(server, keys)
    decreases |keys|
  {
    if keys == [] then []
    else
      var row := server[keys[|keys| - 1]];
      Published(server, keys[..|keys| - 1], scope, name) + PlanIn(row, scope, name)
  }

  /** Its versions as the replica numbers them. */
  function Renumbered(log: seq<Plan>): (r: seq<Plan>)
    ensures |r| == |log| && Linear(r)
    ensures forall i :: 0 <= i < |r| ==> r[i] == log[i].(version := i + 1, parent := i)
  {
    seq(|log|, i requires 0 <= i < |log| => log[i].(version := i + 1, parent := i))
  }

  /** The server holds this scope's own row (and not that of another path which
      encodes to the same key). */
  predicate HasScope(server: map<string, Row>, scope: string) {
    var k := KeyOf(ScopeRow(Scope(scope, "", "")));
    k in server && server[k].ScopeRow? && server[k].sc.path == scope
  }

  lemma {:induction false} ReplayIsValid(server: map<string, Row>, keys: seq<string>)
    requires AllHeld(server, keys)
    ensures Replay(server, keys).Valid()
    decreases |keys|
  {
    if keys == [] {
      HistoriesStayLinear([]);
      assert DoAll(EMPTY, []) == EMPTY;
    } else {
      var last := keys[|keys| - 1];
      ReplayIsValid(server, keys[..|keys| - 1]);
      IngestKeepsValid(Replay(server, keys[..|keys| - 1]), last, server[last]);
    }
  }

  /** What ingesting a row does when its key is the row's own. */
  function Apply(db: Tables, row: Row): Tables {
    match row
    case ScopeRow(sc) => db.AfterScope(sc)
    case PlanRow(p) => db.AfterAppend(ForcedAppend(db, p))
    case LearningRow(l) => db.AfterLearning(l)
  }

  lemma {:induction false} IngestFiled(server: map<string, Row>, k: string, db: Tables)
    requires WellFiled(server) && k in server
    ensures Ingest(db, k, server[k]) == Apply(db, server[k])
  {
    assert KeyOf(server[k]) == k;
    DispatchIsRight(server[k]);
    assert k[|MEMORY|..] == RestOf(server[k]);
  }

  lemma {:induction false} ReplayLast(server: map<string, Row>, all: seq<string>, init: seq<string>, last: string)
    requires WellFiled(server) && AllHeld(server, all) && AllHeld(server, init) && last in server
    requires all != [] && all[..|all| - 1] == init && all[|all| - 1] == last
    ensures Replay(server, all) == Apply(Replay(server, init), server[last])
  {
    IngestFiled(server, last, Replay(server, init));
  }

  lemma {:induction false} ReplayStep(server: map<string, Row>, keys: seq<string>, n: nat)
    requires WellFiled(server) && n < |keys| && AllHeld(server, keys)
    ensures AllHeld(server, keys[..n]) && AllHeld(server, keys[..n + 1])
    ensures Replay(server, keys[..n + 1]) == Apply(Replay(server, keys[..n]), server[keys[n]])
  {
    TakeTake(keys, n);
    ReplayLast(server, keys[..n + 1], keys[..n], keys[n]);
  }

  /** A scope's key sorts before the key of everything in the scope. */
  predicate InScope(row: Row, scope: string) {
    (row.PlanRow? && row.plan.scope == scope) || (row.LearningRow? && row.entry.scope == scope)
  }

  lemma {:induction false} ScopeSortsFirst(row: Row, scope: string)
    requires InScope(row, scope)
    ensures Less(KeyOf(ScopeRow(Scope(scope, "", ""))), KeyOf(row))
  {
    var tail := if row.PlanRow? then PLANS + (row.plan.name + "/" + Padded(if row.plan.version < 0 then 0
        else row.plan.version, VERSION_DIGITS))
                else LEARNINGS + row.entry.id;
    PrefixSortsFirst(Encoded(scope), tail);
    LessUnderPrefix(MEMORY, Encoded(scope), RestOf(row));
  }

  /** In key order, what comes before position n is what sorts before its key. */
  lemma {:induction false} EarlierIsLess(keys: seq<string>, n: nat, k: string)
    requires Ascending(keys) && n < |keys| && k in keys
    ensures k in keys[..n] <==> Less(k, keys[n])
  {
    var i :| 0 <= i < |keys| && keys[i] == k;
    StrictTotalOrder();
    if i < n {
      assert keys[..n][i] == k;
    }
  }

  function ScopeKeyOf(scope: string): string {
    KeyOf(ScopeRow(Scope(scope, "", "")))
  }

  lemma {:induction false} OwnScope(server: map<string, Row>, k: string, scope: string)
    requires WellFiled(server) && k in server
    ensures k == ScopeKeyOf(scope) && HasScope(server, scope) <==> server[k].ScopeRow? && server[k].sc.path == scope
    ensures server[k].ScopeRow? ==> Enqueued(server[k])
  {
    assert KeyOf(server[k]) == k;
  }

  ghost predicate ScopeAsServed(server: map<string, Row>, seen: seq<string>, scope: string, db: Tables) {
    && (scope in db.scopes <==> HasScope(server, scope) && ScopeKeyOf(scope) in seen)
    && (scope in db.scopes ==> db.scopes[scope] == server[ScopeKeyOf(scope)].sc)
  }

  lemma {:induction false} ScopeStep(server: map<string, Row>, seen: seq<string>, k: string, scope: string, db: Tables)
    requires WellFiled(server) && k in server && ScopeAsServed(server, seen, scope, db)
    ensures ScopeAsServed(server, seen + [k], scope, Apply(db, server[k]))
  {
    OwnScope(server, k, scope);
    if server[k].ScopeRow? {
      assert db.AcceptsScope(server[k].sc);
      assert k == ScopeKeyOf(server[k].sc.path) by { OwnScope(server, k, server[k].sc.path); }
    } else {
      assert Apply(db, server[k]).scopes == db.scopes;
    }
  }

  lemma {:induction false} NoScopeYet(server: map<string, Row>, scope: string)
    ensures ScopeAsServed(server, [], scope, EMPTY)
  {
  }

  /** The replica has a scope from the moment its own row has been ingested. */
  lemma {:induction false} ReplayScopes(server: map<string, Row>, keys: seq<string>, n: nat, scope: string)
    requires WellFiled(server) && n <= |keys| && AllHeld(server, keys)
    ensures AllHeld(server, keys[..n])
    ensures ScopeAsServed(server, keys[..n], scope, Replay(server, keys[..n]))
  {
    if n == 0 {
      NoScopeYet(server, scope);
      TakeNone(keys);
    } else {
      ReplayScopes(server, keys, n - 1, scope);
      ReplayStep(server, keys, n - 1);
      ScopeStep(server, keys[..n - 1], keys[n - 1], scope, Replay(server, keys[..n - 1]));
      TakeOneMore(keys, n - 1);
    }
  }

  lemma {:induction false} ChildSortsAfter(server: map<string, Row>, k: string, scope: string)
    requires WellFiled(server) && k in server && InScope(server[k], scope)
    ensures Less(ScopeKeyOf(scope), k)
  {
    assert KeyOf(server[k]) == k;
    ScopeSortsFirst(server[k], scope);
  }

  lemma {:induction false} PositionsFollowKeys(keys: seq<string>, i: nat, j: nat)
    requires Ascending(keys) && i < |keys| && j < |keys|
    ensures Less(keys[i], keys[j]) ==> i < j
  {
    if Less(keys[i], keys[j]) {
      LessAsymmetric(keys[i], keys[j]);
    }
  }

  /** When a plan row's turn comes, its scope is there if the server has it at all. */
  lemma {:induction false} ScopeIsThere(server: map<string, Row>, keys: seq<string>, n: nat, scope: string)
    requires WellFiled(server) && CompletePull(server, keys) && n < |keys|
    requires InScope(server[keys[n]], scope)
    ensures scope in Replay(server, keys[..n]).scopes <==> HasScope(server, scope)
  {
    ReplayScopes(server, keys, n, scope);
    assert keys[n] in keys;
    ChildSortsAfter(server, keys[n], scope);
    if HasScope(server, scope) {
      EarlierIsLess(keys, n, ScopeKeyOf(scope));
    }
  }

  lemma {:induction false} PublishedStep(server: map<string, Row>, keys: seq<string>, n: nat, scope: string, name: string)
    requires n < |keys| && AllHeld(server, keys)
    ensures AllHeld(server, keys[..n]) && AllHeld(server, keys[..n + 1])
    ensures Published(server, keys[..n + 1], scope, name) ==
            Published(server, keys[..n], scope, name) + PlanIn(server[keys[n]], scope, name)
  {
    TakeTake(keys, n);
  }

  /** The row at position n finds its scope if the server has it. */
  ghost predicate ScopeInTurn(server: map<string, Row>, k: string, db: Tables) {
    k in server && server[k].PlanRow? ==> (server[k].plan.scope in db.scopes <==> HasScope(server, server[k].plan.scope))
  }

  lemma {:induction false} InTurn(server: map<string, Row>, keys: seq<string>, n: nat)
    requires WellFiled(server) && CompletePull(server, keys) && n < |keys|
    ensures keys[n] in server && AllHeld(server, keys[..n]) && AllHeld(server, keys)
    ensures Replay(server, keys[..n]).Valid() && ScopeInTurn(server, keys[n], Replay(server, keys[..n]))
  {
    assert keys[n] in keys;
    ReplayIsValid(server, keys[..n]);
    if server[keys[n]].PlanRow? {
      ScopeIsThere(server, keys, n, server[keys[n]].plan.scope);
    }
  }

  lemma {:induction false} SlotNext(server: map<string, Row>, k: string, before: seq<Plan>, after: seq<Plan>,
          scope: string, name: string, db: Tables, db': Tables)
    requires WellFiled(server) && k in server && db.Valid() && ScopeInTurn(server, k, db)
    requires SlotAsServed(server, before, scope, name, db)
    requires after == before + PlanIn(server[k], scope, name)
    requires db' == Apply(db, server[k])
    ensures SlotAsServed(server, after, scope, name, db')
  {
    hide SlotAsServed, WellFiled, HasScope, Apply;
    SlotStep(server, k, before, scope, name, db);
  }

  /** Each slot after a prefix of the pull: the published versions so far, renumbered
      from 1 — or nothing at all when the server lacks the scope. */
  lemma {:induction false} SlotRebuilt(server: map<string, Row>, keys: seq<string>, n: nat, scope: string, name: string)
    requires WellFiled(server) && CompletePull(server, keys) && n <= |keys|
    ensures AllHeld(server, keys[..n])
    ensures SlotAsServed(server, Published(server, keys[..n], scope, name), scope, name, Replay(server, keys[..n]))
  {
    if n == 0 {
      NoPlanYet(server, scope, name);
      TakeNone(keys);
    } else {
      var m := n - 1;
      InTurn(server, keys, m);
      hide CompletePull, WellFiled, Published, Replay, Apply, SlotAsServed, ScopeInTurn, Tables.Valid, AllHeld, PlanIn;
      SlotRebuilt(server, keys, m, scope, name);
      ReplayStep(server, keys, m);
      PublishedStep(server, keys, m, scope, name);
      SlotNext(server, keys[m], Published(server, keys[..m], scope, name), Published(server, keys[..n], scope, name), scope, name,
               Replay(server, keys[..m]), Replay(server, keys[..n]));
    }
  }

  ghost predicate SlotAsServed(server: map<string, Row>, log: seq<Plan>, scope: string, name: string, db: Tables) {
    SlotRows(db.plans, scope, name) == if HasScope(server, scope) then Renumbered(log) else []
  }

  lemma {:induction false} NoPlanYet(server: map<string, Row>, scope: string, name: string)
    ensures SlotAsServed(server, [], scope, name, EMPTY)
  {
  }

  /** A row delivered: one more version if it is of the slot and its scope is here. */
  lemma {:induction false} RowLands(server: map<string, Row>, k: string, log: seq<Plan>, scope: string, name: string,
          db: Tables, here: bool)
    requires WellFiled(server) && k in server && db.Valid() && SlotRows(db.plans, scope, name) == Renumbered(log)
    requires PlanIn(server[k], scope, name) != [] ==> (here <==> scope in db.scopes)
    ensures SlotRows(Apply(db, server[k]).plans, scope, name) == Renumbered(if here then log + PlanIn(server[k], scope, name) else log)
  {
    JoinNone(log, []);
    JoinNone(Renumbered(log), []);
    if server[k].PlanRow? {
      FiledPlan(server, k);
      PlanIngested(db, server[k].plan, scope, name);
      RenumberedAppend(log, log + [server[k].plan]);
    } else {
      assert Apply(db, server[k]).plans == db.plans;
    }
  }

  lemma {:induction false} SlotStep(server: map<string, Row>, k: string, log: seq<Plan>, scope: string, name: string, db: Tables)
    requires WellFiled(server) && k in server && db.Valid() && SlotAsServed(server, log, scope, name, db)
    requires ScopeInTurn(server, k, db)
    ensures SlotAsServed(server, log + PlanIn(server[k], scope, name), scope, name, Apply(db, server[k]))
  {
    hide WellFiled, HasScope, Apply, Tables.Valid;
    if HasScope(server, scope) {
      RowLands(server, k, log, scope, name, db, true);
    } else {
      RowLands(server, k, [], scope, name, db, false);
    }
  }

  lemma {:induction false} FiledPlan(server: map<string, Row>, k: string)
    requires WellFiled(server) && k in server && server[k].PlanRow?
    ensures server[k].plan.scope != "" && server[k].plan.name != "" && 1 <= server[k].plan.version <= MAX_INT64
    ensures k == KeyOf(server[k])
  {
    assert Enqueued(server[k]);
  }

  lemma {:induction false} RenumberedAppend(log: seq<Plan>, longer: seq<Plan>)
    requires |longer| == |log| + 1 && longer[..|log|] == log
    ensures Renumbered(longer) == Renumbered(log) + [longer[|log|].(version := |log| + 1, parent := |log|)]
  {
    assert forall i :: 0 <= i < |log| ==> longer[i] == longer[..|log|][i];
  }

  lemma {:induction false} PlanIngested(db: Tables, p: Plan, scope: string, name: string)
    requires db.Valid() && p.scope != "" && p.name != ""
    ensures var before, after := SlotRows(db.plans, scope, name), SlotRows(Apply(db, PlanRow(p)).plans, scope, name);
            after == before + if p.scope in db.scopes && InSlot(p, scope, name)
                              then [p.(version := |before| + 1, parent := |before|)] else []
  {
    db.AppendMeans(p.scope, p.name, p.content, p.author, p.parent, true);
    var r := ForcedAppend(db, p);
    if r.Ok? {
      AppendRow(db.plans, r.value, scope, name);
      LinearHead(db.plans, p.scope, p.name);
    }
  }

  // --- what the whole pull gives ---

  lemma {:induction false} PublishedAre(server: map<string, Row>, keys: seq<string>, n: nat, scope: string, name: string)
    requires n <= |keys| && AllHeld(server, keys)
    ensures AllHeld(server, keys[..n])
    ensures forall p :: p in Published(server, keys[..n], scope, name) <==>
              exists i :: 0 <= i < n && server[keys[i]] == PlanRow(p) && InSlot(p, scope, name)
  {
    if n > 0 {
      PublishedAre(server, keys, n - 1, scope, name);
      PublishedStep(server, keys, n - 1, scope, name);
    }
  }

  /** Within a slot, key order is version order. */
  lemma {:induction false} SlotKeysFollowVersions(server: map<string, Row>, i: string, j: string)
    requires WellFiled(server) && i in server && j in server && server[i].PlanRow? && server[j].PlanRow?
    requires server[i].plan.scope == server[j].plan.scope && server[i].plan.name == server[j].plan.name && Less(i, j)
    ensures server[i].plan.version < server[j].plan.version
  {
    var p, q := server[i].plan, server[j].plan;
    FiledPlan(server, i);
    FiledPlan(server, j);
    if p.version == q.version {
      assert i == j;
      LessIrreflexive(i);
    } else if q.version < p.version {
      VersionsFit(p.version);
      PlanKeysInOrder(p.scope, p.name, q, p);
      LessAsymmetric(i, j);
    }
  }

  lemma {:induction false} PlanKeysInOrder(scope: string, name: string, p: Plan, q: Plan)
    requires InSlot(p, scope, name) && InSlot(q, scope, name) && 0 <= p.version < q.version < Pow10(VERSION_DIGITS)
    ensures Less(KeyOf(PlanRow(p)), KeyOf(PlanRow(q)))
  {
    var a, b := Padded(p.version, VERSION_DIGITS), Padded(q.version, VERSION_DIGITS);
    PaddedKeepsOrder(p.version, q.version, VERSION_DIGITS);
    LessUnderPrefix(name + "/", a, b);
    LessUnderPrefix(PLANS, name + "/" + a, name + "/" + b);
    LessUnderPrefix(Encoded(scope), PLANS + (name + "/" + a), PLANS + (name + "/" + b));
    LessUnderPrefix(MEMORY, RestOf(PlanRow(p)), RestOf(PlanRow(q)));
  }

  lemma {:induction false} EarlierIsLower(server: map<string, Row>, keys: seq<string>, n: nat, scope: string,
          name: string, q: Plan)
    requires WellFiled(server) && CompletePull(server, keys) && n < |keys|
    requires server[keys[n]].PlanRow? && InSlot(server[keys[n]].plan, scope, name)
    requires AllHeld(server, keys[..n]) && q in Published(server, keys[..n], scope, name)
    ensures q.version < server[keys[n]].plan.version
  {
    PublishedAre(server, keys, n, scope, name);
    var m :| 0 <= m < n && server[keys[m]] == PlanRow(q) && InSlot(q, scope, name);
    SlotKeysFollowVersions(server, keys[m], keys[n]);
  }

  lemma {:induction false} VersionsGrow(log: seq<Plan>, row: Row, scope: string, name: string)
    requires Versions(log)
    requires row.PlanRow? && InSlot(row.plan, scope, name) ==> forall q :: q in log ==> q.version < row.plan.version
    ensures Versions(log + PlanIn(row, scope, name))
  {
    assert forall i :: 0 <= i < |log| ==> log[i] in log;
    assert log + [] == log;
  }

  lemma {:induction false} PublishedNext(server: map<string, Row>, keys: seq<string>, n: nat, scope: string, name: string)
    requires WellFiled(server) && CompletePull(server, keys) && n < |keys| && AllHeld(server, keys[..n])
    requires Versions(Published(server, keys[..n], scope, name))
    ensures keys[n] in server && Versions(Published(server, keys[..n], scope, name) + PlanIn(server[keys[n]], scope, name))
  {
    assert keys[n] in keys;
    hide Published, Versions, AllHeld, WellFiled, CompletePull;
    var log, row := Published(server, keys[..n], scope, name), server[keys[n]];
    if row.PlanRow? && InSlot(row.plan, scope, name) {
      forall q | q in log ensures q.version < row.plan.version {
        EarlierIsLower(server, keys, n, scope, name, q);
      }
    }
    VersionsGrow(log, row, scope, name);
  }

  /** The published rows of a slot come in the order of their versions. */
  lemma {:induction false} PublishedInOrder(server: map<string, Row>, keys: seq<string>, n: nat, scope: string, name: string)
    requires WellFiled(server) && CompletePull(server, keys) && n <= |keys|
    ensures AllHeld(server, keys[..n])
    ensures Versions(Published(server, keys[..n], scope, name))
  {
    if n == 0 {
      TakeNone(keys);
      assert Published(server, [], scope, name) == [];
    } else {
      var m := n - 1;
      InTurn(server, keys, m);
      hide Published, Versions, AllHeld, WellFiled, CompletePull, PlanIn;
      PublishedInOrder(server, keys, m, scope, name);
      PublishedNext(server, keys, m, scope, name);
      PublishedStep(server, keys, m, scope, name);
    }
  }

  ghost predicate Versions(log: seq<Plan>) {
    forall i, j :: 0 <= i < j < |log| ==> log[i].version < log[j].version
  }

  /** A complete pull into an empty store gives a slot back exactly when the server's
      log of it runs 1..n, each version derived from the one before, and the server has
      the scope's own row. A log with gaps comes back renumbered, in version order; a
      slot without its scope's row does not come back. */
  lemma {:induction false} ReplicaRebuildsSlot(server: map<string, Row>, keys: seq<string>, scope: string, name: string)
    requires WellFiled(server) && CompletePull(server, keys)
    ensures AllHeld(server, keys)
    ensures var log, rebuilt := Published(server, keys, scope, name), SlotRows(Replay(server, keys).plans, scope, name);
            && (forall p :: p in log <==> InSlot(p, scope, name) && exists k :: k in server && server[k] == PlanRow(p))
            && Versions(log)
            && (rebuilt == log <==> log == [] || (HasScope(server, scope) && Linear(log)))
            && rebuilt == if HasScope(server, scope) then Renumbered(log) else []
  {
    TakeAll(keys);
    SlotRebuilt(server, keys, |keys|, scope, name);
    PublishedInOrder(server, keys, |keys|, scope, name);
    PublishedIsAll(server, keys, scope, name);
    if Linear(Published(server, keys, scope, name)) {
      LinearIsRenumbered(Published(server, keys, scope, name));
    }
  }

  lemma {:induction false} LinearIsRenumbered(log: seq<Plan>)
    requires Linear(log)
    ensures Renumbered(log) == log
  {
  }

  lemma {:induction false} PublishedIsAll(server: map<string, Row>, keys: seq<string>, scope: string, name: string)
    requires CompletePull(server, keys)
    ensures AllHeld(server, keys)
    ensures forall p :: p in Published(server, keys, scope, name) <==>
              InSlot(p, scope, name) && exists k :: k in server && server[k] == PlanRow(p)
  {
    TakeAll(keys);
    PublishedAre(server, keys, |keys|, scope, name);
    var log := Published(server, keys, scope, name);
    forall p ensures p in log <==> InSlot(p, scope, name) && exists k :: k in server && server[k] == PlanRow(p) {
      if k :| k in server && server[k] == PlanRow(p) && InSlot(p, scope, name) {
        assert k in keys;
        var i :| 0 <= i < |keys| && keys[i] == k;
        assert server[keys[i]] == PlanRow(p);
      }
    }
  }

  /** Every plan and learning row comes after the row of its scope. */
  lemma {:induction false} ScopeComesFirst(server: map<string, Row>, keys: seq<string>, i: nat, j: nat, scope: string)
    requires WellFiled(server) && CompletePull(server, keys) && i < |keys| && j < |keys|
    requires keys[i] == ScopeKeyOf(scope)
    requires keys[j] in server
    requires InScope(server[keys[j]], scope)
    ensures i < j
  {
    ChildSortsAfter(server, keys[j], scope);
    PositionsFollowKeys(keys, i, j);
  }

  // --- learnings ---

  ghost predicate DistinctIds(server: map<string, Row>) {
    forall k, k' {:trigger server[k], server[k']} ::
      (k in server && k' in server && server[k].LearningRow? && server[k'].LearningRow? &&
       server[k].entry.id == server[k'].entry.id) ==> k == k'
  }

  ghost predicate LearningsScoped(server: map<string, Row>) {
    forall k :: k in server && server[k].LearningRow? ==> HasScope(server, server[k].entry.scope)
  }

  /** The learning this one corrects has an earlier key. */
  ghost predicate CorrectsEarlier(server: map<string, Row>, k: string)
    requires k in server && server[k].LearningRow?
  {
    var l := server[k].entry;
    l.supersedes.Some? && l.supersedes.value != l.id ==>
      exists k' :: k' in server && server[k'].LearningRow? && server[k'].entry.id == l.supersedes.value && Less(k', k)
  }

  ghost predicate AllCorrectEarlier(server: map<string, Row>) {
    forall k {:trigger server[k]} :: k in server && server[k].LearningRow? ==> CorrectsEarlier(server, k)
  }

  ghost predicate AllLearningsHeld(server: map<string, Row>, db: Tables) {
    forall k {:trigger server[k]} :: k in server && server[k].LearningRow? ==> Holds(db, server[k].entry)
  }

  predicate Holds(db: Tables, l: Learning) {
    l.id in db.learnings && db.learnings[l.id] == l
  }

  /** The row at position m is a learning that was accepted in its turn. */
  ghost predicate AcceptedAt(server: map<string, Row>, keys: seq<string>, m: nat, l: Learning)
    requires AllHeld(server, keys) && m < |keys|
  {
    AllHeld(server, keys[..m]) && server[keys[m]] == LearningRow(l) && Replay(server, keys[..m]).AcceptsLearning(l)
  }

  ghost predicate StoredFromPull(server: map<string, Row>, keys: seq<string>, n: nat, db: Tables)
    requires AllHeld(server, keys) && n <= |keys|
  {
    forall id :: id in db.learnings ==>
      db.learnings[id].id == id && exists m: nat :: m < n && AcceptedAt(server, keys, m, db.learnings[id])
  }

  lemma {:induction false} LearningStored(server: map<string, Row>, keys: seq<string>, n: nat, db: Tables)
    requires n < |keys| && AllHeld(server, keys) && AllHeld(server, keys[..n]) && db == Replay(server, keys[..n])
    requires StoredFromPull(server, keys, n, db)
    ensures StoredFromPull(server, keys, n + 1, Apply(db, server[keys[n]]))
  {
    var db' := Apply(db, server[keys[n]]);
    forall id | id in db'.learnings
      ensures db'.learnings[id].id == id && exists m: nat :: m < n + 1 && AcceptedAt(server, keys, m, db'.learnings[id])
    {
      if id in db.learnings && db'.learnings[id] == db.learnings[id] {
        var m: nat :| m < n && AcceptedAt(server, keys, m, db.learnings[id]);
      } else {
        assert AcceptedAt(server, keys, n, db'.learnings[id]);
      }
    }
  }

  lemma {:induction false} LearningsCameFromRows(server: map<string, Row>, keys: seq<string>, n: nat)
    requires WellFiled(server) && n <= |keys| && AllHeld(server, keys)
    ensures AllHeld(server, keys[..n]) && StoredFromPull(server, keys, n, Replay(server, keys[..n]))
  {
    if n == 0 {
      TakeNone(keys);
      assert Replay(server, []) == EMPTY;
    } else {
      LearningsCameFromRows(server, keys, n - 1);
      ReplayStep(server, keys, n - 1);
      LearningStored(server, keys, n - 1, Replay(server, keys[..n - 1]));
    }
  }

  lemma {:induction false} LearningTurn(server: map<string, Row>, keys: seq<string>, m: nat, l: Learning)
    requires WellFiled(server) && CompletePull(server, keys) && DistinctIds(server) && LearningsScoped(server)
    requires m < |keys| && server[keys[m]] == LearningRow(l)
    ensures AllHeld(server, keys[..m])
    ensures var db := Replay(server, keys[..m]);
            l.id !in db.learnings && l.scope in db.scopes && l.scope != "" && l.id != ""
  {
    LearningsCameFromRows(server, keys, m);
    ScopeIsThere(server, keys, m, l.scope);
    assert Enqueued(server[keys[m]]) && HasScope(server, server[keys[m]].entry.scope);
    var db := Replay(server, keys[..m]);
    forall i: nat | i < m && server[keys[i]].LearningRow? ensures server[keys[i]].entry.id != l.id {
      assert Less(keys[i], keys[m]);
      LessIrreflexive(keys[m]);
    }
  }

  /** What an earlier part of the pull stored stays stored. */
  lemma {:induction false} LearningsStay(db: Tables, row: Row, l: Learning)
    requires Holds(db, l)
    ensures Holds(Apply(db, row), l)
  {
  }

  lemma {:induction false} GoodLearningsArrive(server: map<string, Row>, keys: seq<string>, n: nat)
    requires WellFiled(server) && CompletePull(server, keys) && DistinctIds(server) && LearningsScoped(server) && n <= |keys|
    requires AllCorrectEarlier(server)
    ensures AllHeld(server, keys[..n])
    ensures forall m: nat :: m < n && server[keys[m]].LearningRow? ==> Holds(Replay(server, keys[..n]), server[keys[m]].entry)
  {
    if n > 0 {
      GoodLearningsArrive(server, keys, n - 1);
      ReplayStep(server, keys, n - 1);
      var db := Replay(server, keys[..n - 1]);
      forall m: nat | m < n && server[keys[m]].LearningRow? ensures Holds(Apply(db, server[keys[n - 1]]), server[keys[m]].entry) {
        if m < n - 1 {
          LearningsStay(db, server[keys[n - 1]], server[keys[m]].entry);
        } else {
          LastLearningArrives(server, keys, m, db);
        }
      }
    }
  }

  lemma {:induction false} LastLearningArrives(server: map<string, Row>, keys: seq<string>, n: nat, db: Tables)
    requires WellFiled(server) && CompletePull(server, keys) && DistinctIds(server) && LearningsScoped(server)
    requires n < |keys| && server[keys[n]].LearningRow? && CorrectsEarlier(server, keys[n])
    requires AllHeld(server, keys[..n]) && db == Replay(server, keys[..n])
    requires forall m: nat :: m < n && server[keys[m]].LearningRow? ==> Holds(db, server[keys[m]].entry)
    ensures Holds(Apply(db, server[keys[n]]), server[keys[n]].entry)
  {
    var l := server[keys[n]].entry;
    LearningTurn(server, keys, n, l);
    if l.supersedes.Some? && l.supersedes.value != l.id {
      var k :| k in server && server[k].LearningRow? && server[k].entry.id == l.supersedes.value && Less(k, keys[n]);
      assert k in keys;
      var m: nat :| m < |keys| && keys[m] == k;
      PositionsFollowKeys(keys, m, n);
      assert Holds(db, server[keys[m]].entry);
    }
    assert db.AcceptsLearning(l);
  }

  /** A learning that arrived has its scope's own row on the server. */
  lemma {:induction false} HeldIsScoped(server: map<string, Row>, keys: seq<string>, k: string)
    requires WellFiled(server) && AllHeld(server, keys)
    requires k in server && server[k].LearningRow? && Holds(Replay(server, keys), server[k].entry)
    ensures HasScope(server, server[k].entry.scope)
  {
    var l := server[k].entry;
    ReplayIsValid(server, keys);
    assert Replay(server, keys).learnings[l.id].scope in Replay(server, keys).scopes;
    TakeAll(keys);
    ReplayScopes(server, keys, |keys|, l.scope);
  }

  /** Of two rows with one id at most one can be held. */
  lemma {:induction false} HeldIdsDiffer(server: map<string, Row>, db: Tables)
    requires WellFiled(server) && AllLearningsHeld(server, db)
    ensures DistinctIds(server)
  {
    forall k, k' {:trigger server[k], server[k']} | k in server && k' in server && server[k].LearningRow? && server[k'].LearningRow? &&
        server[k].entry.id == server[k'].entry.id
      ensures k == k'
    {
      assert Holds(db, server[k].entry) && Holds(db, server[k'].entry);
      assert KeyOf(server[k]) == k && KeyOf(server[k']) == k';
    }
  }

  /** A complete pull brings every learning across exactly when no two share an id, each
      one's scope has its own row on the server, and none corrects one whose key sorts
      after its own: such a correction is refused for want of the row it names. */
  lemma {:induction false} LearningsRebuilt(server: map<string, Row>, keys: seq<string>)
    requires WellFiled(server) && CompletePull(server, keys)
    ensures AllHeld(server, keys)
    ensures AllLearningsHeld(server, Replay(server, keys)) <==>
            DistinctIds(server) && LearningsScoped(server) && AllCorrectEarlier(server)
  {
    var db := Replay(server, keys);
    if DistinctIds(server) && LearningsScoped(server) && AllCorrectEarlier(server) {
      forall k | k in server && server[k].LearningRow? ensures Holds(db, server[k].entry) {
        GoodLearningArrives(server, keys, k);
      }
    }
    if AllLearningsHeld(server, db) {
      HeldIdsDiffer(server, db);
      forall k | k in server && server[k].LearningRow?
        ensures HasScope(server, server[k].entry.scope) && CorrectsEarlier(server, k)
      {
        assert Holds(db, server[k].entry);
        HeldIsScoped(server, keys, k);
        HeldCorrectsEarlier(server, keys, k);
      }
    }
  }

  lemma {:induction false} GoodLearningArrives(server: map<string, Row>, keys: seq<string>, k: string)
    requires WellFiled(server) && CompletePull(server, keys) && DistinctIds(server) && LearningsScoped(server)
    requires AllCorrectEarlier(server)
    requires k in server && server[k].LearningRow?
    ensures AllHeld(server, keys) && Holds(Replay(server, keys), server[k].entry)
  {
    TakeAll(keys);
    GoodLearningsArrive(server, keys, |keys|);
    assert k in keys;
    var m: nat :| m < |keys| && keys[m] == k;
    assert server[keys[m]].LearningRow?;
  }

  lemma {:induction false} HeldCorrectsEarlier(server: map<string, Row>, keys: seq<string>, k: string)
    requires WellFiled(server) && CompletePull(server, keys) && DistinctIds(server)
    requires AllHeld(server, keys) && k in server && server[k].LearningRow? && Holds(Replay(server, keys), server[k].entry)
    ensures CorrectsEarlier(server, k)
  {
    var l := server[k].entry;
    TakeAll(keys);
    LearningsCameFromRows(server, keys, |keys|);
    var m: nat :| m < |keys| && AcceptedAt(server, keys, m, l);
    assert server[keys[m]].LearningRow? && keys[m] == k;
    if l.supersedes.Some? && l.supersedes.value != l.id {
      LearningsCameFromRows(server, keys, m);
      var earlier := Replay(server, keys[..m]).learnings[l.supersedes.value];
      var m': nat :| m' < m && AcceptedAt(server, keys, m', earlier);
      assert Less(keys[m'], keys[m]) && server[keys[m']].entry.id == l.supersedes.value;
    }
  }

  /** A pull that completes from an empty cursor, every row ingestible, has handed over
      exactly the server's rows in key order. */
  lemma {:induction false} CompletedPull(server: map<string, Row>, cursor: string, ok: (nat, string) -> bool,
          log: seq<Serve.PushRow<Row>>)
    requires WellFiled(server)
    requires Pull.LogOk("", cursor, log) && Pull.AllCovered(server.Keys, "", ok, log)
    requires forall k :: k in server ==> Pull.Ingestible(ok, k)
    requires forall k :: k in Serve.KeysOf(log) ==> k in server
    ensures CompletePull(server, Serve.KeysOf(log))
  {
    forall k | k in server ensures k in Serve.KeysOf(log) {
      FiledNonempty(server, k);
    }
  }

  lemma {:induction false} FiledNonempty(server: map<string, Row>, k: string)
    requires WellFiled(server) && k in server
    ensures Less("", k)
  {
    assert KeyOf(server[k]) == k;
  }
}
