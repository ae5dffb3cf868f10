/** Rows handed over more than once, in any order: a plan row goes in on top of HEAD
    every time it comes, every other row only once. */
module Redelivery {
  import opened PlanLog
  import opened MemoryStore
  import opened Replica
  import opened Sequences

  /** A row that goes in again: a plan row, under a plan key, whose scope is here. */
  predicate GoesInAgain(db: Tables, key: string, row: Row) {
    && MEMORY <= key && TableOf(key[|MEMORY|..]).Plans?
    && row.PlanRow? && row.plan.scope != "" && row.plan.scope in db.scopes
  }

  /** The version a pulled plan row becomes on top of n others. */
  function OnTop(p: Plan, n: nat): Plan {
    Plan(p.scope, SlotName(p.name), n + 1, p.content, p.author, n)
  }

  lemma {:induction false} GoesIn(db: Tables, key: string, row: Row)
    requires db.Valid() && GoesInAgain(db, key, row)
    ensures var slot, after := SlotName(row.plan.name), Ingest(db, key, row);
            && GoesInAgain(after, key, row) && |after.plans| == |db.plans| + 1
            && SlotRows(after.plans, row.plan.scope, slot) ==
               SlotRows(db.plans, row.plan.scope, slot) + [OnTop(row.plan, |SlotRows(db.plans, row.plan.scope, slot)|)]
  {
    db.AppendMeans(row.plan.scope, row.plan.name, row.plan.content, row.plan.author, row.plan.parent, true);
  }

  lemma {:induction false} StaysOnce(db: Tables, key: string, row: Row)
    requires !GoesInAgain(db, key, row)
    ensures Ingest(Ingest(db, key, row), key, row) == Ingest(db, key, row)
  {
  }

  /** Ingesting a row twice is ingesting it once, except for a plan row whose scope is
      here: that one becomes another version with the same content. */
  lemma {:induction false} IngestTwice(db: Tables, key: string, row: Row)
    requires db.Valid()
    ensures var once := Ingest(db, key, row);
            var twice := Ingest(once, key, row);
            && (twice == once <==> !GoesInAgain(db, key, row))
            && (GoesInAgain(db, key, row) ==>
                  var before := SlotRows(db.plans, row.plan.scope, SlotName(row.plan.name));
                  SlotRows(twice.plans, row.plan.scope, SlotName(row.plan.name)) ==
                    before + [OnTop(row.plan, |before|), OnTop(row.plan, |before| + 1)])
  {
    if GoesInAgain(db, key, row) {
      var once := Ingest(db, key, row);
      IngestKeepsValid(db, key, row);
      GoesIn(db, key, row);
      GoesIn(once, key, row);
      var before := SlotRows(db.plans, row.plan.scope, SlotName(row.plan.name));
      var n := |before|;
      assert (before + [OnTop(row.plan, n)]) + [OnTop(row.plan, n + 1)] == before + [OnTop(row.plan, n), OnTop(row.plan, n + 1)];
    } else {
      StaysOnce(db, key, row);
    }
  }

  /** The smallest case: one plan of one scope, delivered twice. */
  lemma {:induction false} ReplayedPlanIsNewVersion()
    ensures var db, row := Tables(map["s" := Scope("s", "", "")], [], map[]), PlanRow(Plan("s", "p", 1, "text", "me", 0));
            SlotRows(Ingest(Ingest(db, KeyOf(row), row), KeyOf(row), row).plans, "s", "p") ==
            [Plan("s", "p", 1, "text", "me", 0), Plan("s", "p", 2, "text", "me", 1)]
  {
    var db, row := Tables(map["s" := Scope("s", "", "")], [], map[]), PlanRow(Plan("s", "p", 1, "text", "me", 0));
    assert forall scope, name {:trigger SlotRows([], scope, name)} :: SlotRows([], scope, name) == [];
    assert KeyOf(row)[|MEMORY|..] == RestOf(row);
    DispatchIsRight(row);
    IngestTwice(db, KeyOf(row), row);
  }

  // --- any deliveries ---

  /** The deliveries of a slot's rows, those before the scope's own row left out. */
  ghost function Landed(server: map<string, Row>, keys: seq<string>, scope: string, name: string): seq<Plan>
    requires AllHeld(server, keys)
    decreases |keys|
  {
    if keys == [] then []
    else
      var init, row := keys[..|keys| - 1], server[keys[|keys| - 1]];
      if HasScope(server, scope) && ScopeKeyOf(scope) in init then Landed(server, init, scope, name) + PlanIn(row, scope, name)
      else Landed(server, init, scope, name)
  }

  /** Whatever is delivered, in whatever order and however often, a slot's history is
      one version per delivery of one of its rows made after the scope's row. */
  lemma {:induction false} SlotFromDeliveries(server: map<string, Row>, keys: seq<string>, scope: string, name: string)
    requires WellFiled(server) && AllHeld(server, keys)
    ensures SlotRows(Replay(server, keys).plans, scope, name) == Renumbered(Landed(server, keys, scope, name))
    decreases |keys|
  {
    if keys == [] {
      NoPlanYet(server, scope, name);
    } else {
      var init, last := keys[..|keys| - 1], keys[|keys| - 1];
      var db, log := Replay(server, init), Landed(server, init, scope, name);
      SlotFromDeliveries(server, init, scope, name);
      ReplayLast(server, keys, init, last);
      ReplayIsValid(server, init);
      TakeAll(init);
      ReplayScopes(server, init, |init|, scope);
      RowLands(server, last, log, scope, name, db, HasScope(server, scope) && ScopeKeyOf(scope) in init);
    }
  }

  // --- a complete pull, and then anything again ---

  lemma {:induction false} OneMore(server: map<string, Row>, init: seq<string>, k: string, scope: string, name: string)
    requires AllHeld(server, init) && k in server
    ensures AllHeld(server, init + [k])
    ensures Published(server, init + [k], scope, name) == Published(server, init, scope, name) + PlanIn(server[k], scope, name)
    ensures Landed(server, init + [k], scope, name) ==
            if HasScope(server, scope) && ScopeKeyOf(scope) in init then Landed(server, init, scope, name) + PlanIn(server[k], scope, name)
            else Landed(server, init, scope, name)
  {
    assert (init + [k])[..|init|] == init;
  }

  lemma {:induction false} PublishedConcat(server: map<string, Row>, keys: seq<string>, again: seq<string>,
          scope: string, name: string)
    requires AllHeld(server, keys) && AllHeld(server, again)
    ensures AllHeld(server, keys + again)
    ensures Published(server, keys + again, scope, name) == Published(server, keys, scope, name) + Published(server, again, scope, name)
    decreases |again|
  {
    if again == [] {
      assert keys + again == keys;
    } else {
      var init, last := again[..|again| - 1], again[|again| - 1];
      SplitLast(keys, again);
      PublishedConcat(server, keys, init, scope, name);
      OneMore(server, init, last, scope, name);
      OneMore(server, keys + init, last, scope, name);
      Regroup(Published(server, keys, scope, name), Published(server, init, scope, name), PlanIn(server[last], scope, name));
    }
  }

  lemma {:induction false} LandedConcat(server: map<string, Row>, keys: seq<string>, again: seq<string>,
          scope: string, name: string)
    requires AllHeld(server, keys) && AllHeld(server, again)
    requires HasScope(server, scope) ==> ScopeKeyOf(scope) in keys
    ensures AllHeld(server, keys + again)
    ensures Landed(server, keys + again, scope, name) ==
            Landed(server, keys, scope, name) + if HasScope(server, scope) then Published(server, again, scope, name) else []
    decreases |again|
  {
    hide HasScope, PlanIn;
    if again == [] {
      assert keys + again == keys;
    } else {
      var init, last := again[..|again| - 1], again[|again| - 1];
      SplitLast(keys, again);
      LandedConcat(server, keys, init, scope, name);
      OneMore(server, init, last, scope, name);
      OneMore(server, keys + init, last, scope, name);
      Regroup(Landed(server, keys, scope, name), Published(server, init, scope, name), PlanIn(server[last], scope, name));
      Regroup(Landed(server, keys, scope, name), [], []);
    }
  }

  lemma {:induction false} OneRowOfAPlan(server: map<string, Row>, k: string, k': string)
    requires WellFiled(server) && k in server && k' in server && server[k] == server[k']
    ensures k == k'
  {
    assert KeyOf(server[k]) == k && KeyOf(server[k']) == k';
  }

  lemma {:induction false} PublishedCounts(server: map<string, Row>, keys: seq<string>, scope: string, name: string, k: string)
    requires WellFiled(server) && AllHeld(server, keys)
    requires k in server && server[k].PlanRow? && InSlot(server[k].plan, scope, name)
    ensures multiset(Published(server, keys, scope, name))[server[k].plan] == multiset(keys)[k]
    decreases |keys|
  {
    hide WellFiled;
    if keys != [] {
      var init, last := keys[..|keys| - 1], keys[|keys| - 1];
      PublishedCounts(server, init, scope, name, k);
      SplitLast([], keys);
      OneMore(server, init, last, scope, name);
      if server[last] == server[k] {
        OneRowOfAPlan(server, last, k);
      }
    }
  }

  /** What landed is what was published, if the server has the scope at all. */
  ghost predicate LandsIfScoped(server: map<string, Row>, keys: seq<string>, scope: string, name: string)
    requires AllHeld(server, keys)
  {
    Landed(server, keys, scope, name) == if HasScope(server, scope) then Published(server, keys, scope, name) else []
  }

  lemma {:induction false} OneMoreLands(server: map<string, Row>, init: seq<string>, k: string, scope: string, name: string)
    requires AllHeld(server, init) && k in server && LandsIfScoped(server, init, scope, name)
    requires InScope(server[k], scope) && HasScope(server, scope) ==> ScopeKeyOf(scope) in init
    ensures AllHeld(server, init + [k]) && LandsIfScoped(server, init + [k], scope, name)
  {
    OneMore(server, init, k, scope, name);
    JoinNone(Published(server, init, scope, name), []);
    hide HasScope, Landed, Published;
  }

  /** In key order nothing comes before its scope. */
  lemma {:induction false} LandedInPull(server: map<string, Row>, keys: seq<string>, n: nat, scope: string, name: string)
    requires WellFiled(server) && CompletePull(server, keys) && n <= |keys|
    ensures AllHeld(server, keys[..n]) && LandsIfScoped(server, keys[..n], scope, name)
  {
    if n == 0 {
      TakeNone(keys);
    } else {
      var m := n - 1;
      InTurn(server, keys, m);
      hide HasScope, CompletePull, WellFiled, LandsIfScoped, InScope, AllHeld;
      LandedInPull(server, keys, m, scope, name);
      ScopeSeenFirst(server, keys, m, scope);
      OneMoreLands(server, keys[..m], keys[m], scope, name);
      TakeOneMore(keys, m);
    }
  }

  lemma {:induction false} ScopeSeenFirst(server: map<string, Row>, keys: seq<string>, n: nat, scope: string)
    requires WellFiled(server) && CompletePull(server, keys) && n < |keys|
    ensures keys[n] in server
    ensures InScope(server[keys[n]], scope) && HasScope(server, scope) ==> ScopeKeyOf(scope) in keys[..n]
  {
    assert keys[n] in keys;
    if InScope(server[keys[n]], scope) {
      ReplayScopes(server, keys, n, scope);
      ScopeIsThere(server, keys, n, scope);
    }
  }

  lemma {:induction false} AfterPull(server: map<string, Row>, keys: seq<string>, again: seq<string>, scope: string, name: string)
    requires WellFiled(server) && CompletePull(server, keys) && AllHeld(server, again)
    ensures AllHeld(server, keys) && AllHeld(server, keys + again)
    ensures SlotRows(Replay(server, keys + again).plans, scope, name) ==
            if HasScope(server, scope) then Renumbered(Published(server, keys, scope, name) + Published(server, again, scope, name)) else []
  {
    TakeAll(keys);
    LandedInPull(server, keys, |keys|, scope, name);
    LandedConcat(server, keys, again, scope, name);
    SlotFromDeliveries(server, keys + again, scope, name);
  }

  /** After a complete pull, redelivering any rows adds one version for each delivery of
      a row of the slot: the slot keeps what the pull gave it exactly when none of its
      rows comes again (or the server lacks its scope). */
  lemma {:induction false} Redelivered(server: map<string, Row>, keys: seq<string>, again: seq<string>,
          scope: string, name: string)
    requires WellFiled(server) && CompletePull(server, keys) && AllHeld(server, again)
    ensures AllHeld(server, keys) && AllHeld(server, keys + again)
    ensures var first, rebuilt := SlotRows(Replay(server, keys).plans, scope, name), SlotRows(Replay(server,
                keys + again).plans, scope, name);
            var log := Published(server, keys, scope, name) + Published(server, again, scope, name);
            && rebuilt == (if HasScope(server, scope) then Renumbered(log) else [])
            && (rebuilt == first <==> !HasScope(server, scope) || Published(server, again, scope, name) == [])
            && (forall k {:trigger server[k]} :: k in server && server[k].PlanRow? && InSlot(server[k].plan, scope, name) ==>
                  multiset(log)[server[k].plan] == multiset(keys + again)[k])
  {
    ReplicaRebuildsSlot(server, keys, scope, name);
    AfterPull(server, keys, again, scope, name);
    PublishedConcat(server, keys, again, scope, name);
    hide WellFiled, CompletePull, HasScope, Published;
    Regroup(Published(server, keys, scope, name), [], []);
    forall k {:trigger server[k]} | k in server && server[k].PlanRow? && InSlot(server[k].plan, scope, name)
      ensures multiset(Published(server, keys + again, scope, name))[server[k].plan] == multiset(keys + again)[k]
    {
      PublishedCounts(server, keys + again, scope, name, k);
    }
  }
}
