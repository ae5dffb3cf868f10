/** The plan version table: append-only rows per (scope, name), HEAD is the row of
    the greatest version, and an append that is not forced must name HEAD as its
    base. A query is the function the SQL text denotes. */
module PlanLog {
  import opened Wrappers
  import opened Lex
  import Sorting

  const DEFAULT_SLOT: string := "_default"

  /** One row. Version numbers are unbounded here. */
  datatype Plan = Plan(scope: string, name: string, version: int, content: string, author: string, parent: int)

  datatype AppendError = EmptyPath | Conflict(head: Option<Plan>) | NoSuchScope

  function SlotName(name: string): string {
    if name == "" then DEFAULT_SLOT else name
  }

  predicate InSlot(p: Plan, scope: string, name: string) {
    p.scope == scope && p.name == name
  }

  function SlotRows(rows: seq<Plan>, scope: string, name: string): seq<Plan>
    decreases |rows|
  {
    if rows == [] then []
    else
      var last := rows[|rows| - 1];
      SlotRows(rows[..|rows| - 1], scope, name) + if InSlot(last, scope, name) then [last] else []
  }

  /** ORDER BY version DESC LIMIT 1 */
  function Head(rows: seq<Plan>, scope: string, name: string): Option<Plan>
    decreases |rows|
  {
    if rows == [] then None
    else
      var best, last := Head(rows[..|rows| - 1], scope, name), rows[|rows| - 1];
      if InSlot(last, scope, name) && (best.None? || best.value.version < last.version) then Some(last) else best
  }

  function HeadVersion(rows: seq<Plan>, scope: string, name: string): int {
    match Head(rows, scope, name)
    case None => 0
    case Some(p) => p.version
  }

  function AtVersion(rows: seq<Plan>, scope: string, name: string, version: int): Option<Plan> {
    if rows == [] then None
    else if InSlot(rows[0], scope, name) && rows[0].version == version then Some(rows[0])
    else AtVersion(rows[1..], scope, name, version)
  }

  predicate OlderVersion(a: Plan, b: Plan) {
    a.version < b.version
  }

  predicate NameBefore(a: Plan, b: Plan) {
    Less(a.name, b.name)
  }

  /** The rows of a scope that are the greatest version of their name. */
  function HeadRows(rows: seq<Plan>, scope: string): seq<Plan> {
    HeadsAmong(rows, rows, scope)
  }

  function HeadsAmong(rows: seq<Plan>, table: seq<Plan>, scope: string): seq<Plan>
    decreases |rows|
  {
    if rows == [] then []
    else
      var last := rows[|rows| - 1];
      HeadsAmong(rows[..|rows| - 1], table, scope) +
        if last.scope == scope && last.version == HeadVersion(table, scope, last.name) then [last] else []
  }

  function Without(rows: seq<Plan>, scope: string, name: string): seq<Plan>
    decreases |rows|
  {
    if rows == [] then []
    else
      var last := rows[|rows| - 1];
      Without(rows[..|rows| - 1], scope, name) + if InSlot(last, scope, name) then [] else [last]
  }

  /** A history: versions 1, 2, ... n, each derived from the one before. */
  predicate Linear(slot: seq<Plan>) {
    forall i :: 0 <= i < |slot| ==> slot[i].version == i + 1 && slot[i].parent == i
  }

  ghost predicate AllLinear(rows: seq<Plan>) {
    forall scope, name {:trigger SlotRows(rows, scope, name)} :: Linear(SlotRows(rows, scope, name))
  }

  // --- what the queries mean ---

  lemma {:induction false} SlotRowsAre(rows: seq<Plan>, scope: string, name: string)
    ensures forall p :: p in SlotRows(rows, scope, name) <==> p in rows && InSlot(p, scope, name)
    decreases |rows|
  {
    if rows != [] {
      SlotRowsAre(rows[..|rows| - 1], scope, name);
      assert rows == rows[..|rows| - 1] + [rows[|rows| - 1]];
    }
  }

  /** HEAD is a row of the slot and no row of the slot is newer. */
  lemma {:induction false} HeadIsGreatest(rows: seq<Plan>, scope: string, name: string)
    ensures Head(rows, scope, name).None? <==> forall p :: p in rows ==> !InSlot(p, scope, name)
    ensures Head(rows, scope, name).Some? ==>
              && Head(rows, scope, name).value in rows && InSlot(Head(rows, scope, name).value, scope, name)
              && forall p :: p in rows && InSlot(p, scope, name) ==> p.version <= Head(rows, scope, name).value.version
    decreases |rows|
  {
    if rows != [] {
      HeadIsGreatest(rows[..|rows| - 1], scope, name);
      assert rows == rows[..|rows| - 1] + [rows[|rows| - 1]];
    }
  }

  lemma {:induction false} LinearHead(rows: seq<Plan>, scope: string, name: string)
    requires Linear(SlotRows(rows, scope, name))
    ensures var slot := SlotRows(rows, scope, name);
            Head(rows, scope, name) == if slot == [] then None else Some(slot[|slot| - 1])
    ensures HeadVersion(rows, scope, name) == |SlotRows(rows, scope, name)|
  {
    var slot := SlotRows(rows, scope, name);
    SlotRowsAre(rows, scope, name);
    HeadIsGreatest(rows, scope, name);
    if slot == [] {
      assert Head(rows, scope, name).None? by {
        forall p | p in rows ensures !InSlot(p, scope, name) {
          assert p !in slot;
        }
      }
    } else {
      var last := slot[|slot| - 1];
      assert last in slot && last in rows && InSlot(last, scope, name);
      var h := Head(rows, scope, name).value;
      assert h in slot;
      var i :| 0 <= i < |slot| && slot[i] == h;
    }
  }

  lemma {:induction false} AtVersionFinds(rows: seq<Plan>, scope: string, name: string, version: int)
    ensures AtVersion(rows, scope, name, version).None? <==>
              forall p :: p in rows && InSlot(p, scope, name) ==> p.version != version
    ensures AtVersion(rows, scope, name, version).Some? ==>
              var p := AtVersion(rows, scope, name, version).value; p in rows && InSlot(p, scope, name) && p.version == version
  {
    if rows != [] {
      AtVersionFinds(rows[1..], scope, name, version);
      assert rows == [rows[0]] + rows[1..];
    }
  }

  /** In a linear slot, version v is row v - 1 of the history. */
  lemma {:induction false} LinearAtVersion(rows: seq<Plan>, scope: string, name: string, version: int)
    requires Linear(SlotRows(rows, scope, name))
    ensures var slot := SlotRows(rows, scope, name);
            AtVersion(rows, scope, name, version) == if 1 <= version <= |slot| then Some(slot[version - 1]) else None
  {
    var slot := SlotRows(rows, scope, name);
    SlotRowsAre(rows, scope, name);
    AtVersionFinds(rows, scope, name, version);
    if 1 <= version <= |slot| {
      assert slot[version - 1] in slot;
      assert slot[version - 1] in rows && InSlot(slot[version - 1], scope, name);
      var p := AtVersion(rows, scope, name, version).value;
      assert p in slot;
      var i :| 0 <= i < |slot| && slot[i] == p;
    } else {
      forall p | p in rows && InSlot(p, scope, name) ensures p.version != version {
        assert p in slot;
        var i :| 0 <= i < |slot| && slot[i] == p;
      }
    }
  }

  /** The history comes back oldest first. */
  lemma {:induction false} LinearHistory(rows: seq<Plan>, scope: string, name: string)
    requires Linear(SlotRows(rows, scope, name))
    ensures Sorting.Sort(OlderVersion, SlotRows(rows, scope, name)) == SlotRows(rows, scope, name)
  {
    Sorting.SortOfIncreasing(OlderVersion, SlotRows(rows, scope, name));
  }

  // --- one append ---

  lemma {:induction false} AppendRow(rows: seq<Plan>, p: Plan, scope: string, name: string)
    ensures SlotRows(rows + [p], scope, name) ==
            SlotRows(rows, scope, name) + if InSlot(p, scope, name) then [p] else []
  {
    assert (rows + [p])[..|rows|] == rows;
  }

  /** Appending HEAD + 1 on top of HEAD keeps every history linear. */
  lemma {:induction false} AppendKeepsLinear(rows: seq<Plan>, p: Plan)
    requires AllLinear(rows)
    requires p.version == HeadVersion(rows, p.scope, p.name) + 1 && p.parent == p.version - 1
    ensures AllLinear(rows + [p])
  {
    forall scope, name ensures Linear(SlotRows(rows + [p], scope, name)) {
      AppendRow(rows, p, scope, name);
      LinearHead(rows, p.scope, p.name);
      var slot := SlotRows(rows, scope, name);
      assert Linear(slot);
    }
  }

  lemma {:induction false} WithoutSlot(rows: seq<Plan>, scope: string, name: string, scope': string, name': string)
    ensures SlotRows(Without(rows, scope, name), scope', name') ==
            if scope == scope' && name == name' then [] else SlotRows(rows, scope', name')
    decreases |rows|
  {
    if rows != [] {
      var init, last := rows[..|rows| - 1], rows[|rows| - 1];
      WithoutSlot(init, scope, name, scope', name');
      AppendRow(init, last, scope', name');
      assert init + [last] == rows;
      if !InSlot(last, scope, name) {
        AppendRow(Without(init, scope, name), last, scope', name');
      } else {
        assert Without(rows, scope, name) == Without(init, scope, name);
      }
    }
  }

  // --- the list of HEADs ---

  lemma {:induction false} HeadsAmongAre(rows: seq<Plan>, table: seq<Plan>, scope: string)
    ensures forall p :: p in HeadsAmong(rows, table, scope) <==>
              p in rows && p.scope == scope && p.version == HeadVersion(table, scope, p.name)
    decreases |rows|
  {
    if rows != [] {
      HeadsAmongAre(rows[..|rows| - 1], table, scope);
      assert rows == rows[..|rows| - 1] + [rows[|rows| - 1]];
    }
  }

  /** In a linear table a row is determined by its slot and version, and no row
      appears twice. */
  lemma {:induction false} LinearRowsDiffer(rows: seq<Plan>, i: nat, j: nat)
    requires AllLinear(rows) && i < j < |rows|
    requires rows[i].scope == rows[j].scope && rows[i].name == rows[j].name
    ensures rows[i].version < rows[j].version
    decreases |rows|
  {
    var init, last := rows[..|rows| - 1], rows[|rows| - 1];
    assert rows == init + [last];
    assert forall scope, name {:trigger SlotRows(init, scope, name)} :: Linear(SlotRows(init, scope, name)) by {
      forall scope, name ensures Linear(SlotRows(init, scope, name)) {
        AppendRow(init, last, scope, name);
        var all := SlotRows(rows, scope, name);
        assert Linear(all) && SlotRows(init, scope, name) <= all;
      }
    }
    if j < |init| {
      LinearRowsDiffer(init, i, j);
    } else {
      var slot := SlotRows(init, last.scope, last.name);
      SlotRowsAre(init, last.scope, last.name);
      AppendRow(init, last, last.scope, last.name);
      var all := SlotRows(rows, last.scope, last.name);
      assert Linear(all) && all[|slot|] == last;
      assert init[i] in init && init[i] in slot;
      var k :| 0 <= k < |slot| && slot[k] == init[i];
      assert all[k] == slot[k];
    }
  }

  lemma {:induction false} HeadsAmongDistinct(rows: seq<Plan>, table: seq<Plan>, scope: string)
    requires AllLinear(table) && rows <= table
    ensures Sorting.Distinct(NameBefore, HeadsAmong(rows, table, scope))
    decreases |rows|
  {
    var heads := HeadsAmong(rows, table, scope);
    if rows != [] {
      var init, last := rows[..|rows| - 1], rows[|rows| - 1];
      HeadsAmongDistinct(init, table, scope);
      var before := HeadsAmong(init, table, scope);
      HeadsAmongAre(init, table, scope);
      forall i | 0 <= i < |heads| ensures Sorting.Comparable(NameBefore, heads[i], heads[..i]) {
        if i < |before| {
          assert heads[i] == before[i] && heads[..i] == before[..i];
        } else {
          assert heads[..i] == before;
          forall p | p in before ensures Less(p.name, last.name) || Less(last.name, p.name) {
            var k :| 0 <= k < |init| && init[k] == p;
            assert table[k] == p && table[|init|] == last;
            if p.name == last.name {
              LinearRowsDiffer(table, k, |init|);
            }
            LessTotal(p.name, last.name);
          }
        }
      }
    }
  }

  lemma {:induction false} NameBeforeIsStrict()
    ensures Sorting.StrictOrder(NameBefore)
  {
    StrictTotalOrder();
  }

  /** ListPlans: one row per name, in name order, and it is the row GetPlan gives. */
  lemma {:induction false} ListedHeads(rows: seq<Plan>, scope: string)
    requires AllLinear(rows)
    ensures var listed := Sorting.Sort(NameBefore, HeadRows(rows, scope));
            && (forall i, j :: 0 <= i < j < |listed| ==> Less(listed[i].name, listed[j].name))
            && (forall p :: p in listed <==> Head(rows, scope, p.name) == Some(p))
            && (forall q :: q in rows && q.scope == scope ==> exists p :: p in listed && p.name == q.name)
  {
    var heads := HeadRows(rows, scope);
    var listed := Sorting.Sort(NameBefore, heads);
    HeadsAmongAre(rows, rows, scope);
    HeadsAmongDistinct(rows, rows, scope);
    NameBeforeIsStrict();
    Sorting.SortIsIncreasing(NameBefore, heads);
    Sorting.SameMembers(listed, heads);
    forall i, j | 0 <= i < j < |listed| ensures Less(listed[i].name, listed[j].name) {
      assert NameBefore(listed[i], listed[j]);
    }
    forall p ensures p in listed <==> Head(rows, scope, p.name) == Some(p) {
      HeadIsListed(rows, scope, p);
    }
    forall q | q in rows && q.scope == scope ensures exists p :: p in listed && p.name == q.name {
      HeadIsGreatest(rows, scope, q.name);
      var p := Head(rows, scope, q.name).value;
      assert p in listed;
    }
  }

  lemma {:induction false} HeadIsListed(rows: seq<Plan>, scope: string, p: Plan)
    requires AllLinear(rows)
    ensures p in rows && p.scope == scope && p.version == HeadVersion(rows, scope, p.name) <==>
            Head(rows, scope, p.name) == Some(p)
  {
    HeadIsGreatest(rows, scope, p.name);
    LinearHead(rows, scope, p.name);
    if p in rows && p.scope == scope && p.version == HeadVersion(rows, scope, p.name) {
      var slot := SlotRows(rows, scope, p.name);
      SlotRowsAre(rows, scope, p.name);
      assert p in slot;
      var k :| 0 <= k < |slot| && slot[k] == p;
      assert Linear(slot);
    }
  }
}
