/** The memory tables: scopes, plan versions and learnings, with their foreign keys
    enforced, and the operations the daemon and the sync client call on them. */
module MemoryStore {
  import opened Wrappers
  import opened Lex
  import opened PlanLog
  import Sorting

  /** `body` stands for the descriptive columns, which no operation looks at. */
  datatype Scope = Scope(path: string, kind: string, body: string)

  datatype Learning = Learning(id: string, scope: string, content: string, author: string, supersedes: Option<string>)

  datatype WriteError = BadScope | BadLearning | Constraint

  predicate KnownKind(kind: string) {
    kind in {"", "portfolio", "program", "project", "dispatch", "agent", "other"}
  }

  /** The table contents. Learnings are keyed by id. */
  datatype Tables = Tables(scopes: map<string, Scope>, plans: seq<Plan>, learnings: map<string, Learning>) {
    ghost predicate ForeignKeys() {
      && (forall p :: p in plans ==> p.scope in scopes)
      && (forall id :: id in learnings ==> learnings[id].scope in scopes)
      && (forall id :: id in learnings && learnings[id].supersedes.Some? ==> learnings[id].supersedes.value in learnings)
    }

    ghost predicate Valid() {
      AllLinear(plans) && ForeignKeys()
    }

    function AppendResult(scope: string, name: string, content: string, author: string, base: int, force: bool)
      : Result<Plan, AppendError>
    {
      var slot := SlotName(name);
      var head := HeadVersion(plans, scope, slot);
      if scope == "" then Err(EmptyPath)
      else if !force && base != head then Err(Conflict(Head(plans, scope, slot)))
      else if scope !in scopes then Err(NoSuchScope)
      else Ok(Plan(scope, slot, head + 1, content, author, head))
    }

    function AfterAppend(r: Result<Plan, AppendError>): Tables {
      match r
      case Ok(p) => this.(plans := plans + [p])
      case Err(_) => this
    }

    predicate AcceptsScope(sc: Scope) {
      sc.path != "" && KnownKind(sc.kind)
    }

    /** The self reference is allowed: the row is there when the key is checked. */
    predicate AcceptsLearning(l: Learning) {
      && l.scope != "" && l.id != ""
      && l.id !in learnings && l.scope in scopes
      && (l.supersedes.Some? ==> l.supersedes.value == l.id || l.supersedes.value in learnings)
    }

    function AfterScope(sc: Scope): Tables {
      if AcceptsScope(sc) then this.(scopes := scopes[sc.path := sc]) else this
    }

    function AfterLearning(l: Learning): Tables {
      if AcceptsLearning(l) then this.(learnings := learnings[l.id := l]) else this
    }

    function AfterDelete(scope: string, name: string): Tables {
      this.(plans := Without(plans, scope, SlotName(name)))
    }

    /** An append that is not forced succeeds exactly when its base is HEAD (and the
        scope exists); a refusal for the base carries HEAD. */
    lemma {:induction false} AppendMeans(scope: string, name: string, content: string, author: string, base: int, force: bool)
      requires Valid() && scope != ""
      ensures var r, history := AppendResult(scope, name, content, author, base, force), SlotRows(plans, scope, SlotName(name));
              && (r.Ok? <==> scope in scopes && (force || base == |history|))
              && (r.Ok? ==> SlotRows(AfterAppend(r).plans, scope, SlotName(name)) == history + [r.value] &&
                            r.value == Plan(scope, if name == "" then "_default" else name, |history| + 1, content, author, |history|))
              && (!force && base != |history| ==>
                    r == Err(Conflict(if history == [] then None else Some(history[|history| - 1]))))
    {
      var slot := SlotName(name);
      var r := AppendResult(scope, name, content, author, base, force);
      LinearHead(plans, scope, slot);
      if r.Ok? {
        AppendRow(plans, r.value, scope, slot);
      }
    }

    lemma {:induction false} AppendKeepsValid(scope: string, name: string, content: string, author: string,
            base: int, force: bool)
      requires Valid()
      ensures AfterAppend(AppendResult(scope, name, content, author, base, force)).Valid()
    {
      var r := AppendResult(scope, name, content, author, base, force);
      if r.Ok? {
        AppendKeepsLinear(plans, r.value);
      }
    }

    lemma {:induction false} WritesKeepValid(sc: Scope, l: Learning)
      requires Valid()
      ensures AfterScope(sc).Valid() && AfterLearning(l).Valid()
    {
    }

    lemma {:induction false} DeleteKeepsValid(scope: string, name: string)
      requires Valid()
      ensures AfterDelete(scope, name).Valid()
    {
      var after := AfterDelete(scope, name);
      forall s, n ensures Linear(SlotRows(after.plans, s, n)) {
        WithoutSlot(plans, scope, SlotName(name), s, n);
        assert Linear(SlotRows(plans, s, n));
      }
      forall p | p in after.plans ensures p.scope in scopes {
        SlotRowsAre(after.plans, p.scope, p.name);
        WithoutSlot(plans, scope, SlotName(name), p.scope, p.name);
        SlotRowsAre(plans, p.scope, p.name);
        assert p in SlotRows(after.plans, p.scope, p.name);
      }
    }
  }

  datatype Call =
    | Append(scope: string, name: string, content: string, author: string, base: int, force: bool)
    | DeletePlan(scope: string, name: string)
    | PutScope(row: Scope)
    | PutLearning(entry: Learning)

  function Do(db: Tables, call: Call): Tables {
    match call
    case Append(scope, name, content, author, base, force) =>
      db.AfterAppend(db.AppendResult(scope, name, content, author, base, force))
    case DeletePlan(scope, name) => db.AfterDelete(scope, name)
    case PutScope(row) => db.AfterScope(row)
    case PutLearning(entry) => db.AfterLearning(entry)
  }

  function DoAll(db: Tables, calls: seq<Call>): Tables
    decreases |calls|
  {
    if calls == [] then db else Do(DoAll(db, calls[..|calls| - 1]), calls[|calls| - 1])
  }

  const EMPTY: Tables := Tables(map[], [], map[])

  /** Whatever is called, in whatever order, every slot's history stays 1..n with each
      version derived from the one before, and the foreign keys hold. */
  lemma {:induction false} HistoriesStayLinear(calls: seq<Call>)
    ensures DoAll(EMPTY, calls).Valid()
    decreases |calls|
  {
    if calls == [] {
      assert forall scope, name {:trigger SlotRows([], scope, name)} :: SlotRows([], scope, name) == [];
    } else {
      var db := DoAll(EMPTY, calls[..|calls| - 1]);
      HistoriesStayLinear(calls[..|calls| - 1]);
      match calls[|calls| - 1]
      case Append(scope, name, content, author, base, force) =>
        db.AppendKeepsValid(scope, name, content, author, base, force);
      case DeletePlan(scope, name) => db.DeleteKeepsValid(scope, name);
      case PutScope(row) => assert Do(db, PutScope(row)).Valid();
      case PutLearning(entry) => assert Do(db, PutLearning(entry)).Valid();
    }
  }

  /** A plan without a name is the slot "_default", for writing, deleting and reading
      alike; every other name is its own slot. */
  lemma {:induction false} UnnamedIsDefault(db: Tables, scope: string, name: string, content: string, author: string,
          base: int, force: bool)
    ensures Do(db, Append(scope, "", content, author, base, force)) == Do(db, Append(scope, "_default", content, author, base, force))
    ensures Do(db, DeletePlan(scope, "")) == Do(db, DeletePlan(scope, "_default"))
    ensures SlotName("") == "_default" && (name != "" ==> SlotName(name) == name)
    ensures var r := db.AppendResult(scope, name, content, author, base, force);
            r.Ok? ==> r.value.name == if name == "" then "_default" else name
  {
  }

  predicate Deletes(call: Call, scope: string, name: string) {
    call.DeletePlan? && call.scope == scope && SlotName(call.name) == name
  }

  /** One call that does not delete the slot only ever adds to its history. */
  lemma {:induction false} DoExtends(db: Tables, call: Call, scope: string, name: string)
    requires db.Valid() && !Deletes(call, scope, name)
    ensures Do(db, call).Valid()
    ensures SlotRows(db.plans, scope, name) <= SlotRows(Do(db, call).plans, scope, name)
  {
    match call {
      case Append(s, n, content, author, base, force) =>
        db.AppendKeepsValid(s, n, content, author, base, force);
        var r := db.AppendResult(s, n, content, author, base, force);
        if r.Ok? {
          AppendRow(db.plans, r.value, scope, name);
        }
      case DeletePlan(s, n) =>
        db.DeleteKeepsValid(s, n);
        WithoutSlot(db.plans, s, SlotName(n), scope, name);
      case PutScope(row) =>
        db.WritesKeepValid(row, Learning("", "", "", "", None));
      case PutLearning(entry) =>
        db.WritesKeepValid(Scope("", "", ""), entry);
    }
  }

  lemma {:induction false} DoAllExtends(db: Tables, calls: seq<Call>, scope: string, name: string)
    requires db.Valid()
    requires forall i :: 0 <= i < |calls| ==> !Deletes(calls[i], scope, name)
    ensures DoAll(db, calls).Valid()
    ensures SlotRows(db.plans, scope, name) <= SlotRows(DoAll(db, calls).plans, scope, name)
    decreases |calls|
  {
    if calls != [] {
      DoAllExtends(db, calls[..|calls| - 1], scope, name);
      DoExtends(DoAll(db, calls[..|calls| - 1]), calls[|calls| - 1], scope, name);
    }
  }

  /** Until its slot is deleted, a version that was written reads back the same. */
  lemma {:induction false} VersionsNeverChange(db: Tables, calls: seq<Call>, scope: string, name: string, version: int)
    requires db.Valid() && AtVersion(db.plans, scope, name, version).Some?
    requires forall i :: 0 <= i < |calls| ==> !Deletes(calls[i], scope, name)
    ensures AtVersion(DoAll(db, calls).plans, scope, name, version) == AtVersion(db.plans, scope, name, version)
  {
    DoAllExtends(db, calls, scope, name);
    LinearAtVersion(db.plans, scope, name, version);
    LinearAtVersion(DoAll(db, calls).plans, scope, name, version);
  }

  class Store {
    var scopes: map<string, Scope>
    var plans: seq<Plan>
    var learnings: map<string, Learning>

    ghost function State(): Tables
      reads this
    {
      Tables(scopes, plans, learnings)
    }

    ghost predicate Valid()
      reads this
    {
      State().Valid()
    }

    constructor ()
      ensures State() == EMPTY && Valid()
    {
      scopes, plans, learnings := map[], [], map[];
      new;
      HistoriesStayLinear([]);
    }

    method UpdateScope(sc: Scope) returns (r: Result<(), WriteError>)
      requires Valid()
      modifies this
      ensures Valid() && State() == old(State()).AfterScope(sc)
      ensures r == Err(BadScope) <==>
                sc.path == "" || sc.kind !in {"", "portfolio", "program", "project", "dispatch", "agent", "other"}
      ensures r.Ok? ==> scopes == old(scopes)[sc.path := sc] && plans == old(plans) && learnings == old(learnings)
      ensures r.Err? ==> r == Err(BadScope) && State() == old(State())
    {
      State().WritesKeepValid(sc, Learning("", "", "", "", None));
      if sc.path == "" || !KnownKind(sc.kind) {
        return Err(BadScope);
      }
      scopes := scopes[sc.path := sc];
      return Ok(());
    }

    method AppendPlanVersion(scope: string, name: string, content: string, author: string, base: int, force: bool)
      returns (r: Result<Plan, AppendError>)
      requires Valid()
      modifies this
      ensures Valid()
      ensures r == old(State()).AppendResult(scope, name, content, author, base, force)
      ensures State() == old(State()).AfterAppend(r)
    {
      State().AppendKeepsValid(scope, name, content, author, base, force);
      if scope == "" {
        return Err(EmptyPath);
      }
      var slot := if name == "" then DEFAULT_SLOT else name;
      var head := Head(plans, scope, slot);
      var headVersion := 0;
      if head.Some? {
        headVersion := head.value.version;
      }
      if !force && base != headVersion {
        return Err(Conflict(head));
      }
      if scope !in scopes {
        return Err(NoSuchScope);
      }
      var p := Plan(scope, slot, headVersion + 1, content, author, headVersion);
      plans := plans + [p];
      return Ok(p);
    }

    method GetPlan(scope: string, slot: string) returns (p: Option<Plan>)
      requires Valid()
      ensures var history := SlotRows(plans, scope, SlotName(slot));
              p == if history == [] then None else Some(history[|history| - 1])
    {
      LinearHead(plans, scope, SlotName(slot));
      p := Head(plans, scope, SlotName(slot));
    }

    method GetPlanVersion(scope: string, slot: string, version: int) returns (p: Option<Plan>)
      requires Valid()
      ensures var history := SlotRows(plans, scope, SlotName(slot));
              p == if 1 <= version <= |history| then Some(history[version - 1]) else None
    {
      LinearAtVersion(plans, scope, SlotName(slot), version);
      p := AtVersion(plans, scope, SlotName(slot), version);
    }

    /** One row per slot, by name, each the row GetPlan returns. */
    method ListPlans(scope: string) returns (out: seq<Plan>)
      requires Valid()
      ensures forall i, j :: 0 <= i < j < |out| ==> Less(out[i].name, out[j].name)
      ensures forall p :: p in out <==> Head(plans, scope, p.name) == Some(p)
      ensures forall q :: q in plans && q.scope == scope ==> exists p :: p in out && p.name == q.name
    {
      ListedHeads(plans, scope);
      out := Sorting.Sort(NameBefore, HeadRows(plans, scope));
    }

    method ListPlanVersions(scope: string, slot: string) returns (out: seq<Plan>)
      requires Valid()
      ensures Linear(out) && out == SlotRows(plans, scope, SlotName(slot))
    {
      LinearHistory(plans, scope, SlotName(slot));
      out := Sorting.Sort(OlderVersion, SlotRows(plans, scope, SlotName(slot)));
    }

    method DeletePlan(scope: string, slot: string)
      requires Valid()
      modifies this
      ensures Valid() && State() == old(State()).AfterDelete(scope, slot)
      ensures forall s, n {:trigger SlotRows(plans, s, n)} :: SlotRows(plans, s, n) ==
                if s == scope && n == SlotName(slot) then [] else SlotRows(old(plans), s, n)
    {
      State().DeleteKeepsValid(scope, slot);
      forall s, n ensures SlotRows(Without(plans, scope, SlotName(slot)), s, n) ==
                            if s == scope && n == SlotName(slot) then [] else SlotRows(plans, s, n) {
        WithoutSlot(plans, scope, SlotName(slot), s, n);
      }
      plans := Without(plans, scope, SlotName(slot));
    }

    method AppendLearning(l: Learning) returns (r: Result<(), WriteError>)
      requires Valid()
      modifies this
      ensures Valid() && State() == old(State()).AfterLearning(l)
      ensures r == Err(BadLearning) <==> l.scope == "" || l.id == ""
      ensures r == Err(Constraint) <==>
                && l.scope != "" && l.id != ""
                && (l.id in old(learnings) || l.scope !in scopes ||
                    (l.supersedes.Some? && l.supersedes.value != l.id && l.supersedes.value !in old(learnings)))
      ensures r.Ok? ==> learnings == old(learnings)[l.id := l] && plans == old(plans) && scopes == old(scopes)
      ensures r.Err? ==> r.error in {BadLearning, Constraint} && State() == old(State())
    {
      State().WritesKeepValid(Scope("", "", ""), l);
      if l.scope == "" || l.id == "" {
        return Err(BadLearning);
      }
      if l.id in learnings || l.scope !in scopes || (l.supersedes.Some? && l.supersedes.value != l.id && l.supersedes.value !in learnings) {
        return Err(Constraint);
      }
      learnings := learnings[l.id := l];
      return Ok(());
    }
  }
}
