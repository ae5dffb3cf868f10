/** Plan appends that overlap: the HEAD read and the insert of one append are two
    steps, and anything may come between them. The primary key on (scope, name,
    version) alone keeps the history linear and lets one writer per base win. */
module PlanRun {
  import opened PlanLog
  import opened MemoryStore

  datatype Request = Request(scope: string, name: string, content: string, author: string, base: int, force: bool)

  /** An append between its read and its insert: `head` is the version it read. */
  datatype Open = Open(req: Request, head: int)

  datatype State = State(scopes: set<string>, plans: seq<Plan>, open: map<nat, Open>)

  datatype Step = Select(tx: nat, req: Request) | Insert(tx: nat) | Rollback(tx: nat) | AddScope(path: string)

  function RowOf(o: Open): Plan {
    Plan(o.req.scope, SlotName(o.req.name), o.head + 1, o.req.content, o.req.author, o.head)
  }

  /** The primary key: no second row of this slot and version. */
  predicate KeyFree(plans: seq<Plan>, p: Plan) {
    AtVersion(plans, p.scope, p.name, p.version).None?
  }

  predicate Inserts(s: State, step: Step) {
    step.Insert? && step.tx in s.open && s.open[step.tx].req.scope in s.scopes && KeyFree(s.plans, RowOf(s.open[step.tx]))
  }

  predicate Refused(s: State, req: Request) {
    req.scope == "" || (!req.force && req.base != HeadVersion(s.plans, req.scope, SlotName(req.name)))
  }

  function Next(s: State, step: Step): State {
    match step
    case Select(tx, req) =>
      if tx in s.open || Refused(s, req) then s
      else s.(open := s.open[tx := Open(req, HeadVersion(s.plans, req.scope, SlotName(req.name)))])
    case Insert(tx) =>
      if tx !in s.open then s
      else s.(plans := if Inserts(s, step) then s.plans + [RowOf(s.open[tx])] else s.plans, open := s.open - {tx})
    case Rollback(tx) => s.(open := s.open - {tx})
    case AddScope(path) => s.(scopes := s.scopes + {path})
  }

  function Run(s: State, steps: seq<Step>): State
    decreases |steps|
  {
    if steps == [] then s else Next(Run(s, steps[..|steps| - 1]), steps[|steps| - 1])
  }

  /** What an open append read can only have been overtaken. */
  ghost predicate ReadIsPast(s: State, o: Open) {
    && 0 <= o.head <= HeadVersion(s.plans, o.req.scope, SlotName(o.req.name))
    && (!o.req.force ==> o.req.base == o.head)
  }

  ghost predicate Inv(s: State) {
    && AllLinear(s.plans)
    && (forall tx :: tx in s.open ==> ReadIsPast(s, s.open[tx]))
  }

  /** An insert goes in exactly when the version it read is still HEAD. */
  lemma {:induction false} InsertsIffStillHead(s: State, tx: nat)
    requires Inv(s) && tx in s.open && s.open[tx].req.scope in s.scopes
    ensures Inserts(s, Insert(tx)) <==>
            HeadVersion(s.plans, s.open[tx].req.scope, SlotName(s.open[tx].req.name)) == s.open[tx].head
  {
    var o := s.open[tx];
    LinearHead(s.plans, o.req.scope, SlotName(o.req.name));
    LinearAtVersion(s.plans, o.req.scope, SlotName(o.req.name), o.head + 1);
    assert ReadIsPast(s, o);
  }

  lemma {:induction false} NextKeepsInv(s: State, step: Step)
    requires Inv(s)
    ensures Inv(Next(s, step)) && s.plans <= Next(s, step).plans
  {
    var s' := Next(s, step);
    if Inserts(s, step) {
      var p := RowOf(s.open[step.tx]);
      InsertsIffStillHead(s, step.tx);
      AppendKeepsLinear(s.plans, p);
      forall tx | tx in s'.open ensures ReadIsPast(s', s'.open[tx]) {
        var o := s.open[tx];
        assert ReadIsPast(s, o);
        LinearHead(s.plans, o.req.scope, SlotName(o.req.name));
        LinearHead(s'.plans, o.req.scope, SlotName(o.req.name));
        AppendRow(s.plans, p, o.req.scope, SlotName(o.req.name));
      }
    } else {
      assert s'.plans == s.plans;
      forall tx | tx in s'.open ensures ReadIsPast(s', s'.open[tx]) {
        if tx in s.open {
          assert ReadIsPast(s, s.open[tx]);
        } else {
          LinearHead(s.plans, step.req.scope, SlotName(step.req.name));
        }
      }
    }
  }

  /** Every run keeps every history linear and only ever adds rows. */
  lemma {:induction false} RunsStayLinear(s: State, steps: seq<Step>)
    requires Inv(s)
    ensures Inv(Run(s, steps)) && s.plans <= Run(s, steps).plans
    decreases |steps|
  {
    if steps != [] {
      RunsStayLinear(s, steps[..|steps| - 1]);
      NextKeepsInv(Run(s, steps[..|steps| - 1]), steps[|steps| - 1]);
    }
  }

  lemma {:induction false} RunSplits(s: State, steps: seq<Step>, i: nat)
    requires i <= |steps|
    ensures Run(Run(s, steps[..i]), steps[i..]) == Run(s, steps)
    decreases |steps|
  {
    if i == |steps| {
      assert steps[..i] == steps;
    } else {
      var init := steps[..|steps| - 1];
      RunSplits(s, init, i);
      assert init[..i] == steps[..i] && steps[i..][..|steps| - i - 1] == init[i..];
    }
  }

  /** The row the step writes. */
  function Written(s: State, step: Step): Plan
    requires Inserts(s, step)
  {
    RowOf(s.open[step.tx])
  }

  /** Two appends that both got in to one slot built on different versions, however
      their reads and inserts interleaved: no update is lost, and of the appends that
      named one base without force at most one wins. */
  lemma {:induction false} OneWinnerPerBase(s: State, steps: seq<Step>, i: nat, j: nat)
    requires Inv(s) && i < j < |steps|
    requires Inserts(Run(s, steps[..i]), steps[i]) && Inserts(Run(s, steps[..j]), steps[j])
    requires var a, b := Written(Run(s, steps[..i]), steps[i]), Written(Run(s, steps[..j]), steps[j]);
             a.scope == b.scope && a.name == b.name
    ensures var a, b := Written(Run(s, steps[..i]), steps[i]), Written(Run(s, steps[..j]), steps[j]);
            a.version < b.version && a.parent < b.parent
    ensures var p, q := Run(s, steps[..i]).open[steps[i].tx].req, Run(s, steps[..j]).open[steps[j].tx].req;
            !p.force && !q.force ==> p.base < q.base
  {
    var before, later := Run(s, steps[..i]), Run(s, steps[..j]);
    var a, b := Written(before, steps[i]), Written(later, steps[j]);
    RunsStayLinear(s, steps[..i]);
    NextKeepsInv(before, steps[i]);
    var after := Next(before, steps[i]);
    RunSplits(s, steps[..j], i + 1);
    assert steps[..j][..i + 1][..i] == steps[..i] && steps[..j][..i + 1][i] == steps[i];
    RunsStayLinear(after, steps[..j][i + 1..]);
    assert after.plans <= later.plans && after.plans[|before.plans|] == a;
    InsertsIffStillHead(later, steps[j].tx);
    HeadIsGreatest(later.plans, b.scope, b.name);
    assert later.plans[|before.plans|] == a && a in later.plans;
    assert ReadIsPast(before, before.open[steps[i].tx]) && ReadIsPast(later, later.open[steps[j].tx]);
  }

  lemma {:induction false} TwoSteps(s: State, a: Step, b: Step)
    ensures Run(s, [a, b]) == Next(Next(s, a), b)
  {
    assert [a, b] == [] + [a] + [b];
    RunLast(s, [] + [a], b);
    RunLast(s, [], a);
  }

  lemma {:induction false} RunLast(s: State, steps: seq<Step>, step: Step)
    ensures Run(s, steps + [step]) == Next(Run(s, steps), step)
  {
    assert (steps + [step])[..|steps|] == steps;
  }

  /** A read and an insert with nothing between them are the store's append. */
  lemma {:induction false} AppendIsSelectInsert(db: Tables, s: State, tx: nat, req: Request)
    requires db.Valid() && s.plans == db.plans && s.scopes == db.scopes.Keys && tx !in s.open
    ensures var r := db.AppendResult(req.scope, req.name, req.content, req.author, req.base, req.force);
            Run(s, [Select(tx, req), Insert(tx)]) == s.(plans := db.AfterAppend(r).plans)
  {
    TwoSteps(s, Select(tx, req), Insert(tx));
    var slot := SlotName(req.name);
    LinearHead(db.plans, req.scope, slot);
    LinearAtVersion(db.plans, req.scope, slot, HeadVersion(db.plans, req.scope, slot) + 1);
    var o := Open(req, HeadVersion(s.plans, req.scope, slot));
    assert KeyFree(s.plans, RowOf(o));
    OpenThenClose(s.open, tx, o);
  }

  lemma {:induction false} OpenThenClose(open: map<nat, Open>, tx: nat, o: Open)
    requires tx !in open
    ensures open[tx := o] - {tx} == open
  {
  }
}
