/** The same calls in pieces, with handlers interleaved: making a brain visible or
    finding its key missing, storing a new key, and remembering it are separate steps.
    Nobody who stores a key looks again at what is there. */
module AtRestRun {
  import opened Wrappers
  import opened Aead
  import opened AtRest

  /** A handler about to store a new key: it created the brain, or found its key missing.
      One that has a key to remember and use. */
  datatype Task = Provisioning(brain: string) | Holding(brain: string, dek: Key)

  /** `brains` are those whose membership is visible: any member may use them. */
  datatype State = State(master: Key, brains: set<string>, keys: map<string, Wrapped>, cache: map<string, Key>,
                         tasks: map<nat, Task>, rows: map<Id, Blob>, pushed: map<Id, string>)

  datatype Step =
    | Create(task: nat, brain: string)
    | Miss(task: nat, brain: string)
    | PutKey(task: nat, dek: Key)
    | Fetch(task: nat, brain: string)
    | Remember(task: nat)
    | Fail(task: nat)
    | Push(id: Id, text: string, nonce: nat)
    | Restart

  function Start(master: Key): State {
    State(master, {}, map[], map[], map[], map[], map[])
  }

  /** A handler reads the key store for a brain that is visible and not in the cache. */
  predicate Looks(s: State, task: nat, brain: string) {
    task !in s.tasks && brain in s.brains && brain !in s.cache
  }

  /** Brain ids are drawn, so a created brain is a new one. */
  function Next(s: State, step: Step): State {
    match step
    case Create(task, brain) =>
      if task in s.tasks || brain in s.brains then s
      else s.(brains := s.brains + {brain}, tasks := s.tasks[task := Provisioning(brain)])
    case Miss(task, brain) =>
      if !Looks(s, task, brain) || brain in s.keys then s else s.(tasks := s.tasks[task := Provisioning(brain)])
    case PutKey(task, dek) =>
      if task !in s.tasks || !s.tasks[task].Provisioning? then s
      else
        var brain := s.tasks[task].brain;
        s.(keys := s.keys[brain := Wrapped(s.master, dek)], tasks := s.tasks[task := Holding(brain, dek)])
    case Fetch(task, brain) =>
      if !Looks(s, task, brain) || brain !in s.keys || Unwrap(s.master, s.keys[brain]).None? then s
      else s.(tasks := s.tasks[task := Holding(brain, s.keys[brain].dek)])
    case Remember(task) =>
      if task !in s.tasks || !s.tasks[task].Holding? then s
      else s.(cache := s.cache[s.tasks[task].brain := s.tasks[task].dek], tasks := s.tasks - {task})
    case Fail(task) => s.(tasks := s.tasks - {task})
    case Push(id, text, nonce) =>
      if id.brain !in s.cache then s
      else s.(rows := s.rows[id := Seal(s.cache[id.brain], text, nonce)], pushed := s.pushed[id := text])
    case Restart => s.(cache := map[], tasks := map[])
  }

  function Run(s: State, steps: seq<Step>): State
    decreases |steps|
  {
    if steps == [] then s else Next(Run(s, steps[..|steps| - 1]), steps[|steps| - 1])
  }

  predicate KeyIs(s: State, brain: string, dek: Key) {
    brain in s.keys && Unwrap(s.master, s.keys[brain]) == Some(dek)
  }

  /** A row a fresh process can read back as it was pushed. */
  predicate Safe(s: State, id: Id) {
    id in s.rows && id in s.pushed && id.brain in s.keys && s.keys[id.brain].master == s.master &&
    Open(s.keys[id.brain].dek, s.rows[id]) == Some(s.pushed[id])
  }

  ghost predicate AllSafe(s: State) {
    forall id :: id in s.rows ==> Safe(s, id)
  }

  /** Every key in use is the stored one, and every row is safe. */
  ghost predicate InUse(s: State) {
    && (forall b :: b in s.cache ==> KeyIs(s, b, s.cache[b]))
    && (forall t :: t in s.tasks && s.tasks[t].Holding? ==> KeyIs(s, s.tasks[t].brain, s.tasks[t].dek))
    && s.rows.Keys == s.pushed.Keys && AllSafe(s)
  }

  /** A safe row is one that a process just started reads back: it fetches the brain's key,
      remembers it, and the row opens under it to what was pushed. */
  lemma {:induction false} SafeIsRead(s: State, id: Id)
    requires id in s.rows && id in s.pushed && id.brain in s.brains
    ensures var read := Run(s, [Restart, Fetch(0, id.brain), Remember(0)]);
            && read.rows == s.rows
            && (Safe(s, id) <==> id.brain in read.cache && Open(read.cache[id.brain], read.rows[id]) == Some(s.pushed[id]))
  {
    assert [Restart, Fetch(0, id.brain), Remember(0)] == [] + [Restart] + [Fetch(0, id.brain)] + [Remember(0)];
    RunLast(s, [] + [Restart] + [Fetch(0, id.brain)], Remember(0));
    RunLast(s, [] + [Restart], Fetch(0, id.brain));
    RunLast(s, [], Restart);
  }

  // --- storing a key over another ---

  /** The stored key of the brain seals no row, and no handler has it or will use it. */
  predicate Unused(s: State, brain: string) {
    && brain !in s.cache
    && (forall id :: id in s.rows ==> id.brain != brain)
    && (forall t :: t in s.tasks ==> !(s.tasks[t].Holding? && s.tasks[t].brain == brain))
  }

  /** A store of a key that overwrites no key in use. */
  predicate Careful(s: State, step: Step) {
    step.PutKey? && step.task in s.tasks && s.tasks[step.task].Provisioning? ==>
      var brain := s.tasks[step.task].brain;
      brain !in s.keys || s.keys[brain] == Wrapped(s.master, step.dek) || Unused(s, brain)
  }

  ghost predicate AllCareful(s: State, steps: seq<Step>) {
    forall i :: 0 <= i < |steps| ==> Careful(Run(s, steps[..i]), steps[i])
  }

  lemma {:induction false} PutKeyKeepsUse(s: State, step: Step)
    requires InUse(s) && step.PutKey? && Careful(s, step)
    ensures InUse(Next(s, step))
  {
    var s' := Next(s, step);
    forall id | id in s'.rows ensures Safe(s', id) {
      assert Safe(s, id);
    }
  }

  lemma {:induction false} TaskStepKeepsUse(s: State, step: Step)
    requires InUse(s) && (step.Create? || step.Miss? || step.Fail?)
    ensures InUse(Next(s, step))
  {
    assert forall id :: id in s.rows ==> Safe(s, id);
  }

  lemma {:induction false} KeyStepKeepsUse(s: State, step: Step)
    requires InUse(s) && (step.Fetch? || step.Remember? || step.Restart?)
    ensures InUse(Next(s, step))
  {
    assert forall id :: id in s.rows ==> Safe(s, id);
  }

  lemma {:induction false} PushKeepsUse(s: State, step: Step)
    requires InUse(s) && step.Push?
    ensures InUse(Next(s, step))
  {
    var s' := Next(s, step);
    forall id | id in s'.rows ensures Safe(s', id) {
      assert id in s.rows ==> Safe(s, id);
    }
  }

  lemma {:induction false} CarefulKeepsUse(s: State, step: Step)
    requires InUse(s) && Careful(s, step)
    ensures InUse(Next(s, step))
  {
    match step
    case PutKey(_, _) => PutKeyKeepsUse(s, step);
    case Push(_, _, _) => PushKeepsUse(s, step);
    case Create(_, _) => TaskStepKeepsUse(s, step);
    case Miss(_, _) => TaskStepKeepsUse(s, step);
    case Fail(_) => TaskStepKeepsUse(s, step);
    case Fetch(_, _) => KeyStepKeepsUse(s, step);
    case Remember(_) => KeyStepKeepsUse(s, step);
    case Restart => KeyStepKeepsUse(s, step);
  }

  /** While no store overwrites a key in use, every cached key is the stored one and
      every row survives any number of restarts. */
  lemma {:induction false} CarefulIsSafe(s: State, steps: seq<Step>)
    requires InUse(s) && AllCareful(s, steps)
    ensures InUse(Run(s, steps))
    decreases |steps|
  {
    if steps != [] {
      var init := steps[..|steps| - 1];
      forall i | 0 <= i < |init| ensures Careful(Run(s, init[..i]), init[i]) {
        assert init[..i] == steps[..i] && init[i] == steps[i];
      }
      CarefulIsSafe(s, init);
      assert Careful(Run(s, steps[..|steps| - 1]), steps[|steps| - 1]);
      CarefulKeepsUse(Run(s, init), steps[|steps| - 1]);
    }
  }

  lemma {:induction false} WithoutStores(s: State, steps: seq<Step>)
    requires forall i :: 0 <= i < |steps| ==> !steps[i].PutKey?
    ensures AllCareful(s, steps)
  {
    hide Run;
  }

  /** A row pushed while the remembered key is not the stored one. */
  lemma {:induction false} SealedUnderLostKey(s: State, id: Id, text: string)
    requires id.brain in s.cache && id.brain in s.keys && s.cache[id.brain] != s.keys[id.brain].dek
    ensures var after := Next(s, Push(id, text, 0));
            && id in after.rows && id.brain in after.keys && !Safe(after, id)
            && Open(after.keys[id.brain].dek, after.rows[id]) == None && !Safe(Next(after, Restart), id)
  {
  }

  /** What makes the loss of a key in use show: nothing if a row is sealed under it, a
      push if it is cached, a push after remembering if a handler holds it. */
  lemma {:induction false} LostKeyShows(s: State, step: Step) returns (steps: seq<Step>)
    requires InUse(s) && step.PutKey? && !Careful(s, step)
    ensures AllCareful(Next(s, step), steps) && !AllSafe(Run(Next(s, step), steps))
  {
    var s' := Next(s, step);
    var brain := s.tasks[step.task].brain;
    if id :| id in s.rows && id.brain == brain {
      assert Safe(s, id) && !Safe(s', id);
      steps := [];
    } else if brain in s.cache {
      steps := [Push(Id(brain, ""), "", 0)];
      OneStep(s', steps[0]);
      SealedUnderLostKey(s', Id(brain, ""), "");
    } else {
      var t :| t in s.tasks && s.tasks[t].Holding? && s.tasks[t].brain == brain;
      assert KeyIs(s, brain, s.tasks[t].dek) && s'.tasks[t] == s.tasks[t];
      steps := [Remember(t), Push(Id(brain, ""), "", 0)];
      TwoSteps(s', steps[0], steps[1]);
      SealedUnderLostKey(Next(s', steps[0]), Id(brain, ""), "");
    }
    WithoutStores(s', steps);
  }

  /** Storing a key is safe, whatever follows without another careless store, exactly when
      it overwrites no key in use. This holds of both callers, the handler that creates a
      brain and the one that finds its key missing. */
  lemma {:induction false} StoreIsSafeIff(s: State, task: nat, dek: Key)
    requires InUse(s) && task in s.tasks && s.tasks[task].Provisioning?
    ensures Careful(s, PutKey(task, dek)) <==>
            forall steps :: AllCareful(Next(s, PutKey(task, dek)), steps) ==> AllSafe(Run(Next(s, PutKey(task, dek)), steps))
  {
    var s' := Next(s, PutKey(task, dek));
    if Careful(s, PutKey(task, dek)) {
      PutKeyKeepsUse(s, PutKey(task, dek));
      forall steps | AllCareful(s', steps) ensures AllSafe(Run(s', steps)) {
        CarefulIsSafe(s', steps);
      }
    } else {
      var steps := LostKeyShows(s, PutKey(task, dek));
    }
  }

  /** The owner's other device uses a brain between its becoming visible and its creator's
      store: found missing, provisioned, remembered, a row pushed. The creator then
      overwrites the key, and the row is lost though nobody else was looking. */
  lemma {:induction false} CreatorLosesARow(m: Key, brain: string, d1: Key, d2: Key, text: string)
    requires d1 != d2
    ensures var used := Run(Start(m), [Create(0, brain), Miss(1, brain), PutKey(1, d1), Remember(1), Push(Id(brain, ""), text, 0)]);
            var after := Next(used, PutKey(0, d2));
            && used.tasks == map[0 := Provisioning(brain)] && Safe(used, Id(brain, ""))
            && Id(brain, "") in after.rows && !Safe(after, Id(brain, ""))
  {
    var s := Start(m);
    FiveSteps(s, Create(0, brain), Miss(1, brain), PutKey(1, d1), Remember(1), Push(Id(brain, ""), text, 0));
    var s2 := Next(Next(s, Create(0, brain)), Miss(1, brain));
    assert s2.tasks == map[0 := Provisioning(brain), 1 := Provisioning(brain)];
    var s4 := Next(Next(s2, PutKey(1, d1)), Remember(1));
    assert s4.tasks == map[0 := Provisioning(brain)];
  }

  // --- one handler provisioning a brain at a time ---

  /** A handler finds a key missing while nobody else is about to store one: neither a
      handler that found it missing nor the one that created the brain, which is about to
      from the moment the brain is visible. */
  predicate Alone(s: State, step: Step) {
    step.Miss? ==> forall t :: t in s.tasks ==> s.tasks[t] != Provisioning(step.brain)
  }

  ghost predicate AllAlone(s: State, steps: seq<Step>) {
    forall i :: 0 <= i < |steps| ==> Alone(Run(s, steps[..i]), steps[i])
  }

  /** A brain being provisioned has no key yet and one handler at it. */
  ghost predicate OneEach(s: State) {
    && (forall b :: b in s.keys ==> b in s.brains)
    && (forall t :: t in s.tasks ==> s.tasks[t].brain in s.brains)
    && (forall t :: t in s.tasks && s.tasks[t].Provisioning? ==> s.tasks[t].brain !in s.keys)
    && (forall t, u {:trigger s.tasks[t], s.tasks[u]} ::
          t in s.tasks && u in s.tasks && s.tasks[t].Provisioning? && s.tasks[t] == s.tasks[u] ==> t == u)
  }

  ghost predicate Inv(s: State) {
    InUse(s) && OneEach(s)
  }

  lemma {:induction false} NextKeepsOneEach(s: State, step: Step)
    requires OneEach(s) && Alone(s, step)
    ensures OneEach(Next(s, step))
  {
  }

  lemma {:induction false} NextKeepsInv(s: State, step: Step)
    requires Inv(s) && Alone(s, step)
    ensures Careful(s, step) && Inv(Next(s, step)) && Next(s, step).master == s.master
  {
    CarefulKeepsUse(s, step);
    NextKeepsOneEach(s, step);
  }

  /** With one handler provisioning a brain at a time no key is ever overwritten, every
      cached key is the stored one, and every row survives any number of restarts. */
  lemma {:induction false} AloneIsSafe(s: State, steps: seq<Step>)
    requires Inv(s) && AllAlone(s, steps)
    ensures Inv(Run(s, steps)) && AllCareful(s, steps)
    decreases |steps|
  {
    if steps != [] {
      var init, last := steps[..|steps| - 1], steps[|steps| - 1];
      forall i | 0 <= i < |init| ensures Alone(Run(s, init[..i]), init[i]) {
        assert init[..i] == steps[..i] && init[i] == steps[i];
      }
      AloneIsSafe(s, init);
      assert Alone(Run(s, steps[..|steps| - 1]), last);
      NextKeepsInv(Run(s, init), last);
      forall i | 0 <= i < |steps| ensures Careful(Run(s, steps[..i]), steps[i]) {
        if i < |init| {
          assert init[..i] == steps[..i] && init[i] == steps[i];
        }
      }
    }
  }

  /** The same from an empty server on. */
  lemma {:induction false} AloneFromStart(m: Key, steps: seq<Step>)
    requires AllAlone(Start(m), steps)
    ensures Inv(Run(Start(m), steps)) && AllSafe(Run(Start(m), steps))
  {
    assert Inv(Start(m));
    AloneIsSafe(Start(m), steps);
  }

  /** What loses a row: both handlers store a key, the second overwriting the first in
      the store, the first remembered last, and a row pushed under it. */
  function Overlapping(t: nat, u: nat, d1: Key, d2: Key, id: Id, text: string): seq<Step> {
    [PutKey(t, d1), PutKey(u, d2), Remember(u), Remember(t), Push(id, text, 0)]
  }

  lemma {:induction false} BothStored(s: State, t: nat, u: nat, brain: string, d1: Key, d2: Key)
    requires t in s.tasks && u in s.tasks && t != u && s.tasks[t] == s.tasks[u] == Provisioning(brain)
    ensures var s4 := Next(Next(Next(Next(s, PutKey(t, d1)), PutKey(u, d2)), Remember(u)), Remember(t));
            s4 == s.(keys := s.keys[brain := Wrapped(s.master, d2)], cache := s.cache[brain := d1], tasks := s.tasks - {t, u})
  {
    var s1 := Next(s, PutKey(t, d1));
    assert s1.tasks[u] == Provisioning(brain);
    var s2 := Next(s1, PutKey(u, d2));
    assert s2.tasks == s.tasks[t := Holding(brain, d1)][u := Holding(brain, d2)];
    var s3 := Next(s2, Remember(u));
    var s4 := Next(s3, Remember(t));
    assert s4.tasks == s.tasks - {t, u};
    assert s4.cache == s.cache[brain := d1];
    assert s4.keys == s.keys[brain := Wrapped(s.master, d2)];
  }

  lemma {:induction false} AllAloneWithoutMisses(s: State, steps: seq<Step>)
    requires forall i :: 0 <= i < |steps| ==> !steps[i].Miss?
    ensures AllAlone(s, steps)
  {
    hide Run;
  }

  /** From any state in which two handlers are about to store a key for one brain, for any
      two different keys they draw, a row comes to be stored that nothing opens. */
  lemma {:induction false} OverlapLosesARow(s: State, t: nat, u: nat, d1: Key, d2: Key, id: Id, text: string)
    requires t in s.tasks && u in s.tasks && t != u && s.tasks[t] == s.tasks[u] == Provisioning(id.brain) && d1 != d2
    ensures AllAlone(s, Overlapping(t, u, d1, d2, id, text))
    ensures var after := Run(s, Overlapping(t, u, d1, d2, id, text));
            && id in after.rows && id.brain in after.keys && !Safe(after, id)
            && Open(after.keys[id.brain].dek, after.rows[id]) == None && !Safe(Next(after, Restart), id)
  {
    AllAloneWithoutMisses(s, Overlapping(t, u, d1, d2, id, text));
    FiveSteps(s, PutKey(t, d1), PutKey(u, d2), Remember(u), Remember(t), Push(id, text, 0));
    BothStored(s, t, u, id.brain, d1, d2);
    var brain := id.brain;
    SealedUnderLostKey(s.(keys := s.keys[brain := Wrapped(s.master, d2)], cache := s.cache[brain := d1], tasks := s.tasks - {t, u}),
                       id, text);
  }

  /** Finding a key missing is safe exactly when no other handler, the brain's creator
      included, is provisioning the brain: alone, every row stays readable whatever follows
      while each later handler is alone too; otherwise some such continuation stores a row
      nothing can open. */
  lemma {:induction false} SafeIffAlone(s: State, task: nat, brain: string)
    requires Inv(s) && Looks(s, task, brain) && brain !in s.keys
    ensures Alone(s, Miss(task, brain)) <==>
            forall steps :: AllAlone(Next(s, Miss(task, brain)), steps) ==> AllSafe(Run(Next(s, Miss(task, brain)), steps))
  {
    var s' := Next(s, Miss(task, brain));
    if Alone(s, Miss(task, brain)) {
      NextKeepsInv(s, Miss(task, brain));
      forall steps | AllAlone(s', steps) ensures AllSafe(Run(s', steps)) {
        AloneIsSafe(s', steps);
      }
    } else {
      var t :| t in s.tasks && s.tasks[t] == Provisioning(brain);
      var id := Id(brain, "k");
      OverlapLosesARow(s', t, task, "first", "second", id, "text");
      assert !AllSafe(Run(s', Overlapping(t, task, "first", "second", id, "text")));
    }
  }

  lemma {:induction false} OneStep(s: State, a: Step)
    ensures Run(s, [a]) == Next(s, a)
  {
    hide Next;
    assert [a] == [] + [a];
    RunLast(s, [], a);
  }

  lemma {:induction false} TwoSteps(s: State, a: Step, b: Step)
    ensures Run(s, [a, b]) == Next(Next(s, a), b)
  {
    hide Next;
    assert [a, b] == [] + [a] + [b];
    RunLast(s, [], a);
    RunLast(s, [] + [a], b);
  }

  lemma {:induction false} FiveSteps(s: State, a: Step, b: Step, c: Step, d: Step, e: Step)
    ensures Run(s, [a, b, c, d, e]) == Next(Next(Next(Next(Next(s, a), b), c), d), e)
  {
    hide Next;
    assert [a, b, c, d, e] == [] + [a] + [b] + [c] + [d] + [e];
    RunLast(s, [], a);
    RunLast(s, [] + [a], b);
    RunLast(s, [] + [a] + [b], c);
    RunLast(s, [] + [a] + [b] + [c], d);
    RunLast(s, [] + [a] + [b] + [c] + [d], e);
  }

  lemma {:induction false} RunLast(s: State, steps: seq<Step>, step: Step)
    ensures Run(s, steps + [step]) == Next(Run(s, steps), step)
  {
    assert (steps + [step])[..|steps|] == steps;
  }
}
