/** How many wrong verifiers a pair code can be compared with when requests overlap. The
    fifth failure only sets out to delete the row: handlers that have read it compare on. */
module PairingRace {
  import opened Pairing

  predicate NoRestart(steps: seq<Step>) {
    forall i :: 0 <= i < |steps| ==> !steps[i].Restart?
  }

  /** This step compares a wrong verifier with the code's. */
  predicate WrongCompare(s: State, step: Step, code: string) {
    && step.Advance? && step.id in s.handlers && s.handlers[step.id].Read?
    && var h := s.handlers[step.id];
       h.req.code == code && !h.row.claimed && h.row.expires >= h.req.now && h.row.hash != h.req.verifier
  }

  function Compares(s: State, steps: seq<Step>, code: string): nat
    decreases |steps|
  {
    if steps == [] then 0
    else
      var init := steps[..|steps| - 1];
      Compares(s, init, code) + if WrongCompare(Run(s, init), steps[|steps| - 1], code) then 1 else 0
  }

  /** Handlers that have read the code's unclaimed row and not compared yet. */
  function Reading(s: State, code: string): set<nat> {
    set id | id in s.handlers && s.handlers[id].Read? && s.handlers[id].req.code == code && !s.handlers[id].row.claimed
  }

  /** Handlers that counted the fifth failure, or a later one, and have not deleted yet. */
  function LockingOut(s: State, code: string): set<nat> {
    set id | id in s.handlers && s.handlers[id] == Locking(code)
  }

  predicate IsOpen(s: State, code: string) {
    code in s.tables.rows && !s.tables.rows[code].claimed
  }

  predicate Mentions(h: Handler, code: string) {
    match h
    case Read(req, _) => req.code == code
    case Locking(c) => c == code
    case Clearing(c) => c == code
  }

  /** Since a restart: an unpublished code has not been touched; while a code is open its
      failures are counted, and all but four of them wait to delete it. */
  ghost predicate Counted(s: State, code: string, compares: nat) {
    && (code !in s.published ==>
          compares == 0 && Attempts(s.tables, code) == 0 && forall id :: id in s.handlers ==> !Mentions(s.handlers[id], code))
    && (IsOpen(s, code) ==>
          && Attempts(s.tables, code) == compares < MAX_ATTEMPTS + |LockingOut(s, code)|
          && forall id :: id in s.handlers ==> s.handlers[id] != Clearing(code))
  }

  lemma {:induction false} OneMoreLocking(s: State, s': State, id: nat, code: string)
    requires s'.handlers == s.handlers[id := Locking(code)] && id !in LockingOut(s, code)
    ensures LockingOut(s', code) == LockingOut(s, code) + {id} && |LockingOut(s', code)| == |LockingOut(s, code)| + 1
  {
  }

  lemma {:induction false} SameLocking(s: State, s': State, code: string)
    requires forall id :: (id in s.handlers && s.handlers[id] == Locking(code)) <==> (id in s'.handlers && s'.handlers[id] == Locking(code))
    ensures LockingOut(s', code) == LockingOut(s, code)
  {
  }

  lemma {:induction false} CompareKeepsCounted(s: State, step: Step, code: string, compares: nat)
    requires Inv(s) && Counted(s, code, compares) && WrongCompare(s, step, code)
    ensures Counted(Next(s, step), code, compares + 1)
  {
    var s' := Next(s, step);
    if Attempts(s'.tables, code) >= MAX_ATTEMPTS {
      OneMoreLocking(s, s', step.id, code);
    } else {
      SameLocking(s, s', code);
    }
  }

  lemma {:induction false} ReaderKeepsCounted(s: State, step: Step, code: string, compares: nat)
    requires Inv(s) && Counted(s, code, compares) && step.Advance? && !WrongCompare(s, step, code)
    requires step.id in s.handlers && s.handlers[step.id].Read?
    ensures Counted(Next(s, step), code, compares)
  {
    var s' := Next(s, step);
    if IsOpen(s', code) {
      SameLocking(s, s', code);
    }
  }

  lemma {:induction false} CleanerKeepsCounted(s: State, step: Step, code: string, compares: nat)
    requires Inv(s) && Counted(s, code, compares) && step.Advance?
    requires step.id in s.handlers && !s.handlers[step.id].Read?
    ensures Counted(Next(s, step), code, compares)
  {
    var s' := Next(s, step);
    if IsOpen(s', code) {
      SameLocking(s, s', code);
    }
  }

  lemma {:induction false} AdvanceKeepsCounted(s: State, step: Step, code: string, compares: nat)
    requires Inv(s) && Counted(s, code, compares) && step.Advance? && !WrongCompare(s, step, code)
    ensures Counted(Next(s, step), code, compares)
  {
    if step.id in s.handlers {
      if s.handlers[step.id].Read? {
        ReaderKeepsCounted(s, step, code, compares);
      } else {
        CleanerKeepsCounted(s, step, code, compares);
      }
    }
  }

  lemma {:induction false} OtherKeepsCounted(s: State, step: Step, code: string, compares: nat)
    requires Inv(s) && Counted(s, code, compares) && !step.Advance? && !step.Restart?
    ensures Counted(Next(s, step), code, compares)
  {
    SameLocking(s, Next(s, step), code);
  }

  lemma {:induction false} CountedAll(s: State, steps: seq<Step>, code: string)
    requires Inv(s) && s.handlers == map[] && s.tables.attempts == map[] && NoRestart(steps)
    ensures Inv(Run(s, steps)) && Counted(Run(s, steps), code, Compares(s, steps, code))
    decreases |steps|
  {
    if steps != [] {
      var init, last := steps[..|steps| - 1], steps[|steps| - 1];
      CountedAll(s, init, code);
      var mid, n := Run(s, init), Compares(s, init, code);
      NextKeepsInv(mid, last);
      if WrongCompare(mid, last, code) {
        CompareKeepsCounted(mid, last, code, n);
      } else if last.Advance? {
        AdvanceKeepsCounted(mid, last, code, n);
      } else {
        OtherKeepsCounted(mid, last, code, n);
      }
    }
  }

  // --- once the row is claimed or gone ---

  lemma {:induction false} ReadersLeft(s: State, step: Step, code: string)
    requires Inv(s) && Spent(s, code)
    ensures Reading(Next(s, step), code) <= Reading(s, code)
    ensures WrongCompare(s, step, code) ==> step.id in Reading(s, code) && step.id !in Reading(Next(s, step), code)
  {
  }

  lemma {:induction false} SmallerSet(a: set<nat>, b: set<nat>)
    requires a <= b
    ensures |a| <= |b|
    ensures forall x :: x in b && x !in a ==> |a| < |b|
  {
    assert b == a + (b - a);
    forall x | x in b && x !in a ensures |b - a| > 0 {
      assert x in b - a;
    }
  }

  /** A spent code is compared only by handlers that had read it before. */
  lemma {:induction false} SpentCompares(s: State, steps: seq<Step>, code: string)
    requires Inv(s) && Spent(s, code)
    ensures Compares(s, steps, code) + |Reading(Run(s, steps), code)| <= |Reading(s, code)|
    decreases |steps|
  {
    if steps != [] {
      var init, last := steps[..|steps| - 1], steps[|steps| - 1];
      SpentCompares(s, init, code);
      RunsKeepInv(s, init);
      ReadersLeft(Run(s, init), last, code);
      SmallerSet(Reading(Run(s, steps), code), Reading(Run(s, init), code));
    }
  }

  lemma {:induction false} RunConcat(s: State, a: seq<Step>, b: seq<Step>, code: string)
    ensures Run(s, a + b) == Run(Run(s, a), b)
    ensures Compares(s, a + b, code) == Compares(s, a, code) + Compares(Run(s, a), b, code)
    decreases |b|
  {
    if b == [] {
      assert a + b == a;
    } else {
      RunConcat(s, a, b[..|b| - 1], code);
      assert (a + b)[..|a + b| - 1] == a + b[..|b| - 1];
    }
  }

  /** While a code is open, it has been compared since the restart with at most four wrong
      verifiers more than there are handlers about to delete it. */
  lemma {:induction false} OpenCompares(s: State, steps: seq<Step>, code: string)
    requires Inv(s) && s.handlers == map[] && s.tables.attempts == map[] && NoRestart(steps)
    requires IsOpen(Run(s, steps), code)
    ensures Compares(s, steps, code) < 5 + |LockingOut(Run(s, steps), code)|
  {
    CountedAll(s, steps, code);
  }

  /** However requests overlap, the wrong verifiers compared with a code since a restart
      are at most four, and one for each handler in flight when its row was claimed or went:
      those about to delete it and those that had read it. */
  lemma {:induction false} OverlappingGuesses(s: State, before: seq<Step>, step: Step, after: seq<Step>, code: string)
    requires Inv(s) && s.handlers == map[] && s.tables.attempts == map[] && NoRestart(before)
    requires IsOpen(Run(s, before), code) && !IsOpen(Next(Run(s, before), step), code)
    ensures Compares(s, before + [step] + after, code) <
            5 + |LockingOut(Run(s, before), code)| + |Reading(Run(s, before), code)|
  {
    var s1 := Run(s, before);
    var s2 := Next(s1, step);
    CountedAll(s, before, code);
    NextKeepsInv(s1, step);
    assert Spent(s2, code) && !WrongCompare(s1, step, code);
    SpentCompares(s2, after, code);
    assert Reading(s2, code) <= Reading(s1, code);
    SmallerSet(Reading(s2, code), Reading(s1, code));
    assert (before + [step])[..|before|] == before;
    RunConcat(s, before + [step], after, code);
  }
}
