/** When the server holds the blob of the last call of Enqueue for a key. A call for a key
    that pends is refused, and its blob never leaves this machine: that, and a drain that
    overtakes, are the only ways to lose it. */
module OutboxCalls {
  import opened Tenancy
  import opened Outbox
  import opened OutboxRun
  import opened OutboxLatest
  import Serve

  /** Every key with no pending row has on the server the blob of the last call for it. */
  ghost predicate CallsHeld(brain: string, s: State) {
    forall key :: key in s.called && !HasKey(s.table, key) ==>
      ScopeKey(brain, key) in s.server && s.server[ScopeKey(brain, key)] == s.called[key]
  }

  /** The last accepted blob of the key is that of the last call. */
  ghost predicate Current(s: State, key: string)
    requires key in s.called
  {
    exists n: nat :: IsLast(s.accepted, n) && s.accepted[n].key == key && s.accepted[n].blob == s.called[key]
  }

  ghost predicate AllCurrent(s: State) {
    forall key :: key in s.called ==> Current(s, key)
  }

  ghost predicate CallsInv(brain: string, s: State) {
    Inv(brain, s) && LatestInv(brain, s) && AllCurrent(s)
  }

  lemma {:induction false} CurrentIsHeld(brain: string, s: State)
    requires CallsInv(brain, s)
    ensures CallsHeld(brain, s)
  {
    InvGivesLatest(brain, s);
    forall key | key in s.called && !HasKey(s.table, key)
      ensures ScopeKey(brain, key) in s.server && s.server[ScopeKey(brain, key)] == s.called[key]
    {
      var n: nat :| IsLast(s.accepted, n) && s.accepted[n].key == key && s.accepted[n].blob == s.called[key];
      assert Stored(brain, s, n);
    }
  }

  lemma {:induction false} AcceptedIsCurrent(s: State, s': State, q: Request)
    requires AllCurrent(s) && s'.accepted == s.accepted + [q] && s'.called == s.called[q.key := q.blob]
    ensures AllCurrent(s')
  {
    forall key | key in s'.called ensures Current(s', key) {
      if key == q.key {
        assert IsLast(s'.accepted, |s.accepted|);
      } else {
        var n: nat :| IsLast(s.accepted, n) && s.accepted[n].key == key && s.accepted[n].blob == s.called[key];
        LastStays(s.accepted, q, n);
      }
    }
  }

  /** A call that repeats the pending blob changes nothing that matters. */
  lemma {:induction false} RepeatedIsCurrent(s: State, s': State, r: OutRow<Blob>)
    requires AllCurrent(s) && TableOk(s) && TableLast(s) && r in s.table.rows
    requires s'.accepted == s.accepted && s'.called == s.called[r.key := r.blob]
    ensures AllCurrent(s')
  {
    forall key | key in s'.called ensures Current(s', key) {
      if key == r.key {
        assert Genuine(s.accepted, r) && IsLast(s.accepted, r.seqNo);
      } else {
        var n: nat :| IsLast(s.accepted, n) && s.accepted[n].key == key && s.accepted[n].blob == s.called[key];
      }
    }
  }

  lemma {:induction false} EnqueueKeepsCurrent(brain: string, s: State, step: Step)
    requires CallsInv(brain, s) && step.Enqueue? && Heeded(s, step)
    ensures AllCurrent(Next(brain, s, step))
  {
    var s' := Next(brain, s, step);
    if Pending(s.table, step.kind, step.key) {
      var i :| 0 <= i < |s.table.rows| && s.table.rows[i].kind == step.kind && s.table.rows[i].key == step.key;
      RepeatedIsCurrent(s, s', s.table.rows[i]);
    } else {
      AcceptedIsCurrent(s, s', Request(step.kind, step.key, step.blob));
    }
  }

  lemma {:induction false} MindfulKeepsCalls(brain: string, s: State, step: Step)
    requires CallsInv(brain, s) && Enabled(brain, s, step) && Minds(OvertakingAndRefusals, s, step)
    ensures CallsInv(brain, Next(brain, s, step))
  {
    StepKeepsInv(brain, s, step);
    CarefulKeepsLatest(brain, s, step);
    if step.Enqueue? {
      EnqueueKeepsCurrent(brain, s, step);
    } else {
      SameCalls(s, Next(brain, s, step));
    }
  }

  lemma {:induction false} SameCalls(s: State, s': State)
    requires AllCurrent(s) && s'.accepted == s.accepted && s'.called == s.called
    ensures AllCurrent(s')
  {
    forall key | key in s'.called ensures Current(s', key) {
      assert Current(s, key);
    }
  }

  lemma {:induction false} MindfulRun(brain: string, s: State, run: seq<State>, i: nat)
    requires CallsInv(brain, s) && IsRunFrom(brain, s, run, OvertakingAndRefusals) && i < |run|
    ensures CallsInv(brain, run[i])
  {
    if i > 0 {
      hide CallsInv;
      MindfulRun(brain, s, run, i - 1);
      assert CanStep(brain, run[i - 1], run[i], OvertakingAndRefusals);
      var step :| Steps(brain, run[i - 1], step, run[i]) && Minds(OvertakingAndRefusals, run[i - 1], step);
      MindfulKeepsCalls(brain, run[i - 1], step);
    }
  }

  /** In every state of every run that overtakes nothing and has no call refused, but for
      those that repeat the pending blob, each key with no pending row has on the server
      the blob of the last call for it. */
  lemma {:induction false} LastCallIsStored(brain: string, run: seq<State>, i: nat)
    requires IsRunFrom(brain, Initial, run, OvertakingAndRefusals) && i < |run|
    ensures CallsHeld(brain, run[i])
  {
    MindfulRun(brain, Initial, run, i);
    CurrentIsHeld(brain, run[i]);
  }

  // --- and otherwise a call is lost ---

  /** Every drain under way goes away. */
  lemma {:induction false} AllVanish(brain: string, s: State, run: seq<State>, care: Care) returns (longer: seq<State>)
    requires IsRunFrom(brain, s, run, care)
    ensures IsRunFrom(brain, s, longer, care) && End(longer) == End(run).(drains := map[])
    decreases |End(run).drains|
  {
    if End(run).drains == map[] {
      longer := run;
    } else {
      var id :| id in End(run).drains;
      longer := Extend(brain, s, run, care, Vanish(id));
      assert End(longer).drains.Keys == End(run).drains.Keys - {id};
      longer := AllVanish(brain, s, longer, care);
    }
  }

  lemma {:induction false} TableHasOneBlobAKey(s: State)
    requires TableOk(s) && TableLast(s)
    ensures OneBlobAKey(s.table.rows)
  {
    TableHasOneRowAKey(s);
    var rows := s.table.rows;
    forall i, j | 0 <= i < |rows| && 0 <= j < |rows| && rows[i].key == rows[j].key ensures rows[i].blob == rows[j].blob {
      assert rows[i] in rows && rows[j] in rows && Genuine(s.accepted, rows[i]) && Genuine(s.accepted, rows[j]);
    }
  }

  /** A refused call with another blob: the outbox empties, and the server is left with
      the older one. */
  lemma {:induction false} RefusedCallIsLost(brain: string, s: State, step: Step, r: OutRow<Blob>) returns (run: seq<State>)
    requires TableOk(s) && TableLast(s) && Accepted(brain, s.table.rows)
    requires step.Enqueue? && r in s.table.rows && r.kind == step.kind && r.key == step.key && r.blob != step.blob
    ensures IsRunFrom(brain, Next(brain, s, step), run, OvertakingAndRefusals)
    ensures var end := End(run);
            && end.table.rows == [] && end.accepted == s.accepted && end.called == s.called[step.key := step.blob]
            && ScopeKey(brain, step.key) in end.server && end.server[ScopeKey(brain, step.key)] == r.blob
    ensures !CallsHeld(brain, End(run))
  {
    var s' := Next(brain, s, step);
    var i :| 0 <= i < |s.table.rows| && s.table.rows[i] == r;
    assert Pending(s.table, step.kind, step.key);
    TableHasOneRowAKey(s);
    TableHasOneBlobAKey(s);
    hide TableOk, TableLast;
    run := AllVanish(brain, s', [s'], OvertakingAndRefusals);
    run := Empty(brain, s', run, OvertakingAndRefusals, 0);
    assert Holds(brain, End(run), s.table.rows[i]);
  }

  ghost predicate AlwaysCalls(brain: string, s: State) {
    forall run :: IsRunFrom(brain, s, run, OvertakingAndRefusals) ==> CallsHeld(brain, End(run))
  }

  lemma {:induction false} InvIsAlwaysCalls(brain: string, s: State)
    requires CallsInv(brain, s)
    ensures AlwaysCalls(brain, s)
  {
    forall run | IsRunFrom(brain, s, run, OvertakingAndRefusals) ensures CallsHeld(brain, End(run)) {
      MindfulRun(brain, s, run, |run| - 1);
      CurrentIsHeld(brain, End(run));
    }
  }

  lemma {:induction false} RefusalLoses(brain: string, s: State, step: Step)
    requires CallsInv(brain, s) && step.Enqueue? && Careful(s, step) && !Heeded(s, step) && Accepted(brain, s.table.rows)
    ensures !AlwaysCalls(brain, Next(brain, s, step))
  {
    var r :| r in s.table.rows && r.key == step.key && r.blob != step.blob;
    var run := RefusedCallIsLost(brain, s, step, r);
  }

  lemma {:induction false} OvertakingLoses(brain: string, s: State, step: Step)
    requires CallsInv(brain, s) && step.Begin? && Enabled(brain, s, step) && !Careful(s, step) && AllAccepted(brain, s)
    ensures !AlwaysCalls(brain, Next(brain, s, step))
  {
    var id, i, q := Overtaken(s, Due(s.table.rows, step.now, step.limit));
    var run := OvertakenArrives(brain, s, step, OvertakingAndRefusals, id, i, q);
    PendingIsCurrent(s, step, q);
    assert !CallsHeld(brain, End(run));
  }

  lemma {:induction false} PendingIsCurrent(s: State, step: Step, q: OutRow<Blob>)
    requires TableOk(s) && TableLast(s) && AllCurrent(s) && CallsTaken(s) && step.Begin? && q in Due(s.table.rows, step.now, step.limit)
    ensures q.key in s.called && s.called[q.key] == q.blob
  {
    BatchIsLast(s, step.now, step.limit);
    assert Genuine(s.accepted, q) && Taken(s, q.key);
    assert Current(s, q.key);
    var n: nat :| IsLast(s.accepted, n) && s.accepted[n].key == q.key && s.accepted[n].blob == s.called[q.key];
    LastIsUnique(s.accepted, n, q.seqNo);
  }

  /** One step is safe for the last calls, whatever follows with the same care, exactly
      when it overtakes nothing and refuses nothing; for the "only if" no row may be one
      the server refuses. A key is enqueued under one kind. */
  lemma {:induction false} SafeIffMindful(brain: string, s: State, step: Step)
    requires CallsInv(brain, s) && Enabled(brain, s, step)
    requires step.Enqueue? ==> Careful(s, step)
    ensures Minds(OvertakingAndRefusals, s, step) ==> AlwaysCalls(brain, Next(brain, s, step))
    ensures AllAccepted(brain, s) ==> (Minds(OvertakingAndRefusals, s, step) <==> AlwaysCalls(brain, Next(brain, s, step)))
  {
    if Minds(OvertakingAndRefusals, s, step) {
      MindfulKeepsCalls(brain, s, step);
      InvIsAlwaysCalls(brain, Next(brain, s, step));
    } else if AllAccepted(brain, s) {
      if step.Enqueue? {
        RefusalLoses(brain, s, step);
      } else {
        OvertakingLoses(brain, s, step);
      }
    }
  }

  /** The smallest case: two calls, one drain. Every step overtakes nothing, and the server
      ends with the first of two blobs. */
  lemma {:induction false} SecondCallIsLost(brain: string, key: string, b1: Blob, b2: Blob) returns (run: seq<State>)
    requires b1 != b2 && Serve.PushAccepts(brain, Serve.PushRow(key, b1))
    ensures IsRunFrom(brain, Initial, run, Overtaking)
    ensures var end := End(run);
            && end.called == map[key := b2] && end.table.rows == []
            && ScopeKey(brain, key) in end.server && end.server[ScopeKey(brain, key)] == b1
  {
    var r := OutRow(0, "k", key, b1, 0, 0);
    run := Extend(brain, Initial, [Initial], Overtaking, Enqueue("k", key, b1, 0));
    assert End(run).table.rows == [r];
    run := Extend(brain, Initial, run, Overtaking, Enqueue("k", key, b2, 0));
    assert End(run).table.rows[0] == r && End(run).table.rows == [r];
    run := Empty(brain, Initial, run, Overtaking, 0);
    assert Holds(brain, End(run), [r][0]);
  }
}
