/** When the server holds the last blob the outbox accepted for a key: always, if a drain
    never overtakes an older blob of one of its keys still on its way in another drain,
    and a pending key keeps its kind. A refused call is another matter: see OutboxCalls. */
module OutboxLatest {
  import opened Tenancy
  import opened Outbox
  import opened OutboxRun
  import Serve

  /** The last enqueue of its key. */
  predicate IsLast(accepted: seq<Request>, n: nat) {
    n < |accepted| && forall m :: n < m < |accepted| ==> accepted[m].key != accepted[n].key
  }

  ghost predicate Waiting(t: Table<Blob>, n: nat) {
    exists r :: r in t.rows && r.seqNo == n
  }

  predicate Stored(brain: string, s: State, n: nat) {
    && n < |s.accepted|
    && ScopeKey(brain, s.accepted[n].key) in s.server
    && s.server[ScopeKey(brain, s.accepted[n].key)] == s.accepted[n].blob
  }

  ghost predicate Carries(d: Drain, n: nat) {
    exists i :: 0 <= i < |d.rows| && d.rows[i].seqNo == n
  }

  /** Every key with no pending row has on the server the blob last accepted for it. */
  ghost predicate LatestHeld(brain: string, s: State) {
    forall n: nat :: IsLast(s.accepted, n) && !HasKey(s.table, s.accepted[n].key) ==> Stored(brain, s, n)
  }

  // --- the invariant of careful runs ---

  ghost predicate TableLast(s: State) {
    forall r :: r in s.table.rows ==> IsLast(s.accepted, r.seqNo)
  }

  ghost predicate LastKept(brain: string, s: State) {
    forall n: nat :: IsLast(s.accepted, n) ==> Waiting(s.table, n) || Stored(brain, s, n)
  }

  /** A row on its way is outdated by enqueue n: the last of its key, with another blob. */
  predicate Outdated(s: State, r: OutRow<Blob>, n: nat) {
    IsLast(s.accepted, n) && s.accepted[n].key == r.key && s.accepted[n].blob != r.blob
  }

  ghost predicate WaitsUntaken(s: State, n: nat) {
    Waiting(s.table, n) && forall id :: id in s.drains ==> !Carries(s.drains[id], n)
  }

  /** What outdates a row still on its way waits, and no drain has taken it up. */
  ghost predicate StaleBehind(s: State, d: Drain) {
    forall i, n: nat {:trigger Outdated(s, d.rows[i], n)} ::
      d.written <= i < |d.rows| && Outdated(s, d.rows[i], n) ==> WaitsUntaken(s, n)
  }

  /** A last row that has been written is what the server holds. */
  ghost predicate WrittenHeld(brain: string, s: State, d: Drain) {
    forall i :: 0 <= i < d.written && i < |d.rows| && IsLast(s.accepted, d.rows[i].seqNo) ==> Stored(brain, s, d.rows[i].seqNo)
  }

  ghost predicate DrainsLast(brain: string, s: State) {
    forall id :: id in s.drains ==> StaleBehind(s, s.drains[id]) && WrittenHeld(brain, s, s.drains[id])
  }

  ghost predicate LatestInv(brain: string, s: State) {
    TableLast(s) && LastKept(brain, s) && DrainsLast(brain, s)
  }

  lemma {:induction false} InvGivesLatest(brain: string, s: State)
    requires Inv(brain, s) && LatestInv(brain, s)
    ensures LatestHeld(brain, s)
  {
    forall n: nat | n < |s.accepted| && Waiting(s.table, n) ensures HasKey(s.table, s.accepted[n].key) {
      var r :| r in s.table.rows && r.seqNo == n;
      assert Genuine(s.accepted, r);
    }
  }

  lemma {:induction false} LastIsUnique(accepted: seq<Request>, m: nat, n: nat)
    requires IsLast(accepted, m) && IsLast(accepted, n) && accepted[m].key == accepted[n].key
    ensures m == n
  {
  }

  // --- enqueue ---

  lemma {:induction false} LastBefore(accepted: seq<Request>, q: Request, n: nat)
    requires IsLast(accepted + [q], n)
    ensures n == |accepted| || (IsLast(accepted, n) && (accepted + [q])[n] == accepted[n] && accepted[n].key != q.key)
  {
    if n < |accepted| {
      assert (accepted + [q])[|accepted|] == q;
      forall m | n < m < |accepted| ensures accepted[m].key != accepted[n].key {
        assert (accepted + [q])[m] == accepted[m];
      }
    }
  }

  lemma {:induction false} LastStays(accepted: seq<Request>, q: Request, n: nat)
    requires IsLast(accepted, n) && accepted[n].key != q.key
    ensures IsLast(accepted + [q], n)
  {
  }

  lemma {:induction false} EnqueueKeepsDrain(brain: string, s: State, s': State, q: Request, row: OutRow<Blob>, d: Drain)
    requires s' == s.(table := Table(s.table.rows + [row], s.table.nextSeq + 1), called := s'.called, accepted := s.accepted + [q])
    requires row.seqNo == |s.accepted| && DrainsOk(s) && DrainOk(s, d)
    requires StaleBehind(s, d) && WrittenHeld(brain, s, d)
    ensures StaleBehind(s', d) && WrittenHeld(brain, s', d)
  {
    assert row in s'.table.rows;
    forall i, n: nat | d.written <= i < |d.rows| && Outdated(s', d.rows[i], n)
      ensures WaitsUntaken(s', n)
    {
      LastBefore(s.accepted, q, n);
      if n < |s.accepted| {
        assert Outdated(s, d.rows[i], n);
        var r :| r in s.table.rows && r.seqNo == n;
        assert r in s'.table.rows;
      } else {
        forall id | id in s.drains ensures !Carries(s.drains[id], n) {
          assert DrainOk(s, s.drains[id]);
        }
      }
    }
    forall i | 0 <= i < d.written && i < |d.rows| && IsLast(s'.accepted, d.rows[i].seqNo) ensures Stored(brain, s', d.rows[i].seqNo) {
      assert Genuine(s.accepted, d.rows[i]);
      LastBefore(s.accepted, q, d.rows[i].seqNo);
    }
  }

  lemma {:induction false} EnqueueKeepsTable(brain: string, s: State, s': State, q: Request, row: OutRow<Blob>)
    requires s' == s.(table := Table(s.table.rows + [row], s.table.nextSeq + 1), called := s'.called, accepted := s.accepted + [q])
    requires row.seqNo == |s.accepted| && TableOk(s) && TableLast(s) && LastKept(brain, s)
    requires forall r :: r in s.table.rows ==> r.key != q.key
    ensures TableLast(s') && LastKept(brain, s')
  {
    forall r | r in s'.table.rows ensures IsLast(s'.accepted, r.seqNo) {
      if r in s.table.rows {
        assert Genuine(s.accepted, r);
        LastStays(s.accepted, q, r.seqNo);
      }
    }
    assert row in s'.table.rows;
    forall n: nat | IsLast(s'.accepted, n) ensures Waiting(s'.table, n) || Stored(brain, s', n) {
      LastBefore(s.accepted, q, n);
      if Waiting(s.table, n) {
        var r :| r in s.table.rows && r.seqNo == n;
        assert r in s'.table.rows;
      }
    }
  }

  lemma {:induction false} EnqueueKeepsLatest(brain: string, s: State, step: Step)
    requires Inv(brain, s) && LatestInv(brain, s) && step.Enqueue? && Careful(s, step)
    ensures LatestInv(brain, Next(brain, s, step))
  {
    if !Pending(s.table, step.kind, step.key) {
      var s' := Next(brain, s, step);
      var q, row := Request(step.kind, step.key, step.blob), OutRow(s.table.nextSeq, step.kind, step.key, step.blob, 0, step.at);
      forall r | r in s.table.rows ensures r.key != q.key {
        var i :| 0 <= i < |s.table.rows| && s.table.rows[i] == r;
      }
      EnqueueKeepsTable(brain, s, s', q, row);
      forall id | id in s'.drains ensures StaleBehind(s', s'.drains[id]) && WrittenHeld(brain, s', s'.drains[id]) {
        assert DrainOk(s, s.drains[id]);
        EnqueueKeepsDrain(brain, s, s', q, row, s.drains[id]);
      }
    } else {
      ThinnedKeepsLatest(brain, s, Next(brain, s, step));
    }
  }

  // --- begin ---

  lemma {:induction false} BatchIsLast(s: State, now: int, limit: nat)
    requires TableOk(s) && TableLast(s)
    ensures forall q :: q in Due(s.table.rows, now, limit) ==> q in s.table.rows && Genuine(s.accepted, q) && IsLast(s.accepted, q.seqNo)
  {
    DueIsFromTable(s.table.rows, now, limit);
  }

  lemma {:induction false} BeginKeepsDrain(brain: string, s: State, s': State, id: nat, batch: seq<OutRow<Blob>>, d: nat)
    requires id !in s.drains && s' == s.(drains := s.drains[id := Drain(batch, 0, true)])
    requires (forall q :: q in batch ==> Genuine(s.accepted, q) && IsLast(s.accepted, q.seqNo)) && OvertakesNothing(s, batch)
    requires d in s.drains && StaleBehind(s, s.drains[d]) && WrittenHeld(brain, s, s.drains[d])
    ensures StaleBehind(s', s.drains[d]) && WrittenHeld(brain, s', s.drains[d])
  {
    var rows := s.drains[d].rows;
    forall i, n: nat | s.drains[d].written <= i < |rows| && Outdated(s', rows[i], n)
      ensures WaitsUntaken(s', n)
    {
      assert Outdated(s, rows[i], n);
      forall e | e in s'.drains ensures !Carries(s'.drains[e], n) {
        forall j | 0 <= j < |batch| ensures batch[j].seqNo != n {
          assert batch[j] in batch;
        }
      }
    }
  }

  lemma {:induction false} NewDrainIsLast(brain: string, s: State, batch: seq<OutRow<Blob>>)
    requires forall q :: q in batch ==> Genuine(s.accepted, q) && IsLast(s.accepted, q.seqNo)
    ensures StaleBehind(s, Drain(batch, 0, true)) && WrittenHeld(brain, s, Drain(batch, 0, true))
  {
    forall i, n: nat | 0 <= i < |batch| ensures !Outdated(s, batch[i], n) {
      assert batch[i] in batch;
      if Outdated(s, batch[i], n) {
        LastIsUnique(s.accepted, n, batch[i].seqNo);
      }
    }
  }

  lemma {:induction false} BeginKeepsLatest(brain: string, s: State, step: Step)
    requires Inv(brain, s) && LatestInv(brain, s) && step.Begin? && Enabled(brain, s, step) && Careful(s, step)
    ensures LatestInv(brain, Next(brain, s, step))
  {
    var s' := Next(brain, s, step);
    var batch := Due(s.table.rows, step.now, step.limit);
    BatchIsLast(s, step.now, step.limit);
    assert LastKept(brain, s') by {
      forall n: nat | IsLast(s.accepted, n) ensures Waiting(s.table, n) || Stored(brain, s', n) {
        assert Stored(brain, s, n) ==> Stored(brain, s', n);
      }
    }
    NewDrainIsLast(brain, s', batch);
    forall d | d in s'.drains ensures StaleBehind(s', s'.drains[d]) && WrittenHeld(brain, s', s'.drains[d]) {
      if d != step.id {
        BeginKeepsDrain(brain, s, s', step.id, batch, d);
      }
    }
  }

  // --- write ---

  /** A write leaves alone what is held, unless it is outdated by it. */
  lemma {:induction false} WriteKeepsStored(brain: string, s: State, s': State, row: OutRow<Blob>, n: nat)
    requires s'.accepted == s.accepted && s'.server == s.server[ScopeKey(brain, row.key) := row.blob]
    requires IsLast(s.accepted, n) && Stored(brain, s, n)
    ensures Stored(brain, s', n) || Outdated(s, row, n)
  {
    UnscopeUndoesScope(brain, row.key);
    UnscopeUndoesScope(brain, s.accepted[n].key);
  }

  lemma {:induction false} WriteKeepsDrain(brain: string, s: State, s': State, id: nat, d: nat)
    requires Enabled(brain, s, Write(id)) && s' == Next(brain, s, Write(id)) && d in s.drains
    requires DrainsOk(s) && DrainsLast(brain, s)
    ensures StaleBehind(s', s'.drains[d]) && WrittenHeld(brain, s', s'.drains[d])
  {
    var row := s.drains[id].rows[s.drains[id].written];
    var rows := s.drains[d].rows;
    assert DrainOk(s, s.drains[id]) && DrainOk(s, s.drains[d]);
    forall i, n: nat | s'.drains[d].written <= i < |rows| && Outdated(s', rows[i], n)
      ensures WaitsUntaken(s', n)
    {
      assert StaleBehind(s, s.drains[d]) && Outdated(s, rows[i], n);
      forall e | e in s'.drains ensures !Carries(s'.drains[e], n) {
        assert !Carries(s.drains[e], n);
        assert s'.drains[e].rows == s.drains[e].rows;
      }
    }
    forall i | 0 <= i < s'.drains[d].written && i < |rows| && IsLast(s.accepted, rows[i].seqNo) ensures Stored(brain, s', rows[i].seqNo) {
      var n := rows[i].seqNo;
      assert Genuine(s.accepted, rows[i]) && Genuine(s.accepted, row);
      if i < s.drains[d].written {
        assert WrittenHeld(brain, s, s.drains[d]) && Stored(brain, s, n);
        WriteKeepsStored(brain, s, s', row, n);
        if Outdated(s, row, n) {
          assert StaleBehind(s, s.drains[id]);
          assert Carries(s.drains[d], n);
        }
      }
    }
  }

  lemma {:induction false} WriteKeepsLatest(brain: string, s: State, step: Step)
    requires Inv(brain, s) && LatestInv(brain, s) && step.Write? && Enabled(brain, s, step)
    ensures LatestInv(brain, Next(brain, s, step))
  {
    var s' := Next(brain, s, step);
    var d := s.drains[step.id];
    var row := d.rows[d.written];
    forall n: nat | IsLast(s.accepted, n) ensures Waiting(s.table, n) || Stored(brain, s', n) {
      if !Waiting(s.table, n) {
        WriteKeepsStored(brain, s, s', row, n);
        assert StaleBehind(s, d);
      }
    }
    forall id | id in s'.drains ensures StaleBehind(s', s'.drains[id]) && WrittenHeld(brain, s', s'.drains[id]) {
      WriteKeepsDrain(brain, s, s', step.id, id);
    }
  }

  // --- acknowledgement ---

  /** A row acknowledged, if it is the last of its key, is what the server holds. */
  lemma {:induction false} AckedIsHeld(brain: string, s: State, id: nat, n: nat)
    requires DrainsLast(brain, s) && Enabled(brain, s, ReplyOk(id)) && n in AckedBy(s.drains[id]) && IsLast(s.accepted, n)
    ensures Stored(brain, s, n) && Carries(s.drains[id], n)
  {
    var i := AckedIsInDrain(s.drains[id], n);
    assert WrittenHeld(brain, s, s.drains[id]);
  }

  lemma {:induction false} ReplyKeepsLatest(brain: string, s: State, step: Step)
    requires Inv(brain, s) && LatestInv(brain, s) && step.ReplyOk? && Enabled(brain, s, step)
    ensures LatestInv(brain, Next(brain, s, step))
  {
    var s' := Next(brain, s, step);
    var seqs := AckedBy(s.drains[step.id]);
    AckedKeeps(s.table.rows, seqs);
    forall n: nat | IsLast(s.accepted, n) ensures Waiting(s'.table, n) || Stored(brain, s', n) {
      if n in seqs {
        AckedIsHeld(brain, s, step.id, n);
      } else if Waiting(s.table, n) {
        var r :| r in s.table.rows && r.seqNo == n;
        assert r in s'.table.rows;
      }
    }
    forall id | id in s'.drains ensures StaleBehind(s', s'.drains[id]) && WrittenHeld(brain, s', s'.drains[id]) {
      AckKeepsDrain(brain, s, s', step.id, id);
    }
  }

  lemma {:induction false} AckKeepsDrain(brain: string, s: State, s': State, id: nat, d: nat)
    requires Enabled(brain, s, ReplyOk(id)) && s' == Next(brain, s, ReplyOk(id)) && d in s'.drains
    requires DrainsLast(brain, s)
    ensures StaleBehind(s', s'.drains[d]) && WrittenHeld(brain, s', s'.drains[d])
  {
    var seqs, rows := AckedBy(s.drains[id]), s.drains[d].rows;
    assert StaleBehind(s, s.drains[d]) && WrittenHeld(brain, s, s.drains[d]);
    AckedKeeps(s.table.rows, seqs);
    forall i, n: nat | s.drains[d].written <= i < |rows| && Outdated(s', rows[i], n)
      ensures WaitsUntaken(s', n)
    {
      assert Outdated(s, rows[i], n);
      var r :| r in s.table.rows && r.seqNo == n;
      if n in seqs {
        AckedIsHeld(brain, s, id, n);
        assert false;
      }
      assert r in s'.table.rows;
    }
  }

  // --- the rest ---

  /** Rows bumped, drains deaf or gone. */
  lemma {:induction false} ThinnedKeepsLatest(brain: string, s: State, s': State)
    requires LatestInv(brain, s) && s'.accepted == s.accepted && s'.server == s.server
    requires forall n :: Waiting(s'.table, n) <==> Waiting(s.table, n)
    requires forall id :: id in s'.drains ==> id in s.drains && s'.drains[id] == s.drains[id].(listening := s'.drains[id].listening)
    ensures LatestInv(brain, s')
  {
    forall r | r in s'.table.rows ensures IsLast(s'.accepted, r.seqNo) {
      assert Waiting(s'.table, r.seqNo);
      var q :| q in s.table.rows && q.seqNo == r.seqNo;
    }
    forall n: nat | IsLast(s.accepted, n) ensures Waiting(s'.table, n) || Stored(brain, s', n) {
      assert Stored(brain, s, n) ==> Stored(brain, s', n);
    }
    forall id | id in s'.drains ensures StaleBehind(s', s'.drains[id]) && WrittenHeld(brain, s', s'.drains[id]) {
      ThinnedKeepsDrain(brain, s, s', s.drains[id], s'.drains[id]);
    }
  }

  lemma {:induction false} ThinnedKeepsDrain(brain: string, s: State, s': State, d: Drain, d': Drain)
    requires s'.accepted == s.accepted && s'.server == s.server && d'.rows == d.rows && d'.written == d.written
    requires forall n :: Waiting(s'.table, n) <==> Waiting(s.table, n)
    requires forall id :: id in s'.drains ==> id in s.drains && s'.drains[id] == s.drains[id].(listening := s'.drains[id].listening)
    requires StaleBehind(s, d) && WrittenHeld(brain, s, d)
    ensures StaleBehind(s', d') && WrittenHeld(brain, s', d')
  {
    forall i, n: nat | d.written <= i < |d.rows| && Outdated(s', d.rows[i], n)
      ensures WaitsUntaken(s', n)
    {
      assert Outdated(s, d.rows[i], n);
      forall e | e in s'.drains ensures !Carries(s'.drains[e], n) {
        assert !Carries(s.drains[e], n);
      }
    }
  }

  lemma {:induction false} GiveUpKeepsLatest(brain: string, s: State, step: Step)
    requires LatestInv(brain, s) && step.GiveUp? && Enabled(brain, s, step)
    ensures LatestInv(brain, Next(brain, s, step))
  {
    var s' := Next(brain, s, step);
    BumpedAllKeeps(s.table.rows, s.drains[step.id].rows, step.next);
    hide BumpedAll;
    BumpedRows(s.table.rows, s'.table.rows);
    forall n ensures Waiting(s'.table, n) <==> Waiting(s.table, n) {
    }
    hide LatestInv;
    ThinnedKeepsLatest(brain, s, s');
  }

  lemma {:induction false} CarefulKeepsLatest(brain: string, s: State, step: Step)
    requires Inv(brain, s) && LatestInv(brain, s) && Enabled(brain, s, step) && Careful(s, step)
    ensures LatestInv(brain, Next(brain, s, step))
  {
    match step
    case Enqueue(_, _, _, _) => EnqueueKeepsLatest(brain, s, step);
    case Begin(_, _, _) => BeginKeepsLatest(brain, s, step);
    case Write(_) => WriteKeepsLatest(brain, s, step);
    case ReplyOk(_) => ReplyKeepsLatest(brain, s, step);
    case GiveUp(_, _) => GiveUpKeepsLatest(brain, s, step);
    case Vanish(_) => ThinnedKeepsLatest(brain, s, Next(brain, s, step));
    case Restart => ThinnedKeepsLatest(brain, s, Next(brain, s, step));
  }

  lemma {:induction false} CarefulRun(brain: string, s: State, run: seq<State>, i: nat)
    requires Inv(brain, s) && LatestInv(brain, s) && IsRunFrom(brain, s, run, Overtaking) && i < |run|
    ensures Inv(brain, run[i]) && LatestInv(brain, run[i])
  {
    if i > 0 {
      CarefulRun(brain, s, run, i - 1);
      assert CanStep(brain, run[i - 1], run[i], Overtaking);
      var step :| Steps(brain, run[i - 1], step, run[i]) && Careful(run[i - 1], step);
      StepKeepsInv(brain, run[i - 1], step);
      CarefulKeepsLatest(brain, run[i - 1], step);
    }
  }

  /** In every state of every careful run, each key with no pending row has on the
      server the blob of its last enqueue. */
  lemma {:induction false} LatestIsStored(brain: string, run: seq<State>, i: nat)
    requires IsRunFrom(brain, Initial, run, Overtaking) && i < |run|
    ensures LatestHeld(brain, run[i])
  {
    CarefulRun(brain, Initial, run, i);
    InvGivesLatest(brain, run[i]);
  }

  /** A drain that begins while no other has anything left to write overtakes nothing. */
  lemma {:induction false} QuietOvertakesNothing(s: State, batch: seq<OutRow<Blob>>)
    requires forall id :: id in s.drains ==> s.drains[id].written >= |s.drains[id].rows|
    ensures OvertakesNothing(s, batch)
  {
  }

  // --- continuations that lose the latest blob ---

  function End(run: seq<State>): State
    requires run != []
  {
    run[|run| - 1]
  }

  lemma {:induction false} Extend(brain: string, s: State, run: seq<State>, care: Care, step: Step) returns (longer: seq<State>)
    requires IsRunFrom(brain, s, run, care) && Enabled(brain, End(run), step) && Minds(care, End(run), step)
    ensures IsRunFrom(brain, s, longer, care) && End(longer) == Next(brain, End(run), step)
  {
    longer := run + [Next(brain, End(run), step)];
    assert Steps(brain, longer[|run| - 1], step, longer[|run|]);
    forall i | 0 < i < |longer| ensures CanStep(brain, longer[i - 1], longer[i], care) {
      if i < |run| {
        assert longer[i - 1] == run[i - 1] && longer[i] == run[i];
      }
    }
  }

  predicate Accepted(brain: string, rows: seq<OutRow<Blob>>) {
    forall i :: 0 <= i < |rows| ==> Serve.PushAccepts(brain, Pushed(rows[i]))
  }

  /** The server takes every row that waits or is on its way. */
  predicate AllAccepted(brain: string, s: State) {
    Accepted(brain, s.table.rows) && forall id :: id in s.drains ==> Accepted(brain, s.drains[id].rows)
  }

  predicate Holds(brain: string, s: State, row: OutRow<Blob>) {
    ScopeKey(brain, row.key) in s.server && s.server[ScopeKey(brain, row.key)] == row.blob
  }

  ghost predicate OneBlobAKey(rows: seq<OutRow<Blob>>) {
    forall i, j :: 0 <= i < |rows| && 0 <= j < |rows| && rows[i].key == rows[j].key ==> rows[i].blob == rows[j].blob
  }

  /** The server has written the drain's rows up to position n and done nothing else. */
  ghost predicate Wrote(brain: string, was: State, now: State, id: nat, n: nat)
    requires id in was.drains
  {
    var d := was.drains[id];
    && now == was.(server := now.server, puts := now.puts, drains := was.drains[id := d.(written := n)])
    && was.puts <= now.puts && d.written <= n <= |d.rows|
    && (forall j :: d.written <= j < n ==> d.rows[j].seqNo in now.puts)
    && (d.written < n ==> Holds(brain, now, d.rows[n - 1]))
    && (OneBlobAKey(d.rows) ==> forall j :: d.written <= j < n ==> Holds(brain, now, d.rows[j]))
  }

  lemma {:induction false} WriteHolds(brain: string, s: State, id: nat, row: OutRow<Blob>)
    requires Enabled(brain, s, Write(id)) && Holds(brain, s, row)
    ensures var w := s.drains[id].rows[s.drains[id].written];
            w.key != row.key || w.blob == row.blob ==> Holds(brain, Next(brain, s, Write(id)), row)
  {
    UnscopeUndoesScope(brain, row.key);
    UnscopeUndoesScope(brain, s.drains[id].rows[s.drains[id].written].key);
  }

  lemma {:induction false} WroteMore(brain: string, was: State, mid: State, id: nat, n: nat)
    requires id in was.drains && Wrote(brain, was, mid, id, n) && Enabled(brain, mid, Write(id))
    ensures Wrote(brain, was, Next(brain, mid, Write(id)), id, n + 1)
  {
    var now, d := Next(brain, mid, Write(id)), was.drains[id];
    assert now.drains == was.drains[id := d.(written := n + 1)];
    if OneBlobAKey(d.rows) {
      forall j | d.written <= j < n ensures Holds(brain, now, d.rows[j]) {
        WriteHolds(brain, mid, id, d.rows[j]);
      }
    }
  }

  lemma {:induction false} WriteUpTo(brain: string, s: State, run: seq<State>, care: Care, id: nat, n: nat)
    returns (longer: seq<State>)
    requires IsRunFrom(brain, s, run, care) && id in End(run).drains
    requires End(run).drains[id].written <= n <= |End(run).drains[id].rows| && Accepted(brain, End(run).drains[id].rows)
    ensures IsRunFrom(brain, s, longer, care) && Wrote(brain, End(run), End(longer), id, n)
    decreases n
  {
    if n == End(run).drains[id].written {
      longer := run;
      assert End(run).drains == End(run).drains[id := End(run).drains[id].(written := n)];
    } else {
      longer := WriteUpTo(brain, s, run, care, id, n - 1);
      var mid := End(longer);
      WroteMore(brain, End(run), mid, id, n - 1);
      longer := Extend(brain, s, longer, care, Write(id));
    }
  }

  /** The drain's rows written and acknowledged, nothing else done. */
  ghost predicate Delivered(brain: string, was: State, now: State, id: nat)
    requires id in was.drains
  {
    var d := was.drains[id];
    && now.table == was.table.(rows := Acked(was.table.rows, AckedBy(d)))
    && now.drains == was.drains - {id} && now.accepted == was.accepted && now.called == was.called && was.puts <= now.puts
    && (forall j :: d.written <= j < |d.rows| ==> d.rows[j].seqNo in now.puts)
    && (OneBlobAKey(d.rows) ==> forall j :: d.written <= j < |d.rows| ==> Holds(brain, now, d.rows[j]))
  }

  /** A drain is delivered whole and acknowledged. */
  lemma {:induction false} Deliver(brain: string, s: State, run: seq<State>, care: Care, id: nat) returns (longer: seq<State>)
    requires IsRunFrom(brain, s, run, care) && id in End(run).drains
    requires var d := End(run).drains[id]; d.listening && d.written <= |d.rows| && Accepted(brain, d.rows)
    ensures IsRunFrom(brain, s, longer, care)
    ensures Delivered(brain, End(run), End(longer), id)
  {
    longer := WriteUpTo(brain, s, run, care, id, |End(run).drains[id].rows|);
    longer := Extend(brain, s, longer, care, ReplyOk(id));
  }

  ghost predicate OneRowAKey(rows: seq<OutRow<Blob>>) {
    forall q, r :: q in rows && r in rows && q.key == r.key ==> q.seqNo == r.seqNo
  }

  /** With one row a key, a delivered batch is acknowledged whole. */
  lemma {:induction false} BatchAcked(d: Drain, q: OutRow<Blob>)
    requires OneRowAKey(d.rows) && q in d.rows
    ensures q.seqNo in AckedBy(d)
  {
    KeyToSeqIsFromBatch(d.rows);
    var i :| 0 <= i < |d.rows| && d.rows[i] == q;
    var pushed := Serve.KeysOf(ToPush(d.rows));
    assert pushed[i] == q.key && q.key in pushed && q.key in KeyToSeq(d.rows);
    var j :| 0 <= j < |d.rows| && d.rows[j].key == q.key && d.rows[j].seqNo == KeyToSeq(d.rows)[q.key];
    assert d.rows[j] in d.rows;
  }

  lemma {:induction false} TableHasOneRowAKey(s: State)
    requires TableOk(s) && TableLast(s)
    ensures OneRowAKey(s.table.rows)
  {
    forall q, r | q in s.table.rows && r in s.table.rows && q.key == r.key ensures q.seqNo == r.seqNo {
      assert Genuine(s.accepted, q) && Genuine(s.accepted, r);
      LastIsUnique(s.accepted, q.seqNo, r.seqNo);
    }
  }

  /** A drain begun here is delivered, and none of its keys waits any longer. */
  lemma {:induction false} DeliverBegun(brain: string, s: State, step: Step, care: Care) returns (run: seq<State>)
    requires TableOk(s) && TableLast(s) && step.Begin? && Enabled(brain, s, step) && Accepted(brain, s.table.rows)
    ensures IsRunFrom(brain, Next(brain, s, step), run, care)
    ensures End(run).drains == s.drains && End(run).accepted == s.accepted && End(run).table.nextSeq == s.table.nextSeq
    ensures End(run).called == s.called
    ensures forall r :: r in End(run).table.rows ==> r in s.table.rows
    ensures forall q, r :: q in Due(s.table.rows, step.now, step.limit) && r in End(run).table.rows ==> r.key != q.key
  {
    var s' := Next(brain, s, step);
    var d := Drain(Due(s.table.rows, step.now, step.limit), 0, true);
    DueIsFromTable(s.table.rows, step.now, step.limit);
    BatchAccepted(brain, s.table.rows, d.rows);
    TableHasOneRowAKey(s);
    run := Deliver(brain, s', [s'], care, step.id);
    assert s'.drains - {step.id} == s.drains;
    KeysGone(s.table.rows, d);
  }

  lemma {:induction false} BatchAccepted(brain: string, rows: seq<OutRow<Blob>>, batch: seq<OutRow<Blob>>)
    requires Accepted(brain, rows) && forall q :: q in batch ==> q in rows
    ensures Accepted(brain, batch)
  {
    forall i | 0 <= i < |batch| ensures Serve.PushAccepts(brain, Pushed(batch[i])) {
      assert batch[i] in rows;
      var j :| 0 <= j < |rows| && rows[j] == batch[i];
    }
  }

  lemma {:induction false} LeftByAck(rows: seq<OutRow<Blob>>, seqs: set<nat>, r: OutRow<Blob>)
    requires r in Acked(rows, seqs)
    ensures r in rows && r.seqNo !in seqs
  {
    AckedKeeps(rows, seqs);
  }

  lemma {:induction false} KeysGone(rows: seq<OutRow<Blob>>, d: Drain)
    requires OneRowAKey(rows) && forall q :: q in d.rows ==> q in rows
    ensures forall r :: r in Acked(rows, AckedBy(d)) ==> r in rows && forall q :: q in d.rows ==> r.key != q.key
  {
    forall q | q in d.rows ensures q.seqNo in AckedBy(d) {
      BatchAcked(d, q);
    }
    forall r | r in Acked(rows, AckedBy(d)) ensures r in rows && forall q :: q in d.rows ==> r.key != q.key {
      LeftByAck(rows, AckedBy(d), r);
    }
  }

  /** An overtaking drain, delivered first, and then the older blob it overtook. */
  lemma {:induction false} OvertakenArrives(brain: string, s: State, step: Step, care: Care, id: nat, i: nat, q: OutRow<Blob>)
    returns (run: seq<State>)
    requires Inv(brain, s) && TableLast(s) && step.Begin? && Enabled(brain, s, step) && AllAccepted(brain, s)
    requires id in s.drains && s.drains[id].written <= i < |s.drains[id].rows| && q in Due(s.table.rows, step.now, step.limit)
    requires s.drains[id].rows[i].key == q.key && s.drains[id].rows[i].blob != q.blob
    ensures IsRunFrom(brain, Next(brain, s, step), run, care)
    ensures !LatestHeld(brain, End(run)) && !HasKey(End(run).table, q.key) && !Holds(brain, End(run), q)
    ensures End(run).called == s.called
  {
    run := DeliverBegun(brain, s, step, care);
    run := WriteUpTo(brain, Next(brain, s, step), run, care, id, i + 1);
    BatchIsLast(s, step.now, step.limit);
    var end := End(run);
    assert Genuine(s.accepted, q) && IsLast(end.accepted, q.seqNo);
    assert !HasKey(end.table, q.key);
    assert !Stored(brain, end, q.seqNo);
  }

  lemma {:induction false} Overtaken(s: State, batch: seq<OutRow<Blob>>) returns (id: nat, i: nat, q: OutRow<Blob>)
    requires !OvertakesNothing(s, batch)
    ensures id in s.drains && s.drains[id].written <= i < |s.drains[id].rows| && q in batch
    ensures s.drains[id].rows[i].key == q.key && s.drains[id].rows[i].blob != q.blob
  {
    id, i, q :| id in s.drains && s.drains[id].written <= i < |s.drains[id].rows| && q in batch &&
                s.drains[id].rows[i].key == q.key && s.drains[id].rows[i].blob != q.blob;
  }

  /** Beginning a drain is safe exactly when it overtakes nothing: then the latest blobs
      are held whatever careful steps follow; otherwise, with no row the server refuses,
      some careful steps end with an older blob on the server and the key not waiting. */
  lemma {:induction false} SafeIffOvertakesNothing(brain: string, s: State, step: Step)
    requires Inv(brain, s) && LatestInv(brain, s) && step.Begin? && Enabled(brain, s, step)
    ensures Careful(s, step) ==> AlwaysLatest(brain, Next(brain, s, step))
    ensures AllAccepted(brain, s) ==> (Careful(s, step) <==> AlwaysLatest(brain, Next(brain, s, step)))
  {
    if Careful(s, step) {
      StepKeepsInv(brain, s, step);
      CarefulKeepsLatest(brain, s, step);
      InvIsAlwaysLatest(brain, Next(brain, s, step));
    } else if AllAccepted(brain, s) {
      var id, i, q := Overtaken(s, Due(s.table.rows, step.now, step.limit));
      var run := OvertakenArrives(brain, s, step, Overtaking, id, i, q);
    }
  }

  lemma {:induction false} InvIsAlwaysLatest(brain: string, s: State)
    requires Inv(brain, s) && LatestInv(brain, s)
    ensures AlwaysLatest(brain, s)
  {
    forall run | IsRunFrom(brain, s, run, Overtaking) ensures LatestHeld(brain, End(run)) {
      CarefulRun(brain, s, run, |run| - 1);
      InvGivesLatest(brain, End(run));
    }
  }

  ghost predicate AlwaysLatest(brain: string, s: State) {
    forall run :: IsRunFrom(brain, s, run, Overtaking) ==> LatestHeld(brain, End(run))
  }

  // --- one row in two drains ---

  /** The latest time any row is due. */
  function LastDue(rows: seq<OutRow<Blob>>): (t: int)
    ensures forall r :: r in rows ==> r.nextAttempt <= t
  {
    if rows == [] then 0
    else
      var t := LastDue(rows[1..]);
      if t < rows[0].nextAttempt then rows[0].nextAttempt else t
  }

  lemma {:induction false} AllDue(rows: seq<OutRow<Blob>>, now: int)
    requires forall r :: r in rows ==> r.nextAttempt <= now
    ensures Due(rows, now, |rows|) == rows
  {
    if rows != [] {
      assert forall r :: r in rows[1..] ==> r in rows;
      AllDue(rows[1..], now);
    }
  }

  lemma {:induction false} AllAcked(rows: seq<OutRow<Blob>>, seqs: set<nat>)
    requires forall q :: q in rows ==> q.seqNo in seqs
    ensures Acked(rows, seqs) == []
  {
    if rows != [] {
      assert rows[0] in rows && forall q :: q in rows[1..] ==> q in rows;
      AllAcked(rows[1..], seqs);
    }
  }

  /** The drain that takes up everything. */
  function All(s: State, id: nat): Step {
    Begin(id, LastDue(s.table.rows), |s.table.rows|)
  }

  /** It empties the table and leaves the blobs that waited on the server. */
  lemma {:induction false} Empty(brain: string, s: State, run: seq<State>, care: Care, id: nat) returns (longer: seq<State>)
    requires IsRunFrom(brain, s, run, care) && id !in End(run).drains && Minds(care, End(run), All(End(run), id))
    requires OneRowAKey(End(run).table.rows) && Accepted(brain, End(run).table.rows)
    ensures IsRunFrom(brain, s, longer, care)
    ensures Emptied(brain, End(run), End(longer))
  {
    var was := End(run);
    AllDue(was.table.rows, LastDue(was.table.rows));
    longer := Extend(brain, s, run, care, All(was, id));
    longer := Deliver(brain, s, longer, care, id);
    DeliveredAll(brain, was, End(longer), id);
  }

  ghost predicate Emptied(brain: string, was: State, now: State) {
    var rows := was.table.rows;
    && now.table.rows == [] && now.drains == was.drains && now.accepted == was.accepted && now.called == was.called
    && (forall j :: 0 <= j < |rows| ==> rows[j].seqNo in now.puts)
    && (OneBlobAKey(rows) ==> forall j :: 0 <= j < |rows| ==> Holds(brain, now, rows[j]))
  }

  lemma {:induction false} DeliveredAll(brain: string, was: State, now: State, id: nat)
    requires id !in was.drains && OneRowAKey(was.table.rows)
    requires Delivered(brain, was.(drains := was.drains[id := Drain(was.table.rows, 0, true)]), now, id)
    ensures Emptied(brain, was, now)
  {
    var d := Drain(was.table.rows, 0, true);
    assert was.drains[id := d] - {id} == was.drains;
    forall q | q in d.rows ensures q.seqNo in AckedBy(d) {
      BatchAcked(d, q);
    }
    AllAcked(d.rows, AckedBy(d));
  }

  /** A drain that takes up a row another drain still has to write: whatever newer blob
      is enqueued for its key afterwards, the older one can end up on the server with
      nothing left in the outbox. */
  lemma {:induction false} OverlapLosesLatest(brain: string, s: State, step: Step, id: nat, i: nat, q: OutRow<Blob>, newer: Blob)
    returns (run: seq<State>)
    requires Inv(brain, s) && TableLast(s) && step.Begin? && Enabled(brain, s, step) && AllAccepted(brain, s)
    requires id in s.drains && s.drains[id].written <= i < |s.drains[id].rows| && q in Due(s.table.rows, step.now, step.limit)
    requires s.drains[id].rows[i].key == q.key && s.drains[id].rows[i].blob != newer
    ensures IsRunFrom(brain, Next(brain, s, step), run, Nothing)
    ensures var end := End(run);
            && end.table.rows == [] && end.accepted == s.accepted + [Request(q.kind, q.key, newer)]
            && |s.accepted| in end.puts
            && ScopeKey(brain, q.key) in end.server && end.server[ScopeKey(brain, q.key)] == s.drains[id].rows[i].blob
  {
    run := NewerEnqueued(brain, s, step, q, newer);
    hide Next, Inv, TableLast, Enabled, Due;
    run := EmptyThenLate(brain, Next(brain, s, step), run, step.id, id, i);
  }

  /** The table emptied by a drain of everything, and then a row of another drain written. */
  lemma {:induction false} EmptyThenLate(brain: string, s: State, run: seq<State>, free: nat, id: nat, i: nat) returns (longer: seq<State>)
    requires IsRunFrom(brain, s, run, Nothing) && free !in End(run).drains && End(run).table.rows != []
    requires OneRowAKey(End(run).table.rows) && Accepted(brain, End(run).table.rows)
    requires id in End(run).drains && Accepted(brain, End(run).drains[id].rows)
    requires End(run).drains[id].written <= i < |End(run).drains[id].rows|
    ensures IsRunFrom(brain, s, longer, Nothing)
    ensures var was, now := End(run), End(longer);
            && now.table.rows == [] && now.accepted == was.accepted
            && was.table.rows[|was.table.rows| - 1].seqNo in now.puts
            && Holds(brain, now, was.drains[id].rows[i])
  {
    var emptied := Empty(brain, s, run, Nothing, free);
    hide OneRowAKey, IsRunFrom;
    longer := WriteUpTo(brain, s, emptied, Nothing, id, i + 1);
  }

  /** The drain delivered, and a newer blob enqueued for one of its keys. */
  lemma {:induction false} NewerEnqueued(brain: string, s: State, step: Step, q: OutRow<Blob>, newer: Blob)
    returns (run: seq<State>)
    requires Inv(brain, s) && TableLast(s) && step.Begin? && Enabled(brain, s, step) && Accepted(brain, s.table.rows)
    requires q in Due(s.table.rows, step.now, step.limit)
    ensures IsRunFrom(brain, Next(brain, s, step), run, Nothing)
    ensures End(run).drains == s.drains && End(run).accepted == s.accepted + [Request(q.kind, q.key, newer)]
    ensures OneRowAKey(End(run).table.rows) && Accepted(brain, End(run).table.rows)
    ensures var rows := End(run).table.rows; rows != [] && rows[|rows| - 1].seqNo == |s.accepted|
  {
    run := DeliverBegun(brain, s, step, Nothing);
    DueIsFromTable(s.table.rows, step.now, step.limit);
    var was := End(run);
    run := Extend(brain, Next(brain, s, step), run, Nothing, Enqueue(q.kind, q.key, newer, 0));
    NotPending(was.table, q.kind, q.key);
    RestAndNewer(brain, s, was.table.rows, q, OutRow(s.table.nextSeq, q.kind, q.key, newer, 0, 0));
  }

  lemma {:induction false} NotPending(t: Table<Blob>, kind: string, key: string)
    requires forall r :: r in t.rows ==> r.key != key
    ensures !Pending(t, kind, key)
  {
    assert forall j :: 0 <= j < |t.rows| ==> t.rows[j] in t.rows;
  }

  lemma {:induction false} RestAndNewer(brain: string, s: State, rest: seq<OutRow<Blob>>, q: OutRow<Blob>, row: OutRow<Blob>)
    requires TableOk(s) && TableLast(s) && Accepted(brain, s.table.rows) && q in s.table.rows && row.key == q.key
    requires forall r :: r in rest ==> r in s.table.rows && r.key != q.key
    ensures OneRowAKey(rest + [row]) && Accepted(brain, rest + [row])
  {
    TableHasOneRowAKey(s);
    forall j | 0 <= j < |rest + [row]| ensures Serve.PushAccepts(brain, Pushed((rest + [row])[j])) {
      if j < |rest| {
        assert rest[j] in rest;
      }
    }
  }

  lemma {:induction false} Join(brain: string, s: State, a: seq<State>, b: seq<State>, step: Step) returns (run: seq<State>)
    requires IsRunFrom(brain, s, a, Nothing) && Enabled(brain, End(a), step) && IsRunFrom(brain, Next(brain, End(a), step), b, Nothing)
    ensures IsRunFrom(brain, s, run, Nothing) && End(run) == End(b)
  {
    run := a + b;
    assert Steps(brain, End(a), step, b[0]);
    forall i | 0 < i < |run| ensures CanStep(brain, run[i - 1], run[i], Nothing) {
      if i > |a| {
        assert run[i - 1] == b[i - 1 - |a|] && run[i] == b[i - |a|];
      } else if i < |a| {
        assert run[i - 1] == a[i - 1] && run[i] == a[i];
      }
    }
  }

  /** From the start: one row taken up by two drains is all it takes for the server to end
      with the older of two blobs, the newer one written and the outbox empty. */
  lemma {:induction false} LateWriteRestoresOldBlob(brain: string, key: string, b1: Blob, b2: Blob) returns (run: seq<State>)
    requires b1 != b2 && Serve.PushAccepts(brain, Serve.PushRow(key, b1))
    ensures IsRun(brain, run)
    ensures var end := End(run);
            && end.accepted == [Request("k", key, b1), Request("k", key, b2)] && 1 in end.puts
            && end.table.rows == []
            && ScopeKey(brain, key) in end.server && end.server[ScopeKey(brain, key)] == b1
  {
    var r := OutRow(0, "k", key, b1, 0, 0);
    AllDue([r], 0);
    var first := Extend(brain, Initial, [Initial], Nothing, Enqueue("k", key, b1, 0));
    assert End(first) == State(Table([r], 1), map[], map[], map[key := b1], [Request("k", key, b1)], {});
    first := Extend(brain, Initial, first, Nothing, Begin(1, 0, 1));
    var s := End(first);
    assert s == State(Table([r], 1), map[], map[1 := Drain([r], 0, true)], map[key := b1], [Request("k", key, b1)], {});
    RunKeepsInv(brain, first, |first| - 1);
    var rest := OverlapLosesLatest(brain, s, Begin(2, 0, 1), 1, 0, r, b2);
    run := Join(brain, Initial, first, rest, Begin(2, 0, 1));
  }
}
