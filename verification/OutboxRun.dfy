/** Every interleaving of enqueues, drains, server writes, failures, lost replies
    and restarts. A drain is a push in flight: the server writes its rows one at a
    time, and may go on after the client has stopped listening. */
module OutboxRun {
  import opened Tenancy
  import opened Outbox
  import Serve

  type Blob = string

  datatype Drain = Drain(rows: seq<OutRow<Blob>>, written: nat, listening: bool)

  /** One call of Enqueue that the table took. */
  datatype Request = Request(kind: string, key: string, blob: Blob)

  /** `called`, `accepted` and `puts` record the past: the blob of the last call of Enqueue
      for each key, whether the table took it or not; the calls it took in order, so that
      the row of sequence number n came from accepted[n]; and the sequence numbers of the
      rows the server has written. */
  datatype State = State(
    table: Table<Blob>,
    server: map<string, Blob>,
    drains: map<nat, Drain>,
    called: map<string, Blob>,
    accepted: seq<Request>,
    puts: set<nat>)

  datatype Step =
    | Enqueue(kind: string, key: string, blob: Blob, at: int)
    | Begin(id: nat, now: int, limit: nat)
    | Write(id: nat)
    | ReplyOk(id: nat)
    | GiveUp(id: nat, next: nat -> int)
    | Vanish(id: nat)
    | Restart

  predicate Enabled(brain: string, s: State, step: Step) {
    match step
    case Enqueue(_, _, _, _) => true
    case Begin(id, _, _) => id !in s.drains
    case Write(id) =>
      id in s.drains && s.drains[id].written < |s.drains[id].rows| &&
      Serve.PushAccepts(brain, Pushed(s.drains[id].rows[s.drains[id].written]))
    case ReplyOk(id) => id in s.drains && s.drains[id].listening && s.drains[id].written == |s.drains[id].rows|
    case GiveUp(id, _) => id in s.drains && s.drains[id].listening
    case Vanish(id) => id in s.drains
    case Restart => true
  }

  function Pushed(row: OutRow<Blob>): Serve.PushRow<Blob> {
    Serve.PushRow(row.key, row.blob)
  }

  /** The sequence numbers a drain acknowledges. */
  function AckedBy(d: Drain): set<nat> {
    AckSeqs(KeyToSeq(d.rows), Serve.KeysOf(ToPush(d.rows)))
  }

  function Next(brain: string, s: State, step: Step): State
    requires Enabled(brain, s, step)
  {
    match step
    case Enqueue(kind, key, blob, at) =>
      s.(table := Enqueued(s.table, kind, key, blob, at),
         called := s.called[key := blob],
         accepted := if Pending(s.table, kind, key) then s.accepted else s.accepted + [Request(kind, key, blob)])
    case Begin(id, now, limit) =>
      s.(drains := s.drains[id := Drain(Due(s.table.rows, now, limit), 0, true)])
    case Write(id) =>
      var d := s.drains[id];
      var row := d.rows[d.written];
      s.(server := s.server[ScopeKey(brain, row.key) := row.blob],
         puts := s.puts + {row.seqNo},
         drains := s.drains[id := d.(written := d.written + 1)])
    case ReplyOk(id) =>
      s.(table := s.table.(rows := Acked(s.table.rows, AckedBy(s.drains[id]))), drains := s.drains - {id})
    case GiveUp(id, next) =>
      var d := s.drains[id];
      s.(table := s.table.(rows := BumpedAll(s.table.rows, d.rows, next)),
         drains := s.drains[id := d.(listening := false)])
    case Vanish(id) => s.(drains := s.drains - {id})
    case Restart => s.(drains := map id | id in s.drains :: s.drains[id].(listening := false))
  }

  const Initial := State(Table([], 0), map[], map[], map[], [], {})

  /** A batch that overtakes nothing: no row still on its way to the server in another
      drain carries another blob for one of its keys. */
  predicate OvertakesNothing(s: State, batch: seq<OutRow<Blob>>) {
    forall id, i, q ::
      (id in s.drains && s.drains[id].written <= i < |s.drains[id].rows| && q in batch && s.drains[id].rows[i].key == q.key) ==>
        s.drains[id].rows[i].blob == q.blob
  }

  /** A pending key is not enqueued under a second kind, and a drain that begins
      overtakes nothing. */
  predicate Careful(s: State, step: Step) {
    && (step.Enqueue? ==> forall r :: r in s.table.rows && r.key == step.key ==> r.kind == step.kind)
    && (step.Begin? ==> OvertakesNothing(s, Due(s.table.rows, step.now, step.limit)))
  }

  /** A call the table takes, or that repeats the blob pending for its key. */
  predicate Heeded(s: State, step: Step) {
    step.Enqueue? ==> forall r :: r in s.table.rows && r.key == step.key ==> r.blob == step.blob
  }

  /** What the steps of a run have to mind. */
  datatype Care = Nothing | Overtaking | OvertakingAndRefusals

  predicate Minds(care: Care, s: State, step: Step) {
    match care
    case Nothing => true
    case Overtaking => Careful(s, step)
    case OvertakingAndRefusals => Careful(s, step) && Heeded(s, step)
  }

  ghost predicate Steps(brain: string, s: State, step: Step, s': State) {
    Enabled(brain, s, step) && s' == Next(brain, s, step)
  }

  ghost predicate CanStep(brain: string, s: State, s': State, care: Care) {
    exists step :: Steps(brain, s, step, s') && Minds(care, s, step)
  }

  /** A run: states joined by enabled steps, careful ones if asked for. */
  ghost predicate IsRunFrom(brain: string, s: State, run: seq<State>, care: Care) {
    && run != [] && run[0] == s
    && forall i :: 0 < i < |run| ==> CanStep(brain, run[i - 1], run[i], care)
  }

  ghost predicate IsRun(brain: string, run: seq<State>) {
    IsRunFrom(brain, Initial, run, Nothing)
  }

  /** The row is the one made when its sequence number was given out: sequence numbers
      are never reused. */
  predicate Genuine(accepted: seq<Request>, r: OutRow<Blob>) {
    r.seqNo < |accepted| && accepted[r.seqNo] == Request(r.kind, r.key, r.blob)
  }

  ghost predicate TableOk(s: State) {
    s.table.nextSeq == |s.accepted| && forall r :: r in s.table.rows ==> Genuine(s.accepted, r)
  }

  ghost predicate DrainOk(s: State, d: Drain) {
    && d.written <= |d.rows|
    && (forall i :: 0 <= i < |d.rows| ==> Genuine(s.accepted, d.rows[i]))
    && (forall i :: 0 <= i < d.written ==> d.rows[i].seqNo in s.puts)
  }

  ghost predicate HasKey(t: Table<Blob>, key: string) {
    exists r :: r in t.rows && r.key == key
  }

  ghost predicate DrainsOk(s: State) {
    forall id :: id in s.drains ==> DrainOk(s, s.drains[id])
  }

  ghost predicate PutsStored(brain: string, s: State) {
    forall n :: n in s.puts ==> n < |s.accepted| && ScopeKey(brain, s.accepted[n].key) in s.server
  }

  /** The row of sequence number n is what the server holds under k. */
  predicate Backs(brain: string, s: State, k: string, n: nat) {
    n in s.puts && n < |s.accepted| && k == ScopeKey(brain, s.accepted[n].key) && k in s.server && s.server[k] == s.accepted[n].blob
  }

  ghost predicate StoredPut(brain: string, s: State) {
    forall k :: k in s.server ==> exists n: nat :: Backs(brain, s, k, n)
  }

  ghost predicate NoneLost(brain: string, s: State) {
    forall n :: 0 <= n < |s.accepted| ==> HasKey(s.table, s.accepted[n].key) || ScopeKey(brain, s.accepted[n].key) in s.server
  }

  /** A call for this key was taken. */
  ghost predicate Taken(s: State, key: string) {
    exists n: nat :: n < |s.accepted| && s.accepted[n].key == key
  }

  ghost predicate CallsTaken(s: State) {
    forall key :: key in s.called <==> Taken(s, key)
  }

  ghost predicate Inv(brain: string, s: State) {
    TableOk(s) && DrainsOk(s) && PutsStored(brain, s) && StoredPut(brain, s) && NoneLost(brain, s) && CallsTaken(s)
  }

  /** A key still waiting after a step keeps its accepted enqueues from being lost. */
  lemma {:induction false} StillNotLost(brain: string, s: State, s': State)
    requires NoneLost(brain, s) && s'.accepted == s.accepted && s'.server.Keys >= s.server.Keys
    requires forall key :: HasKey(s.table, key) ==> HasKey(s'.table, key)
    ensures NoneLost(brain, s')
  {
  }

  lemma {:induction false} MoreOnServer(brain: string, s: State, s': State, q: Request)
    requires s'.accepted == s.accepted + [q] && s'.server == s.server && s'.puts == s.puts
    requires PutsStored(brain, s) && StoredPut(brain, s)
    ensures PutsStored(brain, s') && StoredPut(brain, s')
  {
    forall k | k in s'.server ensures exists n: nat :: Backs(brain, s', k, n) {
      var n: nat :| Backs(brain, s, k, n);
      assert Backs(brain, s', k, n);
    }
  }

  lemma {:induction false} MoreWaiting(brain: string, s: State, s': State, q: Request, row: OutRow<Blob>)
    requires s'.accepted == s.accepted + [q] && s'.server == s.server && s'.table.rows == s.table.rows + [row] && row.key == q.key
    requires NoneLost(brain, s)
    ensures NoneLost(brain, s')
  {
    assert row in s'.table.rows;
    forall n | 0 <= n < |s'.accepted| ensures HasKey(s'.table, s'.accepted[n].key) || ScopeKey(brain, s'.accepted[n].key) in s'.server {
      if n < |s.accepted| && HasKey(s.table, s.accepted[n].key) {
        var r :| r in s.table.rows && r.key == s.accepted[n].key;
        assert r in s'.table.rows;
      }
    }
  }

  /** A refused call's key pends, and the pending row came from a call that was taken. */
  lemma {:induction false} EnqueueKeepsCalls(brain: string, s: State, step: Step)
    requires TableOk(s) && CallsTaken(s) && step.Enqueue?
    ensures CallsTaken(Next(brain, s, step))
  {
    var s' := Next(brain, s, step);
    if Pending(s.table, step.kind, step.key) {
      var i :| 0 <= i < |s.table.rows| && s.table.rows[i].kind == step.kind && s.table.rows[i].key == step.key;
      assert s.table.rows[i] in s.table.rows && Genuine(s.accepted, s.table.rows[i]);
      assert Taken(s, step.key);
      forall key ensures Taken(s', key) <==> Taken(s, key) {
      }
    } else {
      var m := |s.accepted|;
      assert s'.accepted[m].key == step.key;
      forall key ensures Taken(s', key) <==> Taken(s, key) || key == step.key {
        if Taken(s, key) {
          var n: nat :| n < m && s.accepted[n].key == key;
          assert s'.accepted[n].key == key;
        }
        if Taken(s', key) {
          var n: nat :| n <= m && s'.accepted[n].key == key;
          assert n < m ==> s.accepted[n].key == key;
        }
      }
    }
  }

  lemma {:induction false} TakenEnqueue(brain: string, s: State, step: Step)
    requires Inv(brain, s) && step.Enqueue? && !Pending(s.table, step.kind, step.key)
    ensures var s' := Next(brain, s, step);
            TableOk(s') && DrainsOk(s') && PutsStored(brain, s') && StoredPut(brain, s') && NoneLost(brain, s')
  {
    var s', q := Next(brain, s, step), Request(step.kind, step.key, step.blob);
    MoreOnServer(brain, s, s', q);
    MoreWaiting(brain, s, s', q, OutRow(s.table.nextSeq, step.kind, step.key, step.blob, 0, step.at));
    hide PutsStored, StoredPut, NoneLost;
    forall id | id in s'.drains ensures DrainOk(s', s'.drains[id]) {
      assert DrainOk(s, s.drains[id]);
    }
  }

  lemma {:induction false} EnqueueKeepsInv(brain: string, s: State, step: Step)
    requires Inv(brain, s) && step.Enqueue?
    ensures Inv(brain, Next(brain, s, step))
  {
    var s' := Next(brain, s, step);
    EnqueueKeepsCalls(brain, s, step);
    if !Pending(s.table, step.kind, step.key) {
      TakenEnqueue(brain, s, step);
    } else {
      SameServer(brain, s, s');
      SameDrains(s, s');
      hide PutsStored, StoredPut, DrainsOk;
      StillNotLost(brain, s, s');
    }
  }

  lemma {:induction false} BeginKeepsInv(brain: string, s: State, step: Step)
    requires Inv(brain, s) && step.Begin? && Enabled(brain, s, step)
    ensures Inv(brain, Next(brain, s, step))
  {
    var s' := Next(brain, s, step);
    DueIsFromTable(s.table.rows, step.now, step.limit);
    SameServer(brain, s, s');
    forall id | id in s'.drains ensures DrainOk(s', s'.drains[id]) {
      assert id != step.id ==> DrainOk(s, s.drains[id]);
    }
  }

  lemma {:induction false} WriteKeepsInv(brain: string, s: State, step: Step)
    requires Inv(brain, s) && step.Write? && Enabled(brain, s, step)
    ensures Inv(brain, Next(brain, s, step))
  {
    var s' := Next(brain, s, step);
    var d := s.drains[step.id];
    var row := d.rows[d.written];
    assert DrainOk(s, d) && Genuine(s.accepted, row);
    forall id | id in s'.drains ensures DrainOk(s', s'.drains[id]) {
      assert DrainOk(s, s.drains[id]);
    }
    forall k | k in s'.server ensures exists n: nat :: Backs(brain, s', k, n) {
      if k == ScopeKey(brain, row.key) {
        assert Backs(brain, s', k, row.seqNo);
      } else {
        var n: nat :| Backs(brain, s, k, n);
        assert Backs(brain, s', k, n);
      }
    }
  }

  /** Every acknowledged sequence number is that of a row of the drain. */
  lemma {:induction false} AckedIsInDrain(d: Drain, n: nat) returns (i: nat)
    requires n in AckedBy(d)
    ensures i < |d.rows| && d.rows[i].seqNo == n
  {
    KeyToSeqIsFromBatch(d.rows);
    var k :| k in KeyToSeq(d.rows) && KeyToSeq(d.rows)[k] == n;
    i :| 0 <= i < |d.rows| && d.rows[i].key == k && d.rows[i].seqNo == KeyToSeq(d.rows)[k];
  }

  lemma {:induction false} AckedWasPut(brain: string, s: State, id: nat, n: nat)
    requires Inv(brain, s) && Enabled(brain, s, ReplyOk(id)) && n in AckedBy(s.drains[id])
    ensures n in s.puts
  {
    var i := AckedIsInDrain(s.drains[id], n);
    assert DrainOk(s, s.drains[id]);
  }

  lemma {:induction false} ReplyOkKeepsInv(brain: string, s: State, step: Step)
    requires Inv(brain, s) && step.ReplyOk? && Enabled(brain, s, step)
    ensures Inv(brain, Next(brain, s, step))
  {
    var s' := Next(brain, s, step);
    var seqs := AckedBy(s.drains[step.id]);
    AckedKeeps(s.table.rows, seqs);
    SameServer(brain, s, s');
    forall id | id in s'.drains ensures DrainOk(s', s'.drains[id]) {
      assert DrainOk(s, s.drains[id]);
    }
    forall n | 0 <= n < |s.accepted| ensures HasKey(s'.table, s.accepted[n].key) || ScopeKey(brain, s.accepted[n].key) in s.server {
      if HasKey(s.table, s.accepted[n].key) {
        var r :| r in s.table.rows && r.key == s.accepted[n].key;
        if r.seqNo in seqs {
          AckedWasPut(brain, s, step.id, r.seqNo);
          assert Genuine(s.accepted, r);
        } else {
          assert r in s'.table.rows;
        }
      }
    }
  }

  /** Moving retry times changes neither what the rows are nor which keys wait. */
  lemma {:induction false} BumpedRows(was: seq<OutRow<Blob>>, rows: seq<OutRow<Blob>>)
    requires |rows| == |was| && forall i :: 0 <= i < |was| ==> SameRow(rows[i], was[i])
    ensures forall q :: q in rows ==> exists r :: r in was && SameRow(q, r)
    ensures forall q :: q in was ==> exists r :: r in rows && SameRow(r, q)
  {
    forall q | q in rows ensures exists r :: r in was && SameRow(q, r) {
      var i :| 0 <= i < |rows| && rows[i] == q;
      assert was[i] in was;
    }
    forall q | q in was ensures exists r :: r in rows && SameRow(r, q) {
      var i :| 0 <= i < |was| && was[i] == q;
      assert rows[i] in rows;
    }
  }

  lemma {:induction false} BumpedTable(accepted: seq<Request>, t: Table<Blob>, t': Table<Blob>)
    requires |t'.rows| == |t.rows| && forall i :: 0 <= i < |t.rows| ==> SameRow(t'.rows[i], t.rows[i])
    requires forall r :: r in t.rows ==> Genuine(accepted, r)
    ensures forall r :: r in t'.rows ==> Genuine(accepted, r)
    ensures forall key :: HasKey(t, key) ==> HasKey(t', key)
  {
    BumpedRows(t.rows, t'.rows);
  }

  lemma {:induction false} GiveUpKeepsInv(brain: string, s: State, step: Step)
    requires Inv(brain, s) && step.GiveUp? && Enabled(brain, s, step)
    ensures Inv(brain, Next(brain, s, step))
  {
    var s' := Next(brain, s, step);
    BumpedAllKeeps(s.table.rows, s.drains[step.id].rows, step.next);
    hide BumpedAll, PutsStored, StoredPut, NoneLost, HasKey, Genuine;
    BumpedTable(s.accepted, s.table, s'.table);
    SameDrains(s, s');
    SameServer(brain, s, s');
    StillNotLost(brain, s, s');
  }

  /** Drains that only stop listening, or vanish. */
  lemma {:induction false} SameDrains(s: State, s': State)
    requires DrainsOk(s) && s'.puts == s.puts && s'.accepted == s.accepted
    requires forall id :: id in s'.drains ==> id in s.drains && s'.drains[id] == s.drains[id].(listening := s'.drains[id].listening)
    ensures DrainsOk(s')
  {
    forall id | id in s'.drains ensures DrainOk(s', s'.drains[id]) {
      assert DrainOk(s, s.drains[id]);
    }
  }

  lemma {:induction false} SameServer(brain: string, s: State, s': State)
    requires PutsStored(brain, s) && StoredPut(brain, s)
    requires s'.server == s.server && s'.puts == s.puts && s'.accepted == s.accepted
    ensures PutsStored(brain, s') && StoredPut(brain, s')
  {
    forall k | k in s'.server ensures exists n: nat :: Backs(brain, s', k, n) {
      var n: nat :| Backs(brain, s, k, n);
      assert Backs(brain, s', k, n);
    }
  }

  lemma {:induction false} DropKeepsInv(brain: string, s: State, step: Step)
    requires Inv(brain, s) && (step.Vanish? || step.Restart?) && Enabled(brain, s, step)
    ensures Inv(brain, Next(brain, s, step))
  {
    SameDrains(s, Next(brain, s, step));
    SameServer(brain, s, Next(brain, s, step));
  }

  lemma {:induction false} StepKeepsInv(brain: string, s: State, step: Step)
    requires Inv(brain, s) && Enabled(brain, s, step)
    ensures Inv(brain, Next(brain, s, step))
  {
    match step
    case Enqueue(_, _, _, _) => EnqueueKeepsInv(brain, s, step);
    case Begin(_, _, _) => BeginKeepsInv(brain, s, step);
    case Write(_) => WriteKeepsInv(brain, s, step);
    case ReplyOk(_) => ReplyOkKeepsInv(brain, s, step);
    case GiveUp(_, _) => GiveUpKeepsInv(brain, s, step);
    case Vanish(_) => DropKeepsInv(brain, s, step);
    case Restart => DropKeepsInv(brain, s, step);
  }

  lemma {:induction false} RunKeepsInv(brain: string, run: seq<State>, i: nat)
    requires IsRun(brain, run) && i < |run|
    ensures Inv(brain, run[i])
  {
    if i > 0 {
      RunKeepsInv(brain, run, i - 1);
      assert CanStep(brain, run[i - 1], run[i], Nothing);
      var step :| Steps(brain, run[i - 1], step, run[i]);
      StepKeepsInv(brain, run[i - 1], step);
    }
  }

  /** A client that gives up puts its batch back as a failed drain does, and listens no
      more; a restarted one listens to nothing. Neither takes a row out, and what they sent
      may still be written. */
  lemma {:induction false} NobodyListens(brain: string, s: State, id: nat, next: nat -> int)
    requires id in s.drains && s.drains[id].listening
    ensures var gone := Next(brain, s, GiveUp(id, next));
            && AllRetried(s.table.rows, gone.table.rows, s.drains[id].rows, next)
            && gone.drains == s.drains[id := s.drains[id].(listening := false)] && gone.server == s.server
    ensures var anew := Next(brain, s, Restart);
            && anew.table == s.table && anew.server == s.server && anew.drains.Keys == s.drains.Keys
            && forall d :: d in s.drains ==> anew.drains[d] == s.drains[d].(listening := false)
  {
    BumpedAllAre(s.table.rows, s.drains[id].rows, next);
  }

  /** The outbox loses nothing: in every state of every run, each key Enqueue was ever
      called for is still in the outbox or stored on the server, and what the server stores was
      enqueued for that very key. */
  lemma {:induction false} NothingIsLost(brain: string, run: seq<State>, i: nat)
    requires IsRun(brain, run) && i < |run|
    ensures forall key :: key in run[i].called ==>
              HasKey(run[i].table, key) || ScopeKey(brain, key) in run[i].server
    ensures forall q :: q in run[i].accepted ==>
              HasKey(run[i].table, q.key) || ScopeKey(brain, q.key) in run[i].server
    ensures forall key :: ScopeKey(brain, key) in run[i].server ==>
              exists q :: q in run[i].accepted && q.key == key && q.blob == run[i].server[ScopeKey(brain, key)]
  {
    RunKeepsInv(brain, run, i);
    var s := run[i];
    forall key | key in s.called ensures HasKey(s.table, key) || ScopeKey(brain, key) in s.server {
      var n: nat :| n < |s.accepted| && s.accepted[n].key == key;
    }
    forall key | ScopeKey(brain, key) in s.server
      ensures exists q :: q in s.accepted && q.key == key && q.blob == s.server[ScopeKey(brain, key)]
    {
      var n: nat :| Backs(brain, s, ScopeKey(brain, key), n);
      UnscopeUndoesScope(brain, key);
      UnscopeUndoesScope(brain, s.accepted[n].key);
      assert s.accepted[n] in s.accepted;
    }
  }

  /** Nothing but an acknowledged reply takes a row out of the table. */
  lemma {:induction false} OtherStepsKeepRows(brain: string, s: State, step: Step, r: OutRow<Blob>)
    requires Enabled(brain, s, step) && r in s.table.rows
    ensures !step.ReplyOk? ==> exists q :: q in Next(brain, s, step).table.rows && q.seqNo == r.seqNo
  {
    var t := Next(brain, s, step).table;
    if step.GiveUp? {
      BumpedAllKeeps(s.table.rows, s.drains[step.id].rows, step.next);
      var j :| 0 <= j < |s.table.rows| && s.table.rows[j] == r;
      assert t.rows[j] in t.rows;
    } else if !step.ReplyOk? {
      assert s.table.rows <= t.rows;
    }
  }

  /** Only the reply to the drain that carried it takes a row out, and by then the
      server has written that row. */
  lemma {:induction false} OnlyAckRemoves(brain: string, s: State, step: Step, r: OutRow<Blob>)
    requires Inv(brain, s) && Enabled(brain, s, step) && r in s.table.rows
    requires forall q :: q in Next(brain, s, step).table.rows ==> q.seqNo != r.seqNo
    ensures step.ReplyOk? && r.seqNo in s.puts && Genuine(s.accepted, r) && ScopeKey(brain, r.key) in s.server
    ensures exists i :: 0 <= i < |s.drains[step.id].rows| && s.drains[step.id].rows[i].seqNo == r.seqNo
  {
    OtherStepsKeepRows(brain, s, step, r);
    AckedKeeps(s.table.rows, AckedBy(s.drains[step.id]));
    AckedWasPut(brain, s, step.id, r.seqNo);
    var i := AckedIsInDrain(s.drains[step.id], r.seqNo);
  }

  /** A row leaves the outbox only after the server wrote that row. */
  lemma {:induction false} LeavesOnlyAfterPut(brain: string, run: seq<State>, i: nat, r: OutRow<Blob>)
    requires IsRun(brain, run) && 0 < i < |run|
    requires r in run[i - 1].table.rows
    requires forall q :: q in run[i].table.rows ==> q.seqNo != r.seqNo
    ensures r.seqNo in run[i - 1].puts && Genuine(run[i - 1].accepted, r) && ScopeKey(brain, r.key) in run[i - 1].server
  {
    hide Inv, Next, Genuine;
    RunKeepsInv(brain, run, i - 1);
    assert CanStep(brain, run[i - 1], run[i], Nothing);
    var step :| Steps(brain, run[i - 1], step, run[i]);
    OnlyAckRemoves(brain, run[i - 1], step, r);
  }

  // --- the push handler's loop is a series of Write steps ---

  ghost function WriteN(brain: string, s: State, id: nat, n: nat): (t: State)
    requires id in s.drains && s.drains[id].written == 0
    requires n <= Serve.AcceptedPrefix(brain, ToPush(s.drains[id].rows))
    ensures id in t.drains && t.drains[id] == s.drains[id].(written := n)
  {
    if n == 0 then s
    else
      var before := WriteN(brain, s, id, n - 1);
      Serve.AcceptedPrefixIs(brain, ToPush(s.drains[id].rows));
      Next(brain, before, Write(id))
  }

  /** Letting the server write n rows of a batch leaves what a push that stops after
      n rows leaves. */
  lemma {:induction false} WritesArePush(brain: string, s: State, id: nat, n: nat)
    requires id in s.drains && s.drains[id].written == 0
    requires n <= Serve.AcceptedPrefix(brain, ToPush(s.drains[id].rows))
    ensures WriteN(brain, s, id, n).server == Serve.PutRows(s.server, brain, ToPush(s.drains[id].rows)[..n])
    ensures WriteN(brain, s, id, n).table == s.table
  {
    if n > 0 {
      hide Serve.PutRows;
      WritesArePush(brain, s, id, n - 1);
      Serve.PutRowsStep(s.server, brain, ToPush(s.drains[id].rows), n - 1);
    }
  }
}
