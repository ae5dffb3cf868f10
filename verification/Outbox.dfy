/** The client's outbox table and one drain of it: dequeue a batch, push it,
    delete what the server acknowledges, push the rest back in time. */
module Outbox {
  import Serve

  datatype OutRow<+B> = OutRow(seqNo: nat, kind: string, key: string, blob: B, attempts: nat, nextAttempt: int)

  /** Rows in seq order; `nextSeq` only grows, so a seq is never given out twice. */
  datatype Table<+B> = Table(rows: seq<OutRow<B>>, nextSeq: nat)

  predicate Pending<B>(t: Table<B>, kind: string, key: string) {
    exists i :: 0 <= i < |t.rows| && t.rows[i].kind == kind && t.rows[i].key == key
  }

  /** INSERT OR IGNORE on (kind, key): a pending key keeps its first blob. */
  function Enqueued<B>(t: Table<B>, kind: string, key: string, blob: B, at: int): Table<B> {
    if Pending(t, kind, key) then t
    else Table(t.rows + [OutRow(t.nextSeq, kind, key, blob, 0, at)], t.nextSeq + 1)
  }

  /** The first `limit` rows that are due, in seq order. */
  function Due<B>(rows: seq<OutRow<B>>, now: int, limit: nat): seq<OutRow<B>> {
    if rows == [] || limit == 0 then []
    else if rows[0].nextAttempt <= now then [rows[0]] + Due(rows[1..], now, limit - 1)
    else Due(rows[1..], now, limit)
  }

  function Acked<B>(rows: seq<OutRow<B>>, seqs: set<nat>): seq<OutRow<B>> {
    if rows == [] then []
    else if rows[0].seqNo in seqs then Acked(rows[1..], seqs)
    else [rows[0]] + Acked(rows[1..], seqs)
  }

  function Bumped<B>(rows: seq<OutRow<B>>, seqNo: nat, next: int): seq<OutRow<B>> {
    seq(|rows|, i requires 0 <= i < |rows| =>
      if rows[i].seqNo == seqNo then rows[i].(attempts := rows[i].attempts + 1, nextAttempt := next) else rows[i])
  }

  /** bumpAll: each row of a failed batch, in turn. `next` gives the retry time. */
  function BumpedAll<B>(rows: seq<OutRow<B>>, batch: seq<OutRow<B>>, next: nat -> int): seq<OutRow<B>>
    decreases |batch|
  {
    if batch == [] then rows
    else BumpedAll(Bumped(rows, batch[0].seqNo, next(batch[0].attempts + 1)), batch[1..], next)
  }

  /** keyToSeq as drainOnce builds it: the last row of a key wins. */
  function KeyToSeq<B>(batch: seq<OutRow<B>>): map<string, nat>
    decreases |batch|
  {
    if batch == [] then map[]
    else KeyToSeq(batch[..|batch| - 1])[batch[|batch| - 1].key := batch[|batch| - 1].seqNo]
  }

  function AckSeqs(keyToSeq: map<string, nat>, committed: seq<string>): set<nat> {
    set k | k in committed && k in keyToSeq :: keyToSeq[k]
  }

  function ToPush<B>(batch: seq<OutRow<B>>): (r: seq<Serve.PushRow<B>>)
    ensures |r| == |batch|
    ensures forall i :: 0 <= i < |r| ==> r[i] == Serve.PushRow(batch[i].key, batch[i].blob)
  {
    seq(|batch|, i requires 0 <= i < |batch| => Serve.PushRow(batch[i].key, batch[i].blob))
  }

  // --- facts about the table functions ---

  lemma {:induction false} DueIsFromTable<B>(rows: seq<OutRow<B>>, now: int, limit: nat)
    ensures forall r :: r in Due(rows, now, limit) ==> r in rows && r.nextAttempt <= now
    ensures |Due(rows, now, limit)| <= limit
  {
    if rows != [] && limit != 0 {
      DueIsFromTable(rows[1..], now, if rows[0].nextAttempt <= now then limit - 1 else limit);
    }
  }

  /** A due row is left out only when the batch is full of earlier ones. */
  lemma {:induction false} DueSkipsNone<B>(rows: seq<OutRow<B>>, now: int, limit: nat, i: nat)
    requires i < |rows| && rows[i].nextAttempt <= now && rows[i] !in Due(rows, now, limit)
    ensures |Due(rows, now, limit)| == limit
    ensures forall r :: r in Due(rows, now, limit) ==> r in rows[..i]
  {
    if limit != 0 {
      var rest := if rows[0].nextAttempt <= now then limit - 1 else limit;
      if i > 0 {
        DueSkipsNone(rows[1..], now, rest, i - 1);
        assert rows[..i] == [rows[0]] + rows[1..][..i - 1];
      }
    }
  }

  lemma {:induction false} AckedKeeps<B(!new)>(rows: seq<OutRow<B>>, seqs: set<nat>)
    ensures forall r :: r in Acked(rows, seqs) <==> r in rows && r.seqNo !in seqs
  {
    if rows != [] {
      AckedKeeps(rows[1..], seqs);
      forall r ensures r in Acked(rows, seqs) <==> r in rows && r.seqNo !in seqs {
        assert r in rows <==> r == rows[0] || r in rows[1..];
      }
    }
  }

  predicate SameRow<B(==)>(a: OutRow<B>, b: OutRow<B>) {
    a.seqNo == b.seqNo && a.kind == b.kind && a.key == b.key && a.blob == b.blob
  }

  /** Bumping moves retry times only. */
  lemma {:induction false} BumpedAllKeeps<B>(rows: seq<OutRow<B>>, batch: seq<OutRow<B>>, next: nat -> int)
    ensures |BumpedAll(rows, batch, next)| == |rows|
    ensures forall i :: 0 <= i < |rows| ==> SameRow(BumpedAll(rows, batch, next)[i], rows[i])
    decreases |batch|
  {
    if batch != [] {
      BumpedAllKeeps(Bumped(rows, batch[0].seqNo, next(batch[0].attempts + 1)), batch[1..], next);
    }
  }

  /** How many rows of the batch have this number. */
  function Times<B>(batch: seq<OutRow<B>>, seqNo: nat): nat
    decreases |batch|
  {
    if batch == [] then 0 else (if batch[0].seqNo == seqNo then 1 else 0) + Times(batch[1..], seqNo)
  }

  /** The row j of the batch is the last with this number. */
  ghost predicate LastWith<B>(batch: seq<OutRow<B>>, seqNo: nat, j: nat) {
    && j < |batch| && batch[j].seqNo == seqNo
    && (forall i :: j < i < |batch| ==> batch[i].seqNo != seqNo)
  }

  /** What a failed batch does to a row: one more attempt for each time the batch has it,
      and the retry time its last one there is given; nothing if it is not there. */
  ghost predicate Retried<B>(was: OutRow<B>, r: OutRow<B>, batch: seq<OutRow<B>>, next: nat -> int) {
    && SameRow(was, r) && r.attempts == was.attempts + Times(batch, was.seqNo)
    && (if Times(batch, was.seqNo) == 0 then r.nextAttempt == was.nextAttempt
        else exists j: nat :: LastWith(batch, was.seqNo, j) && r.nextAttempt == next(batch[j].attempts + 1))
  }

  ghost predicate AllRetried<B>(was: seq<OutRow<B>>, rows: seq<OutRow<B>>, batch: seq<OutRow<B>>, next: nat -> int) {
    |rows| == |was| && forall i {:trigger rows[i]} :: 0 <= i < |rows| ==> Retried(was[i], rows[i], batch, next)
  }

  lemma {:induction false} BumpedAllAre<B>(rows: seq<OutRow<B>>, batch: seq<OutRow<B>>, next: nat -> int)
    ensures AllRetried(rows, BumpedAll(rows, batch, next), batch, next)
    decreases |batch|
  {
    if batch != [] {
      var first := Bumped(rows, batch[0].seqNo, next(batch[0].attempts + 1));
      BumpedAllAre(first, batch[1..], next);
      var all := BumpedAll(rows, batch, next);
      forall i | 0 <= i < |rows| ensures Retried(rows[i], all[i], batch, next) {
        assert Retried(first[i], all[i], batch[1..], next);
        OneMoreRetried(rows[i], first[i], all[i], batch, next);
      }
    }
  }

  lemma {:induction false} OneMoreRetried<B>(was: OutRow<B>, mid: OutRow<B>, r: OutRow<B>, batch: seq<OutRow<B>>, next: nat -> int)
    requires batch != [] && Retried(mid, r, batch[1..], next)
    requires mid == if batch[0].seqNo == was.seqNo
                    then was.(attempts := was.attempts + 1, nextAttempt := next(batch[0].attempts + 1)) else was
    ensures Retried(was, r, batch, next)
  {
    if Times(batch[1..], was.seqNo) != 0 {
      var j: nat :| LastWith(batch[1..], was.seqNo, j) && r.nextAttempt == next(batch[1..][j].attempts + 1);
      assert batch[1..][j] == batch[j + 1];
      assert forall i :: j + 1 < i < |batch| ==> batch[i] == batch[1..][i - 1];
      assert LastWith(batch, was.seqNo, j + 1);
    } else if batch[0].seqNo == was.seqNo {
      NeverThere(batch[1..], was.seqNo);
      assert forall i :: 0 < i < |batch| ==> batch[i] == batch[1..][i - 1];
      assert LastWith(batch, was.seqNo, 0);
    }
  }

  lemma {:induction false} NeverThere<B>(batch: seq<OutRow<B>>, seqNo: nat)
    ensures Times(batch, seqNo) == 0 <==> forall i :: 0 <= i < |batch| ==> batch[i].seqNo != seqNo
    decreases |batch|
  {
    if batch != [] {
      NeverThere(batch[1..], seqNo);
      assert forall i :: 0 < i < |batch| ==> batch[i] == batch[1..][i - 1];
    }
  }

  ghost predicate SeqsDiffer<B>(rows: seq<OutRow<B>>) {
    forall i, j :: 0 <= i < j < |rows| ==> rows[i].seqNo != rows[j].seqNo
  }

  ghost predicate KeysDiffer<B>(rows: seq<OutRow<B>>) {
    forall i, j :: 0 <= i < j < |rows| ==> rows[i].key != rows[j].key
  }

  lemma {:induction false} OnlyOnce<B>(batch: seq<OutRow<B>>, j: nat)
    requires SeqsDiffer(batch) && j < |batch|
    ensures Times(batch, batch[j].seqNo) == 1
    decreases |batch|
  {
    if j == 0 {
      NeverThere(batch[1..], batch[0].seqNo);
    } else {
      OnlyOnce(batch[1..], j - 1);
    }
  }

  /** The batch is part of the table, in the table's order, each row once. */
  lemma {:induction false} DueInOrder<B>(rows: seq<OutRow<B>>, now: int, limit: nat) returns (at: seq<nat>)
    ensures |at| == |Due(rows, now, limit)|
    ensures forall j :: 0 <= j < |at| ==> at[j] < |rows| && Due(rows, now, limit)[j] == rows[at[j]]
    ensures forall i, j :: 0 <= i < j < |at| ==> at[i] < at[j]
  {
    if rows == [] || limit == 0 {
      at := [];
    } else {
      var due := rows[0].nextAttempt <= now;
      var rest := DueInOrder(rows[1..], now, if due then limit - 1 else limit);
      var moved := seq(|rest|, j requires 0 <= j < |rest| => rest[j] + 1);
      at := if due then [0] + moved else moved;
    }
  }

  lemma {:induction false} DueDiffer<B>(rows: seq<OutRow<B>>, now: int, limit: nat)
    ensures SeqsDiffer(rows) ==> SeqsDiffer(Due(rows, now, limit))
    ensures KeysDiffer(rows) ==> KeysDiffer(Due(rows, now, limit))
  {
    var at := DueInOrder(rows, now, limit);
  }

  /** After a failed batch the table has, row for row, one more attempt and a new due time
      for the rows of the batch, and the others as they were. */
  ghost predicate PutBack<B>(was: seq<OutRow<B>>, rows: seq<OutRow<B>>, batch: seq<OutRow<B>>, next: nat -> int) {
    && |rows| == |was|
    && forall i {:trigger rows[i]} :: 0 <= i < |rows| ==>
         rows[i] == if was[i] in batch then was[i].(attempts := was[i].attempts + 1, nextAttempt := next(was[i].attempts + 1)) else was[i]
  }

  lemma {:induction false} BatchPutBack<B>(was: seq<OutRow<B>>, rows: seq<OutRow<B>>, now: int, limit: nat, next: nat -> int)
    requires SeqsDiffer(was) && AllRetried(was, rows, Due(was, now, limit), next)
    ensures PutBack(was, rows, Due(was, now, limit), next)
  {
    var batch := Due(was, now, limit);
    DueIsFromTable(was, now, limit);
    DueDiffer(was, now, limit);
    forall i | 0 <= i < |rows|
      ensures rows[i] ==
              if was[i] in batch then was[i].(attempts := was[i].attempts + 1, nextAttempt := next(was[i].attempts + 1)) else was[i]
    {
      assert Retried(was[i], rows[i], batch, next);
      RowPutBack(was, rows[i], batch, next, i);
    }
  }

  lemma {:induction false} RowPutBack<B>(was: seq<OutRow<B>>, r: OutRow<B>, batch: seq<OutRow<B>>, next: nat -> int, i: nat)
    requires i < |was| && SeqsDiffer(was) && SeqsDiffer(batch) && Retried(was[i], r, batch, next)
    requires forall b :: b in batch ==> b in was
    ensures r == if was[i] in batch then was[i].(attempts := was[i].attempts + 1, nextAttempt := next(was[i].attempts + 1)) else was[i]
  {
    if was[i] in batch {
      var j :| 0 <= j < |batch| && batch[j] == was[i];
      OnlyOnce(batch, j);
      var k: nat :| LastWith(batch, was[i].seqNo, k) && r.nextAttempt == next(batch[k].attempts + 1);
      assert k == j;
    } else {
      NeverThere(batch, was[i].seqNo);
      forall j | 0 <= j < |batch| ensures batch[j].seqNo != was[i].seqNo {
        assert batch[j] in batch;
        var k :| 0 <= k < |was| && was[k] == batch[j];
        assert k != i;
      }
    }
  }

  /** The retry times of these rows are after now. */
  ghost predicate StillToCome<B>(batch: seq<OutRow<B>>, next: nat -> int, now: int) {
    forall i :: 0 <= i < |batch| ==> next(batch[i].attempts + 1) > now
  }

  /** With retry times still to come nothing of a failed batch is due again yet. */
  lemma {:induction false} NotDueYet<B>(was: seq<OutRow<B>>, rows: seq<OutRow<B>>, batch: seq<OutRow<B>>,
          next: nat -> int, now: int, limit: nat)
    requires AllRetried(was, rows, batch, next) && StillToCome(batch, next, now)
    ensures forall r :: r in Due(rows, now, limit) ==> Times(batch, r.seqNo) == 0
  {
    DueIsFromTable(rows, now, limit);
    forall r | r in Due(rows, now, limit) ensures Times(batch, r.seqNo) == 0 {
      var i :| 0 <= i < |rows| && rows[i] == r;
      assert Retried(was[i], rows[i], batch, next);
    }
  }

  ghost predicate NoneDue<B>(rows: seq<OutRow<B>>, batch: seq<OutRow<B>>, now: int) {
    forall limit: nat, i {:trigger Due(rows, now, limit)[i]} ::
      0 <= i < |Due(rows, now, limit)| ==> Times(batch, Due(rows, now, limit)[i].seqNo) == 0
  }

  ghost predicate Gone<B>(was: seq<OutRow<B>>, rows: seq<OutRow<B>>, batch: seq<OutRow<B>>) {
    && (forall i :: 0 <= i < |rows| ==> rows[i] in was && rows[i] !in batch)
    && (forall i :: 0 <= i < |was| && was[i] !in batch ==> was[i] in rows)
  }

  /** What a drain of this batch leaves: a table with the batch gone, or put back and not
      due yet. */
  ghost predicate Drained<B>(was: seq<OutRow<B>>, rows: seq<OutRow<B>>, batch: seq<OutRow<B>>, ok: bool,
                             next: nat -> int, now: int) {
    && (ok && SeqsDiffer(was) && KeysDiffer(was) ==> Gone(was, rows, batch))
    && (!ok && SeqsDiffer(was) ==> PutBack(was, rows, batch, next))
    && (!ok && StillToCome(batch, next, now) ==> NoneDue(rows, batch, now))
  }

  lemma {:induction false} AckedDrains<B(!new)>(was: seq<OutRow<B>>, now: int, limit: nat, next: nat -> int)
    ensures var batch := Due(was, now, limit);
            Drained(was, Acked(was, AckSeqs(KeyToSeq(batch), Serve.KeysOf(ToPush(batch)))), batch, true, next, now)
  {
    if SeqsDiffer(was) && KeysDiffer(was) {
      BatchGone(was, now, limit);
    }
  }

  lemma {:induction false} FailedDrains<B>(was: seq<OutRow<B>>, rows: seq<OutRow<B>>, now: int, limit: nat, next: nat -> int)
    requires AllRetried(was, rows, Due(was, now, limit), next)
    ensures Drained(was, rows, Due(was, now, limit), false, next, now)
  {
    hide Due, AllRetried, Times, PutBack;
    if SeqsDiffer(was) {
      BatchPutBack(was, rows, now, limit, next);
    }
    if StillToCome(Due(was, now, limit), next, now) {
      forall some: nat, i | 0 <= i < |Due(rows, now, some)|
        ensures Times(Due(was, now, limit), Due(rows, now, some)[i].seqNo) == 0
      {
        NotDueYet(was, rows, Due(was, now, limit), next, now, some);
      }
    }
  }

  lemma {:induction false} NothingDrained<B>(was: seq<OutRow<B>>, next: nat -> int, now: int)
    ensures Drained(was, was, [], true, next, now)
  {
  }

  /** Acknowledging a whole batch takes it out, and nothing else. */
  lemma {:induction false} BatchGone<B(!new)>(was: seq<OutRow<B>>, now: int, limit: nat)
    requires SeqsDiffer(was) && KeysDiffer(was)
    ensures var batch := Due(was, now, limit);
            Gone(was, Acked(was, AckSeqs(KeyToSeq(batch), Serve.KeysOf(ToPush(batch)))), batch)
  {
    var batch := Due(was, now, limit);
    DueIsFromTable(was, now, limit);
    DueDiffer(was, now, limit);
    KeyToSeqIsFromBatch(batch);
    var seqs := AckSeqs(KeyToSeq(batch), Serve.KeysOf(ToPush(batch)));
    var rows := Acked(was, seqs);
    AckedKeeps(was, seqs);
    hide Due, Acked, AckSeqs, KeyToSeq, SeqsDiffer, KeysDiffer;
    forall i | 0 <= i < |was| ensures was[i] in rows <==> was[i] !in batch {
      SeqOfBatch(was, batch, was[i]);
    }
    forall i | 0 <= i < |rows| ensures rows[i] in was && rows[i] !in batch {
      assert rows[i] in rows;
      SeqOfBatch(was, batch, rows[i]);
    }
  }

  lemma {:induction false} SeqOfBatch<B>(was: seq<OutRow<B>>, batch: seq<OutRow<B>>, r: OutRow<B>)
    requires SeqsDiffer(was) && KeysDiffer(batch) && r in was && forall b :: b in batch ==> b in was
    ensures r.seqNo in AckSeqs(KeyToSeq(batch), Serve.KeysOf(ToPush(batch))) <==> r in batch
  {
    var keys := Serve.KeysOf(ToPush(batch));
    KeyToSeqIsFromBatch(batch);
    if r in batch {
      var j :| 0 <= j < |batch| && batch[j] == r;
      assert keys[j] == r.key;
      var i :| 0 <= i < |batch| && batch[i].key == r.key && batch[i].seqNo == KeyToSeq(batch)[r.key];
      assert i == j;
    }
    if r.seqNo in AckSeqs(KeyToSeq(batch), keys) {
      var k :| k in keys && k in KeyToSeq(batch) && KeyToSeq(batch)[k] == r.seqNo;
      var i :| 0 <= i < |batch| && batch[i].key == k && batch[i].seqNo == KeyToSeq(batch)[k];
      assert batch[i] in was;
      var a :| 0 <= a < |was| && was[a] == batch[i];
      var b :| 0 <= b < |was| && was[b] == r;
      assert a == b;
    }
  }

  lemma {:induction false} KeyToSeqIsFromBatch<B>(batch: seq<OutRow<B>>)
    ensures forall k :: k in KeyToSeq(batch) <==> exists i :: 0 <= i < |batch| && batch[i].key == k
    ensures forall k :: k in KeyToSeq(batch) ==>
              exists i :: 0 <= i < |batch| && batch[i].key == k && batch[i].seqNo == KeyToSeq(batch)[k]
    decreases |batch|
  {
    if batch != [] {
      var init := batch[..|batch| - 1];
      KeyToSeqIsFromBatch(init);
      forall k | k in KeyToSeq(batch)
        ensures exists i :: 0 <= i < |batch| && batch[i].key == k && batch[i].seqNo == KeyToSeq(batch)[k]
      {
        if k == batch[|batch| - 1].key {
          assert batch[|batch| - 1].seqNo == KeyToSeq(batch)[k];
        } else {
          assert k in KeyToSeq(init);
          var i :| 0 <= i < |init| && init[i].key == k && init[i].seqNo == KeyToSeq(init)[k];
          assert batch[i] == init[i];
        }
      }
      forall k | exists i :: 0 <= i < |batch| && batch[i].key == k ensures k in KeyToSeq(batch) {
        var i :| 0 <= i < |batch| && batch[i].key == k;
        if i < |batch| - 1 {
          assert init[i].key == k;
        }
      }
    }
  }

  // --- the table as an object ---

  class OutboxStore<B(==)> {
    var table: Table<B>

    constructor ()
      ensures table == Table([], 0)
    {
      table := Table([], 0);
    }

    method Enqueue(kind: string, key: string, blob: B, at: int)
      modifies this
      ensures table == Enqueued(old(table), kind, key, blob, at)
      ensures (exists r :: r in old(table).rows && r.kind == kind && r.key == key) ==> table == old(table)
      ensures (forall r :: r in old(table).rows ==> !(r.kind == kind && r.key == key)) ==>
                && |table.rows| == |old(table).rows| + 1 && table.rows[..|old(table).rows|] == old(table).rows
                && table.nextSeq == old(table).nextSeq + 1
                && var r := table.rows[|old(table).rows|];
                   && r.seqNo == old(table).nextSeq && r.kind == kind && r.key == key && r.blob == blob
                   && r.attempts == 0 && r.nextAttempt == at
    {
      for i := 0 to |table.rows|
        invariant table == old(table)
        invariant forall j :: 0 <= j < i ==> !(table.rows[j].kind == kind && table.rows[j].key == key)
      {
        if table.rows[i].kind == kind && table.rows[i].key == key {
          return;
        }
      }
      table := Table(table.rows + [OutRow(table.nextSeq, kind, key, blob, 0, at)], table.nextSeq + 1);
    }

    method Dequeue(batchSize: int, now: int) returns (batch: seq<OutRow<B>>)
      ensures batch == Due(table.rows, now, if batchSize <= 0 then 100 else batchSize)
    {
      var limit := if batchSize <= 0 then 100 else batchSize;
      batch := [];
      var i := 0;
      while i < |table.rows| && |batch| < limit
        invariant 0 <= i <= |table.rows| && |batch| <= limit
        invariant batch + Due(table.rows[i..], now, limit - |batch|) == Due(table.rows, now, limit)
      {
        assert table.rows[i..][1..] == table.rows[i + 1..];
        if table.rows[i].nextAttempt <= now {
          assert batch + ([table.rows[i]] + Due(table.rows[i + 1..], now, limit - |batch| - 1)) ==
                 (batch + [table.rows[i]]) + Due(table.rows[i + 1..], now, limit - |batch| - 1);
          batch := batch + [table.rows[i]];
        }
        i := i + 1;
      }
    }

    method Ack(seqs: set<nat>)
      modifies this
      ensures table == old(table).(rows := Acked(old(table).rows, seqs))
    {
      var kept: seq<OutRow<B>> := [];
      var i := 0;
      while i < |table.rows|
        invariant 0 <= i <= |table.rows| && table == old(table)
        invariant kept + Acked(table.rows[i..], seqs) == Acked(table.rows, seqs)
      {
        assert table.rows[i..][1..] == table.rows[i + 1..];
        if table.rows[i].seqNo !in seqs {
          assert kept + ([table.rows[i]] + Acked(table.rows[i + 1..], seqs)) ==
                 (kept + [table.rows[i]]) + Acked(table.rows[i + 1..], seqs);
          kept := kept + [table.rows[i]];
        }
        i := i + 1;
      }
      table := table.(rows := kept);
    }

    method BumpAll(batch: seq<OutRow<B>>, next: nat -> int)
      modifies this
      ensures table == old(table).(rows := BumpedAll(old(table).rows, batch, next))
      ensures AllRetried(old(table).rows, table.rows, batch, next)
    {
      BumpedAllAre(table.rows, batch, next);
      var i := 0;
      while i < |batch|
        invariant 0 <= i <= |batch| && table.nextSeq == old(table).nextSeq
        invariant BumpedAll(table.rows, batch[i..], next) == BumpedAll(old(table).rows, batch, next)
      {
        assert batch[i..][1..] == batch[i + 1..];
        table := table.(rows := Bumped(table.rows, batch[i].seqNo, next(batch[i].attempts + 1)));
        i := i + 1;
      }
    }
  }

  /** What the network does with one push: it is lost before the server, the server
      handles it (failing at row `stop`, if ever) but the reply is lost, or the
      reply arrives. */
  datatype Fate = NeverSent | ReplyLost(stop: nat) | ReplyArrives(stop: nat)

  method ToSeqs<B>(batch: seq<OutRow<B>>, committed: seq<string>) returns (seqs: set<nat>)
    ensures seqs == AckSeqs(KeyToSeq(batch), committed)
  {
    var keyToSeq: map<string, nat> := map[];
    for i := 0 to |batch|
      invariant keyToSeq == KeyToSeq(batch[..i])
    {
      assert batch[..i + 1][..i] == batch[..i];
      keyToSeq := keyToSeq[batch[i].key := batch[i].seqNo];
    }
    assert batch[..|batch|] == batch;
    seqs := {};
    for i := 0 to |committed|
      invariant seqs == AckSeqs(keyToSeq, committed[..i])
    {
      assert committed[..i + 1] == committed[..i] + [committed[i]];
      if committed[i] in keyToSeq {
        seqs := seqs + {keyToSeq[committed[i]]};
      }
    }
    assert committed[..|committed|] == committed;
  }

  /** One drain. The table afterwards is the acknowledged rows gone, or every row of
      the batch with one more attempt and its next time; the server holds the rows it
      wrote either way. With retry times still to come a failed batch is not due again. */
  method DrainOnce<B(!new)>(outbox: OutboxStore<B>, server: Serve.Server<B>, brain: string,
                      batchSize: int, now: int, next: nat -> int, fate: Fate) returns (ok: bool)
    requires server.Valid()
    modifies outbox, server.backend, server.hub
    ensures server.Valid()
    ensures var batch := Due(old(outbox.table).rows, now, if batchSize <= 0 then 100 else batchSize);
            var written := if fate.NeverSent? then 0 else Serve.Written(brain, ToPush(batch), fate.stop);
            && server.backend.blobs == Serve.PutRows(old(server.backend.blobs), brain, ToPush(batch)[..written])
            && (ok <==> batch == [] || (fate.ReplyArrives? && written == |batch|))
            && outbox.table == old(outbox.table).(rows :=
                 if batch == [] then old(outbox.table).rows
                 else if ok then Acked(old(outbox.table).rows, AckSeqs(KeyToSeq(batch), Serve.KeysOf(ToPush(batch))))
                 else BumpedAll(old(outbox.table).rows, batch, next))
            && Drained(old(outbox.table).rows, outbox.table.rows, batch, ok, next, now)
  {
    ghost var was, limit := outbox.table.rows, if batchSize <= 0 then 100 else batchSize;
    hide Due, Acked, BumpedAll, AllRetried, Drained, KeyToSeq, AckSeqs, Serve.PutRows, Serve.Written;
    var batch := outbox.Dequeue(batchSize, now);
    NothingDrained(was, next, now);
    if |batch| == 0 {
      return true;
    }
    var reply := Serve.PushReply(0, []);
    if !fate.NeverSent? {
      reply := server.HandlePush(brain, ToPush(batch), fate.stop);
    }
    if !fate.ReplyArrives? || reply.status != 200 {
      outbox.BumpAll(batch, next);
      FailedDrains(was, outbox.table.rows, now, limit, next);
      return false;
    }
    AckedDrains(was, now, limit, next);
    var seqs := ToSeqs(batch, reply.committed);
    outbox.Ack(seqs);
    return true;
  }
}
