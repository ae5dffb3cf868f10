/** What a reconnect catches up on. The client moves its cursor to every row it ingests
    and asks after it when it connects again: `since` is the key it ingested last. Of the
    rows published before, those a full queue refused among them, it is sent the ones whose
    key sorts after that, and no others. */
module SseResume {
  import opened Lex
  import opened Tenancy
  import opened Fanout
  import opened SseRun

  /** Rows of the log are published once. */
  ghost predicate PublishedOnce(s: State) {
    forall i :: i in s.unpublished ==> i !in s.published
  }

  /** What the connection has for a key at or before its cursor can only be news. */
  ghost predicate OnlyAfter(s: State, c: Conn) {
    && AtMost(c.since, c.cursor)
    && (forall k :: k in c.page ==> Less(c.since, k))
    && (forall j :: j in c.sent ==> j < |s.log| && (Less(c.since, s.log[j].key) || News(s, c, j)))
    && (c.chan in s.hub.queues ==> forall j :: j in s.hub.queues[c.chan] ==> News(s, c, j))
  }

  /** Published since the connection subscribed. */
  ghost predicate News(s: State, c: Conn, j: nat) {
    j in s.published && j !in c.before
  }

  ghost predicate ResumeInv(s: State) {
    PublishedOnce(s) && forall id {:trigger OnlyAfter(s, s.conns[id])} :: id in s.conns ==> OnlyAfter(s, s.conns[id])
  }

  lemma {:induction false} KeepsOnlyAfter(s: State, s': State, c: Conn, c': Conn)
    requires OnlyAfter(s, c) && s.log <= s'.log && s.published <= s'.published
    requires c' == c.(lost := c'.lost, live := c'.live, done := c'.done, unread := c'.unread)
    requires c.chan in s'.hub.queues ==>
               forall j :: j in s'.hub.queues[c.chan] ==> News(s', c, j) || (c.chan in s.hub.queues && j in s.hub.queues[c.chan])
    ensures OnlyAfter(s', c')
  {
    forall j | j in c.sent ensures j < |s'.log| && (Less(c.since, s'.log[j].key) || News(s', c', j)) {
      assert s'.log[j] == s.log[j];
      assert News(s, c, j) ==> News(s', c', j);
    }
    if c.chan in s'.hub.queues {
      forall j | j in s'.hub.queues[c.chan] ensures News(s', c', j) {
        assert c.chan in s.hub.queues && j in s.hub.queues[c.chan] ==> News(s, c, j);
      }
    }
  }

  lemma {:induction false} PutKeeps(single: bool, s: State, step: Step)
    requires Inv(single, s) && ResumeInv(s) && step.PutRow? && Enabled(single, s, step)
    ensures ResumeInv(Next(single, s, step))
  {
    var s' := Next(single, s, step);
    forall id | id in s'.conns ensures OnlyAfter(s', s'.conns[id]) {
      assert OnlyAfter(s, s.conns[id]);
      KeepsOnlyAfter(s, s', s.conns[id], s'.conns[id]);
    }
  }

  lemma {:induction false} NotifyKeeps(single: bool, s: State, step: Step)
    requires Inv(single, s) && ResumeInv(s) && step.Notify? && Enabled(single, s, step)
    ensures ResumeInv(Next(single, s, step))
  {
    var s' := Next(single, s, step);
    forall id | id in s'.conns ensures OnlyAfter(s', s'.conns[id]) {
      assert OnlyAfter(s, s.conns[id]) && ConnOk(single, s, s.conns[id]);
      KeepsOnlyAfter(s, s', s.conns[id], s'.conns[id]);
    }
  }

  lemma {:induction false} OpenKeeps(single: bool, s: State, step: Step)
    requires Inv(single, s) && ResumeInv(s) && step.Open? && Enabled(single, s, step)
    ensures ResumeInv(Next(single, s, step))
  {
    var s' := Next(single, s, step);
    forall id | id in s'.conns ensures OnlyAfter(s', s'.conns[id]) {
      if id != step.id {
        assert OnlyAfter(s, s.conns[id]) && ConnOk(single, s, s.conns[id]);
        KeepsOnlyAfter(s, s', s.conns[id], s'.conns[id]);
      }
    }
  }

  /** The connection a step works on; the others see no more in their queues. */
  lemma {:induction false} OneConnKeeps(s: State, s': State, id: nat)
    requires ResumeInv(s) && s' == s.(hub := s'.hub, conns := s'.conns)
    requires id in s'.conns ==> OnlyAfter(s', s'.conns[id])
    requires forall other :: other in s'.conns && other != id ==> other in s.conns && s'.conns[other] == s.conns[other]
    requires forall ch :: ch in s'.hub.queues ==>
               ch in s.hub.queues && forall j :: j in s'.hub.queues[ch] ==> j in s.hub.queues[ch]
    ensures ResumeInv(s')
  {
    forall other | other in s'.conns ensures OnlyAfter(s', s'.conns[other]) {
      if other != id {
        assert OnlyAfter(s, s.conns[other]);
        KeepsOnlyAfter(s, s', s.conns[other], s'.conns[other]);
      }
    }
  }

  lemma {:induction false} ListKeeps(single: bool, s: State, step: Step)
    requires Inv(single, s) && ResumeInv(s) && step.ListPage? && Enabled(single, s, step)
    ensures ResumeInv(Next(single, s, step))
  {
    var s' := Next(single, s, step);
    var c, c' := s.conns[step.id], s'.conns[step.id];
    assert OnlyAfter(s, c);
    forall k | k in c'.page ensures Less(c'.since, k) {
      if c.since != c.cursor {
        LessTransitive(c.since, c.cursor, k);
      }
    }
    SameNews(s, s', c, c');
    OneConnKeeps(s, s', step.id);
  }

  lemma {:induction false} SameNews(s: State, s': State, c: Conn, c': Conn)
    requires OnlyAfter(s, c) && s' == s.(conns := s'.conns)
    requires c' == c.(page := c'.page, done := c'.done) && forall k :: k in c'.page ==> Less(c.since, k)
    ensures OnlyAfter(s', c')
  {
    forall j | j in c.sent ensures j < |s'.log| && (Less(c.since, s'.log[j].key) || News(s', c', j)) {
      assert News(s, c, j) ==> News(s', c', j);
    }
    if c.chan in s.hub.queues {
      forall j | j in s.hub.queues[c.chan] ensures News(s', c', j) {
        assert News(s, c, j);
      }
    }
  }

  lemma {:induction false} HeadKeeps(single: bool, s: State, step: Step)
    requires Inv(single, s) && ResumeInv(s) && (step.SendRow? || step.SkipRow?) && Enabled(single, s, step)
    ensures ResumeInv(Next(single, s, step))
  {
    var s' := Next(single, s, step);
    var c, c' := s.conns[step.id], s'.conns[step.id];
    assert OnlyAfter(s, c) && c.page[0] in c.page && forall k :: k in c.page[1..] ==> k in c.page;
    forall j | j in c'.sent ensures j < |s'.log| && (Less(c.since, s'.log[j].key) || News(s', c', j)) {
      if j in c.sent {
        assert News(s, c, j) ==> News(s', c', j);
      } else {
        assert s.log[s.store[c.page[0]]].key == c.page[0];
      }
    }
    if c.chan in s.hub.queues {
      forall j | j in s.hub.queues[c.chan] ensures News(s', c', j) {
        assert News(s, c, j);
      }
    }
    OneConnKeeps(s, s', step.id);
  }

  lemma {:induction false} LiveKeeps(single: bool, s: State, step: Step)
    requires Inv(single, s) && ResumeInv(s) && (step.GoLive? || step.Deliver? || step.Close?) && Enabled(single, s, step)
    ensures ResumeInv(Next(single, s, step))
  {
    var s' := Next(single, s, step);
    var c := s.conns[step.id];
    assert OnlyAfter(s, c) && ConnOk(single, s, c);
    if !step.Close? {
      var c' := s'.conns[step.id];
      forall j | j in c'.sent ensures j < |s'.log| && (Less(c.since, s'.log[j].key) || News(s', c', j)) {
        if j in c.sent {
          assert News(s, c, j) ==> News(s', c', j);
        } else {
          assert j in s.hub.queues[c.chan] && News(s, c, j);
        }
      }
      if c.chan in s'.hub.queues {
        forall j | j in s'.hub.queues[c.chan] ensures News(s', c', j) {
          assert j in s.hub.queues[c.chan] && News(s, c, j);
        }
      }
    }
    OneConnKeeps(s, s', step.id);
  }

  lemma {:induction false} StepKeepsResume(single: bool, s: State, step: Step)
    requires Inv(single, s) && ResumeInv(s) && Enabled(single, s, step)
    ensures ResumeInv(Next(single, s, step))
  {
    match step
    case PutRow(_, _, _) => PutKeeps(single, s, step);
    case Notify(_) => NotifyKeeps(single, s, step);
    case Open(_, _, _) => OpenKeeps(single, s, step);
    case ListPage(_, _, _) => ListKeeps(single, s, step);
    case SendRow(_) => HeadKeeps(single, s, step);
    case SkipRow(_) => HeadKeeps(single, s, step);
    case GoLive(_) => LiveKeeps(single, s, step);
    case Deliver(_) => LiveKeeps(single, s, step);
    case Close(_) => LiveKeeps(single, s, step);
  }

  lemma {:induction false} RunKeepsResume(single: bool, run: seq<State>, i: nat)
    requires IsRun(single, run) && i < |run|
    ensures Inv(single, run[i]) && ResumeInv(run[i])
  {
    RunKeepsInv(single, run, i);
    if i > 0 {
      hide Inv, ResumeInv, Next, Enabled;
      RunKeepsResume(single, run, i - 1);
      var step :| Steps(single, run[i - 1], step, run[i]);
      StepKeepsResume(single, run[i - 1], step);
    }
  }

  /** A row published before this connection subscribed (refused by the full queue of an
      earlier one, say), with no news of its key since: once the backlog has ended it has
      been sent exactly when its key sorts after the cursor asked with, unless its stored
      blob could not be read. */
  lemma {:induction false} CaughtUpIff(single: bool, run: seq<State>, i: nat, id: nat, row: nat)
    requires IsRun(single, run) && i < |run| && id in run[i].conns && run[i].conns[id].live
    requires row in run[i].conns[id].before && row < |run[i].log|
    requires run[i].log[row].brain == run[i].conns[id].brain
    requires run[i].log[row].key !in run[i].conns[id].unread
    requires forall j: nat :: News(run[i], run[i].conns[id], j) && j < |run[i].log| ==> run[i].log[j].key != run[i].log[row].key
    ensures SentFresh(run[i].log, run[i].conns[id], row) <==> Less(run[i].conns[id].since, run[i].log[row].key)
  {
    RunKeepsResume(single, run, i);
    var s := run[i];
    var c := s.conns[id];
    assert ConnOk(single, s, c) && OnlyAfter(s, c);
    assert Reached(s.log, c, row);
    if SentFresh(s.log, c, row) {
      var j :| j in c.sent && row <= j < |s.log| && s.log[j].key == s.log[row].key;
    }
  }
}
