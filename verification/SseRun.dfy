/** The live stream of memory rows: subscribe, replay the backlog page by page, then
    forward what the hub delivers. Pushes of every brain go on meanwhile; storing a
    row and publishing it are two steps. */
module SseRun {
  import opened Lex
  import opened Tenancy
  import opened Fanout
  import Serve

  const BACKLOG_PAGE: nat := 500

  /** One row a push wrote. Rows are referred to by their place in the log. */
  datatype LogRow = LogRow(brain: string, key: string, blob: string)

  /** A connection. `since` and `cursor` are stored keys. `sent` holds what went down
      the stream, `unread` the backlog keys whose blob could not be read, `lost` the
      rows a full queue refused with the queue length at that moment, and `before`
      what had been published when it subscribed. */
  datatype Conn = Conn(
    brain: string, since: string, chan: nat,
    cursor: string, page: seq<string>, done: bool, live: bool,
    sent: set<nat>, unread: set<string>, lost: map<nat, nat>, before: set<nat>)

  datatype State = State(
    log: seq<LogRow>,
    store: map<string, nat>,
    unpublished: set<nat>,
    published: set<nat>,
    hub: HubState<nat>,
    conns: map<nat, Conn>)

  datatype Step =
    | PutRow(brain: string, key: string, blob: string)
    | Notify(row: nat)
    | Open(id: nat, brain: string, since: string)
    | ListPage(id: nat, page: seq<string>, next: string)
    | SendRow(id: nat)
    | SkipRow(id: nat)
    | GoLive(id: nat)
    | Deliver(id: nat)
    | Close(id: nat)

  ghost function Listed(s: State, c: Conn): set<string> {
    set k | k in s.store && ScopePrefix(c.brain, "memory") + "/" <= k
  }

  ghost predicate Enabled(single: bool, s: State, step: Step) {
    match step
    case PutRow(brain, key, blob) => BrainId(single, brain) && Serve.PushAccepts(brain, Serve.PushRow(key, blob))
    case Notify(row) => row in s.unpublished && row < |s.log|
    case Open(id, brain, _) => id !in s.conns && BrainId(single, brain)
    case ListPage(id, page, next) =>
      id in s.conns && !s.conns[id].live && !s.conns[id].done && s.conns[id].page == [] &&
      IsPage(Listed(s, s.conns[id]), s.conns[id].cursor, BACKLOG_PAGE, page, next)
    case SendRow(id) => id in s.conns && s.conns[id].page != [] && s.conns[id].page[0] in s.store
    case SkipRow(id) => id in s.conns && s.conns[id].page != []
    case GoLive(id) => id in s.conns && s.conns[id].page == [] && s.conns[id].done
    case Deliver(id) =>
      id in s.conns && s.conns[id].live && s.conns[id].chan in s.hub.queues && s.hub.queues[s.conns[id].chan] != []
    case Close(id) => id in s.conns
  }

  function AfterNotify(s: State, row: nat, c: Conn): Conn
    requires row < |s.log|
  {
    if c.chan in s.hub.queues && c.chan in s.hub.Subscribers(s.log[row].brain) &&
       |s.hub.queues[c.chan]| == FANOUT_BUFFER
    then c.(lost := c.lost[row := |s.hub.queues[c.chan]|]) else c
  }

  ghost function Next(single: bool, s: State, step: Step): State
    requires Enabled(single, s, step)
  {
    match step
    case PutRow(brain, key, blob) =>
      s.(log := s.log + [LogRow(brain, ScopeKey(brain, key), blob)],
         store := s.store[ScopeKey(brain, key) := |s.log|],
         unpublished := if OfKind("memory", key) then s.unpublished + {|s.log|} else s.unpublished)
    case Notify(row) =>
      s.(unpublished := s.unpublished - {row},
         published := s.published + {row},
         hub := s.hub.Publish(s.log[row].brain, row),
         conns := map id | id in s.conns :: AfterNotify(s, row, s.conns[id]))
    case Open(id, brain, since) =>
      s.(hub := s.hub.Subscribe(brain),
         conns := s.conns[id := Conn(brain, ScopeCursor(brain, since), s.hub.nextChan,
                                     ScopeCursor(brain, since), [], false, false, {}, {}, map[], s.published)])
    case ListPage(id, page, next) =>
      s.(conns := s.conns[id := s.conns[id].(page := page, done := next == "" || page == [])])
    case SendRow(id) =>
      var c := s.conns[id];
      s.(conns := s.conns[id := c.(page := c.page[1..], cursor := c.page[0], sent := c.sent + {s.store[c.page[0]]})])
    case SkipRow(id) =>
      var c := s.conns[id];
      s.(conns := s.conns[id := c.(page := c.page[1..], unread := c.unread + {c.page[0]})])
    case GoLive(id) => s.(conns := s.conns[id := s.conns[id].(live := true)])
    case Deliver(id) =>
      var c := s.conns[id];
      s.(hub := s.hub.Receive(c.chan), conns := s.conns[id := c.(sent := c.sent + {s.hub.queues[c.chan][0]})])
    case Close(id) =>
      s.(hub := s.hub.Cancel(s.conns[id].brain, s.conns[id].chan), conns := s.conns - {id})
  }

  const Initial := State([], map[], {}, {}, HubState(map[], map[], 0), map[])

  ghost predicate Steps(single: bool, s: State, step: Step, s': State) {
    Enabled(single, s, step) && s' == Next(single, s, step)
  }

  ghost predicate CanStep(single: bool, s: State, s': State) {
    exists step :: Steps(single, s, step, s')
  }

  ghost predicate IsRun(single: bool, run: seq<State>) {
    run != [] && run[0] == Initial && forall i :: 0 < i < |run| ==> CanStep(single, run[i - 1], run[i])
  }

  // --- the invariant ---

  ghost predicate UnderBrain(brain: string, k: string) {
    ScopePrefix(brain, "memory") + "/" <= k
  }

  /** A written row carries its brain's prefix. */
  ghost predicate RowOk(single: bool, row: LogRow) {
    BrainId(single, row.brain) && row.key == ScopeKey(row.brain, UnscopeKey(row.brain, row.key))
  }

  /** The store points every key at the latest row written for it. */
  ghost predicate StoreOk(single: bool, s: State) {
    && (forall i {:trigger RowOk(single, s.log[i])} :: 0 <= i < |s.log| ==> RowOk(single, s.log[i]))
    && (forall i :: 0 <= i < |s.log| ==> s.log[i].key in s.store && i <= s.store[s.log[i].key])
    && (forall k :: k in s.store ==> s.store[k] < |s.log| && s.log[s.store[k]].key == k)
    && (forall i :: i in s.unpublished ==> i < |s.log| && UnderBrain(s.log[i].brain, s.log[i].key))
    && (forall i :: i in s.published ==> i < |s.log| && UnderBrain(s.log[i].brain, s.log[i].key))
  }

  ghost predicate SameQueue(h: HubState<nat>, h': HubState<nat>, ch: nat) {
    ch in h.queues && ch in h'.queues && h'.queues[ch] == h.queues[ch]
  }

  ghost predicate Listening(h: HubState<nat>, c: Conn) {
    c.chan in h.queues && c.chan in h.Subscribers(c.brain)
  }

  /** Connections and hub agree on who listens where. */
  ghost predicate Wired(s: State) {
    && s.hub.Valid()
    && (forall id {:trigger Listening(s.hub, s.conns[id])} :: id in s.conns ==> Listening(s.hub, s.conns[id]))
    && (forall a, b :: a in s.conns && b in s.conns && a != b ==> s.conns[a].chan != s.conns[b].chan)
  }

  /** Row `i` or a newer row for its key has been sent. */
  ghost predicate SentFresh(log: seq<LogRow>, c: Conn, i: nat)
    requires i < |log|
  {
    exists j :: j in c.sent && i <= j < |log| && log[j].key == log[i].key
  }

  /** The backlog has not passed this key yet. */
  ghost predicate Ahead(c: Conn, k: string) {
    k in c.page || (!c.done && Less(c.cursor, k) && (c.page != [] ==> Less(c.page[|c.page| - 1], k)))
  }

  /** What the backlog owes a row published before the connection subscribed. */
  ghost predicate Reached(log: seq<LogRow>, c: Conn, i: nat) {
    i < |log| && (log[i].brain == c.brain && Less(c.since, log[i].key) ==>
                    SentFresh(log, c, i) || log[i].key in c.unread || Ahead(c, log[i].key))
  }

  ghost predicate PageOk(s: State, c: Conn) {
    && Ascending(c.page)
    && (forall k :: k in c.page ==> k in s.store && UnderBrain(c.brain, k))
    && (c.live ==> c.page == [] && c.done)
  }

  ghost predicate LiveOk(log: seq<LogRow>, published: set<nat>, queue: seq<nat>, c: Conn) {
    && (forall i :: i in published && i !in c.before && i < |log| && log[i].brain == c.brain ==>
          i in c.sent || i in queue || i in c.lost)
    && (forall i :: i in c.lost ==> c.lost[i] == FANOUT_BUFFER)
    && (forall i :: i in c.sent || i in queue ==> i < |log| && log[i].brain == c.brain)
  }

  ghost predicate ConnOk(single: bool, s: State, c: Conn) {
    && BrainId(single, c.brain)
    && c.chan in s.hub.queues
    && c.before <= s.published
    && PageOk(s, c)
    && (forall i :: i in c.before ==> Reached(s.log, c, i))
    && LiveOk(s.log, s.published, s.hub.queues[c.chan], c)
  }

  ghost predicate Inv(single: bool, s: State) {
    && StoreOk(single, s) && Wired(s)
    && forall id {:trigger ConnOk(single, s, s.conns[id])} :: id in s.conns ==> ConnOk(single, s, s.conns[id])
  }

  // --- how Reached moves with the connection ---

  lemma {:induction false} ReachedStays(log: seq<LogRow>, c: Conn, log': seq<LogRow>, c': Conn, i: nat)
    requires log <= log' && Reached(log, c, i)
    requires c' == c.(sent := c'.sent, lost := c'.lost, live := c'.live) && c.sent <= c'.sent
    ensures Reached(log', c', i)
  {
    assert log'[i] == log[i];
    if SentFresh(log, c, i) {
      var j :| j in c.sent && i <= j < |log| && log[j].key == log[i].key;
      assert log'[j] == log[j];
    }
  }

  /** A fresh page holds every key the backlog still owes, up to its last. */
  lemma {:induction false} ReachedByPage(log: seq<LogRow>, c: Conn, keys: set<string>, page: seq<string>, next: string, i: nat)
    requires Reached(log, c, i) && c.page == [] && !c.done
    requires IsPage(keys, c.cursor, BACKLOG_PAGE, page, next)
    requires i < |log| && (log[i].brain == c.brain ==> log[i].key in keys)
    ensures Reached(log, c.(page := page, done := next == "" || page == []), i)
  {
    var c' := c.(page := page, done := next == "" || page == []);
    var k := log[i].key;
    if page != [] {
      assert page[|page| - 1] in page;
    }
    if log[i].brain == c.brain && Less(c.since, k) && SentFresh(log, c, i) {
      var j :| j in c.sent && i <= j < |log| && log[j].key == k;
      assert SentFresh(log, c', i);
    }
  }

  /** Taking the first key off the page: the others stay ahead, and ahead of the
      cursor if it moves there. */
  lemma {:induction false} ReachedAfterHead(log: seq<LogRow>, c: Conn, c': Conn, i: nat)
    requires Reached(log, c, i) && Ascending(c.page) && c.page != []
    requires c' == c.(page := c.page[1..], cursor := c'.cursor, sent := c'.sent, unread := c'.unread)
    requires c'.cursor == c.cursor || c'.cursor == c.page[0]
    requires c.sent <= c'.sent && c.unread <= c'.unread
    requires i < |log| && (log[i].key == c.page[0] && log[i].brain == c.brain ==>
                             SentFresh(log, c', i) || log[i].key in c'.unread)
    ensures Reached(log, c', i)
  {
    var k := log[i].key;
    if log[i].brain == c.brain && Less(c.since, k) && k != c.page[0] && k !in c.unread {
      if SentFresh(log, c, i) {
        var j :| j in c.sent && i <= j < |log| && log[j].key == k;
        assert SentFresh(log, c', i);
      } else {
        LastIsGreatest(c.page, c.page[0]);
        StrictTotalOrder();
        assert c.page == [c.page[0]] + c.page[1..];
      }
    }
  }

  // --- each step keeps the invariant ---

  lemma {:induction false} PutStore(single: bool, s: State, step: Step)
    requires StoreOk(single, s) && step.PutRow? && Enabled(single, s, step)
    ensures StoreOk(single, Next(single, s, step))
  {
    var s' := Next(single, s, step);
    var row := LogRow(step.brain, ScopeKey(step.brain, step.key), step.blob);
    assert s'.log == s.log + [row];
    assert RowOk(single, row) by {
      UnscopeUndoesScope(step.brain, step.key);
    }
    if OfKind("memory", step.key) {
      UnderPrefix(step.brain, "memory", step.key);
      assert UnderBrain(row.brain, row.key);
    }
    StoreGrows(single, s, row, OfKind("memory", step.key));
  }

  lemma {:induction false} StoreGrows(single: bool, s: State, row: LogRow, memory: bool)
    requires StoreOk(single, s) && RowOk(single, row) && (memory ==> UnderBrain(row.brain, row.key))
    ensures StoreOk(single, s.(log := s.log + [row], store := s.store[row.key := |s.log|],
                               unpublished := if memory then s.unpublished + {|s.log|} else s.unpublished))
  {
    var log := s.log + [row];
    forall i | 0 <= i < |log| ensures RowOk(single, log[i]) {
      assert i < |s.log| ==> RowOk(single, s.log[i]);
    }
  }

  /** Steps that neither publish nor touch this connection leave it alone. */
  lemma {:induction false} OthersKeepConn(single: bool, s: State, s': State, c: Conn)
    requires ConnOk(single, s, c)
    requires forall i :: i in s.published ==> i < |s.log|
    requires s.log <= s'.log && s.store.Keys <= s'.store.Keys && s'.published == s.published
    requires c.chan in s'.hub.queues && s'.hub.queues[c.chan] == s.hub.queues[c.chan]
    ensures ConnOk(single, s', c)
  {
    forall i | i in c.before ensures Reached(s'.log, c, i) {
      ReachedStays(s.log, c, s'.log, c, i);
    }
  }

  /** Every connection but `skip` is untouched by a step that publishes nothing. */
  lemma {:induction false} RestKeep(single: bool, s: State, s': State, skip: set<nat>)
    requires Inv(single, s)
    requires s.log <= s'.log && s.store.Keys <= s'.store.Keys && s'.published == s.published
    requires forall id :: id in s'.conns && id !in skip ==>
               && id in s.conns && s'.conns[id] == s.conns[id]
               && SameQueue(s.hub, s'.hub, s.conns[id].chan)
    ensures forall id :: id in s'.conns && id !in skip ==> ConnOk(single, s', s'.conns[id])
  {
    forall id | id in s'.conns && id !in skip ensures ConnOk(single, s', s'.conns[id]) {
      assert ConnOk(single, s, s.conns[id]);
      OthersKeepConn(single, s, s', s.conns[id]);
    }
  }

  /** A step that writes and publishes nothing keeps the whole invariant if it keeps
      the wiring and the one connection it works on. */
  lemma {:induction false} QuietStepKeepsInv(single: bool, s: State, s': State, id: nat)
    requires Inv(single, s) && Wired(s')
    requires s' == s.(hub := s'.hub, conns := s'.conns)
    requires id in s'.conns ==> ConnOk(single, s', s'.conns[id])
    requires forall other :: other in s'.conns && other != id ==>
               && other in s.conns && s'.conns[other] == s.conns[other]
               && SameQueue(s.hub, s'.hub, s.conns[other].chan)
    ensures Inv(single, s')
  {
    RestKeep(single, s, s', {id});
  }

  lemma {:induction false} PutKeepsInv(single: bool, s: State, step: Step)
    requires Inv(single, s) && step.PutRow? && Enabled(single, s, step)
    ensures Inv(single, Next(single, s, step))
  {
    PutStore(single, s, step);
    assert forall id :: id in s.conns ==> Listening(s.hub, s.conns[id]);
    RestKeep(single, s, Next(single, s, step), {});
  }

  lemma {:induction false} NotifyQueue(s: State, row: nat, c: Conn)
    requires Wired(s) && row < |s.log| && Listening(s.hub, c)
    ensures var h := s.hub.Publish(s.log[row].brain, row);
            var queue := s.hub.queues[c.chan];
            && c.chan in h.queues
            && h.queues[c.chan] ==
               (if s.log[row].brain == c.brain && |queue| < FANOUT_BUFFER then queue + [row] else queue)
            && AfterNotify(s, row, c) ==
               (if s.log[row].brain == c.brain && |queue| == FANOUT_BUFFER then c.(lost := c.lost[row := FANOUT_BUFFER]) else c)
  {
    PublishReaches(s.hub, s.log[row].brain, row, c.chan);
    assert c.brain in s.hub.subs;
    assert s.log[row].brain in s.hub.subs && s.log[row].brain != c.brain ==>
             s.hub.subs[s.log[row].brain] !! s.hub.subs[c.brain];
  }

  lemma {:induction false} NotifyConn(single: bool, s: State, row: nat, c: Conn)
    requires Wired(s) && ConnOk(single, s, c) && Listening(s.hub, c) && row in s.unpublished && row < |s.log|
    ensures ConnOk(single, Next(single, s, Notify(row)), AfterNotify(s, row, c))
  {
    NotifyQueue(s, row, c);
    var c' := AfterNotify(s, row, c);
    forall i | i in c'.before ensures Reached(s.log, c', i) {
      ReachedStays(s.log, c, s.log, c', i);
    }
  }

  lemma {:induction false} NotifyKeepsInv(single: bool, s: State, step: Step)
    requires Inv(single, s) && step.Notify? && Enabled(single, s, step)
    ensures Inv(single, Next(single, s, step))
  {
    var s' := Next(single, s, step);
    NotifyStore(single, s, step);
    NotifyWired(single, s, step);
    forall id | id in s'.conns ensures ConnOk(single, s', s'.conns[id]) {
      assert Listening(s.hub, s.conns[id]) && ConnOk(single, s, s.conns[id]);
      NotifyConn(single, s, step.row, s.conns[id]);
    }
  }

  lemma {:induction false} NotifyWired(single: bool, s: State, step: Step)
    requires Wired(s) && step.Notify? && Enabled(single, s, step)
    ensures Wired(Next(single, s, step))
  {
    var s' := Next(single, s, step);
    NotifyHub(s.hub, s.log[step.row].brain, step.row);
    forall id | id in s'.conns ensures Listening(s'.hub, s'.conns[id]) {
      assert Listening(s.hub, s.conns[id]);
      PublishReaches(s.hub, s.log[step.row].brain, step.row, s.conns[id].chan);
    }
  }

  lemma {:induction false} NotifyStore(single: bool, s: State, step: Step)
    requires StoreOk(single, s) && step.Notify? && Enabled(single, s, step)
    ensures StoreOk(single, Next(single, s, step))
  {
  }

  lemma {:induction false} NotifyHub(h: HubState<nat>, brain: string, row: nat)
    requires h.Valid()
    ensures h.Publish(brain, row).Valid()
  {
    forall ch | ch in h.queues ensures h.Publish(brain, row).Valid() {
      PublishReaches(h, brain, row, ch);
    }
  }

  lemma {:induction false} OpenWired(single: bool, s: State, step: Step)
    requires Wired(s) && step.Open? && Enabled(single, s, step)
    ensures Wired(Next(single, s, step))
    ensures forall id :: id in s.conns ==> SameQueue(s.hub, Next(single, s, step).hub, s.conns[id].chan)
  {
    var s' := Next(single, s, step);
    SubscribeAdds(s.hub, step.brain);
    forall id | id in s.conns ensures Listening(s.hub, s.conns[id]) && s.conns[id].chan != s.hub.nextChan {
    }
  }

  lemma {:induction false} OpenConn(single: bool, s: State, step: Step)
    requires StoreOk(single, s) && s.hub.Valid() && step.Open? && Enabled(single, s, step)
    ensures ConnOk(single, Next(single, s, step), Next(single, s, step).conns[step.id])
  {
    var c := Next(single, s, step).conns[step.id];
    forall i | i in s.published ensures Reached(s.log, c, i) {
    }
  }

  lemma {:induction false} OpenKeepsInv(single: bool, s: State, step: Step)
    requires Inv(single, s) && step.Open? && Enabled(single, s, step)
    ensures Inv(single, Next(single, s, step))
  {
    OpenWired(single, s, step);
    OpenConn(single, s, step);
    QuietStepKeepsInv(single, s, Next(single, s, step), step.id);
  }

  /** A step that changes one connection's backlog state only. */
  ghost predicate OnlyConn(s: State, s': State, id: nat) {
    id in s.conns && id in s'.conns && s' == s.(conns := s.conns[id := s'.conns[id]]) &&
    s'.conns[id].brain == s.conns[id].brain && s'.conns[id].chan == s.conns[id].chan
  }

  lemma {:induction false} OnlyConnKeepsInv(single: bool, s: State, s': State, id: nat)
    requires Inv(single, s) && OnlyConn(s, s', id) && ConnOk(single, s', s'.conns[id])
    ensures Inv(single, s')
  {
    forall other | other in s'.conns ensures Listening(s.hub, s.conns[other]) && Listening(s'.hub, s'.conns[other]) {
    }
    QuietStepKeepsInv(single, s, s', id);
  }

  lemma {:induction false} ListPageConn(single: bool, s: State, step: Step)
    requires StoreOk(single, s) && step.ListPage? && Enabled(single, s, step)
    requires ConnOk(single, s, s.conns[step.id])
    ensures ConnOk(single, Next(single, s, step), Next(single, s, step).conns[step.id])
  {
    var s' := Next(single, s, step);
    var c := s.conns[step.id];
    forall i | i in c.before ensures Reached(s.log, s'.conns[step.id], i) {
      ReachedByPage(s.log, c, Listed(s, c), step.page, step.next, i);
    }
  }

  /** The row behind a listed key belongs to the listing connection's brain. */
  lemma {:induction false} ListedRowIsOwn(single: bool, s: State, c: Conn, k: string)
    requires StoreOk(single, s) && BrainId(single, c.brain) && k in s.store && UnderBrain(c.brain, k)
    ensures s.store[k] < |s.log| && s.log[s.store[k]].key == k && s.log[s.store[k]].brain == c.brain
  {
    var row := s.log[s.store[k]];
    assert RowOk(single, row);
    BrainsAreDisjoint(single, c.brain, row.brain, "memory", UnscopeKey(row.brain, row.key));
  }

  /** Sending what the store holds for a key sends the newest row for it. */
  lemma {:induction false} SentIsFresh(single: bool, s: State, c: Conn, i: nat, k: string)
    requires StoreOk(single, s) && k in s.store && s.store[k] in c.sent
    ensures i < |s.log| && s.log[i].key == k ==> SentFresh(s.log, c, i)
  {
  }

  lemma {:induction false} SendRowConn(single: bool, s: State, step: Step)
    requires StoreOk(single, s) && step.SendRow? && Enabled(single, s, step)
    requires ConnOk(single, s, s.conns[step.id])
    ensures ConnOk(single, Next(single, s, step), Next(single, s, step).conns[step.id])
  {
    var s' := Next(single, s, step);
    var c, c' := s.conns[step.id], s'.conns[step.id];
    var k := c.page[0];
    ListedRowIsOwn(single, s, c, k);
    assert forall x :: x in c'.page ==> x in c.page;
    forall i | i in c.before ensures Reached(s.log, c', i) {
      SentIsFresh(single, s, c', i, k);
      ReachedAfterHead(s.log, c, c', i);
    }
  }

  lemma {:induction false} SkipRowConn(single: bool, s: State, step: Step)
    requires StoreOk(single, s) && step.SkipRow? && Enabled(single, s, step)
    requires ConnOk(single, s, s.conns[step.id])
    ensures ConnOk(single, Next(single, s, step), Next(single, s, step).conns[step.id])
  {
    var s' := Next(single, s, step);
    var c, c' := s.conns[step.id], s'.conns[step.id];
    assert forall x :: x in c'.page ==> x in c.page;
    forall i | i in c.before ensures Reached(s.log, c', i) {
      ReachedAfterHead(s.log, c, c', i);
    }
  }

  lemma {:induction false} GoLiveKeepsInv(single: bool, s: State, step: Step)
    requires Inv(single, s) && step.GoLive? && Enabled(single, s, step)
    ensures Inv(single, Next(single, s, step))
  {
    assert ConnOk(single, s, s.conns[step.id]);
    var s' := Next(single, s, step);
    forall i | i in s.conns[step.id].before ensures Reached(s.log, s'.conns[step.id], i) {
      ReachedStays(s.log, s.conns[step.id], s.log, s'.conns[step.id], i);
    }
    OnlyConnKeepsInv(single, s, s', step.id);
  }

  lemma {:induction false} DeliverConn(single: bool, s: State, step: Step)
    requires step.Deliver? && Enabled(single, s, step)
    requires ConnOk(single, s, s.conns[step.id])
    ensures ConnOk(single, Next(single, s, step), Next(single, s, step).conns[step.id])
  {
    var s' := Next(single, s, step);
    var c, c' := s.conns[step.id], s'.conns[step.id];
    var queue := s.hub.queues[c.chan];
    assert forall i :: i in queue <==> i == queue[0] || i in queue[1..];
    forall i | i in c.before ensures Reached(s.log, c', i) {
      ReachedStays(s.log, c, s.log, c', i);
    }
    assert LiveOk(s.log, s.published, queue[1..], c');
  }

  lemma {:induction false} DeliverWired(single: bool, s: State, step: Step)
    requires Wired(s) && step.Deliver? && Enabled(single, s, step)
    ensures Wired(Next(single, s, step))
    ensures forall id :: id in s.conns && id != step.id ==> SameQueue(s.hub, Next(single, s, step).hub, s.conns[id].chan)
  {
    var s' := Next(single, s, step);
    ReceiveTakesHead(s.hub, s.conns[step.id].chan);
    assert forall id :: id in s.conns ==> Listening(s.hub, s.conns[id]);
    forall id | id in s'.conns ensures Listening(s'.hub, s'.conns[id]) {
      assert Listening(s.hub, s.conns[id]);
    }
  }

  lemma {:induction false} DeliverKeepsInv(single: bool, s: State, step: Step)
    requires Inv(single, s) && step.Deliver? && Enabled(single, s, step)
    ensures Inv(single, Next(single, s, step))
  {
    assert ConnOk(single, s, s.conns[step.id]);
    DeliverConn(single, s, step);
    DeliverWired(single, s, step);
    QuietStepKeepsInv(single, s, Next(single, s, step), step.id);
  }

  lemma {:induction false} CloseWired(single: bool, s: State, step: Step)
    requires Wired(s) && step.Close? && Enabled(single, s, step)
    ensures Wired(Next(single, s, step))
    ensures Next(single, s, step).hub.queues == s.hub.queues
  {
    var s' := Next(single, s, step);
    CancelRemoves(s.hub, s.conns[step.id].brain, s.conns[step.id].chan);
    forall id | id in s'.conns ensures Listening(s'.hub, s'.conns[id]) {
      assert Listening(s.hub, s.conns[id]);
    }
  }

  lemma {:induction false} CloseKeepsInv(single: bool, s: State, step: Step)
    requires Inv(single, s) && step.Close? && Enabled(single, s, step)
    ensures Inv(single, Next(single, s, step))
  {
    CloseWired(single, s, step);
    assert forall id :: id in s.conns ==> Listening(s.hub, s.conns[id]);
    QuietStepKeepsInv(single, s, Next(single, s, step), step.id);
  }

  lemma {:induction false} StepKeepsInv(single: bool, s: State, step: Step)
    requires Inv(single, s) && Enabled(single, s, step)
    ensures Inv(single, Next(single, s, step))
  {
    assert forall id :: id in s.conns ==> ConnOk(single, s, s.conns[id]);
    hide ConnOk;
    match step
    case PutRow(_, _, _) => PutKeepsInv(single, s, step);
    case Notify(_) => NotifyKeepsInv(single, s, step);
    case Open(_, _, _) => OpenKeepsInv(single, s, step);
    case ListPage(id, _, _) =>
      ListPageConn(single, s, step);
      OnlyConnKeepsInv(single, s, Next(single, s, step), id);
    case SendRow(id) =>
      SendRowConn(single, s, step);
      OnlyConnKeepsInv(single, s, Next(single, s, step), id);
    case SkipRow(id) =>
      SkipRowConn(single, s, step);
      OnlyConnKeepsInv(single, s, Next(single, s, step), id);
    case GoLive(_) => GoLiveKeepsInv(single, s, step);
    case Deliver(_) => DeliverKeepsInv(single, s, step);
    case Close(_) => CloseKeepsInv(single, s, step);
  }

  lemma {:induction false} RunKeepsInv(single: bool, run: seq<State>, i: nat)
    requires IsRun(single, run) && i < |run|
    ensures Inv(single, run[i])
  {
    if i > 0 {
      RunKeepsInv(single, run, i - 1);
      var step :| Steps(single, run[i - 1], step, run[i]);
      StepKeepsInv(single, run[i - 1], step);
    }
  }

  /** No gap between backlog and live: once a connection is live, every published
      memory row of its brain after `since` has been sent (the row itself or a newer
      one for its key), waits in the channel, or was lost to a full 64-row queue; a
      backlog key is missing only if its blob could not be read. */
  lemma {:induction false} NoGap(single: bool, run: seq<State>, i: nat, id: nat, row: nat)
    requires IsRun(single, run) && i < |run|
    requires id in run[i].conns && run[i].conns[id].live
    requires row in run[i].published && row < |run[i].log|
    requires run[i].log[row].brain == run[i].conns[id].brain
    requires Less(run[i].conns[id].since, run[i].log[row].key)
    ensures var s := run[i];
            var c := s.conns[id];
            && c.chan in s.hub.queues
            && (SentFresh(s.log, c, row) || row in s.hub.queues[c.chan]
                || (row in c.lost && c.lost[row] == 64)
                || (row in c.before && s.log[row].key in c.unread))
  {
    RunKeepsInv(single, run, i);
    var s := run[i];
    var c := s.conns[id];
    assert ConnOk(single, s, c);
    if row in c.before {
      assert Reached(s.log, c, row);
    }
  }

  /** Only rows of the connection's own brain are ever sent. */
  lemma {:induction false} NoForeignRow(single: bool, run: seq<State>, i: nat, id: nat, row: nat)
    requires IsRun(single, run) && i < |run|
    requires id in run[i].conns && row in run[i].conns[id].sent
    ensures row < |run[i].log| && run[i].log[row].brain == run[i].conns[id].brain
  {
    RunKeepsInv(single, run, i);
    assert ConnOk(single, run[i], run[i].conns[id]);
  }
}
