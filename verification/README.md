# Resleeve, modelled and proved

Resleeve keeps the sessions and notes of coding agents: it captures what an agent wrote
on disk, stores it, syncs it through a server, and plays it back. This project models the
parts of it that have to be right under interleaving, interruption, paging and growth, and
proves what they promise. `dafny verify dfyconfig.toml` checks everything.

Stores, readers and handlers are classes whose methods state their whole new state.
Concurrency is a state machine over the single accesses (one write, one publish, one
database statement), and its theorems are about every run. Payloads are opaque values with
the few fields the code reads. Authenticated encryption is ideal (`Aead.dfy`), hashes are
their own input, and clocks, drawn keys and failures are arguments.

| files | about |
|---|---|
| `Lex`, `Segments`, `Sequences`, `Sorting`, `Words`, `Wrappers` | Go's string order and pages of keys, splitting and joining, sequences, stable sorting, 64-bit words |
| `Tenancy`, `KeyFiles`, `Fanout`, `Serve` | the server: brain-scoped keys, key files, the fan-out hub, push and pull |
| `Outbox`, `Backoff`, `OutboxRun`, `OutboxLatest`, `OutboxCalls` | the client's outbox, drain and retry times, and when the latest blob is the one stored |
| `SseRun`, `SseResume`, `Pull` | the live stream, what a reconnect catches up on, the pull loop |
| `Aead`, `MigrateKey` | re-encrypting upstream rows under a new key |
| `PlanLog`, `PlanRun`, `MemoryStore`, `Replica`, `Redelivery` | versioned plans, a fresh machine rebuilding them, rows delivered again |
| `EventStore`, `Codex`, `CodexNumbers`, `CodexReplay`, `CodexBatches` | Codex rollout capture, storage, paging and replay, and which batches the store takes |
| `Claude` | Claude session capture |
| `Opencode`, `OpencodeImport`, `OpencodeReplay`, `OpencodeStore` | opencode capture and import transcript, also by way of the event store |
| `ProtoWire`, `Utf8` | the protobuf wire reader (Protocol Buffers "Encoding" guide, sections "Base 128 Varints" and "Message Structure") |
| `Pairing`, `PairingRace`, `AtRest`, `AtRestRun` | pair codes, data keys at rest |
| `ManagedBlock`, `McpConfig` | the managed block in a user-owned configuration file |

## What turned out otherwise than documented

Where code and comments differ the model follows the code.

- `internal/agent/sync.go:745-746` calls every ingest idempotent. A plan row is
  force-appended at HEAD+1, so each delivery of it is another version; every other row goes
  in once. `Redelivery.IngestTwice` says exactly which rows, `Redelivery.Redelivered` what
  that does to a replica.
- `encodeScopePath` maps `a/b` and `a:b` to one key (`Replica.EncodedAlike` says which). A slot comes back on a replica only if
  the server still has its own scope's row (`Replica.ReplicaRebuildsSlot`).
- Learning ids sort by time only roughly: a correction whose key sorts before the learning it
  corrects is refused (`Replica.LearningsRebuilt` gives the exact condition).
- The server's blob for a key need not be that of the last call of Enqueue. A call with
  another blob for a key that pends is ignored, and the drain then leaves the older blob with
  an empty outbox (`OutboxCalls.RefusedCallIsLost`). A drain that overtakes an older blob on
  its way in another drain does the same (`OutboxLatest.OverlapLosesLatest`). Where a key is
  enqueued under one kind and the server refuses no row, a step is safe exactly when it does
  neither (`OutboxCalls.SafeIffMindful`); of the calls that were accepted the last one's blob
  is stored if no drain overtakes (`OutboxLatest.LatestIsStored`).
- `internal/agent/sync.go:577-578` caps the wait of a failed row at five minutes. From the 34th
  attempt on the product of nanoseconds overflows, and but for eight later attempts the row is
  due again at once (`Backoff.WaitIs`, `Backoff.DueAgainIff`).
- `internal/serve/server.go:515-517` has a subscriber whose queue was full catch up on
  reconnect. The client asks after the key it ingested last, so it catches up only on keys
  that sort after that one (`SseResume.CaughtUpIff`).
- `pullKind` passes over a row whose ingest fails: a later success moves the cursor past it,
  and a full page of failures is asked for again and again. `Pull.PullKind` states both, and
  that a completed pull has lost exactly the rows whose ingest fails.
- A Codex file without a session_meta gets no synthesized start when its events fill whole
  batches of 100 (`CodexBatches.StartArrives`). A batch with an event of a session that is
  neither known nor that of its last event is refused whole (`CodexBatches.AllArriveIff`,
  `CodexBatches.TwoSessionsLost`).
- `internal/adapter/antigravity/protowire.go:115-121` says that text which resembles a message
  is recorded as well as gone into. It is only gone into: such text is lost
  (`Utf8.TextTakenForMessage`; `ProtoWire.LeavesOccur` says what is found).
- `loadAllEvents` drops events with equal sequence numbers across a page boundary
  (`EventStore.Store.LoadAll` says exactly when it is complete).
- A data key is stored without looking, by the handler that creates a brain and by one that
  finds its key missing. A store is safe exactly when it overwrites no key in use
  (`AtRestRun.StoreIsSafeIff`). The creator can lose a row of a member who was faster
  (`AtRestRun.CreatorLosesARow`), and two overlapping first uses can leave a row that cannot be
  read. A handler that finds the key missing is safe exactly when no other handler, the creator
  included, is at that brain (`AtRestRun.SafeIffAlone`).
- The five wrong verifiers of a pair code are a limit only for requests one after another:
  those that read the row before it went are compared as well
  (`PairingRace.OverlappingGuesses` bounds how many).
- Uninstalling the managed block does not restore a text without a final newline, nor a file
  of white space (`ManagedBlock.UninstallUndoes`, `McpConfig.FileRoundTrip`).

## Model

| member | source | states |
|---|---|---|
| OutboxRun.NothingIsLost | internal/agent/sync.go:513-575 | in every state of every run (concurrent drains, lost replies, half-written batches, restarts) each key Enqueue was ever called for, the call refused or not, is still in the outbox or stored on the server, and each stored blob was enqueued for its own key |
| OutboxRun.LeavesOnlyAfterPut | internal/storage/sql/sqlite/sync.go:87-102 | a row leaves the outbox only after the server wrote the row of that very sequence number, and its key is stored |
| OutboxRun.OnlyAckRemoves | internal/agent/sync.go:545-568 | only the acknowledged reply to a drain that carried the row takes it out, and by then the server has written it |
| OutboxRun.StepKeepsInv | internal/agent/sync.go:513-575 | every step of the protocol keeps the invariant: sequence numbers never reused, drained rows unchanged, puts backed by the store |
| OutboxRun.WritesArePush | internal/serve/server.go:464-521 | n single writes of the machine leave exactly what the push handler leaves when it stops after n rows |
| OutboxRun.NobodyListens | internal/agent/sync.go:570-575 | a client that gives up puts its batch back row by row as a failed drain does; it and a restarted one listen no more, and take no row out |
| OutboxLatest.LatestIsStored | internal/agent/sync.go:513-568 | in every state of every run whose drains overtake nothing (no other drain still has another blob of a batch key to write) and whose pending keys keep one kind, each key with no pending row has on the server the blob of its last accepted enqueue |
| OutboxLatest.SafeIffOvertakesNothing | internal/agent/sync.go:430-488 | beginning a drain leaves the latest blobs held under all careful continuations if it overtakes nothing; where the server refuses no row it does so exactly then |
| OutboxLatest.CarefulKeepsLatest | internal/agent/sync.go:513-575 | every careful step keeps the invariant: the last enqueue of a key waits or is stored, and what outdates a row still on its way waits in no drain |
| OutboxLatest.QuietOvertakesNothing | internal/agent/sync.go:467-488 | a drain that begins while no other has a row left to write overtakes nothing |
| OutboxLatest.OverlapLosesLatest | internal/agent/sync.go:430-488 | a drain that takes up a key another drain still has to write: for any other, newer blob there is a continuation (if the server refuses no row) that writes it and ends with the older blob on the server and an empty outbox |
| OutboxLatest.LateWriteRestoresOldBlob | internal/storage/sql/sqlite/sync.go:39-49 | such a run from the start, for any two blobs of a key: the latest blob is not promised |
| OutboxCalls.LastCallIsStored | internal/storage/sql/sqlite/sync.go:39-49 | in every state of every run that overtakes nothing and in which each call either finds its key not pending or repeats the pending blob under the same kind, each key with no pending row has on the server the blob of the last call for it |
| OutboxCalls.SafeIffMindful | internal/agent/sync.go:430-575 | one step is safe for the last calls, whatever follows with the same care, if it overtakes nothing and refuses no other blob; where the server refuses no row exactly then (a key being enqueued under one kind) |
| OutboxCalls.RefusedCallIsLost | internal/storage/sql/sqlite/sync.go:39-49 | from any state whose pending rows are each the last accepted for their key and are taken by the server, a call with another blob for a pending key has a continuation that ends with the older blob on the server and an empty outbox |
| OutboxCalls.SecondCallIsLost | internal/storage/sql/sqlite/sync.go:39-49 | the smallest run: two calls and one drain, nothing overtaken, and the server ends with the first blob |
| Outbox.OutboxStore.Enqueue | internal/storage/sql/sqlite/sync.go:39-49 | a pending key keeps its old blob; a new key gets the next sequence number |
| Outbox.OutboxStore.Dequeue | internal/storage/sql/sqlite/sync.go:51-85 | the due rows in sequence order, at most the batch size, default 100 |
| Outbox.OutboxStore.Ack | internal/storage/sql/sqlite/sync.go:87-102 | exactly the rows with these sequence numbers go |
| Outbox.OutboxStore.BumpAll | internal/agent/sync.go:570-575 | row by row: one more attempt for each time the batch has the row's number, and the retry time its last row there is given; a row not in the batch stays as it was |
| Outbox.DrainOnce | internal/agent/sync.go:513-568 | one drain: on a 200 exactly the rows of the batch go; otherwise each row of the batch has one more attempt and the retry time for that many, every other row is equal, and with retry times still to come nothing of the batch is due at that time; the server keeps what it wrote either way |
| Outbox.AckedKeeps | internal/storage/sql/sqlite/sync.go:87-102 | a row is left after acknowledging exactly when it was there and its sequence number is not listed |
| Outbox.DueSkipsNone | internal/storage/sql/sqlite/sync.go:51-85 | a due row is left out of a batch only when the batch is full of earlier ones |
| Outbox.DueInOrder | internal/storage/sql/sqlite/sync.go:51-85 | the batch is made of rows of the table at increasing positions |
| Outbox.BumpedAllAre | internal/storage/sql/sqlite/sync.go:104-112 | what bumping a batch does to each row, for every batch, with repetitions |
| Outbox.NotDueYet | internal/agent/sync.go:570-575 | after a failed drain whose retry times are still to come no batch of any size at that time has a row of it |
| Backoff.WaitIs | internal/agent/sync.go:577-585 | a failed row waits 2, 4, 8, ... seconds, capped at five minutes, exactly after the attempts that do not overflow the sign: all up to 33 and eight more; after every other number of attempts the wait is zero or negative |
| Backoff.ThirtyFourth | internal/agent/sync.go:577-585 | the 33rd attempt waits five minutes, the 34th not at all, and none after the 53rd |
| Backoff.DueAgainIff | internal/agent/sync.go:570-585 | after a failed drain a row of its batch is due at once exactly when its attempts are among those without a wait |
| Serve.Server.HandlePush | internal/serve/server.go:435-521 | rows are written and published in order up to the first refused or failing row; 200 and the key list only if all were; the rows before a failure stay |
| Serve.PutRowsStores | internal/serve/server.go:464-521 | after a push a key holds the last blob the batch gives it |
| Serve.PutRowsFrame | internal/serve/server.go:464-521 | a push touches no key outside its batch |
| Serve.Server.HandlePull | internal/serve/server.go:529-577 | the answer is the page of the acting brain's client keys after the cursor, with the stored blobs, and the cursor to go on with |
| Serve.StoredPageIsClientPage | internal/serve/server.go:582-587 | a page of stored keys after the re-scoped cursor is, stripped of the brain, the page of client keys after the client's cursor |
| Serve.AnswerSize | internal/serve/server.go:529-577 | an answer has at most 500 rows, as many as asked for if that is between 1 and 500, else 100; it is shorter only when it has every key after the cursor, and then has no cursor |
| Serve.ClientKeysAre | internal/serve/tenancy.go:38-68 | the client sees exactly the keys of the kind whose scoped form is stored |
| Serve.KindPrefixIsValid | internal/serve/tenancy.go:63-68 | the prefix the pull handler lists is one the backend accepts |
| Fanout.Hub.Subscribe | internal/serve/fanout.go:72-97 | a new empty channel joins the brain's subscribers |
| Fanout.Hub.Cancel | internal/serve/fanout.go:72-97 | the channel is unregistered, an emptied brain entry removed, nothing else changed |
| Fanout.Hub.Publish | internal/serve/fanout.go:102-112 | the row is appended to each of the brain's channels with room and to no other |
| Fanout.CancelIsIdempotent | internal/serve/fanout.go:85-96 | cancelling twice is cancelling once |
| Fanout.PublishReaches | internal/serve/fanout.go:102-112 | a subscriber gets the row unless its 64-slot queue is full; other brains' channels are untouched |
| SseRun.NoGap | internal/serve/server.go:598-710 | once the backlog has ended, each published memory row of the connection's brain after its cursor was sent, or waits in the channel, or was refused by a full 64-row queue (or its stored blob could not be read) |
| SseRun.NoForeignRow | internal/serve/server.go:637-710 | only rows of the connection's own brain are ever sent |
| SseResume.CaughtUpIff | internal/agent/sync.go:921-990 | on reconnecting after the key ingested last, a row published before (one a full queue refused, say) with no later news of its key is sent again, once the backlog has ended, exactly when its key sorts after that cursor, if its blob can be read |
| SseResume.StepKeepsResume | internal/serve/server.go:598-710 | every step keeps it: what a connection has for a key at or before its cursor was published since it subscribed |
| SseRun.StepKeepsInv | internal/serve/server.go:498-710 | every step of puts, publishes, subscriptions, backlog pages and deliveries keeps the connection invariant |
| Pull.PullKind | internal/agent/sync.go:634-691 | the pages asked for fix what is ingested, in which order, and every cursor written; ascending, each key once; a key goes in exactly when its ingest worked in a round whose page held it; at each persisted cursor every earlier key has been offered and everything ingestible ingested; completion has offered all keys present at the start although others are added, and has lost exactly those whose ingest fails; ends on a steady server; never ends behind a page that cannot be ingested |
| Pull.HandlerIsHonest | internal/serve/server.go:529-577 | answers that are the pull handler's, from stores that only gain keys, are the correct pages the pull relies on |
| Pull.LostExactly | internal/agent/sync.go:671-677 | a completed pull has ingested everything ingestible, and where it does not matter when a key is tried it has lost exactly the keys whose ingest fails |
| Pull.BehindIsNeverOffered | internal/agent/sync.go:634-691 | a key at or before the cursor, one put there late for instance, is on no later page of the pull |
| Pull.PullRound | internal/agent/sync.go:645-690 | one request: the rows of the page whose ingest works, in order, the cursor behind the last of them, which is the one write to the cursor table, and whether to go on |
| Pull.IngestPage | internal/agent/sync.go:659-681 | exactly the rows whose ingest works are added to the log, in order; the cursor is behind the last of them |
| Pull.AfterShrinks | internal/agent/sync.go:634-691 | on a fixed store the keys after the cursor get fewer with every later cursor |
| Pull.CursorTable.Persist | internal/storage/sql/sqlite/sync.go:139-150 | one kind's cursor is replaced, the others kept, and the write recorded unless the cursor is empty |
| Tenancy.UnscopeUndoesScope | internal/serve/tenancy.go:38-58 | stripping the brain undoes scoping |
| Tenancy.ScopeIsInjective | internal/serve/tenancy.go:38-43 | no two brains share a stored key: equal scoped keys come from one brain and one key |
| Tenancy.BrainsAreDisjoint | internal/serve/tenancy.go:38-43 | a stored key found under a brain and kind prefix was stored by that brain and is of that kind |
| Tenancy.ScopeKeepsOrder | internal/serve/tenancy.go:38-43 | scoping keeps the order of keys |
| Tenancy.ScopeCursorCuts | internal/serve/server.go:582-587 | a stored key is after the scoped cursor exactly when the client key is after the client's |
| Tenancy.UnderPrefix | internal/serve/tenancy.go:63-68 | a scoped key lies under the kind's prefix exactly when the key is of the kind |
| Tenancy.PushKeysHaveAKind | internal/serve/server.go:755-768 | a push may name a key exactly when its first segment is sessions, events or memory and another follows; pull serves that kind and no other has the key |
| KeyFiles.KeyRoundTrip | internal/sync/local/local.go:177-193 | decoding an encoded key gives it back, for every string |
| KeyFiles.FilesAreDistinct | internal/sync/local/local.go:164-166 | distinct keys never share a file |
| KeyFiles.EncodedKeyIsPortable | internal/sync/local/local.go:198-232 | no encoded key holds a reserved byte, and it is free of empty and dot segments exactly when the key is |
| KeyFiles.PrefixDirectory | internal/sync/local/local.go:89-147 | a key lies under a prefix exactly when its file lies under the prefix's directory |
| KeyFiles.EncodeSegment | internal/sync/local/local.go:208-232 | the fast path and the byte loop both give the percent-encoding |
| KeyFiles.DecodeSegment | internal/sync/local/local.go:234-251 | the byte loop computes the decoding, malformed escapes left as they are |
| KeyFiles.UnescapeEscape | internal/sync/local/local.go:208-251 | decoding undoes encoding within a segment |
| KeyFiles.EscapedExactly | internal/sync/local/local.go:198-232 | a byte is escaped exactly when it is a control byte or one of nine others, and stays as it is otherwise |
| KeyFiles.UnescapeAny | internal/sync/local/local.go:234-263 | an escape with hexadecimal digits in either case decodes to its byte, whatever follows |
| KeyFiles.HexInEitherCase | internal/sync/local/local.go:253-263 | the decoder takes the hexadecimal digits in either case for their values, and nothing else for a digit |
| KeyFiles.ValidIsClean | internal/sync/backend.go:58-74 | a key is valid exactly when resolving it as a path leaves it as it is |
| KeyFiles.SlashOrNot | internal/sync/local/local.go:89-104 | a slash at the end of a prefix makes no difference to a listing, and nothing is listed but what has the prefix as its first segments |
| KeyFiles.Backend.Put | internal/sync/local/local.go:52-68 | the key holds the blob, or on a crash before the rename what it held before; a bad key changes nothing |
| KeyFiles.Backend.Get | internal/sync/local/local.go:72-84 | the blob put last, or not found |
| KeyFiles.Backend.Delete | internal/sync/local/local.go:151-159 | exactly that key goes |
| KeyFiles.Backend.Walk | internal/sync/local/local.go:105-134 | the keys under the prefix after the cursor, ascending, each once, temporary files ignored |
| KeyFiles.Backend.List | internal/sync/local/local.go:89-147 | the first keys after the cursor in order, and a next cursor exactly when the page is full |
| Lex.PageIsUnique | internal/sync/local/local.go:135-147 | a page is determined by the key set, cursor and limit |
| Lex.PageHasNoHoles | internal/sync/local/local.go:135-147 | nothing between the cursor and a listed key is skipped |
| MigrateKey.MigrateKind | internal/cli/migrate_key.go:180-244 | however a run ends, only rows of the kind that opened under the old key have been re-sealed, to the same plaintext; a complete run has moved all of them and its counts are those that did and did not open; a dry run writes nothing |
| MigrateKey.InterruptedRunsComplete | internal/cli/migrate_key.go:173-244 | any number of cut-off runs and then a complete one leave what one complete run from the start leaves |
| MigrateKey.MigratesTwice | internal/cli/migrate_key.go:173-244 | re-sealing on top of re-sealing is re-sealing |
| MigrateKey.NothingLeft | internal/cli/migrate_key.go:173-244 | after a complete run a further one finds nothing to migrate, exactly when the keys differ or there was nothing before |
| MigrateKey.BuildBatch | internal/cli/migrate_key.go:215-232 | a page's openable rows re-sealed in order, the rest counted, the cursor on its last row |
| MigrateKey.PushBatch | internal/cli/migrate_key.go:246-267 | the batch is written whole, or cut off after some row |
| MigrateKey.MigratePage | internal/cli/migrate_key.go:190-243 | one page forward, or a stop that leaves a partly migrated store |
| MemoryStore.HistoriesStayLinear | internal/storage/sql/sqlite/memory.go:155-289 | after any calls in any order every slot runs 1..n with parent v-1 and foreign keys hold |
| MemoryStore.VersionsNeverChange | internal/storage/sql/sqlite/memory.go:155-232 | until its slot is deleted, a written version reads back the same |
| MemoryStore.Tables.AppendMeans | internal/storage/sql/sqlite/memory.go:155-209 | an append not forced succeeds exactly when its base is HEAD (and the scope exists); it adds the content and author given as HEAD+1 with parent HEAD; a refusal carries HEAD |
| MemoryStore.UnnamedIsDefault | internal/storage/sql/sqlite/memory.go:155-160 | a plan without a name is the slot _default, for writing and deleting alike |
| MemoryStore.Store.AppendPlanVersion | internal/storage/sql/sqlite/memory.go:155-209 | result and new tables are those of the append; an error changes nothing |
| MemoryStore.Store.GetPlan | internal/storage/sql/sqlite/memory.go:211-221 | the last row of the slot's history |
| MemoryStore.Store.GetPlanVersion | internal/storage/sql/sqlite/memory.go:223-232 | version v is row v-1 of the history, or absent |
| MemoryStore.Store.ListPlans | internal/storage/sql/sqlite/memory.go:235-257 | names strictly ascending, every slot once, each the row GetPlan returns |
| MemoryStore.Store.ListPlanVersions | internal/storage/sql/sqlite/memory.go:260-281 | the whole history, oldest first |
| MemoryStore.Store.DeletePlan | internal/storage/sql/sqlite/memory.go:283-289 | that slot's history is empty, every other one as it was |
| MemoryStore.Store.UpdateScope | internal/storage/sql/sqlite/memory.go:51-81 | upsert by path, refused for an empty path or unknown kind |
| MemoryStore.Store.AppendLearning | internal/storage/sql/sqlite/memory.go:308-327 | a plain insert: refused for a known id, a missing scope or a missing superseded row |
| PlanLog.ListedHeads | internal/storage/sql/sqlite/memory.go:235-257 | the HEAD join lists one row per name, in name order, agreeing with the HEAD lookup |
| PlanLog.HeadIsGreatest | internal/storage/sql/sqlite/memory.go:211-221 | HEAD is a row of the slot that no row of the slot outnumbers |
| PlanRun.OneWinnerPerBase | internal/storage/sql/sqlite/memory.go:144-209 | with the HEAD read and the insert interleaved anyhow, two appends that got into one slot built on different versions: of those naming one base without force at most one wins |
| PlanRun.RunsStayLinear | internal/storage/sql/sqlite/memory.go:150-154 | the primary key alone keeps every interleaved run linear, rows only being added |
| PlanRun.InsertsIffStillHead | internal/storage/sql/sqlite/memory.go:180-209 | an insert goes in exactly when the version it read is still HEAD |
| PlanRun.AppendIsSelectInsert | internal/storage/sql/sqlite/memory.go:155-209 | a read and an insert with nothing between them are the store's append |
| Replica.ReplicaRebuildsSlot | internal/agent/sync.go:747-793 | a complete ordered pull into an empty store gives a slot back exactly when the server's log runs 1..n with parent v-1 and has the scope's row; a log with gaps comes back renumbered in order |
| Replica.ScopeComesFirst | internal/agent/sync.go:731-746 | every plan and learning row comes after its scope's row |
| Replica.LearningsRebuilt | internal/agent/sync.go:777-783 | every learning arrives exactly when no two share an id, each has its scope's own row on the server, and none corrects one whose key sorts after its own |
| Replica.ReplayScopes | internal/agent/sync.go:784-792 | the replica has a scope, with the served content, from its row on |
| Replica.IngestMemoryRow | internal/agent/sync.go:731-793 | by the key's shape a scope, plan or learning row goes in as its own table's write, a plan row as a new version on top of its slot's history; a key outside memory/ and a blob of another kind are refused and change nothing |
| Replica.DispatchIsRight | internal/agent/sync.go:760-784 | every enqueued row's key is dispatched to its own table |
| Replica.PaddedKeepsOrder | internal/agent/sync.go:851-851 | zero-padded versions sort as numbers |
| Replica.PlanKeysInOrder | internal/agent/sync.go:840-853 | within a slot key order is version order |
| Replica.ScopeSortsFirst | internal/agent/sync.go:807-873 | a scope's key sorts before the key of everything in it |
| Replica.EncodedAlike | internal/agent/sync.go:797-802 | two scope paths share their key segment exactly when they differ in nothing but slashes against colons |
| Replica.VersionReads | internal/agent/sync.go:840-853 | every version of an int64 is 20 decimal digits in its key, which read back as the version |
| Redelivery.IngestTwice | internal/agent/sync.go:744-793 | ingesting a row twice is ingesting it once, exactly unless it is a plan row under a plan key whose scope is there; then the history gains two versions with its content |
| Redelivery.ReplayedPlanIsNewVersion | internal/agent/sync.go:774-775 | the smallest case: one plan row delivered twice leaves versions 1 and 2 |
| Redelivery.SlotFromDeliveries | internal/agent/sync.go:747-793 | whatever rows are delivered, in whatever order and however often, a slot's history is one version per delivery of one of its rows after the scope's row |
| Redelivery.Redelivered | internal/agent/sync.go:634-691 | after a complete pull, redelivering rows adds one version per delivery of a plan row; a slot keeps what the pull gave it exactly when none of its rows comes again (or the server lacks its scope) |
| Replica.CompletedPull | internal/agent/sync.go:634-691 | a pull completed from an empty cursor has handed over exactly the server's rows in key order |
| CodexReplay.RoundTrip | internal/adapter/codex/watcher.go:53-167 | for a session_meta-led file of one session: reconciled into an empty store, paged back and rendered, the event-bearing lines in file order, the first of each dedup key, each newline-terminated |
| CodexReplay.CaptureAndReplay | internal/adapter/codex/tonative.go:55-83 | the same as one run through store, paging and rendering |
| CodexReplay.GrowthIsStable | internal/adapter/codex/watcher.go:77-148 | reading any prefixes of a file, torn last line or not, and then the whole file leaves what one full reading leaves, sequence numbers included |
| CodexReplay.SeqsIncrease | internal/adapter/codex/watcher.go:130-142 | sequence numbers are positive and strictly increasing in file order across flushes |
| CodexReplay.StartSubmitted | internal/adapter/codex/watcher.go:149-164 | a start is handed to the store exactly when the file names its session or its events do not fill the last batch |
| CodexBatches.StartArrives | internal/adapter/codex/watcher.go:91-164 | for events of one session, into any store: the session's start is stored afterwards exactly when it was before, or the file names the session, or its events do not fill the last batch |
| CodexBatches.StoreGetsAdmitted | internal/agent/ingest.go:23-73 | for every file, of any number of sessions, the store gets the admitted batches and nothing else; each batch creates the session of its last event even when it is refused |
| CodexBatches.AllArriveIff | internal/storage/sql/sqlite/sqlite.go:382-426 | of new, distinct events all arrive exactly when no batch holds an event of a session neither known nor its last event's |
| CodexBatches.TwoSessionsLost | internal/adapter/codex/watcher.go:91-99 | two session_meta lines of two sessions: a start is handed over, and nothing is stored |
| CodexReplay.RowsAreFirstLines | internal/storage/sql/sqlite/sqlite.go:382-426 | insert-or-ignore keeps exactly the first line of each key |
| CodexReplay.DeliverOne | internal/adapter/codex/watcher.go:91-99 | for one session the batching makes no difference to the store |
| CodexReplay.ToNativeReplay | internal/adapter/codex/tonative.go:55-83 | the lines of all events by sequence number and then uuid: each event's payload, or the one made up where it is empty, ended by one newline where it has none, and nothing if there is neither |
| CodexReplay.RenderReplays | internal/adapter/codex/tonative.go:55-83 | the specified text is made of those lines |
| Codex.IngestFile | internal/adapter/codex/watcher.go:53-167 | the store afterwards is the batches of the file's events delivered in order, for every file, with its session switches and missing session_meta; what the events and their numbers are say the five rows below |
| CodexNumbers.EventsAreLines | internal/adapter/codex/watcher.go:84-148 | for every file the events are those of exactly the bearing lines, in file order, each under the session named last, with its line as payload and its line's key; if the stamps leave room, each number is at least the line's stamp and above the number before, and is that stamp or one more than that number |
| CodexNumbers.StampsKept | internal/adapter/codex/watcher.go:137-142 | positive, strictly increasing stamps are the numbers |
| CodexNumbers.NumbersAreLeast | internal/adapter/codex/watcher.go:64-73 | of all positive, strictly increasing numbers not below the stamps those given are the least, at every event |
| CodexNumbers.StartMadeUp | internal/adapter/codex/watcher.go:150-164 | a file that names no session and leaves its last batch unfilled gets one start ahead of that batch, numbered one below the event it precedes |
| CodexNumbers.NoneMadeUp | internal/adapter/codex/watcher.go:150-164 | every other file's events are handed over as they are |
| EventStore.Store.LoadAll | internal/cli/resume.go:279-302 | of a session's events in order, exactly those with a positive sequence number that do not tie with the last event of a full page of 1000 before them; so all of them exactly when every number is positive and no two equal ones straddle a page boundary |
| EventStore.Store.Append | internal/storage/sql/sqlite/sqlite.go:382-426 | all events inserted, known keys ignored, or none if one names an unknown session |
| EventStore.Store.IngestBatch | internal/agent/ingest.go:23-73 | the session is created if absent and the batch appended |
| EventStore.Store.List | internal/storage/sql/sqlite/sqlite.go:428-475 | rows of the session after the cursor by sequence number, at most the limit, none more often than stored; one that qualifies is left out only when the page is full and nothing on it comes later |
| EventStore.InsertAgain | internal/storage/sql/sqlite/sqlite.go:382-426 | inserting events again changes nothing |
| Claude.IngestFile | internal/adapter/claude/watcher.go:58-185 | the batches end to end are what the file should give, whatever the flush size; each holds one session only, and one that is followed by another of its session has reached the flush size |
| Claude.FileConserved | internal/adapter/claude/watcher.go:58-185 | without the made-up starts the output is the file's events in order, at most an unknown scope filled in |
| Claude.OneStartAhead | internal/adapter/claude/watcher.go:128-166 | a stretch of one session gets one start, at its head, exactly when one of its lines has a working directory |
| Claude.RunIsMaximal | internal/adapter/claude/watcher.go:114-119 | a stretch is maximal: one session throughout, another before it |
| Claude.FedKeepsMid | internal/adapter/claude/watcher.go:105-176 | every line keeps the relation between what was handed on, what waits, and what the lines so far should give |
| Claude.Reader.ResetSession | internal/adapter/claude/watcher.go:90-103 | what waited goes out with the batch, and everything starts over |
| Claude.Reader.FeedLine | internal/adapter/claude/watcher.go:105-176 | the loop's variables after one line |
| OpencodeReplay.ImportConserves | internal/adapter/opencode/tonative.go:47-142 | the import file holds each message once, by creation time and then uuid: info, non-tool parts in the captured order, tool parts in id order, for every order of the events |
| OpencodeReplay.PartsConserved | internal/adapter/opencode/fromnative.go:82-215 | no part dropped or repeated; the tool parts come out in id order, and the non-tool parts too when the rows are read in id order |
| OpencodeStore.ImportFromStore | internal/cli/resume.go:279-302 | through store, paging and import each message is there once with all its parts, in order, when every sequence number is positive and no two equal ones straddle a page boundary |
| OpencodeReplay.ReadInOrder | internal/adapter/opencode/fromnative.go:94-118 | a message's events are read as envelope and then calls in id order, however shuffled |
| OpencodeReplay.CallsInOrder | internal/adapter/opencode/fromnative.go:94-118 | the ranks give tool calls increasing numbers above the envelope's |
| Opencode.MessageEvents | internal/adapter/opencode/fromnative.go:82-215 | a user's message gives one UserMessage and no AssistantMessage, an assistant's the other way round, under its id, at its time, with its info and non-tool parts; each reasoning part one Thinking, each other non-text part one System, each tool part one ToolCall and, exactly when resolved, one ToolResult numbered one higher; a part's number is as far above the message's as there are parts up to its id; nothing else is emitted |
| Opencode.MessageGives | internal/adapter/opencode/fromnative.go:82-215 | the same of the specified events |
| Opencode.RankIsCount | internal/adapter/opencode/fromnative.go:94-118 | a part's rank counts the parts whose id does not sort after its own, in whatever order they come |
| Opencode.FromPart | internal/adapter/opencode/fromnative.go:120-178 | what one part gives and whether the envelope carries it |
| OpencodeImport.BuildImport | internal/adapter/opencode/tonative.go:47-142 | the sorted events gathered per named message, messages without info dropped |
| OpencodeImport.PrunedKeeps | internal/adapter/opencode/tonative.go:120-142 | the transcript keeps exactly the messages that have an info, as they are and in order |
| OpencodeImport.OrphanIsDropped | internal/adapter/opencode/tonative.go:196-209 | a tool call whose part names no message is gathered under the part's own id, which no info comes for |
| OpencodeImport.Transcript.EnsureMessage | internal/adapter/opencode/tonative.go:61-74 | the slot of a message, made or completed with its info |
| OpencodeImport.Transcript.AddEvent | internal/adapter/opencode/tonative.go:76-118 | one more event keeps messages and index what the events so far give |
| ProtoWire.MessagesAreFieldSequences | internal/adapter/antigravity/protowire.go:177-222 | the scan accepts exactly the non-empty sequences of well-formed fields |
| ProtoWire.ScanMessage | internal/adapter/antigravity/protowire.go:177-222 | the loop decides that |
| ProtoWire.DecodeDistributes | internal/adapter/antigravity/protowire.go:62-131 | the leaves of an accepted buffer followed by anything are its leaves and then those of what follows |
| ProtoWire.LeavesAreSlices | internal/adapter/antigravity/protowire.go:69-131 | the leaves are disjoint slices of the input, in order |
| ProtoWire.LeavesFit | internal/adapter/antigravity/protowire.go:62-131 | their lengths sum to at most the buffer's |
| ProtoWire.LeavesAreGood | internal/adapter/antigravity/protowire.go:69-140 | every leaf is text under a path of at most 25 field numbers, none 0 |
| ProtoWire.VarintRoundTrip | internal/adapter/antigravity/protowire.go:145-160 | reading undoes base-128 encoding for every 64-bit value, whatever follows |
| ProtoWire.VarintFound | internal/adapter/antigravity/protowire.go:145-160 | a varint is found exactly when one starts the buffer, with its value cut to 64 bits |
| ProtoWire.ReadVarint | internal/adapter/antigravity/protowire.go:145-160 | the loop of shifts and bitwise ors on 64 bits computes value and length |
| ProtoWire.GroupOred | internal/adapter/antigravity/protowire.go:145-160 | or-ing seven bits in at their place is adding them, and what a tenth byte carries past bit 63 is lost |
| ProtoWire.FieldIsRead | internal/adapter/antigravity/protowire.go:69-109 | a well-formed field is read to its end whatever follows |
| ProtoWire.ReadIsField | internal/adapter/antigravity/protowire.go:69-109 | what is read is a well-formed field |
| ProtoWire.Walk | internal/adapter/antigravity/protowire.go:69-131 | the walk appends the leaves of the body, which `ProtoWire.LeavesOccur` describes, to those already there |
| ProtoWire.LeavesOccur | internal/adapter/antigravity/protowire.go:57-131 | the leaves are exactly what occurs in the buffer, in order and each once: the data of each length-delimited field before the first malformed one, gone into if it is itself a non-empty field sequence, otherwise a leaf if it is text, at most 25 deep |
| ProtoWire.DecodeStrings | internal/adapter/antigravity/protowire.go:62-66 | the leaves that occur in the buffer, by its well-formed fields, in order and each once |
| ProtoWire.AsString | internal/adapter/antigravity/protowire.go:228-249 | at least 3 bytes, valid UTF-8, nine runes in ten printable |
| Utf8.TextIsEncoded | internal/adapter/antigravity/protowire.go:228-249 | a buffer counts as text exactly when it is three bytes or more and the UTF-8 encoding of Unicode scalar values nine in ten of which are no control characters |
| Utf8.TextTakenForMessage | internal/adapter/antigravity/protowire.go:114-126 | a text that is also a field sequence gives no leaf |
| ProtoWire.TextConcat | internal/adapter/antigravity/protowire.go:228-249 | text followed by text is text |
| Pairing.ClaimedAtMostOnce | internal/serve/auth_handlers.go:598-671 | over every interleaving with sweeps and restarts a code is claimed at most once, by a request with the published verifier before expiry |
| Pairing.SpentForGood | internal/storage/sql/sqlite/identity.go:286-317 | once its row is claimed or gone a code is never claimed |
| PairingRace.OverlappingGuesses | internal/serve/auth_handlers.go:598-712 | however requests overlap, from a restart on a code is compared with at most four wrong verifiers and one more for each handler in flight when its row was claimed or went: those about to delete it and those that had read it |
| PairingRace.OpenCompares | internal/serve/auth_handlers.go:687-712 | while a code is open that bound counts only the handlers about to delete it |
| Pairing.FifthGuessRemoves | internal/serve/auth_handlers.go:687-712 | one request at a time from a restart on, a code survives wrong verifiers exactly while there are fewer than five |
| Pairing.HandledIsOneHandler | internal/serve/auth_handlers.go:598-671 | a handler nothing comes between does what the request as a whole does |
| Pairing.NextKeepsInv | internal/serve/auth_handlers.go:598-712 | every access keeps the invariant, and a claim spends a code that was not spent |
| Pairing.CanBeWon | internal/serve/auth_handlers.go:598-671 | a published code is won by the first request with its verifier before expiry |
| Pairing.OtherSteps | internal/storage/sql/sqlite/identity.go:312-317 | publishing opens a code, a sweep takes exactly the expired rows, a restart forgets the failures and no row |
| Pairing.PairServer.HandlePairClaim | internal/serve/auth_handlers.go:598-671 | 200 exactly for the published verifier on an unclaimed, unexpired row, which is then claimed and its failures forgotten; 401 exactly for a wrong one on an open row with fewer than four failures before, counted; 404 exactly without a row, past expiry, or at the fifth failure, and the row is gone; 410 exactly for a claimed row (or the right verifier at the very instant of expiry), nothing changed; no other code is touched |
| Pairing.AnsweredRightly | internal/serve/auth_handlers.go:598-671 | of the four statuses exactly one fits the tables and the request, and it is the one answered |
| Pairing.OkIsWin | internal/serve/auth_handlers.go:646-670 | a request is answered 200 exactly when it turned the row claimed, and exactly when its handler, left alone, wins the code |
| Pairing.PairServer.Claim | internal/storage/sql/sqlite/identity.go:286-305 | the compare-and-set: unclaimed and unexpired, else no change |
| Pairing.PairServer.RecordFailure | internal/serve/auth_handlers.go:687-692 | one more failure for the code, and how many |
| Pairing.PairServer.Lockout | internal/serve/auth_handlers.go:709-712 | row and counter gone |
| AtRest.Server.Push | internal/serve/atrest.go:112-121 | the row is stored sealed when at-rest is on; refused, changing nothing, exactly when the brain's key is under another master key |
| AtRest.Server.Pull | internal/serve/atrest.go:125-134 | any plaintext that comes back is the text pushed; with at-rest on a row comes back exactly when it is sealed and its brain's key is under the current master key, and WrongMasterKey exactly when that key is under another |
| AtRest.Server.BrainDEK | internal/serve/atrest.go:70-108 | no key exactly when at-rest is off; a missing key is made; one under another master key is an error; the cache agrees with the store |
| AtRest.Server.Provision | internal/serve/atrest.go:35-55 | the key is stored wrapped and remembered, whatever was there; all rows stay readable exactly when at-rest is off, the brain has no sealed row, or the key drawn is the one it had |
| AtRest.Server.Restart | internal/serve/atrest.go:70-108 | an empty cache agrees with the store under any master key |
| AtRest.StillReadable | internal/serve/atrest.go:35-55 | putting a key in the place of another leaves all rows readable exactly when the brain has no sealed row or the key is the same |
| AtRestRun.StoreIsSafeIff | internal/storage/sql/sqlite/tenancy.go:137-146 | a store of a key, by the handler that creates a brain or by one that found its key missing, is safe whatever follows without another careless one exactly when there is no key, the same key, or one that seals no row, is not cached and no handler holds |
| AtRestRun.SafeIsRead | internal/serve/atrest.go:70-108 | a row is safe exactly when a process just started that fetches and remembers its brain's key opens it to what was pushed |
| AtRestRun.CarefulIsSafe | internal/serve/atrest.go:35-108 | while no store overwrites a key in use, interleaved creations, handlers, failures and restarts keep every row readable |
| AtRestRun.CreatorLosesARow | internal/serve/brains.go:151-164 | a member uses a brain between its becoming visible and its creator's store; the creator overwrites the key and the row is lost, though nobody else is provisioning |
| AtRestRun.AloneIsSafe | internal/serve/atrest.go:70-108 | with one handler provisioning a brain at a time, its creator included, no key in use is overwritten and every row stays readable |
| AtRestRun.AloneFromStart | internal/serve/atrest.go:35-108 | the same of every such run of an empty server |
| AtRestRun.SafeIffAlone | internal/serve/atrest.go:70-108 | a handler that finds a brain's key missing is safe, whatever follows with each later one alone, exactly when no other handler, the brain's creator included, is provisioning that brain |
| AtRestRun.OverlapLosesARow | internal/serve/auth_handlers.go:299-318 | from any state with two handlers provisioning one brain, its creator perhaps one of them, for any two keys they draw, steps that leave a row nothing can open, before and after a restart |
| ManagedBlock.InstallTwice | internal/adapter/codex/install_mcp.go:106-153 | for every text and well-formed block, splicing again gives what splicing the second block once gives |
| ManagedBlock.UninstallUndoes | internal/adapter/codex/install_mcp.go:106-153 | taking the block out gives the text back exactly when it is empty or newline-terminated and has no begin-marker line |
| ManagedBlock.Strip | internal/adapter/codex/install_mcp.go:126-153 | the line loop and its early return both drop the marked lines and one blank line before them |
| ManagedBlock.Splice | internal/adapter/codex/install_mcp.go:106-121 | the stripped text closed by a newline, a blank line and the block |
| ManagedBlock.StripAppended | internal/adapter/codex/install_mcp.go:106-153 | a block just appended is taken out with the blank line before it |
| ManagedBlock.BlockAtEnd | internal/adapter/codex/install_mcp.go:106-121 | the block goes at the end of the file, at the start of a line and with one empty line between it and the text, if there is any |
| ManagedBlock.StripKeeps | internal/adapter/codex/install_mcp.go:126-153 | after any lines, nothing of a block is kept, and of the lines outside blocks only blank ones are lost, at most one for each begin marker |
| McpConfig.FileRoundTrip | internal/adapter/codex/install_mcp.go:42-85 | installing and uninstalling the file restores what a reader saw exactly when that was empty, or newline-terminated, not blank and without a begin marker |
| McpConfig.Reinstall | internal/adapter/codex/install_mcp.go:42-62 | installing another path over one is installing it once |
| McpConfig.RenderedIsBlock | internal/adapter/codex/install_mcp.go:89-100 | the rendered text is a well-formed block for every path without a newline |
| McpConfig.RenderedReads | internal/adapter/codex/install_mcp.go:89-100 | between the markers a reader finds the server's table, a command that reads as the path, and the argument mcp |
| McpConfig.QuotingRoundTrip | internal/adapter/codex/install_mcp.go:158-161 | the quoted path reads back as the path |
| McpConfig.ConfigFile.Install | internal/adapter/codex/install_mcp.go:42-62 | the file holds the spliced text |
| McpConfig.ConfigFile.Uninstall | internal/adapter/codex/install_mcp.go:68-85 | the file holds the stripped text, or is gone if that is blank |

## Left out

- HTTP plumbing, authentication, body limits, device minting, the SSE slot counter and heartbeats.
- JSON encoding and decoding: a blob of one table under another table's key counts as malformed.
- The clock: expiry and due times are arguments, and a line or message without a readable time stamp is not covered.
- Liveness under retry, tickers and reconnects, and the pull and SSE cursors moving at once.
- Failures of a single database read, and directories standing where a key's file should be: the file tree is a flat map.
- Several brains active in one client; each run of the client acts for one brain.
- Secrecy, timing, key derivation and key wiping; ciphers and hashes are ideal.
- DeleteScope, Search, sessions and slots tables, and ListLearnings: reads and deletes that add only easy members.
- 64-bit overflow of plan versions, outbox sequence numbers and opencode times; only the Codex sequence numbers wrap as in the source.
- sessionIDFromFilename: the id taken from a Codex file name is an argument.
- The scope walk deriveScope, content texts and models of captured events, and the import file's session info.
- Claude replay, hook-captured events, the prime-mode markdown and the context renderers.
- OpencodeStore.ImportFromStore: events with repeated uuids, of which the event store keeps one; and the converse, because what is lost at a tie may be an event that names no message.
- ProtoWire.ParseField: the switch that walk and scanMessage each spell out is written once.
- EventStore.Store.List: rows with one sequence number come in insertion order, which SQL leaves open.
- PlanRun.RunsStayLinear: deletions do not interleave with half-done appends, because the database's transactions keep them apart.
- Pairing.ClaimedAtMostOnce: code ids are published once, as random ids are.
