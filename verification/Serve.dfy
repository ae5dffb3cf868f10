/** The sync handlers of `resleeve serve`: push writes rows one by one under the
    acting brain and notifies subscribers; pull returns one page of client keys. */
module Serve {
  import opened Wrappers
  import opened Lex
  import opened Segments
  import opened Tenancy
  import KeyFiles
  import Fanout

  datatype PushRow<+B> = PushRow(key: string, blob: B)

  datatype PushReply = PushReply(status: nat, committed: seq<string>)

  datatype PullReply<+B> = PullFailed(status: nat) | Page(rows: seq<PushRow<B>>, nextCursor: string)

  predicate PushAccepts<B>(brain: string, row: PushRow<B>) {
    AllowedPushKey(row.key) && KeyFiles.ValidKey(ScopeKey(brain, row.key))
  }

  /** How many leading rows of a batch pass the key checks. */
  function AcceptedPrefix<B>(brain: string, batch: seq<PushRow<B>>): (n: nat)
    ensures n <= |batch|
  {
    if batch != [] && PushAccepts(brain, batch[0]) then 1 + AcceptedPrefix(brain, batch[1..]) else 0
  }

  /** How many rows of a push are written when the backend fails at row `stop`. */
  function Written<B>(brain: string, batch: seq<PushRow<B>>, stop: nat): (n: nat)
    ensures n <= |batch|
  {
    if stop < AcceptedPrefix(brain, batch) then stop else AcceptedPrefix(brain, batch)
  }

  function PutRows<B>(store: map<string, B>, brain: string, batch: seq<PushRow<B>>): map<string, B>
    decreases |batch|
  {
    if batch == [] then store
    else
      var last := batch[|batch| - 1];
      PutRows(store, brain, batch[..|batch| - 1])[ScopeKey(brain, last.key) := last.blob]
  }

  /** The hub after the memory rows of a batch were published in order. */
  function PublishRows<B>(h: Fanout.HubState<PushRow<B>>, brain: string, batch: seq<PushRow<B>>): Fanout.HubState<PushRow<B>>
    decreases |batch|
  {
    if batch == [] then h
    else
      var last := batch[|batch| - 1];
      var before := PublishRows(h, brain, batch[..|batch| - 1]);
      if OfKind("memory", last.key) then before.Publish(brain, PushRow(ScopeKey(brain, last.key), last.blob))
      else before
  }

  function KeysOf<B>(batch: seq<PushRow<B>>): (r: seq<string>)
    ensures |r| == |batch|
    ensures forall i :: 0 <= i < |r| ==> r[i] == batch[i].key
  {
    seq(|batch|, i requires 0 <= i < |batch| => batch[i].key)
  }

  lemma {:induction false} KeysOfMore<B>(batch: seq<PushRow<B>>, i: nat)
    requires i < |batch|
    ensures KeysOf(batch)[..i] + [batch[i].key] == KeysOf(batch)[..i + 1]
  {
  }

  lemma {:induction false} AcceptedPrefixIs<B>(brain: string, batch: seq<PushRow<B>>)
    ensures forall i :: 0 <= i < AcceptedPrefix(brain, batch) ==> PushAccepts(brain, batch[i])
    ensures AcceptedPrefix(brain, batch) < |batch| ==> !PushAccepts(brain, batch[AcceptedPrefix(brain, batch)])
  {
    hide PushAccepts;
    if batch != [] && PushAccepts(brain, batch[0]) {
      AcceptedPrefixIs(brain, batch[1..]);
    }
  }

  /** A push stops exactly at its first refused or failing row. */
  lemma {:induction false} WrittenStops<B>(brain: string, batch: seq<PushRow<B>>, stop: nat, i: nat)
    requires i <= Written(brain, batch, stop) && i < |batch|
    ensures i == Written(brain, batch, stop) <==> !PushAccepts(brain, batch[i]) || i == stop
  {
    AcceptedPrefixIs(brain, batch);
  }

  lemma {:induction false} PutRowsStep<B>(store: map<string, B>, brain: string, batch: seq<PushRow<B>>, i: nat)
    requires i < |batch|
    ensures PutRows(store, brain, batch[..i + 1]) ==
            PutRows(store, brain, batch[..i])[ScopeKey(brain, batch[i].key) := batch[i].blob]
  {
    assert batch[..i + 1][..i] == batch[..i];
  }

  lemma {:induction false} PublishRowsStep<B>(h: Fanout.HubState<PushRow<B>>, brain: string, batch: seq<PushRow<B>>, i: nat)
    requires i < |batch|
    ensures var before := PublishRows(h, brain, batch[..i]);
            PublishRows(h, brain, batch[..i + 1]) ==
            if OfKind("memory", batch[i].key)
            then before.Publish(brain, PushRow(ScopeKey(brain, batch[i].key), batch[i].blob)) else before
  {
    assert batch[..i + 1][..i] == batch[..i];
  }

  /** What a push leaves behind: the last blob the batch gives a key, and every
      other key as it was. */
  lemma {:induction false} PutRowsStores<B>(store: map<string, B>, brain: string, batch: seq<PushRow<B>>, i: nat)
    requires i < |batch|
    requires forall j :: i < j < |batch| ==> ScopeKey(brain, batch[j].key) != ScopeKey(brain, batch[i].key)
    ensures ScopeKey(brain, batch[i].key) in PutRows(store, brain, batch)
    ensures PutRows(store, brain, batch)[ScopeKey(brain, batch[i].key)] == batch[i].blob
    decreases |batch|
  {
    if i < |batch| - 1 {
      PutRowsStores(store, brain, batch[..|batch| - 1], i);
    }
  }

  lemma {:induction false} PutRowsFrame<B>(store: map<string, B>, brain: string, batch: seq<PushRow<B>>, k: string)
    requires forall i :: 0 <= i < |batch| ==> ScopeKey(brain, batch[i].key) != k
    ensures k in PutRows(store, brain, batch) <==> k in store
    ensures k in store ==> PutRows(store, brain, batch)[k] == store[k]
    decreases |batch|
  {
    if batch != [] {
      PutRowsFrame(store, brain, batch[..|batch| - 1], k);
    }
  }

  /** The client keys of one kind that a store holds for a brain. */
  ghost function ClientKeys<B>(store: map<string, B>, brain: string, kind: string): set<string> {
    set s | s in store && ScopePrefix(brain, kind) + "/" <= s :: UnscopeKey(brain, s)
  }

  lemma {:induction false} StoredIsScoped(brain: string, kind: string, s: string)
    requires ScopePrefix(brain, kind) + "/" <= s
    ensures s == ScopeKey(brain, UnscopeKey(brain, s))
    ensures OfKind(kind, UnscopeKey(brain, s))
  {
    if brain != "" {
      assert ScopePrefix(brain, kind) + "/" == (brain + "/") + (kind + "/");
      assert brain + "/" <= s;
      assert s == brain + "/" + s[|brain| + 1..];
    }
    UnderPrefix(brain, kind, UnscopeKey(brain, s));
  }

  lemma {:induction false} ClientKeysAre<B>(store: map<string, B>, brain: string, kind: string)
    ensures forall k :: k in ClientKeys(store, brain, kind) <==> OfKind(kind, k) && ScopeKey(brain, k) in store
  {
    forall k ensures k in ClientKeys(store, brain, kind) <==> OfKind(kind, k) && ScopeKey(brain, k) in store {
      if k in ClientKeys(store, brain, kind) {
        var s :| s in store && ScopePrefix(brain, kind) + "/" <= s && k == UnscopeKey(brain, s);
        StoredIsScoped(brain, kind, s);
      }
      if OfKind(kind, k) && ScopeKey(brain, k) in store {
        UnderPrefix(brain, kind, k);
        UnscopeUndoesScope(brain, k);
      }
    }
  }

  function Unscoped(brain: string, page: seq<string>): (r: seq<string>)
    ensures |r| == |page|
    ensures forall i :: 0 <= i < |r| ==> r[i] == UnscopeKey(brain, page[i])
  {
    seq(|page|, i requires 0 <= i < |page| => UnscopeKey(brain, page[i]))
  }

  ghost function UnderDir<B>(store: map<string, B>, prefix: string): set<string> {
    set s | s in store && prefix + "/" <= s
  }

  lemma {:induction false} StoredPageRows<B>(store: map<string, B>, brain: string, kind: string, since: string, page: seq<string>)
    requires Ascending(page)
    requires forall k :: k in page ==> k in UnderDir(store, ScopePrefix(brain, kind)) && Less(ScopeCursor(brain, since), k)
    ensures Ascending(Unscoped(brain, page))
    ensures forall i :: 0 <= i < |page| ==>
              && page[i] == ScopeKey(brain, Unscoped(brain, page)[i])
              && Unscoped(brain, page)[i] in ClientKeys(store, brain, kind)
              && Less(since, Unscoped(brain, page)[i])
  {
    var out := Unscoped(brain, page);
    forall i | 0 <= i < |page|
      ensures page[i] == ScopeKey(brain, out[i])
      ensures out[i] in ClientKeys(store, brain, kind) && Less(since, out[i])
    {
      assert page[i] in page;
      StoredIsScoped(brain, kind, page[i]);
      ScopeCursorCuts(brain, since, out[i]);
    }
    forall i, j | 0 <= i < j < |out| ensures Less(out[i], out[j]) {
      ScopeKeepsOrder(brain, out[i], out[j]);
    }
  }

  lemma {:induction false} StoredPageMisses<B>(store: map<string, B>, brain: string, kind: string, since: string, limit: nat,
                            page: seq<string>, next: string, k: string)
    requires IsPage(UnderDir(store, ScopePrefix(brain, kind)), ScopeCursor(brain, since), limit, page, next)
    requires k in ClientKeys(store, brain, kind) && Less(since, k) && k !in Unscoped(brain, page)
    ensures |page| == limit
    ensures page != [] ==> Less(UnscopeKey(brain, page[|page| - 1]), k)
  {
    var s := ScopeKey(brain, k);
    ClientKeysAre(store, brain, kind);
    UnderPrefix(brain, kind, k);
    ScopeCursorCuts(brain, since, k);
    UnscopeUndoesScope(brain, k);
    forall i | 0 <= i < |page| ensures page[i] != s {
      assert Unscoped(brain, page)[i] in Unscoped(brain, page);
    }
    if page != [] {
      var last := page[|page| - 1];
      assert last in page;
      StoredIsScoped(brain, kind, last);
      ScopeKeepsOrder(brain, UnscopeKey(brain, last), k);
    }
  }

  /** A page of stored keys under (brain, kind) after the re-scoped cursor is, with
      the brain stripped, the page of client keys after the client's cursor. */
  lemma {:induction false} StoredPageIsClientPage<B>(store: map<string, B>, brain: string, kind: string,
          since: string, limit: nat, page: seq<string>, next: string)
    requires IsPage(UnderDir(store, ScopePrefix(brain, kind)), ScopeCursor(brain, since), limit, page, next)
    ensures IsPage(ClientKeys(store, brain, kind), since, limit, Unscoped(brain, page), UnscopeKey(brain, next))
    ensures forall i :: 0 <= i < |page| ==> page[i] == ScopeKey(brain, Unscoped(brain, page)[i])
  {
    StoredPageRows(store, brain, kind, since, page);
    forall k | k in ClientKeys(store, brain, kind) && Less(since, k) && k !in Unscoped(brain, page)
      ensures |page| == limit && (page != [] ==> Less(UnscopeKey(brain, page[|page| - 1]), k))
    {
      StoredPageMisses(store, brain, kind, since, limit, page, next, k);
    }
    assert UnscopeKey(brain, "") == "";
  }

  /** Every row carries the blob the store holds under its scoped key. */
  ghost predicate RowsAreStored<B>(store: map<string, B>, brain: string, rows: seq<PushRow<B>>) {
    forall i :: 0 <= i < |rows| ==>
      ScopeKey(brain, rows[i].key) in store && rows[i].blob == store[ScopeKey(brain, rows[i].key)]
  }

  /** ?limit= as parsed: absent, unreadable and non-positive values fall back to the
      default, large ones are capped. */
  function PageLimit(raw: Option<int>, default: nat): nat {
    match raw
    case None => default
    case Some(n) => if n <= 0 then default else if n > 500 then 500 else n
  }

  /** A page of the acting brain's client keys after the cursor, with their blobs. */
  ghost predicate AnswersPull<B>(store: map<string, B>, brain: string, kind: string, since: string,
          limit: Option<int>, reply: PullReply<B>)
    requires reply.Page?
  {
    && IsPage(ClientKeys(store, brain, kind), since, PageLimit(limit, 100), KeysOf(reply.rows), reply.nextCursor)
    && RowsAreStored(store, brain, reply.rows)
  }

  /** How many rows an answer has: as many as there are, up to the number asked for, which
      is at most 500, and 100 where it is missing or not positive. The cursor says whether
      the answer was cut there. */
  lemma {:induction false} AnswerSize<B>(store: map<string, B>, brain: string, kind: string, since: string,
          limit: Option<int>, reply: PullReply<B>)
    requires reply.Page? && AnswersPull(store, brain, kind, since, limit, reply)
    ensures |reply.rows| <= 500 && (reply.nextCursor == "" <==> |reply.rows| < PageLimit(limit, 100))
    ensures limit.Some? && 1 <= limit.value <= 500 ==> PageLimit(limit, 100) == limit.value
    ensures limit.Some? && limit.value > 500 ==> PageLimit(limit, 100) == 500
    ensures limit.None? || limit.value <= 0 ==> PageLimit(limit, 100) == 100
    ensures |reply.rows| < PageLimit(limit, 100) ==>
              forall k :: k in ClientKeys(store, brain, kind) && Less(since, k) ==> k in KeysOf(reply.rows)
  {
    if |reply.rows| == PageLimit(limit, 100) {
      var keys := KeysOf(reply.rows);
      assert keys[|keys| - 1] in keys && Less(since, keys[|keys| - 1]);
    }
  }

  lemma {:induction false} KindPrefixIsValid(single: bool, brain: string, kind: string)
    requires BrainId(single, brain) && ValidKind(kind)
    ensures KeyFiles.ValidKey(KeyFiles.TrimSlash(ScopePrefix(brain, kind)))
    ensures KeyFiles.TrimSlash(ScopePrefix(brain, kind)) == ScopePrefix(brain, kind) != ""
  {
    SplitPlain(kind, '/');
    if !single {
      SplitPlain(brain, '/');
      SplitAtSeparator(brain, kind, '/');
      assert ScopePrefix(brain, kind)[|ScopePrefix(brain, kind)| - 1] == kind[|kind| - 1];
    }
  }

  class Server<B> {
    const backend: KeyFiles.Backend<B>
    const hub: Fanout.Hub<PushRow<B>>

    ghost predicate Valid()
      reads this, backend, hub
    {
      backend.Valid() && hub.State().Valid()
    }

    constructor ()
      ensures Valid() && backend.blobs == map[] && fresh(backend) && fresh(hub)
    {
      var b := new KeyFiles.Backend();
      var h := new Fanout.Hub();
      backend, hub := b, h;
    }

    /** One accepted row: store it, then notify if it is a memory row. */
    method StoreRow(brain: string, row: PushRow<B>)
      requires Valid() && KeyFiles.ValidKey(ScopeKey(brain, row.key))
      modifies backend, hub
      ensures Valid()
      ensures backend.blobs == old(backend.blobs)[ScopeKey(brain, row.key) := row.blob]
      ensures hub.State() ==
              if OfKind("memory", row.key)
              then old(hub.State()).Publish(brain, PushRow(ScopeKey(brain, row.key), row.blob))
              else old(hub.State())
    {
      var stored := ScopeKey(brain, row.key);
      var _ := backend.Put(stored, row.blob, false);
      if OfKind("memory", row.key) {
        hub.Publish(brain, PushRow(stored, row.blob));
      }
    }

    /** `stop` is the row at which the backend fails, if it does. The rows before the
        first refused or failed one stay written and published although the reply
        then commits nothing. */
    method HandlePush(brain: string, batch: seq<PushRow<B>>, stop: nat) returns (reply: PushReply)
      requires Valid()
      modifies backend, hub
      ensures Valid()
      ensures backend.blobs == PutRows(old(backend.blobs), brain, batch[..Written(brain, batch, stop)])
      ensures hub.State() == PublishRows(old(hub.State()), brain, batch[..Written(brain, batch, stop)])
      ensures reply.status == 200 <==> Written(brain, batch, stop) == |batch| != 0
      ensures reply.committed == if reply.status == 200 then KeysOf(batch) else []
    {
      if |batch| == 0 {
        return PushReply(400, []);
      }
      ghost var n := Written(brain, batch, stop);
      assert PutRows(backend.blobs, brain, batch[..0]) == backend.blobs;
      assert PublishRows(hub.State(), brain, batch[..0]) == hub.State();
      hide PutRows, PublishRows;
      var committed: seq<string> := [];
      var i := 0;
      while i < |batch|
        invariant 0 <= i <= n
        invariant Valid()
        invariant backend.blobs == PutRows(old(backend.blobs), brain, batch[..i])
        invariant hub.State() == PublishRows(old(hub.State()), brain, batch[..i])
        invariant committed == KeysOf(batch)[..i]
      {
        WrittenStops(brain, batch, stop, i);
        if !PushAccepts(brain, batch[i]) || i == stop {
          return PushReply(400, []);
        }
        PutRowsStep(old(backend.blobs), brain, batch, i);
        PublishRowsStep(old(hub.State()), brain, batch, i);
        StoreRow(brain, batch[i]);
        KeysOfMore(batch, i);
        committed := committed + [batch[i].key];
        i := i + 1;
      }
      assert batch[..i] == batch;
      return PushReply(200, committed);
    }

    /** Reads the listed keys back and strips the brain from each. */
    method ReadRows(brain: string, keys: seq<string>) returns (rows: seq<PushRow<B>>)
      requires Valid()
      requires forall i :: 0 <= i < |keys| ==> keys[i] in backend.blobs
      ensures |rows| == |keys|
      ensures forall i :: 0 <= i < |keys| ==> rows[i] == PushRow(UnscopeKey(brain, keys[i]), backend.blobs[keys[i]])
    {
      rows := [];
      var i := 0;
      while i < |keys|
        invariant 0 <= i <= |keys| && |rows| == i
        invariant forall j :: 0 <= j < i ==> rows[j] == PushRow(UnscopeKey(brain, keys[j]), backend.blobs[keys[j]])
      {
        var blob := backend.Get(keys[i]);
        assert KeyFiles.ValidKey(keys[i]);
        rows := rows + [PushRow(UnscopeKey(brain, keys[i]), blob.value)];
        i := i + 1;
      }
    }

    /** One page of a kind, read back for the acting brain. */
    method HandlePull(ghost single: bool, brain: string, kind: string, since: string, limit: Option<int>)
      returns (reply: PullReply<B>)
      requires Valid() && BrainId(single, brain)
      ensures reply.PullFailed? <==> !ValidKind(kind)
      ensures reply.Page? ==> AnswersPull(backend.blobs, brain, kind, since, limit, reply)
    {
      if !ValidKind(kind) {
        return PullFailed(400);
      }
      KindPrefixIsValid(single, brain, kind);
      var max := PageLimit(limit, 100);
      var listed := backend.List(ScopePrefix(brain, kind), ScopeCursor(brain, since), max);
      var (keys, next) := listed.value;
      PageAnswer(backend.blobs, brain, kind, since, max, keys, next);
      var rows := ReadRows(brain, keys);
      assert KeysOf(rows) == Unscoped(brain, keys);
      return Page(rows, UnscopeKey(brain, next));
    }
  }

  /** A listed page, once read back, is the answer to the client. */
  lemma {:induction false} PageAnswer<B>(store: map<string, B>, brain: string, kind: string, since: string,
          limit: nat, keys: seq<string>, next: string)
    requires KeyFiles.TrimSlash(ScopePrefix(brain, kind)) == ScopePrefix(brain, kind) != ""
    requires IsPage(KeyFiles.KeysUnder(store.Keys, ScopePrefix(brain, kind)), ScopeCursor(brain, since), limit, keys, next)
    ensures forall i :: 0 <= i < |keys| ==> keys[i] in store && keys[i] == ScopeKey(brain, Unscoped(brain, keys)[i])
    ensures IsPage(ClientKeys(store, brain, kind), since, limit, Unscoped(brain, keys), UnscopeKey(brain, next))
  {
    assert KeyFiles.KeysUnder(store.Keys, ScopePrefix(brain, kind)) == UnderDir(store, ScopePrefix(brain, kind));
    StoredPageIsClientPage(store, brain, kind, since, limit, keys, next);
    assert forall i :: 0 <= i < |keys| ==> keys[i] in keys;
  }
}
