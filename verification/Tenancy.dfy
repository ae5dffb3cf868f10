/** Partition of the server keyspace by brain. The client's keys carry no brain;
    the server prepends the acting brain and strips it on the way back. */
module Tenancy {
  import opened Lex
  import opened Segments

  function ScopeKey(brain: string, key: string): string {
    if brain == "" then key else brain + "/" + key
  }

  function UnscopeKey(brain: string, key: string): string {
    if brain == "" then key
    else if brain + "/" <= key then key[|brain| + 1..]
    else key
  }

  function ScopePrefix(brain: string, kind: string): string {
    if brain == "" then kind else brain + "/" + kind
  }

  function ScopeCursor(brain: string, cursor: string): string {
    if brain == "" || cursor == "" then cursor else brain + "/" + cursor
  }

  /** Wire kinds accepted by pull and SSE. */
  predicate ValidKind(kind: string) {
    kind == "sessions" || kind == "events" || kind == "memory"
  }

  /** A key of the given kind as the client names it. */
  predicate OfKind(kind: string, key: string) {
    kind + "/" <= key
  }

  /** Keys a push may name. */
  predicate AllowedPushKey(key: string) {
    OfKind("sessions", key) || OfKind("events", key) || OfKind("memory", key)
  }

  /** Brain ids are generated hex strings: one tenant with no id, or ids that are
      one non-empty segment. */
  predicate BrainId(singleTenant: bool, brain: string) {
    if singleTenant then brain == "" else brain != "" && brain != "." && brain != ".." && '/' !in brain
  }

  lemma {:induction false} UnscopeUndoesScope(brain: string, key: string)
    ensures UnscopeKey(brain, ScopeKey(brain, key)) == key
  {
    if brain != "" {
      assert brain + "/" + key == (brain + "/") + key;
    }
  }

  lemma {:induction false} ScopeKeepsOrder(brain: string, a: string, b: string)
    ensures Less(ScopeKey(brain, a), ScopeKey(brain, b)) <==> Less(a, b)
  {
    if brain != "" {
      LessUnderPrefix(brain + "/", a, b);
    }
  }

  /** Re-scoping a client cursor cuts a brain's keys at the same place. The first
      page has no cursor: there the brain's own prefix already lies after it. */
  lemma {:induction false} ScopeCursorCuts(brain: string, cursor: string, key: string)
    requires key != ""
    ensures Less(ScopeCursor(brain, cursor), ScopeKey(brain, key)) <==> Less(cursor, key)
  {
    if cursor != "" {
      ScopeKeepsOrder(brain, cursor, key);
    }
  }

  /** A stored key lies under (brain, kind) exactly when it is some key of that kind
      scoped to that brain. */
  lemma {:induction false} UnderPrefix(brain: string, kind: string, key: string)
    ensures OfKind(kind, key) <==> ScopePrefix(brain, kind) + "/" <= ScopeKey(brain, key)
  {
    if brain != "" {
      var p := brain + "/";
      assert ScopePrefix(brain, kind) + "/" == p + (kind + "/");
      assert ScopeKey(brain, key) == p + key;
      if p + (kind + "/") <= p + key {
        assert (p + key)[|p|..] == key;
        assert kind + "/" == (p + key)[|p|..|p| + |kind| + 1];
      }
    }
  }

  lemma {:induction false} FirstSegmentIs(kind: string, key: string)
    requires '/' !in kind
    ensures OfKind(kind, key) <==> |Split(key, '/')| >= 2 && Split(key, '/')[0] == kind
  {
    var segs := Split(key, '/');
    if OfKind(kind, key) {
      var rest := key[|kind| + 1..];
      assert key == kind + "/" + rest;
      SplitAtSeparator(kind, rest, '/');
      SplitPlain(kind, '/');
    }
    if |segs| >= 2 && segs[0] == kind {
      JoinSplit(key, '/');
      assert key == kind + "/" + Join(segs[1..], '/');
    }
  }

  /** A push may name a key exactly when its first segment is one of the three kinds and
      another follows; then it is of that one kind, which pull accepts. */
  lemma {:induction false} PushKeysHaveAKind(key: string)
    ensures AllowedPushKey(key) <==> |Split(key, '/')| >= 2 && Split(key, '/')[0] in {"sessions", "events", "memory"}
    ensures AllowedPushKey(key) ==> ValidKind(Split(key, '/')[0])
    ensures forall kind :: ValidKind(kind) && OfKind(kind, key) ==> AllowedPushKey(key) && kind == Split(key, '/')[0]
  {
    FirstSegmentIs("sessions", key);
    FirstSegmentIs("events", key);
    FirstSegmentIs("memory", key);
  }

  /** The first segment of a path determines where it ends. */
  lemma {:induction false} FirstSegment(a: string, ra: string, b: string, rb: string)
    requires '/' !in a && '/' !in b
    requires a + "/" + ra == b + "/" + rb
    ensures a == b && ra == rb
  {
    SplitAtSeparator(a, ra, '/');
    SplitAtSeparator(b, rb, '/');
    SplitPlain(a, '/');
    SplitPlain(b, '/');
    assert a == Split(a + "/" + ra, '/')[0] == b;
    assert (a + "/" + ra)[|a| + 1..] == ra;
    assert (b + "/" + rb)[|b| + 1..] == rb;
  }

  /** No brain's listing reaches into another brain: the first segment decides. */
  lemma {:induction false} BrainsAreDisjoint(single: bool, b1: string, b2: string, kind: string, key: string)
    requires BrainId(single, b1) && BrainId(single, b2)
    requires ScopePrefix(b1, kind) + "/" <= ScopeKey(b2, key)
    ensures b1 == b2 && OfKind(kind, key)
  {
    if !single {
      var stored := b2 + "/" + key;
      assert b1 + "/" == stored[..|b1| + 1];
      assert stored == b1 + "/" + stored[|b1| + 1..];
      FirstSegment(b1, stored[|b1| + 1..], b2, key);
    }
    UnderPrefix(b1, kind, key);
  }

  /** No two brains share a stored key. */
  lemma {:induction false} ScopeIsInjective(single: bool, b1: string, k1: string, b2: string, k2: string)
    requires BrainId(single, b1) && BrainId(single, b2)
    requires ScopeKey(b1, k1) == ScopeKey(b2, k2)
    ensures b1 == b2 && k1 == k2
  {
    if !single {
      FirstSegment(b1, k1, b2, k2);
    }
  }
}
