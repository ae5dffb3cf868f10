/** Which lines of a Codex file become events, and which sequence numbers these get: the
    least positive, strictly increasing ones that are not below the lines' time stamps. */
module CodexNumbers {
  import opened EventStore
  import opened Codex
  import opened CodexReplay
  import opened Words

  /** The session named last, in this line or before it, or else by the file's name. */
  function SessionAt(fromName: string, lines: seq<Line>, i: nat): string
    requires i < |lines|
    decreases i
  {
    if NamesSession(lines[i]) then lines[i].item.id
    else if i == 0 then fromName
    else SessionAt(fromName, lines, i - 1)
  }

  /** A session_meta that names its session, or any other event line of a known session. */
  predicate Bears(fromName: string, lines: seq<Line>, i: nat)
    requires i < |lines|
  {
    NamesSession(lines[i]) || (lines[i].item.Entry? && SessionAt(fromName, lines, i) != "")
  }

  /** The event is this line's, whatever its number. */
  predicate IsLine(fromName: string, lines: seq<Line>, i: nat, e: Event)
    requires i < |lines|
  {
    && e.session == SessionAt(fromName, lines, i) && e.payload == lines[i].raw
    && e.start == NamesSession(lines[i])
    && e.uuid == Uuid(e.session, if lines[i].item.Entry? then lines[i].item.key else START_KEY)
  }

  /** The events are those of exactly the bearing lines, in file order. */
  ghost predicate Captures(fromName: string, lines: seq<Line>, at: seq<nat>, events: seq<Event>) {
    && |at| == |events|
    && (forall i, j :: 0 <= i < j < |at| ==> at[i] < at[j])
    && (forall k :: 0 <= k < |at| ==>
          at[k] < |lines| && Bears(fromName, lines, at[k]) && IsLine(fromName, lines, at[k], events[k]))
    && (forall i: nat :: i < |lines| && Bears(fromName, lines, i) ==> i in at)
  }

  /** The number given before the k-th event's. */
  function Before(events: seq<Event>, k: nat): int
    requires k <= |events|
  {
    if k == 0 then 0 else events[k - 1].seqNo
  }

  /** The line's own stamp if that is above what was given before, or else one more. */
  predicate Numbers(stamp: int, before: int, n: int) {
    n >= stamp && n > before && (n == stamp || n == before + 1)
  }

  predicate HasStamp(lines: seq<Line>, i: nat) {
    i < |lines| && !lines[i].item.NoEvent?
  }

  predicate NumberedAt(lines: seq<Line>, at: seq<nat>, events: seq<Event>, k: nat)
    requires k < |at| == |events|
  {
    HasStamp(lines, at[k]) && Numbers(lines[at[k]].item.ts, Before(events, k), events[k].seqNo)
  }

  ghost predicate Numbered(lines: seq<Line>, at: seq<nat>, events: seq<Event>) {
    |at| == |events| && forall k: nat {:trigger NumberedAt(lines, at, events, k)} :: k < |at| ==> NumberedAt(lines, at, events, k)
  }

  ghost predicate AllStamped(lines: seq<Line>, at: seq<nat>) {
    forall k :: 0 <= k < |at| ==> at[k] < |lines| && !lines[at[k]].item.NoEvent?
  }

  /** The stamps of these lines. */
  ghost function Stamps(lines: seq<Line>, at: seq<nat>): (r: seq<int>)
    requires AllStamped(lines, at)
    ensures |r| == |at| && forall k :: 0 <= k < |r| ==> r[k] == lines[at[k]].item.ts
  {
    seq(|at|, k requires 0 <= k < |at| => lines[at[k]].item.ts)
  }

  /** Positive and strictly increasing. */
  ghost predicate Rises(s: seq<int>) {
    (forall i :: 0 <= i < |s| ==> s[i] > 0) && forall i, j :: 0 <= i < j < |s| ==> s[i] < s[j]
  }

  lemma {:induction false} SameSession(fromName: string, lines: seq<Line>, n: nat, i: nat)
    requires i < n <= |lines|
    ensures SessionAt(fromName, lines[..n], i) == SessionAt(fromName, lines, i)
    decreases i
  {
    if i > 0 {
      SameSession(fromName, lines, n, i - 1);
    }
  }

  lemma {:induction false} SessionIs(fromName: string, lines: seq<Line>, n: nat)
    requires n <= |lines|
    ensures Scan(fromName, lines[..n]).session == if n == 0 then fromName else SessionAt(fromName, lines, n - 1)
  {
    hide *;
    if n == 0 {
      NothingTaken(fromName, lines);
    } else {
      SessionIs(fromName, lines, n - 1);
      ScanStep(fromName, lines, n - 1);
      SessionFed(fromName, lines, n - 1, Scan(fromName, lines[..n - 1]));
    }
  }

  lemma {:induction false} SessionFed(fromName: string, lines: seq<Line>, n: nat, p: Pass)
    requires n < |lines| && p.session == if n == 0 then fromName else SessionAt(fromName, lines, n - 1)
    ensures Feed(p, lines[n]).session == SessionAt(fromName, lines, n)
  {
  }

  /** One more line, and its event if it bears one. */
  lemma {:induction false} LineTaken(fromName: string, lines: seq<Line>, n: nat)
    requires n < |lines|
    ensures var p, q := Scan(fromName, lines[..n]), Scan(fromName, lines[..n + 1]);
            if Bears(fromName, lines, n)
            then |q.events| == |p.events| + 1 && q.events[..|p.events|] == p.events &&
                 IsLine(fromName, lines, n, q.events[|p.events|]) &&
                 q.events[|p.events|].seqNo == q.lastSeq == Bump(p.lastSeq, lines[n].item.ts)
            else q.events == p.events && q.lastSeq == p.lastSeq
  {
    ScanStep(fromName, lines, n);
    SessionIs(fromName, lines, n);
    SessionIs(fromName, lines, n + 1);
  }

  lemma {:induction false} NothingTaken(fromName: string, lines: seq<Line>)
    ensures Captures(fromName, lines[..0], [], Scan(fromName, lines[..0]).events)
    ensures Numbered(lines, [], Scan(fromName, lines[..0]).events) && Scan(fromName, lines[..0]).session == fromName
  {
    assert lines[..0] == [];
  }

  lemma {:induction false} TakenSoFar(fromName: string, lines: seq<Line>, n: nat) returns (at: seq<nat>)
    requires n <= |lines|
    ensures Captures(fromName, lines[..n], at, Scan(fromName, lines[..n]).events)
    ensures TimestampsFit(lines) ==> Numbered(lines, at, Scan(fromName, lines[..n]).events)
  {
    hide *;
    if n == 0 {
      at := [];
      NothingTaken(fromName, lines);
    } else {
      var before := TakenSoFar(fromName, lines, n - 1);
      LineTaken(fromName, lines, n - 1);
      var p, q := Scan(fromName, lines[..n - 1]), Scan(fromName, lines[..n]);
      at := if Bears(fromName, lines, n - 1) then before + [n - 1] else before;
      MoreCaptured(fromName, lines, n, before, p.events, at, q.events);
      if TimestampsFit(lines) && Bears(fromName, lines, n - 1) {
        NumberTaken(fromName, lines, n - 1, before);
      }
    }
  }

  lemma {:induction false} NumberTaken(fromName: string, lines: seq<Line>, n: nat, at: seq<nat>)
    requires n < |lines| && TimestampsFit(lines) && Bears(fromName, lines, n)
    requires Numbered(lines, at, Scan(fromName, lines[..n]).events)
    ensures Numbered(lines, at + [n], Scan(fromName, lines[..n + 1]).events)
  {
    hide Numbered, Scan, SessionAt, Numbers, Ascends, IsLine;
    var p := Scan(fromName, lines[..n]);
    LineTaken(fromName, lines, n);
    SeqsIncrease(fromName, lines, n);
    BumpNumbers(p.lastSeq, lines[n].item.ts, MAX_INT64 - |lines| + n);
    MoreNumbered(lines, n + 1, at, p, Scan(fromName, lines[..n + 1]).events);
  }

  lemma {:induction false} BumpNumbers(before: int, stamp: int, cap: int)
    requires 0 <= before <= cap < MAX_INT64 && stamp <= cap + 1
    ensures Numbers(stamp, before, Bump(before, stamp))
  {
    WrapFits(before + 1);
  }

  lemma {:induction false} MoreNumbered(lines: seq<Line>, n: nat, at: seq<nat>, p: Pass, events: seq<Event>)
    requires 0 < n <= |lines| && Numbered(lines, at, p.events) && Ascends(p)
    requires |events| == |p.events| + 1 && events[..|p.events|] == p.events && !lines[n - 1].item.NoEvent?
    requires Numbers(lines[n - 1].item.ts, p.lastSeq, events[|p.events|].seqNo)
    ensures Numbered(lines, at + [n - 1], events)
  {
    hide Numbers;
    var longer := at + [n - 1];
    forall k: nat | k < |longer| ensures NumberedAt(lines, longer, events, k) {
      if k < |at| {
        assert NumberedAt(lines, at, p.events, k) && events[k] == p.events[k];
        if k > 0 {
          assert events[k - 1] == p.events[k - 1];
        }
      } else if k > 0 {
        assert events[k - 1] == p.events[k - 1];
      }
    }
  }

  lemma {:induction false} BearsSame(fromName: string, lines: seq<Line>, n: nat, i: nat)
    requires i < n <= |lines|
    ensures Bears(fromName, lines[..n], i) == Bears(fromName, lines, i)
    ensures forall e :: IsLine(fromName, lines[..n], i, e) == IsLine(fromName, lines, i, e)
  {
    SameSession(fromName, lines, n, i);
  }

  lemma {:induction false} MoreCaptured(fromName: string, lines: seq<Line>, n: nat,
          before: seq<nat>, was: seq<Event>, at: seq<nat>, events: seq<Event>)
    requires 0 < n <= |lines| && Captures(fromName, lines[..n - 1], before, was)
    requires at == if Bears(fromName, lines, n - 1) then before + [n - 1] else before
    requires if Bears(fromName, lines, n - 1)
             then |events| == |was| + 1 && events[..|was|] == was && IsLine(fromName, lines, n - 1, events[|was|])
             else events == was
    ensures Captures(fromName, lines[..n], at, events)
  {
    hide Bears, IsLine, SessionAt;
    BearsSame(fromName, lines, n, n - 1);
    forall k | 0 <= k < |before|
      ensures before[k] < n - 1 && Bears(fromName, lines[..n], before[k]) && IsLine(fromName, lines[..n], before[k], events[k])
    {
      BearsSame(fromName, lines, n, before[k]);
      BearsSame(fromName, lines, n - 1, before[k]);
      assert events[k] == was[k];
    }
    forall i: nat | i < n && Bears(fromName, lines[..n], i) ensures i in at {
      if i < n - 1 {
        BearsSame(fromName, lines, n, i);
        BearsSame(fromName, lines, n - 1, i);
        assert i in before;
      }
    }
  }

  /** A file's events are those of its bearing lines, in file order. Each number is at
      least its line's stamp and above the number before, and is that stamp or one more
      than that number. */
  lemma {:induction false} EventsAreLines(fromName: string, lines: seq<Line>) returns (at: seq<nat>)
    ensures Captures(fromName, lines, at, Scan(fromName, lines).events)
    ensures AllStamped(lines, at) && (TimestampsFit(lines) ==> Numbered(lines, at, Scan(fromName, lines).events))
  {
    at := TakenSoFar(fromName, lines, |lines|);
    assert lines[..|lines|] == lines;
  }

  /** Positive, strictly increasing stamps are the numbers. */
  lemma {:induction false} StampsKept(lines: seq<Line>, at: seq<nat>, events: seq<Event>, k: nat)
    requires Numbered(lines, at, events) && k < |at| && AllStamped(lines, at) && Rises(Stamps(lines, at))
    ensures events[k].seqNo == lines[at[k]].item.ts
  {
    assert NumberedAt(lines, at, events, k);
    if k > 0 {
      StampsKept(lines, at, events, k - 1);
      var stamps := Stamps(lines, at);
      assert stamps[k - 1] < stamps[k];
    }
  }

  /** No other positive, strictly increasing numbers at or above the stamps are lower
      anywhere. */
  lemma {:induction false} NumbersAreLeast(lines: seq<Line>, at: seq<nat>, events: seq<Event>, others: seq<int>, k: nat)
    requires Numbered(lines, at, events) && k < |at| == |others|
    requires AllStamped(lines, at) && Rises(others) && forall j :: 0 <= j < |others| ==> others[j] >= Stamps(lines, at)[j]
    ensures 0 < events[k].seqNo <= others[k]
  {
    assert NumberedAt(lines, at, events, k);
    if k > 0 {
      NumbersAreLeast(lines, at, events, others, k - 1);
      assert others[k - 1] < others[k];
    }
  }

  /** A file that names no session and does not fill its last batch gets a start ahead of
      that batch: under the session of the last event and one below the number of the
      event it precedes. */
  lemma {:induction false} StartMadeUp(fromName: string, lines: seq<Line>)
    requires TimestampsFit(lines) && (forall i :: 0 <= i < |lines| ==> !NamesSession(lines[i]))
    requires |Scan(fromName, lines).events| % 100 != 0
    ensures var events := Scan(fromName, lines).events;
            var n := |events| - |events| % 100;
            var all := Submitted(Scan(fromName, lines));
            && all[..n] == events[..n] && all[n + 1..] == events[n..] && |all| == |events| + 1
            && all[n].start && all[n].seqNo == events[n].seqNo - 1 && all[n].payload == ""
            && all[n].session == fromName && all[n].uuid == Uuid(fromName, START_KEY)
  {
    var p := Scan(fromName, lines);
    assert lines[..|lines|] == lines;
    StartSeen(fromName, lines, |lines|);
    ScanLast(fromName, lines);
    SessionIs(fromName, lines, |lines|);
    NeverNamed(fromName, lines, |lines|);
    SeqsIncrease(fromName, lines, |lines|);
    var n := Flushed(|p.events|);
    InRange(p, n);
    WrapFits(p.events[n].seqNo - 1);
  }

  /** Any other file's events are handed over as they are. */
  lemma {:induction false} NoneMadeUp(fromName: string, lines: seq<Line>)
    requires (exists i :: 0 <= i < |lines| && NamesSession(lines[i])) || |Scan(fromName, lines).events| % 100 == 0
    ensures Submitted(Scan(fromName, lines)) == Scan(fromName, lines).events
  {
    assert lines[..|lines|] == lines;
    StartSeen(fromName, lines, |lines|);
  }

  lemma {:induction false} InRange(p: Pass, n: nat)
    requires Ascends(p) && n < |p.events| && p.lastSeq <= MAX_INT64
    ensures 0 < p.events[n].seqNo <= MAX_INT64
  {
    assert n < |p.events| - 1 ==> p.events[n].seqNo < p.events[|p.events| - 1].seqNo;
  }

  lemma {:induction false} NeverNamed(fromName: string, lines: seq<Line>, n: nat)
    requires n <= |lines| && forall i :: 0 <= i < |lines| ==> !NamesSession(lines[i])
    ensures n > 0 ==> SessionAt(fromName, lines, n - 1) == fromName
  {
    if n > 0 {
      NeverNamed(fromName, lines, n - 1);
    }
  }
}
