/** Reconciling a Claude Code session file. The stream has no session start, and some
    records carry no working directory: events wait until a record with one is seen,
    then a start is made up for the session and the waiting events take its scope. */
module Claude {
  import opened Wrappers
  import opened Sequences

  /** `body` stands for everything the reconcile loop does not look at. */
  datatype Event =
    | Record(session: string, scope: string, version: string, ts: int, body: string)
    | Start(session: string, scope: string, cwd: string, version: string, ts: int)

  /** A line as decoded: its events, all of one session, and its working directory. */
  datatype Line = Line(events: seq<Event>, cwd: string)

  datatype Batch = Batch(session: string, events: seq<Event>)

  const UNKNOWN: string := "unknown"

  ghost predicate Decoded(line: Line) {
    forall i :: 0 <= i < |line.events| ==>
      line.events[i].Record? && line.events[i].session == line.events[0].session != ""
  }

  // --- what a file should give ---

  function Events(lines: seq<Line>): seq<Event>
    decreases |lines|
  {
    if lines == [] then [] else Events(lines[..|lines| - 1]) + lines[|lines| - 1].events
  }

  predicate AllBear(lines: seq<Line>) {
    forall i :: 0 <= i < |lines| ==> lines[i].events != []
  }

  /** The lines that carry events. The rest are ignored, working directory and all. */
  function Bearing(lines: seq<Line>): (r: seq<Line>)
    ensures AllBear(r)
    decreases |lines|
  {
    if lines == [] then []
    else
      var init, last := Bearing(lines[..|lines| - 1]), lines[|lines| - 1];
      if last.events == [] then init else init + [last]
  }

  /** Where the last stretch of lines of one session begins. */
  function RunStart(lines: seq<Line>): (k: nat)
    requires lines != [] && AllBear(lines)
    ensures k < |lines|
    decreases |lines|
  {
    var n := |lines|;
    if n == 1 then 0
    else if lines[n - 1].events[0].session == lines[n - 2].events[0].session then RunStart(lines[..n - 1])
    else n - 1
  }

  function FirstCwd(run: seq<Line>): string {
    if run == [] then "" else if run[0].cwd != "" then run[0].cwd else FirstCwd(run[1..])
  }

  /** The first version known by the time a working directory turns up. */
  function VersionAtCwd(run: seq<Line>): string
    requires AllBear(run)
  {
    if run == [] then ""
    else
      var v := run[0].events[0].version;
      if v != "" || run[0].cwd != "" then v else VersionAtCwd(run[1..])
  }

  function Patch(e: Event, scope: string): Event {
    if e.scope == UNKNOWN then e.(scope := scope) else e
  }

  function PatchAll(events: seq<Event>, scope: string): (r: seq<Event>)
    ensures |r| == |events| && forall i :: 0 <= i < |r| ==> r[i] == Patch(events[i], scope)
  {
    seq(|events|, i requires 0 <= i < |events| => Patch(events[i], scope))
  }

  /** What one session's stretch of lines becomes. */
  function RunOutput(run: seq<Line>, scopeOf: string -> string): seq<Event>
    requires AllBear(run)
  {
    var cwd := FirstCwd(run);
    if run == [] || cwd == "" then Events(run)
    else
      var first := run[0].events[0];
      [Start(first.session, scopeOf(cwd), cwd, VersionAtCwd(run), first.ts)] + PatchAll(Events(run), scopeOf(cwd))
  }

  function Expected(lines: seq<Line>, scopeOf: string -> string): seq<Event>
    requires AllBear(lines)
    decreases |lines|
  {
    if lines == [] then []
    else
      var k := RunStart(lines);
      Expected(lines[..k], scopeOf) + RunOutput(lines[k..], scopeOf)
  }

  function Flat(batches: seq<Batch>): seq<Event>
    decreases |batches|
  {
    if batches == [] then [] else Flat(batches[..|batches| - 1]) + batches[|batches| - 1].events
  }

  ghost predicate OneSession(session: string, events: seq<Event>) {
    forall i :: 0 <= i < |events| ==> events[i].session == session
  }

  ghost predicate GoodBatches(batches: seq<Batch>) {
    forall i {:trigger batches[i]} :: 0 <= i < |batches| ==>
      batches[i].session != "" && batches[i].events != [] && OneSession(batches[i].session, batches[i].events)
  }

  // --- a line at a time ---

  lemma {:induction false} CwdAppended(run: seq<Line>, line: Line)
    requires AllBear(run) && line.events != []
    ensures AllBear(run + [line])
    ensures FirstCwd(run + [line]) == if FirstCwd(run) != "" then FirstCwd(run) else line.cwd
    ensures VersionAtCwd(run + [line]) ==
            if FirstCwd(run) != "" || VersionAtCwd(run) != "" then VersionAtCwd(run) else line.events[0].version
  {
    if run == [] {
      assert run + [line] == [line];
    } else {
      CwdAppended(run[1..], line);
      assert (run + [line])[1..] == run[1..] + [line];
    }
  }

  lemma {:induction false} EventsAppended(lines: seq<Line>, line: Line)
    ensures Events(lines + [line]) == Events(lines) + line.events
  {
    assert (lines + [line])[..|lines|] == lines;
  }

  lemma {:induction false} PatchConcat(a: seq<Event>, b: seq<Event>, scope: string)
    ensures PatchAll(a + b, scope) == PatchAll(a, scope) + PatchAll(b, scope)
  {
  }

  /** How one more line extends what its stretch becomes. */
  lemma {:induction false} RunAppended(run: seq<Line>, line: Line, scopeOf: string -> string)
    requires AllBear(run) && line.events != []
    ensures AllBear(run + [line])
    ensures var first := if run == [] then line.events[0] else run[0].events[0];
            var version := if VersionAtCwd(run) != "" then VersionAtCwd(run) else line.events[0].version;
            RunOutput(run + [line], scopeOf) ==
            if FirstCwd(run) != "" then RunOutput(run, scopeOf) + PatchAll(line.events, scopeOf(FirstCwd(run)))
            else if line.cwd != "" then
              [Start(first.session, scopeOf(line.cwd), line.cwd, version, first.ts)] +
              PatchAll(Events(run), scopeOf(line.cwd)) + PatchAll(line.events, scopeOf(line.cwd))
            else Events(run) + line.events
  {
    CwdAppended(run, line);
    EventsAppended(run, line);
    var cwd := FirstCwd(run + [line]);
    PatchConcat(Events(run), line.events, scopeOf(cwd));
  }

  lemma {:induction false} RunStartAppended(lines: seq<Line>, line: Line, scopeOf: string -> string)
    requires AllBear(lines) && line.events != []
    ensures AllBear(lines + [line])
    ensures var all := lines + [line];
            if lines != [] && lines[|lines| - 1].events[0].session == line.events[0].session
            then RunStart(all) == RunStart(lines) &&
                 Expected(all, scopeOf) == Expected(lines[..RunStart(lines)],
                     scopeOf) + RunOutput(lines[RunStart(lines)..] + [line], scopeOf)
            else RunStart(all) == |lines| && Expected(all, scopeOf) == Expected(lines, scopeOf) + RunOutput([line], scopeOf)
  {
    var all := lines + [line];
    assert all[..|lines|] == lines;
    if lines != [] {
      var k := RunStart(lines);
      assert all[..k] == lines[..k] && all[k..] == lines[k..] + [line];
    }
    assert all[|lines|..] == [line];
  }

  lemma {:induction false} FlatAppended(batches: seq<Batch>, b: Batch)
    ensures Flat(batches + [b]) == Flat(batches) + b.events
  {
    assert (batches + [b])[..|batches|] == batches;
  }

  /** The variables of the reading loop. */
  datatype Vars = Vars(sent: seq<Batch>, batch: seq<Event>, pending: seq<Event>, session: string, cwd: string,
                       version: string, stamp: Option<int>, synthesized: bool)

  /** Everything handed on or about to be. */
  ghost function Handed(v: Vars): seq<Event> {
    Flat(v.sent) + v.batch
  }

  lemma {:induction false} HandedMore(v: Vars, v': Vars, more: seq<Event>)
    requires v'.sent == v.sent && v'.batch == v.batch + more
    ensures Handed(v') == Handed(v) + more
  {
  }

  lemma {:induction false} FlushHandsOn(v: Vars)
    ensures Handed(AfterFlush(v)) == Handed(v)
  {
    FlatAppended(v.sent, Batch(v.session, v.batch));
  }

  /** What handing the batch to the ingester does. */
  function AfterFlush(v: Vars): Vars {
    if v.session == "" || v.batch == [] then v
    else v.(sent := v.sent + [Batch(v.session, v.batch)], batch := [])
  }

  function DrainedVars(v: Vars): Vars {
    v.(batch := v.batch + v.pending, pending := [])
  }

  /** What the loop remembers of the stretch it is in. */
  ghost predicate Remembers(run: seq<Line>, v: Vars)
    requires AllBear(run)
  {
    && v.cwd == FirstCwd(run) && v.synthesized == (v.cwd != "")
    && v.stamp == (if run == [] then None else Some(run[0].events[0].ts))
    && (run != [] ==> run[0].events[0].session == v.session)
    && (v.synthesized ==> v.pending == [])
    && (!v.synthesized ==> v.batch == [] && v.pending == Events(run) && v.version == VersionAtCwd(run))
  }

  /** Midway through a stretch of lines, `done` being what came before it: nothing of
      the stretch is handed on before its start, everything after. */
  ghost predicate OnTrack(done: seq<Event>, run: seq<Line>, v: Vars, scopeOf: string -> string)
    requires AllBear(run)
  {
    Handed(v) == if v.synthesized then done + RunOutput(run, scopeOf) else done
  }

  ghost predicate Unmixed(v: Vars) {
    OneSession(v.session, v.batch) && OneSession(v.session, v.pending) && GoodBatches(v.sent)
  }

  ghost predicate InRun(done: seq<Event>, run: seq<Line>, v: Vars, scopeOf: string -> string) {
    AllBear(run) && Remembers(run, v) && OnTrack(done, run, v, scopeOf) && Unmixed(v)
  }

  ghost predicate Mid(seen: seq<Line>, v: Vars, scopeOf: string -> string) {
    && AllBear(seen)
    && if seen == [] then v == Vars([], [], [], "", "", "", None, false)
       else
         var k := RunStart(seen);
         && v.session == seen[|seen| - 1].events[0].session != ""
         && InRun(Expected(seen[..k], scopeOf), seen[k..], v, scopeOf)
  }

  lemma {:induction false} FlushKeepsRun(done: seq<Event>, run: seq<Line>, v: Vars, scopeOf: string -> string)
    requires InRun(done, run, v, scopeOf)
    ensures InRun(done, run, AfterFlush(v), scopeOf)
  {
    FlushHandsOn(v);
  }

  /** Draining what waits completes the file so far. */
  lemma {:induction false} DrainedIsExpected(seen: seq<Line>, v: Vars, scopeOf: string -> string)
    requires seen != [] && Mid(seen, v, scopeOf)
    ensures Handed(DrainedVars(v)) == Expected(seen, scopeOf)
    ensures OneSession(v.session, DrainedVars(v).batch)
  {
    HandedMore(v, DrainedVars(v), v.pending);
    assert Handed(v) + [] == Handed(v);
  }

  lemma {:induction false} FreshRun(done: seq<Event>, sent: seq<Batch>, session: string, scopeOf: string -> string)
    requires Flat(sent) == done && GoodBatches(sent)
    ensures InRun(done, [], Vars(sent, [], [], session, "", "", None, false), scopeOf)
  {
    assert Flat(sent) + [] == Flat(sent);
  }

  /** Flushing everything leaves good batches and nothing else. */
  lemma {:induction false} FlushedOut(v: Vars)
    requires GoodBatches(v.sent) && OneSession(v.session, v.batch) && v.session != ""
    ensures Flat(AfterFlush(v).sent) == Handed(v) && GoodBatches(AfterFlush(v).sent)
  {
    FlushHandsOn(v);
    assert Flat(AfterFlush(v).sent) + [] == Flat(AfterFlush(v).sent);
  }

  /** A new session: what the last one left goes out, and everything starts over. */
  lemma {:induction false} RunEnds(seen: seq<Line>, v: Vars, scopeOf: string -> string, session: string)
    requires seen != [] && Mid(seen, v, scopeOf)
    ensures InRun(Expected(seen, scopeOf), [], Vars(AfterFlush(DrainedVars(v)).sent, [], [], session, "", "", None, false), scopeOf)
  {
    DrainedIsExpected(seen, v, scopeOf);
    FlushedOut(DrainedVars(v));
    FreshRun(Expected(seen, scopeOf), AfterFlush(DrainedVars(v)).sent, session, scopeOf);
  }

  lemma {:induction false} RemembersMore(run: seq<Line>, line: Line, v: Vars, v': Vars)
    requires AllBear(run) && Remembers(run, v) && line.events != [] && line.events[0].session == v.session
    requires v'.session == v.session
    requires v'.stamp == if v.stamp.None? then Some(line.events[0].ts) else v.stamp
    requires v'.cwd == (if v.synthesized then v.cwd else line.cwd) && v'.synthesized == (v'.cwd != "")
    requires v'.synthesized ==> v'.pending == []
    requires !v'.synthesized ==> v'.batch == [] && v'.pending == v.pending + line.events
    requires !v'.synthesized ==> v'.version == if v.version == "" then line.events[0].version else v.version
    ensures AllBear(run + [line]) && Remembers(run + [line], v')
  {
    CwdAppended(run, line);
    EventsAppended(run, line);
    FirstOf(run, line);
  }

  lemma {:induction false} FirstOf(run: seq<Line>, line: Line)
    ensures (run + [line])[0] == if run == [] then line else run[0]
  {
  }

  /** The first working directory: the start goes in ahead of the waiting events. */
  lemma {:induction false} StartFound(done: seq<Event>, run: seq<Line>, line: Line, v: Vars, v': Vars, scopeOf: string -> string)
    requires InRun(done, run, v, scopeOf) && !v.synthesized && line.events != [] && line.cwd != ""
    requires OneSession(v.session, line.events) && line.events[0].session == v.session
    requires var stamp := if v.stamp.None? then Some(line.events[0].ts) else v.stamp;
             var version := if v.version == "" then line.events[0].version else v.version;
             var start := Start(v.session, scopeOf(line.cwd), line.cwd, version, stamp.value);
             v' == v.(stamp := stamp, version := version, cwd := line.cwd, synthesized := true, pending := [],
                      batch := [start] + PatchAll(v.pending, start.scope) + PatchAll(line.events, start.scope))
    ensures InRun(done, run + [line], v', scopeOf)
  {
    RemembersMore(run, line, v, v');
    RunAppended(run, line, scopeOf);
    assert v'.batch == RunOutput(run + [line], scopeOf);
    HandedFirst(v, v');
    PatchKeepsSession(v.pending, scopeOf(line.cwd), v.session);
    PatchKeepsSession(line.events, scopeOf(line.cwd), v.session);
  }

  lemma {:induction false} HandedFirst(v: Vars, v': Vars)
    requires v'.sent == v.sent && v.batch == []
    ensures Handed(v') == Handed(v) + v'.batch
  {
  }

  lemma {:induction false} PatchKeepsSession(events: seq<Event>, scope: string, session: string)
    requires OneSession(session, events)
    ensures OneSession(session, PatchAll(events, scope))
  {
  }

  lemma {:induction false} StillWaiting(done: seq<Event>, run: seq<Line>, line: Line, v: Vars, v': Vars,
          scopeOf: string -> string)
    requires InRun(done, run, v, scopeOf) && !v.synthesized && line.events != [] && line.cwd == ""
    requires OneSession(v.session, line.events) && line.events[0].session == v.session
    requires v' == v.(stamp := if v.stamp.None? then Some(line.events[0].ts) else v.stamp,
                      version := if v.version == "" then line.events[0].version else v.version,
                      pending := v.pending + line.events)
    ensures InRun(done, run + [line], v', scopeOf)
  {
    RemembersMore(run, line, v, v');
  }

  lemma {:induction false} AlreadyStarted(done: seq<Event>, run: seq<Line>, line: Line, v: Vars, v': Vars,
          scopeOf: string -> string)
    requires InRun(done, run, v, scopeOf) && v.synthesized && line.events != []
    requires OneSession(v.session, line.events) && line.events[0].session == v.session
    requires v'.(version := v.version) == v.(batch := v.batch + PatchAll(line.events, scopeOf(v.cwd)))
    ensures InRun(done, run + [line], v', scopeOf)
  {
    var more := PatchAll(line.events, scopeOf(v.cwd));
    RemembersMore(run, line, v, v');
    RunAppended(run, line, scopeOf);
    HandedMore(v, v', more);
    Regroup(done, RunOutput(run, scopeOf), more);
    PatchKeepsSession(line.events, scopeOf(v.cwd), v.session);
  }

  class Reader {
    var sent: seq<Batch>
    var batch: seq<Event>
    var pending: seq<Event>
    var currentSession: string
    var sessionCwd: string
    var sessionVersion: string
    var sessionStamp: Option<int>
    var synthesized: bool

    ghost function State(): Vars
      reads this
    {
      Vars(sent, batch, pending, currentSession, sessionCwd, sessionVersion, sessionStamp, synthesized)
    }

    constructor ()
      ensures State() == Vars([], [], [], "", "", "", None, false)
    {
      sent, batch, pending, currentSession, sessionCwd, sessionVersion, sessionStamp, synthesized := [], [], [], "", "", "", None, false;
    }

    method Flush()
      modifies this`sent, this`batch
      ensures State() == AfterFlush(old(State()))
    {
      if currentSession == "" || |batch| == 0 {
        return;
      }
      sent := sent + [Batch(currentSession, batch)];
      batch := [];
    }

    method ResetSession(session: string)
      requires currentSession != "" && (synthesized ==> pending == [])
      modifies this
      ensures State() == Vars(AfterFlush(DrainedVars(old(State()))).sent, [], [], session, "", "", None, false)
    {
      if currentSession != "" && |pending| > 0 && !synthesized {
        batch := batch + pending;
        pending := [];
      }
      assert State() == DrainedVars(old(State()));
      Flush();
      currentSession := session;
      sessionCwd := "";
      sessionVersion := "";
      sessionStamp := None;
      synthesized := false;
    }

    /** Appends events to the batch, giving those of unknown scope this one. */
    method AppendPatched(events: seq<Event>, scope: string)
      modifies this`batch
      ensures batch == old(batch) + PatchAll(events, scope)
    {
      var i := 0;
      while i < |events|
        invariant 0 <= i <= |events|
        invariant batch == old(batch) + PatchAll(events, scope)[..i]
      {
        var e := events[i];
        if e.scope == UNKNOWN {
          e := e.(scope := scope);
        }
        batch := batch + [e];
        i := i + 1;
      }
    }

    /** End of the file. */
    method Finish()
      modifies this
      ensures State() == AfterFlush(DrainedVars(old(State())))
    {
      if |pending| > 0 {
        batch := batch + pending;
        pending := [];
      }
      assert State() == DrainedVars(old(State()));
      Flush();
    }

    /** One line that carries events. */
    method FeedLine(line: Line, scopeOf: string -> string, flushSize: nat)
      requires line.events != [] && (synthesized ==> pending == [])
      modifies this
      ensures State() == Fed(old(State()), line, scopeOf, flushSize)
    {
      var session := line.events[0].session;
      if currentSession != "" && currentSession != session {
        ResetSession(session);
      } else if currentSession == "" {
        currentSession := session;
      }
      TakeLine(line, scopeOf, flushSize);
    }

    method TakeLine(line: Line, scopeOf: string -> string, flushSize: nat)
      requires line.events != []
      modifies this
      ensures State() == FlushedAt(Taken(old(State()), line, scopeOf), flushSize)
    {
      if sessionStamp.None? {
        sessionStamp := Some(line.events[0].ts);
      }
      if sessionVersion == "" {
        sessionVersion := line.events[0].version;
      }
      if !synthesized && line.cwd != "" {
        sessionCwd := line.cwd;
        var start := Start(currentSession, scopeOf(sessionCwd), sessionCwd, sessionVersion, sessionStamp.value);
        batch := batch + [start];
        AppendPatched(pending, start.scope);
        pending := [];
        synthesized := true;
      }
      if !synthesized {
        pending := pending + line.events;
        return;
      }
      AppendPatched(line.events, scopeOf(sessionCwd));
      if |batch| >= flushSize {
        Flush();
      }
    }
  }

  /** The variables after one line of the session they are at. */
  function Taken(v: Vars, line: Line, scopeOf: string -> string): Vars
    requires line.events != []
  {
    var stamp := if v.stamp.None? then Some(line.events[0].ts) else v.stamp;
    var version := if v.version == "" then line.events[0].version else v.version;
    if v.synthesized then
      v.(stamp := stamp, version := version, batch := v.batch + PatchAll(line.events, scopeOf(v.cwd)))
    else if line.cwd == "" then
      v.(stamp := stamp, version := version, pending := v.pending + line.events)
    else
      var start := Start(v.session, scopeOf(line.cwd), line.cwd, version, stamp.value);
      v.(stamp := stamp, version := version, cwd := line.cwd, synthesized := true, pending := [],
         batch := v.batch + [start] + PatchAll(v.pending, start.scope) + PatchAll(line.events, start.scope))
  }

  /** A batch goes out when it has reached the flush size; while events wait, none does. */
  function FlushedAt(v: Vars, flushSize: nat): Vars {
    if v.synthesized && |v.batch| >= flushSize then AfterFlush(v) else v
  }

  function Fed(v: Vars, line: Line, scopeOf: string -> string, flushSize: nat): Vars
    requires line.events != []
  {
    var session := line.events[0].session;
    var w := if v.session != "" && v.session != session then Vars(AfterFlush(DrainedVars(v)).sent, [], [], session, "", "", None, false)
             else v.(session := session);
    FlushedAt(Taken(w, line, scopeOf), flushSize)
  }

  lemma {:induction false} TakenKeepsRun(done: seq<Event>, run: seq<Line>, line: Line, v: Vars,
          scopeOf: string -> string, flushSize: nat)
    requires InRun(done, run, v, scopeOf) && Decoded(line) && line.events != [] && line.events[0].session == v.session
    ensures InRun(done, run + [line], FlushedAt(Taken(v, line, scopeOf), flushSize), scopeOf)
  {
    var v' := Taken(v, line, scopeOf);
    assert OneSession(v.session, line.events);
    if v.synthesized {
      assert run != [];
      AlreadyStarted(done, run, line, v, v', scopeOf);
    } else if line.cwd == "" {
      StillWaiting(done, run, line, v, v', scopeOf);
    } else {
      TakenStart(v, line, scopeOf);
      StartFound(done, run, line, v, v', scopeOf);
    }
    FlushKeepsRun(done, run + [line], v', scopeOf);
  }

  lemma {:induction false} TakenStart(v: Vars, line: Line, scopeOf: string -> string)
    requires !v.synthesized && v.batch == [] && line.cwd != "" && line.events != []
    ensures var stamp := if v.stamp.None? then Some(line.events[0].ts) else v.stamp;
            var version := if v.version == "" then line.events[0].version else v.version;
            var start := Start(v.session, scopeOf(line.cwd), line.cwd, version, stamp.value);
            Taken(v, line, scopeOf) ==
            v.(stamp := stamp, version := version, cwd := line.cwd, synthesized := true, pending := [],
               batch := [start] + PatchAll(v.pending, start.scope) + PatchAll(line.events, start.scope))
  {
    assert forall start: Event :: v.batch + [start] == [start];
  }

  lemma {:induction false} FedKeepsMid(seen: seq<Line>, line: Line, v: Vars, scopeOf: string -> string, flushSize: nat)
    requires Mid(seen, v, scopeOf) && Decoded(line) && line.events != []
    ensures Mid(seen + [line], Fed(v, line, scopeOf, flushSize), scopeOf)
  {
    var session := line.events[0].session;
    RunStartAppended(seen, line, scopeOf);
    if seen == [] {
      NewRun(seen, line, [], v.(session := session), scopeOf, flushSize);
    } else if v.session != session {
      RunEnds(seen, v, scopeOf, session);
      NewRun(seen, line, Expected(seen, scopeOf),
             Vars(AfterFlush(DrainedVars(v)).sent, [], [], session, "", "", None, false), scopeOf, flushSize);
    } else {
      SameRun(seen, line, v, scopeOf, flushSize);
    }
  }

  lemma {:induction false} SplitThenJoin(lines: seq<Line>, k: nat, line: Line)
    requires k <= |lines|
    ensures lines[..k] + (lines[k..] + [line]) == lines + [line]
  {
  }

  lemma {:induction false} TakenSession(v: Vars, line: Line, scopeOf: string -> string, flushSize: nat)
    requires line.events != []
    ensures FlushedAt(Taken(v, line, scopeOf), flushSize).session == v.session
  {
  }

  lemma {:induction false} RunGoesOn(before: seq<Line>, run: seq<Line>, line: Line, v: Vars,
          scopeOf: string -> string, flushSize: nat)
    requires AllBear(before) && AllBear(before + (run + [line])) && RunStart(before + (run + [line])) == |before|
    requires InRun(Expected(before, scopeOf), run, v, scopeOf)
    requires Decoded(line) && line.events != [] && v.session == line.events[0].session
    ensures Mid(before + (run + [line]), FlushedAt(Taken(v, line, scopeOf), flushSize), scopeOf)
  {
    TakenSession(v, line, scopeOf, flushSize);
    TakenKeepsRun(Expected(before, scopeOf), run, line, v, scopeOf, flushSize);
    assert line.events[0].session != "";
    hide Taken, FlushedAt, Expected, InRun, RunStart, Mid;
    JoinRun(before, run + [line], |before|, FlushedAt(Taken(v, line, scopeOf), flushSize), scopeOf);
  }

  lemma {:induction false} BearToo(lines: seq<Line>, k: nat, line: Line)
    requires AllBear(lines) && k <= |lines| && line.events != []
    ensures AllBear(lines[..k]) && AllBear(lines + [line])
  {
  }

  lemma {:induction false} SameRun(seen: seq<Line>, line: Line, v: Vars, scopeOf: string -> string, flushSize: nat)
    requires seen != [] && Mid(seen, v, scopeOf) && Decoded(line) && line.events != [] && v.session == line.events[0].session
    requires RunStart(seen + [line]) == RunStart(seen)
    ensures Mid(seen + [line], FlushedAt(Taken(v, line, scopeOf), flushSize), scopeOf)
  {
    var k := RunStart(seen);
    SplitThenJoin(seen, k, line);
    BearToo(seen, k, line);
    assert InRun(Expected(seen[..k], scopeOf), seen[k..], v, scopeOf);
    hide *;
    RunGoesOn(seen[..k], seen[k..], line, v, scopeOf, flushSize);
  }

  lemma {:induction false} NewRun(seen: seq<Line>, line: Line, done: seq<Event>, w: Vars, scopeOf: string -> string,
          flushSize: nat)
    requires AllBear(seen) && Decoded(line) && line.events != [] && w.session == line.events[0].session
    requires RunStart(seen + [line]) == |seen| && done == Expected(seen, scopeOf)
    requires w.(session := "", sent := []) == Vars([], [], [], "", "", "", None, false)
    requires Flat(w.sent) == done && GoodBatches(w.sent)
    ensures Mid(seen + [line], FlushedAt(Taken(w, line, scopeOf), flushSize), scopeOf)
  {
    FreshRun(done, w.sent, w.session, scopeOf);
    TakenKeepsRun(done, [], line, w, scopeOf, flushSize);
    assert [] + [line] == [line];
    JoinRun(seen, [line], |seen|, FlushedAt(Taken(w, line, scopeOf), flushSize), scopeOf);
  }

  lemma {:induction false} JoinRun(before: seq<Line>, run: seq<Line>, k: nat, v: Vars, scopeOf: string -> string)
    requires AllBear(before + run) && run != [] && k == |before| == RunStart(before + run)
    requires v.session == run[|run| - 1].events[0].session != ""
    requires AllBear(before) && InRun(Expected(before, scopeOf), run, v, scopeOf)
    ensures Mid(before + run, v, scopeOf)
  {
    assert (before + run)[..k] == before && (before + run)[k..] == run;
  }

  lemma {:induction false} BearingStep(lines: seq<Line>, i: nat)
    requires i < |lines|
    ensures Bearing(lines[..i + 1]) == if lines[i].events == [] then Bearing(lines[..i]) else Bearing(lines[..i]) + [lines[i]]
  {
    assert lines[..i + 1][..i] == lines[..i];
  }

  // --- how large batches are ---

  /** A batch that is followed by another of its session was full. */
  ghost predicate CutWhenFull(sent: seq<Batch>, flushSize: nat) {
    && (forall i :: 0 <= i < |sent| ==> sent[i].events != [])
    && (forall i :: 0 <= i < |sent| - 1 && sent[i].session == sent[i + 1].session ==> |sent[i].events| >= flushSize)
  }

  /** Between lines: a batch that has a start is not full, and the last one handed over was
      of another session or full. */
  ghost predicate NotFull(v: Vars, flushSize: nat) {
    && CutWhenFull(v.sent, flushSize)
    && (v.synthesized && flushSize > 0 ==> |v.batch| < flushSize)
    && (v.session == "" ==> v.sent == [] && v.batch == [] && v.pending == [])
    && (v.sent != [] && v.sent[|v.sent| - 1].session == v.session ==> |v.sent[|v.sent| - 1].events| >= flushSize)
    && (v.session != "" && v.batch + v.pending == [] ==> v.sent != [] && v.sent[|v.sent| - 1].session == v.session)
  }

  lemma {:induction false} OneMoreCut(sent: seq<Batch>, b: Batch, flushSize: nat)
    requires CutWhenFull(sent, flushSize) && b.events != []
    requires sent != [] && sent[|sent| - 1].session == b.session ==> |sent[|sent| - 1].events| >= flushSize
    ensures CutWhenFull(sent + [b], flushSize)
  {
  }

  /** What is left over goes out as one batch, of whatever size. */
  lemma {:induction false} LeftoverCut(v: Vars, flushSize: nat)
    requires NotFull(v, flushSize)
    ensures var sent := AfterFlush(DrainedVars(v)).sent;
            CutWhenFull(sent, flushSize) && (v.session != "" ==> sent != [] && sent[|sent| - 1].session == v.session)
  {
    if v.session != "" && v.batch + v.pending != [] {
      OneMoreCut(v.sent, Batch(v.session, v.batch + v.pending), flushSize);
    }
  }

  lemma {:induction false} TakenNotFull(v: Vars, line: Line, scopeOf: string -> string, flushSize: nat)
    requires line.events != [] && v.session != "" && CutWhenFull(v.sent, flushSize)
    requires v.sent != [] && v.sent[|v.sent| - 1].session == v.session ==> |v.sent[|v.sent| - 1].events| >= flushSize
    ensures NotFull(FlushedAt(Taken(v, line, scopeOf), flushSize), flushSize)
  {
    var w := Taken(v, line, scopeOf);
    assert w.session == v.session && w.sent == v.sent && w.batch + w.pending != [];
    assert w.synthesized ==> w.batch != [];
    hide Taken;
    if w.synthesized && |w.batch| >= flushSize {
      OneMoreCut(w.sent, Batch(w.session, w.batch), flushSize);
    }
  }

  lemma {:induction false} FedNotFull(v: Vars, line: Line, scopeOf: string -> string, flushSize: nat)
    requires line.events != [] && line.events[0].session != "" && NotFull(v, flushSize)
    ensures NotFull(Fed(v, line, scopeOf, flushSize), flushSize)
  {
    var session := line.events[0].session;
    LeftoverCut(v, flushSize);
    var w := if v.session != "" && v.session != session then Vars(AfterFlush(DrainedVars(v)).sent, [], [], session, "", "", None, false)
             else v.(session := session);
    TakenNotFull(w, line, scopeOf, flushSize);
  }

  /** ingestFile: the batches handed to the ingester are, end to end, what the file
      should give, whatever the flush size; each holds events of its own session only. */
  method IngestFile(lines: seq<Line>, scopeOf: string -> string, flushSize: nat) returns (sent: seq<Batch>)
    requires forall i {:trigger lines[i]} :: 0 <= i < |lines| ==> Decoded(lines[i])
    ensures Flat(sent) == Expected(Bearing(lines), scopeOf)
    ensures GoodBatches(sent) && CutWhenFull(sent, flushSize)
  {
    var reader := new Reader();
    var i := 0;
    NothingRead(lines, scopeOf, flushSize);
    hide Midfile, Bearing, Expected, Fed, GoodBatches, CutWhenFull, Flat;
    while i < |lines|
      invariant 0 <= i <= |lines|
      invariant Midfile(Bearing(lines[..i]), reader.State(), scopeOf, flushSize)
    {
      BearingStep(lines, i);
      if |lines[i].events| != 0 {
        LineFed(Bearing(lines[..i]), lines[i], reader.State(), scopeOf, flushSize);
        reader.FeedLine(lines[i], scopeOf, flushSize);
      }
      i := i + 1;
    }
    assert lines[..i] == lines;
    FileEnds(Bearing(lines), reader.State(), scopeOf, flushSize);
    reader.Finish();
    sent := reader.sent;
  }

  ghost predicate Midfile(seen: seq<Line>, v: Vars, scopeOf: string -> string, flushSize: nat) {
    Mid(seen, v, scopeOf) && NotFull(v, flushSize)
  }

  lemma {:induction false} NothingRead(lines: seq<Line>, scopeOf: string -> string, flushSize: nat)
    ensures Midfile(Bearing(lines[..0]), Vars([], [], [], "", "", "", None, false), scopeOf, flushSize)
  {
    assert lines[..0] == [];
  }

  lemma {:induction false} LineFed(seen: seq<Line>, line: Line, v: Vars, scopeOf: string -> string, flushSize: nat)
    requires Midfile(seen, v, scopeOf, flushSize) && Decoded(line) && line.events != []
    ensures Midfile(seen + [line], Fed(v, line, scopeOf, flushSize), scopeOf, flushSize)
    ensures v.synthesized ==> v.pending == []
  {
    MidHolds(seen, v, scopeOf);
    assert line.events[0].session != "";
    hide Mid, NotFull, Fed;
    FedKeepsMid(seen, line, v, scopeOf, flushSize);
    FedNotFull(v, line, scopeOf, flushSize);
  }

  lemma {:induction false} MidHolds(seen: seq<Line>, v: Vars, scopeOf: string -> string)
    requires Mid(seen, v, scopeOf)
    ensures v.synthesized ==> v.pending == []
  {
  }

  lemma {:induction false} FileEnds(seen: seq<Line>, v: Vars, scopeOf: string -> string, flushSize: nat)
    requires Midfile(seen, v, scopeOf, flushSize)
    ensures Flat(AfterFlush(DrainedVars(v)).sent) == Expected(seen, scopeOf) && GoodBatches(AfterFlush(DrainedVars(v)).sent)
    ensures CutWhenFull(AfterFlush(DrainedVars(v)).sent, flushSize)
  {
    LeftoverCut(v, flushSize);
    hide NotFull, CutWhenFull;
    if seen != [] {
      DrainedIsExpected(seen, v, scopeOf);
      FlushedOut(DrainedVars(v));
    }
  }

  // --- what the expected output keeps ---

  ghost predicate AllDecoded(lines: seq<Line>) {
    forall i {:trigger lines[i]} :: 0 <= i < |lines| ==> Decoded(lines[i])
  }

  /** The events that came from the file, without the starts made up for it. */
  function Records(events: seq<Event>): seq<Event>
    decreases |events|
  {
    if events == [] then []
    else Records(events[..|events| - 1]) + if events[|events| - 1].Record? then [events[|events| - 1]] else []
  }

  /** At most the scope differs, and only if it was unknown. */
  predicate SameButScope(a: Event, b: Event) {
    b == a || (a.scope == UNKNOWN && b == a.(scope := b.scope))
  }

  ghost predicate SameEvents(a: seq<Event>, b: seq<Event>) {
    |a| == |b| && forall i :: 0 <= i < |a| ==> SameButScope(a[i], b[i])
  }

  lemma {:induction false} RecordsConcat(a: seq<Event>, b: seq<Event>)
    ensures Records(a + b) == Records(a) + Records(b)
    decreases |b|
  {
    if b == [] {
      assert a + b == a;
    } else {
      RecordsConcat(a, b[..|b| - 1]);
      assert (a + b)[..|a + b| - 1] == a + b[..|b| - 1];
    }
  }

  lemma {:induction false} AllRecords(events: seq<Event>)
    requires forall i :: 0 <= i < |events| ==> events[i].Record?
    ensures Records(events) == events
    decreases |events|
  {
    if events != [] {
      AllRecords(events[..|events| - 1]);
    }
  }

  lemma {:induction false} EventsConcat(a: seq<Line>, b: seq<Line>)
    ensures Events(a + b) == Events(a) + Events(b)
    decreases |b|
  {
    if b == [] {
      assert a + b == a;
    } else {
      EventsConcat(a, b[..|b| - 1]);
      assert (a + b)[..|a + b| - 1] == a + b[..|b| - 1];
      Regroup(Events(a), Events(b[..|b| - 1]), b[|b| - 1].events);
    }
  }

  lemma {:induction false} EventsAreRecords(lines: seq<Line>)
    requires AllDecoded(lines)
    ensures forall i :: 0 <= i < |Events(lines)| ==> Events(lines)[i].Record?
    decreases |lines|
  {
    if lines != [] {
      EventsAreRecords(lines[..|lines| - 1]);
      assert Decoded(lines[|lines| - 1]);
    }
  }

  lemma {:induction false} BearingKeepsEvents(lines: seq<Line>)
    requires AllDecoded(lines)
    ensures Events(Bearing(lines)) == Events(lines) && AllDecoded(Bearing(lines))
    decreases |lines|
  {
    if lines != [] {
      var init, last := lines[..|lines| - 1], lines[|lines| - 1];
      DecodedParts(lines, |lines| - 1);
      BearingKeepsEvents(init);
      EventsAppended(Bearing(init), last);
      JoinNone(Events(init), last.events);
    }
  }

  lemma {:induction false} DecodedParts(lines: seq<Line>, k: nat)
    requires AllDecoded(lines) && k <= |lines|
    ensures AllDecoded(lines[..k]) && AllDecoded(lines[k..])
  {
    assert forall i :: 0 <= i < k ==> lines[..k][i] == lines[i];
    assert forall i :: 0 <= i < |lines| - k ==> lines[k..][i] == lines[k + i];
  }

  lemma {:induction false} SameEventsConcat(a: seq<Event>, b: seq<Event>, c: seq<Event>, d: seq<Event>)
    requires SameEvents(a, b) && SameEvents(c, d)
    ensures SameEvents(a + c, b + d)
  {
  }

  /** A stretch is maximal: one session from its first line on, another before it. */
  lemma {:induction false} RunIsMaximal(lines: seq<Line>)
    requires lines != [] && AllBear(lines)
    ensures var k := RunStart(lines);
            && (forall i :: k <= i < |lines| ==> lines[i].events[0].session == lines[|lines| - 1].events[0].session)
            && (k > 0 ==> lines[k - 1].events[0].session != lines[k].events[0].session)
    decreases |lines|
  {
    var n := |lines|;
    if n > 1 && lines[n - 1].events[0].session == lines[n - 2].events[0].session {
      RunIsMaximal(lines[..n - 1]);
    }
  }

  /** Within a stretch only the head can be a start, and it is one exactly when some
      line of the stretch has a working directory. Then no scope stays unknown unless
      the directory's own scope is called that. */
  lemma {:induction false} OneStartAhead(run: seq<Line>, scopeOf: string -> string)
    requires run != [] && AllBear(run) && AllDecoded(run)
    ensures var out := RunOutput(run, scopeOf);
            && out != []
            && (out[0].Start? <==> exists i :: 0 <= i < |run| && run[i].cwd != "")
            && (forall i :: 0 < i < |out| ==> out[i].Record?)
            && (out[0].Start? ==> out[0].session == run[0].events[0].session &&
                                  forall i :: 0 < i < |out| && out[i].scope == UNKNOWN ==> out[0].scope == UNKNOWN)
  {
    EventsAreRecords(run);
    FirstCwdIs(run);
    BearsEvents(run);
  }

  lemma {:induction false} BearsEvents(run: seq<Line>)
    requires run != [] && AllBear(run)
    ensures Events(run) != []
  {
    assert run[|run| - 1].events != [];
  }

  lemma {:induction false} RunConserves(run: seq<Line>, scopeOf: string -> string)
    requires AllBear(run) && AllDecoded(run)
    ensures SameEvents(Events(run), Records(RunOutput(run, scopeOf)))
  {
    EventsAreRecords(run);
    AllRecords(Events(run));
    hide Events, Records, FirstCwd, PatchAll, VersionAtCwd;
    if run != [] && FirstCwd(run) != "" {
      var patched := PatchAll(Events(run), scopeOf(FirstCwd(run)));
      AllRecords(patched);
      StartDropped(RunOutput(run, scopeOf)[0], patched);
    }
  }

  lemma {:induction false} StartDropped(start: Event, events: seq<Event>)
    requires start.Start?
    ensures Records([start] + events) == Records(events)
  {
    RecordsConcat([start], events);
    assert [start][..0] == [];
    assert Records([start]) == [];
    assert [] + Records(events) == Records(events);
  }

  lemma {:induction false} FirstCwdIs(run: seq<Line>)
    ensures FirstCwd(run) != "" <==> exists i :: 0 <= i < |run| && run[i].cwd != ""
  {
    if run != [] {
      FirstCwdIs(run[1..]);
      assert forall i :: 0 < i < |run| ==> run[i] == run[1..][i - 1];
    }
  }

  /** Nothing is lost, repeated or reordered: without the made-up starts, the output is
      the file's events in order, at most an unknown scope filled in. */
  lemma {:induction false} ExpectedConserves(lines: seq<Line>, scopeOf: string -> string)
    requires AllBear(lines) && AllDecoded(lines)
    ensures SameEvents(Events(lines), Records(Expected(lines, scopeOf)))
    decreases |lines|
  {
    if lines != [] {
      var k := RunStart(lines);
      var before, run := lines[..k], lines[k..];
      DecodedParts(lines, k);
      ExpectedConserves(before, scopeOf);
      RunConserves(run, scopeOf);
      CutRejoins(lines, k);
      EventsConcat(before, run);
      RecordsConcat(Expected(before, scopeOf), RunOutput(run, scopeOf));
      SameEventsConcat(Events(before), Records(Expected(before, scopeOf)), Events(run), Records(RunOutput(run, scopeOf)));
    }
  }

  lemma {:induction false} FileConserved(lines: seq<Line>, scopeOf: string -> string)
    requires AllDecoded(lines)
    ensures SameEvents(Events(lines), Records(Expected(Bearing(lines), scopeOf)))
  {
    BearingKeepsEvents(lines);
    ExpectedConserves(Bearing(lines), scopeOf);
  }
}
