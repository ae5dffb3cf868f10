/** Claiming a pair code: handlers that read a row, compare, claim, count failures and
    delete, one database or map access at a time, among sweeps and restarts. Times are
    numbers, a verifier hash is opaque, and a code id is published once. */
module Pairing {

  const MAX_ATTEMPTS: nat := 5

  datatype Row = Row(hash: int, expires: int, claimed: bool)

  datatype Request = Request(code: string, verifier: int, now: int)

  /** A handler between two accesses. `now` is taken once, after the read. */
  datatype Handler =
    | Read(req: Request, row: Row)
    | Locking(code: string)
    | Clearing(code: string)

  datatype Status = Ok200 | Unauthorized401 | NotFound404 | Gone410

  datatype Tables = Tables(rows: map<string, Row>, attempts: map<string, nat>)

  function Attempts(t: Tables, code: string): nat {
    if code in t.attempts then t.attempts[code] else 0
  }

  /** The compare-and-set of a claim: unclaimed and not yet expired. */
  predicate CanClaim(t: Tables, code: string, now: int) {
    code in t.rows && !t.rows[code].claimed && t.rows[code].expires > now
  }

  function Claimed(t: Tables, code: string): Tables
    requires code in t.rows
  {
    t.(rows := t.rows[code := t.rows[code].(claimed := true)])
  }

  function Failed(t: Tables, code: string): Tables {
    t.(attempts := t.attempts[code := Attempts(t, code) + 1])
  }

  function Deleted(t: Tables, code: string): Tables {
    t.(rows := t.rows - {code})
  }

  function Cleared(t: Tables, code: string): Tables {
    t.(attempts := t.attempts - {code})
  }

  function Swept(t: Tables, now: int): Tables {
    t.(rows := map c | c in t.rows && t.rows[c].expires > now :: t.rows[c])
  }

  // --- interleaved handlers ---

  /** `published` and `wins` record what happened; the program does not keep them. */
  datatype State = State(tables: Tables, handlers: map<nat, Handler>, published: map<string, Row>, wins: seq<string>)

  datatype Step =
    | Publish(code: string, hash: int, expires: int)
    | Begin(id: nat, req: Request)
    | Advance(id: nat)
    | Sweep(now: int)
    | Restart

  const EMPTY: State := State(Tables(map[], map[]), map[], map[], [])

  /** Whether advancing this handler claims the code. */
  predicate Wins(s: State, step: Step) {
    && step.Advance? && step.id in s.handlers && s.handlers[step.id].Read?
    && var h := s.handlers[step.id];
       !h.row.claimed && h.row.expires >= h.req.now && h.row.hash == h.req.verifier && CanClaim(s.tables, h.req.code, h.req.now)
  }

  function Advanced(s: State, id: nat, h: Handler): State {
    var done := s.(handlers := s.handlers - {id});
    match h
    case Clearing(code) => done.(tables := Cleared(s.tables, code))
    case Locking(code) => s.(tables := Deleted(s.tables, code), handlers := s.handlers[id := Clearing(code)])
    case Read(req, row) =>
      if row.claimed then done
      else if row.expires < req.now then
        s.(tables := Deleted(s.tables, req.code), handlers := s.handlers[id := Clearing(req.code)])
      else if row.hash != req.verifier then
        var failed := Failed(s.tables, req.code);
        if Attempts(failed, req.code) >= MAX_ATTEMPTS then s.(tables := failed, handlers := s.handlers[id := Locking(req.code)])
        else done.(tables := failed)
      else if CanClaim(s.tables, req.code, req.now) then
        s.(tables := Claimed(s.tables, req.code), handlers := s.handlers[id := Clearing(req.code)], wins := s.wins + [req.code])
      else done
  }

  function Next(s: State, step: Step): State {
    match step
    case Publish(code, hash, expires) =>
      if code in s.published then s
      else s.(tables := s.tables.(rows := s.tables.rows[code := Row(hash, expires, false)]),
              published := s.published[code := Row(hash, expires, false)])
    case Begin(id, req) =>
      if id in s.handlers || req.code !in s.tables.rows then s
      else s.(handlers := s.handlers[id := Read(req, s.tables.rows[req.code])])
    case Advance(id) => if id in s.handlers then Advanced(s, id, s.handlers[id]) else s
    case Sweep(now) => s.(tables := Swept(s.tables, now))
    case Restart => s.(tables := s.tables.(attempts := map[]), handlers := map[])
  }

  function Run(s: State, steps: seq<Step>): State
    decreases |steps|
  {
    if steps == [] then s else Next(Run(s, steps[..|steps| - 1]), steps[|steps| - 1])
  }

  predicate AsPublished(s: State, code: string, row: Row) {
    code in s.published && s.published[code].hash == row.hash && s.published[code].expires == row.expires
  }

  /** A code that can never be claimed again. */
  predicate Spent(s: State, code: string) {
    code in s.published && (code in s.tables.rows ==> s.tables.rows[code].claimed)
  }

  ghost predicate Inv(s: State) {
    && (forall c :: c in s.tables.rows ==> AsPublished(s, c, s.tables.rows[c]))
    && (forall id :: id in s.handlers && s.handlers[id].Read? ==> AsPublished(s, s.handlers[id].req.code, s.handlers[id].row))
    && (forall c :: c in s.tables.rows && s.tables.rows[c].claimed ==> c in s.wins)
    && (forall i {:trigger s.wins[i]} :: 0 <= i < |s.wins| ==> Spent(s, s.wins[i]))
    && (forall i, j :: 0 <= i < j < |s.wins| ==> s.wins[i] != s.wins[j])
  }

  /** What every step keeps; a claim in particular spends a code that was not spent. */
  ghost predicate Keeps(s: State, step: Step) {
    var s' := Next(s, step);
    && Inv(s')
    && s'.wins == (if Wins(s, step) then s.wins + [s.handlers[step.id].req.code] else s.wins)
    && (forall c {:trigger Spent(s, c)} {:trigger Spent(s', c)} :: Spent(s, c) ==> Spent(s', c))
    && (Wins(s, step) ==> !Spent(s, s.handlers[step.id].req.code))
  }

  lemma {:induction false} ClaimKeepsInv(s: State, step: Step)
    requires Inv(s) && Wins(s, step)
    ensures Keeps(s, step)
  {
    var code := s.handlers[step.id].req.code;
    assert Spent(Next(s, step), code) && !Spent(s, code);
  }

  lemma {:induction false} AdvanceKeepsInv(s: State, step: Step)
    requires Inv(s) && step.Advance? && !Wins(s, step)
    ensures Keeps(s, step)
  {
  }

  lemma {:induction false} OtherStepKeepsInv(s: State, step: Step)
    requires Inv(s) && !step.Advance?
    ensures Keeps(s, step)
  {
  }

  lemma {:induction false} NextKeepsInv(s: State, step: Step)
    requires Inv(s)
    ensures Keeps(s, step)
  {
    if Wins(s, step) {
      ClaimKeepsInv(s, step);
    } else if step.Advance? {
      AdvanceKeepsInv(s, step);
    } else {
      OtherStepKeepsInv(s, step);
    }
  }

  lemma {:induction false} RunsKeepInv(s: State, steps: seq<Step>)
    requires Inv(s)
    ensures Inv(Run(s, steps)) && s.wins <= Run(s, steps).wins
    ensures forall c :: Spent(s, c) ==> Spent(Run(s, steps), c)
    decreases |steps|
  {
    if steps != [] {
      RunsKeepInv(s, steps[..|steps| - 1]);
      NextKeepsInv(Run(s, steps[..|steps| - 1]), steps[|steps| - 1]);
    }
  }

  /** Over every run, a code is claimed at most once; whoever claims it gave the verifier
      it was published with, before it expired. */
  lemma {:induction false} ClaimedAtMostOnce(steps: seq<Step>)
    ensures var s := Run(EMPTY, steps); forall i, j :: 0 <= i < j < |s.wins| ==> s.wins[i] != s.wins[j]
    ensures forall n: nat :: n < |steps| && Wins(Run(EMPTY, steps[..n]), steps[n]) ==>
              var s := Run(EMPTY, steps[..n]);
              var req := s.handlers[steps[n].id].req;
              req.code in s.published && s.published[req.code].hash == req.verifier && req.now < s.published[req.code].expires
  {
    RunsKeepInv(EMPTY, steps);
    forall n: nat | n < |steps| && Wins(Run(EMPTY, steps[..n]), steps[n])
      ensures var s := Run(EMPTY, steps[..n]);
              var req := s.handlers[steps[n].id].req;
              req.code in s.published && s.published[req.code].hash == req.verifier && req.now < s.published[req.code].expires
    {
      RunsKeepInv(EMPTY, steps[..n]);
    }
  }

  /** Once its row is claimed or gone, a code is never claimed: the wins for it stay
      as they are. */
  lemma {:induction false} SpentForGood(s: State, steps: seq<Step>, code: string)
    requires Inv(s) && Spent(s, code)
    ensures code in Run(s, steps).wins <==> code in s.wins
    decreases |steps|
  {
    if steps != [] {
      var init := Run(s, steps[..|steps| - 1]);
      SpentForGood(s, steps[..|steps| - 1], code);
      RunsKeepInv(s, steps[..|steps| - 1]);
      NextKeepsInv(init, steps[|steps| - 1]);
    }
  }

  /** What the other steps do: a code published is open under its verifier, a sweep takes
      exactly the expired rows, and a restart forgets failures and handlers but no row. */
  lemma {:induction false} OtherSteps(s: State, code: string, hash: int, expires: int, now: int)
    ensures code !in s.published ==>
              var s' := Next(s, Publish(code, hash, expires));
              s'.tables.rows == s.tables.rows[code := Row(hash, expires, false)] && s'.tables.attempts == s.tables.attempts
    ensures var swept := Next(s, Sweep(now)).tables;
            && swept.attempts == s.tables.attempts
            && (forall c :: c in swept.rows <==> c in s.tables.rows && s.tables.rows[c].expires > now)
            && (forall c :: c in swept.rows ==> swept.rows[c] == s.tables.rows[c])
    ensures var anew := Next(s, Restart);
            anew.tables == Tables(s.tables.rows, map[]) && anew.handlers == map[] && anew.wins == s.wins
  {
  }

  /** A code can be won, by the first request with its verifier before it expires. */
  lemma {:induction false} CanBeWon(code: string, hash: int, expires: int, now: int)
    requires now < expires
    ensures Run(EMPTY, [Publish(code, hash, expires), Begin(0, Request(code, hash, now)), Advance(0)]).wins == [code]
  {
    var a, b, c := Publish(code, hash, expires), Begin(0, Request(code, hash, now)), Advance(0);
    assert [a, b, c] == [] + [a] + [b] + [c];
    RunLast(EMPTY, [] + [a] + [b], c);
    RunLast(EMPTY, [] + [a], b);
    RunLast(EMPTY, [], a);
  }

  // --- one request at a time ---

  /** What a whole request does when nothing comes between its accesses. */
  function Handled(t: Tables, req: Request): (Tables, Status) {
    if req.code !in t.rows then (t, NotFound404)
    else
      var row := t.rows[req.code];
      if row.claimed then (t, Gone410)
      else if row.expires < req.now then (Cleared(Deleted(t, req.code), req.code), NotFound404)
      else if row.hash != req.verifier then
        var failed := Failed(t, req.code);
        if Attempts(failed, req.code) >= MAX_ATTEMPTS then (Cleared(Deleted(failed, req.code), req.code), NotFound404)
        else (failed, Unauthorized401)
      else if CanClaim(t, req.code, req.now) then (Cleared(Claimed(t, req.code), req.code), Ok200)
      else (t, Gone410)
  }

  /** The code is open to this request. */
  predicate Open(t: Tables, req: Request) {
    req.code in t.rows && !t.rows[req.code].claimed && req.now <= t.rows[req.code].expires
  }

  predicate Verified(t: Tables, req: Request) {
    req.code in t.rows && t.rows[req.code].hash == req.verifier
  }

  /** This is the fifth wrong verifier, or a later one. */
  predicate LastChance(t: Tables, req: Request) {
    Attempts(t, req.code) + 1 >= 5
  }

  /** When a request is answered what. */
  predicate Answers(t: Tables, req: Request, status: Status) {
    match status
    case Ok200 => Open(t, req) && Verified(t, req) && req.now < t.rows[req.code].expires
    case Unauthorized401 => Open(t, req) && !Verified(t, req) && !LastChance(t, req)
    case NotFound404 =>
      || req.code !in t.rows
      || (!t.rows[req.code].claimed && t.rows[req.code].expires < req.now)
      || (Open(t, req) && !Verified(t, req) && LastChance(t, req))
    case Gone410 =>
      req.code in t.rows && (t.rows[req.code].claimed || (Verified(t, req) && req.now == t.rows[req.code].expires))
  }

  /** No other code is touched. */
  ghost predicate OthersSame(t: Tables, t': Tables, code: string) {
    t'.rows - {code} == t.rows - {code} && t'.attempts - {code} == t.attempts - {code}
  }

  /** What a request that is answered this way has done to its code: turned `claimed` on
      and forgotten the failures; counted one more failure; left no row; or nothing. */
  ghost predicate Leaves(t: Tables, req: Request, status: Status, t': Tables) {
    && OthersSame(t, t', req.code)
    && match status
       case Ok200 =>
         && req.code in t.rows && !t.rows[req.code].claimed
         && req.code in t'.rows && t'.rows[req.code] == t.rows[req.code].(claimed := true)
         && Attempts(t', req.code) == 0
       case Unauthorized401 => t'.rows == t.rows && Attempts(t', req.code) == Attempts(t, req.code) + 1
       case NotFound404 => req.code !in t'.rows && (req.code in t.rows ==> Attempts(t', req.code) == 0)
       case Gone410 => t' == t
  }

  /** Exactly one answer fits, and it is the one given. */
  lemma {:induction false} AnsweredRightly(t: Tables, req: Request)
    ensures forall status :: Answers(t, req, status) <==> status == Handled(t, req).1
    ensures Leaves(t, req, Handled(t, req).1, Handled(t, req).0)
  {
    var t' := Handled(t, req).0;
    assert t'.rows - {req.code} == t.rows - {req.code};
    assert t'.attempts - {req.code} == t.attempts - {req.code};
  }

  /** A request is answered 200 exactly when it turned `claimed` on, and exactly when its
      handler, left alone, wins the code. */
  lemma {:induction false} OkIsWin(s: State, id: nat, req: Request)
    requires id !in s.handlers
    ensures var (t', status) := Handled(s.tables, req);
            && (status == Ok200 <==> Wins(Next(s, Begin(id, req)), Advance(id)))
            && (status == Ok200 <==> req.code in s.tables.rows && !s.tables.rows[req.code].claimed &&
                                     req.code in t'.rows && t'.rows[req.code].claimed)
  {
    AnsweredRightly(s.tables, req);
  }

  /** One handler left alone takes at most four accesses, and they come to the same. */
  lemma {:induction false} HandledIsOneHandler(s: State, id: nat, req: Request)
    requires id !in s.handlers
    ensures var after := Run(s, [Begin(id, req), Advance(id), Advance(id), Advance(id)]);
            after.tables == Handled(s.tables, req).0 && after.handlers == s.handlers
  {
    FourSteps(s, Begin(id, req), Advance(id));
    if req.code !in s.tables.rows {
      ThreeMore(s, id);
    } else {
      var first := Read(req, s.tables.rows[req.code]);
      var s1 := Next(s, Begin(id, req));
      AddThenDrop(s.handlers, id, first, Locking(req.code));
      AddThenDrop(s.handlers, id, first, Clearing(req.code));
      AddThenDrop(s.handlers, id, Locking(req.code), Clearing(req.code));
      assert s1 == s.(handlers := s.handlers[id := first]);
      FirstAccess(s, id, req);
      hide Handled;
      var s2 := Next(s1, Advance(id));
      if id !in s2.handlers {
        ThreeMore(s2, id);
      } else if s2.handlers[id].Clearing? {
        assert Next(s2, Advance(id)).handlers == s.handlers;
        ThreeMore(Next(s2, Advance(id)), id);
      } else {
        assert Next(Next(s2, Advance(id)), Advance(id)).handlers == s.handlers;
      }
    }
  }

  /** Advancing a handler that has finished does nothing. */
  lemma {:induction false} ThreeMore(s: State, id: nat)
    requires id !in s.handlers
    ensures Next(s, Advance(id)) == s
  {
  }

  /** After the access that decides the outcome, what is left is to delete or to clear. */
  lemma {:induction false} FirstAccess(s: State, id: nat, req: Request)
    requires id !in s.handlers && req.code in s.tables.rows
    ensures var s2 := Next(s.(handlers := s.handlers[id := Read(req, s.tables.rows[req.code])]), Advance(id));
            var t := Handled(s.tables, req).0;
            if id !in s2.handlers then s2.tables == t && s2.handlers == s.handlers
            else if s2.handlers[id] == Clearing(req.code) then
              Cleared(s2.tables, req.code) == t && s2.handlers == s.handlers[id := Clearing(req.code)]
            else
              s2.handlers[id] == Locking(req.code) && Cleared(Deleted(s2.tables, req.code), req.code) == t &&
              s2.handlers == s.handlers[id := Locking(req.code)]
  {
    AddThenDrop(s.handlers, id, Read(req, s.tables.rows[req.code]), Clearing(req.code));
    AddThenDrop(s.handlers, id, Read(req, s.tables.rows[req.code]), Locking(req.code));
  }

  lemma {:induction false} AddThenDrop(h: map<nat, Handler>, id: nat, v: Handler, w: Handler)
    requires id !in h
    ensures h[id := v] - {id} == h && h[id := w] - {id} == h && h[id := v][id := w] == h[id := w]
  {
  }

  lemma {:induction false} RunLast(s: State, steps: seq<Step>, step: Step)
    ensures Run(s, steps + [step]) == Next(Run(s, steps), step)
  {
    assert (steps + [step])[..|steps|] == steps;
  }

  lemma {:induction false} FourSteps(s: State, a: Step, b: Step)
    ensures Run(s, [a, b, b, b]) == Next(Next(Next(Next(s, a), b), b), b)
  {
    hide Next;
    assert [a, b, b, b] == [] + [a] + [b] + [b] + [b];
    RunLast(s, [] + [a] + [b] + [b], b);
    RunLast(s, [] + [a] + [b], b);
    RunLast(s, [] + [a], b);
    RunLast(s, [], a);
  }

  class PairServer {
    var rows: map<string, Row>
    var attempts: map<string, nat>

    ghost function State(): Tables
      reads this
    {
      Tables(rows, attempts)
    }

    constructor ()
      ensures State() == Tables(map[], map[])
    {
      rows, attempts := map[], map[];
    }

    method Claim(code: string, now: int) returns (ok: bool)
      modifies this`rows
      ensures ok <==> CanClaim(old(State()), code, now)
      ensures State() == if ok then Claimed(old(State()), code) else old(State())
    {
      ok := code in rows && !rows[code].claimed && rows[code].expires > now;
      if ok {
        rows := rows[code := rows[code].(claimed := true)];
      }
    }

    method RecordFailure(code: string) returns (n: nat)
      modifies this`attempts
      ensures State() == Failed(old(State()), code) && n == Attempts(State(), code)
    {
      n := (if code in attempts then attempts[code] else 0) + 1;
      attempts := attempts[code := n];
    }

    method ClearAttempts(code: string)
      modifies this`attempts
      ensures State() == Cleared(old(State()), code)
    {
      attempts := attempts - {code};
    }

    method Lockout(code: string)
      modifies this
      ensures State() == Cleared(Deleted(old(State()), code), code)
    {
      rows := rows - {code};
      ClearAttempts(code);
    }

    method HandlePairClaim(req: Request) returns (status: Status)
      modifies this
      ensures (State(), status) == Handled(old(State()), req)
      ensures Answers(old(State()), req, status) && Leaves(old(State()), req, status, State())
    {
      AnsweredRightly(State(), req);
      if req.code !in rows {
        return NotFound404;
      }
      var row := rows[req.code];
      if row.claimed {
        return Gone410;
      }
      if row.expires < req.now {
        Lockout(req.code);
        return NotFound404;
      }
      if req.verifier != row.hash {
        var n := RecordFailure(req.code);
        if n >= MAX_ATTEMPTS {
          Lockout(req.code);
          return NotFound404;
        }
        return Unauthorized401;
      }
      var claimed := Claim(req.code, req.now);
      if !claimed {
        return Gone410;
      }
      ClearAttempts(req.code);
      return Ok200;
    }
  }

  function AllHandled(t: Tables, reqs: seq<Request>): Tables
    decreases |reqs|
  {
    if reqs == [] then t else Handled(AllHandled(t, reqs[..|reqs| - 1]), reqs[|reqs| - 1]).0
  }

  function CountFor(reqs: seq<Request>, code: string): nat
    decreases |reqs|
  {
    if reqs == [] then 0
    else CountFor(reqs[..|reqs| - 1], code) + if reqs[|reqs| - 1].code == code then 1 else 0
  }

  /** Requests for a code that is still good, none with the right verifier. */
  ghost predicate WrongGuesses(reqs: seq<Request>, code: string, row: Row) {
    forall i {:trigger reqs[i]} :: 0 <= i < |reqs| && reqs[i].code == code ==> reqs[i].verifier != row.hash && reqs[i].now <= row.expires
  }

  /** From a restart on, with requests one at a time, a code survives wrong verifiers
      exactly as long as there are fewer than five; then it is gone for good. Requests for
      other codes make no difference. */
  lemma {:induction false} FifthGuessRemoves(t: Tables, reqs: seq<Request>, code: string)
    requires t.attempts == map[] && code in t.rows && !t.rows[code].claimed && WrongGuesses(reqs, code, t.rows[code])
    ensures var after, n := AllHandled(t, reqs), CountFor(reqs, code);
            && (code in after.rows <==> n < 5)
            && (n < 5 ==> after.rows[code] == t.rows[code] && Attempts(after, code) == n)
    decreases |reqs|
  {
    if reqs != [] {
      var init, last := reqs[..|reqs| - 1], reqs[|reqs| - 1];
      assert forall i :: 0 <= i < |init| ==> init[i] == reqs[i];
      FifthGuessRemoves(t, init, code);
      assert last == reqs[|reqs| - 1];
    }
  }
}
