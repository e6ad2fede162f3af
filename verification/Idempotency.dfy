// The idempotency store: one row per operation key, claimed exactly once. Each driver call
// is one atomic step on the row; claimKey makes two (look-up-or-insert, then the
// re-acquisition compare-and-set) and anything may happen in between.

module IdempotencyProtocol {
  import opened Common

  // Random tokens, modelled as distinct per claimKey call; a token names its call.
  type Token = nat
  type Time = int

  datatype Status = InFlight | Succeeded | Failed

  datatype Row = Row(
    status: Status,
    token: Token,
    expiresAt: Time,
    attempts: nat,
    progress: Option<string>,
    result: Option<string>,
    failureCode: Option<string>,
    lastError: Option<string>)

  // Extra columns of the first insert; the protocol's own columns win over the seed.
  datatype Seed = Seed(
    progress: Option<string>,
    result: Option<string>,
    failureCode: Option<string>,
    lastError: Option<string>)

  // The clock is read once, before the first driver call.
  datatype Call = Call(token: Token, now: Time, leaseMs: int, seed: Seed)

  datatype Claim =
    | Acquired(token: Token, attempt: nat, progress: Option<string>)
    | Completed(result: Option<string>)
    | FailedBefore(failureCode: Option<string>, error: Option<string>)
    | Busy(progress: Option<string>, holder: Option<Token>)
    | Exhausted(attempts: nat, progress: Option<string>)

  // A call between its two steps, with the progress it saw at the first.
  datatype Stalled = Stalled(call: Call, seen: Option<string>)

  // What the look-up decides: an answer, or a re-acquisition still to be attempted.
  datatype Decision = Answer(claim: Claim) | Retry(stalled: Stalled)

  function Fresh(call: Call): Row {
    Row(InFlight, call.token, call.now + call.leaseMs, 1,
        call.seed.progress, call.seed.result, call.seed.failureCode, call.seed.lastError)
  }

  function Decide(maxAttempts: nat, row: Row, call: Call): Decision {
    if row.status == Succeeded then Answer(Completed(row.result))
    else if row.status == Failed then Answer(FailedBefore(row.failureCode, row.lastError))
    else if row.expiresAt > call.now then Answer(Busy(row.progress, Some(row.token)))
    else if maxAttempts > 0 && row.attempts >= maxAttempts then Answer(Exhausted(row.attempts, row.progress))
    else Retry(Stalled(call, row.progress))
  }

  predicate Expired(row: Row, now: Time) {
    row.status == InFlight && row.expiresAt <= now
  }

  function Reacquired(row: Row, call: Call): Row {
    row.(token := call.token, expiresAt := call.now + call.leaseMs, attempts := row.attempts + 1)
  }

  // The filter every lease-guarded write carries; `guard` is the caller's own `where`.
  predicate Holds(row: Option<Row>, t: Token, guard: bool) {
    row.Some? && row.value.token == t && row.value.status == InFlight && guard
  }

  function Or(a: Option<string>, b: Option<string>): Option<string> {
    if a.Some? then a else b
  }

  datatype Write =
    | Save(progress: string, guard: bool)
    | Complete(result: Option<string>, guard: bool)
    | Fail(code: string, error: Option<string>, guard: bool)
    | Release
    | Expire(now: Time, error: Option<string>)

  predicate GuardOf(w: Write) {
    match w
    case Save(_, g) => g
    case Complete(_, g) => g
    case Fail(_, _, g) => g
    case _ => true
  }

  function Written(row: Row, w: Write): Option<Row> {
    match w
    case Save(p, _) => Some(row.(progress := Some(p)))
    case Complete(r, _) => Some(row.(status := Succeeded, result := Or(r, row.result)))
    case Fail(c, e, _) =>
      Some(row.(status := Failed, failureCode := Some(c), lastError := Or(e, row.lastError)))
    case Release => None
    case Expire(now, e) => Some(row.(expiresAt := now, lastError := Or(e, row.lastError)))
  }

  // ---- Runs over one key -------------------------------------------------------------

  // A lease as stored: [start, end) of one acquirer, with the answer it was given.
  datatype Lease = Lease(token: Token, start: Time, end: Time, attempt: nat, given: Option<string>)

  // `pending` holds the calls between their two steps, `used` every token seen so far. The
  // last three fields observe the run: the leases of the row now stored, the last progress
  // saved in it, and the largest number of calls pending at once.
  datatype State = State(
    row: Option<Row>,
    pending: map<Token, Stalled>,
    used: set<Token>,
    leases: seq<Lease>,
    saved: Option<string>,
    peak: nat)

  const START := State(None, map[], {}, [], None, 0)

  datatype Event =
    | LookUp(call: Call)
    | TryReacquire(token: Token)
    | Guarded(token: Token, write: Write)

  datatype Reply = Claimed(claim: Claim) | Undecided | Success(ok: bool) | NotACall

  function Max(a: nat, b: nat): nat {
    if a > b then a else b
  }

  function SetEnd(leases: seq<Lease>, end: Time): seq<Lease>
    requires leases != []
  {
    leases[..|leases| - 1] + [leases[|leases| - 1].(end := end)]
  }

  function Step(maxAttempts: nat, s: State, e: Event): (State, Reply) {
    match e
    case LookUp(c) =>
      if c.token in s.used then (s, NotACall)
      else
        var t := s.(used := s.used + {c.token});
        if s.row.None? then
          (t.(row := Some(Fresh(c)), saved := c.seed.progress,
              leases := [Lease(c.token, c.now, c.now + c.leaseMs, 1, None)]),
           Claimed(Acquired(c.token, 1, None)))
        else
          (match Decide(maxAttempts, s.row.value, c)
           case Answer(claim) => (t, Claimed(claim))
           case Retry(stalled) =>
             var p := s.pending[c.token := stalled];
             (t.(pending := p, peak := Max(s.peak, |p|)), Undecided))
    case TryReacquire(t) =>
      if t !in s.pending then (s, NotACall)
      else
        var c := s.pending[t].call;
        var u := s.(pending := s.pending - {t});
        if s.row.Some? && Expired(s.row.value, c.now) then
          var r := Reacquired(s.row.value, c);
          (u.(row := Some(r), leases := s.leases + [Lease(t, c.now, c.now + c.leaseMs, r.attempts, r.progress)]),
           Claimed(Acquired(t, r.attempts, r.progress)))
        else (u, Claimed(Busy(s.pending[t].seen, None)))
    case Guarded(t, w) =>
      if Holds(s.row, t, GuardOf(w)) then
        var row := Written(s.row.value, w);
        (s.(row := row,
            leases := if row.None? || s.leases == [] then []
                      else if w.Expire? then SetEnd(s.leases, w.now) else s.leases,
            saved := if w.Save? then Some(w.progress) else if row.None? then None else s.saved),
         Success(true))
      else (s, Success(false))
  }

  function Run(maxAttempts: nat, s: State, events: seq<Event>): State
    decreases |events|
  {
    if events == [] then s else Run(maxAttempts, Step(maxAttempts, s, events[0]).0, events[1..])
  }

  // ---- Invariants --------------------------------------------------------------------

  ghost predicate Inv(s: State) {
    && (s.row.None? ==> s.leases == [])
    && (s.row.Some? ==>
          && s.leases != []
          && s.leases[|s.leases| - 1].token == s.row.value.token
          && s.leases[|s.leases| - 1].end == s.row.value.expiresAt
          && s.row.value.attempts == |s.leases|
          && s.row.value.progress == s.saved)
    && (forall i | 0 <= i < |s.leases| :: s.leases[i].attempt == i + 1)
    && (forall i | 0 <= i < |s.leases| :: s.leases[i].token in s.used && s.leases[i].token !in s.pending)
    && (forall i, j | 0 <= i < j < |s.leases| :: s.leases[i].token != s.leases[j].token)
    && s.pending.Keys <= s.used
    && (forall t | t in s.pending :: s.pending[t].call.token == t)
  }

  lemma LookUpKeepsInv(maxAttempts: nat, s: State, c: Call)
    requires Inv(s)
    ensures Inv(Step(maxAttempts, s, LookUp(c)).0)
  {
  }

  lemma TryReacquireKeepsInv(maxAttempts: nat, s: State, t: Token)
    requires Inv(s)
    ensures Inv(Step(maxAttempts, s, TryReacquire(t)).0)
  {
  }

  lemma GuardedKeepsInv(maxAttempts: nat, s: State, t: Token, w: Write)
    requires Inv(s)
    ensures Inv(Step(maxAttempts, s, Guarded(t, w)).0)
  {
  }

  lemma StepKeepsInv(maxAttempts: nat, s: State, e: Event)
    requires Inv(s)
    ensures Inv(Step(maxAttempts, s, e).0)
  {
    match e
    case LookUp(c) => LookUpKeepsInv(maxAttempts, s, c);
    case TryReacquire(t) => TryReacquireKeepsInv(maxAttempts, s, t);
    case Guarded(t, w) => GuardedKeepsInv(maxAttempts, s, t, w);
  }

  lemma {:induction false} RunKeepsInv(maxAttempts: nat, s: State, events: seq<Event>)
    requires Inv(s)
    ensures Inv(Run(maxAttempts, s, events))
    decreases |events|
  {
    if events != [] {
      StepKeepsInv(maxAttempts, s, events[0]);
      RunKeepsInv(maxAttempts, Step(maxAttempts, s, events[0]).0, events[1..]);
    }
  }

  // Every acquisition a call is told of is the newest stored lease, its attempt is its rank,
  // and a re-acquirer is given the last progress saved in the row.
  lemma AcquiredIsNumbered(maxAttempts: nat, s: State, e: Event)
    requires Inv(s)
    ensures
      var (t, reply) := Step(maxAttempts, s, e);
      reply.Claimed? && reply.claim.Acquired? ==>
        && reply.claim.attempt == |t.leases| == (if s.row.None? then 1 else |s.leases| + 1)
        && t.row.Some? && t.row.value.token == reply.claim.token && t.row.value.status == InFlight
        && t.leases[|t.leases| - 1].token == reply.claim.token
        && (s.row.Some? ==> t.leases[..|s.leases|] == s.leases && reply.claim.progress == s.saved)
  {
  }

  // ---- Leases never overlap ----------------------------------------------------------

  ghost predicate Ordered(leases: seq<Lease>) {
    && (forall i | 0 <= i < |leases| :: leases[i].start <= leases[i].end)
    && (forall i, j | 0 <= i < j < |leases| :: leases[i].end <= leases[j].start)
  }

  // What a caller can check before the step: no negative lease, and no clock that reads
  // earlier than it did when this holder acquired.
  ghost predicate Disciplined(s: State, e: Event) {
    match e
    case LookUp(c) => c.token !in s.used && s.row.None? ==> c.leaseMs >= 0
    case TryReacquire(t) =>
      t in s.pending && s.row.Some? && Expired(s.row.value, s.pending[t].call.now) ==>
        s.pending[t].call.leaseMs >= 0
    case Guarded(t, w) =>
      w.Expire? && Holds(s.row, t, true) && s.leases != [] ==> w.now >= s.leases[|s.leases| - 1].start
  }

  lemma StepOrdered(maxAttempts: nat, s: State, e: Event)
    requires Inv(s) && Ordered(s.leases)
    ensures Ordered(Step(maxAttempts, s, e).0.leases) <==> Disciplined(s, e)
  {
    var t := Step(maxAttempts, s, e).0;
    if t.leases != [] && !Disciplined(s, e) {
      assert t.leases[|t.leases| - 1].start > t.leases[|t.leases| - 1].end;
    }
  }

  ghost predicate AlwaysOrdered(maxAttempts: nat, s: State, events: seq<Event>)
    decreases |events|
  {
    Ordered(s.leases) && (events != [] ==> AlwaysOrdered(maxAttempts, Step(maxAttempts, s, events[0]).0, events[1..]))
  }

  ghost predicate AlwaysDisciplined(maxAttempts: nat, s: State, events: seq<Event>)
    decreases |events|
  {
    events != [] ==>
      Disciplined(s, events[0]) && AlwaysDisciplined(maxAttempts, Step(maxAttempts, s, events[0]).0, events[1..])
  }

  // Main result: over every interleaving, however stale the clocks of the acquirers, the
  // leases stay in order exactly when no step writes an expiry before its lease's start.
  lemma {:induction false} LeasesInOrder(maxAttempts: nat, s: State, events: seq<Event>)
    requires Inv(s) && Ordered(s.leases)
    ensures AlwaysOrdered(maxAttempts, s, events) <==> AlwaysDisciplined(maxAttempts, s, events)
    decreases |events|
  {
    if events != [] {
      var t := Step(maxAttempts, s, events[0]).0;
      StepKeepsInv(maxAttempts, s, events[0]);
      StepOrdered(maxAttempts, s, events[0]);
      if Ordered(t.leases) {
        LeasesInOrder(maxAttempts, t, events[1..]);
      }
    }
  }

  lemma NoInstantHeldTwice(leases: seq<Lease>, i: nat, j: nat, at: Time)
    requires Ordered(leases) && i < j < |leases|
    ensures !(leases[i].start <= at < leases[i].end && leases[j].start <= at < leases[j].end)
  {
  }

  lemma RunCons(maxAttempts: nat, s: State, e: Event, rest: seq<Event>, t: State)
    requires Step(maxAttempts, s, e).0 == t
    ensures Run(maxAttempts, s, [e] + rest) == Run(maxAttempts, t, rest)
  {
    assert ([e] + rest)[1..] == rest;
  }

  lemma RunTwo(maxAttempts: nat, s: State, e: Event, f: Event, rest: seq<Event>, t: State, u: State)
    requires Step(maxAttempts, s, e).0 == t && Step(maxAttempts, t, f).0 == u
    ensures Run(maxAttempts, s, [e, f] + rest) == Run(maxAttempts, u, rest)
  {
    RunCons(maxAttempts, s, e, [f] + rest, t);
    RunCons(maxAttempts, t, f, rest, u);
    assert [e, f] + rest == [e] + ([f] + rest);
  }

  const NO_SEED := Seed(None, None, None, None)

  // Run two more events, then whatever already leads to a state of interest.
  lemma Before(maxAttempts: nat, s: State, e: Event, f: Event, u: State, rest: seq<Event>)
    returns (events: seq<Event>)
    requires Step(maxAttempts, Step(maxAttempts, s, e).0, f).0 == u
    ensures Run(maxAttempts, s, events) == Run(maxAttempts, u, rest)
  {
    events := [e, f] + rest;
    RunTwo(maxAttempts, s, e, f, rest, Step(maxAttempts, s, e).0, u);
  }

  predicate Covers(l: Lease, at: Time) {
    l.start <= at < l.end
  }

  ghost predicate Overlapping(s: State) {
    exists i, j, at | 0 <= i < j < |s.leases| :: Covers(s.leases[i], at) && Covers(s.leases[j], at)
  }

  // One key, claimed, found expired by a second call, re-acquired by it.
  function Held(token: Token, end: Time, attempts: nat): Row {
    Row(InFlight, token, end, attempts, None, None, None, None)
  }

  function Rivals(end: Time, c: Call): State {
    State(Some(Held(1, end, 1)), map[c.token := Stalled(c, None)], {1, c.token}, [Lease(1, 0, end, 1, None)], None, 1)
  }

  function Lapsed(leases: seq<Lease>): State {
    State(Some(Held(2, 10, 2)), map[], {1, 2}, leases, None, 1)
  }

  lemma FirstClaimThenRival(maxAttempts: nat, end: Time, c: Call)
    requires maxAttempts != 1 && c.token == 2 && c.now >= end
    ensures Step(maxAttempts, Step(maxAttempts, START, LookUp(Call(1, 0, end, NO_SEED))).0, LookUp(c)).0
         == Rivals(end, c)
  {
    var s1 := Step(maxAttempts, START, LookUp(Call(1, 0, end, NO_SEED))).0;
    assert s1 == State(Some(Held(1, end, 1)), map[], {1}, [Lease(1, 0, end, 1, None)], None, 0);
  }

  lemma RivalLapsesItsLease(c: Call)
    requires c == Call(2, 60, 60, NO_SEED)
    ensures Step(0, Step(0, Rivals(60, c), TryReacquire(2)).0, Guarded(2, Expire(10, None))).0
         == Lapsed([Lease(1, 0, 60, 1, None), Lease(2, 60, 10, 2, None)])
  {
    var s := Step(0, Rivals(60, c), TryReacquire(2)).0;
    assert s.leases == [Lease(1, 0, 60, 1, None), Lease(2, 60, 120, 2, None)];
    assert s.pending == map[];
  }

  lemma ThirdAcquires(leases: seq<Lease>, c: Call)
    requires c == Call(3, 20, 60, NO_SEED)
    ensures Step(0, Step(0, Lapsed(leases), LookUp(c)).0, TryReacquire(3)).0.leases
         == leases + [Lease(3, 20, 80, 3, None)]
  {
    var s := Step(0, Lapsed(leases), LookUp(c)).0;
    assert s.pending == map[3 := Stalled(c, None)] && s.row == Lapsed(leases).row;
  }

  // A holder whose clock steps back and that then lapses its own lease lets a later
  // acquirer's interval overlap an earlier one.
  lemma ClockSteppingBackOverlaps()
    ensures exists events :: Overlapping(Run(0, START, events))
  {
    var c1, c2, c3 := Call(1, 0, 60, NO_SEED), Call(2, 60, 60, NO_SEED), Call(3, 20, 60, NO_SEED);
    var leases := [Lease(1, 0, 60, 1, None), Lease(2, 60, 10, 2, None)];
    FirstClaimThenRival(0, 60, c2);
    RivalLapsesItsLease(c2);
    ThirdAcquires(leases, c3);
    var last := Step(0, Step(0, Lapsed(leases), LookUp(c3)).0, TryReacquire(3)).0;
    var e1 := Before(0, Lapsed(leases), LookUp(c3), TryReacquire(3), last, []);
    var e2 := Before(0, Rivals(60, c2), TryReacquire(2), Guarded(2, Expire(10, None)), Lapsed(leases), e1);
    var e3 := Before(0, START, LookUp(c1), LookUp(c2), Rivals(60, c2), e2);
    OverlapAt30(last, leases);
  }

  lemma OverlapAt30(s: State, leases: seq<Lease>)
    requires leases == [Lease(1, 0, 60, 1, None), Lease(2, 60, 10, 2, None)]
    requires s.leases == leases + [Lease(3, 20, 80, 3, None)]
    ensures Overlapping(s)
  {
    assert Covers(s.leases[0], 30) && Covers(s.leases[2], 30);
  }

  // ---- Terminal rows -----------------------------------------------------------------

  predicate Terminal(row: Option<Row>) {
    row.Some? && row.value.status != InFlight
  }

  function Replay(row: Row): Claim {
    if row.status == Succeeded then Completed(row.result) else FailedBefore(row.failureCode, row.lastError)
  }

  // Main result: a recorded outcome is final, and every later claim of the key replays it.
  lemma {:induction false} OutcomeIsFinal(maxAttempts: nat, s: State, events: seq<Event>, c: Call)
    requires Terminal(s.row)
    ensures Run(maxAttempts, s, events).row == s.row
    ensures
      var t := Run(maxAttempts, s, events);
      c.token !in t.used ==> Step(maxAttempts, t, LookUp(c)).1 == Claimed(Replay(s.row.value))
    decreases |events|
  {
    if events != [] {
      OutcomeIsFinal(maxAttempts, Step(maxAttempts, s, events[0]).0, events[1..], c);
    }
  }

  // Once completeClaim (failClaim) succeeded, every later claim is answered with its result (code).
  lemma RecordedOutcomeReplays(maxAttempts: nat, s: State, e: Event, events: seq<Event>, c: Call)
    requires RecordsOutcome(e) && Step(maxAttempts, s, e).1 == Success(true)
    requires c.token !in Run(maxAttempts, Step(maxAttempts, s, e).0, events).used
    ensures
      var reply := Step(maxAttempts, Run(maxAttempts, Step(maxAttempts, s, e).0, events), LookUp(c)).1;
      match e.write
      case Complete(result, _) =>
        reply.Claimed? && reply.claim.Completed? && (result.Some? ==> reply.claim.result == result)
      case Fail(code, error, _) =>
        && reply.Claimed? && reply.claim.FailedBefore? && reply.claim.failureCode == Some(code)
        && (error.Some? ==> reply.claim.error == error)
      case _ => true
  {
    OutcomeIsFinal(maxAttempts, Step(maxAttempts, s, e).0, events, c);
  }

  predicate RecordsOutcome(e: Event) {
    e.Guarded? && (e.write.Complete? || e.write.Fail?)
  }

  // How many completeClaim and failClaim calls of a run were told they succeeded.
  function OutcomesRecorded(maxAttempts: nat, s: State, events: seq<Event>): nat
    decreases |events|
  {
    if events == [] then 0
    else
      var (t, reply) := Step(maxAttempts, s, events[0]);
      (if RecordsOutcome(events[0]) && reply == Success(true) then 1 else 0)
        + OutcomesRecorded(maxAttempts, t, events[1..])
  }

  // Main result: at most one outcome is ever recorded for a key, and the row is terminal
  // exactly when one was.
  lemma {:induction false} OutcomeRecordedOnce(maxAttempts: nat, s: State, events: seq<Event>)
    ensures OutcomesRecorded(maxAttempts, s, events) + (if Terminal(s.row) then 1 else 0)
         == (if Terminal(Run(maxAttempts, s, events).row) then 1 else 0)
    decreases |events|
  {
    if events != [] {
      OutcomeRecordedOnce(maxAttempts, Step(maxAttempts, s, events[0]).0, events[1..]);
    }
  }

  // ---- Fencing -----------------------------------------------------------------------

  // The token's call is over and the token does not hold the row.
  ghost predicate Fenced(s: State, t: Token) {
    t in s.used && t !in s.pending && !Holds(s.row, t, true)
  }

  // Main result: once fenced, always fenced; every call with the token fails and changes nothing.
  lemma {:induction false} FencedForever(maxAttempts: nat, s: State, events: seq<Event>, t: Token, w: Write)
    requires Inv(s) && Fenced(s, t)
    ensures
      var u := Run(maxAttempts, s, events);
      Fenced(u, t) && Step(maxAttempts, u, Guarded(t, w)) == (u, Success(false))
    decreases |events|
  {
    if events != [] {
      StepKeepsInv(maxAttempts, s, events[0]);
      FencedForever(maxAttempts, Step(maxAttempts, s, events[0]).0, events[1..], t, w);
    }
  }

  // What fences a holder: a re-acquisition, its own outcome or its own release.
  lemma HolderIsFencedBy(maxAttempts: nat, s: State, e: Event, t: Token)
    requires Inv(s) && Holds(s.row, t, true)
    ensures
      var (u, reply) := Step(maxAttempts, s, e);
      Fenced(u, t) <==>
        || (e.TryReacquire? && reply.Claimed? && reply.claim.Acquired?)
        || (RecordsOutcome(e) && reply == Success(true))
        || (e.Guarded? && e.write.Release? && reply == Success(true))
  {
  }

  // ---- The attempts ceiling ----------------------------------------------------------

  // The ceiling is checked on a snapshot: each call pending at once can pass it by one.
  ghost predicate CeilingInv(maxAttempts: nat, s: State)
    requires maxAttempts > 0
  {
    && |s.pending| <= s.peak
    && (maxAttempts == 1 ==> s.pending == map[] && s.peak == 0)
    && (s.row.Some? ==> s.row.value.attempts + |s.pending| <= Max(1, maxAttempts + s.peak - 1))
  }

  lemma PendingSize(p: map<Token, Stalled>, t: Token, v: Stalled)
    ensures t !in p ==> |p[t := v]| == |p| + 1
    ensures t in p ==> |p - {t}| == |p| - 1
  {
    if t !in p {
      assert p[t := v].Keys == p.Keys + {t};
    } else {
      assert (p - {t}).Keys == p.Keys - {t};
    }
  }

  lemma LookUpKeepsCeiling(maxAttempts: nat, s: State, c: Call)
    requires maxAttempts > 0
    requires Inv(s) && CeilingInv(maxAttempts, s)
    ensures CeilingInv(maxAttempts, Step(maxAttempts, s, LookUp(c)).0)
  {
    if c.token !in s.used && s.row.Some? {
      PendingSize(s.pending, c.token, Stalled(c, s.row.value.progress));
    }
  }

  lemma TryReacquireKeepsCeiling(maxAttempts: nat, s: State, t: Token)
    requires maxAttempts > 0
    requires Inv(s) && CeilingInv(maxAttempts, s)
    ensures CeilingInv(maxAttempts, Step(maxAttempts, s, TryReacquire(t)).0)
  {
    if t in s.pending {
      PendingSize(s.pending, t, s.pending[t]);
    }
  }

  lemma StepKeepsCeiling(maxAttempts: nat, s: State, e: Event)
    requires maxAttempts > 0
    requires Inv(s) && CeilingInv(maxAttempts, s)
    ensures CeilingInv(maxAttempts, Step(maxAttempts, s, e).0)
  {
    match e
    case LookUp(c) => LookUpKeepsCeiling(maxAttempts, s, c);
    case TryReacquire(t) => TryReacquireKeepsCeiling(maxAttempts, s, t);
    case Guarded(_, _) =>
  }

  lemma {:induction false} RunKeepsCeiling(maxAttempts: nat, s: State, events: seq<Event>)
    requires maxAttempts > 0
    requires Inv(s) && CeilingInv(maxAttempts, s)
    ensures CeilingInv(maxAttempts, Run(maxAttempts, s, events))
    decreases |events|
  {
    if events != [] {
      StepKeepsInv(maxAttempts, s, events[0]);
      StepKeepsCeiling(maxAttempts, s, events[0]);
      RunKeepsCeiling(maxAttempts, Step(maxAttempts, s, events[0]).0, events[1..]);
    }
  }

  // Main result: with at most `peak` calls pending at once, attempts never pass
  // maxAttempts - 1 + peak; so callers that take turns never pass maxAttempts.
  lemma CeilingOvershoot(maxAttempts: nat, events: seq<Event>)
    requires maxAttempts > 0
    ensures
      var t := Run(maxAttempts, START, events);
      t.row.Some? ==>
        && t.row.value.attempts <= Max(1, maxAttempts + t.peak - 1)
        && (t.peak <= 1 || maxAttempts == 1 ==> t.row.value.attempts <= maxAttempts)
  {
    RunKeepsCeiling(maxAttempts, START, events);
  }

  // ---- The bound is reached ------------------------------------------------------------

  // A row that expires at once, and the calls with these tokens between their two steps.
  ghost predicate Waiting(s: State, attempts: nat, lo: nat, hi: nat) {
    && lo <= hi
    && s.row.Some? && s.row.value.attempts == attempts && Expired(s.row.value, 0)
    && (forall t :: t in s.pending <==> lo <= t < hi)
    && |s.pending| == hi - lo
    && (forall t | t in s.pending :: s.pending[t].call == Call(t, 0, 0, NO_SEED))
    && (forall t | t in s.used :: t < hi)
  }

  lemma OneQueues(maxAttempts: nat, s: State, attempts: nat, lo: nat, hi: nat)
    requires Waiting(s, attempts, lo, hi) && attempts < maxAttempts
    ensures
      var next := Step(maxAttempts, s, LookUp(Call(hi, 0, 0, NO_SEED))).0;
      Waiting(next, attempts, lo, hi + 1) && next.peak == Max(s.peak, hi + 1 - lo)
  {
    PendingSize(s.pending, hi, Stalled(Call(hi, 0, 0, NO_SEED), s.row.value.progress));
  }

  lemma OneFires(maxAttempts: nat, s: State, attempts: nat, lo: nat, hi: nat)
    requires Waiting(s, attempts, lo, hi) && lo < hi
    ensures
      var next := Step(maxAttempts, s, TryReacquire(lo)).0;
      Waiting(next, attempts + 1, lo + 1, hi) && next.peak == s.peak
  {
    PendingSize(s.pending, lo, s.pending[lo]);
  }

  lemma {:induction false} RunConcat(maxAttempts: nat, s: State, a: seq<Event>, b: seq<Event>)
    ensures Run(maxAttempts, s, a + b) == Run(maxAttempts, Run(maxAttempts, s, a), b)
    decreases |a|
  {
    if a == [] {
      assert a + b == b;
    } else {
      assert (a + b)[0] == a[0] && (a + b)[1..] == a[1..] + b;
      RunConcat(maxAttempts, Step(maxAttempts, s, a[0]).0, a[1..], b);
    }
  }

  lemma RunOne(maxAttempts: nat, s: State, e: Event, rest: seq<Event>)
    ensures Run(maxAttempts, s, [e] + rest) == Run(maxAttempts, Step(maxAttempts, s, e).0, rest)
  {
    assert ([e] + rest)[1..] == rest;
  }

  lemma {:induction false} ManyQueue(maxAttempts: nat, s: State, attempts: nat, lo: nat, hi: nat, n: nat)
    returns (events: seq<Event>)
    requires Waiting(s, attempts, lo, hi) && attempts < maxAttempts
    ensures
      var last := Run(maxAttempts, s, events);
      Waiting(last, attempts, lo, hi + n) && last.peak == if n == 0 then s.peak else Max(s.peak, hi + n - lo)
    decreases n
  {
    events := [];
    if n > 0 {
      var e := LookUp(Call(hi, 0, 0, NO_SEED));
      OneQueues(maxAttempts, s, attempts, lo, hi);
      var rest := ManyQueue(maxAttempts, Step(maxAttempts, s, e).0, attempts, lo, hi + 1, n - 1);
      RunOne(maxAttempts, s, e, rest);
      events := [e] + rest;
    }
  }

  lemma {:induction false} AllFire(maxAttempts: nat, s: State, attempts: nat, lo: nat, hi: nat)
    returns (events: seq<Event>)
    requires Waiting(s, attempts, lo, hi)
    ensures
      var last := Run(maxAttempts, s, events);
      Waiting(last, attempts + (hi - lo), hi, hi) && last.peak == s.peak
    decreases hi - lo
  {
    events := [];
    if lo < hi {
      OneFires(maxAttempts, s, attempts, lo, hi);
      var rest := AllFire(maxAttempts, Step(maxAttempts, s, TryReacquire(lo)).0, attempts + 1, lo + 1, hi);
      RunOne(maxAttempts, s, TryReacquire(lo), rest);
      events := [TryReacquire(lo)] + rest;
    }
  }

  // Callers that take turns, up to a number of attempts.
  lemma {:induction false} InTurns(maxAttempts: nat, s: State, attempts: nat, hi: nat, target: nat)
    returns (events: seq<Event>, last: nat)
    requires Waiting(s, attempts, hi, hi) && attempts <= target <= maxAttempts && s.peak <= 1
    ensures Waiting(Run(maxAttempts, s, events), target, last, last) && Run(maxAttempts, s, events).peak <= 1
    decreases target - attempts
  {
    events, last := [], hi;
    if attempts < target {
      var queue := ManyQueue(maxAttempts, s, attempts, hi, hi, 1);
      var queued := Run(maxAttempts, s, queue);
      var fire := AllFire(maxAttempts, queued, attempts, hi, hi + 1);
      RunConcat(maxAttempts, s, queue, fire);
      var rest;
      rest, last := InTurns(maxAttempts, Run(maxAttempts, queued, fire), attempts + 1, hi + 1, target);
      RunConcat(maxAttempts, s, queue + fire, rest);
      events := queue + fire + rest;
    }
  }

  ghost predicate Reaches(maxAttempts: nat, events: seq<Event>, peak: nat, attempts: nat) {
    var s := Run(maxAttempts, START, events);
    s.row.Some? && s.peak == peak && s.row.value.attempts == attempts
  }

  // Main result: the bound is reached for every ceiling above one and every number of calls
  // pending at once.
  lemma CeilingReached(maxAttempts: nat, p: nat) returns (events: seq<Event>)
    requires maxAttempts >= 2 && p >= 1
    ensures Reaches(maxAttempts, events, p, maxAttempts - 1 + p)
  {
    var first := LookUp(Call(0, 0, 0, NO_SEED));
    var s1 := Step(maxAttempts, START, first).0;
    var turns, n := InTurns(maxAttempts, s1, 1, 1, maxAttempts - 1);
    var s2 := Run(maxAttempts, s1, turns);
    var queue := ManyQueue(maxAttempts, s2, maxAttempts - 1, n, n, p);
    var s3 := Run(maxAttempts, s2, queue);
    var fire := AllFire(maxAttempts, s3, maxAttempts - 1, n, n + p);
    RunConcat(maxAttempts, s1, turns, queue);
    RunConcat(maxAttempts, s1, turns + queue, fire);
    RunOne(maxAttempts, START, first, turns + queue + fire);
    events := [first] + (turns + queue + fire);
  }

  ghost predicate KeepsCeiling(maxAttempts: nat, events: seq<Event>) {
    var s := Run(maxAttempts, START, events);
    s.row.Some? ==> s.row.value.attempts <= maxAttempts
  }

  // Main result: all runs with at most p calls pending at once keep the ceiling if and only if
  // callers take turns or only one attempt is allowed.
  lemma CeilingKeptExactly(maxAttempts: nat, p: nat)
    requires maxAttempts > 0
    ensures (forall events | Run(maxAttempts, START, events).peak <= p :: KeepsCeiling(maxAttempts, events))
      <==> p <= 1 || maxAttempts == 1
  {
    if p <= 1 || maxAttempts == 1 {
      forall events | Run(maxAttempts, START, events).peak <= p ensures KeepsCeiling(maxAttempts, events) {
        CeilingOvershoot(maxAttempts, events);
      }
    } else {
      var events := CeilingReached(maxAttempts, p);
      assert !KeepsCeiling(maxAttempts, events);
    }
  }

  // Two stalled callers do pass a ceiling of two.
  lemma StalledCallersPassTheCeiling()
    ensures exists events :: var s := Run(2, START, events); s.row.Some? && s.row.value.attempts == 3
  {
    var c1, c2, c3 := Call(1, 0, 10, NO_SEED), Call(2, 20, 10, NO_SEED), Call(3, 100, 10, NO_SEED);
    FirstClaimThenRival(2, 10, c2);
    var s3 := Step(2, Rivals(10, c2), LookUp(c3)).0;
    var s4 := Step(2, s3, TryReacquire(2)).0;
    var s5 := Step(2, s4, TryReacquire(3)).0;
    ThirdStalls(c2, c3, s3, s4);
    ThirdOvershoots(c3, s4, s5);
    var e1 := Before(2, s4, TryReacquire(3), TryReacquire(3), s5, []);
    var e2 := Before(2, Rivals(10, c2), LookUp(c3), TryReacquire(2), s4, e1);
    var e3 := Before(2, START, LookUp(c1), LookUp(c2), Rivals(10, c2), e2);
  }

  lemma ThirdStalls(c2: Call, c3: Call, s3: State, s4: State)
    requires c2 == Call(2, 20, 10, NO_SEED) && c3 == Call(3, 100, 10, NO_SEED)
    requires s3 == Step(2, Rivals(10, c2), LookUp(c3)).0 && s4 == Step(2, s3, TryReacquire(2)).0
    ensures s4.row == Some(Held(2, 30, 2)) && s4.pending == map[3 := Stalled(c3, None)]
  {
    assert s3.pending == map[2 := Stalled(c2, None), 3 := Stalled(c3, None)];
  }

  lemma ThirdOvershoots(c3: Call, s4: State, s5: State)
    requires c3 == Call(3, 100, 10, NO_SEED)
    requires s4.row == Some(Held(2, 30, 2)) && s4.pending == map[3 := Stalled(c3, None)]
    requires s5 == Step(2, s4, TryReacquire(3)).0
    ensures s5.row == Some(Held(3, 110, 3)) && Step(2, s5, TryReacquire(3)).0 == s5
  {
    assert s5.pending == map[];
  }
}

// The plugin's methods over the stored rows. Each is one atomic step on one key, proved to be
// the step of the same name in the protocol; claimKey's second driver call is a method of its
// own, because other calls may land between the two.
module Idempotency {
  import opened Common
  import opened IdempotencyProtocol

  datatype Error = BadRequest

  function Get(rows: map<string, Row>, key: string): Option<Row> {
    if key in rows then Some(rows[key]) else None
  }

  function ReplyTo(d: Decision): Reply {
    match d
    case Answer(claim) => Claimed(claim)
    case Retry(_) => Undecided
  }

  // Only this key's row changed, and it changed as the protocol's step says.
  ghost predicate IsStep(maxAttempts: nat, key: string, before: map<string, Row>, after: map<string, Row>,
                         e: Event, reply: Reply) {
    && (forall k | k != key :: Get(after, k) == Get(before, k))
    && (forall s: State | s.row == Get(before, key) && Ready(s, e) ::
          Step(maxAttempts, s, e).0.row == Get(after, key) && Step(maxAttempts, s, e).1 == reply)
  }

  // The event belongs to a call at that point: a new token, or one between its two steps.
  ghost predicate Ready(s: State, e: Event) {
    match e
    case LookUp(c) => c.token !in s.used
    case TryReacquire(t) => t in s.pending
    case Guarded(_, _) => true
  }

  class IdempotencyStore {
    const maxAttempts: nat
    const defaultLeaseMs: int
    var rows: map<string, Row>

    constructor (maxAttempts: nat := 0, defaultLeaseMs: int := 60000)
      ensures rows == map[] && this.maxAttempts == maxAttempts && this.defaultLeaseMs == defaultLeaseMs
    {
      this.maxAttempts, this.defaultLeaseMs := maxAttempts, defaultLeaseMs;
      rows := map[];
    }

    method GetOrCreate(key: string, data: Row) returns (doc: Row, created: bool)
      modifies this`rows
      ensures created <==> key !in old(rows)
      ensures doc == (if created then data else old(rows)[key])
      ensures rows == old(rows)[key := doc]
    {
      created := key !in rows;
      if created {
        rows := rows[key := data];
      }
      doc := rows[key];
    }

    method ClaimKey(key: string, token: Token, now: Time, leaseMs: Option<int>, seed: Seed)
      returns (r: Result<Decision, Error>)
      modifies this`rows
      ensures r.Err? <==> key == ""
      ensures r.Err? ==> rows == old(rows)
      ensures r.Ok? ==>
        var call := Call(token, now, if leaseMs.Some? then leaseMs.value else defaultLeaseMs, seed);
        && IsStep(maxAttempts, key, old(rows), rows, LookUp(call), ReplyTo(r.value))
        && (r.value.Retry? ==> key in rows && r.value.stalled == Stalled(call, rows[key].progress))
    {
      if key == "" {
        return Err(BadRequest);
      }
      var ms := if leaseMs.Some? then leaseMs.value else defaultLeaseMs;
      var call := Call(token, now, ms, seed);
      var row, created := GetOrCreate(key, Fresh(call));
      if created {
        return Ok(Answer(Acquired(token, 1, None)));
      }
      if row.status == Succeeded {
        return Ok(Answer(Completed(row.result)));
      }
      if row.status == Failed {
        return Ok(Answer(FailedBefore(row.failureCode, row.lastError)));
      }
      if row.expiresAt > now {
        return Ok(Answer(Busy(row.progress, Some(row.token))));
      }
      if maxAttempts > 0 && row.attempts >= maxAttempts {
        return Ok(Answer(Exhausted(row.attempts, row.progress)));
      }
      return Ok(Retry(Stalled(call, row.progress)));
    }

    // The second half of claimKey: the re-acquisition compare-and-set.
    method Reacquire(key: string, stalled: Stalled) returns (claim: Claim)
      modifies this`rows
      ensures forall k | k != key :: Get(rows, k) == Get(old(rows), k)
      ensures forall s: State | s.row == Get(old(rows), key)
          && stalled.call.token in s.pending && s.pending[stalled.call.token] == stalled ::
        && Step(maxAttempts, s, TryReacquire(stalled.call.token)).0.row == Get(rows, key)
        && Step(maxAttempts, s, TryReacquire(stalled.call.token)).1 == Claimed(claim)
    {
      var call := stalled.call;
      if key in rows && Expired(rows[key], call.now) {
        rows := rows[key := Reacquired(rows[key], call)];
        return Acquired(call.token, rows[key].attempts, rows[key].progress);
      }
      return Busy(stalled.seen, None);
    }

    // findOneAndUpdate under { ...where, key, leaseToken, status: in flight }.
    method GuardedWrite(key: string, token: Token, w: Write) returns (ok: bool)
      requires !w.Release?
      modifies this`rows
      ensures IsStep(maxAttempts, key, old(rows), rows, Guarded(token, w), Success(ok))
    {
      if key in rows && rows[key].token == token && rows[key].status == InFlight && GuardOf(w) {
        rows := rows[key := Written(rows[key], w).value];
        return true;
      }
      return false;
    }

    method SaveClaimProgress(key: string, token: Token, progress: string, where: bool := true) returns (ok: bool)
      modifies this`rows
      ensures IsStep(maxAttempts, key, old(rows), rows, Guarded(token, Save(progress, where)), Success(ok))
    {
      ok := GuardedWrite(key, token, Save(progress, where));
    }

    method CompleteClaim(key: string, token: Token, result: Option<string>, where: bool := true) returns (ok: bool)
      modifies this`rows
      ensures IsStep(maxAttempts, key, old(rows), rows, Guarded(token, Complete(result, where)), Success(ok))
    {
      ok := GuardedWrite(key, token, Complete(result, where));
    }

    method FailClaim(key: string, token: Token, code: string, error: Option<string>, where: bool := true)
      returns (r: Result<bool, Error>)
      modifies this`rows
      ensures r.Err? <==> code == ""
      ensures r.Err? ==> rows == old(rows)
      ensures r.Ok? ==>
        IsStep(maxAttempts, key, old(rows), rows, Guarded(token, Fail(code, error, where)), Success(r.value))
    {
      if code == "" {
        return Err(BadRequest);
      }
      var ok := GuardedWrite(key, token, Fail(code, error, where));
      r := Ok(ok);
    }

    // deleteMany under the same guard; at most one row has the key.
    method ReleaseClaim(key: string, token: Token) returns (ok: bool)
      modifies this`rows
      ensures IsStep(maxAttempts, key, old(rows), rows, Guarded(token, Release), Success(ok))
    {
      ok := key in rows && rows[key].token == token && rows[key].status == InFlight;
      if ok {
        rows := rows - {key};
      }
    }

    method ExpireClaim(key: string, token: Token, now: Time, error: Option<string>) returns (ok: bool)
      modifies this`rows
      ensures IsStep(maxAttempts, key, old(rows), rows, Guarded(token, Expire(now, error)), Success(ok))
    {
      ok := GuardedWrite(key, token, Expire(now, error));
    }
  }
}
